/**
 * `build_faiss_index` (`vector_faiss.py`): every drug record is embedded in turn, the
 * embeddings are stacked and added to a flat L2 index, and the records are returned as the
 * metadata, so that row i of the index belongs to record i.
 *
 * The embedding request is the function `embed`; `None` stands for a request that raised.
 * Vectors hold exact reals; float32 rounding is not modelled.
 */
module VectorFaiss {
  import opened Wrappers
  import opened MedicineRag

  type Vector = seq<real>

  /** A `faiss.IndexFlatL2`: its width and the vectors added to it, row by row. */
  datatype FlatIndex = FlatIndex(dimension: nat, rows: seq<Vector>)

  /** Every row of the index has the index's width. */
  predicate WellFormed(index: FlatIndex) {
    forall i :: 0 <= i < |index.rows| ==> |index.rows[i]| == index.dimension
  }

  /** The error an embedding request that raised turns into. */
  const EmbeddingError: string := "embedding request failed"

  /**
   * The text embedded for a record: the name, then purpose, usage, precautions and side
   * effects, separated by single spaces (an absent field is the empty string).
   */
  function EmbeddingText(d: Drug): string {
    d.itemName + " " + d.efcy + " " + d.useMethod + " " + d.atpn + " " + d.se
  }

  /** A model that answers every request returns vectors of one width. */
  ghost predicate Uniform(embed: string -> Option<Vector>, width: nat) {
    forall t :: embed(t).Some? ==> |embed(t).value| == width
  }

  /**
   * The embeddings of the records in order; `None` as soon as one request raises, since
   * the exception ends the loop.
   */
  function Embeddings(items: seq<Drug>, embed: string -> Option<Vector>): (r: Option<seq<Vector>>)
    ensures r.Some? <==> forall i :: 0 <= i < |items| ==> embed(EmbeddingText(items[i])).Some?
    ensures r.Some? ==>
      && |r.value| == |items|
      && forall i :: 0 <= i < |items| ==> embed(EmbeddingText(items[i])) == Some(r.value[i])
    decreases |items|
  {
    if items == [] then Some([])
    else match embed(EmbeddingText(items[0]))
      case None => None
      case Some(v) =>
        var tail := Embeddings(items[1..], embed);
        if tail.None? then
          assert exists j :: 0 <= j < |items| - 1 && embed(EmbeddingText(items[1..][j])).None?;
          var j :| 0 <= j < |items| - 1 && embed(EmbeddingText(items[1..][j])).None?;
          assert items[1..][j] == items[j + 1];
          None
        else
          var r := [v] + tail.value;
          assert forall i :: 1 <= i < |items| ==> items[i] == items[1..][i - 1] && r[i] == tail.value[i - 1];
          Some(r)
  }

  /**
   * What `build_faiss_index` returns: the flat index over the embeddings, together with
   * the records themselves as metadata. Stacking no embeddings raises, so the caller must
   * pass at least one record.
   */
  function Build(drugData: seq<Drug>, embed: string -> Option<Vector>, width: nat): (r: Result<(FlatIndex, seq<Drug>)>)
    requires drugData != []
    requires Uniform(embed, width)
    ensures r.Failure? <==> exists i :: 0 <= i < |drugData| && embed(EmbeddingText(drugData[i])).None?
    ensures r.Success? ==>
      var (index, meta) := r.value;
      && meta == drugData
      && index.dimension == width && WellFormed(index)
      && |index.rows| == |meta|
      && forall i :: 0 <= i < |meta| ==> embed(EmbeddingText(meta[i])) == Some(index.rows[i])
  {
    match Embeddings(drugData, embed)
    case None => Failure(EmbeddingError)
    case Some(rows) =>
      assert forall i :: 0 <= i < |rows| ==> |rows[i]| == width by {
        forall i | 0 <= i < |rows| ensures |rows[i]| == width {
          assert embed(EmbeddingText(drugData[i])) == Some(rows[i]);
        }
      }
      Success((FlatIndex(width, rows), drugData))
  }

  /**
   * `build_faiss_index`: the loop appends one embedding and one record per item, then the
   * embeddings go into a flat L2 index of their width.
   */
  method BuildFaissIndex(drugData: seq<Drug>, embed: string -> Option<Vector>, width: nat)
    returns (r: Result<(FlatIndex, seq<Drug>)>)
    requires drugData != []
    requires Uniform(embed, width)
    ensures r == Build(drugData, embed, width)
  {
    var embeddings: seq<Vector> := [];
    var meta: seq<Drug> := [];
    var i := 0;
    while i < |drugData|
      invariant 0 <= i <= |drugData|
      invariant meta == drugData[..i]
      invariant |embeddings| == i
      invariant forall j :: 0 <= j < i ==> embed(EmbeddingText(drugData[j])) == Some(embeddings[j])
    {
      var item := drugData[i];
      var text := EmbeddingText(item);
      var emb := embed(text);
      if emb.None? {
        assert embed(EmbeddingText(drugData[i])).None?;
        return Failure(EmbeddingError);
      }
      embeddings := embeddings + [emb.value];
      meta := meta + [item];
      i := i + 1;
    }
    assert meta == drugData;
    var all := Embeddings(drugData, embed);
    assert all.Some?;
    assert all.value == embeddings by {
      forall j | 0 <= j < |drugData| ensures all.value[j] == embeddings[j] {
        assert embed(EmbeddingText(drugData[j])) == Some(all.value[j]);
      }
    }
    r := Success((FlatIndex(width, embeddings), meta));
  }

  /** Two records with the same embedding text get the same row: the index cannot tell them apart. */
  lemma SameTextSameRow(drugData: seq<Drug>, embed: string -> Option<Vector>, width: nat, i: nat, j: nat)
    requires drugData != [] && Uniform(embed, width)
    requires Build(drugData, embed, width).Success?
    requires i < |drugData| && j < |drugData|
    requires EmbeddingText(drugData[i]) == EmbeddingText(drugData[j])
    ensures var index := Build(drugData, embed, width).value.0;
      index.rows[i] == index.rows[j]
  {
    var index := Build(drugData, embed, width).value.0;
    assert embed(EmbeddingText(drugData[i])) == Some(index.rows[i]);
    assert embed(EmbeddingText(drugData[j])) == Some(index.rows[j]);
  }
}
