/**
 * The disease search (`rag_search.py`): an inverted-file (IVF) index over disease
 * embeddings, built by training its clusters and then adding the vectors, and a search that
 * embeds the joined symptom list and maps the returned row numbers to metadata records.
 *
 * The embedding request is the function `embed` (`None`: it raised) and the index's
 * nearest-neighbour search is the function `search`; the clustering itself is not modelled.
 */
module RagSearch {
  import opened Wrappers
  import opened PyText
  import Ranking
  import opened VectorFaiss

  /** How a FAISS index compares vectors. */
  datatype Metric = L2 | InnerProduct

  /** The coarse quantizer an IVF index assigns vectors to clusters with. */
  datatype Quantizer = Quantizer(dimension: nat, metric: Metric)

  /** `dimension=1536`, the width of the ada-002 embeddings. */
  const DefaultDimension: nat := 1536
  /** `nlist=50` */
  const DefaultClusters: nat := 50
  /** The most clusters a disease search probes. */
  const MaxProbe: nat := 8
  /** `top_k=3` */
  const DefaultTopK: nat := 3
  /** The `nprobe` FAISS gives a new IVF index. */
  const FaissDefaultProbe: nat := 1
  /** The label FAISS puts where a query has fewer than `k` hits. */
  const NoHit: int := -1

  /** `min(8, nlist)`: the clusters a search probes. */
  function ProbeCount(nlist: nat): (p: nat)
    ensures p <= nlist && p <= MaxProbe
    ensures p == nlist || p == MaxProbe
    ensures p == nlist <==> nlist <= MaxProbe
  {
    if MaxProbe <= nlist then MaxProbe else nlist
  }

  /** A `faiss.IndexIVFFlat`: fixed width, cluster count, metric and quantizer; trained flag, vectors and `nprobe` change. */
  class IvfIndex {
    const dimension: nat
    const nlist: nat
    const metric: Metric
    const quantizer: Quantizer
    var trained: bool
    var rows: seq<Vector>
    var nprobe: nat

    /** `faiss.IndexIVFFlat(quantizer, d, nlist, metric)`: untrained and empty. */
    constructor(quantizer: Quantizer, dimension: nat, nlist: nat, metric: Metric)
      ensures this.quantizer == quantizer && this.dimension == dimension
      ensures this.nlist == nlist && this.metric == metric
      ensures !trained && rows == [] && nprobe == FaissDefaultProbe
    {
      this.quantizer := quantizer;
      this.dimension := dimension;
      this.nlist := nlist;
      this.metric := metric;
      trained := false;
      rows := [];
      nprobe := FaissDefaultProbe;
    }

    /**
     * `index.train(x)`: k-means needs at least one training point per cluster, and raises
     * otherwise (`ok == false`). Training adds no vectors.
     */
    method Train(data: seq<Vector>) returns (ok: bool)
      modifies this
      ensures ok <==> |data| >= nlist
      ensures trained == (old(trained) || ok)
      ensures rows == old(rows) && nprobe == old(nprobe)
    {
      ok := |data| >= nlist;
      if ok {
        trained := true;
      }
    }

    /** `index.add(x)`: only a trained index accepts vectors; they are appended in order. */
    method Add(data: seq<Vector>)
      requires trained
      requires forall i :: 0 <= i < |data| ==> |data[i]| == dimension
      modifies this
      ensures rows == old(rows) + data
      ensures trained && nprobe == old(nprobe)
    {
      rows := rows + data;
    }

    /** `index.nprobe = p` */
    method SetProbe(p: nat)
      modifies this
      ensures nprobe == p
      ensures trained == old(trained) && rows == old(rows)
    {
      nprobe := p;
    }
  }

  /**
   * `create_ivf_index_for_diseases`: an inner-product IVF index over an inner-product
   * quantizer, trained on the embeddings and then holding exactly them, probing
   * `min(8, nlist)` clusters. `None` when training raises (fewer embeddings than clusters).
   */
  method CreateIvfIndexForDiseases(embeddings: seq<Vector>, dimension: nat, nlist: nat)
    returns (r: Option<IvfIndex>)
    requires forall i :: 0 <= i < |embeddings| ==> |embeddings[i]| == dimension
    ensures r.Some? <==> |embeddings| >= nlist
    ensures r.Some? ==>
      && fresh(r.value)
      && r.value.quantizer == Quantizer(dimension, InnerProduct)
      && r.value.metric == InnerProduct
      && r.value.dimension == dimension && r.value.nlist == nlist
      && r.value.trained
      && r.value.rows == embeddings
      && r.value.nprobe == ProbeCount(nlist)
  {
    var quantizer := Quantizer(dimension, InnerProduct);
    var index := new IvfIndex(quantizer, dimension, nlist, InnerProduct);
    var ok := index.Train(embeddings);
    if !ok {
      return None;
    }
    index.Add(embeddings);
    index.SetProbe(ProbeCount(nlist));
    return Some(index);
  }

  /** `', '.join(symptom_list)`: the text the query embedding is computed from. */
  function QueryText(symptoms: seq<string>): string {
    Join(symptoms, ", ")
  }

  /** A list of one symptom is queried as that symptom alone. */
  lemma QueryTextSingle(symptom: string)
    ensures QueryText([symptom]) == symptom
  {
  }

  /** Each symptom after the first is preceded by `", "` in the query text. */
  lemma QueryTextCons(first: string, rest: seq<string>)
    requires rest != []
    ensures QueryText([first] + rest) == first + ", " + QueryText(rest)
  {
    assert ([first] + rest)[1..] == rest;
  }

  /** The row a Python index `i` names in a list of length `n` (negative counts from the end). */
  function PyIndex(i: int, n: nat): int {
    if i < 0 then n + i else i
  }

  /**
   * `[meta[i] for i in I[0]]`, as written: Python indexing, so a `-1` label (no hit) reads
   * the last record. An index outside the list raises `IndexError`.
   */
  function SearchResultsAsWritten<T>(ids: seq<int>, meta: seq<T>): (r: Result<seq<T>>)
    ensures r.Success? <==> forall k :: 0 <= k < |ids| ==> -|meta| <= ids[k] < |meta|
    ensures r.Success? ==>
      && |r.value| == |ids|
      && forall k :: 0 <= k < |ids| ==> r.value[k] == meta[PyIndex(ids[k], |meta|)]
  {
    if forall k :: 0 <= k < |ids| ==> -|meta| <= ids[k] < |meta| then
      Success(seq(|ids|, k requires 0 <= k < |ids| => meta[PyIndex(ids[k], |meta|)]))
    else Failure("IndexError: list index out of range")
  }

  /** A label that names a hit. */
  predicate IsHit(i: int) { i != NoHit }

  /**
   * The results with the no-hit labels dropped: the record of every real hit, in search
   * order. A label past the end of the records still raises.
   */
  function SearchResults<T>(ids: seq<int>, meta: seq<T>): (r: Result<seq<T>>)
    requires forall k :: 0 <= k < |ids| ==> ids[k] >= NoHit
    ensures r.Success? <==> forall k :: 0 <= k < |ids| ==> ids[k] < |meta|
    ensures r.Success? ==>
      var hits := Ranking.Filter(ids, IsHit);
      && |r.value| == |hits|
      && forall k :: 0 <= k < |hits| ==> 0 <= hits[k] < |meta| && r.value[k] == meta[hits[k]]
  {
    var hits := Ranking.Filter(ids, IsHit);
    if forall k :: 0 <= k < |ids| ==> ids[k] < |meta| then
      Ranking.FilterSubset(ids, IsHit);
      assert forall k :: 0 <= k < |hits| ==> hits[k] in ids;
      Success(seq(|hits|, k requires 0 <= k < |hits| => meta[hits[k]]))
    else Failure("IndexError: list index out of range")
  }

  /** With no missing hits, dropping the no-hit labels changes nothing. */
  lemma SearchResultsAgree<T>(ids: seq<int>, meta: seq<T>)
    requires forall k :: 0 <= k < |ids| ==> 0 <= ids[k] < |meta|
    ensures SearchResults(ids, meta) == SearchResultsAsWritten(ids, meta)
  {
    AllHits(ids);
    var a, b := SearchResults(ids, meta), SearchResultsAsWritten(ids, meta);
    assert a.Success? && b.Success?;
    assert a.value == b.value by {
      forall k | 0 <= k < |ids| ensures a.value[k] == b.value[k] {
        assert PyIndex(ids[k], |meta|) == ids[k];
      }
    }
  }

  lemma {:induction false} AllHits(ids: seq<int>)
    requires forall k :: 0 <= k < |ids| ==> ids[k] >= 0
    ensures Ranking.Filter(ids, IsHit) == ids
    decreases |ids|
  {
    if ids != [] {
      AllHits(ids[1..]);
      assert ids == [ids[0]] + ids[1..];
    }
  }

  /**
   * When the probed clusters hold a single hit for a top-2 query, FAISS pads with `-1`: the
   * code as written returns the last disease record as a second result; dropping the
   * padding returns the one hit.
   */
  lemma MissingHitReadsLastRecord<T>(hit: nat, meta: seq<T>)
    requires hit < |meta|
    ensures SearchResultsAsWritten([hit, NoHit], meta) == Success([meta[hit], meta[|meta| - 1]])
    ensures SearchResults([hit, NoHit], meta) == Success([meta[hit]])
  {
    var ids := [hit, NoHit];
    var a := SearchResultsAsWritten(ids, meta);
    assert ids[0] == hit && ids[1] == NoHit && PyIndex(NoHit, |meta|) == |meta| - 1;
    assert a.Success?;
    assert a.value == [meta[hit], meta[|meta| - 1]];
    OneHitLeft(hit);
    var b := SearchResults(ids, meta);
    assert b.Success?;
    assert b.value == [meta[hit]];
  }

  /** Dropping the no-hit labels from one hit and one padding label leaves the hit. */
  lemma OneHitLeft(hit: nat)
    ensures Ranking.Filter([hit, NoHit], IsHit) == [hit]
  {
    var ids := [hit, NoHit];
    assert ids[1..] == [NoHit];
    assert Ranking.Filter([NoHit], IsHit) == [] by {
      assert [NoHit][1..] == [];
    }
  }

  /**
   * `search_similar_diseases(symptom_list, top_k)` after loading the index and records:
   * the query embedding is that of the joined symptoms, and each returned label picks a
   * record. `search(q, k)` is the index's answer, always `k` labels; the padding labels are
   * dropped (see `SearchResultsAsWritten` for the code as written).
   */
  function SearchSimilarDiseases<T>(symptoms: seq<string>, meta: seq<T>, embed: string -> Option<Vector>,
                                    search: (Vector, nat) -> seq<int>, topK: nat): (r: Result<seq<T>>)
    requires forall q, k :: |search(q, k)| == k && forall j :: 0 <= j < k ==> search(q, k)[j] >= NoHit
    ensures embed(QueryText(symptoms)).None? ==> r.Failure?
    ensures embed(QueryText(symptoms)).Some? ==>
      var ids := search(embed(QueryText(symptoms)).value, topK);
      && r == SearchResults(ids, meta)
      && ((forall k :: 0 <= k < |ids| ==> 0 <= ids[k] < |meta|) ==> r == SearchResultsAsWritten(ids, meta))
    ensures r.Success? ==>
      && |r.value| <= topK
      && var ids := search(embed(QueryText(symptoms)).value, topK);
         (forall k :: 0 <= k < |ids| ==> IsHit(ids[k])) ==> |r.value| == topK
  {
    match embed(QueryText(symptoms))
    case None => Failure(EmbeddingError)
    case Some(query) =>
      var ids := search(query, topK);
      if forall k :: 0 <= k < |ids| ==> 0 <= ids[k] < |meta| then
        SearchResultsAgree(ids, meta);
        SearchResults(ids, meta)
      else SearchResults(ids, meta)
  }
}
