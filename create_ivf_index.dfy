/**
 * The two index-building scripts (`rag_utils/create_ivf_index.py` for diseases and
 * `medicine_rag_utils/create_ivf_index.py` for drugs): load saved embeddings, choose a
 * cluster count from how many there are, build an IVF index and write it to disk.
 *
 * The embeddings file is an `Option` (`None`: absent) and whether the index write succeeds
 * is a flag; a file that fails to unpickle is not modelled.
 */
module CreateIvfIndex {
  import opened Wrappers
  import opened VectorFaiss
  import opened RagSearch

  /** A pickled two-dimensional array: every row has the same width. */
  datatype EmbeddingsFile = EmbeddingsFile(width: nat, rows: seq<Vector>)

  predicate Rectangular(f: EmbeddingsFile) {
    forall i :: 0 <= i < |f.rows| ==> |f.rows[i]| == f.width
  }

  /** `min(50, max(5, n // 20))`: about twenty diseases per cluster, between 5 and 50 clusters. */
  function DiseaseClusters(n: nat): (nlist: nat)
    ensures 5 <= nlist <= 50
    ensures nlist == n / 20 <==> 100 <= n <= 1019
  {
    var q := n / 20;
    if q <= 5 then 5 else if q <= 50 then q else 50
  }

  /** `min(100, max(10, n // 10))`: about ten drugs per cluster, between 10 and 100 clusters. */
  function DrugClusters(n: nat): (nlist: nat)
    ensures 10 <= nlist <= 100
    ensures nlist == n / 10 <==> 100 <= n <= 1009
  {
    var q := n / 10;
    if q <= 10 then 10 else if q <= 100 then q else 100
  }

  /** More embeddings never mean fewer clusters. */
  lemma ClustersMonotone(n: nat, m: nat)
    requires n <= m
    ensures DiseaseClusters(n) <= DiseaseClusters(m)
    ensures DrugClusters(n) <= DrugClusters(m)
  {
  }

  /**
   * Training needs one embedding per cluster: the disease index can be built from `n`
   * embeddings exactly when `n >= 5`, the drug index exactly when `n >= 10`.
   */
  lemma EnoughToTrain(n: nat)
    ensures n >= DiseaseClusters(n) <==> n >= 5
    ensures n >= DrugClusters(n) <==> n >= 10
  {
    assert n / 20 <= n;
    assert n / 10 <= n;
  }

  /**
   * `create_disease_ivf_index`: False without building anything when the embeddings file
   * is absent; otherwise the index is built over the file's width with `DiseaseClusters`
   * clusters and returned for writing. True only when the build and the write succeed;
   * `written` is what reaches the index file.
   */
  method CreateDiseaseIvfIndex(file: Option<EmbeddingsFile>, writeOk: bool)
    returns (ok: bool, written: Option<IvfIndex>)
    requires file.Some? ==> Rectangular(file.value)
    ensures file.None? ==> !ok && written.None?
    ensures ok <==> file.Some? && |file.value.rows| >= 5 && writeOk
    ensures written.Some? <==> ok
    ensures ok ==>
      && written.value.rows == file.value.rows
      && written.value.dimension == file.value.width
      && written.value.nlist == DiseaseClusters(|file.value.rows|)
      && written.value.trained
      && written.value.nprobe == ProbeCount(written.value.nlist)
  {
    if file.None? {
      return false, None;
    }
    var embeddings := file.value.rows;
    var nlist := DiseaseClusters(|embeddings|);
    EnoughToTrain(|embeddings|);
    var index := CreateIvfIndexForDiseases(embeddings, file.value.width, nlist);
    if index.None? || !writeOk {
      return false, None;
    }
    return true, index;
  }

  /**
   * `create_drug_ivf_index`, with the builder the script imports standing in as the
   * disease builder applied with `DrugClusters` clusters: False without building anything
   * when the file is absent; True only when the build and the write succeed.
   */
  method CreateDrugIvfIndex(file: Option<EmbeddingsFile>, writeOk: bool)
    returns (ok: bool, written: Option<IvfIndex>)
    requires file.Some? ==> Rectangular(file.value)
    ensures file.None? ==> !ok && written.None?
    ensures ok <==> file.Some? && |file.value.rows| >= 10 && writeOk
    ensures written.Some? <==> ok
    ensures ok ==>
      && written.value.rows == file.value.rows
      && written.value.dimension == file.value.width
      && written.value.nlist == DrugClusters(|file.value.rows|)
      && written.value.trained
  {
    if file.None? {
      return false, None;
    }
    var embeddings := file.value.rows;
    var nlist := DrugClusters(|embeddings|);
    EnoughToTrain(|embeddings|);
    var index := CreateIvfIndexForDiseases(embeddings, file.value.width, nlist);
    if index.None? || !writeOk {
      return false, None;
    }
    return true, index;
  }
}
