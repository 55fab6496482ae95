/**
 * The hospital ranker of hosp_utils/recommendation.py.
 *
 * The embeddings API, cosine similarity and the policy network are parameters: the API
 * answers a batch with one vector per text or raises, the cosine lies in [-1, 1] and the
 * policy's sigmoid output lies strictly between 0 and 1. The feedback manager is the
 * `FeedbackManager` class, whose Redis contents the ranker's calls update.
 */
module HospitalRecommendation {
  import opened Wrappers
  import opened Scoring
  import opened FeedbackStore
  import Ranking

  /** The width of the zero vector that replaces a failed batch. */
  const EmbeddingWidth: nat := 1536
  /** `batch_size` of `get_embedding`. */
  const EmbeddingBatch: nat := 256
  /** The share of the base score and of the content score in the immediate reward. */
  const BaseShare: real := 0.4
  const ContentShare: real := 0.6

  type Vector = seq<real>

  /** The columns of a hospital row that the ranker reads; `""` is a missing value. */
  datatype Hospital = Hospital(
    name: string, clcdnm: string, department: string, travelH: nat, travelM: nat, travelS: nat)

  /** A row of the result: the hospital and its final score, left in the `similarity` column. */
  datatype Recommended = Recommended(hospital: Hospital, similarity: real)

  function Similarity(r: Recommended): real { r.similarity }

  function Zeros(n: nat): (v: Vector)
    ensures |v| == n && forall i :: 0 <= i < n ==> v[i] == 0.0
  {
    seq(n, _ => 0.0)
  }

  /** The embeddings API on one batch: a vector per text, or `None` when it raises `OpenAIError`. */
  type EmbeddingApi = seq<string> -> Option<seq<Vector>>

  ghost predicate OneVectorPerText(api: EmbeddingApi) {
    forall batch :: api(batch).Some? ==> |api(batch).value| == |batch|
  }

  /** The index at which the batch holding text `j` starts. */
  function BatchStart(j: nat): (start: nat)
    ensures start <= j < start + EmbeddingBatch && start % EmbeddingBatch == 0
  {
    j / EmbeddingBatch * EmbeddingBatch
  }

  lemma BatchStartOf(i: nat, j: nat)
    requires i % EmbeddingBatch == 0 && i <= j < i + EmbeddingBatch
    ensures BatchStart(j) == i
  {
    assert j / EmbeddingBatch == i / EmbeddingBatch;
  }

  /** `text_list[i : i + batch_size]` for the batch holding text `j`. */
  function BatchOf(texts: seq<string>, j: nat): (batch: seq<string>)
    requires j < |texts|
    ensures 0 < |batch| <= EmbeddingBatch
  {
    var start := BatchStart(j);
    texts[start..if start + EmbeddingBatch <= |texts| then start + EmbeddingBatch else |texts|]
  }

  /** The vector `get_embedding` gives text `j`: its entry in its batch's answer, or zeros when the batch failed. */
  function EmbeddingAt(texts: seq<string>, api: EmbeddingApi, j: nat): (v: Vector)
    requires OneVectorPerText(api)
    requires j < |texts|
    ensures api(BatchOf(texts, j)).None? ==> v == Zeros(EmbeddingWidth)
  {
    match api(BatchOf(texts, j))
    case Some(vectors) => vectors[j - BatchStart(j)]
    case None => Zeros(EmbeddingWidth)
  }

  /** `"병원명: {name}, 병원유형: {clcdnm}, 진료과: {department}"` after missing text became `"unknown"`. */
  function Sentence(h: Hospital): string {
    "병원명: " + h.name + ", 병원유형: " + h.clcdnm + ", 진료과: " + h.department
  }

  /** `fillna("unknown").replace("", "unknown")` on a text column. */
  function FillUnknown(s: string): (r: string)
    ensures r != ""
    ensures s != "" ==> r == s
  {
    if s == "" then "unknown" else s
  }

  function Filled(h: Hospital): (f: Hospital)
    ensures f.name != "" && f.clcdnm != "" && f.department != ""
    ensures f.travelH == h.travelH && f.travelM == h.travelM && f.travelS == h.travelS
  {
    h.(name := FillUnknown(h.name), clcdnm := FillUnknown(h.clcdnm), department := FillUnknown(h.department))
  }

  /** `fillna(0)` on a numeric column: a missing value, such as the travel time of a hospital with no route, becomes 0. */
  function FillZero(t: Option<nat>): (r: nat)
    ensures t.Some? ==> r == t.value
    ensures t.None? ==> r == 0
  {
    if t.Some? then t.value else 0
  }

  /**
   * A hospital with no route, its travel time filled with 0, gets the best base score:
   * 1.0, at least that of any hospital with a route.
   */
  lemma NoRouteScoresBest(h: nat, m: nat, s: nat)
    ensures BaseScore(FillZero(None), FillZero(None), FillZero(None)) == 1.0
    ensures BaseScore(h, m, s) <= BaseScore(FillZero(None), FillZero(None), FillZero(None))
  {
    ZeroTravelScoresOne();
  }

  predicate NoDuplicates(s: seq<string>) {
    forall i, j :: 0 <= i < j < |s| ==> s[i] != s[j]
  }

  /** The distinct sentences, each once, in order of first appearance. */
  function Distinct(s: seq<string>): (d: seq<string>)
    ensures NoDuplicates(d)
    ensures forall x :: x in d <==> x in s
    decreases |s|
  {
    if s == [] then []
    else
      var d := Distinct(s[..|s| - 1]);
      assert forall x :: x in s[..|s| - 1] ==> x in s;
      assert forall x :: x in s ==> x in s[..|s| - 1] || x == s[|s| - 1];
      if s[|s| - 1] in d then d else d + [s[|s| - 1]]
  }

  /** The sentences of the rows, in row order. */
  function Sentences(hospitals: seq<Hospital>): (s: seq<string>)
    ensures |s| == |hospitals| && forall i :: 0 <= i < |s| ==> s[i] == Sentence(hospitals[i])
  {
    seq(|hospitals|, i requires 0 <= i < |hospitals| => Sentence(hospitals[i]))
  }

  /** The position of `x` in a sequence without repeats. */
  function IndexIn(s: seq<string>, x: string): (k: nat)
    requires x in s
    ensures k < |s| && s[k] == x
  {
    if s[0] == x then 0 else 1 + IndexIn(s[1..], x)
  }

  /** `dict(zip(keys, values))` for keys without repeats: each key maps to the value at its position. */
  function Zip(keys: seq<string>, values: seq<Vector>): (m: map<string, Vector>)
    requires NoDuplicates(keys) && |keys| == |values|
    ensures forall x :: x in m <==> x in keys
    ensures forall x :: x in keys ==> m[x] == values[IndexIn(keys, x)]
  {
    map x | x in keys :: values[IndexIn(keys, x)]
  }

  function Diff(u: Vector, v: Vector): (d: Vector)
    requires |u| == |v|
    ensures |d| == |u| && forall i :: 0 <= i < |d| ==> d[i] == u[i] - v[i]
  {
    seq(|u|, i requires 0 <= i < |u| => u[i] - v[i])
  }

  /** `0.4 * base_score + 0.6 * (similarity + 1) / 2`, within [0, 1]. */
  function ImmediateReward(h: Hospital, cosine: real): (r: real)
    requires -1.0 <= cosine <= 1.0
    ensures 0.0 <= r <= 1.0
    ensures r >= BaseShare * BaseScore(h.travelH, h.travelM, h.travelS)
    ensures r == BaseShare * BaseScore(h.travelH, h.travelM, h.travelS) <==> cosine == -1.0
  {
    BaseShare * BaseScore(h.travelH, h.travelM, h.travelS) + ContentShare * ContentScore(cosine)
  }

  /** `calculate_reward` once the member's feedback rows are known (`[]` without a member or manager). */
  function RowReward(h: Hospital, cosine: real, feedback: seq<HospitalSelection>, now: int): (r: real)
    requires -1.0 <= cosine <= 1.0
    ensures feedback == [] ==> r == ImmediateReward(h, cosine)
    ensures 0.0 <= r <= 1.0 + Gamma * SelectionReward
    ensures r > ImmediateReward(h, cosine) <==> HospitalReward(h.name, feedback, now) == SelectionReward
  {
    WithLongTerm(ImmediateReward(h, cosine), feedback != [], HospitalReward(h.name, feedback, now))
  }

  ghost predicate CosineInRange(cosine: (Vector, Vector) -> real) {
    forall u, v :: -1.0 <= cosine(u, v) <= 1.0
  }

  ghost predicate IsProbability(policy: Vector -> real) {
    forall v :: 0.0 < policy(v) < 1.0
  }

  /** What sklearn's `cosine_similarity` raises for a batch of zero hospital embeddings. */
  const EmptyBatchError := "ValueError: Found array with 0 sample(s)"

  predicate Aligned(user: Vector, embeddings: seq<Vector>, hospitals: seq<Hospital>) {
    |embeddings| == |hospitals| && forall i :: 0 <= i < |embeddings| ==> |embeddings[i]| == |user|
  }

  /** Every row with its final score `(reward + bonus) * importance_weight`, in input order. */
  function Scored(user: Vector, embeddings: seq<Vector>, hospitals: seq<Hospital>,
                  cosine: (Vector, Vector) -> real, policy: Vector -> real,
                  feedback: seq<HospitalSelection>, bonus: map<string, real>, now: int): (rows: seq<Recommended>)
    requires Aligned(user, embeddings, hospitals) && CosineInRange(cosine) && IsProbability(policy)
    ensures |rows| == |hospitals|
    ensures forall i :: 0 <= i < |rows| ==> rows[i].hospital == hospitals[i]
  {
    seq(|hospitals|, i requires 0 <= i < |hospitals| =>
      Recommended(hospitals[i], FinalScore(
        RowReward(hospitals[i], cosine(user, embeddings[i]), feedback, now),
        BonusFor(bonus, hospitals[i].name),
        ImportanceWeight(policy(Diff(user, embeddings[i]))))))
  }

  /** `nlargest(K, 'similarity')` over the scored rows. */
  function Recommendations(user: Vector, embeddings: seq<Vector>, hospitals: seq<Hospital>,
                           cosine: (Vector, Vector) -> real, policy: Vector -> real,
                           feedback: seq<HospitalSelection>, bonus: map<string, real>, now: int): seq<Recommended>
    requires Aligned(user, embeddings, hospitals) && CosineInRange(cosine) && IsProbability(policy)
  {
    Ranking.TopK(Scored(user, embeddings, hospitals, cosine, policy, feedback, bonus, now), TopCount,
                 Ranking.Descending(Similarity))
  }

  /**
   * The result holds `min(15, n)` scored rows of the input, highest score first, ties in
   * input order, and no row left out scores higher than a row kept.
   */
  lemma RecommendationsRanked(user: Vector, embeddings: seq<Vector>, hospitals: seq<Hospital>,
                              cosine: (Vector, Vector) -> real, policy: Vector -> real,
                              feedback: seq<HospitalSelection>, bonus: map<string, real>, now: int)
    requires Aligned(user, embeddings, hospitals) && CosineInRange(cosine) && IsProbability(policy)
    ensures var all := Scored(user, embeddings, hospitals, cosine, policy, feedback, bonus, now);
      var r := Recommendations(user, embeddings, hospitals, cosine, policy, feedback, bonus, now);
      && |r| == (if |hospitals| < TopCount then |hospitals| else TopCount)
      && (forall i, j :: 0 <= i < j < |r| ==> r[i].similarity >= r[j].similarity)
      && multiset(r) <= multiset(all)
      && (forall y, i :: y in multiset(all) - multiset(r) && 0 <= i < |r| ==> r[i].similarity >= y.similarity)
  {
    var all := Scored(user, embeddings, hospitals, cosine, policy, feedback, bonus, now);
    Ranking.DescendingIsTotalPreorder(Similarity);
    Ranking.TopKSelects(all, TopCount, Ranking.Descending(Similarity));
  }

  /** A log bonus (always 0.2 or absent) can only raise a row's final score. */
  lemma BonusRaisesScores(user: Vector, embeddings: seq<Vector>, hospitals: seq<Hospital>,
                          cosine: (Vector, Vector) -> real, policy: Vector -> real,
                          feedback: seq<HospitalSelection>, bonus: map<string, real>, now: int)
    requires Aligned(user, embeddings, hospitals) && CosineInRange(cosine) && IsProbability(policy)
    requires forall n :: n in bonus ==> bonus[n] >= 0.0
    ensures var with := Scored(user, embeddings, hospitals, cosine, policy, feedback, bonus, now);
      var without := Scored(user, embeddings, hospitals, cosine, policy, feedback, map[], now);
      forall i :: 0 <= i < |hospitals| ==>
        && with[i].similarity >= without[i].similarity
        && (hospitals[i].name in bonus && bonus[hospitals[i].name] > 0.0 ==> with[i].similarity > without[i].similarity)
  {
    var with := Scored(user, embeddings, hospitals, cosine, policy, feedback, bonus, now);
    var without := Scored(user, embeddings, hospitals, cosine, policy, feedback, map[], now);
    forall i | 0 <= i < |hospitals|
      ensures with[i].similarity >= without[i].similarity
      ensures hospitals[i].name in bonus && bonus[hospitals[i].name] > 0.0 ==> with[i].similarity > without[i].similarity
    {
      var reward := RowReward(hospitals[i], cosine(user, embeddings[i]), feedback, now);
      var weight := ImportanceWeight(policy(Diff(user, embeddings[i])));
      BonusNeverLowers(reward, BonusFor(bonus, hospitals[i].name), weight);
    }
  }

  /** The feedback rows that enter the batch: those whose hospital was chosen in the last seven days. */
  function RewardedRows(candidates: seq<HospitalSelection>, rows: seq<HospitalSelection>, now: int): (batch: seq<HospitalSelection>)
    ensures forall i :: 0 <= i < |batch| ==> HospitalReward(batch[i].hospitalName, rows, now) > 0.0
  {
    Ranking.Filter(candidates, EarnsReward(rows, now))
  }

  /** `reward > 0` for a feedback row. */
  function EarnsReward(rows: seq<HospitalSelection>, now: int): (p: HospitalSelection -> bool)
    ensures forall r :: p(r) <==> HospitalReward(r.hospitalName, rows, now) > 0.0
  {
    (r: HospitalSelection) => HospitalReward(r.hospitalName, rows, now) > 0.0
  }

  /** `sum(loss(row) * reward(row))` over the batch, `loss(row)` standing for `-log(policy(state))`. */
  function TotalLoss(batch: seq<HospitalSelection>, rows: seq<HospitalSelection>, now: int,
                     loss: HospitalSelection -> real): real
  {
    if batch == [] then 0.0
    else TotalLoss(batch[..|batch| - 1], rows, now, loss) + WeightedLoss(batch[|batch| - 1], rows, now, loss)
  }

  /** `loss(row) * reward(row)` */
  function WeightedLoss(row: HospitalSelection, rows: seq<HospitalSelection>, now: int,
                        loss: HospitalSelection -> real): real
  {
    loss(row) * HospitalReward(row.hospitalName, rows, now)
  }

  /** Filtering one more row extends the batch by that row exactly when it earns a reward. */
  lemma RewardedRowsStep(candidates: seq<HospitalSelection>, i: nat, rows: seq<HospitalSelection>, now: int)
    requires i < |candidates|
    ensures RewardedRows(candidates[..i + 1], rows, now)
      == RewardedRows(candidates[..i], rows, now) + (if HospitalReward(candidates[i].hospitalName, rows, now) > 0.0 then [candidates[i]] else [])
  {
    Ranking.FilterPrefixStep(candidates, i, EarnsReward(rows, now));
  }

  lemma TotalLossSnoc(batch: seq<HospitalSelection>, x: HospitalSelection, rows: seq<HospitalSelection>, now: int,
                      loss: HospitalSelection -> real)
    ensures TotalLoss(batch + [x], rows, now, loss)
      == TotalLoss(batch, rows, now, loss) + WeightedLoss(x, rows, now, loss)
  {
    assert (batch + [x])[..|batch|] == batch;
  }

  /** One turn of the batch loop keeps the batch and its loss in step with the rows read. */
  lemma CollectStep(rows: seq<HospitalSelection>, i: nat, now: int, loss: HospitalSelection -> real,
                    batch: seq<HospitalSelection>, total: real)
    requires i < |rows|
    requires batch == RewardedRows(rows[..i], rows, now) && total == TotalLoss(batch, rows, now, loss)
    ensures HospitalReward(rows[i].hospitalName, rows, now) > 0.0 ==>
      && batch + [rows[i]] == RewardedRows(rows[..i + 1], rows, now)
      && total + WeightedLoss(rows[i], rows, now, loss) == TotalLoss(batch + [rows[i]], rows, now, loss)
    ensures HospitalReward(rows[i].hospitalName, rows, now) <= 0.0 ==>
      batch == RewardedRows(rows[..i + 1], rows, now)
  {
    RewardedRowsStep(rows, i, rows, now);
    TotalLossSnoc(batch, rows[i], rows, now, loss);
    assert batch + [] == batch;
  }

  /** The update the corrected code makes on non-empty feedback. */
  function PolicyUpdate(rows: seq<HospitalSelection>, now: int, loss: HospitalSelection -> real): UpdateOutcome {
    if rows == [] then NoUpdate
    else
      var batch := RewardedRows(rows, rows, now);
      if batch == [] then NoStep
      else Stepped(|batch|, TotalLoss(batch, rows, now, loss) / |batch| as real)
  }

  /** A step is taken exactly when some feedback row is younger than seven days. */
  lemma {:induction false} PolicyUpdateSteps(rows: seq<HospitalSelection>, now: int, loss: HospitalSelection -> real)
    ensures PolicyUpdate(rows, now, loss).Stepped? <==>
      exists i :: 0 <= i < |rows| && rows[i].selectedAt > now - RecentWindow
    ensures PolicyUpdate(rows, now, loss).Stepped? ==> PolicyUpdate(rows, now, loss).batchSize <= |rows|
  {
    var p := EarnsReward(rows, now);
    if exists i :: 0 <= i < |rows| && rows[i].selectedAt > now - RecentWindow {
      var i :| 0 <= i < |rows| && rows[i].selectedAt > now - RecentWindow;
      assert p(rows[i]);
      Ranking.FilterKeeps(rows, p, i);
    }
  }

  /**
   * `update_from_feedback` as written: each feedback row is handed to
   * `calculate_hospital_reward`, which reads `row['name']`; the feedback rows carry
   * `hospital_name` instead, so any non-empty feedback raises `KeyError`.
   */
  function UpdateAsWritten(rows: seq<HospitalSelection>): (r: Result<UpdateOutcome>)
    ensures r.Success? <==> rows == []
  {
    if rows == [] then Success(NoUpdate) else Failure("KeyError: 'name'")
  }

  /** A member who chose a hospital an hour ago: the code raises where a step was meant. */
  lemma UpdateAsWrittenRaises(loss: HospitalSelection -> real)
    ensures var rows := [HospitalSelection("A1", 1000000 - 3600, "A", "", "")];
      && UpdateAsWritten(rows).Failure?
      && PolicyUpdate(rows, 1000000, loss) == Stepped(1, loss(rows[0]) * SelectionReward)
  {
    var rows := [HospitalSelection("A1", 1000000 - 3600, "A", "", "")];
    assert HospitalReward("A", rows, 1000000) == SelectionReward;
    var batch := RewardedRows(rows, rows, 1000000);
    assert batch == [rows[0]] by {
      assert rows[1..] == [];
    }
    assert batch[..0] == [];
  }

  class HospitalRecommender {
    /** `feedback_manager`: present exactly when a database connection was given. */
    const manager: FeedbackManager?
    /** How many optimizer steps the policy has taken. */
    var optimizerSteps: nat

    constructor (dbConnected: bool, redis: RedisState)
      ensures (manager != null) == dbConnected
      ensures manager != null ==> fresh(manager) && manager.hasDb && manager.redis == redis
      ensures optimizerSteps == 0
    {
      if dbConnected {
        manager := new FeedbackManager(true, redis);
      } else {
        manager := null;
      }
      optimizerSteps := 0;
    }

    /** `get_embedding`: one vector per text, in order, batch by batch. */
    method GetEmbedding(texts: seq<string>, api: EmbeddingApi) returns (embeddings: seq<Vector>)
      requires OneVectorPerText(api)
      ensures |embeddings| == |texts|
      ensures forall j :: 0 <= j < |texts| ==> embeddings[j] == EmbeddingAt(texts, api, j)
    {
      embeddings := [];
      var i := 0;
      while i < |texts|
        invariant 0 <= i <= |texts|
        invariant i % EmbeddingBatch == 0 || i == |texts|
        invariant |embeddings| == i
        invariant forall j :: 0 <= j < i ==> embeddings[j] == EmbeddingAt(texts, api, j)
      {
        var end := if i + EmbeddingBatch <= |texts| then i + EmbeddingBatch else |texts|;
        var batch := texts[i..end];
        var answer := api(batch);
        var got: seq<Vector>;
        match answer {
          case Some(vectors) => got := vectors;
          case None => got := seq(|batch|, _ => Zeros(EmbeddingWidth));
        }
        forall j | i <= j < end ensures got[j - i] == EmbeddingAt(texts, api, j) {
          BatchStartOf(i, j);
          assert BatchOf(texts, j) == batch;
        }
        embeddings := embeddings + got;
        i := end;
      }
    }

    /**
     * `embed_hospital_data`: fills missing text with `"unknown"` (the caller's rows change
     * too, hence `filled`), embeds each distinct sentence once, and gives every row the
     * vector of its sentence.
     */
    method EmbedHospitalData(hospitals: seq<Hospital>, api: EmbeddingApi)
      returns (filled: seq<Hospital>, embeddings: seq<Vector>)
      requires OneVectorPerText(api)
      ensures |filled| == |hospitals| && forall i :: 0 <= i < |hospitals| ==> filled[i] == Filled(hospitals[i])
      ensures |embeddings| == |hospitals|
      ensures forall i, j :: 0 <= i < |filled| && 0 <= j < |filled| && Sentence(filled[i]) == Sentence(filled[j])
                ==> embeddings[i] == embeddings[j]
      ensures var unique := Distinct(Sentences(filled));
        forall i :: 0 <= i < |filled| ==> embeddings[i] == EmbeddingAt(unique, api, IndexIn(unique, Sentence(filled[i])))
    {
      filled := seq(|hospitals|, i requires 0 <= i < |hospitals| => Filled(hospitals[i]));
      var sentences := Sentences(filled);
      var unique := Distinct(sentences);
      var uniqueEmbeddings := GetEmbedding(unique, api);
      var bySentence := Zip(unique, uniqueEmbeddings);
      embeddings := seq(|sentences|, i requires 0 <= i < |sentences| => bySentence[sentences[i]]);
    }

    /** `calculate_reward` for one row: reads the member's feedback through the manager. */
    method CalculateReward(h: Hospital, user: Vector, embedding: Vector, memberId: string, now: int,
                           cosine: (Vector, Vector) -> real, feedbackDb: QueryAnswer<HospitalSelection>)
      returns (reward: real)
      requires CosineInRange(cosine)
      modifies manager
      ensures manager != null && memberId != "" ==>
        var r := ReadFeedback(old(manager.redis.hospitalFeedback), HospitalFeedbackKey(memberId), manager.hasDb, now, feedbackDb);
        reward == RowReward(h, cosine(user, embedding), r.value, now)
        && manager.redis == old(manager.redis).(hospitalFeedback := r.cache)
      ensures !(manager != null && memberId != "") ==> reward == RowReward(h, cosine(user, embedding), [], now)
      ensures manager != null && memberId == "" ==> manager.redis == old(manager.redis)
    {
      var immediate := ImmediateReward(h, cosine(user, embedding));
      if memberId != "" && manager != null {
        var feedback := manager.GetHospitalFeedback(memberId, now, feedbackDb);
        if feedback != [] {
          var longTerm := HospitalReward(h.name, feedback, now);
          return immediate + Gamma * Min(longTerm, 1.0);
        }
      }
      return immediate;
    }

    /**
     * `recommend_hospitals`: scores every row, adds the log bonus, and keeps the 15 best by
     * `reward * importance_weight`. Each row's reward reads the member's feedback through
     * the manager (the first read may fill the cache); the bonus read may fill it too.
     * An empty frame raises in the batch cosine similarity, before anything is read.
     */
    method RecommendHospitals(user: Vector, embeddings: seq<Vector>, hospitals: seq<Hospital>, memberId: string,
                              now: int, cosine: (Vector, Vector) -> real, policy: Vector -> real,
                              feedbackDb: QueryAnswer<HospitalSelection>, logsDb: QueryAnswer<LogRow>)
      returns (r: Result<seq<Recommended>>)
      requires Aligned(user, embeddings, hospitals) && CosineInRange(cosine) && IsProbability(policy)
      modifies manager
      ensures r.Failure? <==> hospitals == []
      ensures hospitals == [] ==> r == Failure(EmptyBatchError)
      ensures manager != null && (hospitals == [] || memberId == "") ==> manager.redis == old(manager.redis)
      ensures hospitals != [] && !(manager != null && memberId != "") ==>
        r == Success(Recommendations(user, embeddings, hospitals, cosine, policy, [], map[], now))
      ensures hospitals != [] && manager != null && memberId != "" ==>
        var fb := ReadFeedback(old(manager.redis.hospitalFeedback), HospitalFeedbackKey(memberId), manager.hasDb, now, feedbackDb);
        var names := seq(|hospitals|, i requires 0 <= i < |hospitals| => hospitals[i].name);
        var bn := ReadBonus(old(manager.redis.hospitalBonus), HospitalBonusKey(memberId), names, manager.hasDb, now, logsDb);
        && r == Success(Recommendations(user, embeddings, hospitals, cosine, policy, fb.value, bn.value, now))
        && manager.redis == old(manager.redis).(hospitalFeedback := fb.cache, hospitalBonus := bn.cache)
    {
      if hospitals == [] {
        return Failure(EmptyBatchError);
      }
      var n := |hospitals|;
      var active := manager != null && memberId != "";
      ghost var fb := if active then ReadFeedback(manager.redis.hospitalFeedback, HospitalFeedbackKey(memberId), manager.hasDb, now, feedbackDb)
                      else CacheRead([], map[]);
      ghost var feedback := if active then fb.value else [];

      var probs := PolicyProbabilities(user, embeddings, policy);
      var weights := seq(n, k requires 0 <= k < n => ImportanceWeight(probs[k]));

      var rewards := CollectRewards(user, embeddings, hospitals, memberId, now, cosine, feedbackDb);

      // log bonus
      var bonus: map<string, real> := map[];
      if active {
        var names := seq(n, k requires 0 <= k < n => hospitals[k].name);
        bonus := manager.CheckHospitalLogs(memberId, names, now, logsDb);
        rewards := AddBonus(rewards, hospitals, bonus);
      }

      var recommended := RankRows(user, embeddings, hospitals, cosine, policy, feedback, bonus, now, rewards, weights);
      return Success(recommended);
    }

    /** The reward loop: one `calculate_reward` per row, every one reading the same feedback. */
    method CollectRewards(user: Vector, embeddings: seq<Vector>, hospitals: seq<Hospital>, memberId: string,
                          now: int, cosine: (Vector, Vector) -> real, feedbackDb: QueryAnswer<HospitalSelection>)
      returns (rewards: seq<real>)
      requires Aligned(user, embeddings, hospitals) && CosineInRange(cosine)
      modifies manager
      ensures var active := manager != null && memberId != "";
        var fb := if active then ReadFeedback(old(manager.redis.hospitalFeedback), HospitalFeedbackKey(memberId), manager.hasDb, now, feedbackDb)
                  else CacheRead([], map[]);
        && |rewards| == |hospitals|
        && (forall k :: 0 <= k < |hospitals| ==> rewards[k] == RowReward(hospitals[k], cosine(user, embeddings[k]), fb.value, now))
        && (active && hospitals != [] ==> manager.redis == old(manager.redis).(hospitalFeedback := fb.cache))
        && (manager != null && !(active && hospitals != []) ==> manager.redis == old(manager.redis))
    {
      var n := |hospitals|;
      var active := manager != null && memberId != "";
      ghost var fb := if active then ReadFeedback(manager.redis.hospitalFeedback, HospitalFeedbackKey(memberId), manager.hasDb, now, feedbackDb)
                      else CacheRead([], map[]);
      rewards := [];
      var i := 0;
      while i < n
        invariant 0 <= i <= n && |rewards| == i
        invariant forall k :: 0 <= k < i ==> rewards[k] == RowReward(hospitals[k], cosine(user, embeddings[k]), fb.value, now)
        invariant active && i > 0 ==> manager.redis == old(manager.redis).(hospitalFeedback := fb.cache)
        invariant manager != null && !(active && i > 0) ==> manager.redis == old(manager.redis)
      {
        if active && i > 0 {
          ReadFeedbackSettles(old(manager.redis.hospitalFeedback), HospitalFeedbackKey(memberId), manager.hasDb, now, feedbackDb, feedbackDb);
        }
        var reward := CalculateReward(hospitals[i], user, embeddings[i], memberId, now, cosine, feedbackDb);
        rewards := rewards + [reward];
        i := i + 1;
      }
    }

    /** `similarity = reward * importance_weight`, then `nlargest(K, 'similarity')`. */
    static method RankRows(user: Vector, embeddings: seq<Vector>, hospitals: seq<Hospital>,
                           cosine: (Vector, Vector) -> real, policy: Vector -> real,
                           ghost feedback: seq<HospitalSelection>, bonus: map<string, real>, now: int,
                           rewards: seq<real>, weights: seq<real>)
      returns (recommended: seq<Recommended>)
      requires Aligned(user, embeddings, hospitals) && CosineInRange(cosine) && IsProbability(policy)
      requires |rewards| == |weights| == |hospitals|
      requires forall k :: 0 <= k < |hospitals| ==>
        rewards[k] == RowReward(hospitals[k], cosine(user, embeddings[k]), feedback, now) + BonusFor(bonus, hospitals[k].name)
      requires forall k :: 0 <= k < |hospitals| ==> weights[k] == ImportanceWeight(policy(Diff(user, embeddings[k])))
      ensures recommended == Recommendations(user, embeddings, hospitals, cosine, policy, feedback, bonus, now)
    {
      var n := |hospitals|;
      var scored := seq(n, k requires 0 <= k < n => Recommended(hospitals[k], rewards[k] * weights[k]));
      ghost var expected := Scored(user, embeddings, hospitals, cosine, policy, feedback, bonus, now);
      forall k | 0 <= k < n ensures scored[k] == expected[k] {
        ProductOfSum(rewards[k], RowReward(hospitals[k], cosine(user, embeddings[k]), feedback, now), BonusFor(bonus, hospitals[k].name), weights[k]);
      }
      assert scored == expected;
      recommended := Ranking.TopK(scored, TopCount, Ranking.Descending(Similarity));
    }

    /** The policy's probability for each row, `policy(user - embedding)`. */
    static method PolicyProbabilities(user: Vector, embeddings: seq<Vector>, policy: Vector -> real)
      returns (probs: seq<real>)
      requires forall k :: 0 <= k < |embeddings| ==> |embeddings[k]| == |user|
      ensures |probs| == |embeddings|
      ensures forall k :: 0 <= k < |probs| ==> probs[k] == policy(Diff(user, embeddings[k]))
    {
      probs := [];
      var i := 0;
      while i < |embeddings|
        invariant 0 <= i <= |embeddings| && |probs| == i
        invariant forall k :: 0 <= k < i ==> probs[k] == policy(Diff(user, embeddings[k]))
      {
        probs := probs + [policy(Diff(user, embeddings[i]))];
        i := i + 1;
      }
    }

    /** Adds each row's log bonus to its reward, for the rows whose name is in the bonus map. */
    static method AddBonus(rewards: seq<real>, hospitals: seq<Hospital>, bonus: map<string, real>)
      returns (r: seq<real>)
      requires |rewards| == |hospitals|
      ensures |r| == |rewards|
      ensures forall k :: 0 <= k < |r| ==> r[k] == rewards[k] + BonusFor(bonus, hospitals[k].name)
    {
      r := rewards;
      var i := 0;
      while i < |r|
        invariant 0 <= i <= |r| && |r| == |rewards|
        invariant forall k :: 0 <= k < i ==> r[k] == rewards[k] + BonusFor(bonus, hospitals[k].name)
        invariant forall k :: i <= k < |r| ==> r[k] == rewards[k]
      {
        if hospitals[i].name in bonus {
          r := r[i := r[i] + bonus[hospitals[i].name]];
        }
        i := i + 1;
      }
    }

    /** One turn of the batch loop: row `i` joins the batch when it earns a reward. */
    static method CollectRow(rows: seq<HospitalSelection>, i: nat, now: int, loss: HospitalSelection -> real,
                             total: real, batchSize: nat, ghost batch: seq<HospitalSelection>)
      returns (total': real, batchSize': nat, ghost batch': seq<HospitalSelection>)
      requires i < |rows|
      requires batch == RewardedRows(rows[..i], rows, now) && batchSize == |batch|
      requires total == TotalLoss(batch, rows, now, loss)
      ensures batch' == RewardedRows(rows[..i + 1], rows, now) && batchSize' == |batch'|
      ensures total' == TotalLoss(batch', rows, now, loss)
    {
      var reward := HospitalReward(rows[i].hospitalName, rows, now);
      CollectStep(rows, i, now, loss, batch, total);
      if reward > 0.0 {
        total', batchSize', batch' := total + WeightedLoss(rows[i], rows, now, loss), batchSize + 1, batch + [rows[i]];
      } else {
        total', batchSize', batch' := total, batchSize, batch;
      }
    }

    /**
     * The batch loop of `update_from_feedback`: the loss summed over the rows that earn a
     * reward, each weighted by its reward, and how many rows that is.
     */
    static method CollectBatch(rows: seq<HospitalSelection>, now: int, loss: HospitalSelection -> real)
      returns (total: real, batchSize: nat)
      ensures batchSize == |RewardedRows(rows, rows, now)|
      ensures total == TotalLoss(RewardedRows(rows, rows, now), rows, now, loss)
    {
      total, batchSize := 0.0, 0;
      ghost var batch: seq<HospitalSelection> := [];
      var i := 0;
      while i < |rows|
        invariant 0 <= i <= |rows|
        invariant batch == RewardedRows(rows[..i], rows, now) && batchSize == |batch|
        invariant total == TotalLoss(batch, rows, now, loss)
      {
        total, batchSize, batch := CollectRow(rows, i, now, loss, total, batchSize, batch);
        i := i + 1;
      }
      assert rows[..i] == rows;
    }

    /**
     * `update_from_feedback`, reading each row's own `hospital_name`: nothing without a
     * manager, a member or feedback rows; otherwise one optimizer step on the mean loss of
     * the rows chosen in the last seven days, if there are any.
     */
    method UpdateFromFeedback(memberId: string, now: int, feedbackDb: QueryAnswer<HospitalSelection>,
                              loss: HospitalSelection -> real)
      returns (outcome: UpdateOutcome)
      modifies this, manager
      ensures manager == null || memberId == "" ==> outcome == NoUpdate && optimizerSteps == old(optimizerSteps)
      ensures manager != null && memberId != "" ==>
        var fb := ReadFeedback(old(manager.redis.hospitalFeedback), HospitalFeedbackKey(memberId), manager.hasDb, now, feedbackDb);
        && outcome == PolicyUpdate(fb.value, now, loss)
        && manager.redis == old(manager.redis).(hospitalFeedback := fb.cache)
      ensures optimizerSteps == old(optimizerSteps) + (if outcome.Stepped? then 1 else 0)
      ensures manager != null && memberId == "" ==> manager.redis == old(manager.redis)
    {
      if manager == null || memberId == "" {
        return NoUpdate;
      }
      var rows := manager.GetHospitalFeedback(memberId, now, feedbackDb);
      if rows == [] {
        return NoUpdate;
      }
      var total, batchSize := CollectBatch(rows, now, loss);
      if batchSize > 0 {
        optimizerSteps := optimizerSteps + 1;
        return Stepped(batchSize, total / batchSize as real);
      }
      return NoStep;
    }
  }
}
