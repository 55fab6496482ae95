/**
 * The pharmacy ranker of pharm_utils/recommendation.py.
 *
 * The policy network is a parameter that maps the two features of a row to a probability
 * strictly between 0 and 1; the wall clock that `check_operating_hours` reads is a `Clock`
 * parameter. The feedback manager is the `FeedbackManager` class.
 */
module PharmacyRecommendation {
  import opened Wrappers
  import opened Scoring
  import opened FeedbackStore
  import Ranking

  /** The share of the base score in the immediate reward. */
  const BaseShare: real := 0.7

  /** The columns of a pharmacy row that the ranker reads; `hours` holds the `"<d>s"`/`"<d>c"` cells. */
  datatype Pharmacy = Pharmacy(dutyName: string, travelH: nat, travelM: nat, travelS: nat, hours: HoursRow)

  /** A row of the result: the pharmacy and its final score, left in the `similarity` column. */
  datatype Recommended = Recommended(pharmacy: Pharmacy, similarity: real)

  function Similarity(r: Recommended): real { r.similarity }

  /** The policy network on one row's features: a probability. */
  type Policy = FeaturePair -> real
  type FeaturePair = (real, real)

  function Base(p: Pharmacy): real { BaseScore(p.travelH, p.travelM, p.travelS) }

  /**
   * The policy's input for a row, `[1 / (1 + base_score), base_score]`. Since the base score
   * lies in (0, 1], the first feature lies in [0.5, 1).
   */
  function Features(p: Pharmacy): (f: FeaturePair)
    ensures 0.5 <= f.0 < 1.0 && 0.0 < f.1 <= 1.0
    ensures f.0 * (1.0 + f.1) == 1.0
  {
    var b := Base(p);
    var f0 := 1.0 / (1.0 + b);
    assert f0 * (1.0 + b) == 1.0;
    assert f0 * 2.0 >= f0 * (1.0 + b);
    assert f0 < f0 * (1.0 + b);
    (f0, b)
  }

  /** A longer trip gives a larger first feature: it grows as the base score falls. */
  lemma FeaturesOrdered(p: Pharmacy, q: Pharmacy)
    requires TravelSeconds(p.travelH, p.travelM, p.travelS) < TravelSeconds(q.travelH, q.travelM, q.travelS)
    ensures Features(p).0 < Features(q).0
  {
    BaseScoreDecreasing(p.travelH, p.travelM, p.travelS, q.travelH, q.travelM, q.travelS);
    ReciprocalDecreasing(1.0 + Base(q), 1.0 + Base(p));
  }

  ghost predicate IsProbability(policy: Policy) {
    forall f :: 0.0 < policy(f) < 1.0
  }

  /**
   * `0.7 * base_score + check_operating_hours(row)`, the hours bonus being 0 without a
   * feedback manager; within (0, 1].
   */
  function ImmediateReward(p: Pharmacy, hasManager: bool, clock: Clock): (r: real)
    requires clock.Valid()
    ensures 0.0 < r <= 1.0
    ensures r == BaseShare * Base(p) || r == BaseShare * Base(p) + OpenBonus
    ensures r > BaseShare * Base(p) <==> hasManager && OperatingHoursBonus(p.hours, clock) == OpenBonus
  {
    BaseShare * Base(p) + (if hasManager then OperatingHoursBonus(p.hours, clock) else 0.0)
  }

  /** `calculate_reward` once the member's feedback rows are known (`[]` without a member or manager). */
  function RowReward(p: Pharmacy, hasManager: bool, clock: Clock, feedback: seq<PharmacySelection>, now: int): (r: real)
    requires clock.Valid()
    ensures feedback == [] ==> r == ImmediateReward(p, hasManager, clock)
    ensures 0.0 < r <= 1.0 + Gamma * SelectionReward
    ensures r > ImmediateReward(p, hasManager, clock) <==> PharmacyReward(p.dutyName, feedback, now) == SelectionReward
  {
    WithLongTerm(ImmediateReward(p, hasManager, clock), feedback != [], PharmacyReward(p.dutyName, feedback, now))
  }

  /** Each row's `calculate_reward`, in input order. */
  function Rewards(pharmacies: seq<Pharmacy>, hasManager: bool, clock: Clock, feedback: seq<PharmacySelection>, now: int): (r: seq<real>)
    requires clock.Valid()
    ensures |r| == |pharmacies|
    ensures forall i :: 0 <= i < |r| ==> 0.0 < r[i] <= 1.0 + Gamma * SelectionReward
  {
    seq(|pharmacies|, i requires 0 <= i < |pharmacies| => RowReward(pharmacies[i], hasManager, clock, feedback, now))
  }

  /** `calculate_reward` as a function of the row alone, the rest fixed. */
  function RewardOf(hasManager: bool, clock: Clock, feedback: seq<PharmacySelection>, now: int): (g: Pharmacy -> real)
    requires clock.Valid()
    ensures forall p :: g(p) == RowReward(p, hasManager, clock, feedback, now)
  {
    (p: Pharmacy) => RowReward(p, hasManager, clock, feedback, now)
  }

  /** The rewards of all rows are the row reward mapped over them. */
  lemma RewardsAsMap(pharmacies: seq<Pharmacy>, hasManager: bool, clock: Clock, feedback: seq<PharmacySelection>, now: int)
    requires clock.Valid()
    ensures Rewards(pharmacies, hasManager, clock, feedback, now) == Ranking.Map(pharmacies, RewardOf(hasManager, clock, feedback, now))
  {
  }

  /** Each row's importance weight `1 / (policy_prob + 1e-8)`, in input order. */
  function Weights(pharmacies: seq<Pharmacy>, policy: Policy): (w: seq<real>)
    requires IsProbability(policy)
    ensures |w| == |pharmacies|
    ensures forall i :: 0 <= i < |w| ==> 0.0 < w[i] <= 100000000.0
  {
    var w := seq(|pharmacies|, i requires 0 <= i < |pharmacies| => ImportanceWeight(policy(Features(pharmacies[i]))));
    assert forall i :: 0 <= i < |w| ==> 0.0 < policy(Features(pharmacies[i])) && w[i] == ImportanceWeight(policy(Features(pharmacies[i])));
    w
  }

  /** The rows with their final scores `(reward + bonus) * importance_weight`, in input order. */
  function ScoreRows(pharmacies: seq<Pharmacy>, rewards: seq<real>, bonus: map<string, real>, weights: seq<real>): (rows: seq<Recommended>)
    requires |rewards| == |pharmacies| && |weights| == |pharmacies|
    ensures |rows| == |pharmacies|
    ensures forall i :: 0 <= i < |rows| ==> rows[i].pharmacy == pharmacies[i]
  {
    seq(|pharmacies|, i requires 0 <= i < |pharmacies| =>
      Recommended(pharmacies[i], FinalScore(rewards[i], BonusFor(bonus, pharmacies[i].dutyName), weights[i])))
  }

  /** Every row with its final score, in input order. */
  function Scored(pharmacies: seq<Pharmacy>, policy: Policy, hasManager: bool, clock: Clock,
                  feedback: seq<PharmacySelection>, bonus: map<string, real>, now: int): (rows: seq<Recommended>)
    requires IsProbability(policy) && clock.Valid()
    ensures |rows| == |pharmacies|
  {
    ScoreRows(pharmacies, Rewards(pharmacies, hasManager, clock, feedback, now), bonus, Weights(pharmacies, policy))
  }

  /** `nlargest(K, 'similarity')` over the scored rows. */
  function Recommendations(pharmacies: seq<Pharmacy>, policy: Policy, hasManager: bool, clock: Clock,
                           feedback: seq<PharmacySelection>, bonus: map<string, real>, now: int): seq<Recommended>
    requires IsProbability(policy) && clock.Valid()
  {
    Ranking.TopK(Scored(pharmacies, policy, hasManager, clock, feedback, bonus, now), TopCount,
                 Ranking.Descending(Similarity))
  }

  /**
   * The result holds `min(15, n)` scored rows of the input, highest score first, and no
   * row left out scores higher than a row kept.
   */
  lemma RecommendationsRanked(pharmacies: seq<Pharmacy>, policy: Policy, hasManager: bool, clock: Clock,
                              feedback: seq<PharmacySelection>, bonus: map<string, real>, now: int)
    requires IsProbability(policy) && clock.Valid()
    ensures var all := Scored(pharmacies, policy, hasManager, clock, feedback, bonus, now);
      var r := Recommendations(pharmacies, policy, hasManager, clock, feedback, bonus, now);
      && |r| == (if |pharmacies| < TopCount then |pharmacies| else TopCount)
      && (forall i, j :: 0 <= i < j < |r| ==> r[i].similarity >= r[j].similarity)
      && multiset(r) <= multiset(all)
      && (forall y, i :: y in multiset(all) - multiset(r) && 0 <= i < |r| ==> r[i].similarity >= y.similarity)
  {
    var all := Scored(pharmacies, policy, hasManager, clock, feedback, bonus, now);
    Ranking.DescendingIsTotalPreorder(Similarity);
    Ranking.TopKSelects(all, TopCount, Ranking.Descending(Similarity));
  }

  /** A non-negative log bonus can only raise a row's final score, and a positive one raises it. */
  lemma BonusRaisesScores(pharmacies: seq<Pharmacy>, policy: Policy, hasManager: bool, clock: Clock,
                          feedback: seq<PharmacySelection>, bonus: map<string, real>, now: int)
    requires IsProbability(policy) && clock.Valid()
    requires forall n :: n in bonus ==> bonus[n] >= 0.0
    ensures var with := Scored(pharmacies, policy, hasManager, clock, feedback, bonus, now);
      var without := Scored(pharmacies, policy, hasManager, clock, feedback, map[], now);
      forall i :: 0 <= i < |pharmacies| ==>
        && with[i].similarity >= without[i].similarity
        && (pharmacies[i].dutyName in bonus && bonus[pharmacies[i].dutyName] > 0.0 ==> with[i].similarity > without[i].similarity)
  {
    var with := Scored(pharmacies, policy, hasManager, clock, feedback, bonus, now);
    var without := Scored(pharmacies, policy, hasManager, clock, feedback, map[], now);
    var rewards, weights := Rewards(pharmacies, hasManager, clock, feedback, now), Weights(pharmacies, policy);
    forall i | 0 <= i < |pharmacies|
      ensures with[i].similarity >= without[i].similarity
      ensures pharmacies[i].dutyName in bonus && bonus[pharmacies[i].dutyName] > 0.0 ==> with[i].similarity > without[i].similarity
    {
      BonusNeverLowers(rewards[i], BonusFor(bonus, pharmacies[i].dutyName), weights[i]);
    }
  }

  /** The feedback rows that enter the batch: those whose pharmacy was chosen in the last seven days. */
  function RewardedRows(candidates: seq<PharmacySelection>, rows: seq<PharmacySelection>, now: int): (batch: seq<PharmacySelection>)
    ensures forall i :: 0 <= i < |batch| ==> PharmacyReward(batch[i].pharmacyName, rows, now) > 0.0
  {
    Ranking.Filter(candidates, EarnsReward(rows, now))
  }

  /** `reward > 0` for a feedback row. */
  function EarnsReward(rows: seq<PharmacySelection>, now: int): (p: PharmacySelection -> bool)
    ensures forall r :: p(r) <==> PharmacyReward(r.pharmacyName, rows, now) > 0.0
  {
    (r: PharmacySelection) => PharmacyReward(r.pharmacyName, rows, now) > 0.0
  }

  /** Filtering one more row extends the batch by that row exactly when it earns a reward. */
  lemma RewardedRowsStep(candidates: seq<PharmacySelection>, i: nat, rows: seq<PharmacySelection>, now: int)
    requires i < |candidates|
    ensures RewardedRows(candidates[..i + 1], rows, now)
      == RewardedRows(candidates[..i], rows, now) + (if PharmacyReward(candidates[i].pharmacyName, rows, now) > 0.0 then [candidates[i]] else [])
  {
    Ranking.FilterPrefixStep(candidates, i, EarnsReward(rows, now));
  }

  /** `loss(row) * reward(row)`, `loss(row)` standing for `-log(policy(features(row)))`. */
  function WeightedLoss(row: PharmacySelection, rows: seq<PharmacySelection>, now: int,
                        loss: PharmacySelection -> real): real
  {
    loss(row) * PharmacyReward(row.pharmacyName, rows, now)
  }

  /** `total_loss` over a batch. */
  function TotalLoss(batch: seq<PharmacySelection>, rows: seq<PharmacySelection>, now: int,
                     loss: PharmacySelection -> real): real
  {
    if batch == [] then 0.0
    else TotalLoss(batch[..|batch| - 1], rows, now, loss) + WeightedLoss(batch[|batch| - 1], rows, now, loss)
  }

  lemma TotalLossSnoc(batch: seq<PharmacySelection>, x: PharmacySelection, rows: seq<PharmacySelection>, now: int,
                      loss: PharmacySelection -> real)
    ensures TotalLoss(batch + [x], rows, now, loss)
      == TotalLoss(batch, rows, now, loss) + WeightedLoss(x, rows, now, loss)
  {
    assert (batch + [x])[..|batch|] == batch;
  }

  /** One turn of the batch loop keeps the batch and its loss in step with the rows read. */
  lemma CollectStep(rows: seq<PharmacySelection>, i: nat, now: int, loss: PharmacySelection -> real,
                    batch: seq<PharmacySelection>, total: real)
    requires i < |rows|
    requires batch == RewardedRows(rows[..i], rows, now) && total == TotalLoss(batch, rows, now, loss)
    ensures PharmacyReward(rows[i].pharmacyName, rows, now) > 0.0 ==>
      && batch + [rows[i]] == RewardedRows(rows[..i + 1], rows, now)
      && total + WeightedLoss(rows[i], rows, now, loss) == TotalLoss(batch + [rows[i]], rows, now, loss)
    ensures PharmacyReward(rows[i].pharmacyName, rows, now) <= 0.0 ==>
      batch == RewardedRows(rows[..i + 1], rows, now)
  {
    RewardedRowsStep(rows, i, rows, now);
    TotalLossSnoc(batch, rows[i], rows, now, loss);
    assert batch + [] == batch;
  }

  /** The update the corrected code makes on the member's feedback rows. */
  function PolicyUpdate(rows: seq<PharmacySelection>, now: int, loss: PharmacySelection -> real): UpdateOutcome {
    if rows == [] then NoUpdate
    else
      var batch := RewardedRows(rows, rows, now);
      if batch == [] then NoStep
      else Stepped(|batch|, TotalLoss(batch, rows, now, loss) / |batch| as real)
  }

  /** A step is taken exactly when some feedback row is younger than seven days. */
  lemma {:induction false} PolicyUpdateSteps(rows: seq<PharmacySelection>, now: int, loss: PharmacySelection -> real)
    ensures PolicyUpdate(rows, now, loss).Stepped? <==>
      exists i :: 0 <= i < |rows| && rows[i].selectedAt > now - RecentWindow
    ensures PolicyUpdate(rows, now, loss).Stepped? ==> PolicyUpdate(rows, now, loss).batchSize <= |rows|
  {
    var p := EarnsReward(rows, now);
    if exists i :: 0 <= i < |rows| && rows[i].selectedAt > now - RecentWindow {
      var i :| 0 <= i < |rows| && rows[i].selectedAt > now - RecentWindow;
      assert p(rows[i]);
      Ranking.FilterKeeps(rows, p, i);
    }
  }

  /**
   * `update_from_feedback` / `update_policy` as written: each feedback row is handed to
   * `calculate_pharmacy_reward`, which reads `row['dutyname']`; the feedback rows carry
   * `pharmacy_name` instead, so any non-empty feedback raises `KeyError`.
   */
  function UpdateAsWritten(rows: seq<PharmacySelection>): (r: Result<UpdateOutcome>)
    ensures r.Success? <==> rows == []
  {
    if rows == [] then Success(NoUpdate) else Failure("KeyError: 'dutyname'")
  }

  /** A member who chose a pharmacy an hour ago: the code raises where a step was meant. */
  lemma UpdateAsWrittenRaises(loss: PharmacySelection -> real)
    ensures var rows := [PharmacySelection("C1", 1000000 - 3600, "P", "")];
      && UpdateAsWritten(rows).Failure?
      && PolicyUpdate(rows, 1000000, loss) == Stepped(1, loss(rows[0]) * SelectionReward)
  {
    var rows := [PharmacySelection("C1", 1000000 - 3600, "P", "")];
    assert PharmacyReward("P", rows, 1000000) == SelectionReward;
    var batch := RewardedRows(rows, rows, 1000000);
    assert batch == [rows[0]] by {
      assert rows[1..] == [];
    }
    assert batch[..0] == [];
  }

  class PharmacyRecommender {
    /** `feedback_manager`: present exactly when a database connection was given. */
    const manager: FeedbackManager?
    /** How many optimizer steps the policy has taken. */
    var optimizerSteps: nat

    constructor (dbConnected: bool, redis: RedisState)
      ensures (manager != null) == dbConnected
      ensures manager != null ==> fresh(manager) && manager.hasDb && manager.redis == redis
      ensures optimizerSteps == 0
    {
      if dbConnected {
        manager := new FeedbackManager(true, redis);
      } else {
        manager := null;
      }
      optimizerSteps := 0;
    }

    /** `calculate_reward` for one row: reads the member's feedback through the manager. */
    method CalculateReward(p: Pharmacy, memberId: string, now: int, clock: Clock,
                           feedbackDb: QueryAnswer<PharmacySelection>)
      returns (reward: real)
      requires clock.Valid()
      modifies manager
      ensures manager != null && memberId != "" ==>
        var r := ReadFeedback(old(manager.redis.pharmacyFeedback), PharmacyFeedbackKey(memberId), manager.hasDb, now, feedbackDb);
        reward == RowReward(p, true, clock, r.value, now)
        && manager.redis == old(manager.redis).(pharmacyFeedback := r.cache)
      ensures !(manager != null && memberId != "") ==> reward == RowReward(p, manager != null, clock, [], now)
      ensures manager != null && memberId == "" ==> manager.redis == old(manager.redis)
    {
      var hoursBonus := if manager != null then OperatingHoursBonus(p.hours, clock) else 0.0;
      var immediate := BaseShare * Base(p) + hoursBonus;
      if memberId != "" && manager != null {
        var feedback := manager.GetPharmacyFeedback(memberId, now, feedbackDb);
        if feedback != [] {
          var longTerm := PharmacyReward(p.dutyName, feedback, now);
          return immediate + Gamma * Min(longTerm, 1.0);
        }
      }
      return immediate;
    }

    /** The policy's probability for each row, on its features. */
    static method PolicyProbabilities(pharmacies: seq<Pharmacy>, policy: Policy)
      returns (probs: seq<real>)
      ensures |probs| == |pharmacies|
      ensures forall k :: 0 <= k < |probs| ==> probs[k] == policy(Features(pharmacies[k]))
    {
      probs := [];
      var i := 0;
      while i < |pharmacies|
        invariant 0 <= i <= |pharmacies| && |probs| == i
        invariant forall k :: 0 <= k < i ==> probs[k] == policy(Features(pharmacies[k]))
      {
        probs := probs + [policy(Features(pharmacies[i]))];
        i := i + 1;
      }
    }

    /** Adds each row's log bonus to its reward, for the rows whose `dutyname` is in the bonus map. */
    static method AddBonus(rewards: seq<real>, pharmacies: seq<Pharmacy>, bonus: map<string, real>)
      returns (r: seq<real>)
      requires |rewards| == |pharmacies|
      ensures |r| == |rewards|
      ensures forall k :: 0 <= k < |r| ==> r[k] == rewards[k] + BonusFor(bonus, pharmacies[k].dutyName)
    {
      r := rewards;
      var i := 0;
      while i < |r|
        invariant 0 <= i <= |r| && |r| == |rewards|
        invariant forall k :: 0 <= k < i ==> r[k] == rewards[k] + BonusFor(bonus, pharmacies[k].dutyName)
        invariant forall k :: i <= k < |r| ==> r[k] == rewards[k]
      {
        if pharmacies[i].dutyName in bonus {
          r := r[i := r[i] + bonus[pharmacies[i].dutyName]];
        }
        i := i + 1;
      }
    }

    /**
     * `recommend_pharmacies`: scores every row, adds the log bonus, and keeps the 15 best by
     * `reward * importance_weight`.
     */
    method RecommendPharmacies(pharmacies: seq<Pharmacy>, memberId: string, now: int, clock: Clock,
                               policy: Policy,
                               feedbackDb: QueryAnswer<PharmacySelection>, logsDb: QueryAnswer<LogRow>)
      returns (recommended: seq<Recommended>)
      requires IsProbability(policy) && clock.Valid()
      modifies manager
      ensures !(manager != null && memberId != "") ==>
        recommended == Recommendations(pharmacies, policy, manager != null, clock, [], map[], now)
      ensures manager != null && memberId == "" ==> manager.redis == old(manager.redis)
      ensures manager != null && memberId != "" ==>
        var fb := ReadFeedback(old(manager.redis.pharmacyFeedback), PharmacyFeedbackKey(memberId), manager.hasDb, now, feedbackDb);
        var names := seq(|pharmacies|, i requires 0 <= i < |pharmacies| => pharmacies[i].dutyName);
        var bn := ReadBonus(old(manager.redis.pharmacyBonus), PharmacyBonusKey(memberId), names, manager.hasDb, now, logsDb);
        && recommended == Recommendations(pharmacies, policy, true, clock, fb.value, bn.value, now)
        && manager.redis == old(manager.redis).(
             pharmacyFeedback := if pharmacies == [] then old(manager.redis.pharmacyFeedback) else fb.cache,
             pharmacyBonus := bn.cache)
    {
      var n := |pharmacies|;
      var active := manager != null && memberId != "";
      ghost var fb := if active then ReadFeedback(manager.redis.pharmacyFeedback, PharmacyFeedbackKey(memberId), manager.hasDb, now, feedbackDb)
                      else CacheRead([], map[]);

      var probs := PolicyProbabilities(pharmacies, policy);
      var weights := seq(n, k requires 0 <= k < n => ImportanceWeight(probs[k]));
      assert weights == Weights(pharmacies, policy);

      var rewards := CollectRewards(pharmacies, memberId, now, clock, feedbackDb);
      ghost var base := rewards;

      // log bonus
      var bonus: map<string, real> := map[];
      if active {
        var names := seq(n, k requires 0 <= k < n => pharmacies[k].dutyName);
        bonus := manager.CheckPharmacyLogs(memberId, names, now, logsDb);
        rewards := AddBonus(rewards, pharmacies, bonus);
      }

      recommended := RankRows(pharmacies, base, bonus, rewards, weights);
    }

    /** The reward loop: one `calculate_reward` per row, every one reading the same feedback. */
    method CollectRewards(pharmacies: seq<Pharmacy>, memberId: string, now: int, clock: Clock,
                          feedbackDb: QueryAnswer<PharmacySelection>)
      returns (rewards: seq<real>)
      requires clock.Valid()
      modifies manager
      ensures var active := manager != null && memberId != "";
        var fb := if active then ReadFeedback(old(manager.redis.pharmacyFeedback), PharmacyFeedbackKey(memberId), manager.hasDb, now, feedbackDb)
                  else CacheRead([], map[]);
        && rewards == Rewards(pharmacies, manager != null, clock, fb.value, now)
        && (active && pharmacies != [] ==> manager.redis == old(manager.redis).(pharmacyFeedback := fb.cache))
        && (manager != null && !(active && pharmacies != []) ==> manager.redis == old(manager.redis))
    {
      var n := |pharmacies|;
      var active := manager != null && memberId != "";
      ghost var fb := if active then ReadFeedback(manager.redis.pharmacyFeedback, PharmacyFeedbackKey(memberId), manager.hasDb, now, feedbackDb)
                      else CacheRead([], map[]);
      ghost var g := RewardOf(manager != null, clock, fb.value, now);
      rewards := [];
      var i := 0;
      while i < n
        invariant 0 <= i <= n
        invariant rewards == Ranking.Map(pharmacies[..i], g)
        invariant active && i > 0 ==> manager.redis == old(manager.redis).(pharmacyFeedback := fb.cache)
        invariant manager != null && !(active && i > 0) ==> manager.redis == old(manager.redis)
      {
        if active && i > 0 {
          ReadFeedbackSettles(old(manager.redis.pharmacyFeedback), PharmacyFeedbackKey(memberId), manager.hasDb, now, feedbackDb, feedbackDb);
        }
        var reward := CalculateReward(pharmacies[i], memberId, now, clock, feedbackDb);
        Ranking.MapPrefixStep(pharmacies, i, g, reward);
        rewards := rewards + [reward];
        i := i + 1;
      }
      RewardsAsMap(pharmacies, manager != null, clock, fb.value, now);
      assert pharmacies[..n] == pharmacies;
    }

    /** `similarity = reward * importance_weight`, then `nlargest(K, 'similarity')`. */
    static method RankRows(pharmacies: seq<Pharmacy>, ghost base: seq<real>, bonus: map<string, real>,
                           rewards: seq<real>, weights: seq<real>)
      returns (recommended: seq<Recommended>)
      requires |base| == |rewards| == |weights| == |pharmacies|
      requires forall k :: 0 <= k < |pharmacies| ==> rewards[k] == base[k] + BonusFor(bonus, pharmacies[k].dutyName)
      ensures recommended == Ranking.TopK(ScoreRows(pharmacies, base, bonus, weights), TopCount, Ranking.Descending(Similarity))
    {
      var n := |pharmacies|;
      var scored := seq(n, k requires 0 <= k < n => Recommended(pharmacies[k], rewards[k] * weights[k]));
      ghost var expected := ScoreRows(pharmacies, base, bonus, weights);
      forall k | 0 <= k < n ensures scored[k] == expected[k] {
        ProductOfSum(rewards[k], base[k], BonusFor(bonus, pharmacies[k].dutyName), weights[k]);
      }
      assert scored == expected;
      recommended := Ranking.TopK(scored, TopCount, Ranking.Descending(Similarity));
    }

    /** One turn of the batch loop: row `i` joins the batch when it earns a reward. */
    static method CollectRow(rows: seq<PharmacySelection>, i: nat, now: int, loss: PharmacySelection -> real,
                             total: real, batchSize: nat, ghost batch: seq<PharmacySelection>)
      returns (total': real, batchSize': nat, ghost batch': seq<PharmacySelection>)
      requires i < |rows|
      requires batch == RewardedRows(rows[..i], rows, now) && batchSize == |batch|
      requires total == TotalLoss(batch, rows, now, loss)
      ensures batch' == RewardedRows(rows[..i + 1], rows, now) && batchSize' == |batch'|
      ensures total' == TotalLoss(batch', rows, now, loss)
    {
      var reward := PharmacyReward(rows[i].pharmacyName, rows, now);
      CollectStep(rows, i, now, loss, batch, total);
      if reward > 0.0 {
        total', batchSize', batch' := total + WeightedLoss(rows[i], rows, now, loss), batchSize + 1, batch + [rows[i]];
      } else {
        total', batchSize', batch' := total, batchSize, batch;
      }
    }

    /**
     * The batch loop of `update_from_feedback` / `update_policy`: the loss summed over the
     * rows that earn a reward, each weighted by its reward, and how many rows that is.
     */
    static method CollectBatch(rows: seq<PharmacySelection>, now: int, loss: PharmacySelection -> real)
      returns (total: real, batchSize: nat)
      ensures batchSize == |RewardedRows(rows, rows, now)|
      ensures total == TotalLoss(RewardedRows(rows, rows, now), rows, now, loss)
    {
      total, batchSize := 0.0, 0;
      ghost var batch: seq<PharmacySelection> := [];
      var i := 0;
      while i < |rows|
        invariant 0 <= i <= |rows|
        invariant batch == RewardedRows(rows[..i], rows, now) && batchSize == |batch|
        invariant total == TotalLoss(batch, rows, now, loss)
      {
        total, batchSize, batch := CollectRow(rows, i, now, loss, total, batchSize, batch);
        i := i + 1;
      }
      assert rows[..i] == rows;
    }

    /**
     * `update_from_feedback`, reading each row's own `pharmacy_name`: nothing without a
     * manager, a member or feedback rows; otherwise one optimizer step on the mean loss of
     * the rows chosen in the last seven days, if there are any.
     */
    method UpdateFromFeedback(memberId: string, now: int, feedbackDb: QueryAnswer<PharmacySelection>,
                              loss: PharmacySelection -> real)
      returns (outcome: UpdateOutcome)
      modifies this, manager
      ensures manager == null || memberId == "" ==> outcome == NoUpdate && optimizerSteps == old(optimizerSteps)
      ensures manager != null && memberId != "" ==>
        var fb := ReadFeedback(old(manager.redis.pharmacyFeedback), PharmacyFeedbackKey(memberId), manager.hasDb, now, feedbackDb);
        && outcome == PolicyUpdate(fb.value, now, loss)
        && manager.redis == old(manager.redis).(pharmacyFeedback := fb.cache)
      ensures optimizerSteps == old(optimizerSteps) + (if outcome.Stepped? then 1 else 0)
      ensures manager != null && memberId == "" ==> manager.redis == old(manager.redis)
    {
      if manager == null || memberId == "" {
        return NoUpdate;
      }
      var rows := manager.GetPharmacyFeedback(memberId, now, feedbackDb);
      if rows == [] {
        return NoUpdate;
      }
      var total, batchSize := CollectBatch(rows, now, loss);
      if batchSize > 0 {
        optimizerSteps := optimizerSteps + 1;
        return Stepped(batchSize, total / batchSize as real);
      }
      return NoStep;
    }

    /** `update_policy`: the same body as `update_from_feedback`, with the same effect. */
    method UpdatePolicy(memberId: string, now: int, feedbackDb: QueryAnswer<PharmacySelection>,
                        loss: PharmacySelection -> real)
      returns (outcome: UpdateOutcome)
      modifies this, manager
      ensures manager == null || memberId == "" ==> outcome == NoUpdate && optimizerSteps == old(optimizerSteps)
      ensures manager != null && memberId != "" ==>
        var fb := ReadFeedback(old(manager.redis.pharmacyFeedback), PharmacyFeedbackKey(memberId), manager.hasDb, now, feedbackDb);
        && outcome == PolicyUpdate(fb.value, now, loss)
        && manager.redis == old(manager.redis).(pharmacyFeedback := fb.cache)
      ensures optimizerSteps == old(optimizerSteps) + (if outcome.Stepped? then 1 else 0)
      ensures manager != null && memberId == "" ==> manager.redis == old(manager.redis)
    {
      outcome := UpdateFromFeedback(memberId, now, feedbackDb, loss);
    }
  }
}
