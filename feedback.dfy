/**
 * The feedback store of utils/feedback_manager.py: a Redis cache in front of the
 * relational database, the recency reward, the per-name log bonus and the
 * opening-hours bonus.
 *
 * Redis is the `redis` field of `FeedbackManager`, one map per key family; an entry
 * written by `setex` at time `now` is visible while the clock is below
 * `now + CacheTtl`. Clock readings (`datetime.now()`) and the answers the database
 * gives to the manager's queries are parameters.
 */
module FeedbackStore {
  import opened Wrappers
  import opened PyText

  /** `cache_ttl`: seven days, in seconds. */
  const CacheTtl: int := 604800
  /** `timedelta(days=7)`, in seconds. */
  const RecentWindow: int := 7 * 24 * 60 * 60
  /** The reward for a recent selection and the bonus for a logged one. */
  const SelectionReward: real := 0.2
  /** The bonus for a pharmacy that is open right now. */
  const OpenBonus: real := 0.3

  datatype Entry<V> = Entry(value: V, expiresAt: int)

  /** A row of `selected_hp JOIN hospital`, newest first. */
  datatype HospitalSelection = HospitalSelection(
    hpid: string, selectedAt: int, hospitalName: string, department: string, hospitalType: string)

  /** A row of `selected_ph JOIN pharmacy`, newest first. */
  datatype PharmacySelection = PharmacySelection(
    hpid: string, selectedAt: int, pharmacyName: string, address: string)

  /** A row of the LEFT JOIN behind the log checks: a facility name and the member's selection id, if any. */
  datatype LogRow = LogRow(name: string, selectedId: Option<int>)

  /** What the database does with one query: the rows, or an exception (which includes a failure to serialise them). */
  datatype QueryAnswer<R> = Rows(rows: seq<R>) | QueryError

  /** The four key families the manager writes. */
  datatype RedisState = RedisState(
    hospitalFeedback: map<string, Entry<seq<HospitalSelection>>>,
    pharmacyFeedback: map<string, Entry<seq<PharmacySelection>>>,
    hospitalBonus: map<string, Entry<map<string, real>>>,
    pharmacyBonus: map<string, Entry<map<string, real>>>)

  function HospitalFeedbackKey(memberId: string): string { "hospital_feedback:" + memberId }
  function PharmacyFeedbackKey(memberId: string): string { "pharmacy_feedback:" + memberId }
  function HospitalBonusKey(memberId: string): string { "hospital_bonus:" + memberId }
  function PharmacyBonusKey(memberId: string): string { "pharmacy_bonus:" + memberId }

  /** `redis.get(key)` at time `now`. */
  function Lookup<V>(cache: map<string, Entry<V>>, key: string, now: int): (r: Option<V>)
    ensures r.Some? <==> key in cache && now < cache[key].expiresAt
    ensures r.Some? ==> r.value == cache[key].value
  {
    if key in cache && now < cache[key].expiresAt then Some(cache[key].value) else None
  }

  /** The value a cache-aside read returns together with the cache it leaves behind. */
  datatype CacheRead<V> = CacheRead(value: V, cache: map<string, Entry<V>>)

  /**
   * `get_hospital_feedback` / `get_pharmacy_feedback`: the cached rows on a hit; on a
   * miss, nothing without a database, the queried rows (also written to the cache with
   * the seven-day expiry) when the query succeeds, and nothing when it raises.
   */
  function ReadFeedback<R>(cache: map<string, Entry<seq<R>>>, key: string, hasDb: bool, now: int,
                           db: QueryAnswer<R>): (r: CacheRead<seq<R>>)
  {
    match Lookup(cache, key, now)
    case Some(rows) => CacheRead(rows, cache)
    case None =>
      if !hasDb then CacheRead([], cache)
      else match db
        case Rows(rows) => CacheRead(rows, cache[key := Entry(rows, now + CacheTtl)])
        case QueryError => CacheRead([], cache)
  }

  /** The four outcomes of a feedback read. */
  lemma ReadFeedbackOutcomes<R>(cache: map<string, Entry<seq<R>>>, key: string, hasDb: bool, now: int,
                                db: QueryAnswer<R>)
    ensures var r := ReadFeedback(cache, key, hasDb, now, db);
      && (key in cache && now < cache[key].expiresAt ==> r == CacheRead(cache[key].value, cache))
      && (Lookup(cache, key, now).None? && !hasDb ==> r == CacheRead([], cache))
      && (Lookup(cache, key, now).None? && hasDb && db.Rows? ==>
            r.value == db.rows && r.cache == cache[key := Entry(db.rows, now + CacheTtl)])
      && (Lookup(cache, key, now).None? && db.QueryError? ==> r == CacheRead([], cache))
      && (forall k :: k != key ==> (k in r.cache <==> k in cache) && (k in cache ==> r.cache[k] == cache[k]))
  {
  }

  /**
   * Reading again at the same time gives the same rows and leaves the cache as the
   * first read left it, whatever the database answers the second time, unless the first
   * read's query raised: that read cached nothing, so the second one is a fresh read.
   */
  lemma ReadFeedbackSettles<R>(cache: map<string, Entry<seq<R>>>, key: string, hasDb: bool, now: int,
                               db: QueryAnswer<R>, db2: QueryAnswer<R>)
    ensures var first := ReadFeedback(cache, key, hasDb, now, db);
      var second := ReadFeedback(first.cache, key, hasDb, now, db2);
      && (Lookup(cache, key, now).None? && hasDb && db.QueryError? ==>
            first.cache == cache && second == ReadFeedback(cache, key, hasDb, now, db2))
      && (!(Lookup(cache, key, now).None? && hasDb && db.QueryError?) ==> second == first)
  {
    var first := ReadFeedback(cache, key, hasDb, now, db);
    if Lookup(cache, key, now).None? && hasDb && db.Rows? {
      assert Lookup(first.cache, key, now) == Some(db.rows);
    }
  }

  /** The names of the rows whose member selection exists get 0.2; built row by row as the loop does. */
  function LogBonus(rows: seq<LogRow>): (bonus: map<string, real>)
    ensures forall n :: n in bonus ==> bonus[n] == SelectionReward
    ensures forall n :: n in bonus <==> exists i :: 0 <= i < |rows| && rows[i].name == n && rows[i].selectedId.Some?
    decreases |rows|
  {
    if rows == [] then map[]
    else
      var last := rows[|rows| - 1];
      var m := LogBonus(rows[..|rows| - 1]);
      assert forall i :: 0 <= i < |rows| - 1 ==> rows[..|rows| - 1][i] == rows[i];
      if last.selectedId.Some? then m[last.name := SelectionReward] else m
  }

  /** The cached bonus map cut down to the names asked about. */
  function RestrictTo(bonus: map<string, real>, names: seq<string>): (r: map<string, real>)
    ensures forall n :: n in r <==> n in bonus && n in names
    ensures forall n :: n in r ==> r[n] == bonus[n]
  {
    map n | n in bonus && n in names :: bonus[n]
  }

  /**
   * `check_hospital_logs` / `check_pharmacy_logs`: on a hit, the cached map restricted to
   * `names`; on a miss, `{}` without a database or on an error, otherwise the bonus of the
   * query's rows, which is also cached.
   */
  function ReadBonus(cache: map<string, Entry<map<string, real>>>, key: string, names: seq<string>,
                     hasDb: bool, now: int, db: QueryAnswer<LogRow>): (r: CacheRead<map<string, real>>)
  {
    match Lookup(cache, key, now)
    case Some(cached) => CacheRead(RestrictTo(cached, names), cache)
    case None =>
      if !hasDb then CacheRead(map[], cache)
      else match db
        case Rows(rows) =>
          var bonus := LogBonus(rows);
          CacheRead(bonus, cache[key := Entry(bonus, now + CacheTtl)])
        case QueryError => CacheRead(map[], cache)
  }

  /** Every bonus handed out is 0.2; on a hit it only names facilities that were asked about. */
  lemma ReadBonusValues(cache: map<string, Entry<map<string, real>>>, key: string, names: seq<string>,
                        hasDb: bool, now: int, db: QueryAnswer<LogRow>)
    requires forall k :: k in cache ==> forall n :: n in cache[k].value ==> cache[k].value[n] == SelectionReward
    ensures var r := ReadBonus(cache, key, names, hasDb, now, db);
      && (forall n :: n in r.value ==> r.value[n] == SelectionReward)
      && (Lookup(cache, key, now).Some? ==> forall n :: n in r.value ==> n in names)
      && (Lookup(cache, key, now).None? && hasDb && db.Rows? ==>
            forall n :: n in r.value <==> exists i :: 0 <= i < |db.rows| && db.rows[i].name == n && db.rows[i].selectedId.Some?)
      && (Lookup(cache, key, now).None? && (!hasDb || db.QueryError?) ==> r.value == map[])
  {
  }

  /** `selected_at > now - 7 days` for some row naming `name`. */
  predicate SelectedRecently<R>(rows: seq<R>, nameOf: R -> string, timeOf: R -> int, name: string, now: int) {
    exists i :: 0 <= i < |rows| && nameOf(rows[i]) == name && timeOf(rows[i]) > now - RecentWindow
  }

  /** The same test, scanning the rows one by one. */
  function FindRecent<R>(rows: seq<R>, nameOf: R -> string, timeOf: R -> int, name: string, now: int): (found: bool)
    ensures found <==> SelectedRecently(rows, nameOf, timeOf, name, now)
    decreases |rows|
  {
    if rows == [] then false
    else if nameOf(rows[0]) == name && timeOf(rows[0]) > now - RecentWindow then true
    else
      var found := FindRecent(rows[1..], nameOf, timeOf, name, now);
      assert found ==> SelectedRecently(rows, nameOf, timeOf, name, now) by {
        if found {
          var i :| 0 <= i < |rows[1..]| && nameOf(rows[1..][i]) == name && timeOf(rows[1..][i]) > now - RecentWindow;
          assert rows[i + 1] == rows[1..][i];
        }
      }
      assert SelectedRecently(rows, nameOf, timeOf, name, now) ==> found by {
        if SelectedRecently(rows, nameOf, timeOf, name, now) {
          var i :| 0 <= i < |rows| && nameOf(rows[i]) == name && timeOf(rows[i]) > now - RecentWindow;
          assert i > 0;
          assert rows[1..][i - 1] == rows[i];
        }
      }
      found
  }

  function HospitalNameOf(r: HospitalSelection): string { r.hospitalName }
  function HospitalTimeOf(r: HospitalSelection): int { r.selectedAt }
  function PharmacyNameOf(r: PharmacySelection): string { r.pharmacyName }
  function PharmacyTimeOf(r: PharmacySelection): int { r.selectedAt }

  /** `calculate_hospital_reward`: 0.2 when the hospital was chosen in the last seven days, else 0.0. */
  function HospitalReward(name: string, feedback: seq<HospitalSelection>, now: int): (r: real)
    ensures r == SelectionReward || r == 0.0
    ensures r == SelectionReward <==>
      exists i :: 0 <= i < |feedback| && feedback[i].hospitalName == name && feedback[i].selectedAt > now - RecentWindow
    ensures feedback == [] ==> r == 0.0
  {
    if feedback == [] then 0.0
    else if FindRecent(feedback, HospitalNameOf, HospitalTimeOf, name, now) then SelectionReward
    else 0.0
  }

  /** `calculate_pharmacy_reward`: the same rule, matching `dutyname` against `pharmacy_name`. */
  function PharmacyReward(dutyName: string, feedback: seq<PharmacySelection>, now: int): (r: real)
    ensures r == SelectionReward || r == 0.0
    ensures r == SelectionReward <==>
      exists i :: 0 <= i < |feedback| && feedback[i].pharmacyName == dutyName && feedback[i].selectedAt > now - RecentWindow
    ensures feedback == [] ==> r == 0.0
  {
    if feedback == [] then 0.0
    else if FindRecent(feedback, PharmacyNameOf, PharmacyTimeOf, dutyName, now) then SelectionReward
    else 0.0
  }

  /** The wall clock as `datetime.now()` gives it: `weekday()` is 0 on Monday. */
  datatype Clock = Clock(weekday: nat, hour: nat, minute: nat) {
    predicate Valid() { weekday < 7 && hour < 24 && minute < 60 }
    function Minutes(): int { hour * 60 + minute }
  }

  /** `f"{weekday() + 1}s"` and `f"{weekday() + 1}c"`: the day's opening (`s`) and closing (`c`) column. */
  function DayColumn(c: Clock, kind: char): (k: string)
    requires c.Valid()
    ensures |k| == 2 && k[1] == kind && '1' <= k[0] <= '7'
    ensures k[0] as int - '0' as int == c.weekday + 1
  {
    [DigitChar(c.weekday + 1), kind]
  }

  /** `s[:n]` and `s[n:]`, which clamp at the end of the string. */
  function Head(s: string, n: nat): string { if n <= |s| then s[..n] else s }
  function Tail(s: string, n: nat): string { if n <= |s| then s[n..] else "" }

  /** `int(t[:2]) * 60 + int(t[2:])`, or `None` where `int` raises. */
  function HhmmMinutes(t: string): (r: Option<int>)
    ensures r.Some? ==> ParseInt(Head(t, 2)).Some? && ParseInt(Tail(t, 2)).Some?
  {
    match (ParseInt(Head(t, 2)), ParseInt(Tail(t, 2)))
    case (Some(h), Some(m)) => Some(h * 60 + m)
    case _ => None
  }

  /**
   * An opening-hours cell of the row: `None` for a value that is absent or falsy, or for
   * NaN, on which slicing raises; both give 0.0.
   */
  type HoursRow = map<string, Option<string>>

  /** The day's window in minutes since midnight, when both cells are present, non-empty and parse. */
  function Window(hours: HoursRow, c: Clock): (w: Option<(int, int)>)
    requires c.Valid()
  {
    var sk, ek := DayColumn(c, 's'), DayColumn(c, 'c');
    if sk in hours && ek in hours && hours[sk].Some? && hours[ek].Some?
       && hours[sk].value != "" && hours[ek].value != "" then
      match (HhmmMinutes(hours[sk].value), HhmmMinutes(hours[ek].value))
      case (Some(s), Some(e)) => Some((s, e))
      case _ => None
    else None
  }

  /** `check_operating_hours`: 0.3 when the current minute lies in the day's window, ends included. */
  function OperatingHoursBonus(hours: HoursRow, c: Clock): (bonus: real)
    requires c.Valid()
    ensures bonus == OpenBonus || bonus == 0.0
    ensures bonus == OpenBonus <==> Window(hours, c).Some? && Window(hours, c).value.0 <= c.Minutes() <= Window(hours, c).value.1
  {
    match Window(hours, c)
    case Some((s, e)) => if s <= c.Minutes() <= e then OpenBonus else 0.0
    case None => 0.0
  }

  /** A missing key, an empty cell or an unparsable time gives no bonus. */
  lemma NoWindowNoBonus(hours: HoursRow, c: Clock)
    requires c.Valid()
    requires DayColumn(c, 's') !in hours || DayColumn(c, 'c') !in hours
          || hours[DayColumn(c, 's')] in {None, Some("")} || hours[DayColumn(c, 'c')] in {None, Some("")}
          || (hours[DayColumn(c, 's')].Some? && HhmmMinutes(hours[DayColumn(c, 's')].value).None?)
    ensures OperatingHoursBonus(hours, c) == 0.0
  {
  }

  /** A window that closes before it opens (an overnight window) never gives the bonus. */
  lemma OvernightNeverOpen(hours: HoursRow, c: Clock)
    requires c.Valid()
    requires Window(hours, c).Some? && Window(hours, c).value.1 < Window(hours, c).value.0
    ensures OperatingHoursBonus(hours, c) == 0.0
  {
  }

  /** Two digits, zero-padded, as the opening-hours columns store them. */
  function TwoDigits(n: nat): (s: string)
    requires n < 100
    ensures |s| == 2 && IsDigits(s)
  {
    [DigitChar(n / 10), DigitChar(n % 10)]
  }

  lemma {:induction false} TwoDigitsValue(n: nat)
    requires n < 100
    ensures ParseInt(TwoDigits(n)) == Some(n)
  {
    var s := TwoDigits(n);
    var hi, lo := n / 10, n % 10;
    assert s[0] == DigitChar(hi) && s[1] == DigitChar(lo);
    DigitPairValue(s);
    UnsignedParse(s);
    assert 10 * hi + lo == n;
  }

  /** Two digits are worth ten times the first plus the second. */
  lemma DigitPairValue(s: string)
    requires |s| == 2 && IsDigits(s)
    ensures DigitsValue(s) == 10 * DigitValue(s[0]) + DigitValue(s[1])
  {
    var first := s[..1];
    assert first[..0] == [] && first[0] == s[0];
    assert DigitsValue(first) == DigitValue(s[0]);
  }

  /** A run of digits parses to its value. */
  lemma UnsignedParse(s: string)
    requires IsDigits(s)
    ensures ParseInt(s) == Some(DigitsValue(s))
  {
    assert !IsSpace(s[0]) && !IsSpace(s[|s| - 1]);
    StripNoop(s);
  }

  lemma HhmmOfParts(t: string, h: int, m: int)
    requires ParseInt(Head(t, 2)) == Some(h) && ParseInt(Tail(t, 2)) == Some(m)
    ensures HhmmMinutes(t) == Some(h * 60 + m)
  {
  }

  /** An `HHMM` cell written from a time of day reads back as its minute of the day. */
  lemma {:induction false} HhmmRoundTrip(h: nat, m: nat)
    requires h < 24 && m < 60
    ensures HhmmMinutes(TwoDigits(h) + TwoDigits(m)) == Some(h * 60 + m)
  {
    var t := TwoDigits(h) + TwoDigits(m);
    assert ParseInt(Head(t, 2)) == Some(h) by {
      assert Head(t, 2) == TwoDigits(h);
      TwoDigitsValue(h);
    }
    assert ParseInt(Tail(t, 2)) == Some(m) by {
      assert Tail(t, 2) == TwoDigits(m);
      TwoDigitsValue(m);
    }
    HhmmOfParts(t, h, m);
  }

  /** Cells that hold `HHMM` text for both ends of the day's window give that window. */
  lemma WindowOfCells(hours: HoursRow, c: Clock, oh: nat, om: nat, ch: nat, cm: nat)
    requires c.Valid() && oh < 24 && om < 60 && ch < 24 && cm < 60
    requires DayColumn(c, 's') in hours && hours[DayColumn(c, 's')] == Some(TwoDigits(oh) + TwoDigits(om))
    requires DayColumn(c, 'c') in hours && hours[DayColumn(c, 'c')] == Some(TwoDigits(ch) + TwoDigits(cm))
    ensures Window(hours, c) == Some((oh * 60 + om, ch * 60 + cm))
  {
    HhmmRoundTrip(oh, om);
    HhmmRoundTrip(ch, cm);
  }

  /** On a Monday with hours 09:00-21:00, the bonus is earned exactly from 09:00 to 21:00, both included. */
  lemma MondayWindow(hours: HoursRow, c: Clock)
    requires c.Valid() && c.weekday == 0
    requires "1s" in hours && hours["1s"] == Some(TwoDigits(9) + TwoDigits(0))
    requires "1c" in hours && hours["1c"] == Some(TwoDigits(21) + TwoDigits(0))
    ensures OperatingHoursBonus(hours, c) == OpenBonus <==> 9 * 60 <= c.Minutes() <= 21 * 60
  {
    assert DayColumn(c, 's') == "1s" && DayColumn(c, 'c') == "1c";
    WindowOfCells(hours, c, 9, 0, 21, 0);
  }

  /**
   * The bonus map of the log check as the code computes it. `selected_id` comes back from
   * `pd.read_sql` as a float column as soon as one row holds an id, and the rows without a
   * selection then hold NaN rather than `None`; `is not None` is true of NaN.
   */
  function LogBonusAsWritten(rows: seq<LogRow>): (bonus: map<string, real>)
  {
    var anySelected := exists i :: 0 <= i < |rows| && rows[i].selectedId.Some?;
    map n | n in Names(rows) && anySelected :: SelectionReward
  }

  function Names(rows: seq<LogRow>): set<string> {
    set i | 0 <= i < |rows| :: rows[i].name
  }

  /** One selected and one unselected hospital: the code gives both the bonus. */
  lemma LogBonusAsWrittenRewardsUnselected()
    ensures var rows := [LogRow("A", Some(1)), LogRow("B", None)];
      && "B" in LogBonusAsWritten(rows)
      && "B" !in LogBonus(rows)
  {
    var rows := [LogRow("A", Some(1)), LogRow("B", None)];
    assert rows[0].selectedId.Some?;
    assert "B" == rows[1].name;
    assert "B" in Names(rows);
    assert rows[..1] == [LogRow("A", Some(1))];
    assert rows[..1][..0] == [];
    assert LogBonus(rows) == LogBonus(rows[..1]) == map["A" := SelectionReward];
  }

  /**
   * The corrected rule never hands out a bonus the code does not, and the two agree when
   * every row or no row has a selection id.
   */
  lemma LogBonusWithinAsWritten(rows: seq<LogRow>)
    ensures forall n :: n in LogBonus(rows) ==>
      n in LogBonusAsWritten(rows) && LogBonus(rows)[n] == LogBonusAsWritten(rows)[n]
    ensures (forall i :: 0 <= i < |rows| ==> rows[i].selectedId.Some?) ==> LogBonus(rows) == LogBonusAsWritten(rows)
    ensures (forall i :: 0 <= i < |rows| ==> rows[i].selectedId.None?) ==> LogBonus(rows) == LogBonusAsWritten(rows) == map[]
  {
    var corrected, written := LogBonus(rows), LogBonusAsWritten(rows);
    forall n | n in corrected
      ensures n in written && corrected[n] == written[n]
    {
      var i :| 0 <= i < |rows| && rows[i].name == n && rows[i].selectedId.Some?;
      assert n in Names(rows);
    }
    if forall i :: 0 <= i < |rows| ==> rows[i].selectedId.Some? {
      forall n | n in written
        ensures n in corrected
      {
        var i :| 0 <= i < |rows| && rows[i].name == n;
      }
      assert corrected.Keys == written.Keys;
    }
    if forall i :: 0 <= i < |rows| ==> rows[i].selectedId.None? {
      assert corrected.Keys == {};
      assert written.Keys == {};
    }
  }

  /**
   * The manager: whether a database connection was given, and the Redis contents it sees.
   */
  class FeedbackManager {
    const hasDb: bool
    var redis: RedisState

    constructor (hasDb: bool, redis: RedisState)
      ensures this.hasDb == hasDb && this.redis == redis
    {
      this.hasDb := hasDb;
      this.redis := redis;
    }

    /** `get_hospital_feedback` */
    method GetHospitalFeedback(memberId: string, now: int, db: QueryAnswer<HospitalSelection>)
      returns (rows: seq<HospitalSelection>)
      modifies this
      ensures var r := ReadFeedback(old(redis.hospitalFeedback), HospitalFeedbackKey(memberId), hasDb, now, db);
        rows == r.value && redis == old(redis).(hospitalFeedback := r.cache)
    {
      var key := HospitalFeedbackKey(memberId);
      if key in redis.hospitalFeedback && now < redis.hospitalFeedback[key].expiresAt {
        return redis.hospitalFeedback[key].value;
      }
      if !hasDb {
        return [];
      }
      match db
      case Rows(found) =>
        redis := redis.(hospitalFeedback := redis.hospitalFeedback[key := Entry(found, now + CacheTtl)]);
        rows := found;
      case QueryError =>
        rows := [];
    }

    /** `get_pharmacy_feedback` */
    method GetPharmacyFeedback(memberId: string, now: int, db: QueryAnswer<PharmacySelection>)
      returns (rows: seq<PharmacySelection>)
      modifies this
      ensures var r := ReadFeedback(old(redis.pharmacyFeedback), PharmacyFeedbackKey(memberId), hasDb, now, db);
        rows == r.value && redis == old(redis).(pharmacyFeedback := r.cache)
    {
      var key := PharmacyFeedbackKey(memberId);
      if key in redis.pharmacyFeedback && now < redis.pharmacyFeedback[key].expiresAt {
        return redis.pharmacyFeedback[key].value;
      }
      if !hasDb {
        return [];
      }
      match db
      case Rows(found) =>
        redis := redis.(pharmacyFeedback := redis.pharmacyFeedback[key := Entry(found, now + CacheTtl)]);
        rows := found;
      case QueryError =>
        rows := [];
    }

    /** The loop of the log checks: 0.2 for each row that has a selection id. */
    static method CollectBonus(rows: seq<LogRow>) returns (bonus: map<string, real>)
      ensures bonus == LogBonus(rows)
    {
      bonus := map[];
      var i := 0;
      while i < |rows|
        invariant 0 <= i <= |rows|
        invariant bonus == LogBonus(rows[..i])
      {
        assert rows[..i + 1][..i] == rows[..i];
        if rows[i].selectedId.Some? {
          bonus := bonus[rows[i].name := SelectionReward];
        }
        i := i + 1;
      }
      assert rows[..i] == rows;
    }

    /** `check_hospital_logs` */
    method CheckHospitalLogs(memberId: string, hospitalNames: seq<string>, now: int, db: QueryAnswer<LogRow>)
      returns (bonus: map<string, real>)
      modifies this
      ensures var r := ReadBonus(old(redis.hospitalBonus), HospitalBonusKey(memberId), hospitalNames, hasDb, now, db);
        bonus == r.value && redis == old(redis).(hospitalBonus := r.cache)
    {
      var key := HospitalBonusKey(memberId);
      if key in redis.hospitalBonus && now < redis.hospitalBonus[key].expiresAt {
        return RestrictTo(redis.hospitalBonus[key].value, hospitalNames);
      }
      if !hasDb {
        return map[];
      }
      match db
      case Rows(rows) =>
        bonus := CollectBonus(rows);
        redis := redis.(hospitalBonus := redis.hospitalBonus[key := Entry(bonus, now + CacheTtl)]);
      case QueryError =>
        bonus := map[];
    }

    /** `check_pharmacy_logs` */
    method CheckPharmacyLogs(memberId: string, pharmacyNames: seq<string>, now: int, db: QueryAnswer<LogRow>)
      returns (bonus: map<string, real>)
      modifies this
      ensures var r := ReadBonus(old(redis.pharmacyBonus), PharmacyBonusKey(memberId), pharmacyNames, hasDb, now, db);
        bonus == r.value && redis == old(redis).(pharmacyBonus := r.cache)
    {
      var key := PharmacyBonusKey(memberId);
      if key in redis.pharmacyBonus && now < redis.pharmacyBonus[key].expiresAt {
        return RestrictTo(redis.pharmacyBonus[key].value, pharmacyNames);
      }
      if !hasDb {
        return map[];
      }
      match db
      case Rows(rows) =>
        bonus := CollectBonus(rows);
        redis := redis.(pharmacyBonus := redis.pharmacyBonus[key := Entry(bonus, now + CacheTtl)]);
      case QueryError =>
        bonus := map[];
    }
  }
}
