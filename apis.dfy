/**
 * The public emergency-care service as the emergency-room path reads it
 * (er_utils/apis.py): the province and district of a road address, the hospitals
 * whose severe-illness flags match, read page by page behind a Redis cache, and the
 * real-time bed records of a list of hospitals, each cached on its own.
 *
 * The service is a parameter: a function from the request to its reply once parsed.
 * Redis is the two map fields of `ErCache`, one per key family (the families cannot
 * collide, see `KeysDisjoint`); an entry written by `setex` at time `now` is visible
 * while the clock is below its expiry. The clock is the parameter `now`.
 */
module ErApis {
  import opened Wrappers
  import opened PyText
  import opened FeedbackStore
  import Ranking
  import FilteringForAddr

  // ---------------------------------------------------------------- addresses

  /**
   * `extract_stage_from_address`: the first two whitespace-separated tokens (province,
   * then district). An address with fewer tokens, or one that is not a string (`None`
   * here), gives `(None, None)`.
   */
  function ExtractStage(address: Option<string>): (r: (Option<string>, Option<string>))
    ensures r.0.Some? <==> r.1.Some?
    ensures r.0.Some? ==> IsWord(r.0.value) && IsWord(r.1.value)
  {
    if address.None? then (None, None)
    else
      var parts := Words(address.value);
      if |parts| < 2 then (None, None) else (Some(parts[0]), Some(parts[1]))
  }

  /** The run of non-whitespace at the start of a word followed by whitespace is the word. */
  lemma {:induction false} TokenLengthOfWord(w: string, rest: string)
    requires IsWord(w) && (rest == [] || IsSpace(rest[0]))
    ensures TokenLength(w + rest) == |w|
    decreases |w|
  {
    var t := w + rest;
    assert t[0] == w[0];
    if |w| > 1 {
      assert t[1..] == w[1..] + rest;
      TokenLengthOfWord(w[1..], rest);
    } else {
      assert t[1..] == rest;
    }
  }

  /** Leading whitespace does not change `split()`. */
  lemma WordsSkipsSpace(c: char, rest: string)
    requires IsSpace(c)
    ensures Words([c] + rest) == Words(rest)
  {
    assert ([c] + rest)[1..] == rest;
    assert TrimLeft([c] + rest, IsSpace) == TrimLeft(rest, IsSpace);
  }

  /** `split()` of a word, a whitespace character and more text: the word, then the rest's tokens. */
  lemma WordsAfterWord(w: string, c: char, rest: string)
    requires IsWord(w) && IsSpace(c)
    ensures Words(w + ([c] + rest)) == [w] + Words(rest)
  {
    var s := w + ([c] + rest);
    assert TrimLeft(s, IsSpace) == s by {
      assert s[0] == w[0];
    }
    TokenLengthOfWord(w, [c] + rest);
    assert s[..|w|] == w;
    assert s[|w|..] == [c] + rest;
    WordsSkipsSpace(c, rest);
  }

  /** `split()` of a single word is that word alone. */
  lemma WordsOfWord(w: string)
    requires IsWord(w)
    ensures Words(w) == [w]
  {
    TokenLengthOfWord(w, []);
    assert w + [] == w;
    assert w[..|w|] == w && w[|w|..] == [];
  }

  /** An address that starts with a province and a district, each followed by whitespace, gives exactly those two. */
  lemma ExtractStageOfAddress(stage1: string, stage2: string, c1: char, c2: char, rest: string)
    requires IsWord(stage1) && IsWord(stage2) && IsSpace(c1) && IsSpace(c2)
    ensures ExtractStage(Some(stage1 + ([c1] + (stage2 + ([c2] + rest))))) == (Some(stage1), Some(stage2))
  {
    var tail := stage2 + ([c2] + rest);
    WordsAfterWord(stage2, c2, rest);
    WordsAfterTwoWords(stage1, c1, tail, stage2, Words(rest));
    StagesOfWords(stage1 + ([c1] + tail), stage1, stage2, Words(rest));
  }

  lemma WordsAfterTwoWords(stage1: string, c1: char, tail: string, stage2: string, ws: seq<string>)
    requires IsWord(stage1) && IsSpace(c1) && Words(tail) == [stage2] + ws
    ensures Words(stage1 + ([c1] + tail)) == [stage1, stage2] + ws
  {
    WordsAfterWord(stage1, c1, tail);
  }

  lemma StagesOfWords(address: string, stage1: string, stage2: string, ws: seq<string>)
    requires Words(address) == [stage1, stage2] + ws
    ensures ExtractStage(Some(address)) == (Some(stage1), Some(stage2))
  {
  }

  /** An address of a single token gives `(None, None)`. */
  lemma ExtractStageOfOneToken(stage1: string)
    requires IsWord(stage1)
    ensures ExtractStage(Some(stage1)) == (None, None)
  {
    WordsOfWord(stage1);
  }

  // ---------------------------------------------------------------- replies

  /** A child element of an `<item>`: its tag and its text, `None` for an element with no text. */
  datatype Child = Child(tag: string, text: Option<string>)

  /** An `<item>` element: its children in document order. */
  type Item = seq<Child>

  /**
   * A reply once parsed: `Unparsable` when `ET.fromstring` raises; otherwise the integer
   * in `body/totalCount` (`None` when the tag is missing or holds no integer) and the
   * `<item>` elements in document order.
   */
  datatype Reply = Unparsable | Parsed(totalCount: Option<int>, items: seq<Item>)

  /** `item.find(tag)`: the first child with that tag. */
  function Find(item: Item, tag: string): (r: Option<Child>)
    ensures r.None? <==> forall i :: 0 <= i < |item| ==> item[i].tag != tag
    ensures r.Some? ==> r.value.tag == tag
    decreases |item|
  {
    if item == [] then None
    else if item[0].tag == tag then Some(item[0])
    else Find(item[1..], tag)
  }

  /** The child found is the first one with the tag. */
  lemma {:induction false} FindFirst(item: Item, tag: string)
    requires Find(item, tag).Some?
    ensures exists i :: 0 <= i < |item| && item[i] == Find(item, tag).value && forall j :: 0 <= j < i ==> item[j].tag != tag
    decreases |item|
  {
    if item[0].tag != tag {
      FindFirst(item[1..], tag);
      var i :| 0 <= i < |item[1..]| && item[1..][i] == Find(item, tag).value && forall j :: 0 <= j < i ==> item[1..][j].tag != tag;
      assert item[i + 1] == Find(item, tag).value;
      assert forall j :: 0 <= j < i + 1 ==> item[j].tag != tag by {
        forall j | 0 <= j < i + 1 ensures item[j].tag != tag {
          if j > 0 {
            assert item[j] == item[1..][j - 1];
          }
        }
      }
    }
  }

  const AttributeErrorText := "AttributeError: 'NoneType' object has no attribute 'text'"
  const AttributeErrorStrip := "AttributeError: 'NoneType' object has no attribute 'strip'"
  const ParseError := "ParseError: XML could not be parsed"

  // ---------------------------------------------------------------- hospitals by condition

  /** `numOfRows` of both requests. */
  const RowsPerPage := 100
  /** The expiry `setex` gives a cached hpid list and a cached bed record, in seconds. */
  const ShortTtl := 300

  /** The condition tag is present and its stripped text is `Y`. */
  predicate FlagSet(item: Item, cond: string) {
    var c := Find(item, cond);
    c.Some? && c.value.text.Some? && Strip(c.value.text.value) == "Y"
  }

  /** The condition tag is present but has no text, so `strip` raises. */
  predicate FlagRaises(item: Item, cond: string) {
    var c := Find(item, cond);
    c.Some? && c.value.text.None?
  }

  /**
   * `any(item.find(c) is not None and item.find(c).text.strip() == "Y" for c in conditions)`:
   * the conditions in order, stopping at the first one set; a tag without text raises.
   */
  function AnyFlag(item: Item, conditions: seq<string>): Result<bool>
    decreases |conditions|
  {
    if conditions == [] then Success(false)
    else if FlagRaises(item, conditions[0]) then Failure(AttributeErrorStrip)
    else if FlagSet(item, conditions[0]) then Success(true)
    else AnyFlag(item, conditions[1..])
  }

  /**
   * When the scan completes, it answers whether some condition is set; it raises only on
   * a condition tag without text, and it completes when no condition tag lacks text.
   */
  lemma {:induction false} AnyFlagMeans(item: Item, conditions: seq<string>)
    ensures AnyFlag(item, conditions).Success? ==>
      (AnyFlag(item, conditions).value <==> exists i :: 0 <= i < |conditions| && FlagSet(item, conditions[i]))
    ensures AnyFlag(item, conditions).Failure? ==> exists i :: 0 <= i < |conditions| && FlagRaises(item, conditions[i])
    ensures (forall i :: 0 <= i < |conditions| ==> !FlagRaises(item, conditions[i])) ==> AnyFlag(item, conditions).Success?
    decreases |conditions|
  {
    if conditions != [] {
      var c, rest := conditions[0], conditions[1..];
      assert forall i :: 0 <= i < |rest| ==> rest[i] == conditions[i + 1];
      if FlagRaises(item, c) {
        assert AnyFlag(item, conditions) == Failure(AttributeErrorStrip);
      } else if FlagSet(item, c) {
        assert AnyFlag(item, conditions) == Success(true);
      } else {
        assert AnyFlag(item, conditions) == AnyFlag(item, rest);
        AnyFlagMeans(item, rest);
        assert (exists i :: 0 <= i < |conditions| && FlagSet(item, conditions[i])) ==>
               (exists i :: 0 <= i < |rest| && FlagSet(item, rest[i]));
        assert (exists i :: 0 <= i < |rest| && FlagRaises(item, rest[i])) ==>
               (exists i :: 0 <= i < |conditions| && FlagRaises(item, conditions[i]));
      }
    }
  }

  /** `not conditions or any(...)`: whether an item's hpid is kept. */
  function Keeps(item: Item, conditions: seq<string>): Result<bool> {
    if conditions == [] then Success(true) else AnyFlag(item, conditions)
  }

  /** The hpids of one page's kept items, in document order; an item whose check raises, or a kept item with no `hpid` tag, raises. */
  function KeptHpids(items: seq<Item>, conditions: seq<string>): Result<seq<Option<string>>>
    decreases |items|
  {
    if items == [] then Success([])
    else
      match KeptHpids(items[..|items| - 1], conditions)
      case Failure(e) => Failure(e)
      case Success(earlier) =>
        var item := items[|items| - 1];
        match Keeps(item, conditions)
        case Failure(e) => Failure(e)
        case Success(keep) =>
          if !keep then Success(earlier)
          else
            match Find(item, "hpid")
            case None => Failure(AttributeErrorText)
            case Some(h) => Success(earlier + [h.text])
  }

  /** The item is kept and names hpid `h`. */
  predicate KeptWith(item: Item, conditions: seq<string>, h: Option<string>) {
    Keeps(item, conditions) == Success(true) && Find(item, "hpid").Some? && Find(item, "hpid").value.text == h
  }

  /**
   * A page succeeds with exactly the hpids of its kept items, in order: reading fewer
   * items gives a prefix, and an hpid is listed iff some kept item names it.
   */
  lemma {:induction false} KeptHpidsContents(items: seq<Item>, conditions: seq<string>)
    requires KeptHpids(items, conditions).Success?
    ensures forall h :: h in KeptHpids(items, conditions).value <==>
      exists i :: 0 <= i < |items| && KeptWith(items[i], conditions, h)
    decreases |items|
  {
    if items != [] {
      var front := items[..|items| - 1];
      KeptHpidsContents(front, conditions);
      assert forall i :: 0 <= i < |front| ==> front[i] == items[i];
      forall h ensures h in KeptHpids(items, conditions).value <==>
        exists i :: 0 <= i < |items| && KeptWith(items[i], conditions, h)
      {
        if exists i :: 0 <= i < |items| && KeptWith(items[i], conditions, h) {
          var i :| 0 <= i < |items| && KeptWith(items[i], conditions, h);
          if i < |front| {
            assert KeptWith(front[i], conditions, h);
          }
        }
      }
    }
  }

  /** Once an item raises, the page raises the same way whatever follows. */
  lemma {:induction false} KeptFailureSticks(items: seq<Item>, conditions: seq<string>, k: nat)
    requires k <= |items| && KeptHpids(items[..k], conditions).Failure?
    ensures KeptHpids(items, conditions) == KeptHpids(items[..k], conditions)
    decreases |items| - k
  {
    if k < |items| {
      var front := items[..|items| - 1];
      assert front[..k] == items[..k];
      KeptFailureSticks(front, conditions, k);
    } else {
      assert items[..k] == items;
    }
  }

  /** Without conditions every item is kept: the page holds each item's hpid, one per item, in order. */
  lemma {:induction false} KeptHpidsUnconditional(items: seq<Item>)
    ensures KeptHpids(items, []).Success? <==> forall i :: 0 <= i < |items| ==> Find(items[i], "hpid").Some?
    ensures KeptHpids(items, []).Success? ==>
      && |KeptHpids(items, []).value| == |items|
      && forall i :: 0 <= i < |items| ==> KeptHpids(items, []).value[i] == Find(items[i], "hpid").value.text
    decreases |items|
  {
    if items != [] {
      var front := items[..|items| - 1];
      KeptHpidsUnconditional(front);
      assert forall i :: 0 <= i < |front| ==> front[i] == items[i];
    }
  }

  /** The request for page `p` of the condition search: the parsed reply, `None` when the request failed or came back empty. */
  type Call = int -> Option<Reply>

  /** Pages 1 to `n`, in order: a failed request adds nothing, an unparsable page or a raising item raises. */
  function ConditionPages(call: Call, conditions: seq<string>, n: int): Result<seq<Option<string>>>
    decreases n
  {
    if n <= 0 then Success([])
    else
      match ConditionPages(call, conditions, n - 1)
      case Failure(e) => Failure(e)
      case Success(earlier) =>
        match call(n)
        case None => Success(earlier)
        case Some(reply) =>
          if reply.Unparsable? then Failure(ParseError)
          else
            match KeptHpids(reply.items, conditions)
            case Failure(e) => Failure(e)
            case Success(found) => Success(earlier + found)
  }

  /** Once a page raises, reading more pages raises the same way. */
  lemma {:induction false} ConditionFailureSticks(call: Call, conditions: seq<string>, n: int, m: int)
    requires n <= m && ConditionPages(call, conditions, n).Failure?
    ensures ConditionPages(call, conditions, m) == ConditionPages(call, conditions, n)
    decreases m - n
  {
    if n < m {
      ConditionFailureSticks(call, conditions, n, m - 1);
    }
  }

  /** Page `p` came back parsed and one of its kept items names `h`. */
  predicate PageLists(reply: Option<Reply>, conditions: seq<string>, h: Option<string>) {
    reply.Some? && reply.value.Parsed? &&
    exists i :: 0 <= i < |reply.value.items| && KeptWith(reply.value.items[i], conditions, h)
  }

  /** Pages are concatenated in order: reading fewer pages gives a prefix, and an hpid is listed iff some page lists it. */
  lemma {:induction false} ConditionPagesContents(call: Call, conditions: seq<string>, n: int)
    requires ConditionPages(call, conditions, n).Success?
    ensures forall k :: k <= n ==> ConditionPages(call, conditions, k).Success? &&
                                   ConditionPages(call, conditions, k).value <= ConditionPages(call, conditions, n).value
    ensures forall h :: h in ConditionPages(call, conditions, n).value <==>
      exists p :: 1 <= p <= n && PageLists(call(p), conditions, h)
    decreases n
  {
    if n > 0 {
      ConditionPagesContents(call, conditions, n - 1);
      var earlier := ConditionPages(call, conditions, n - 1).value;
      var reply := call(n);
      if reply.Some? {
        KeptHpidsContents(reply.value.items, conditions);
      }
      forall h ensures h in ConditionPages(call, conditions, n).value <==>
        exists p :: 1 <= p <= n && PageLists(call(p), conditions, h)
      {
        if h in ConditionPages(call, conditions, n).value && !PageLists(call(n), conditions, h) {
          assert h in earlier;
        }
      }
    }
  }

  /** `math.ceil(total / n)` for a positive `n`. */
  function CeilDiv(total: int, n: int): (q: int)
    requires n > 0
    ensures (q - 1) * n < total <= q * n
  {
    if total % n == 0 then total / n else total / n + 1
  }

  /** The ceiling here and the rounding-up division of the trauma-centre list agree. */
  lemma CeilDivIsPageCount(total: int)
    ensures CeilDiv(total, RowsPerPage) == FilteringForAddr.PageCount(total)
  {
    FilteringForAddr.PageCountIsCeiling(total);
  }

  /**
   * The condition search without the cache: `[]` when the first request fails; a raise
   * when it is unparsable or has no integer `totalCount`; otherwise pages 1 to
   * `ceil(totalCount / 100)`.
   */
  function HospitalsByCondition(call: Call, conditions: seq<string>): Result<seq<Option<string>>> {
    match call(1)
    case None => Success([])
    case Some(first) =>
      if first.Unparsable? then Failure(ParseError)
      else if first.totalCount.None? then Failure("ValueError: totalCount")
      else ConditionPages(call, conditions, CeilDiv(first.totalCount.value, RowsPerPage))
  }

  /** How an f-string renders a stage: its text, or `None`. */
  function StageText(stage: Option<string>): string {
    if stage.Some? then stage.value else "None"
  }

  /** `hospitals:<stage1>:<stage2>:<conditions joined by ','>`, with `all` for no conditions. */
  function HospitalsKey(stage1: Option<string>, stage2: Option<string>, conditions: seq<string>): string {
    "hospitals:" + StageText(stage1) + ":" + StageText(stage2) + ":" + (if conditions == [] then "all" else Join(conditions, ","))
  }

  /** The outcome of a cached read, and the cache it leaves. */
  datatype HospitalsRun = HospitalsRun(result: Result<seq<Option<string>>>, cache: map<string, Entry<seq<Option<string>>>>)

  /**
   * `get_hospitals_by_condition`: the cached list on a hit; otherwise the search, whose
   * list is cached for 300 seconds when it completes. The `[]` of a failed first request
   * returns before the cache write, and a raise writes nothing.
   */
  function HospitalsRead(cache: map<string, Entry<seq<Option<string>>>>, key: string, now: int,
                         call: Call, conditions: seq<string>): HospitalsRun
  {
    match Lookup(cache, key, now)
    case Some(cached) => HospitalsRun(Success(cached), cache)
    case None =>
      if call(1).None? then HospitalsRun(Success([]), cache)
      else
        match HospitalsByCondition(call, conditions)
        case Failure(e) => HospitalsRun(Failure(e), cache)
        case Success(hpids) => HospitalsRun(Success(hpids), cache[key := Entry(hpids, now + ShortTtl)])
  }

  /**
   * The cache-aside read: a hit answers from the cache whatever the service would say;
   * a completed search is cached under its key until `now + 300` and nothing else
   * changes; a failed first request or a raise leaves the cache as it was.
   */
  lemma HospitalsReadOutcomes(cache: map<string, Entry<seq<Option<string>>>>, key: string, now: int,
                              call: Call, other: Call, conditions: seq<string>)
    ensures var r := HospitalsRead(cache, key, now, call, conditions);
      && (Lookup(cache, key, now).Some? ==>
            r == HospitalsRun(Success(cache[key].value), cache) && r == HospitalsRead(cache, key, now, other, conditions))
      && (Lookup(cache, key, now).None? ==> r.result == HospitalsByCondition(call, conditions))
      && (Lookup(cache, key, now).None? && call(1).Some? && r.result.Success? ==>
            r.cache == cache[key := Entry(r.result.value, now + ShortTtl)])
      && (r.result.Failure? || call(1).None? ==> r.cache == cache)
      && (forall k :: k != key ==> (k in r.cache <==> k in cache) && (k in cache ==> r.cache[k] == cache[k]))
  {
  }

  /** Asking again within 300 seconds gets the same list from the cache, whatever the service says then. */
  lemma HospitalsReadSettles(cache: map<string, Entry<seq<Option<string>>>>, key: string, now: int, later: int,
                             call: Call, other: Call, conditions: seq<string>)
    requires now <= later < now + ShortTtl
    requires Lookup(cache, key, now).None? && call(1).Some?
    requires HospitalsRead(cache, key, now, call, conditions).result.Success?
    ensures var first := HospitalsRead(cache, key, now, call, conditions);
      HospitalsRead(first.cache, key, later, other, conditions) == first
  {
  }

  /** Once the 300 seconds are over the cached list is no longer read. */
  lemma HospitalsEntryExpires(cache: map<string, Entry<seq<Option<string>>>>, key: string, now: int, later: int,
                              call: Call, conditions: seq<string>)
    requires later >= now + ShortTtl
    requires Lookup(cache, key, now).None?
    ensures Lookup(HospitalsRead(cache, key, now, call, conditions).cache, key, later).None?
  {
  }

  /** Without conditions every item of every page that came back is listed. */
  lemma UnconditionalListsEveryItem(call: Call, n: int)
    requires ConditionPages(call, [], n).Success?
    ensures forall p, i :: 1 <= p <= n && call(p).Some? && call(p).value.Parsed? && 0 <= i < |call(p).value.items| ==>
      Find(call(p).value.items[i], "hpid").Some? &&
      Find(call(p).value.items[i], "hpid").value.text in ConditionPages(call, [], n).value
  {
    ConditionPagesContents(call, [], n);
    forall p, i | 1 <= p <= n && call(p).Some? && call(p).value.Parsed? && 0 <= i < |call(p).value.items|
      ensures Find(call(p).value.items[i], "hpid").Some?
      ensures Find(call(p).value.items[i], "hpid").value.text in ConditionPages(call, [], n).value
    {
      ConditionPagesSucceedOnPage(call, [], n, p);
      KeptHpidsUnconditional(call(p).value.items);
      assert PageLists(call(p), [], Find(call(p).value.items[i], "hpid").value.text);
    }
  }

  /** A search that completes read every page that came back without a raise. */
  lemma {:induction false} ConditionPagesSucceedOnPage(call: Call, conditions: seq<string>, n: int, p: int)
    requires ConditionPages(call, conditions, n).Success? && 1 <= p <= n
    requires call(p).Some?
    ensures call(p).value.Parsed? && KeptHpids(call(p).value.items, conditions).Success?
    decreases n
  {
    if p < n {
      ConditionPagesSucceedOnPage(call, conditions, n - 1, p);
    }
  }

  // ---------------------------------------------------------------- real-time bed records

  /** `{child.tag: child.text for child in item}`: one entry per tag, a repeated tag keeping its last text. */
  type Record = map<string, Option<string>>

  function RecordOf(item: Item): Record
    decreases |item|
  {
    if item == [] then map[] else RecordOf(item[..|item| - 1])[item[|item| - 1].tag := item[|item| - 1].text]
  }

  /** The record has an entry for exactly the tags of the item's children. */
  lemma {:induction false} RecordOfKeys(item: Item)
    ensures forall t :: t in RecordOf(item) <==> exists i :: 0 <= i < |item| && item[i].tag == t
    decreases |item|
  {
    if item != [] {
      var front := item[..|item| - 1];
      RecordOfKeys(front);
      assert forall i :: 0 <= i < |front| ==> front[i] == item[i];
    }
  }

  /** A tag's entry holds the text of the last child with that tag. */
  lemma {:induction false} RecordOfLast(item: Item, i: nat)
    requires i < |item| && forall j :: i < j < |item| ==> item[j].tag != item[i].tag
    ensures item[i].tag in RecordOf(item) && RecordOf(item)[item[i].tag] == item[i].text
    decreases |item|
  {
    if i < |item| - 1 {
      var front := item[..|item| - 1];
      assert front[i] == item[i];
      RecordOfLast(front, i);
    }
  }

  /** `real_time_bed_info:<hpid>` */
  function BedKey(hpid: Option<string>): string {
    "real_time_bed_info:" + StageText(hpid)
  }

  /** No hospital-list key is a bed-record key, so the two families share Redis without clashing. */
  lemma KeysDisjoint(stage1: Option<string>, stage2: Option<string>, conditions: seq<string>, hpid: Option<string>)
    ensures HospitalsKey(stage1, stage2, conditions) != BedKey(hpid)
  {
    assert HospitalsKey(stage1, stage2, conditions)[0] == "hospitals:"[0];
    assert BedKey(hpid)[0] == "real_time_bed_info:"[0];
  }

  /** The records gathered so far, the bed cache, and the exception that stopped the loop, if any. */
  datatype BedRun = BedRun(records: seq<Record>, cache: map<string, Entry<Record>>, error: Option<string>)

  /** The item's first `hpid` tag has text `hpid`. */
  predicate Matches(item: Item, hpid: Option<string>) {
    Find(item, "hpid").Some? && Find(item, "hpid").value.text == hpid
  }

  /**
   * The loop over the items of a reply for `hpid`: each item whose first `hpid` tag has
   * that text is recorded and cached under `key` for 300 seconds; an item with no `hpid`
   * tag raises, keeping what was written before it.
   */
  function ScanItems(run: BedRun, items: seq<Item>, hpid: Option<string>, key: string, now: int): BedRun
    decreases |items|
  {
    if items == [] then run
    else
      var r := ScanItems(run, items[..|items| - 1], hpid, key, now);
      var item := items[|items| - 1];
      if r.error.Some? then r
      else if Find(item, "hpid").None? then r.(error := Some(AttributeErrorText))
      else if Matches(item, hpid) then
        BedRun(r.records + [RecordOf(item)], r.cache[key := Entry(RecordOf(item), now + ShortTtl)], None)
      else r
  }

  /** Every item has an `hpid` tag. */
  predicate AllTagged(items: seq<Item>) {
    forall i :: 0 <= i < |items| ==> Find(items[i], "hpid").Some?
  }

  /** `Matches` for one hpid, as a test on items. */
  function MatchesHpid(hpid: Option<string>): (p: Item -> bool)
    ensures forall item :: p(item) == Matches(item, hpid)
  {
    item => Matches(item, hpid)
  }

  /** The records of the matching items, in document order. */
  function MatchingRecords(items: seq<Item>, hpid: Option<string>): seq<Record> {
    Ranking.Map(Ranking.Filter(items, MatchesHpid(hpid)), RecordOf)
  }

  /** One more item adds its record exactly when it matches. */
  lemma MatchingSnoc(front: seq<Item>, item: Item, hpid: Option<string>)
    ensures MatchingRecords(front + [item], hpid) ==
      MatchingRecords(front, hpid) + (if Matches(item, hpid) then [RecordOf(item)] else [])
  {
    var p := MatchesHpid(hpid);
    Ranking.FilterSnoc(front, item, p);
    if p(item) {
      Ranking.MapSnoc(Ranking.Filter(front, p), item, RecordOf);
    } else {
      assert Ranking.Filter(front, p) + [] == Ranking.Filter(front, p);
    }
  }

  /** The bed cache after the records `ms` were written under `key`, in order: the last one stays. */
  function CacheAfter(cache: map<string, Entry<Record>>, ms: seq<Record>, key: string, now: int): map<string, Entry<Record>> {
    if ms == [] then cache else cache[key := Entry(ms[|ms| - 1], now + ShortTtl)]
  }

  /**
   * Scanning a reply raises iff some item has no `hpid` tag; otherwise it appends the
   * records of exactly the matching items in order, and the key then holds the last of
   * them until `now + 300` (or is untouched when none matches).
   */
  lemma {:induction false} ScanItemsMeans(run: BedRun, items: seq<Item>, hpid: Option<string>, key: string, now: int)
    requires run.error.None?
    ensures ScanItems(run, items, hpid, key, now).error.None? <==> AllTagged(items)
    ensures AllTagged(items) ==>
      && ScanItems(run, items, hpid, key, now).records == run.records + MatchingRecords(items, hpid)
      && ScanItems(run, items, hpid, key, now).cache == CacheAfter(run.cache, MatchingRecords(items, hpid), key, now)
    decreases |items|
  {
    if items != [] {
      var front := items[..|items| - 1];
      var item := items[|items| - 1];
      ScanItemsMeans(run, front, hpid, key, now);
      assert items == front + [item];
      assert forall i :: 0 <= i < |front| ==> front[i] == items[i];
      if AllTagged(items) {
        assert AllTagged(front);
        MatchingSnoc(front, item, hpid);
        ScanStep(run, ScanItems(run, front, hpid, key, now), Matches(item, hpid), RecordOf(item), key, now,
                 MatchingRecords(front, hpid), MatchingRecords(items, hpid));
      }
    }
  }

  /** One item, matching (`m`) with record `rec` or not, moves the scan from the records before it to those including it. */
  lemma ScanStep(run: BedRun, r: BedRun, m: bool, rec: Record, key: string, now: int,
                 before: seq<Record>, after: seq<Record>)
    requires r.records == run.records + before && r.cache == CacheAfter(run.cache, before, key, now)
    requires after == before + (if m then [rec] else [])
    ensures var next := if m then BedRun(r.records + [rec], r.cache[key := Entry(rec, now + ShortTtl)], None) else r;
      next.records == run.records + after && next.cache == CacheAfter(run.cache, after, key, now)
  {
    if m {
      assert after[|after| - 1] == rec;
      assert run.records + before + [rec] == run.records + after;
    } else {
      assert after == before + [];
    }
  }

  /** The reply to the request made for the `i`-th hpid: `None` when the request failed or came back empty. */
  type BedCall = nat -> Option<Reply>

  /** One turn of the loop over the hpids: the cached record on a hit; otherwise the matching records of a fresh reply. */
  function BedStep(run: BedRun, hpid: Option<string>, reply: Option<Reply>, now: int): BedRun
    requires run.error.None?
  {
    var key := BedKey(hpid);
    match Lookup(run.cache, key, now)
    case Some(rec) => run.(records := run.records + [rec])
    case None =>
      match reply
      case None => run
      case Some(Unparsable) => run.(error := Some(ParseError))
      case Some(Parsed(_, items)) => ScanItems(run, items, hpid, key, now)
  }

  /** The first `n` turns of `get_real_time_bed_info`, stopping at the first exception. */
  function BedsUpTo(cache: map<string, Entry<Record>>, hpids: seq<Option<string>>, n: nat, now: int,
                    call: BedCall): BedRun
    requires n <= |hpids|
  {
    if n == 0 then BedRun([], cache, None)
    else
      var r := BedsUpTo(cache, hpids, n - 1, now, call);
      if r.error.Some? then r else BedStep(r, hpids[n - 1], call(n - 1), now)
  }

  /** Turns only append: the records of fewer turns are a prefix of the records of more. */
  lemma {:induction false} BedsPrefix(cache: map<string, Entry<Record>>, hpids: seq<Option<string>>, k: nat, n: nat,
                                      now: int, call: BedCall)
    requires k <= n <= |hpids|
    ensures BedsUpTo(cache, hpids, k, now, call).records <= BedsUpTo(cache, hpids, n, now, call).records
    decreases n - k
  {
    if k < n {
      BedsPrefix(cache, hpids, k, n - 1, now, call);
      var r := BedsUpTo(cache, hpids, n - 1, now, call);
      if r.error.None? {
        BedStepPrefix(r, hpids[n - 1], call(n - 1), now);
      }
    }
  }

  /** A turn only appends records. */
  lemma BedStepPrefix(r: BedRun, hpid: Option<string>, reply: Option<Reply>, now: int)
    requires r.error.None?
    ensures r.records <= BedStep(r, hpid, reply, now).records
  {
    var key := BedKey(hpid);
    if Lookup(r.cache, key, now).None? && reply.Some? && reply.value.Parsed? {
      ScanPrefix(r, reply.value.items, hpid, key, now);
    }
  }

  /** A turn keeps every readable entry readable. */
  lemma BedStepKeeps(r: BedRun, hpid: Option<string>, reply: Option<Reply>, now: int, key: string)
    requires r.error.None? && Lookup(r.cache, key, now).Some?
    ensures Lookup(BedStep(r, hpid, reply, now).cache, key, now).Some?
  {
    var bk := BedKey(hpid);
    if Lookup(r.cache, bk, now).None? && reply.Some? && reply.value.Parsed? {
      ScanKeeps(r, reply.value.items, hpid, bk, now, key);
    }
  }

  /** Scanning a reply only appends records. */
  lemma {:induction false} ScanPrefix(run: BedRun, items: seq<Item>, hpid: Option<string>, key: string, now: int)
    ensures run.records <= ScanItems(run, items, hpid, key, now).records
    decreases |items|
  {
    if items != [] {
      ScanPrefix(run, items[..|items| - 1], hpid, key, now);
    }
  }

  /**
   * A turn for an hpid whose record is cached appends that record, asks the service
   * nothing and leaves the cache alone; a turn whose request fails adds nothing.
   */
  lemma BedTurnOutcomes(cache: map<string, Entry<Record>>, hpids: seq<Option<string>>, n: nat, now: int,
                        call: BedCall, other: BedCall)
    requires n < |hpids|
    requires forall i :: 0 <= i < n ==> call(i) == other(i)
    ensures var r := BedsUpTo(cache, hpids, n, now, call);
      var key := BedKey(hpids[n]);
      && (r.error.None? && Lookup(r.cache, key, now).Some? ==>
            BedsUpTo(cache, hpids, n + 1, now, call) == r.(records := r.records + [r.cache[key].value])
            && BedsUpTo(cache, hpids, n + 1, now, other) == BedsUpTo(cache, hpids, n + 1, now, call))
      && (Lookup(r.cache, key, now).None? && call(n).None? ==> BedsUpTo(cache, hpids, n + 1, now, call) == r)
  {
    SameCallsSameRun(cache, hpids, n, now, call, other);
  }

  /** Turns that get the same replies end the same way. */
  lemma {:induction false} SameCallsSameRun(cache: map<string, Entry<Record>>, hpids: seq<Option<string>>, n: nat,
                                            now: int, call: BedCall, other: BedCall)
    requires n <= |hpids|
    requires forall i :: 0 <= i < n ==> call(i) == other(i)
    ensures BedsUpTo(cache, hpids, n, now, call) == BedsUpTo(cache, hpids, n, now, other)
    decreases n
  {
    if n > 0 {
      SameCallsSameRun(cache, hpids, n - 1, now, call, other);
    }
  }

  /** An entry readable at `now` stays readable through the rest of the loop: keys are only ever rewritten with a later expiry. */
  lemma {:induction false} BedCacheKeeps(cache: map<string, Entry<Record>>, hpids: seq<Option<string>>, k: nat, n: nat,
                                         now: int, call: BedCall, key: string)
    requires k <= n <= |hpids|
    requires Lookup(BedsUpTo(cache, hpids, k, now, call).cache, key, now).Some?
    ensures Lookup(BedsUpTo(cache, hpids, n, now, call).cache, key, now).Some?
    decreases n - k
  {
    if k < n {
      BedCacheKeeps(cache, hpids, k, n - 1, now, call, key);
      var r := BedsUpTo(cache, hpids, n - 1, now, call);
      if r.error.None? {
        BedStepKeeps(r, hpids[n - 1], call(n - 1), now, key);
      }
    }
  }

  /** Scanning a reply keeps every readable entry readable. */
  lemma {:induction false} ScanKeeps(run: BedRun, items: seq<Item>, hpid: Option<string>, bk: string, now: int, key: string)
    requires Lookup(run.cache, key, now).Some?
    ensures Lookup(ScanItems(run, items, hpid, bk, now).cache, key, now).Some?
    decreases |items|
  {
    if items != [] {
      ScanKeeps(run, items[..|items| - 1], hpid, bk, now, key);
    }
  }

  /**
   * An hpid that comes back later in the list, after a turn cached its record, is
   * answered from the cache: its turn sends no request.
   */
  lemma RepeatServedFromCache(cache: map<string, Entry<Record>>, hpids: seq<Option<string>>, k: nat, m: nat,
                              now: int, call: BedCall, other: BedCall)
    requires k < m < |hpids| && hpids[k] == hpids[m]
    requires Lookup(BedsUpTo(cache, hpids, k + 1, now, call).cache, BedKey(hpids[k]), now).Some?
    requires forall i :: 0 <= i < m ==> call(i) == other(i)
    ensures BedsUpTo(cache, hpids, m + 1, now, other) == BedsUpTo(cache, hpids, m + 1, now, call)
  {
    BedCacheKeeps(cache, hpids, k + 1, m, now, call, BedKey(hpids[k]));
    SameCallsSameRun(cache, hpids, m, now, call, other);
    var r := BedsUpTo(cache, hpids, m, now, call);
    if r.error.None? {
      BedTurnOutcomes(cache, hpids, m, now, call, other);
    }
  }

  /** The Redis contents the emergency-room helpers see: the hpid lists and the bed records. */
  class ErCache {
    var hospitals: map<string, Entry<seq<Option<string>>>>
    var beds: map<string, Entry<Record>>

    constructor (hospitals: map<string, Entry<seq<Option<string>>>>, beds: map<string, Entry<Record>>)
      ensures this.hospitals == hospitals && this.beds == beds
    {
      this.hospitals := hospitals;
      this.beds := beds;
    }

    /** `get_hospitals_by_condition(stage1, stage2, conditions)`; `None` conditions are the empty list. */
    method GetHospitalsByCondition(stage1: Option<string>, stage2: Option<string>, conditions: seq<string>,
                                   now: int, call: Call) returns (r: Result<seq<Option<string>>>)
      modifies this
      ensures var run := HospitalsRead(old(hospitals), HospitalsKey(stage1, stage2, conditions), now, call, conditions);
        r == run.result && hospitals == run.cache && beds == old(beds)
    {
      var key := HospitalsKey(stage1, stage2, conditions);
      if key in hospitals && now < hospitals[key].expiresAt {
        return Success(hospitals[key].value);
      }
      var data := call(1);
      if data.None? {
        return Success([]);
      }
      if data.value.Unparsable? {
        return Failure(ParseError);
      }
      if data.value.totalCount.None? {
        return Failure("ValueError: totalCount");
      }
      var totalPages := CeilDiv(data.value.totalCount.value, RowsPerPage);
      r := CollectPages(call, conditions, totalPages);
      if r.Success? {
        hospitals := hospitals[key := Entry(r.value, now + ShortTtl)];
      }
    }

    /** The loop over pages 1 to `totalPages`. */
    static method CollectPages(call: Call, conditions: seq<string>, totalPages: int) returns (r: Result<seq<Option<string>>>)
      ensures r == ConditionPages(call, conditions, totalPages)
    {
      var hpidList := [];
      var page := 1;
      while page <= totalPages
        invariant 1 <= page <= (if totalPages >= 0 then totalPages + 1 else 1)
        invariant ConditionPages(call, conditions, page - 1) == Success(hpidList)
      {
        var pageData := call(page);
        if pageData.Some? {
          if pageData.value.Unparsable? {
            ConditionFailureSticks(call, conditions, page, totalPages);
            return Failure(ParseError);
          }
          var found := PageHpids(pageData.value.items, conditions);
          if found.Failure? {
            ConditionFailureSticks(call, conditions, page, totalPages);
            return found;
          }
          hpidList := hpidList + found.value;
        }
        page := page + 1;
      }
      return Success(hpidList);
    }

    /** The loop over one page's items. */
    static method PageHpids(items: seq<Item>, conditions: seq<string>) returns (r: Result<seq<Option<string>>>)
      ensures r == KeptHpids(items, conditions)
    {
      var hpids := [];
      var i := 0;
      while i < |items|
        invariant 0 <= i <= |items|
        invariant KeptHpids(items[..i], conditions) == Success(hpids)
      {
        var item := items[i];
        assert items[..i + 1][..i] == items[..i] && items[..i + 1][i] == item;
        var keep := Keeps(item, conditions);
        if keep.Failure? {
          KeptFailureSticks(items, conditions, i + 1);
          return Failure(keep.error);
        }
        if keep.value {
          var h := Find(item, "hpid");
          if h.None? {
            KeptFailureSticks(items, conditions, i + 1);
            return Failure(AttributeErrorText);
          }
          hpids := hpids + [h.value.text];
        }
        i := i + 1;
      }
      assert items[..i] == items;
      return Success(hpids);
    }

    /** `get_real_time_bed_info(stage1, stage2, hpid_list)`; the reply to the `i`-th hpid's request is `call(i)`. */
    method GetRealTimeBedInfo(hpids: seq<Option<string>>, now: int, call: BedCall) returns (r: Result<seq<Record>>)
      modifies this
      ensures var run := BedsUpTo(old(beds), hpids, |hpids|, now, call);
        && beds == run.cache && hospitals == old(hospitals)
        && r == (if run.error.Some? then Failure(run.error.value) else Success(run.records))
    {
      var result := [];
      var i := 0;
      while i < |hpids|
        invariant 0 <= i <= |hpids| && hospitals == old(hospitals)
        invariant BedsUpTo(old(beds), hpids, i, now, call) == BedRun(result, beds, None)
      {
        var error;
        result, error := Turn(result, hpids[i], call, i, now);
        if error.Some? {
          BedErrorSticks(old(beds), hpids, i + 1, |hpids|, now, call);
          return Failure(error.value);
        }
        i := i + 1;
      }
      return Success(result);
    }

    /** One turn of the loop: the cached record, or the request `call(i)` and its matching records. */
    method Turn(result: seq<Record>, hpid: Option<string>, call: BedCall, i: nat, now: int)
      returns (records: seq<Record>, error: Option<string>)
      modifies this
      ensures BedStep(BedRun(result, old(beds), None), hpid, call(i), now) == BedRun(records, beds, error)
      ensures hospitals == old(hospitals)
    {
      var key := BedKey(hpid);
      if key in beds && now < beds[key].expiresAt {
        return result + [beds[key].value], None;
      }
      var data := call(i);
      if data.None? {
        return result, None;
      }
      if data.value.Unparsable? {
        return result, Some(ParseError);
      }
      var run := ScanReply(BedRun(result, beds, None), data.value.items, hpid, key, now);
      beds := run.cache;
      return run.records, run.error;
    }

    /** The loop over one reply's items. */
    static method ScanReply(run: BedRun, items: seq<Item>, hpid: Option<string>, key: string, now: int) returns (out: BedRun)
      requires run.error.None?
      ensures out == ScanItems(run, items, hpid, key, now)
    {
      out := run;
      var j := 0;
      while j < |items|
        invariant 0 <= j <= |items|
        invariant out == ScanItems(run, items[..j], hpid, key, now)
      {
        assert items[..j + 1][..j] == items[..j] && items[..j + 1][j] == items[j];
        if out.error.Some? {
          ScanErrorSticks(run, items, hpid, key, now, j);
          return;
        }
        var h := Find(items[j], "hpid");
        if h.None? {
          out := out.(error := Some(AttributeErrorText));
          ScanErrorSticks(run, items, hpid, key, now, j + 1);
          return;
        }
        if h.value.text == hpid {
          var rec := RecordOf(items[j]);
          out := BedRun(out.records + [rec], out.cache[key := Entry(rec, now + ShortTtl)], None);
        }
        j := j + 1;
      }
      assert items[..j] == items;
    }
  }

  /** Once an item raises, the rest of the reply is not read. */
  lemma {:induction false} ScanErrorSticks(run: BedRun, items: seq<Item>, hpid: Option<string>, key: string, now: int, k: nat)
    requires k <= |items| && ScanItems(run, items[..k], hpid, key, now).error.Some?
    ensures ScanItems(run, items, hpid, key, now) == ScanItems(run, items[..k], hpid, key, now)
    decreases |items| - k
  {
    if k < |items| {
      var front := items[..|items| - 1];
      assert front[..k] == items[..k];
      ScanErrorSticks(run, front, hpid, key, now, k);
    } else {
      assert items[..k] == items;
    }
  }

  /** Once a turn raises, the loop is over. */
  lemma {:induction false} BedErrorSticks(cache: map<string, Entry<Record>>, hpids: seq<Option<string>>, k: nat, n: nat,
                                          now: int, call: BedCall)
    requires k <= n <= |hpids| && BedsUpTo(cache, hpids, k, now, call).error.Some?
    ensures BedsUpTo(cache, hpids, n, now, call) == BedsUpTo(cache, hpids, k, now, call)
    decreases n - k
  {
    if k < n {
      BedErrorSticks(cache, hpids, k, n - 1, now, call);
    }
  }
}
