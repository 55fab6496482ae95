/**
 * The form-value clean-up of text_119_utils/cleaning.py: a value read off the emergency
 * report form is trimmed, lower-cased and unquoted, and the words that mean "no value"
 * become `None`.
 */
module Cleaning {
  import opened Wrappers
  import opened PyText

  predicate IsQuote(c: char) {
    c == '\'' || c == '"'
  }

  /** `s.strip("'\"")` */
  function StripQuotes(s: string): (r: string)
    ensures r != [] ==> !IsQuote(r[0]) && !IsQuote(r[|r| - 1])
    ensures forall c :: c in r ==> c in s
  {
    TrimmedInside(s, IsQuote);
    TrimRight(TrimLeft(s, IsQuote), IsQuote)
  }

  /** Trimming both ends keeps only characters of the original. */
  lemma TrimmedInside(s: string, drop: char -> bool)
    ensures forall c :: c in TrimRight(TrimLeft(s, drop), drop) ==> c in s
  {
    var l := TrimLeft(s, drop);
    var r := TrimRight(l, drop);
    forall c | c in r ensures c in s {
      var i :| 0 <= i < |r| && r[i] == c;
      assert r[i] == l[i] == s[|s| - |l| + i];
    }
  }

  /** The strings that stand for a missing value once cleaned. */
  predicate IsNullWord(s: string) {
    s == "" || s == "null" || s == "none"
  }

  /**
   * `clean_form_value` on a string or `None`. A cleaned value is never one of the null
   * words, holds no upper-case ASCII letter, and neither starts nor ends with a quote.
   */
  function CleanFormValue(val: Option<string>): (r: Option<string>)
    ensures val.None? ==> r.None?
    ensures r.Some? ==> !IsNullWord(r.value) && r.value != ""
    ensures r.Some? ==> forall i :: 0 <= i < |r.value| ==> !('A' <= r.value[i] <= 'Z')
    ensures r.Some? ==> !IsQuote(r.value[0]) && !IsQuote(r.value[|r.value| - 1])
  {
    if val.None? then None
    else
      var lowered := Lower(Strip(val.value));
      var unquoted := StripQuotes(lowered);
      if IsNullWord(unquoted) then None else Some(unquoted)
  }

  /** Dropping leading characters that `drop` removes anyway changes nothing. */
  lemma {:induction false} TrimLeftPast(a: string, b: string, drop: char -> bool)
    requires forall i :: 0 <= i < |a| ==> drop(a[i])
    ensures TrimLeft(a + b, drop) == TrimLeft(b, drop)
    decreases |a|
  {
    if a == [] {
      assert a + b == b;
    } else {
      assert (a + b)[0] == a[0] && (a + b)[1..] == a[1..] + b;
      assert TrimLeft(a + b, drop) == TrimLeft(a[1..] + b, drop);
      TrimLeftPast(a[1..], b, drop);
    }
  }

  /** Dropping trailing characters that `drop` removes anyway changes nothing. */
  lemma {:induction false} TrimRightPast(a: string, b: string, drop: char -> bool)
    requires forall i :: 0 <= i < |b| ==> drop(b[i])
    ensures TrimRight(a + b, drop) == TrimRight(a, drop)
    decreases |b|
  {
    if b == [] {
      assert a + b == a;
    } else {
      assert (a + b)[|a + b| - 1] == b[|b| - 1] && (a + b)[..|a + b| - 1] == a + b[..|b| - 1];
      assert TrimRight(a + b, drop) == TrimRight(a + b[..|b| - 1], drop);
      TrimRightPast(a, b[..|b| - 1], drop);
    }
  }

  lemma TrimBothKept(m: string, drop: char -> bool)
    requires m != [] && !drop(m[0]) && !drop(m[|m| - 1])
    ensures TrimRight(TrimLeft(m, drop), drop) == m
  {
  }

  /** A middle surrounded by removable characters, and not starting or ending with one, is what trimming leaves. */
  lemma TrimSurrounded(a: string, m: string, b: string, drop: char -> bool)
    requires forall i :: 0 <= i < |a| ==> drop(a[i])
    requires forall i :: 0 <= i < |b| ==> drop(b[i])
    requires m != [] && !drop(m[0]) && !drop(m[|m| - 1])
    ensures TrimRight(TrimLeft(a + m + b, drop), drop) == m
  {
    assert a + m + b == a + (m + b);
    TrimLeftPast(a, m + b, drop);
    assert TrimLeft(m + b, drop) == m + b;
    TrimRightPast(m, b, drop);
    TrimBothKept(m, drop);
  }

  /** Lower-casing distributes over concatenation. */
  lemma LowerAppend(a: string, b: string)
    ensures Lower(a + b) == Lower(a) + Lower(b)
  {
  }

  /**
   * A null word in any case, wrapped in one quote on each side and padded with whitespace,
   * such as `  'NULL' `, cleans to `None`.
   */
  lemma {:induction false} QuotedNullWordIsNone(pad: string, q1: char, word: string, q2: char, pad2: string)
    requires forall i :: 0 <= i < |pad| ==> IsSpace(pad[i])
    requires forall i :: 0 <= i < |pad2| ==> IsSpace(pad2[i])
    requires IsQuote(q1) && IsQuote(q2)
    requires Lower(word) == "null" || Lower(word) == "none"
    ensures CleanFormValue(Some(pad + ([q1] + word + [q2]) + pad2)) == None
  {
    var m := [q1] + word + [q2];
    var lw := Lower(word);
    PaddingStripped(pad, m, pad2);
    QuotedLowered(q1, word, q2);
    NullWordEnds(lw);
    QuotesStripped(q1, lw, q2);
    CleanedFrom(pad + m + pad2, lw);
  }

  lemma PaddingStripped(pad: string, m: string, pad2: string)
    requires forall i :: 0 <= i < |pad| ==> IsSpace(pad[i])
    requires forall i :: 0 <= i < |pad2| ==> IsSpace(pad2[i])
    requires m != [] && !IsSpace(m[0]) && !IsSpace(m[|m| - 1])
    ensures Strip(pad + m + pad2) == m
  {
    TrimSurrounded(pad, m, pad2, IsSpace);
  }

  lemma QuotedLowered(q1: char, word: string, q2: char)
    requires IsQuote(q1) && IsQuote(q2)
    ensures Lower([q1] + word + [q2]) == [q1] + Lower(word) + [q2]
  {
    LowerAppend([q1] + word, [q2]);
    LowerAppend([q1], word);
  }

  lemma NullWordEnds(lw: string)
    requires lw == "null" || lw == "none"
    ensures lw != [] && !IsQuote(lw[0]) && !IsQuote(lw[|lw| - 1]) && IsNullWord(lw)
  {
  }

  lemma QuotesStripped(q1: char, lw: string, q2: char)
    requires IsQuote(q1) && IsQuote(q2)
    requires lw != [] && !IsQuote(lw[0]) && !IsQuote(lw[|lw| - 1])
    ensures StripQuotes([q1] + lw + [q2]) == lw
  {
    TrimSurrounded([q1], lw, [q2], IsQuote);
  }

  lemma CleanedFrom(s: string, lw: string)
    requires StripQuotes(Lower(Strip(s))) == lw && IsNullWord(lw)
    ensures CleanFormValue(Some(s)) == None
  {
  }
}
