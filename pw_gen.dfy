/**
 * The emergency-room password generator of text_119_utils/pw_gen.py: random letters and
 * digits, retried until the password is unused and holds no run of three consecutive
 * letters or digits (such as `abc`, `CBA` or `789`).
 *
 * The random draws are a parameter: the finite list of (length, character picks) the
 * generator would make, in order.
 */
module PasswordGen {
  import opened Wrappers
  import opened PyText

  /** `len(s)` consecutive characters from `lo` on. */
  function Run(lo: char, n: nat): (r: string)
    requires lo as int + n <= 0xD800
    ensures |r| == n && forall i :: 0 <= i < n ==> r[i] as int == lo as int + i
  {
    seq(n, i requires 0 <= i < n => (lo as int + i) as char)
  }

  /** `string.ascii_lowercase` */
  const AsciiLowercase: string := Run('a', 26)
  /** `string.ascii_uppercase` */
  const AsciiUppercase: string := Run('A', 26)
  /** `string.digits` */
  const Digits: string := Run('0', 10)
  /** `string.ascii_letters + string.digits` */
  const Characters: string := AsciiLowercase + AsciiUppercase + Digits

  /** The three runs spell out the alphabets Python's `string` module lists. */
  lemma RunsAreTheAlphabets()
    ensures AsciiLowercase == "abcdefghijklmnopqrstuvwxyz"
    ensures AsciiUppercase == "ABCDEFGHIJKLMNOPQRSTUVWXYZ"
    ensures Digits == "0123456789"
    ensures |Characters| == 62
  {
  }

  /** `s[::-1]` */
  function Reverse(s: string): (r: string)
    ensures |r| == |s| && forall i :: 0 <= i < |s| ==> r[i] == s[|s| - 1 - i]
  {
    seq(|s|, i requires 0 <= i < |s| => s[|s| - 1 - i])
  }

  /** `is_continuous` */
  predicate IsContinuous(w: string) {
    || IsSubstring(w, AsciiLowercase) || IsSubstring(w, AsciiUppercase) || IsSubstring(w, Digits)
    || IsSubstring(Reverse(w), AsciiLowercase) || IsSubstring(Reverse(w), AsciiUppercase) || IsSubstring(Reverse(w), Digits)
  }

  /** Three characters counting up by one, all within the run of `n` characters from `lo`. */
  predicate CountsUp(w: string, lo: char, n: nat)
    requires |w| == 3
  {
    && w[1] as int == w[0] as int + 1 && w[2] as int == w[0] as int + 2
    && lo <= w[0] && w[2] as int < lo as int + n
  }

  /** Three characters counting down by one, all within the run of `n` characters from `lo`. */
  predicate CountsDown(w: string, lo: char, n: nat)
    requires |w| == 3
  {
    && w[1] as int == w[0] as int - 1 && w[2] as int == w[0] as int - 2
    && lo <= w[2] && w[0] as int < lo as int + n
  }

  /** A three-character string lies in a run exactly when it counts up inside it. */
  lemma InRunIffCountsUp(w: string, lo: char, n: nat)
    requires |w| == 3 && lo as int + n <= 0xD800
    ensures IsSubstring(w, Run(lo, n)) <==> CountsUp(w, lo, n)
  {
    var run := Run(lo, n);
    if CountsUp(w, lo, n) {
      var k := w[0] as int - lo as int;
      assert run[k..k + 3] == w;
      assert OccursAt(w, run, k);
    }
    if IsSubstring(w, run) {
      var k :| 0 <= k <= |run| - 3 && OccursAt(w, run, k);
      assert w[0] == run[k] && w[1] == run[k + 1] && w[2] == run[k + 2];
    }
  }

  /** Reversed, a three-character string lies in a run exactly when it counts down inside it. */
  lemma ReverseInRunIffCountsDown(w: string, lo: char, n: nat)
    requires |w| == 3 && lo as int + n <= 0xD800
    ensures IsSubstring(Reverse(w), Run(lo, n)) <==> CountsDown(w, lo, n)
  {
    var r := Reverse(w);
    InRunIffCountsUp(r, lo, n);
    assert r[0] == w[2] && r[1] == w[1] && r[2] == w[0];
  }

  /**
   * A window of three is continuous exactly when it counts up or down by one within the
   * lowercase letters, the uppercase letters or the digits.
   */
  lemma ContinuousMeans(w: string)
    requires |w| == 3
    ensures IsContinuous(w) <==>
      || CountsUp(w, 'a', 26) || CountsUp(w, 'A', 26) || CountsUp(w, '0', 10)
      || CountsDown(w, 'a', 26) || CountsDown(w, 'A', 26) || CountsDown(w, '0', 10)
  {
    InRunIffCountsUp(w, 'a', 26);
    InRunIffCountsUp(w, 'A', 26);
    InRunIffCountsUp(w, '0', 10);
    ReverseInRunIffCountsDown(w, 'a', 26);
    ReverseInRunIffCountsDown(w, 'A', 26);
    ReverseInRunIffCountsDown(w, '0', 10);
  }

  /** The window of three characters at `i` is continuous. */
  predicate ContinuousAt(p: string, i: int)
    requires 0 <= i <= |p| - 3
  {
    IsContinuous(p[i..i + 3])
  }

  /** Some window of three characters is continuous. */
  predicate HasContinuousSequence(p: string) {
    exists i :: 0 <= i <= |p| - 3 && ContinuousAt(p, i)
  }

  /** `has_continuous_sequence`: the windows scanned left to right, stopping at the first continuous one. */
  method HasContinuousSequenceScan(password: string) returns (found: bool)
    ensures found == HasContinuousSequence(password)
    ensures |password| < 3 ==> !found
  {
    var i := 0;
    while i < |password| - 2
      invariant 0 <= i <= if |password| >= 2 then |password| - 2 else 0
      invariant forall j :: 0 <= j < i ==> !ContinuousAt(password, j)
    {
      var window := password[i..i + 3];
      if IsContinuous(window) {
        assert ContinuousAt(password, i);
        return true;
      }
      i := i + 1;
    }
    return false;
  }

  /** A rejected password stays rejected whatever is added before or after it. */
  lemma {:induction false} ContinuousSurvivesExtension(p: string, before: string, after: string)
    requires HasContinuousSequence(p)
    ensures HasContinuousSequence(before + p + after)
  {
    var i :| 0 <= i <= |p| - 3 && ContinuousAt(p, i);
    var q := before + p + after;
    assert q[|before| + i..|before| + i + 3] == p[i..i + 3];
    assert ContinuousAt(q, |before| + i);
  }

  /** One draw of the generator: `random.randint(6, 16)` and that many indices for `random.choices`. */
  datatype Draw = Draw(length: int, picks: seq<int>)

  /** What `randint` and `choices` can produce. */
  predicate ValidDraw(d: Draw) {
    && 6 <= d.length <= 16 && |d.picks| == d.length
    && forall j :: 0 <= j < |d.picks| ==> 0 <= d.picks[j] < |Characters|
  }

  /** `''.join(random.choices(characters, k=length))` */
  function Candidate(d: Draw): string
    requires ValidDraw(d)
  {
    seq(d.length, j requires 0 <= j < d.length => Characters[d.picks[j]])
  }

  predicate IsAsciiAlphanumeric(c: char) {
    'a' <= c <= 'z' || 'A' <= c <= 'Z' || '0' <= c <= '9'
  }

  /** Every candidate has 6 to 16 characters, each an ASCII letter or digit. */
  lemma CandidateShape(d: Draw)
    requires ValidDraw(d)
    ensures 6 <= |Candidate(d)| <= 16
    ensures forall j :: 0 <= j < |Candidate(d)| ==> IsAsciiAlphanumeric(Candidate(d)[j])
  {
    forall j | 0 <= j < |Candidate(d)| ensures IsAsciiAlphanumeric(Candidate(d)[j]) {
      var k := d.picks[j];
      assert Candidate(d)[j] == Characters[k];
      if k < 26 {
        assert Characters[k] == AsciiLowercase[k];
      } else if k < 52 {
        assert Characters[k] == AsciiUppercase[k - 26];
      } else {
        assert Characters[k] == Digits[k - 52];
      }
    }
  }

  /** The rule the loop accepts a candidate by. */
  predicate Acceptable(p: string, usedPasswords: seq<string>) {
    p !in usedPasswords && !HasContinuousSequence(p)
  }

  /**
   * `generate_password`: the first acceptable candidate among the draws. It is 6 to 16
   * ASCII letters and digits, unused and free of continuous runs; `None` means the draws
   * ran out before one was acceptable.
   */
  method GeneratePassword(usedPasswords: seq<string>, draws: seq<Draw>) returns (r: Option<string>)
    requires forall k :: 0 <= k < |draws| ==> ValidDraw(draws[k])
    ensures r.Some? ==> && 6 <= |r.value| <= 16
                        && (forall j :: 0 <= j < |r.value| ==> IsAsciiAlphanumeric(r.value[j]))
                        && Acceptable(r.value, usedPasswords)
    ensures r.Some? ==> exists k :: 0 <= k < |draws| && r.value == Candidate(draws[k])
                                    && forall j :: 0 <= j < k ==> !Acceptable(Candidate(draws[j]), usedPasswords)
    ensures r.None? <==> forall k :: 0 <= k < |draws| ==> !Acceptable(Candidate(draws[k]), usedPasswords)
  {
    for k := 0 to |draws|
      invariant forall j :: 0 <= j < k ==> !Acceptable(Candidate(draws[j]), usedPasswords)
    {
      var password := Candidate(draws[k]);
      var continuous := HasContinuousSequenceScan(password);
      if password !in usedPasswords && !continuous {
        CandidateShape(draws[k]);
        return Some(password);
      }
    }
    return None;
  }
}
