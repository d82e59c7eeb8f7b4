/**
 * The string primitives of JavaScript that the catalog code relies on:
 * `trim`, `split(/\s+/)`, `toLowerCase`, `includes`, `parseInt` and
 * `split("/").pop()`, stated over `seq<char>`.
 *
 * Case folding is ASCII only; white space is the set of code points that
 * JavaScript's `\s` class and `String.prototype.trim` both use.
 */
module Text {
  import opened Wrappers

  /** JavaScript WhiteSpace and LineTerminator code points. */
  predicate IsSpace(c: char) {
    var n := c as int;
    (9 <= n <= 13) || n == 32 || n == 0xA0 || n == 0x1680 || (0x2000 <= n <= 0x200A)
    || n == 0x2028 || n == 0x2029 || n == 0x202F || n == 0x205F || n == 0x3000 || n == 0xFEFF
  }

  predicate NoSpace(s: string) {
    forall k :: 0 <= k < |s| ==> !IsSpace(s[k])
  }

  /** A string with no white space at either end. */
  predicate IsTrimmed(s: string) {
    s == [] || (!IsSpace(s[0]) && !IsSpace(s[|s| - 1]))
  }

  // ---------------------------------------------------------------------------
  // Case folding
  // ---------------------------------------------------------------------------

  /** Lower-case of an ASCII letter; every other character is its own lower case. */
  function Lower(c: char): (r: char)
    ensures 'A' <= c <= 'Z' ==> 'a' <= r <= 'z' && r as int == c as int + 32
    ensures !('A' <= c <= 'Z') ==> r == c
  {
    if 'A' <= c <= 'Z' then (c as int + 32) as char else c
  }

  function LowerStr(s: string): (r: string)
    ensures |r| == |s|
    ensures forall k :: 0 <= k < |s| ==> r[k] == Lower(s[k])
  {
    seq(|s|, k requires 0 <= k < |s| => Lower(s[k]))
  }

  /** Equality up to case, as a case-insensitive regular expression compares characters. */
  predicate EqualsIgnoreCase(a: string, b: string) {
    |a| == |b| && forall k :: 0 <= k < |a| ==> Lower(a[k]) == Lower(b[k])
  }

  // ---------------------------------------------------------------------------
  // trim
  // ---------------------------------------------------------------------------

  /** Length of the run of white space at the start of `s`. */
  function LeadingSpaces(s: string): (n: nat)
    ensures n <= |s|
    ensures forall k :: 0 <= k < n ==> IsSpace(s[k])
    ensures n == |s| || !IsSpace(s[n])
  {
    if s != [] && IsSpace(s[0]) then 1 + LeadingSpaces(s[1..]) else 0
  }

  /** Length of the run of white space at the end of `s`. */
  function TrailingSpaces(s: string): (n: nat)
    ensures n <= |s|
    ensures forall k :: |s| - n <= k < |s| ==> IsSpace(s[k])
    ensures n == |s| || !IsSpace(s[|s| - 1 - n])
  {
    if s != [] && IsSpace(s[|s| - 1]) then 1 + TrailingSpaces(s[..|s| - 1]) else 0
  }

  /** `String.prototype.trim`: the infix of `s` left after dropping white space at both ends. */
  function Trim(s: string): (r: string)
    ensures IsTrimmed(r)
    ensures LeadingSpaces(s) + |r| <= |s|
    ensures r == s[LeadingSpaces(s)..LeadingSpaces(s) + |r|]
    ensures forall k :: LeadingSpaces(s) + |r| <= k < |s| ==> IsSpace(s[k])
  {
    var t := s[LeadingSpaces(s)..];
    t[..|t| - TrailingSpaces(t)]
  }

  lemma {:induction false} TrimOfTrimmed(s: string)
    requires IsTrimmed(s)
    ensures Trim(s) == s
  {
    assert LeadingSpaces(s) == 0;
    assert TrailingSpaces(s) == 0;
  }

  // ---------------------------------------------------------------------------
  // split(/\s+/)
  // ---------------------------------------------------------------------------

  /** Length of the run of non-space characters at the start of `s`. */
  function WordLength(s: string): (n: nat)
    ensures n <= |s|
    ensures NoSpace(s[..n])
    ensures n == |s| || IsSpace(s[n])
  {
    if s != [] && !IsSpace(s[0]) then 1 + WordLength(s[1..]) else 0
  }

  /**
   * `s.split(/\s+/)`: the pieces between maximal runs of white space.
   * A leading (trailing) run yields an empty first (last) piece, and the
   * empty string yields one empty piece, as in JavaScript.
   */
  function SplitSpaces(s: string): (r: seq<string>)
    ensures |r| >= 1
    ensures forall k :: 0 <= k < |r| ==> NoSpace(r[k])
    decreases |s|
  {
    var w := WordLength(s);
    if w == |s| then [s]
    else
      var rest := s[w..];
      [s[..w]] + SplitSpaces(rest[LeadingSpaces(rest)..])
  }

  /** `pieces[0] + gaps[0] + pieces[1] + ... + gaps[|gaps| - 1] + pieces[|gaps|]`. */
  function Interleave(pieces: seq<string>, gaps: seq<string>): string
    requires |pieces| == |gaps| + 1
    decreases |gaps|
  {
    if gaps == [] then pieces[0] else pieces[0] + gaps[0] + Interleave(pieces[1..], gaps[1..])
  }

  /** A non-empty run of white space. */
  predicate IsSpaceRun(g: string) {
    g != [] && forall k :: 0 <= k < |g| ==> IsSpace(g[k])
  }

  /**
   * `s` is `pieces` separated by `gaps`: no piece holds white space, every
   * piece but the first and the last is non-empty, and every gap is a
   * non-empty run of white space. The pieces are then the maximal runs of
   * non-white-space of `s`, in order, with an empty first (last) piece exactly
   * when `s` starts (ends) with white space.
   */
  predicate SplitsAs(s: string, pieces: seq<string>, gaps: seq<string>) {
    && |pieces| == |gaps| + 1
    && (forall k :: 0 <= k < |pieces| ==> NoSpace(pieces[k]))
    && (forall k :: 0 < k < |pieces| - 1 ==> pieces[k] != [])
    && (forall k :: 0 <= k < |gaps| ==> IsSpaceRun(gaps[k]))
    && s == Interleave(pieces, gaps)
  }

  /** The split cuts `s` at its white-space runs: `s` is its pieces separated by those runs. */
  lemma {:induction false} SplitSpacesSplitsAs(s: string)
    ensures exists gaps :: SplitsAs(s, SplitSpaces(s), gaps)
    decreases |s|
  {
    var w := WordLength(s);
    if w == |s| {
      assert s[..w] == s;
      assert SplitSpaces(s) == [s];
      assert SplitsAs(s, [s], []);
    } else {
      var g, after := SplitSpacesStep(s);
      SplitSpacesSplitsAs(after);
      var gaps :| SplitsAs(after, SplitSpaces(after), gaps);
      SplitsAsCons(s[..w], g, after, SplitSpaces(after), gaps);
      assert SplitsAs(s, SplitSpaces(s), [g] + gaps);
    }
  }

  /** The split of text with white space in it: the leading word, the run after it, then the split of the rest. */
  lemma SplitSpacesStep(s: string) returns (g: string, after: string)
    requires WordLength(s) < |s|
    ensures IsSpaceRun(g) && s == s[..WordLength(s)] + g + after
    ensures after == [] || !IsSpace(after[0])
    ensures after == [] ==> SplitSpaces(after) == [[]]
    ensures |after| < |s|
    ensures SplitSpaces(s) == [s[..WordLength(s)]] + SplitSpaces(after)
  {
    var w := WordLength(s);
    var rest := s[w..];
    var lead := LeadingSpaces(rest);
    after := rest[lead..];
    g := rest[..lead];
    assert SplitSpaces(s) == [s[..w]] + SplitSpaces(after);
    CutRun(s, w, lead);
    if after == [] {
      assert WordLength(after) == 0;
    }
  }

  /** Cutting `s` after its leading word and again after the white-space run that follows. */
  lemma CutRun(s: string, w: nat, lead: nat)
    requires w < |s| && IsSpace(s[w])
    requires lead == LeadingSpaces(s[w..])
    ensures IsSpaceRun(s[w..][..lead])
    ensures s == s[..w] + s[w..][..lead] + s[w..][lead..]
  {
    var rest := s[w..];
    assert IsSpace(rest[0]);
    assert forall k :: 0 <= k < lead ==> rest[..lead][k] == rest[k];
    assert rest == rest[..lead] + rest[lead..];
    assert s == s[..w] + rest;
  }

  /** A word and a white-space run in front of text that starts with a non-space (or is empty) add one piece. */
  lemma SplitsAsCons(w: string, g: string, tail: string, pieces: seq<string>, gaps: seq<string>)
    requires NoSpace(w) && IsSpaceRun(g) && SplitsAs(tail, pieces, gaps)
    requires tail == [] || !IsSpace(tail[0])
    requires tail == [] ==> |pieces| == 1
    ensures SplitsAs(w + g + tail, [w] + pieces, [g] + gaps)
  {
    var ps := [w] + pieces;
    var gs := [g] + gaps;
    assert ps[1..] == pieces && gs[1..] == gaps;
    assert Interleave(ps, gs) == w + g + tail;
    if |pieces| > 1 {
      assert pieces[0] != [] by {
        if pieces[0] == [] {
          InterleaveStart(pieces, gaps);
        }
      }
    }
    forall k | 0 < k < |ps| - 1 ensures ps[k] != [] {
      assert ps[k] == pieces[k - 1];
    }
  }

  /** Text built from an empty first piece starts with the first gap. */
  lemma InterleaveStart(pieces: seq<string>, gaps: seq<string>)
    requires |pieces| == |gaps| + 1 && gaps != [] && pieces[0] == [] && gaps[0] != []
    ensures Interleave(pieces, gaps) != [] && Interleave(pieces, gaps)[0] == gaps[0][0]
  {
    var rest := Interleave(pieces[1..], gaps[1..]);
    assert pieces[0] + gaps[0] == gaps[0];
    assert Interleave(pieces, gaps) == gaps[0] + rest;
  }

  /** Only one list of pieces separates `s` at white-space runs: the split's. */
  lemma {:induction false} SplitsAsUnique(s: string, pieces: seq<string>, gaps: seq<string>)
    requires SplitsAs(s, pieces, gaps)
    ensures SplitSpaces(s) == pieces
    decreases |gaps|
  {
    if gaps == [] {
      assert s == pieces[0];
      assert pieces[0] + [] == pieces[0];
      WordLengthOfWord(pieces[0], []);
      assert SplitSpaces(s) == [s];
    } else {
      var tail := Interleave(pieces[1..], gaps[1..]);
      SplitsAsTail(s, pieces, gaps);
      SplitsAsUnique(tail, pieces[1..], gaps[1..]);
      assert NoSpace(pieces[0]) && IsSpaceRun(gaps[0]);
      SplitStepRun(pieces[0], gaps[0], tail);
      assert SplitSpaces(s) == [pieces[0]] + pieces[1..];
      assert pieces == [pieces[0]] + pieces[1..];
    }
  }

  /** Dropping the first piece and gap leaves a separation of the rest, which starts with a non-space or is empty. */
  lemma SplitsAsTail(s: string, pieces: seq<string>, gaps: seq<string>)
    requires SplitsAs(s, pieces, gaps) && gaps != []
    ensures var tail := Interleave(pieces[1..], gaps[1..]);
      && s == pieces[0] + gaps[0] + tail
      && SplitsAs(tail, pieces[1..], gaps[1..])
      && (tail == [] || !IsSpace(tail[0]))
  {
    var ps := pieces[1..];
    var tail := Interleave(ps, gaps[1..]);
    forall k | 0 < k < |ps| - 1 ensures ps[k] != [] {
      assert ps[k] == pieces[k + 1];
    }
    if |gaps| > 1 {
      assert ps[0] == pieces[1] && pieces[1] != [];
      assert tail == ps[0] + gaps[1..][0] + Interleave(ps[1..], gaps[1..][1..]);
      assert tail[0] == pieces[1][0];
    } else {
      assert tail == pieces[1];
    }
  }

  /** One step of the split: a word, a run of white space, then text starting with a non-space (or nothing). */
  lemma {:induction false} SplitStepRun(w: string, g: string, tail: string)
    requires NoSpace(w) && IsSpaceRun(g)
    requires tail == [] || !IsSpace(tail[0])
    ensures SplitSpaces(w + g + tail) == [w] + SplitSpaces(tail)
  {
    var s := w + g + tail;
    assert s == w + (g + tail);
    WordLengthOfWord(w, g + tail);
    var rest := s[|w|..];
    assert rest == g + tail;
    LeadingSpacesOfRun(g, tail);
    assert rest[|g|..] == tail;
    assert s[..|w|] == w;
  }

  lemma {:induction false} LeadingSpacesOfRun(g: string, tail: string)
    requires forall k :: 0 <= k < |g| ==> IsSpace(g[k])
    requires tail == [] || !IsSpace(tail[0])
    ensures LeadingSpaces(g + tail) == |g|
    decreases |g|
  {
    if g == [] {
      assert g + tail == tail;
    } else {
      assert (g + tail)[1..] == g[1..] + tail;
      LeadingSpacesOfRun(g[1..], tail);
    }
  }

  /** Joins non-empty words with one space between consecutive ones. */
  function JoinWords(ws: seq<string>): string {
    if ws == [] then []
    else if |ws| == 1 then ws[0]
    else ws[0] + " " + JoinWords(ws[1..])
  }

  /** Splitting a trimmed, non-empty term never yields an empty keyword. */
  lemma {:induction false} SplitTrimmedHasNoEmptyWord(s: string)
    requires IsTrimmed(s) && s != []
    ensures forall k :: 0 <= k < |SplitSpaces(s)| ==> SplitSpaces(s)[k] != []
    decreases |s|
  {
    var w := WordLength(s);
    if w < |s| {
      var rest := s[w..];
      var after := rest[LeadingSpaces(rest)..];
      assert !IsSpace(s[|s| - 1]);
      assert LeadingSpaces(rest) < |rest| by {
        assert !IsSpace(rest[|rest| - 1]);
      }
      assert after[|after| - 1] == s[|s| - 1];
      SplitTrimmedHasNoEmptyWord(after);
      assert SplitSpaces(s) == [s[..w]] + SplitSpaces(after);
    }
  }

  /** One step of the split: a word, one space, then text starting with a non-space. */
  lemma {:induction false} SplitStep(w: string, tail: string)
    requires NoSpace(w)
    requires tail != [] && !IsSpace(tail[0])
    ensures SplitSpaces(w + " " + tail) == [w] + SplitSpaces(tail)
  {
    var s := w + " " + tail;
    assert s == w + (" " + tail);
    WordLengthOfWord(w, " " + tail);
    var rest := s[|w|..];
    assert rest == " " + tail;
    assert rest[1..] == tail;
    assert LeadingSpaces(rest) == 1 + LeadingSpaces(tail);
    assert LeadingSpaces(tail) == 0;
    assert rest[LeadingSpaces(rest)..] == tail;
    assert s[..|w|] == w;
  }

  /** Splitting undoes joining: the keyword list of "a b c" is ["a", "b", "c"]. */
  lemma {:induction false} SplitJoinWords(ws: seq<string>)
    requires |ws| >= 1
    requires forall k :: 0 <= k < |ws| ==> ws[k] != [] && NoSpace(ws[k])
    ensures SplitSpaces(JoinWords(ws)) == ws
  {
    if |ws| == 1 {
      var s := ws[0];
      assert s + [] == s;
      WordLengthOfWord(s, []);
    } else {
      var tail := JoinWords(ws[1..]);
      JoinWordsStartsWithWord(ws[1..]);
      SplitStep(ws[0], tail);
      SplitJoinWords(ws[1..]);
      assert ws == [ws[0]] + ws[1..];
    }
  }

  lemma {:induction false} WordLengthOfWord(w: string, tail: string)
    requires NoSpace(w)
    requires tail == [] || IsSpace(tail[0])
    ensures WordLength(w + tail) == |w|
    decreases |w|
  {
    if w != [] {
      assert (w + tail)[1..] == w[1..] + tail;
      WordLengthOfWord(w[1..], tail);
    } else {
      assert w + tail == tail;
    }
  }

  lemma {:induction false} JoinWordsStartsWithWord(ws: seq<string>)
    requires |ws| >= 1
    requires forall k :: 0 <= k < |ws| ==> ws[k] != [] && NoSpace(ws[k])
    ensures JoinWords(ws) != [] && !IsSpace(JoinWords(ws)[0])
  {
    if |ws| > 1 {
      assert JoinWords(ws)[0] == ws[0][0];
    }
  }

  // ---------------------------------------------------------------------------
  // includes
  // ---------------------------------------------------------------------------

  /** `needle` occurs in `hay` at offset `i`. */
  predicate OccursAt(hay: string, needle: string, i: int) {
    0 <= i && i + |needle| <= |hay| && hay[i..i + |needle|] == needle
  }

  /** `hay.includes(needle)`. */
  function Contains(hay: string, needle: string): (b: bool)
    ensures b <==> exists i :: OccursAt(hay, needle, i)
    decreases |hay|
  {
    if |needle| <= |hay| && hay[..|needle|] == needle then
      assert OccursAt(hay, needle, 0);
      true
    else if hay == [] then
      false
    else
      var b := Contains(hay[1..], needle);
      assert forall i :: OccursAt(hay[1..], needle, i) ==> OccursAt(hay, needle, i + 1);
      assert forall i :: OccursAt(hay, needle, i) && i > 0 ==> OccursAt(hay[1..], needle, i - 1);
      b
  }

  // ---------------------------------------------------------------------------
  // parseInt (radix left undefined) and the decimal form of an integer
  // ---------------------------------------------------------------------------

  function DigitValue(c: char): (d: int)
    ensures -1 <= d < 16
  {
    if '0' <= c <= '9' then c as int - '0' as int
    else if 'a' <= c <= 'f' then c as int - 'a' as int + 10
    else if 'A' <= c <= 'F' then c as int - 'A' as int + 10
    else -1
  }

  predicate IsDigitIn(c: char, radix: nat) {
    0 <= DigitValue(c) < radix
  }

  /** Length of the run of digits of `radix` at the start of `s`. */
  function DigitRun(s: string, radix: nat): (n: nat)
    ensures n <= |s|
    ensures forall k :: 0 <= k < n ==> IsDigitIn(s[k], radix)
    ensures n == |s| || !IsDigitIn(s[n], radix)
  {
    if s != [] && IsDigitIn(s[0], radix) then 1 + DigitRun(s[1..], radix) else 0
  }

  /** The value of a string of digits of `radix`, most significant first. */
  function DigitsValue(s: string, radix: nat): (v: nat)
    requires forall k :: 0 <= k < |s| ==> IsDigitIn(s[k], radix)
  {
    if s == [] then 0
    else
      var prefix := s[..|s| - 1];
      assert forall k :: 0 <= k < |prefix| ==> prefix[k] == s[k];
      assert IsDigitIn(s[|s| - 1], radix);
      Shift(DigitsValue(prefix, radix), radix, DigitValue(s[|s| - 1]))
  }

  /** A value with one more digit `d` appended in `radix`. */
  function Shift(high: nat, radix: nat, d: nat): nat {
    high * radix + d
  }

  /**
   * `parseInt(s)`: skip leading white space, read an optional sign, switch to
   * radix 16 after a `0x`/`0X` prefix, and read the longest run of digits.
   * `None` stands for `NaN` (no digit at all).
   */
  function ParseInt(s: string): Option<int> {
    var t := s[LeadingSpaces(s)..];
    var neg := t != [] && t[0] == '-';
    var u := if t != [] && (t[0] == '-' || t[0] == '+') then t[1..] else t;
    match Magnitude(u)
    case None => None
    case Some(v) => Some(if neg then 0 - v as int else v)
  }

  /** The unsigned part of `parseInt`: hexadecimal after `0x`/`0X`, decimal otherwise. */
  function Magnitude(u: string): Option<nat> {
    var hex := |u| >= 2 && u[0] == '0' && (u[1] == 'x' || u[1] == 'X');
    var radix := if hex then 16 else 10;
    var body := if hex then u[2..] else u;
    var n := DigitRun(body, radix);
    if n == 0 then None else Some(DigitsValue(body[..n], radix))
  }

  /** `parseInt(s) || 0`: `NaN` (and `0`) become `0`. */
  function ParseIntOrZero(s: string): int {
    ParseInt(s).GetOr(0)
  }

  function DigitChar(d: nat): (c: char)
    requires d < 10
    ensures DigitValue(c) == d
  {
    ('0' as int + d) as char
  }

  /** The decimal digits of a natural number, without leading zeros. */
  function NatDigits(n: nat): (s: string)
    ensures s != []
    ensures forall k :: 0 <= k < |s| ==> IsDigitIn(s[k], 10)
  {
    if n < 10 then [DigitChar(n)] else NatDigits(n / 10) + [DigitChar(n % 10)]
  }

  /** `String(n)` for an integer `n`. */
  function DecimalString(n: int): string {
    if n < 0 then "-" + NatDigits(-n) else NatDigits(n)
  }

  lemma {:induction false} NatDigitsValue(n: nat)
    ensures DigitsValue(NatDigits(n), 10) == n
  {
    if n >= 10 {
      var s := NatDigits(n);
      NatDigitsValue(n / 10);
      assert s[..|s| - 1] == NatDigits(n / 10);
    }
  }

  lemma {:induction false} DigitRunAll(s: string, radix: nat)
    requires forall k :: 0 <= k < |s| ==> IsDigitIn(s[k], radix)
    ensures DigitRun(s, radix) == |s|
  {
    if s != [] {
      DigitRunAll(s[1..], radix);
    }
  }

  /** `parseInt` reads an optionally signed run of decimal digits back as its value. */
  lemma {:induction false} ParseIntSignedDigits(sign: string, ds: string)
    requires sign == "" || sign == "-"
    requires ds != [] && forall k :: 0 <= k < |ds| ==> IsDigitIn(ds[k], 10)
    ensures ParseInt(sign + ds) == Some(if sign == "-" then 0 - DigitsValue(ds, 10) as int else DigitsValue(ds, 10))
  {
    var s := sign + ds;
    assert s[0] == '-' || s[0] == ds[0];
    assert !IsSpace(s[0]);
    assert LeadingSpaces(s) == 0;
    assert s[0..] == s;
    assert (if s[0] == '-' || s[0] == '+' then s[1..] else s) == ds;
    MagnitudeOfDigits(ds);
  }

  /** A run of decimal digits is read in radix 10 (a second digit is never an `x`). */
  lemma MagnitudeOfDigits(ds: string)
    requires ds != [] && forall k :: 0 <= k < |ds| ==> IsDigitIn(ds[k], 10)
    ensures Magnitude(ds) == Some(DigitsValue(ds, 10))
  {
    assert !(|ds| >= 2 && ds[0] == '0' && (ds[1] == 'x' || ds[1] == 'X')) by {
      if |ds| >= 2 {
        assert IsDigitIn(ds[1], 10);
      }
    }
    DigitRunAll(ds, 10);
    assert ds[..|ds|] == ds;
  }

  /** `parseInt(String(n)) === n`: the integer a form field carries comes back unchanged. */
  lemma {:induction false} ParseIntDecimalString(n: int)
    ensures ParseInt(DecimalString(n)) == Some(n)
  {
    var m: nat := if n < 0 then -n else n;
    NatDigitsValue(m);
    ParseIntSignedDigits(if n < 0 then "-" else "", NatDigits(m));
    assert DecimalString(n) == (if n < 0 then "-" else "") + NatDigits(m);
  }

  // ---------------------------------------------------------------------------
  // split("/").pop()
  // ---------------------------------------------------------------------------

  /** The text after the last `sep` of `s` (all of `s` when `sep` does not occur). */
  function LastSegment(s: string, sep: char): (r: string)
    ensures |r| <= |s| && r == s[|s| - |r|..]
    ensures sep !in r
    ensures |r| < |s| ==> s[|s| - |r| - 1] == sep
  {
    if s == [] then []
    else if s[|s| - 1] == sep then []
    else LastSegment(s[..|s| - 1], sep) + [s[|s| - 1]]
  }

  /** The text after a separator that does not occur again is the last segment. */
  lemma LastSegmentAfter(dir: string, sep: char, name: string)
    requires sep !in name
    ensures LastSegment(dir + [sep] + name, sep) == name
  {
    var s := dir + [sep] + name;
    var r := LastSegment(s, sep);
    assert s[|s| - |name| - 1] == sep;
    assert s[|s| - |name|..] == name;
  }
}
