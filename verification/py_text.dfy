/**
 * The parts of Python's `str` and `int` built-ins the monitor relies on:
 * `in`, `strip()`, `split(sep)`, `split()` with no argument, `int(s)` and
 * `str(n)`, on strings modelled as `seq<char>`.
 */
module PyText {
  import opened Wrappers

  /** `c.isspace()`: the characters Python's `strip()` and `split()` treat as blanks. */
  predicate IsSpace(c: char) {
    ('\t' <= c <= '\r') || ('\U{1C}' <= c <= ' ') || c == '\U{85}' || c == '\U{A0}' ||
    c == '\U{1680}' || ('\U{2000}' <= c <= '\U{200A}') || c == '\U{2028}' || c == '\U{2029}' ||
    c == '\U{202F}' || c == '\U{205F}' || c == '\U{3000}'
  }

  predicate IsDigit(c: char) {
    '0' <= c <= '9'
  }

  /** No character of a numeral is a blank. */
  lemma NumeralCharNotSpace(c: char)
    requires IsDigit(c) || c == '-'
    ensures !IsSpace(c)
  {
  }

  predicate AllDigits(s: string) {
    forall i :: 0 <= i < |s| ==> IsDigit(s[i])
  }

  // ---------------------------------------------------------------------------
  // strip()
  // ---------------------------------------------------------------------------

  /** `s.lstrip()`: drops every leading blank and nothing else. */
  function TrimLeft(s: string): (r: string)
    ensures |r| <= |s| && r == s[|s| - |r|..]
    ensures r == [] || !IsSpace(r[0])
    ensures forall i :: 0 <= i < |s| - |r| ==> IsSpace(s[i])
  {
    if s != [] && IsSpace(s[0]) then TrimLeft(s[1..]) else s
  }

  /** `s.rstrip()`: drops every trailing blank and nothing else. */
  function TrimRight(s: string): (r: string)
    ensures |r| <= |s| && r == s[..|r|]
    ensures r == [] || !IsSpace(r[|r| - 1])
    ensures forall i :: |r| <= i < |s| ==> IsSpace(s[i])
  {
    if s != [] && IsSpace(s[|s| - 1]) then TrimRight(s[..|s| - 1]) else s
  }

  /** Every character of a slice occurs in the whole. */
  lemma SliceChars(s: string, lo: nat, hi: nat)
    requires lo <= hi <= |s|
    ensures forall c :: c in s[lo..hi] ==> c in s
  {
    forall c | c in s[lo..hi] ensures c in s {
      var k :| 0 <= k < hi - lo && s[lo..hi][k] == c;
      assert s[lo + k] == c;
    }
  }

  /** Stripping both sides leaves no blank at either end. */
  lemma {:induction false} TrimBothEnds(s: string)
    ensures var r := TrimRight(TrimLeft(s)); r == [] || (!IsSpace(r[0]) && !IsSpace(r[|r| - 1]))
  {
    var t := TrimLeft(s);
    var r := TrimRight(t);
    assert r == [] || r[0] == t[0];
  }

  /** Stripping both sides keeps only characters of the string. */
  lemma {:induction false} TrimBothChars(s: string)
    ensures forall c :: c in TrimRight(TrimLeft(s)) ==> c in s
  {
    var t := TrimLeft(s);
    SliceChars(s, |s| - |t|, |s|);
    SliceChars(t, 0, |TrimRight(t)|);
  }

  /** Stripping a string that neither starts nor ends with a blank leaves it as it is. */
  lemma {:induction false} TrimBothUnchanged(s: string)
    ensures (s == [] || (!IsSpace(s[0]) && !IsSpace(s[|s| - 1]))) ==> TrimRight(TrimLeft(s)) == s
  {
    if s != [] && !IsSpace(s[0]) && !IsSpace(s[|s| - 1]) {
      assert TrimLeft(s) == s;
    }
  }

  /** `r` is `s` with its first `i` characters and everything after `r` cut off, all of
      them blanks. */
  predicate BlankEnds(s: string, r: string, i: nat) {
    i + |r| <= |s| && r == s[i..i + |r|] &&
    (forall k :: 0 <= k < i ==> IsSpace(s[k])) && (forall k :: i + |r| <= k < |s| ==> IsSpace(s[k]))
  }

  /** Stripping both sides cuts a run of blanks from each end and nothing else. */
  lemma {:induction false} TrimBothSlice(s: string)
    ensures exists i: nat :: BlankEnds(s, TrimRight(TrimLeft(s)), i)
  {
    var t := TrimLeft(s);
    var r := TrimRight(t);
    CutEnds(s, t, r);
  }

  /** Cutting blanks from the front of `s`, giving `t`, then from the back of `t`, giving
      `r`, cuts blank ends off `s`. */
  lemma CutEnds(s: string, t: string, r: string)
    requires |t| <= |s| && t == s[|s| - |t|..] && |r| <= |t| && r == t[..|r|]
    requires forall k :: 0 <= k < |s| - |t| ==> IsSpace(s[k])
    requires forall j :: |r| <= j < |t| ==> IsSpace(t[j])
    ensures BlankEnds(s, r, |s| - |t|)
  {
    TrimmedSlice(s, t, r);
    TrailingBlanks(s, t, r);
  }

  /** What both strips leave sits at the offset the left strip cut. */
  lemma TrimmedSlice(s: string, t: string, r: string)
    requires |t| <= |s| && t == s[|s| - |t|..] && |r| <= |t| && r == t[..|r|]
    ensures r == s[|s| - |t|..|s| - |t| + |r|]
  {
    var i := |s| - |t|;
    forall j | 0 <= j < |r| ensures r[j] == s[i + j] {
      assert r[j] == t[j];
    }
  }

  /** What the right strip cut is a run of blanks at the end of `s`. */
  lemma TrailingBlanks(s: string, t: string, r: string)
    requires |t| <= |s| && t == s[|s| - |t|..] && |r| <= |t|
    requires forall j :: |r| <= j < |t| ==> IsSpace(t[j])
    ensures forall k :: |s| - |t| + |r| <= k < |s| ==> IsSpace(s[k])
  {
    var i := |s| - |t|;
    forall k | i + |r| <= k < |s| ensures IsSpace(s[k]) {
      assert s[k] == t[k - i];
    }
  }

  /** `s.strip()`: `s` with the run of blanks at each end cut off, so a slice of `s` that
      neither starts nor ends with a blank. */
  function Strip(s: string): (r: string)
    ensures r == [] || (!IsSpace(r[0]) && !IsSpace(r[|r| - 1]))
    ensures exists i: nat :: BlankEnds(s, r, i)
    ensures forall c :: c in r ==> c in s
    ensures (s == [] || (!IsSpace(s[0]) && !IsSpace(s[|s| - 1]))) ==> r == s
  {
    var r := TrimRight(TrimLeft(s));
    TrimBoth(s, r);
    r
  }

  lemma {:induction false} TrimBoth(s: string, r: string)
    requires r == TrimRight(TrimLeft(s))
    ensures r == [] || (!IsSpace(r[0]) && !IsSpace(r[|r| - 1]))
    ensures exists i: nat :: BlankEnds(s, r, i)
    ensures forall c :: c in r ==> c in s
    ensures (s == [] || (!IsSpace(s[0]) && !IsSpace(s[|s| - 1]))) ==> r == s
  {
    TrimBothEnds(s);
    TrimBothSlice(s);
    TrimBothChars(s);
    TrimBothUnchanged(s);
  }

  // ---------------------------------------------------------------------------
  // `p in s`, `s.split(sep)[1]`
  // ---------------------------------------------------------------------------

  /** `p` occurs in `s` starting at index `i`. */
  predicate OccursAt(s: string, p: string, i: nat) {
    i + |p| <= |s| && s[i..i + |p|] == p
  }

  /** The first occurrence of `p` in `s` at or after index `k`, if any. */
  function IndexFrom(s: string, p: string, k: nat): (r: Option<nat>)
    decreases |s| - k
    ensures r.Some? ==> k <= r.value && OccursAt(s, p, r.value)
    ensures r.Some? ==> forall j :: k <= j < r.value ==> !OccursAt(s, p, j)
    ensures r.None? ==> forall j :: k <= j ==> !OccursAt(s, p, j)
  {
    if k + |p| > |s| then None
    else if s[k..k + |p|] == p then Some(k)
    else IndexFrom(s, p, k + 1)
  }

  /** `s.find(p)`, with `None` for -1. */
  function IndexOf(s: string, p: string): Option<nat> {
    IndexFrom(s, p, 0)
  }

  /** Python's `p in s`. */
  predicate Contains(s: string, p: string) {
    IndexOf(s, p).Some?
  }

  /** Every character of a substring occurs in the string: a string that lacks
      one of `p`'s characters cannot contain `p`. */
  lemma MissingCharRulesOut(s: string, p: string, c: char)
    requires c in p && c !in s
    ensures !Contains(s, p)
  {
  }

  /** A slice of a prefix is the same slice of the whole. */
  lemma PrefixSlice(s: string, j: nat, lo: nat, hi: nat)
    requires lo <= hi <= j <= |s|
    ensures s[..j][lo..hi] == s[lo..hi]
  {
    forall k | 0 <= k < hi - lo ensures s[..j][lo..hi][k] == s[lo..hi][k] {
      assert s[..j][lo + k] == s[lo + k];
    }
  }

  /** `s.split(sep)[1]`: the text between the first and the second occurrence
      of `sep` (or the end of `s`); `None` where Python raises `IndexError`
      because `sep` does not occur. */
  function SplitSecond(s: string, sep: string): (r: Option<string>)
    requires sep != []
    ensures r.Some? <==> Contains(s, sep)
    ensures r.Some? ==> !Contains(r.value, sep)
    ensures r.Some? ==>
      var rest := s[IndexOf(s, sep).value + |sep|..];
      r.value <= rest &&
      (r.value == rest || (OccursAt(rest, sep, |r.value|) && forall j :: 0 <= j < |r.value| ==> !OccursAt(rest, sep, j)))
  {
    match IndexOf(s, sep)
    case None => None
    case Some(i) =>
      var rest := s[i + |sep|..];
      match IndexOf(rest, sep)
      case None => Some(rest)
      case Some(j) =>
        var piece := rest[..j];
        assert !Contains(piece, sep) by {
          assert |piece| == j;
          forall q: nat ensures !OccursAt(piece, sep, q) {
            if q + |sep| <= j {
              assert !OccursAt(rest, sep, q);
              PrefixSlice(rest, j, q, q + |sep|);
            }
          }
        }
        Some(piece)
  }

  // ---------------------------------------------------------------------------
  // split('\n') and its inverse, '\n'.join(...)
  // ---------------------------------------------------------------------------

  /** `s.split(c)` for a one-character separator: always at least one part,
      and no part holds the separator. */
  function SplitOn(s: string, c: char): (r: seq<string>)
    ensures |r| >= 1
    ensures forall k :: 0 <= k < |r| ==> c !in r[k]
  {
    if s == [] then [[]]
    else
      var rest := SplitOn(s[1..], c);
      if s[0] == c then [[]] + rest else [[s[0]] + rest[0]] + rest[1..]
  }

  /** `c.join(parts)`. */
  function Join(parts: seq<string>, c: char): string
    requires |parts| >= 1
  {
    if |parts| == 1 then parts[0] else parts[0] + [c] + Join(parts[1..], c)
  }

  /** Splitting and joining again gives back the text. */
  lemma {:induction false} JoinSplit(s: string, c: char)
    ensures Join(SplitOn(s, c), c) == s
  {
    if s != [] {
      var rest := SplitOn(s[1..], c);
      JoinSplit(s[1..], c);
      if s[0] == c {
        assert SplitOn(s, c)[1..] == rest;
      } else if |rest| == 1 {
        assert [s[0]] + rest[0] == s;
      } else {
        var r := SplitOn(s, c);
        assert r[1..] == rest[1..];
        assert Join(rest, c) == rest[0] + [c] + Join(rest[1..], c);
      }
    }
  }

  /** Splitting `x + c + y` where `x` holds no `c` peels `x` off the front. */
  lemma {:induction false} SplitOnFirst(x: string, c: char, y: string)
    requires c !in x
    ensures SplitOn(x + [c] + y, c) == [x] + SplitOn(y, c)
  {
    if x == [] {
      assert (x + [c] + y)[1..] == y;
    } else {
      assert (x + [c] + y)[1..] == x[1..] + [c] + y;
      SplitOnFirst(x[1..], c, y);
      assert [x[0]] + x[1..] == x;
    }
  }

  /** Joining parts that hold no separator and splitting again gives back the parts. */
  lemma {:induction false} SplitJoin(parts: seq<string>, c: char)
    requires |parts| >= 1
    requires forall k :: 0 <= k < |parts| ==> c !in parts[k]
    ensures SplitOn(Join(parts, c), c) == parts
  {
    if |parts| == 1 {
      NoSeparatorOnePart(parts[0], c);
    } else {
      SplitJoin(parts[1..], c);
      SplitOnFirst(parts[0], c, Join(parts[1..], c));
      assert [parts[0]] + parts[1..] == parts;
    }
  }

  lemma {:induction false} NoSeparatorOnePart(s: string, c: char)
    requires c !in s
    ensures SplitOn(s, c) == [s]
  {
    if s != [] {
      NoSeparatorOnePart(s[1..], c);
      assert [s[0]] + s[1..] == s;
    }
  }

  /** The lines successive `readline()` calls return for `text` before the empty string
      of its end, each without its newline: the parts of `text.split('\n')`, less the
      empty part that follows a final newline. */
  function Readlines(text: string): seq<string> {
    var parts := SplitOn(text, '\n');
    if parts[|parts| - 1] == [] then parts[..|parts| - 1] else parts
  }

  // ---------------------------------------------------------------------------
  // split() with no argument
  // ---------------------------------------------------------------------------

  /** The leading run of non-blank characters of `s`. */
  function Token(s: string): (w: string)
    ensures |w| <= |s| && w == s[..|w|]
    ensures s != [] && !IsSpace(s[0]) ==> |w| >= 1
    ensures forall i :: 0 <= i < |w| ==> !IsSpace(w[i])
  {
    if s == [] || IsSpace(s[0]) then [] else [s[0]] + Token(s[1..])
  }

  /** `s.split()`: the maximal runs of non-blank characters, in order. */
  function Words(s: string): (r: seq<string>)
    decreases |s|
    ensures forall k :: 0 <= k < |r| ==> r[k] != [] && !IsSpace(r[k][0])
  {
    if s == [] then []
    else if IsSpace(s[0]) then Words(s[1..])
    else
      var w := Token(s);
      [w] + Words(s[|w|..])
  }

  /** A run of non-blank characters followed by a blank (or nothing) is the leading token. */
  lemma {:induction false} TokenOfWord(w: string, rest: string)
    requires w != [] && forall i :: 0 <= i < |w| ==> !IsSpace(w[i])
    requires rest == [] || IsSpace(rest[0])
    ensures Token(w + rest) == w
    decreases |w|
  {
    assert (w + rest)[1..] == w[1..] + rest;
    if |w| == 1 {
      assert w[1..] + rest == rest;
    } else {
      TokenOfWord(w[1..], rest);
      assert [w[0]] + w[1..] == w;
    }
  }

  /** `(w + rest).split()` starts with the word `w` when a blank (or the end) follows it. */
  lemma {:induction false} WordsOfWord(w: string, rest: string)
    requires w != [] && forall i :: 0 <= i < |w| ==> !IsSpace(w[i])
    requires rest == [] || IsSpace(rest[0])
    ensures Words(w + rest) == [w] + Words(rest)
  {
    TokenOfWord(w, rest);
    assert (w + rest)[|w|..] == rest;
  }

  /** Leading blanks do not change `split()`. */
  lemma {:induction false} WordsSkipBlanks(blanks: string, s: string)
    requires forall i :: 0 <= i < |blanks| ==> IsSpace(blanks[i])
    ensures Words(blanks + s) == Words(s)
    decreases |blanks|
  {
    if blanks != [] {
      assert (blanks + s)[1..] == blanks[1..] + s;
      WordsSkipBlanks(blanks[1..], s);
    } else {
      assert blanks + s == s;
    }
  }

  /** Leading blanks before a non-blank character are exactly what `lstrip()` removes. */
  lemma {:induction false} TrimLeftBlanks(blanks: string, s: string)
    requires forall i :: 0 <= i < |blanks| ==> IsSpace(blanks[i])
    requires s != [] && !IsSpace(s[0])
    ensures TrimLeft(blanks + s) == s
    decreases |blanks|
  {
    var t := blanks + s;
    if blanks != [] {
      assert t[0] == blanks[0] && IsSpace(t[0]);
      assert t[1..] == blanks[1..] + s;
      TrimLeftBlanks(blanks[1..], s);
      assert TrimLeft(t) == TrimLeft(t[1..]);
    } else {
      assert t == s;
      assert !IsSpace(t[0]);
    }
  }

  /** A string that contains `p` still does inside any longer string. */
  lemma ContainsWithin(x: string, s: string, y: string, p: string)
    requires Contains(s, p)
    ensures Contains(x + s + y, p)
  {
    var i := IndexOf(s, p).value;
    var t := x + s + y;
    assert t[|x| + i..|x| + i + |p|] == s[i..i + |p|];
    assert OccursAt(t, p, |x| + i);
  }

  // ---------------------------------------------------------------------------
  // int(s) and str(n)
  // ---------------------------------------------------------------------------

  function DigitValue(c: char): nat
    requires IsDigit(c)
  {
    c as int - '0' as int
  }

  function DigitChar(d: nat): (c: char)
    requires d < 10
    ensures IsDigit(c) && DigitValue(c) == d
  {
    ('0' as int + d) as char
  }

  /** The value of a run of decimal digits, most significant first. */
  function DigitsValue(s: string): nat
    requires AllDigits(s)
  {
    if s == [] then 0 else DigitsValue(s[..|s| - 1]) * 10 + DigitValue(s[|s| - 1])
  }

  /** The sign-and-digits grammar `int()` accepts once blanks are stripped. */
  function ParseDecimal(s: string): (r: Option<int>)
    ensures r.Some? ==> s != []
  {
    if |s| >= 2 && (s[0] == '-' || s[0] == '+') && AllDigits(s[1..]) then
      var magnitude: int := DigitsValue(s[1..]);
      Some(if s[0] == '-' then -magnitude else magnitude)
    else if |s| >= 1 && AllDigits(s) then Some(DigitsValue(s))
    else None
  }

  /** `int(s)`: `None` where Python raises `ValueError`. */
  function IntOf(s: string): (r: Option<int>)
    ensures r.Some? ==> Strip(s) != []
  {
    ParseDecimal(Strip(s))
  }

  /** `str(n)` for a natural number. */
  function NatToString(n: nat): (r: string)
    ensures |r| >= 1 && AllDigits(r)
  {
    if n < 10 then [DigitChar(n)] else NatToString(n / 10) + [DigitChar(n % 10)]
  }

  /** `str(n)` / `f"{n}"`. */
  function IntToString(n: int): (r: string)
    ensures |r| >= 1 && (r[0] == '-' || IsDigit(r[0])) && IsDigit(r[|r| - 1])
    ensures forall c :: c in r ==> c == '-' || IsDigit(c)
  {
    if n < 0 then "-" + NatToString(-n) else NatToString(n)
  }

  lemma {:induction false} NatToStringValue(n: nat)
    ensures DigitsValue(NatToString(n)) == n
  {
    if n >= 10 {
      NatToStringValue(n / 10);
      var s := NatToString(n);
      assert s[..|s| - 1] == NatToString(n / 10);
    }
  }

  lemma StripKeepsNumeral(s: string)
    requires |s| >= 1 && (s[0] == '-' || IsDigit(s[0])) && IsDigit(s[|s| - 1])
    ensures Strip(s) == s
  {
    assert !IsSpace(s[0]) && !IsSpace(s[|s| - 1]);
  }

  lemma ParseNegative(s: string, d: string)
    requires |d| >= 1 && AllDigits(d) && s == "-" + d
    ensures ParseDecimal(s) == Some(-(DigitsValue(d) as int))
  {
    assert s[0] == '-' && s[1..] == d;
  }

  lemma ParseNatural(d: string)
    requires |d| >= 1 && AllDigits(d)
    ensures ParseDecimal(d) == Some(DigitsValue(d) as int)
  {
    assert IsDigit(d[0]);
  }

  /** The text of an integer holds no blank. */
  lemma NumeralHasNoBlank(n: int)
    ensures forall i :: 0 <= i < |IntToString(n)| ==> !IsSpace(IntToString(n)[i])
  {
    var s := IntToString(n);
    forall i | 0 <= i < |s| ensures !IsSpace(s[i]) {
      assert s[i] in s;
    }
  }

  /** `int(str(n)) == n` for every integer. */
  lemma IntRoundTrip(n: int)
    ensures IntOf(IntToString(n)) == Some(n)
  {
    var s := IntToString(n);
    StripKeepsNumeral(s);
    assert IntOf(s) == ParseDecimal(s);
    NumeralValue(n);
  }

  /** `str(n)` parses back to `n` once stripping is out of the way. */
  lemma {:induction false} NumeralValue(n: int)
    ensures ParseDecimal(IntToString(n)) == Some(n)
  {
    if n < 0 {
      var d := NatToString(-n);
      assert IntToString(n) == "-" + d;
      NatToStringValue(-n);
      ParseNegative(IntToString(n), d);
    } else {
      var d := NatToString(n);
      assert IntToString(n) == d;
      NatToStringValue(n);
      ParseNatural(d);
    }
  }
}
