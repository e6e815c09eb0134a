/** The handful of Python `str` operations the crawlers use, on `seq<char>`. */
module Text {

  // ---------------------------------------------------------------- characters

  predicate IsAsciiUpper(c: char) { 'A' <= c <= 'Z' }
  predicate IsAsciiLower(c: char) { 'a' <= c <= 'z' }
  predicate IsAsciiLetter(c: char) { IsAsciiUpper(c) || IsAsciiLower(c) }
  predicate IsAsciiDigit(c: char) { '0' <= c <= '9' }

  /** The characters Python's `str.isspace` accepts, which `str.strip()` removes. */
  predicate IsPyWhitespace(c: char)
  {
    || c == ' ' || c == '\t' || c == '\n' || c == '\r' || c == '\U{B}' || c == '\U{C}'
    || ('\U{1C}' <= c <= '\U{1F}') || c == '\U{85}' || c == '\U{A0}' || c == '\U{1680}'
    || ('\U{2000}' <= c <= '\U{200A}') || c == '\U{2028}' || c == '\U{2029}' || c == '\U{202F}'
    || c == '\U{205F}' || c == '\U{3000}'
  }

  function LowerChar(c: char): (d: char)
    ensures IsAsciiUpper(c) ==> IsAsciiLower(d)
    ensures !IsAsciiUpper(c) ==> d == c
  {
    if IsAsciiUpper(c) then (c as int + 32) as char else c
  }

  /** `str.lower()` on ASCII letters; every other character is kept. */
  function Lower(s: string): (r: string)
    ensures |r| == |s|
    ensures forall i :: 0 <= i < |s| ==> r[i] == LowerChar(s[i])
  {
    seq(|s|, i requires 0 <= i < |s| => LowerChar(s[i]))
  }

  // ---------------------------------------------------------------- prefixes and substrings

  predicate StartsWith(s: string, p: string) { |p| <= |s| && s[..|p|] == p }

  predicate EndsWith(s: string, p: string) { |p| <= |s| && s[|s| - |p|..] == p }

  /** Python's `p in s`. */
  predicate Contains(s: string, p: string)
    decreases |s|
  {
    StartsWith(s, p) || (s != [] && Contains(s[1..], p))
  }

  /** `any(t in s for t in tokens)`. */
  predicate ContainsAny(s: string, tokens: seq<string>)
  {
    exists i :: 0 <= i < |tokens| && Contains(s, tokens[i])
  }

  /** An occurrence at position i is an occurrence. */
  lemma {:induction false} ContainsAt(s: string, p: string, i: nat)
    requires i + |p| <= |s| && s[i..i + |p|] == p
    ensures Contains(s, p)
    decreases i
  {
    if i > 0 {
      assert s[1..][i - 1..i - 1 + |p|] == s[i..i + |p|];
      ContainsAt(s[1..], p, i - 1);
    }
  }

  /** Every occurrence sits at some position. */
  lemma {:induction false} ContainsWitness(s: string, p: string) returns (i: nat)
    requires Contains(s, p)
    ensures i + |p| <= |s| && s[i..i + |p|] == p
    decreases |s|
  {
    if StartsWith(s, p) {
      i := 0;
    } else {
      var j := ContainsWitness(s[1..], p);
      assert s[1..][j..j + |p|] == s[j + 1..j + 1 + |p|];
      i := j + 1;
    }
  }

  /** `p` occurs in `s` at position i. */
  predicate OccursAt(s: string, p: string, i: nat)
  {
    i + |p| <= |s| && s[i..i + |p|] == p
  }

  /** A string that occurs at no position is not contained. */
  lemma {:induction false} NoOccurrence(s: string, p: string)
    requires forall i: nat :: !OccursAt(s, p, i)
    ensures !Contains(s, p)
    decreases |s|
  {
    assert !OccursAt(s, p, 0);
    if s != [] {
      forall i: nat ensures !OccursAt(s[1..], p, i) {
        assert !OccursAt(s, p, i + 1);
        if i + |p| <= |s[1..]| { assert s[1..][i..i + |p|] == s[i + 1..i + 1 + |p|]; }
      }
      NoOccurrence(s[1..], p);
    }
  }

  /** A substring of a part is a substring of the whole. */
  lemma ContainsInConcat(a: string, b: string, c: string, p: string)
    requires Contains(b, p)
    ensures Contains(a + b + c, p)
  {
    var i := ContainsWitness(b, p);
    assert (a + b + c)[|a| + i..|a| + i + |p|] == b[i..i + |p|];
    ContainsAt(a + b + c, p, |a| + i);
  }

  // ---------------------------------------------------------------- counting, splitting, joining

  function CountChar(s: string, c: char): nat
    decreases |s|
  {
    if s == [] then 0 else (if s[0] == c then 1 else 0) + CountChar(s[1..], c)
  }

  /** Python's `s.split(c)` for a one-character separator. */
  function Split(s: string, c: char): (parts: seq<string>)
    ensures |parts| >= 1
    decreases |s|
  {
    if s == [] then [""]
    else if s[0] == c then [""] + Split(s[1..], c)
    else
      var rest := Split(s[1..], c);
      [[s[0]] + rest[0]] + rest[1..]
  }

  /** `s.split(c)` has one more part than `s` has separators, and no part holds a separator. */
  lemma {:induction false} SplitCount(s: string, c: char)
    ensures |Split(s, c)| == CountChar(s, c) + 1
    ensures forall k :: 0 <= k < |Split(s, c)| ==> c !in Split(s, c)[k]
    decreases |s|
  {
    if s != [] {
      SplitCount(s[1..], c);
      if s[0] != c {
        var rest := Split(s[1..], c);
        assert Split(s, c) == [[s[0]] + rest[0]] + rest[1..];
        forall k | 0 <= k < |Split(s, c)| ensures c !in Split(s, c)[k] {
          if k > 0 { assert Split(s, c)[k] == rest[k]; }
        }
      } else {
        forall k | 0 <= k < |Split(s, c)| ensures c !in Split(s, c)[k] {
          if k > 0 { assert Split(s, c)[k] == Split(s[1..], c)[k - 1]; }
        }
      }
    }
  }

  /** Splitting `a + [c] + b` where `a` holds no separator: the first part is `a`, the rest is the split of `b`. */
  lemma {:induction false} SplitAfterFirst(a: string, b: string, c: char)
    requires c !in a
    ensures Split(a + [c] + b, c) == [a] + Split(b, c)
    decreases |a|
  {
    if a == [] {
      assert a + [c] + b == [c] + b;
      assert ([c] + b)[1..] == b;
    } else {
      assert (a + [c] + b)[1..] == a[1..] + [c] + b;
      SplitAfterFirst(a[1..], b, c);
      assert [a[0]] + a[1..] == a;
    }
  }

  /** A string without separator splits into itself. */
  lemma {:induction false} SplitNoSeparator(s: string, c: char)
    requires c !in s
    ensures Split(s, c) == [s]
    decreases |s|
  {
    if s != [] {
      SplitNoSeparator(s[1..], c);
      assert [s[0]] + s[1..] == s;
    }
  }

  /**
   * `p` ends `s`, holds no separator, and is all of `s` or follows a separator; `whole` says
   * which of the two.
   */
  predicate IsLastPart(s: string, c: char, p: string, whole: bool)
  {
    EndsWith(s, p) && c !in p && (whole <==> |p| == |s|) && (|p| == |s| || s[|s| - |p| - 1] == c)
  }

  /** The last part of `s.split(c)` is such a tail, and all of `s` exactly when it is the only part. */
  lemma {:induction false} SplitLast(s: string, c: char)
    ensures var parts := Split(s, c); IsLastPart(s, c, parts[|parts| - 1], |parts| == 1)
    decreases |s|
  {
    if s != [] {
      var rest := Split(s[1..], c);
      SplitLast(s[1..], c);
      SplitCons(s, c);
      LastPartCons(s, c, rest[|rest| - 1], |rest| == 1);
    }
  }

  /** A last part of `s[1..]` gives the last part of `s`: extended by `s[0]` when it was all of `s[1..]`. */
  lemma LastPartCons(s: string, c: char, q: string, whole: bool)
    requires s != [] && IsLastPart(s[1..], c, q, whole)
    ensures if s[0] != c && whole then IsLastPart(s, c, [s[0]] + q, true) else IsLastPart(s, c, q, false)
  {
    var t := s[1..];
    if s[0] != c && whole {
      assert q == t by { assert t[|t| - |q|..] == t; }
      assert [s[0]] + q == s;
    } else {
      assert s[|s| - |q|..] == t[|t| - |q|..];
      if |q| == |t| {
        assert s[|s| - |q| - 1] == s[0];
      } else {
        assert s[|s| - |q| - 1] == t[|t| - |q| - 1];
      }
    }
  }

  /** How the parts of `s.split(c)` follow from those of `s[1..].split(c)`. */
  lemma SplitCons(s: string, c: char)
    requires s != []
    ensures var rest := Split(s[1..], c); var parts := Split(s, c);
            |parts| == (if s[0] == c then 1 + |rest| else |rest|)
            && parts[|parts| - 1] == (if s[0] != c && |rest| == 1 then [s[0]] + rest[0] else rest[|rest| - 1])
  {
  }

  /** `s.split(c)[-1]`: a tail of `s` without `c` that is all of `s` or follows a `c`. */
  function LastSegment(s: string, c: char): (p: string)
    ensures EndsWith(s, p) && c !in p && (|p| == |s| || s[|s| - |p| - 1] == c)
  {
    SplitLast(s, c);
    Split(s, c)[|Split(s, c)| - 1]
  }

  /** Splitting `a + [c] + d`, where `d` holds no separator, ends with the part `d`. */
  lemma SplitLastAfter(a: string, d: string, c: char)
    requires c !in d
    ensures LastSegment(a + [c] + d, c) == d
  {
    var s := a + [c] + d;
    var p := LastSegment(s, c);
    assert s[|a|] == c;
    assert s[|s| - |d|..] == d;
  }

  /** Python's `sep.join(xs)`. */
  function Join(xs: seq<string>, sep: string): string
    decreases |xs|
  {
    if xs == [] then "" else if |xs| == 1 then xs[0] else xs[0] + sep + Join(xs[1..], sep)
  }

  /** Python's `s.split(sep)` for a separator of any non-zero length: cut at each leftmost occurrence. */
  function SplitOn(s: string, sep: string): (parts: seq<string>)
    requires sep != ""
    ensures |parts| >= 1
    decreases |s|
  {
    if StartsWith(s, sep) then [""] + SplitOn(s[|sep|..], sep)
    else if s == [] then [""]
    else
      var rest := SplitOn(s[1..], sep);
      [[s[0]] + rest[0]] + rest[1..]
  }

  /** The separator the sheet export uses for additional emails. */
  const ListSep: string := ", "

  lemma {:induction false} SplitOnNoSeparator(x: string)
    requires !Contains(x, ListSep)
    ensures SplitOn(x, ListSep) == [x]
    decreases |x|
  {
    if x != [] {
      assert !StartsWith(x, ListSep);
      SplitOnNoSeparator(x[1..]);
      assert [x[0]] + x[1..] == x;
    }
  }

  lemma {:induction false} SplitOnFirstPart(x: string, rest: string)
    requires !Contains(x, ListSep)
    ensures SplitOn(x + ListSep + rest, ListSep) == [x] + SplitOn(rest, ListSep)
    decreases |x|
  {
    var s := x + ListSep + rest;
    if x == [] {
      assert s == ListSep + rest;
      assert StartsWith(s, ListSep);
      assert s[|ListSep|..] == rest;
    } else {
      // ", " cannot begin inside x: either x itself would contain it, or x's last
      // character would be followed by ',' where the separator needs ' '.
      assert !StartsWith(s, ListSep) by {
        assert !StartsWith(x, ListSep);
        if |x| >= 2 { assert s[..2] == x[..2]; } else { assert s[1] == ','; }
      }
      assert s[1..] == x[1..] + ListSep + rest;
      SplitOnFirstPart(x[1..], rest);
      assert [x[0]] + x[1..] == x;
    }
  }

  /** Joining with ", " and splitting on ", " gives the list back when no item contains ", ". */
  lemma {:induction false} JoinSplitRoundTrip(xs: seq<string>)
    requires |xs| >= 1
    requires forall i :: 0 <= i < |xs| ==> !Contains(xs[i], ListSep)
    ensures SplitOn(Join(xs, ListSep), ListSep) == xs
    decreases |xs|
  {
    if |xs| == 1 {
      SplitOnNoSeparator(xs[0]);
    } else {
      JoinSplitRoundTrip(xs[1..]);
      SplitOnFirstPart(xs[0], Join(xs[1..], ListSep));
      assert [xs[0]] + xs[1..] == xs;
    }
  }

  // ---------------------------------------------------------------- removing and trimming

  /** Python's `s.replace(p, '')`: one left-to-right pass removing non-overlapping occurrences. */
  function RemoveAll(s: string, p: string): string
    requires p != ""
    decreases |s|
  {
    if StartsWith(s, p) then RemoveAll(s[|p|..], p)
    else if s == [] then []
    else [s[0]] + RemoveAll(s[1..], p)
  }

  function TrimLeft(s: string): (r: string)
    ensures r == [] || !IsPyWhitespace(r[0])
    ensures |r| <= |s|
    decreases |s|
  {
    if s != [] && IsPyWhitespace(s[0]) then TrimLeft(s[1..]) else s
  }

  function TrimRight(s: string): (r: string)
    ensures r == [] || !IsPyWhitespace(r[|r| - 1])
    ensures |r| <= |s|
    decreases |s|
  {
    if s != [] && IsPyWhitespace(s[|s| - 1]) then TrimRight(s[..|s| - 1]) else s
  }

  /** Trimming on the left keeps a suffix. */
  lemma {:induction false} TrimLeftSuffix(s: string)
    ensures TrimLeft(s) == s[|s| - |TrimLeft(s)|..]
    decreases |s|
  {
    if s != [] && IsPyWhitespace(s[0]) {
      TrimLeftSuffix(s[1..]);
    }
  }

  /** Trimming on the right keeps a prefix. */
  lemma {:induction false} TrimRightPrefix(s: string)
    ensures TrimRight(s) == s[..|TrimRight(s)|]
    decreases |s|
  {
    if s != [] && IsPyWhitespace(s[|s| - 1]) {
      TrimRightPrefix(s[..|s| - 1]);
    }
  }

  /** Python's `s.strip()`: no whitespace at either end of the result. */
  function Strip(s: string): (r: string)
    ensures r == [] || (!IsPyWhitespace(r[0]) && !IsPyWhitespace(r[|r| - 1]))
  {
    var t := TrimLeft(s);
    TrimRightPrefix(t);
    TrimRight(t)
  }

  /** The strip of `s` is a piece of `s`. */
  lemma StripPiece(s: string) returns (i: nat, j: nat)
    ensures i <= j <= |s| && Strip(s) == s[i..j]
  {
    var t := TrimLeft(s);
    var r := TrimRight(t);
    TrimLeftSuffix(s);
    TrimRightPrefix(t);
    i, j := |s| - |t|, |s| - |t| + |r|;
  }

  /** A string with no whitespace at either end is its own strip. */
  lemma StripUnchanged(s: string)
    requires s == [] || (!IsPyWhitespace(s[0]) && !IsPyWhitespace(s[|s| - 1]))
    ensures Strip(s) == s
  {
  }

  /** Python's `s.rstrip(c)`. */
  function RStrip(s: string, c: char): (r: string)
    ensures r == [] || r[|r| - 1] != c
    decreases |s|
  {
    if s != [] && s[|s| - 1] == c then RStrip(s[..|s| - 1], c) else s
  }

  // ---------------------------------------------------------------- digits and numbers

  /** Python's `str.isdigit()`, restricted to ASCII digits: non-empty and all digits. */
  predicate IsDigits(s: string)
  {
    |s| > 0 && forall i :: 0 <= i < |s| ==> IsAsciiDigit(s[i])
  }

  function DigitChar(d: nat): (c: char)
    requires d < 10
    ensures IsAsciiDigit(c)
  {
    ('0' as int + d) as char
  }

  function NatToDecimal(n: nat): (r: string)
    ensures IsDigits(r)
    decreases n
  {
    if n < 10 then [DigitChar(n)] else NatToDecimal(n / 10) + [DigitChar(n % 10)]
  }

  /** Python's `str(n)` for an `int`. */
  function IntToDecimal(n: int): (r: string)
    ensures n >= 0 ==> IsDigits(r)
    ensures n < 0 ==> |r| > 1 && r[0] == '-' && IsDigits(r[1..])
  {
    if n >= 0 then NatToDecimal(n) else "-" + NatToDecimal(-n)
  }
}
