/**
 * The email regular expression both extractors compile,
 *   [a-zA-Z0-9._%+-]+ @ [a-zA-Z0-9.-]+ \. [a-zA-Z]{2,}
 * with `re.IGNORECASE` (so each letter class also admits the four non-ASCII letters of
 * `IsPatternLetter`), and Python's `findall` over it, written out as the backtracking matcher behaves.
 *
 * At a start position the local part takes the whole run of local characters, which must be
 * followed by '@' ('@' is not a local character, so giving characters back cannot help).  The
 * domain part takes the whole run of domain characters and then gives characters back until it
 * stops just before a '.' followed by at least two letters; the top-level domain then takes the
 * whole run of letters.  `findall` tries each start position from the left and, after a match,
 * resumes where the match ended.
 */
module EmailPattern {
  import opened Wrappers
  import opened Text

  /**
   * A letter of the class `[a-zA-Z]` under `re.IGNORECASE`: an ASCII letter, or one of the four
   * characters whose simple case mapping is an ASCII letter: U+0130 (to 'i'), U+0131 (to 'I'),
   * U+017F (to 'S') and the Kelvin sign U+212A (to 'k').
   */
  predicate IsPatternLetter(c: char)
  {
    IsAsciiLetter(c) || c == '\U{130}' || c == '\U{131}' || c == '\U{17F}' || c == '\U{212A}'
  }

  predicate IsLocalChar(c: char)
  {
    IsPatternLetter(c) || IsAsciiDigit(c) || c == '.' || c == '_' || c == '%' || c == '+' || c == '-'
  }

  predicate IsDomainChar(c: char)
  {
    IsPatternLetter(c) || IsAsciiDigit(c) || c == '.' || c == '-'
  }

  /** The end of the longest run of characters satisfying `p` that starts at `i`. */
  function RunEnd(t: string, i: nat, p: char -> bool): (j: nat)
    requires i <= |t|
    ensures i <= j <= |t|
    ensures forall k :: i <= k < j ==> p(t[k])
    ensures j == |t| || !p(t[j])
    decreases |t| - i
  {
    if i < |t| && p(t[i]) then RunEnd(t, i + 1, p) else i
  }

  /** A run is determined by where it starts. */
  lemma {:induction false} RunEndUnique(t: string, i: nat, j: nat, p: char -> bool)
    requires i <= j <= |t|
    requires forall k :: i <= k < j ==> p(t[k])
    requires j == |t| || !p(t[j])
    ensures RunEnd(t, i, p) == j
    decreases j - i
  {
    if i < j { RunEndUnique(t, i + 1, j, p); }
  }

  /** Position k holds a '.' followed by two letters: a top-level domain can start after it. */
  predicate IsTldDot(t: string, k: nat)
  {
    k + 2 < |t| && t[k] == '.' && IsPatternLetter(t[k + 1]) && IsPatternLetter(t[k + 2])
  }

  /** The last position in [lo, hi) at which a top-level domain can start: where backtracking stops. */
  function LastTldDot(t: string, lo: nat, hi: nat): (r: Option<nat>)
    ensures r.Some? ==> lo <= r.value < hi && IsTldDot(t, r.value)
                        && forall k :: r.value < k < hi ==> !IsTldDot(t, k)
    ensures r.None? ==> forall k :: lo <= k < hi ==> !IsTldDot(t, k)
    decreases hi
  {
    if hi <= lo then None
    else if IsTldDot(t, hi - 1) then Some(hi - 1)
    else LastTldDot(t, lo, hi - 1)
  }

  lemma {:induction false} LastTldDotUnique(t: string, lo: nat, hi: nat, k: nat)
    requires lo <= k < hi && IsTldDot(t, k)
    requires forall j :: k < j < hi ==> !IsTldDot(t, j)
    ensures LastTldDot(t, lo, hi) == Some(k)
    decreases hi
  {
    if hi - 1 != k { LastTldDotUnique(t, lo, hi - 1, k); }
  }

  /** The end of the match that starts at `s`, if one does. */
  function MatchAt(t: string, s: nat): (r: Option<nat>)
    requires s <= |t|
    ensures r.Some? ==> s < r.value <= |t|
  {
    var at := RunEnd(t, s, IsLocalChar);
    if at == s || at == |t| || t[at] != '@' then None
    else
      var m := RunEnd(t, at + 1, IsDomainChar);
      match LastTldDot(t, at + 2, m)
      case None => None
      case Some(k) => Some(RunEnd(t, k + 1, IsPatternLetter))
  }

  /** `EMAIL_PATTERN.findall(t[pos..])`. */
  function FindAll(t: string, pos: nat): seq<string>
    requires pos <= |t|
    decreases |t| - pos
  {
    if pos == |t| then []
    else match MatchAt(t, pos)
      case Some(e) => [t[pos..e]] + FindAll(t, e)
      case None => FindAll(t, pos + 1)
  }

  // ---------------------------------------------------------------- what a match looks like

  /**
   * `m` is a local part `m[..a]`, an '@', a domain `m[a + 1..k]`, a '.', and a top-level domain
   * `m[k + 1..]` of two or more letters: a string of the regular language.
   */
  ghost predicate ShapedAt(m: string, a: nat, k: nat)
  {
    0 < a && a + 1 < k && k + 3 <= |m| && m[a] == '@' && m[k] == '.'
    && (forall i :: 0 <= i < a ==> IsLocalChar(m[i]))
    && (forall i :: a < i < k ==> IsDomainChar(m[i]))
    && (forall i :: k < i < |m| ==> IsPatternLetter(m[i]))
  }

  ghost predicate EmailShaped(m: string)
  {
    exists a: nat, k: nat :: ShapedAt(m, a, k)
  }

  /** `m` is what the matcher returns when started at position `s` of `t`. */
  predicate MatchFrom(t: string, s: nat, m: string)
  {
    MatchString(t, s) == Some(m)
  }

  /** The match that starts at `s`, as a string. */
  function MatchString(t: string, s: nat): (r: Option<string>)
    ensures r.Some? <==> s <= |t| && MatchAt(t, s).Some?
    ensures r.Some? ==> r.value == t[s..MatchAt(t, s).value]
  {
    if s <= |t| && MatchAt(t, s).Some? then Some(t[s..MatchAt(t, s).value]) else None
  }

  /** `m` is what the matcher returns when started at some position of `t`. */
  ghost predicate IsMatchIn(t: string, m: string)
  {
    exists s: nat :: MatchFrom(t, s, m)
  }

  /** What the matcher returns is a string of the regular language. */
  lemma MatchAtShape(t: string, s: nat) returns (a: nat, k: nat)
    requires s <= |t| && MatchAt(t, s).Some?
    ensures ShapedAt(t[s..MatchAt(t, s).value], a, k)
  {
    var at, kt := MatchAtParts(t, s);
    ShapedSlice(t, s, at, kt, MatchAt(t, s).value);
    a, k := at - s, kt - s;
  }

  /** The positions of the '@' and of the last dot of a match, in the coordinates of the text. */
  lemma MatchAtParts(t: string, s: nat) returns (at: nat, kt: nat)
    requires s <= |t| && MatchAt(t, s).Some?
    ensures ShapedBetween(t, s, at, kt, MatchAt(t, s).value)
  {
    at := RunEnd(t, s, IsLocalChar);
    var m := RunEnd(t, at + 1, IsDomainChar);
    kt := LastTldDot(t, at + 2, m).value;
    assert MatchAt(t, s).value == RunEnd(t, kt + 1, IsPatternLetter);
  }

  /** `ShapedAt` read in the coordinates of a text: `t[s..e]` is shaped, with '@' at `at` and the dot at `kt`. */
  ghost predicate ShapedBetween(t: string, s: nat, at: nat, kt: nat, e: nat)
  {
    s < at && at + 1 < kt && kt + 3 <= e <= |t| && t[at] == '@' && t[kt] == '.'
    && (forall i :: s <= i < at ==> IsLocalChar(t[i]))
    && (forall i :: at < i < kt ==> IsDomainChar(t[i]))
    && (forall i :: kt < i < e ==> IsPatternLetter(t[i]))
  }

  lemma ShapedSlice(t: string, s: nat, at: nat, kt: nat, e: nat)
    requires ShapedBetween(t, s, at, kt, e)
    ensures ShapedAt(t[s..e], at - s, kt - s)
  {
    var w := t[s..e];
    assert forall i :: 0 <= i < |w| ==> w[i] == t[s + i];
  }

  /** Every item `findall` returns is a match started at some position of the text. */
  lemma FindAllMatches(t: string, pos: nat)
    requires pos <= |t|
    ensures forall i :: 0 <= i < |FindAll(t, pos)| ==> IsMatchIn(t, FindAll(t, pos)[i])
  {
    forall i | 0 <= i < |FindAll(t, pos)| ensures IsMatchIn(t, FindAll(t, pos)[i]) {
      var s := FindAllItem(t, pos, i);
    }
  }

  /** Item i of `findall` from `pos` is the match started at some position `s` of the text. */
  lemma {:induction false} FindAllItem(t: string, pos: nat, i: nat) returns (s: nat)
    requires pos <= |t| && i < |FindAll(t, pos)|
    ensures MatchFrom(t, s, FindAll(t, pos)[i])
    decreases |t| - pos, 1
  {
    if MatchAt(t, pos).Some? {
      s := FindAllItemAtMatch(t, pos, i);
    } else {
      FindAllSkip(t, pos);
      s := FindAllItem(t, pos + 1, i);
    }
  }

  /** The same where a match starts at `pos`: item 0 is that match, the others come after it. */
  lemma {:induction false} FindAllItemAtMatch(t: string, pos: nat, i: nat) returns (s: nat)
    requires pos <= |t| && MatchAt(t, pos).Some? && i < |FindAll(t, pos)|
    ensures MatchFrom(t, s, FindAll(t, pos)[i])
    decreases |t| - pos, 0
  {
    if i == 0 {
      FindAllHead(t, pos);
      s := pos;
    } else {
      FindAllTail(t, pos, i);
      var e := MatchAt(t, pos).value;
      s := FindAllItem(t, e, i - 1);
    }
  }

  lemma FindAllHead(t: string, pos: nat)
    requires pos <= |t| && MatchAt(t, pos).Some?
    ensures |FindAll(t, pos)| > 0 && MatchFrom(t, pos, FindAll(t, pos)[0])
  {
    FindAllFound(t, pos);
  }

  lemma FindAllTail(t: string, pos: nat, i: nat)
    requires pos <= |t| && MatchAt(t, pos).Some? && 0 < i < |FindAll(t, pos)|
    ensures i - 1 < |FindAll(t, MatchAt(t, pos).value)|
    ensures FindAll(t, pos)[i] == FindAll(t, MatchAt(t, pos).value)[i - 1]
  {
    FindAllFound(t, pos);
  }

  /** Where no match starts, `findall` goes on at the next position. */
  lemma FindAllSkip(t: string, pos: nat)
    requires pos < |t| && MatchAt(t, pos).None?
    ensures FindAll(t, pos) == FindAll(t, pos + 1)
  {
  }

  /** Where a match starts, `findall` returns it and continues after it. */
  lemma FindAllFound(t: string, pos: nat)
    requires pos <= |t| && MatchAt(t, pos).Some?
    ensures FindAll(t, pos) == [t[pos..MatchAt(t, pos).value]] + FindAll(t, MatchAt(t, pos).value)
  {
  }

  /** Every item `findall` returns is a string of the regular language. */
  lemma FindAllShaped(t: string)
    ensures forall i :: 0 <= i < |FindAll(t, 0)| ==> EmailShaped(FindAll(t, 0)[i])
  {
    FindAllMatches(t, 0);
    forall i | 0 <= i < |FindAll(t, 0)| ensures EmailShaped(FindAll(t, 0)[i]) {
      var s: nat :| MatchFrom(t, s, FindAll(t, 0)[i]);
      var a, k := MatchAtShape(t, s);
    }
  }

  /** A match, searched again on its own, is found whole: the text is one match from start to end. */
  lemma MatchAtIdempotent(t: string, s: nat)
    requires s <= |t| && MatchAt(t, s).Some?
    ensures MatchAt(t[s..MatchAt(t, s).value], 0) == Some(|t[s..MatchAt(t, s).value]|)
  {
    var a, k := MatchAtShape(t, s);
    ShapedMatchesWhole(t[s..MatchAt(t, s).value], a, k);
  }

  /** The matcher, started at the beginning of a string of the language, takes all of it. */
  lemma ShapedMatchesWhole(w: string, a: nat, k: nat)
    requires ShapedAt(w, a, k)
    ensures MatchAt(w, 0) == Some(|w|)
  {
    RunEndUnique(w, 0, a, IsLocalChar);
    forall i | a + 1 <= i < |w| ensures IsDomainChar(w[i]) {
    }
    RunEndUnique(w, a + 1, |w|, IsDomainChar);
    assert IsTldDot(w, k);
    LastTldDotUnique(w, a + 2, |w|, k);
    RunEndUnique(w, k + 1, |w|, IsPatternLetter);
  }

  /** A match on its own is found again, and nothing else with it. */
  lemma FindAllOfMatch(t: string, m: string)
    requires IsMatchIn(t, m)
    ensures FindAll(m, 0) == [m]
  {
    var s: nat :| MatchFrom(t, s, m);
    MatchAtIdempotent(t, s);
    assert m[0..|m|] == m;
  }

  // ---------------------------------------------------------------- consequences for the filters

  /** A shaped string has exactly one '@': it splits into the local part and a domain of four or more characters. */
  lemma ShapedSplit(m: string, a: nat, k: nat)
    requires ShapedAt(m, a, k)
    ensures Split(m, '@') == [m[..a], m[a + 1..]]
    ensures |m[a + 1..]| >= 4
  {
    assert m == m[..a] + ['@'] + m[a + 1..];
    assert '@' !in m[..a] by {
      forall i | 0 <= i < a ensures m[..a][i] != '@' { assert IsLocalChar(m[i]); }
    }
    var d := m[a + 1..];
    assert '@' !in d by {
      forall i | 0 <= i < |d| ensures d[i] != '@' { assert d[i] == m[a + 1 + i]; }
    }
    SplitAfterFirst(m[..a], m[a + 1..], '@');
    SplitNoSeparator(m[a + 1..], '@');
  }

  /** Lower-casing keeps the shape: the character classes are closed under ASCII lower-casing. */
  lemma ShapedLower(m: string, a: nat, k: nat)
    requires ShapedAt(m, a, k)
    ensures ShapedAt(Lower(m), a, k)
  {
  }

  // ---------------------------------------------------------------- examples

  /** A one-letter top-level domain is no match. */
  lemma FindAllShortTld()
    ensures FindAll("x@y.z", 0) == []
  {
    assert RunEnd("x@y.z", 0, IsLocalChar) == 1 by { RunEndUnique("x@y.z", 0, 1, IsLocalChar); }
    assert RunEnd("x@y.z", 2, IsDomainChar) == 5 by { RunEndUnique("x@y.z", 2, 5, IsDomainChar); }
    assert MatchAt("x@y.z", 0) == None;
    assert RunEnd("x@y.z", 1, IsLocalChar) == 1;
    assert RunEnd("x@y.z", 2, IsLocalChar) == 5 by { RunEndUnique("x@y.z", 2, 5, IsLocalChar); }
    assert RunEnd("x@y.z", 3, IsLocalChar) == 5 by { RunEndUnique("x@y.z", 3, 5, IsLocalChar); }
    assert RunEnd("x@y.z", 4, IsLocalChar) == 5 by { RunEndUnique("x@y.z", 4, 5, IsLocalChar); }
  }

  /** The domain gives back ".d", whose single letter cannot be a top-level domain, and stops before ".cc". */
  lemma FindAllBacktracks()
    ensures MatchAt("a@b.cc.d", 0) == Some(6)
  {
    var t := "a@b.cc.d";
    RunEndUnique(t, 0, 1, IsLocalChar);
    RunEndUnique(t, 2, 8, IsDomainChar);
    assert !IsTldDot(t, 6) && !IsTldDot(t, 7) && !IsTldDot(t, 5) && !IsTldDot(t, 4);
    assert IsTldDot(t, 3);
    LastTldDotUnique(t, 3, 8, 3);
    RunEndUnique(t, 4, 6, IsPatternLetter);
  }

  /** Under `re.IGNORECASE` the long s (U+017F) is a letter of the local part: the whole text is one match. */
  lemma FindAllLongS()
    ensures FindAll("\U{17F}a@bc.kr", 0) == ["\U{17F}a@bc.kr"]
  {
    var w := "\U{17F}a@bc.kr";
    assert ShapedAt(w, 2, 5);
    ShapedMatchesWhole(w, 2, 5);
    FindAllFound(w, 0);
    assert w[0..|w|] == w;
  }

  /** The Kelvin sign (U+212A) is a letter of the top-level domain, which a case-insensitive `k` matches. */
  lemma FindAllKelvinSign()
    ensures FindAll("hr@corp.\U{212A}r", 0) == ["hr@corp.\U{212A}r"]
  {
    var w := "hr@corp.\U{212A}r";
    assert ShapedAt(w, 2, 7);
    ShapedMatchesWhole(w, 2, 7);
    FindAllFound(w, 0);
    assert w[0..|w|] == w;
  }
}
