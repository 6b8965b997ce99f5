/**
 * The handful of Foundation string operations the app relies on, over
 * `string` = `seq<char>` (one `char` per Unicode scalar value):
 * character sets, `lowercased()`, `hasPrefix`, `contains`, `range(of:)`,
 * `trimmingCharacters(in:)`, `components(separatedBy:)`, `joined(separator:)`,
 * `replacingOccurrences(of:with:)` and decimal rendering of integers.
 */
module Text {
  import opened Wrappers

  // ---------------------------------------------------------------------------
  // Character classes

  /** Foundation's `CharacterSet.whitespaces` and `CharacterSet.whitespacesAndNewlines`. */
  datatype CharClass = Whitespaces | WhitespacesAndNewlines

  /** Tab and the Unicode space separators (general category Zs). */
  predicate IsSpaceSeparator(c: char) {
    || c == '\t' || c == ' ' || c == '\U{00A0}' || c == '\U{1680}'
    || ('\U{2000}' <= c <= '\U{200A}')
    || c == '\U{202F}' || c == '\U{205F}' || c == '\U{3000}'
  }

  /** Line feed through carriage return, NEL, and the line and paragraph separators. */
  predicate IsNewline(c: char) {
    ('\n' <= c <= '\r') || c == '\U{0085}' || c == '\U{2028}' || c == '\U{2029}'
  }

  predicate InClass(c: char, cls: CharClass) {
    match cls
    case Whitespaces => IsSpaceSeparator(c)
    case WhitespacesAndNewlines => IsSpaceSeparator(c) || IsNewline(c)
  }

  // ---------------------------------------------------------------------------
  // Lower-casing (ASCII and the basic Cyrillic block)

  predicate IsUpper(c: char) {
    ('A' <= c <= 'Z') || ('\U{0400}' <= c <= '\U{042F}')
  }

  /** Maps A-Z to a-z, А-Я to а-я and Ѐ-Џ (Ё among them) to ѐ-џ; every other character is kept. */
  function LowerChar(c: char): (r: char)
    ensures !IsUpper(r)
    ensures !IsUpper(c) ==> r == c
  {
    if 'A' <= c <= 'Z' then (c as int + 32) as char
    else if '\U{0410}' <= c <= '\U{042F}' then (c as int + 32) as char
    else if '\U{0400}' <= c <= '\U{040F}' then (c as int + 80) as char
    else c
  }

  /** `lowercased()`, character by character. */
  function Lower(s: string): (r: string)
    ensures |r| == |s|
    ensures forall k :: 0 <= k < |s| ==> r[k] == LowerChar(s[k])
  {
    seq(|s|, k requires 0 <= k < |s| => LowerChar(s[k]))
  }

  // ---------------------------------------------------------------------------
  // Prefixes and occurrences

  /** `s.hasPrefix(p)` */
  predicate StartsWith(s: string, p: string) {
    |p| <= |s| && s[..|p|] == p
  }

  /** `pat` occurs in `s` starting at index `k`. */
  predicate OccursAt(s: string, pat: string, k: int) {
    0 <= k && k + |pat| <= |s| && s[k..k + |pat|] == pat
  }

  lemma OccursAtTail(s: string, pat: string)
    requires |s| > 0
    ensures forall j {:trigger OccursAt(s, pat, j)} :: 1 <= j ==> (OccursAt(s, pat, j) <==> OccursAt(s[1..], pat, j - 1))
  {
    forall j | 1 <= j
      ensures OccursAt(s, pat, j) <==> OccursAt(s[1..], pat, j - 1)
    {
      if j + |pat| <= |s| {
        var a, b := s[j..j + |pat|], s[1..][j - 1..j - 1 + |pat|];
        assert |a| == |b|;
        forall m | 0 <= m < |a| ensures a[m] == b[m] {
          assert a[m] == s[j + m];
          assert b[m] == s[1..][j - 1 + m];
        }
        assert a == b;
      }
    }
  }

  /** `s.range(of: pat)`: the start of the first occurrence of `pat`, if any. */
  function IndexOf(s: string, pat: string): (r: Option<nat>)
    ensures r.Some? ==> OccursAt(s, pat, r.value)
    ensures r.Some? ==> forall j :: 0 <= j < r.value ==> !OccursAt(s, pat, j)
    ensures r.None? ==> forall j :: !OccursAt(s, pat, j)
    decreases |s|
  {
    if StartsWith(s, pat) then Some(0)
    else if |s| == 0 then None
    else
      OccursAtTail(s, pat);
      match IndexOf(s[1..], pat)
      case Some(k) => Some(k + 1)
      case None => None
  }

  /** `s.contains(pat)` */
  predicate Contains(s: string, pat: string) {
    IndexOf(s, pat).Some?
  }

  lemma OccursInMiddle(a: string, t: string, b: string)
    ensures OccursAt(a + t + b, t, |a|)
  {
    assert (a + t + b)[|a|..|a| + |t|] == t;
  }

  lemma OccursShiftRight(a: string, s: string, t: string, k: int)
    requires OccursAt(s, t, k)
    ensures OccursAt(a + s, t, |a| + k)
  {
    assert (a + s)[|a| + k..|a| + k + |t|] == s[k..k + |t|];
  }

  /** A pattern longer than the text cannot occur in it. */
  lemma NotContainsLonger(s: string, pat: string)
    requires |pat| > |s|
    ensures !Contains(s, pat)
  {
  }

  lemma AppendAssociative(a: string, b: string, c: string)
    ensures a + (b + c) == (a + b) + c
  {
  }

  /** An occurrence inside a suffix is an occurrence in the whole text. */
  lemma OccursInSuffix(s: string, j: nat, pat: string, k: int)
    requires j <= |s| && OccursAt(s[j..], pat, k)
    ensures OccursAt(s, pat, j + k)
  {
    var a := s[j..][k..k + |pat|];
    var b := s[j + k..j + k + |pat|];
    forall m | 0 <= m < |pat| ensures a[m] == b[m] {
      assert a[m] == s[j + k + m];
    }
    assert a == b;
  }

  lemma OccursContains(s: string, pat: string, k: int)
    requires OccursAt(s, pat, k)
    ensures Contains(s, pat)
  {
  }

  /** A text that literally contains `t` between two other pieces contains `t`. */
  lemma ContainsMiddle(a: string, t: string, b: string)
    ensures Contains(a + t + b, t)
  {
    OccursInMiddle(a, t, b);
  }

  lemma ContainsSecond(a: string, t: string, b: string, c: string)
    ensures Contains(a + t + b + c, t)
  {
    assert a + t + b + c == a + t + (b + c);
    ContainsMiddle(a, t, b + c);
  }

  /** Two texts that differ at a position inside `p` cannot both start with `p`. */
  lemma NotStartsWithAt(s: string, p: string, i: nat)
    requires i < |p| && i < |s| && s[i] != p[i]
    ensures !StartsWith(s, p)
  {
    if |p| <= |s| {
      assert s[..|p|][i] != p[i];
    }
  }

  // ---------------------------------------------------------------------------
  // Trimming

  function TrimStart(s: string, cls: CharClass): (r: string)
    ensures |r| <= |s| && r == s[|s| - |r|..]
    ensures forall k :: 0 <= k < |s| - |r| ==> InClass(s[k], cls)
    ensures r == [] || !InClass(r[0], cls)
    decreases |s|
  {
    if |s| > 0 && InClass(s[0], cls) then TrimStart(s[1..], cls) else s
  }

  function TrimEnd(s: string, cls: CharClass): (r: string)
    ensures |r| <= |s| && r == s[..|r|]
    ensures forall k :: |r| <= k < |s| ==> InClass(s[k], cls)
    ensures r == [] || !InClass(r[|r| - 1], cls)
    decreases |s|
  {
    if |s| > 0 && InClass(s[|s| - 1], cls) then TrimEnd(s[..|s| - 1], cls) else s
  }

  /** `r` is the slice of `s` that starts at `i`. */
  predicate SliceAt(r: string, s: string, i: int) {
    0 <= i && i + |r| <= |s| && r == s[i..i + |r|]
  }

  /** `trimmingCharacters(in:)`: the slice of `s` left once characters of `cls` are cut from both ends. */
  function Trim(s: string, cls: CharClass): (r: string)
    ensures r == [] <==> forall k :: 0 <= k < |s| ==> InClass(s[k], cls)
    ensures r == [] || (!InClass(r[0], cls) && !InClass(r[|r| - 1], cls))
    ensures exists i :: TrimmedAt(r, s, i, cls)
  {
    var t := TrimStart(s, cls);
    TrimSlice(s, t, TrimEnd(t, cls), cls);
    TrimEmpty(s, t, TrimEnd(t, cls), cls);
    TrimEnd(t, cls)
  }

  /** `r` is the slice of `s` at `i`, and everything before and after it belongs to `cls`. */
  predicate TrimmedAt(r: string, s: string, i: int, cls: CharClass) {
    && SliceAt(r, s, i)
    && (forall k :: 0 <= k < i ==> InClass(s[k], cls))
    && (forall k :: i + |r| <= k < |s| ==> InClass(s[k], cls))
  }

  lemma TrimSlice(s: string, t: string, r: string, cls: CharClass)
    requires t == TrimStart(s, cls) && r == TrimEnd(t, cls)
    ensures TrimmedAt(r, s, |s| - |t|, cls)
  {
    var i := |s| - |t|;
    assert t == s[i..];
    assert r == t[..|r|];
    SliceOfSuffix(s, i, |r|);
    assert SliceAt(r, s, i);
    assert forall k :: 0 <= k < i ==> InClass(s[k], cls);
    SuffixInClass(s, t, i, |r|, cls);
    assert forall k :: i + |r| <= k < |s| ==> InClass(s[k], cls);
  }

  /** What `cls` covers at the end of the suffix `t` of `s` it covers in `s`. */
  lemma SuffixInClass(s: string, t: string, i: nat, n: nat, cls: CharClass)
    requires i <= |s| && t == s[i..] && n <= |t|
    requires forall k :: n <= k < |t| ==> InClass(t[k], cls)
    ensures forall k :: i + n <= k < |s| ==> InClass(s[k], cls)
  {
    forall k | i + n <= k < |s| ensures InClass(s[k], cls) {
      assert s[k] == t[k - i];
    }
  }

  /**
   * Trimming is determined by what it promises: a slice with only `cls`
   * characters around it and none at its ends is the trimmed text.
   */
  lemma TrimUnique(s: string, cls: CharClass, r: string, i: int)
    requires TrimmedAt(r, s, i, cls)
    requires r == [] || (!InClass(r[0], cls) && !InClass(r[|r| - 1], cls))
    ensures r == Trim(s, cls)
  {
    if r == [] {
      EmptyTrimmedAll(s, cls, i);
    } else {
      var t := Trim(s, cls);
      var j :| TrimmedAt(t, s, j, cls);
      OtherTrimmedNonEmpty(s, cls, r, i, t, j);
      SameTrimmedSlice(s, cls, r, i, t, j);
    }
  }

  lemma EmptyTrimmedAll(s: string, cls: CharClass, i: int)
    requires TrimmedAt([], s, i, cls)
    ensures forall k :: 0 <= k < |s| ==> InClass(s[k], cls)
  {
    forall k | 0 <= k < |s| ensures InClass(s[k], cls) {
      if k >= i {}
    }
  }

  /** A character outside `cls` at the start of one trimmed slice keeps any other trimmed slice from being empty. */
  lemma OtherTrimmedNonEmpty(s: string, cls: CharClass, r: string, i: int, t: string, j: int)
    requires TrimmedAt(r, s, i, cls) && TrimmedAt(t, s, j, cls)
    requires r != [] && !InClass(r[0], cls)
    ensures t != []
  {
    assert s[i] == r[0];
    if i >= j {}
  }

  lemma SameTrimmedSlice(s: string, cls: CharClass, r: string, i: int, t: string, j: int)
    requires TrimmedAt(r, s, i, cls) && TrimmedAt(t, s, j, cls)
    requires r != [] && !InClass(r[0], cls) && !InClass(r[|r| - 1], cls)
    requires t != [] && !InClass(t[0], cls) && !InClass(t[|t| - 1], cls)
    ensures r == t
  {
    assert s[i] == r[0] && s[i + |r| - 1] == r[|r| - 1];
    assert s[j] == t[0] && s[j + |t| - 1] == t[|t| - 1];
    SameFirstOutside(s, cls, i, j);
    SameLastOutside(s, cls, i + |r|, j + |t|);
  }

  /** Two positions outside `cls`, each with only `cls` before it, are the same position. */
  lemma SameFirstOutside(s: string, cls: CharClass, i: nat, j: nat)
    requires i < |s| && j < |s| && !InClass(s[i], cls) && !InClass(s[j], cls)
    requires forall k :: 0 <= k < i ==> InClass(s[k], cls)
    requires forall k :: 0 <= k < j ==> InClass(s[k], cls)
    ensures i == j
  {
  }

  /** Two ends with a character outside `cls` before each and only `cls` after each are the same end. */
  lemma SameLastOutside(s: string, cls: CharClass, a: nat, b: nat)
    requires 0 < a <= |s| && 0 < b <= |s| && !InClass(s[a - 1], cls) && !InClass(s[b - 1], cls)
    requires forall k :: a <= k < |s| ==> InClass(s[k], cls)
    requires forall k :: b <= k < |s| ==> InClass(s[k], cls)
    ensures a == b
  {
  }

  lemma SliceOfSuffix(s: string, i: nat, n: nat)
    requires i + n <= |s|
    ensures s[i..][..n] == s[i..i + n]
  {
    var a, b := s[i..][..n], s[i..i + n];
    forall m | 0 <= m < n ensures a[m] == b[m] {
      assert a[m] == s[i + m];
    }
    assert a == b;
  }

  lemma TrimEmpty(s: string, t: string, r: string, cls: CharClass)
    requires t == TrimStart(s, cls) && r == TrimEnd(t, cls)
    ensures r == [] <==> forall k :: 0 <= k < |s| ==> InClass(s[k], cls)
  {
    var i := |s| - |t|;
    if t == [] {
      assert r == [];
    } else {
      assert t[0] == s[i] && !InClass(s[i], cls);
      assert r != [] by {
        assert !InClass(t[0], cls);
      }
    }
  }

  // ---------------------------------------------------------------------------
  // Splitting and joining

  /** Index of the first character of `s` that belongs to `cls`. */
  function FirstInClass(s: string, cls: CharClass): (r: Option<nat>)
    ensures r.Some? ==> r.value < |s| && InClass(s[r.value], cls)
    ensures r.Some? ==> forall k :: 0 <= k < r.value ==> !InClass(s[k], cls)
    ensures r.None? ==> forall k :: 0 <= k < |s| ==> !InClass(s[k], cls)
    decreases |s|
  {
    if |s| == 0 then None
    else if InClass(s[0], cls) then Some(0)
    else match FirstInClass(s[1..], cls)
      case Some(k) => Some(k + 1)
      case None => None
  }

  /**
   * `components(separatedBy:)`: the pieces between separator characters, empty
   * pieces included; the empty string gives one empty piece.
   */
  function Split(s: string, cls: CharClass): (r: seq<string>)
    ensures |r| >= 1
    ensures forall i, k :: 0 <= i < |r| && 0 <= k < |r[i]| ==> !InClass(r[i][k], cls)
    ensures |r[0]| <= |s| && r[0] == s[..|r[0]|]
    ensures |r[0]| == |s| || InClass(s[|r[0]|], cls)
    decreases |s|
  {
    match FirstInClass(s, cls)
    case None => [s]
    case Some(k) => [s[..k]] + Split(s[k + 1..], cls)
  }

  /** `joined(separator:)` */
  function Join(xs: seq<string>, sep: string): string
    decreases |xs|
  {
    if |xs| == 0 then ""
    else if |xs| == 1 then xs[0]
    else xs[0] + sep + Join(xs[1..], sep)
  }

  /** Splitting on spaces and joining the pieces with a space gives the text back. */
  lemma {:induction false} SplitJoinRoundTrip(s: string)
    requires forall k :: 0 <= k < |s| && InClass(s[k], Whitespaces) ==> s[k] == ' '
    ensures Join(Split(s, Whitespaces), " ") == s
    decreases |s|
  {
    match FirstInClass(s, Whitespaces)
    case None =>
    case Some(k) =>
      var rest := s[k + 1..];
      forall j | 0 <= j < |rest| && InClass(rest[j], Whitespaces) ensures rest[j] == ' ' {
        assert rest[j] == s[k + 1 + j];
      }
      SplitJoinRoundTrip(rest);
      var pieces := [s[..k]] + Split(rest, Whitespaces);
      assert pieces[1..] == Split(rest, Whitespaces);
      assert Join(pieces, " ") == s[..k] + " " + rest;
      assert s == s[..k] + [s[k]] + rest;
  }

  /** `s` with every character of `cls` replaced by a space. */
  function MarkSeparators(s: string, cls: CharClass): (r: string)
    ensures |r| == |s|
    ensures forall k :: 0 <= k < |s| ==> r[k] == (if InClass(s[k], cls) then ' ' else s[k])
  {
    seq(|s|, k requires 0 <= k < |s| => if InClass(s[k], cls) then ' ' else s[k])
  }

  /**
   * Joining the pieces with a space gives the text with each separator turned
   * into a space. As no piece holds a space, this fixes every piece and their
   * number: one more than the separators.
   */
  lemma {:induction false} SplitJoinMarks(s: string, cls: CharClass)
    ensures Join(Split(s, cls), " ") == MarkSeparators(s, cls)
    decreases |s|
  {
    var m := MarkSeparators(s, cls);
    match FirstInClass(s, cls)
    case None =>
      assert Join(Split(s, cls), " ") == s;
      forall j | 0 <= j < |s| ensures m[j] == s[j] {
        assert !InClass(s[j], cls);
      }
      assert m == s;
    case Some(k) =>
      var rest := s[k + 1..];
      SplitJoinMarks(rest, cls);
      var pieces := [s[..k]] + Split(rest, cls);
      assert pieces[1..] == Split(rest, cls);
      var joined := s[..k] + " " + MarkSeparators(rest, cls);
      assert Join(pieces, " ") == joined;
      forall j | 0 <= j < |s| ensures joined[j] == m[j] {
        if j > k {
          assert joined[j] == MarkSeparators(rest, cls)[j - k - 1];
          assert rest[j - k - 1] == s[j];
        }
      }
      assert joined == m;
  }

  /** Where element `i` starts inside `Join(xs, sep)`. */
  function JoinOffset(xs: seq<string>, sep: string, i: nat): nat
    requires i <= |xs|
    decreases i
  {
    if i == 0 then 0 else |xs[0]| + |sep| + JoinOffset(xs[1..], sep, i - 1)
  }

  lemma {:induction false} JoinOffsetStep(xs: seq<string>, sep: string, i: nat)
    requires i < |xs|
    ensures JoinOffset(xs, sep, i + 1) == JoinOffset(xs, sep, i) + |xs[i]| + |sep|
    decreases i
  {
    if i > 0 {
      JoinOffsetStep(xs[1..], sep, i - 1);
    }
  }

  /** Consecutive elements sit in order inside the joined text. */
  lemma {:induction false} JoinOffsetMonotone(xs: seq<string>, sep: string, i: nat, j: nat)
    requires i < j <= |xs|
    ensures JoinOffset(xs, sep, i) + |xs[i]| + |sep| <= JoinOffset(xs, sep, j)
    decreases j - i
  {
    JoinOffsetStep(xs, sep, i);
    if i + 1 < j {
      JoinOffsetMonotone(xs, sep, i + 1, j);
    }
  }

  /** Element `i` occurs at its offset, followed by `sep` unless it is the last one. */
  lemma {:induction false} JoinElementAt(xs: seq<string>, sep: string, i: nat)
    requires i < |xs|
    ensures OccursAt(Join(xs, sep), xs[i], JoinOffset(xs, sep, i))
    ensures i + 1 < |xs| ==> OccursAt(Join(xs, sep), sep, JoinOffset(xs, sep, i) + |xs[i]|)
    decreases i
  {
    if |xs| == 1 {
      assert Join(xs, sep)[0..|xs[0]|] == xs[0];
    } else if i == 0 {
      OccursInMiddle([], xs[0], sep + Join(xs[1..], sep));
      assert [] + xs[0] + (sep + Join(xs[1..], sep)) == Join(xs, sep);
      OccursInMiddle(xs[0], sep, Join(xs[1..], sep));
    } else {
      var tail := Join(xs[1..], sep);
      JoinElementAt(xs[1..], sep, i - 1);
      OccursShiftRight(xs[0] + sep, tail, xs[i], JoinOffset(xs[1..], sep, i - 1));
      if i + 1 < |xs| {
        OccursShiftRight(xs[0] + sep, tail, sep, JoinOffset(xs[1..], sep, i - 1) + |xs[i]|);
      }
    }
  }

  /** An element of a joined list appears in any text that ends with the list. */
  lemma JoinContainsAfter(a: string, xs: seq<string>, sep: string, i: nat)
    requires i < |xs|
    ensures Contains(a + Join(xs, sep), xs[i])
  {
    JoinElementAt(xs, sep, i);
    OccursShiftRight(a, Join(xs, sep), xs[i], JoinOffset(xs, sep, i));
    OccursContains(a + Join(xs, sep), xs[i], |a| + JoinOffset(xs, sep, i));
  }

  // ---------------------------------------------------------------------------
  // Replacing

  /** `replacingOccurrences(of: pat, with: "")`: occurrences are removed left to right, without overlap. */
  function RemoveAll(s: string, pat: string): (r: string)
    ensures |r| <= |s|
    decreases |s|
  {
    if |pat| == 0 || |s| == 0 then s
    else if StartsWith(s, pat) then RemoveAll(s[|pat|..], pat)
    else [s[0]] + RemoveAll(s[1..], pat)
  }

  /** Removing a non-empty pattern from itself leaves nothing. */
  lemma RemoveAllSelf(pat: string)
    requires |pat| > 0
    ensures RemoveAll(pat, pat) == []
  {
    assert pat[..|pat|] == pat;
    assert pat[|pat|..] == [];
  }

  /** A text without the pattern is left as it is. */
  lemma {:induction false} RemoveAllAbsent(s: string, pat: string)
    requires !Contains(s, pat)
    ensures RemoveAll(s, pat) == s
    decreases |s|
  {
    if |pat| > 0 && |s| > 0 {
      assert !OccursAt(s, pat, 0);
      OccursAtTail(s, pat);
      forall j | 0 <= j ensures !OccursAt(s[1..], pat, j) {
        assert !OccursAt(s, pat, j + 1);
      }
      RemoveAllAbsent(s[1..], pat);
      assert s == [s[0]] + s[1..];
    }
  }

  // ---------------------------------------------------------------------------
  // Decimal integers

  predicate IsDigit(c: char) {
    '0' <= c <= '9'
  }

  predicate AllDigits(s: string) {
    forall k :: 0 <= k < |s| ==> IsDigit(s[k])
  }

  function DigitValue(c: char): nat
    requires IsDigit(c)
  {
    c as int - '0' as int
  }

  function DigitChar(d: nat): (c: char)
    requires d < 10
    ensures IsDigit(c) && DigitValue(c) == d
  {
    ('0' as int + d) as char
  }

  /** Swift's `"\(n)"` for a non-negative `Int`: decimal digits, no leading zeros. */
  function NatToString(n: nat): (r: string)
    ensures |r| >= 1 && AllDigits(r)
    decreases n
  {
    if n < 10 then [DigitChar(n)] else NatToString(n / 10) + [DigitChar(n % 10)]
  }

  /** Swift's `"\(n)"` for an `Int`. */
  function IntToString(n: int): (r: string)
    ensures |r| >= 1
    ensures n >= 0 ==> AllDigits(r)
    ensures n < 0 ==> r[0] == '-' && AllDigits(r[1..])
  {
    if n < 0 then "-" + NatToString(-n) else NatToString(n)
  }

  /** The value of a run of decimal digits. */
  function DigitsValue(s: string): nat
    requires AllDigits(s)
    decreases |s|
  {
    if |s| == 0 then 0 else 10 * DigitsValue(s[..|s| - 1]) + DigitValue(s[|s| - 1])
  }

  /** Length of the longest all-digit prefix of `s`. */
  function DigitRun(s: string): (k: nat)
    ensures k <= |s| && AllDigits(s[..k])
    ensures k == |s| || !IsDigit(s[k])
    decreases |s|
  {
    if |s| > 0 && IsDigit(s[0]) then
      var k := 1 + DigitRun(s[1..]);
      assert s[..k] == [s[0]] + s[1..][..k - 1];
      k
    else 0
  }

  /** Reads the integer written at the start of `s`: an optional `-`, then a run of digits. */
  function ParseLeadingInt(s: string): Option<int> {
    if |s| > 0 && s[0] == '-' then
      var k := DigitRun(s[1..]);
      var v: int := -(DigitsValue(s[1..][..k]) as int);
      if k == 0 then None else Some(v)
    else
      var k := DigitRun(s);
      if k == 0 then None else Some(DigitsValue(s[..k]))
  }

  lemma {:induction false} NatToStringValue(n: nat)
    ensures DigitsValue(NatToString(n)) == n
    decreases n
  {
    if n >= 10 {
      var s := NatToString(n);
      NatToStringValue(n / 10);
      assert s[..|s| - 1] == NatToString(n / 10);
    }
  }

  lemma {:induction false} DigitRunOfDigits(d: string, rest: string)
    requires AllDigits(d)
    requires rest == [] || !IsDigit(rest[0])
    ensures DigitRun(d + rest) == |d|
    decreases |d|
  {
    if |d| > 0 {
      assert (d + rest)[1..] == d[1..] + rest;
      DigitRunOfDigits(d[1..], rest);
    }
  }

  /** The digits of a rendered natural number, followed by non-digit text, are read back as the number. */
  lemma NatToStringReadsBack(m: nat, rest: string)
    requires rest == [] || !IsDigit(rest[0])
    ensures var d := NatToString(m);
      && DigitRun(d + rest) == |d|
      && (d + rest)[..|d|] == d
      && DigitsValue(d) == m
      && IsDigit((d + rest)[0])
  {
    var d := NatToString(m);
    DigitRunOfDigits(d, rest);
    assert (d + rest)[..|d|] == d;
    NatToStringValue(m);
  }

  lemma NatToStringParses(m: nat, rest: string)
    requires rest == [] || !IsDigit(rest[0])
    ensures ParseLeadingInt(NatToString(m) + rest) == Some(m)
  {
    NatToStringReadsBack(m, rest);
  }

  lemma NegativeParses(m: nat, rest: string)
    requires rest == [] || !IsDigit(rest[0])
    ensures ParseLeadingInt("-" + (NatToString(m) + rest)) == Some(-(m as int))
  {
    var t := NatToString(m) + rest;
    assert ("-" + t)[0] == '-';
    assert ("-" + t)[1..] == t;
    NatToStringReadsBack(m, rest);
  }

  /** Reading back a rendered integer gives the integer, whatever non-digit text follows it. */
  lemma IntToStringParses(n: int, rest: string)
    requires rest == [] || !IsDigit(rest[0])
    ensures ParseLeadingInt(IntToString(n) + rest) == Some(n)
  {
    if n < 0 {
      AppendAssociative("-", NatToString(-n), rest);
      NegativeParses(-n, rest);
    } else {
      NatToStringParses(n, rest);
    }
  }

  /** Distinct integers render as distinct texts. */
  lemma IntToStringInjective(a: int, b: int)
    requires IntToString(a) == IntToString(b)
    ensures a == b
  {
    IntToStringParses(a, "");
    IntToStringParses(b, "");
    assert IntToString(a) + "" == IntToString(a);
    assert IntToString(b) + "" == IntToString(b);
  }
}
