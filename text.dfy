/** String helpers shared by the controllers and view models.

    The .NET methods used by the source (`ToLower`, `ToUpper`, `Trim`,
    `string.IsNullOrWhiteSpace`, `Contains`, `Replace`, ordinal-ignore-case
    equality, the default string order) are modelled on ASCII: case folding
    maps only 'A'..'Z' / 'a'..'z', white space is the set of `char.IsWhiteSpace`
    (U+0009..U+000D, U+0020, U+0085, U+00A0, U+1680, U+2000..U+200A, U+2028,
    U+2029, U+202F, U+205F, U+3000), and the string order is the ordinal (code-point) lexicographic
    order. Culture-sensitive collation is not modelled. */
module Text {
  import opened Wrappers

  // ---------------------------------------------------------------- characters

  /** `char.IsWhiteSpace`: the space separators, the line and paragraph
      separators, the control characters tab to carriage return, and U+0085. */
  predicate IsWhiteSpace(c: char) {
    || ('\t' <= c <= '\r') || c == ' ' || c == '\U{0085}' || c == '\U{00A0}' || c == '\U{1680}'
    || ('\U{2000}' <= c <= '\U{200A}') || c == '\U{2028}' || c == '\U{2029}'
    || c == '\U{202F}' || c == '\U{205F}' || c == '\U{3000}'
  }

  function LowerChar(c: char): (r: char)
    ensures 'A' <= c <= 'Z' ==> 'a' <= r <= 'z' && r as int - 'a' as int == c as int - 'A' as int
    ensures !('A' <= c <= 'Z') ==> r == c
  {
    if 'A' <= c <= 'Z' then (c as int + 32) as char else c
  }

  function UpperChar(c: char): (r: char)
    ensures 'a' <= c <= 'z' ==> 'A' <= r <= 'Z' && r as int - 'A' as int == c as int - 'a' as int
    ensures !('a' <= c <= 'z') ==> r == c
  {
    if 'a' <= c <= 'z' then (c as int - 32) as char else c
  }

  // ---------------------------------------------------------------- strings

  /** `s.ToLower()` */
  function ToLower(s: string): (r: string)
    ensures |r| == |s|
    ensures forall i :: 0 <= i < |s| ==> r[i] == LowerChar(s[i])
  {
    if s == [] then [] else [LowerChar(s[0])] + ToLower(s[1..])
  }

  /** `s.ToUpper()` */
  function ToUpper(s: string): (r: string)
    ensures |r| == |s|
    ensures forall i :: 0 <= i < |s| ==> r[i] == UpperChar(s[i])
  {
    if s == [] then [] else [UpperChar(s[0])] + ToUpper(s[1..])
  }

  /** `a.Equals(b, StringComparison.OrdinalIgnoreCase)` */
  predicate EqualsIgnoreCase(a: string, b: string) {
    ToLower(a) == ToLower(b)
  }

  /** `string.IsNullOrEmpty(s)` */
  predicate IsNullOrEmpty(s: Option<string>) {
    s.None? || s.value == []
  }

  /** `string.IsNullOrWhiteSpace(s)` */
  predicate IsNullOrWhiteSpace(s: Option<string>) {
    s.None? || AllWhiteSpace(s.value)
  }

  predicate AllWhiteSpace(s: string) {
    forall i :: 0 <= i < |s| ==> IsWhiteSpace(s[i])
  }

  /** `s.TrimStart()` */
  function TrimStart(s: string): (r: string)
    ensures |r| <= |s| && r == s[|s| - |r|..]
    ensures r == [] || !IsWhiteSpace(r[0])
    ensures AllWhiteSpace(s[..|s| - |r|])
  {
    if s != [] && IsWhiteSpace(s[0]) then TrimStart(s[1..]) else s
  }

  /** `s.TrimEnd()` */
  function TrimEnd(s: string): (r: string)
    ensures |r| <= |s| && r == s[..|r|]
    ensures r == [] || !IsWhiteSpace(r[|r| - 1])
    ensures AllWhiteSpace(s[|r|..])
  {
    if s != [] && IsWhiteSpace(s[|s| - 1]) then
      var r := TrimEnd(s[..|s| - 1]);
      assert s[|r|..] == s[..|s| - 1][|r|..] + [s[|s| - 1]];
      r
    else s
  }

  /** `s.Trim()`: the string without its leading and trailing white space;
      it is empty exactly for a blank string, and otherwise starts with the
      first character of `s` that is not white space. */
  function Trim(s: string): (r: string)
    ensures r == [] <==> AllWhiteSpace(s)
    ensures r != [] ==> TrimStart(s) != [] && r[0] == TrimStart(s)[0]
    ensures r != [] ==> !IsWhiteSpace(r[0]) && !IsWhiteSpace(r[|r| - 1])
    ensures forall c :: c in r ==> c in s
    ensures exists a, b :: 0 <= a <= b <= |s| && r == s[a..b] && AllWhiteSpace(s[..a]) && AllWhiteSpace(s[b..])
  {
    TrimBlank(s);
    TrimEnds(s);
    TrimMembers(s);
    TrimSlice(s);
    TrimEnd(TrimStart(s))
  }

  /** The trimmed string is the slice of `s` between two blank ends. */
  lemma TrimSlice(s: string)
    ensures var r := TrimEnd(TrimStart(s));
      exists a, b :: 0 <= a <= b <= |s| && r == s[a..b] && AllWhiteSpace(s[..a]) && AllWhiteSpace(s[b..])
  {
    SliceBetweenBlanks(s, TrimStart(s), TrimEnd(TrimStart(s)));
  }

  /** A blank-headed suffix `t` of `s` whose prefix `r` has a blank tail
      makes `r` a slice of `s` between two blank ends. */
  lemma SliceBetweenBlanks(s: string, t: string, r: string)
    requires |t| <= |s| && t == s[|s| - |t|..] && AllWhiteSpace(s[..|s| - |t|])
    requires |r| <= |t| && r == t[..|r|] && AllWhiteSpace(t[|r|..])
    ensures exists a, b :: 0 <= a <= b <= |s| && r == s[a..b] && AllWhiteSpace(s[..a]) && AllWhiteSpace(s[b..])
  {
    var a := |s| - |t|;
    var b := a + |r|;
    PrefixOfSuffix(s, a, |r|);
    BlankTail(s, t, a, |r|);
    assert 0 <= a <= b <= |s| && r == s[a..b] && AllWhiteSpace(s[..a]) && AllWhiteSpace(s[b..]);
  }

  lemma PrefixOfSuffix(s: string, a: int, k: int)
    requires 0 <= a <= |s| && 0 <= k <= |s| - a
    ensures s[a..][..k] == s[a..a + k]
  {
  }

  /** A blank tail of a suffix is a blank tail of the whole. */
  lemma BlankTail(s: string, t: string, a: int, k: int)
    requires 0 <= a <= |s| && t == s[a..] && 0 <= k <= |t|
    requires AllWhiteSpace(t[k..])
    ensures AllWhiteSpace(s[a + k..])
  {
    var b := a + k;
    forall i | 0 <= i < |s| - b ensures IsWhiteSpace(s[b..][i]) {
      assert s[b..][i] == t[k..][i];
    }
  }

  lemma TrimBlank(s: string)
    ensures TrimEnd(TrimStart(s)) == [] <==> AllWhiteSpace(s)
  {
    var t := TrimStart(s);
    TrimStartBlank(s);
    if t != [] {
      assert t[0..] == t;
    }
  }

  lemma TrimEnds(s: string)
    ensures var t := TrimStart(s); var r := TrimEnd(t);
      r != [] ==> r[0] == t[0] && !IsWhiteSpace(r[0]) && !IsWhiteSpace(r[|r| - 1])
  {
    var t := TrimStart(s);
    var r := TrimEnd(t);
    if r != [] {
      assert r[0] == t[..|r|][0];
    }
  }

  lemma TrimMembers(s: string)
    ensures forall c :: c in TrimEnd(TrimStart(s)) ==> c in s
  {
    var t := TrimStart(s);
    SliceMembers(s, |s| - |t|, |s|);
    SliceMembers(t, 0, |TrimEnd(t)|);
  }

  /** Every character of a slice is a character of the whole. */
  lemma SliceMembers(s: string, i: int, j: int)
    requires 0 <= i <= j <= |s|
    ensures forall c :: c in s[i..j] ==> c in s
  {
    forall c | c in s[i..j] ensures c in s {
      var k :| 0 <= k < j - i && s[i..j][k] == c;
      assert s[i + k] == c;
    }
  }

  lemma TrimStartBlank(s: string)
    ensures TrimStart(s) == [] <==> AllWhiteSpace(s)
  {
    var t := TrimStart(s);
    if t == [] {
      assert s[..|s|] == s;
    }
  }

  /** `IsPrefix(t, s)`: `s` starts with `t`. */
  predicate IsPrefix(t: string, s: string) {
    |t| <= |s| && s[..|t|] == t
  }

  /** `s.Contains(t)`: ordinal substring search. */
  predicate Contains(s: string, t: string)
    decreases |s|
  {
    IsPrefix(t, s) || (s != [] && Contains(s[1..], t))
  }

  /** `t` occurs in `s` at offset `i`. */
  predicate OccursAt(s: string, t: string, i: int) {
    0 <= i <= |s| - |t| && s[i..i + |t|] == t
  }

  /** `Contains` holds exactly when `t` occurs at some offset of `s`. */
  lemma {:induction false} ContainsAt(s: string, t: string)
    ensures Contains(s, t) <==> exists i :: OccursAt(s, t, i)
    decreases |s|
  {
    if IsPrefix(t, s) {
      assert OccursAt(s, t, 0);
    } else if s != [] {
      ContainsAt(s[1..], t);
      if exists i :: OccursAt(s, t, i) {
        var i :| OccursAt(s, t, i);
        assert i > 0;
        assert s[1..][i - 1..i - 1 + |t|] == s[i..i + |t|];
        assert OccursAt(s[1..], t, i - 1);
      }
      if Contains(s[1..], t) {
        var i :| OccursAt(s[1..], t, i);
        assert s[1..][i..i + |t|] == s[i + 1..i + 1 + |t|];
        assert OccursAt(s, t, i + 1);
      }
    }
  }

  /** A one-character string occurs only where that character does. */
  lemma ContainsChar(s: string, c: char)
    ensures Contains(s, [c]) ==> c in s
  {
    ContainsAt(s, [c]);
    if Contains(s, [c]) {
      var i :| OccursAt(s, [c], i);
      assert s[i] == s[i..i + 1][0];
    }
  }

  /** Upper-casing introduces no character outside 'A'..'Z'. */
  lemma ToUpperKeepsOut(s: string, c: char)
    requires !('A' <= c <= 'Z') && c !in s
    ensures c !in ToUpper(s)
  {
    forall i | 0 <= i < |s| ensures ToUpper(s)[i] != c {
      assert s[i] != c;
    }
  }

  /** Every string contains the empty string. */
  lemma ContainsEmpty(s: string)
    ensures Contains(s, "")
  {
    assert IsPrefix("", s);
  }

  /** `s.Replace(pattern, replacement)`: one left-to-right pass that replaces
      every non-overlapping occurrence of a non-empty pattern. */
  function ReplaceAll(s: string, pattern: string, replacement: string): (r: string)
    requires pattern != []
    ensures replacement == [] ==> |r| <= |s|
    ensures !Contains(s, pattern) ==> r == s
    ensures forall c :: c in r ==> c in s || c in replacement
    decreases |s|
  {
    if s == [] then []
    else if IsPrefix(pattern, s) then
      var rest := ReplaceAll(s[|pattern|..], pattern, replacement);
      assert forall c :: c in s[|pattern|..] ==> c in s;
      replacement + rest
    else
      var rest := ReplaceAll(s[1..], pattern, replacement);
      assert forall c :: c in s[1..] ==> c in s;
      [s[0]] + rest
  }

  /** When no occurrence of `pattern` starts inside `u`, the pass copies `u`,
      replaces the occurrence that follows it and goes on with the rest. */
  lemma {:induction false} ReplaceAfter(u: string, pattern: string, replacement: string, t: string)
    requires pattern != []
    requires forall i :: 0 <= i < |u| ==> !OccursAt(u + pattern + t, pattern, i)
    ensures ReplaceAll(u + pattern + t, pattern, replacement) ==
      u + replacement + ReplaceAll(t, pattern, replacement)
    decreases |u|
  {
    if u == [] {
      ReplaceAllHit(pattern, replacement, t);
    } else {
      NoOccurrenceShift(u, pattern, t);
      ReplaceAfter(u[1..], pattern, replacement, t);
      ReplaceAfterStep(u, pattern, replacement, t);
    }
  }

  /** One copied character in front of a replaced tail. */
  lemma ReplaceAfterStep(u: string, pattern: string, replacement: string, t: string)
    requires pattern != [] && u != [] && !IsPrefix(pattern, u + pattern + t)
    requires ReplaceAll(u[1..] + pattern + t, pattern, replacement) ==
      u[1..] + replacement + ReplaceAll(t, pattern, replacement)
    ensures ReplaceAll(u + pattern + t, pattern, replacement) ==
      u + replacement + ReplaceAll(t, pattern, replacement)
  {
    var s := u + pattern + t;
    ConsShift(u, pattern, t);
    ReplaceAllSkip(s, pattern, replacement);
    ConsShift(u, replacement, ReplaceAll(t, pattern, replacement));
  }

  /** Splitting off the first character of `u` in `u + a + b`. */
  lemma ConsShift(u: string, a: string, b: string)
    requires u != []
    ensures (u + a + b)[0] == u[0] && (u + a + b)[1..] == u[1..] + a + b
    ensures [u[0]] + (u[1..] + a + b) == u + a + b
  {
  }

  /** The pass replaces an occurrence at the front. */
  lemma ReplaceAllHit(pattern: string, replacement: string, t: string)
    requires pattern != []
    ensures ReplaceAll(pattern + t, pattern, replacement) == replacement + ReplaceAll(t, pattern, replacement)
  {
    var s := pattern + t;
    assert s[..|pattern|] == pattern && s[|pattern|..] == t;
  }

  /** The pass copies a first character that does not start an occurrence. */
  lemma ReplaceAllSkip(s: string, pattern: string, replacement: string)
    requires pattern != [] && s != [] && !IsPrefix(pattern, s)
    ensures ReplaceAll(s, pattern, replacement) == [s[0]] + ReplaceAll(s[1..], pattern, replacement)
  {
  }

  /** `u + pattern + t` does not start with the pattern when `u` is not
      empty, and dropping the first character of `u` keeps the condition. */
  lemma NoOccurrenceShift(u: string, pattern: string, t: string)
    requires u != []
    requires forall i :: 0 <= i < |u| ==> !OccursAt(u + pattern + t, pattern, i)
    ensures var s := u + pattern + t;
      && s != [] && !IsPrefix(pattern, s) && s[0] == u[0] && s[1..] == u[1..] + pattern + t
      && forall i :: 0 <= i < |u| - 1 ==> !OccursAt(u[1..] + pattern + t, pattern, i)
  {
    var s := u + pattern + t;
    assert !OccursAt(s, pattern, 0);
    assert s[0..|pattern|] == s[..|pattern|];
    assert s[1..] == u[1..] + pattern + t;
    forall i | 0 <= i < |u| - 1 ensures !OccursAt(u[1..] + pattern + t, pattern, i) {
      assert !OccursAt(s, pattern, i + 1);
      assert s[1..][i..i + |pattern|] == s[i + 1..i + 1 + |pattern|];
    }
  }

  /** A pattern absent from `u`, and separated from it by characters the
      pattern does not use, is the first occurrence in `u + sep + pattern + t`. */
  lemma ReplaceAfterSeparator(u: string, sep: string, pattern: string, replacement: string, t: string)
    requires pattern != [] && !Contains(u, pattern)
    requires sep != [] && forall c :: c in sep ==> c !in pattern
    ensures ReplaceAll(u + sep + pattern + t, pattern, replacement) ==
      u + sep + replacement + ReplaceAll(t, pattern, replacement)
  {
    forall i | 0 <= i < |u + sep| ensures !OccursAt((u + sep) + pattern + t, pattern, i) {
      NoOccurrenceBefore(u, sep, pattern, t, i);
    }
    assert u + sep + pattern + t == (u + sep) + pattern + t;
    ReplaceAfter(u + sep, pattern, replacement, t);
  }

  lemma NoOccurrenceBefore(u: string, sep: string, pattern: string, t: string, i: int)
    requires pattern != [] && !Contains(u, pattern)
    requires sep != [] && forall c :: c in sep ==> c !in pattern
    requires 0 <= i < |u| + |sep|
    ensures !OccursAt((u + sep) + pattern + t, pattern, i)
  {
    var s := (u + sep) + pattern + t;
    if i + |pattern| <= |u| {
      ContainsAt(u, pattern);
      assert !OccursAt(u, pattern, i);
      assert u[i..i + |pattern|] == s[i..i + |pattern|];
    } else if i + |pattern| <= |s| {
      // the window covers a separator character, which the pattern lacks
      var k := if i < |u| then |u| else i;
      assert sep[k - |u|] in sep;
      assert pattern[k - i] in pattern;
      assert s[i..i + |pattern|][k - i] == sep[k - |u|];
    }
  }

  /** Upper-casing distributes over concatenation. */
  lemma ToUpperAppend(a: string, b: string)
    ensures ToUpper(a + b) == ToUpper(a) + ToUpper(b)
  {
    var l := ToUpper(a + b);
    var r := ToUpper(a) + ToUpper(b);
    forall i | 0 <= i < |l| ensures l[i] == r[i] {
      if i < |a| {
        assert (a + b)[i] == a[i];
      } else {
        assert (a + b)[i] == b[i - |a|];
      }
    }
  }

  /** A string with non-blank ends is its own trimmed form. */
  lemma TrimNonBlankEnds(s: string)
    requires s != [] && !IsWhiteSpace(s[0]) && !IsWhiteSpace(s[|s| - 1])
    ensures Trim(s) == s
  {
    assert TrimStart(s) == s;
  }

  /** A trailing white-space character does not change the trimmed string. */
  lemma TrimBlankTail(s: string, c: char)
    requires IsWhiteSpace(c)
    ensures Trim(s + [c]) == Trim(s)
  {
    if AllWhiteSpace(s) {
      assert AllWhiteSpace(s + [c]);
    } else {
      TrimStartAppend(s, c);
      var t := TrimStart(s);
      calc {
        Trim(s + [c]);
        TrimEnd(TrimStart(s + [c]));
        TrimEnd(t + [c]);
        { assert (t + [c])[..|t + [c]| - 1] == t; }
        TrimEnd(t);
      }
    }
  }

  lemma {:induction false} TrimStartAppend(s: string, c: char)
    requires !AllWhiteSpace(s)
    ensures TrimStart(s + [c]) == TrimStart(s) + [c]
    decreases |s|
  {
    assert (s + [c])[0] == s[0];
    if IsWhiteSpace(s[0]) {
      assert (s + [c])[1..] == s[1..] + [c];
      assert !AllWhiteSpace(s[1..]) by {
        var i :| 0 <= i < |s| && !IsWhiteSpace(s[i]);
        assert s[1..][i - 1] == s[i];
      }
      TrimStartAppend(s[1..], c);
    }
  }

  /** Replacing a single character by nothing removes every occurrence of it. */
  lemma {:induction false} ReplaceCharRemoves(s: string, c: char)
    ensures c !in ReplaceAll(s, [c], "")
    decreases |s|
  {
    if s != [] {
      ReplaceCharRemoves(s[1..], c);
      if !IsPrefix([c], s) {
        assert s[..1] == [s[0]];
      }
    }
  }

  /** Upper-casing twice is upper-casing once. */
  lemma ToUpperIdempotent(s: string)
    ensures ToUpper(ToUpper(s)) == ToUpper(s)
  {
  }

  // ---------------------------------------------------------------- numbers

  function DigitChar(d: int): (c: char)
    requires 0 <= d < 10
    ensures '0' <= c <= '9'
  {
    ('0' as int + d) as char
  }

  /** The decimal digits of `n`, without leading zeros. */
  function NatToString(n: nat): (r: string)
    ensures r != [] && forall i :: 0 <= i < |r| ==> '0' <= r[i] <= '9'
  {
    if n < 10 then [DigitChar(n)] else NatToString(n / 10) + [DigitChar(n % 10)]
  }

  /** `n.ToString()` for an integer, as string interpolation renders it. */
  function IntToString(n: int): (r: string)
    ensures r != []
    ensures n < 0 <==> r[0] == '-'
  {
    if n < 0 then "-" + NatToString(-n) else NatToString(n)
  }

  /** The value of a string of decimal digits. */
  function DigitsValue(s: string): int
    decreases |s|
  {
    if s == [] then 0 else DigitsValue(s[..|s| - 1]) * 10 + (s[|s| - 1] as int - '0' as int)
  }

  lemma {:induction false} NatToStringValue(n: nat)
    ensures DigitsValue(NatToString(n)) == n
  {
    if n >= 10 {
      NatToStringValue(n / 10);
      var s := NatToString(n / 10) + [DigitChar(n % 10)];
      assert s[..|s| - 1] == NatToString(n / 10);
    }
  }

  /** Distinct integers are rendered as distinct strings. */
  lemma IntToStringInjective(a: int, b: int)
    requires IntToString(a) == IntToString(b)
    ensures a == b
  {
    if a < 0 {
      assert IntToString(a)[1..] == NatToString(-a);
      assert IntToString(b)[1..] == NatToString(-b);
      NatToStringValue(-a);
      NatToStringValue(-b);
    } else {
      NatToStringValue(a);
      NatToStringValue(b);
    }
  }

  // ---------------------------------------------------------------- ordering

  /** The result of a three-way comparison. */
  datatype Ordering = Less | Equal | Greater {
    /** The comparison with its arguments swapped. */
    function Flip(): Ordering {
      match this
      case Less => Greater
      case Equal => Equal
      case Greater => Less
    }
  }

  /** `ThenBy`: the second comparison decides only on a tie of the first. */
  function Then(first: Ordering, second: Ordering): Ordering {
    if first == Equal then second else first
  }

  function CompareInts(a: int, b: int): (r: Ordering)
    ensures r == Less <==> a < b
    ensures r == Equal <==> a == b
  {
    if a < b then Less else if a == b then Equal else Greater
  }

  function CompareReals(a: real, b: real): (r: Ordering)
    ensures r == Less <==> a < b
    ensures r == Equal <==> a == b
  {
    if a < b then Less else if a == b then Equal else Greater
  }

  /** Ordinal lexicographic order on strings; a proper prefix comes first. */
  function CompareStrings(a: string, b: string): Ordering
    decreases |a|
  {
    if a == [] && b == [] then Equal
    else if a == [] then Less
    else if b == [] then Greater
    else if a[0] < b[0] then Less
    else if a[0] > b[0] then Greater
    else CompareStrings(a[1..], b[1..])
  }

  /** The default comparer's order on nullable strings: null first. */
  function CompareOptStrings(a: Option<string>, b: Option<string>): Ordering {
    match (a, b)
    case (None, None) => Equal
    case (None, Some(_)) => Less
    case (Some(_), None) => Greater
    case (Some(x), Some(y)) => CompareStrings(x, y)
  }

  lemma {:induction false} CompareStringsFlip(a: string, b: string)
    ensures CompareStrings(b, a) == CompareStrings(a, b).Flip()
    decreases |a|
  {
    if a != [] && b != [] && a[0] == b[0] {
      CompareStringsFlip(a[1..], b[1..]);
    }
  }

  lemma {:induction false} CompareStringsEqual(a: string, b: string)
    ensures CompareStrings(a, b) == Equal <==> a == b
    decreases |a|
  {
    if a != [] && b != [] && a[0] == b[0] {
      CompareStringsEqual(a[1..], b[1..]);
      if a[1..] == b[1..] {
        assert a == [a[0]] + a[1..] && b == [b[0]] + b[1..];
      }
    }
  }

  lemma {:induction false} CompareStringsTrans(a: string, b: string, c: string)
    requires CompareStrings(a, b) != Greater && CompareStrings(b, c) != Greater
    ensures CompareStrings(a, c) != Greater
    decreases |a|
  {
    if a != [] && b != [] && c != [] && a[0] == b[0] == c[0] {
      CompareStringsTrans(a[1..], b[1..], c[1..]);
    }
  }

  lemma CompareOptStringsFlip(a: Option<string>, b: Option<string>)
    ensures CompareOptStrings(b, a) == CompareOptStrings(a, b).Flip()
  {
    if a.Some? && b.Some? { CompareStringsFlip(a.value, b.value); }
  }

  lemma CompareOptStringsTrans(a: Option<string>, b: Option<string>, c: Option<string>)
    requires CompareOptStrings(a, b) != Greater && CompareOptStrings(b, c) != Greater
    ensures CompareOptStrings(a, c) != Greater
  {
    if a.Some? && b.Some? && c.Some? { CompareStringsTrans(a.value, b.value, c.value); }
  }

  lemma CompareOptStringsEqual(a: Option<string>, b: Option<string>)
    ensures CompareOptStrings(a, b) == Equal <==> a == b
  {
    if a.Some? && b.Some? { CompareStringsEqual(a.value, b.value); }
  }
}
