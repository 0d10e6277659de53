/** Text and number helpers shared by the collectors, the loader and the correlator:
    Python's whitespace set and str.strip(), ASCII case mapping, substring search,
    Cypher's replace(), decimal rendering of integers and Python's string order. */
module Text {

  datatype Option<+T> = None | Some(value: T)

  datatype Result<+T, +E> = Ok(value: T) | Err(error: E)

  // ---------------------------------------------------------------------------
  // Whitespace and strip()
  // ---------------------------------------------------------------------------

  /** The characters Python's str.isspace() accepts; str.strip() and the regex
      class \s (on str patterns) use the same set. */
  predicate IsSpace(c: char) {
    || ('\t' <= c <= '\r')
    || ('\U{1C}' <= c <= '\U{1F}')
    || c == ' ' || c == '\U{85}' || c == '\U{A0}' || c == '\U{1680}'
    || ('\U{2000}' <= c <= '\U{200A}')
    || c == '\U{2028}' || c == '\U{2029}' || c == '\U{202F}' || c == '\U{205F}' || c == '\U{3000}'
  }

  /** Drops leading whitespace. */
  function TrimLeft(s: string): (r: string)
    ensures |r| <= |s| && r == s[|s| - |r|..]
    ensures r == [] || !IsSpace(r[0])
  {
    if s != [] && IsSpace(s[0]) then TrimLeft(s[1..]) else s
  }

  /** What TrimLeft drops is whitespace. */
  lemma {:induction false} TrimLeftDropsSpaces(s: string)
    ensures forall i :: 0 <= i < |s| - |TrimLeft(s)| ==> IsSpace(s[i])
    decreases |s|
  {
    if s != [] && IsSpace(s[0]) {
      TrimLeftDropsSpaces(s[1..]);
      assert forall i :: 1 <= i < |s| ==> s[i] == s[1..][i - 1];
    }
  }

  /** Drops trailing whitespace. */
  function TrimRight(s: string): (r: string)
    ensures |r| <= |s| && r == s[..|r|]
    ensures r == [] || !IsSpace(r[|r| - 1])
  {
    if s != [] && IsSpace(s[|s| - 1]) then TrimRight(s[..|s| - 1]) else s
  }

  /** What TrimRight drops is whitespace. */
  lemma {:induction false} TrimRightDropsSpaces(s: string)
    ensures forall i :: |TrimRight(s)| <= i < |s| ==> IsSpace(s[i])
    decreases |s|
  {
    if s != [] && IsSpace(s[|s| - 1]) {
      TrimRightDropsSpaces(s[..|s| - 1]);
    }
  }

  /** Python's str.strip() with no argument. */
  function Strip(s: string): string {
    TrimRight(TrimLeft(s))
  }

  /** r is the piece of s starting at i, and everything around it is whitespace. */
  predicate SliceBetweenSpaces(s: string, r: string, i: int) {
    && 0 <= i <= |s| - |r| && r == s[i..i + |r|]
    && (forall k :: 0 <= k < i ==> IsSpace(s[k]))
    && (forall k :: i + |r| <= k < |s| ==> IsSpace(s[k]))
  }

  /** Strip keeps one contiguous piece of its input, cut only at whitespace. */
  lemma StripIsTrimmedSlice(s: string)
    ensures exists i :: SliceBetweenSpaces(s, Strip(s), i)
  {
    var l := TrimLeft(s);
    var r := TrimRight(l);
    TrimLeftDropsSpaces(s);
    TrimRightDropsSpaces(l);
    SliceOfSuffix(s, l, r, |s| - |l|);
    assert Strip(s) == r;
  }

  /** A prefix r of the suffix l of s, with whitespace before l and after r in l. */
  lemma SliceOfSuffix(s: string, l: string, r: string, i: int)
    requires 0 <= i <= |s| && l == s[i..] && |r| <= |l| && r == l[..|r|]
    requires forall k :: 0 <= k < i ==> IsSpace(s[k])
    requires forall k :: |r| <= k < |l| ==> IsSpace(l[k])
    ensures SliceBetweenSpaces(s, r, i)
  {
    forall k | i + |r| <= k < |s| ensures IsSpace(s[k]) {
      assert s[k] == l[k - i];
    }
  }

  /** The piece Strip keeps neither starts nor ends with whitespace. */
  lemma StripEnds(s: string)
    ensures var r := Strip(s); r == [] || (!IsSpace(r[0]) && !IsSpace(r[|r| - 1]))
  {
    var l := TrimLeft(s);
    var r := TrimRight(l);
    if r != [] {
      assert r[0] == l[0];
    }
  }

  /** A string with no whitespace at either end and no whitespace inside is left
      alone by Strip. */
  lemma StripNoSpace(s: string)
    requires forall k :: 0 <= k < |s| ==> !IsSpace(s[k])
    ensures Strip(s) == s
  {
  }

  // ---------------------------------------------------------------------------
  // Case mapping (ASCII letters only)
  // ---------------------------------------------------------------------------

  function LowerChar(c: char): char {
    if 'A' <= c <= 'Z' then (c as int + 32) as char else c
  }

  function UpperChar(c: char): char {
    if 'a' <= c <= 'z' then (c as int - 32) as char else c
  }

  /** str.lower() restricted to ASCII letters. */
  function Lower(s: string): (r: string)
    ensures |r| == |s|
  {
    seq(|s|, i requires 0 <= i < |s| => LowerChar(s[i]))
  }

  /** str.upper() restricted to ASCII letters. */
  function Upper(s: string): (r: string)
    ensures |r| == |s|
  {
    seq(|s|, i requires 0 <= i < |s| => UpperChar(s[i]))
  }

  /** Lower-casing twice is lower-casing once. */
  lemma LowerIdempotent(s: string)
    ensures Lower(Lower(s)) == Lower(s)
  {
    forall i | 0 <= i < |s| ensures Lower(Lower(s))[i] == Lower(s)[i] {
    }
  }

  /** Upper-casing twice is upper-casing once. */
  lemma UpperIdempotent(s: string)
    ensures Upper(Upper(s)) == Upper(s)
  {
    forall i | 0 <= i < |s| ensures Upper(Upper(s))[i] == Upper(s)[i] {
    }
  }

  /** Lower-casing forgets what upper-casing did: a text and its upper-cased form read the
      same once lower-cased. */
  lemma LowerUpper(s: string)
    ensures Lower(Upper(s)) == Lower(s)
  {
    forall i | 0 <= i < |s| ensures Lower(Upper(s))[i] == Lower(s)[i] {
    }
  }

  /** Upper-casing forgets what lower-casing did. */
  lemma UpperLower(s: string)
    ensures Upper(Lower(s)) == Upper(s)
  {
    forall i | 0 <= i < |s| ensures Upper(Lower(s))[i] == Upper(s)[i] {
    }
  }

  /** Case mapping commutes with cutting a string into pieces. */
  lemma LowerAppend(a: string, b: string)
    ensures Lower(a + b) == Lower(a) + Lower(b)
  {
  }

  /** ASCII case mapping never turns a space into a non-space or back. */
  lemma CaseKeepsSpace(c: char)
    ensures IsSpace(LowerChar(c)) == IsSpace(c)
    ensures IsSpace(UpperChar(c)) == IsSpace(c)
  {
    if 'A' <= c <= 'Z' {
      assert 'a' <= LowerChar(c) <= 'z';
    }
    if 'a' <= c <= 'z' {
      assert 'A' <= UpperChar(c) <= 'Z';
    }
  }

  /** So stripping and case mapping can be done in either order. */
  lemma {:induction false} TrimLeftLower(s: string)
    ensures TrimLeft(Lower(s)) == Lower(TrimLeft(s))
    decreases |s|
  {
    if s != [] {
      CaseKeepsSpace(s[0]);
      assert Lower(s)[0] == LowerChar(s[0]);
      if IsSpace(s[0]) {
        assert Lower(s)[1..] == Lower(s[1..]);
        TrimLeftLower(s[1..]);
      }
    }
  }

  lemma {:induction false} TrimRightLower(s: string)
    ensures TrimRight(Lower(s)) == Lower(TrimRight(s))
    decreases |s|
  {
    if s != [] {
      var n := |s| - 1;
      CaseKeepsSpace(s[n]);
      assert Lower(s)[n] == LowerChar(s[n]);
      if IsSpace(s[n]) {
        assert Lower(s)[..n] == Lower(s[..n]);
        TrimRightLower(s[..n]);
      }
    }
  }

  lemma {:induction false} TrimLeftUpper(s: string)
    ensures TrimLeft(Upper(s)) == Upper(TrimLeft(s))
    decreases |s|
  {
    if s != [] {
      CaseKeepsSpace(s[0]);
      assert Upper(s)[0] == UpperChar(s[0]);
      if IsSpace(s[0]) {
        assert Upper(s)[1..] == Upper(s[1..]);
        TrimLeftUpper(s[1..]);
      }
    }
  }

  lemma {:induction false} TrimRightUpper(s: string)
    ensures TrimRight(Upper(s)) == Upper(TrimRight(s))
    decreases |s|
  {
    if s != [] {
      var n := |s| - 1;
      CaseKeepsSpace(s[n]);
      assert Upper(s)[n] == UpperChar(s[n]);
      if IsSpace(s[n]) {
        assert Upper(s)[..n] == Upper(s[..n]);
        TrimRightUpper(s[..n]);
      }
    }
  }

  lemma StripLower(s: string)
    ensures Strip(Lower(s)) == Lower(Strip(s))
  {
    TrimLeftLower(s);
    TrimRightLower(TrimLeft(s));
  }

  lemma StripUpper(s: string)
    ensures Strip(Upper(s)) == Upper(Strip(s))
  {
    TrimLeftUpper(s);
    TrimRightUpper(TrimLeft(s));
  }

  /** Stripping a stripped string changes nothing. */
  lemma StripIdempotent(s: string)
    ensures Strip(Strip(s)) == Strip(s)
  {
    var r := Strip(s);
    StripEnds(s);
    if r != [] {
      assert TrimLeft(r) == r;
    }
  }

  predicate AllSpace(s: string) {
    forall i :: 0 <= i < |s| ==> IsSpace(s[i])
  }

  /** Whitespace put before and after a string is stripped off with the string's own. */
  lemma StripPadded(pad: string, s: string, pad2: string)
    requires AllSpace(pad) && AllSpace(pad2)
    ensures Strip(pad + s + pad2) == Strip(s)
  {
    assert pad + s + pad2 == pad + (s + pad2);
    TrimLeftSpaces(pad, s + pad2);
    var u := TrimLeft(s);
    if u != [] {
      TrimLeftAppend(s, pad2);
      TrimRightSpaces(u, pad2);
    } else {
      TrimLeftDropsSpaces(s);
      assert AllSpace(s + pad2);
      TrimLeftSpaces(s + pad2, []);
      assert s + pad2 + [] == s + pad2;
    }
  }

  /** Leading whitespace goes whatever follows it. */
  lemma {:induction false} TrimLeftSpaces(pad: string, s: string)
    requires AllSpace(pad)
    ensures TrimLeft(pad + s) == TrimLeft(s)
    decreases |pad|
  {
    if pad != [] {
      assert (pad + s)[0] == pad[0];
      assert (pad + s)[1..] == pad[1..] + s;
      TrimLeftSpaces(pad[1..], s);
    } else {
      assert pad + s == s;
    }
  }

  /** Trailing whitespace goes whatever precedes it. */
  lemma {:induction false} TrimRightSpaces(s: string, pad: string)
    requires AllSpace(pad)
    ensures TrimRight(s + pad) == TrimRight(s)
    decreases |pad|
  {
    if pad != [] {
      var n := |pad| - 1;
      assert (s + pad)[|s + pad| - 1] == pad[n];
      assert (s + pad)[..|s + pad| - 1] == s + pad[..n];
      TrimRightSpaces(s, pad[..n]);
    } else {
      assert s + pad == s;
    }
  }

  /** Trimming the left of s + t when s has something left: the rest of s, then t. */
  lemma {:induction false} TrimLeftAppend(s: string, t: string)
    ensures TrimLeft(s) != [] ==> TrimLeft(s + t) == TrimLeft(s) + t
    decreases |s|
  {
    if s != [] && IsSpace(s[0]) {
      assert (s + t)[1..] == s[1..] + t;
      TrimLeftAppend(s[1..], t);
    }
  }

  // ---------------------------------------------------------------------------
  // Substrings and replace
  // ---------------------------------------------------------------------------

  predicate StartsWith(s: string, p: string) {
    |p| <= |s| && s[..|p|] == p
  }

  /** p occurs in s starting at index i. */
  predicate OccursAt(s: string, p: string, i: int) {
    0 <= i <= |s| - |p| && s[i..i + |p|] == p
  }

  /** Python's `p in s` and Cypher's `s CONTAINS p`. */
  predicate Contains(s: string, p: string) {
    exists i :: 0 <= i <= |s| - |p| && OccursAt(s, p, i)
  }

  /** Searching from the front: p occurs in s iff it is a prefix or occurs in s minus
      its first character. */
  lemma ContainsStep(s: string, p: string)
    requires s != []
    ensures Contains(s, p) <==> StartsWith(s, p) || Contains(s[1..], p)
  {
    if Contains(s, p) && !StartsWith(s, p) {
      var i :| 0 <= i <= |s| - |p| && OccursAt(s, p, i);
      assert i != 0;
      assert OccursAt(s[1..], p, i - 1);
    }
    if Contains(s[1..], p) {
      var i :| 0 <= i <= |s[1..]| - |p| && OccursAt(s[1..], p, i);
      assert s[1..][i..i + |p|] == s[i + 1..i + 1 + |p|];
      assert OccursAt(s, p, i + 1);
    }
    if StartsWith(s, p) {
      assert OccursAt(s, p, 0);
    }
  }

  /** Cypher's replace(s, p, rep): every non-overlapping occurrence of p, scanning
      from the left, becomes rep. */
  function ReplaceAll(s: string, p: string, rep: string): string
    requires p != []
    decreases |s|
  {
    if s == [] then []
    else if StartsWith(s, p) then rep + ReplaceAll(s[|p|..], p, rep)
    else [s[0]] + ReplaceAll(s[1..], p, rep)
  }

  /** A leading occurrence of p is replaced, and the scan goes on after it. */
  lemma ReplaceAllPrefix(p: string, s: string, rep: string)
    requires p != []
    ensures ReplaceAll(p + s, p, rep) == rep + ReplaceAll(s, p, rep)
  {
    assert StartsWith(p + s, p);
    assert (p + s)[|p|..] == s;
  }

  /** A string that does not contain p comes out of ReplaceAll unchanged. */
  lemma {:induction false} ReplaceAllAbsent(s: string, p: string, rep: string)
    requires p != [] && !Contains(s, p)
    ensures ReplaceAll(s, p, rep) == s
    decreases |s|
  {
    if s != [] {
      ContainsStep(s, p);
      ReplaceAllAbsent(s[1..], p, rep);
    }
  }

  // ---------------------------------------------------------------------------
  // Decimal integers (Python's str(int) / Cypher's toString(int))
  // ---------------------------------------------------------------------------

  predicate IsDigit(c: char) {
    '0' <= c <= '9'
  }

  predicate AllDigits(s: string) {
    forall i :: 0 <= i < |s| ==> IsDigit(s[i])
  }

  function DigitChar(d: nat): (c: char)
    requires d < 10
    ensures IsDigit(c)
  {
    ('0' as int + d) as char
  }

  function DigitValue(c: char): nat
    requires IsDigit(c)
  {
    c as int - '0' as int
  }

  /** Decimal digits of n, most significant first, with no leading zero. */
  function NatToString(n: nat): (r: string)
    ensures |r| >= 1 && AllDigits(r)
    ensures n >= 10 ==> r[0] != '0'
    decreases n
  {
    if n < 10 then [DigitChar(n)] else NatToString(n / 10) + [DigitChar(n % 10)]
  }

  function IntToString(i: int): string {
    if i < 0 then "-" + NatToString(-i) else NatToString(i)
  }

  /** The number a string of decimal digits denotes (Python's int() on such text). */
  function DigitsValue(s: string): nat
    requires AllDigits(s)
  {
    if s == [] then 0 else DigitsValue(s[..|s| - 1]) * 10 + DigitValue(s[|s| - 1])
  }

  /** Reading back the digits NatToString writes gives the number again. */
  lemma {:induction false} NatToStringRoundTrip(n: nat)
    ensures DigitsValue(NatToString(n)) == n
    decreases n
  {
    var s := NatToString(n);
    if n >= 10 {
      NatToStringRoundTrip(n / 10);
      assert s[..|s| - 1] == NatToString(n / 10);
    }
  }

  /** Different numbers are written differently. */
  lemma NatToStringInjective(m: nat, n: nat)
    requires NatToString(m) == NatToString(n)
    ensures m == n
  {
    NatToStringRoundTrip(m);
    NatToStringRoundTrip(n);
  }

  /** Different integers are written differently, signs included. */
  lemma IntToStringInjective(a: int, b: int)
    requires IntToString(a) == IntToString(b)
    ensures a == b
  {
    if a < 0 && b < 0 {
      assert IntToString(a)[1..] == NatToString(-a);
      assert IntToString(b)[1..] == NatToString(-b);
      NatToStringInjective(-a, -b);
    } else if a >= 0 && b >= 0 {
      NatToStringInjective(a, b);
    }
  }

  /** Two strings built as x, then sep, then a tail, with sep in neither x nor y, split
      back into the same parts: the first sep marks where x ends. */
  lemma SplitAtSeparator(x: string, a: string, y: string, b: string, sep: char)
    requires sep !in x && sep !in y
    requires x + [sep] + a == y + [sep] + b
    ensures x == y && a == b
  {
    var l := x + [sep] + a;
    var r := y + [sep] + b;
    assert |x| == |y| by {
      assert forall k :: 0 <= k < |x| ==> l[k] == x[k] && x[k] != sep;
      assert forall k :: 0 <= k < |y| ==> r[k] == y[k] && y[k] != sep;
      assert l[|x|] == sep && r[|y|] == sep;
    }
    assert x == l[..|x|] && y == r[..|y|];
    assert a == l[|x| + 1..] && b == r[|y| + 1..];
  }

  /** The decimal form of an integer has only digits and possibly a leading '-'. */
  lemma IntToStringChars(i: int, c: char)
    requires c in IntToString(i)
    ensures IsDigit(c) || c == '-'
  {
    var s := IntToString(i);
    var k :| 0 <= k < |s| && s[k] == c;
    if i < 0 {
      if k > 0 {
        assert c == NatToString(-i)[k - 1];
      }
    }
  }

  // ---------------------------------------------------------------------------
  // Python's string order (code point by code point, a prefix first)
  // ---------------------------------------------------------------------------

  /** Python's `a <= b` on str; also Cypher's order on strings. */
  predicate StrLe(a: string, b: string) {
    a == [] || (b != [] && (a[0] < b[0] || (a[0] == b[0] && StrLe(a[1..], b[1..]))))
  }

  lemma {:induction false} StrLeTotal(a: string, b: string)
    ensures StrLe(a, b) || StrLe(b, a)
  {
    if a != [] && b != [] && a[0] == b[0] {
      StrLeTotal(a[1..], b[1..]);
    }
  }

  lemma {:induction false} StrLeTransitive(a: string, b: string, c: string)
    requires StrLe(a, b) && StrLe(b, c)
    ensures StrLe(a, c)
  {
    if a != [] && b != [] && c != [] && a[0] == b[0] && b[0] == c[0] {
      StrLeTransitive(a[1..], b[1..], c[1..]);
    }
  }

  /** StrLe is an order, not only a preorder: two strings each below the other are equal. */
  lemma {:induction false} StrLeAntisymmetric(a: string, b: string)
    requires StrLe(a, b) && StrLe(b, a)
    ensures a == b
  {
    if a != [] && b != [] {
      StrLeAntisymmetric(a[1..], b[1..]);
      assert a == [a[0]] + a[1..];
      assert b == [b[0]] + b[1..];
    }
  }
}
