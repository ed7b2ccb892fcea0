/**
 * Helpers shared by every page of the tool: an Option type, the handful of
 * JavaScript string primitives the pages rely on (white space, trim,
 * includes, startsWith, first-occurrence replace, lower-casing), and the
 * order-preserving de-duplication that several pages perform with a Set.
 */
module Common {

  datatype Option<T> = None | Some(value: T)

  /** A byte of an RGBA pixel buffer. */
  type Byte = x: int | 0 <= x < 256

  /** The characters of JavaScript's regular-expression class \s, which are
      also exactly the characters String.prototype.trim removes. */
  predicate IsSpace(c: char) {
    || c == ' ' || c == '\t' || c == '\n' || c == '\r' || c == '\U{000B}' || c == '\U{000C}'
    || c == '\U{00A0}' || c == '\U{1680}' || ('\U{2000}' <= c <= '\U{200A}')
    || c == '\U{2028}' || c == '\U{2029}' || c == '\U{202F}' || c == '\U{205F}'
    || c == '\U{3000}' || c == '\U{FEFF}'
  }

  predicate IsDigit(c: char) { '0' <= c <= '9' }

  /** Math.max on naturals. */
  function Max(x: nat, y: nat): nat { if x < y then y else x }

  /** s.replace(/[...]/g, "") for a character class: drop every character the class matches. */
  function Without(s: string, drop: char -> bool): (r: string)
    ensures |r| <= |s|
    ensures forall i :: 0 <= i < |r| ==> !drop(r[i]) && r[i] in s
    ensures forall i :: 0 <= i < |s| && !drop(s[i]) ==> s[i] in r
  {
    if |s| == 0 then []
    else if drop(s[0]) then Without(s[1..], drop)
    else [s[0]] + Without(s[1..], drop)
  }

  lemma {:induction false} WithoutAppend(a: string, b: string, drop: char -> bool)
    ensures Without(a + b, drop) == Without(a, drop) + Without(b, drop)
  {
    if |a| > 0 {
      assert (a + b)[1..] == a[1..] + b;
      WithoutAppend(a[1..], b, drop);
    } else {
      assert a + b == b;
    }
  }

  /** Two successive removals are one removal of either class. */
  lemma {:induction false} WithoutWithout(s: string, a: char -> bool, b: char -> bool, both: char -> bool)
    requires forall c :: both(c) == (a(c) || b(c))
    ensures Without(Without(s, a), b) == Without(s, both)
  {
    if |s| > 0 {
      WithoutWithout(s[1..], a, b, both);
    }
  }

  /** Removing nothing leaves the string unchanged. */
  lemma {:induction false} WithoutNothing(s: string, drop: char -> bool)
    requires forall i :: 0 <= i < |s| ==> !drop(s[i])
    ensures Without(s, drop) == s
  {
    if |s| > 0 {
      WithoutNothing(s[1..], drop);
    }
  }

  /** s.replace(/\s+/g, "") */
  function StripSpaces(s: string): string { Without(s, IsSpace) }

  function TrimStart(s: string): (r: string)
    ensures |r| <= |s| && r == s[|s| - |r|..]
    ensures |r| == 0 || !IsSpace(r[0])
    ensures forall i :: 0 <= i < |s| - |r| ==> IsSpace(s[i])
  {
    if |s| > 0 && IsSpace(s[0]) then TrimStart(s[1..]) else s
  }

  function TrimEnd(s: string): (r: string)
    ensures |r| <= |s| && r == s[..|r|]
    ensures |r| == 0 || !IsSpace(r[|r| - 1])
    ensures forall i :: |r| <= i < |s| ==> IsSpace(s[i])
  {
    if |s| > 0 && IsSpace(s[|s| - 1]) then TrimEnd(s[..|s| - 1]) else s
  }

  /** The number of white-space characters at the start of s. */
  function Leading(s: string): (n: nat)
    ensures n <= |s|
  {
    |s| - |TrimStart(s)|
  }

  /** String.prototype.trim: the longest infix that neither starts nor ends
      with white space, obtained by removing only white space. */
  function Trim(s: string): (r: string)
    ensures |r| == 0 || (!IsSpace(r[0]) && !IsSpace(r[|r| - 1]))
    ensures Leading(s) + |r| <= |s| && r == s[Leading(s)..Leading(s) + |r|]
    ensures forall k :: 0 <= k < Leading(s) ==> IsSpace(s[k])
    ensures forall k :: Leading(s) + |r| <= k < |s| ==> IsSpace(s[k])
  {
    TrimEnd(TrimStart(s))
  }

  /** A string without white space is its own trim. */
  lemma TrimNoSpace(s: string)
    requires forall i :: 0 <= i < |s| ==> !IsSpace(s[i])
    ensures Trim(s) == s
  {
    assert |s| == 0 || TrimStart(s) == s;
  }

  /** Every value trimmed: arr.map(v => (v || "").trim()). */
  function TrimAll(xs: seq<string>): (r: seq<string>)
    ensures |r| == |xs|
    ensures forall i :: 0 <= i < |xs| ==> r[i] == Trim(xs[i])
  {
    seq(|xs|, i requires 0 <= i < |xs| => Trim(xs[i]))
  }

  /** "" is the only falsy string, so (s || "").trim() is non-empty exactly
      when s has a character that is not white space. */
  lemma TrimEmptyIffBlank(s: string)
    ensures Trim(s) == "" <==> forall k :: 0 <= k < |s| ==> IsSpace(s[k])
  {
    if Trim(s) != "" {
      assert s[Leading(s)] == Trim(s)[0];
    }
  }

  /** Lower-casing of the ASCII letters (the only letters the compared names use). */
  function LowerChar(c: char): (r: char)
    ensures !('A' <= r <= 'Z')
    ensures ('A' <= c <= 'Z') || r == c
  {
    if 'A' <= c <= 'Z' then (c as int + 32) as char else c
  }

  function Lower(s: string): (r: string)
    ensures |r| == |s|
    ensures forall i :: 0 <= i < |s| ==> r[i] == LowerChar(s[i])
  {
    seq(|s|, i requires 0 <= i < |s| => LowerChar(s[i]))
  }

  /** Upper-casing of the ASCII letters. */
  function UpperChar(c: char): (r: char)
    ensures !('a' <= r <= 'z')
    ensures ('a' <= c <= 'z') || r == c
  {
    if 'a' <= c <= 'z' then (c as int - 32) as char else c
  }

  function Upper(s: string): (r: string)
    ensures |r| == |s|
    ensures forall i :: 0 <= i < |s| ==> r[i] == UpperChar(s[i])
  {
    seq(|s|, i requires 0 <= i < |s| => UpperChar(s[i]))
  }

  predicate StartsWith(s: string, p: string) { |p| <= |s| && s[..|p|] == p }

  predicate OccursAt(s: string, t: string, i: nat) { i + |t| <= |s| && s[i..i + |t|] == t }

  /** String.prototype.indexOf, searching from position i on. */
  function IndexFrom(s: string, t: string, i: nat): (r: Option<nat>)
    decreases |s| + 1 - i
    ensures r.Some? ==> (i <= r.value && OccursAt(s, t, r.value)
      && forall k :: i <= k < r.value ==> !OccursAt(s, t, k))
    ensures r.None? ==> forall k :: i <= k ==> !OccursAt(s, t, k)
  {
    if i + |t| > |s| then None
    else if s[i..i + |t|] == t then Some(i)
    else IndexFrom(s, t, i + 1)
  }

  function IndexOf(s: string, t: string): Option<nat> { IndexFrom(s, t, 0) }

  /** String.prototype.includes */
  predicate Includes(s: string, t: string) { IndexOf(s, t).Some? }

  /** s.replace(t, r) with a string pattern: only the first occurrence is replaced. */
  function ReplaceFirst(s: string, t: string, r: string): (o: string)
    ensures !Includes(s, t) ==> o == s
  {
    match IndexOf(s, t)
    case None => s
    case Some(i) => s[..i] + r + s[i + |t|..]
  }

  /** arr.filter(Boolean) on strings: the non-empty ones, in order. */
  function Filled(xs: seq<string>): (r: seq<string>)
    ensures |r| <= |xs|
    ensures forall x :: x in r <==> x in xs && x != ""
  {
    if |xs| == 0 then []
    else
      var p := Filled(xs[..|xs| - 1]);
      var x := xs[|xs| - 1];
      assert xs == xs[..|xs| - 1] + [x];
      if x == "" then p else p + [x]
  }

  /** Two of the values are equal. */
  predicate Repeats(xs: seq<string>) {
    exists i, j :: 0 <= i < j < |xs| && xs[i] == xs[j]
  }

  /** Two of the non-empty values are equal. */
  predicate RepeatsFilled(xs: seq<string>) {
    exists i, j :: 0 <= i < j < |xs| && xs[i] != "" && xs[i] == xs[j]
  }

  /** Filtering keeps every non-empty value once per occurrence: the kept
      values repeat exactly when two non-empty values are equal. */
  lemma {:induction false} FilledRepeats(xs: seq<string>)
    ensures Repeats(Filled(xs)) <==> RepeatsFilled(xs)
  {
    if |xs| > 0 {
      var n := |xs| - 1;
      var p, x := xs[..n], xs[n];
      FilledRepeats(p);
      var fp := Filled(p);
      assert Filled(xs) == fp + (if x == "" then [] else [x]);
      assert forall k :: 0 <= k < n ==> xs[k] == p[k];
      if RepeatsFilled(xs) && !RepeatsFilled(p) {
        var i, j :| 0 <= i < j < |xs| && xs[i] != "" && xs[i] == xs[j];
        assert j == n && xs[i] in p;
        var k :| 0 <= k < |fp| && fp[k] == x;
        assert Filled(xs)[k] == Filled(xs)[|fp|];
      }
      if RepeatsFilled(p) {
        var i, j :| 0 <= i < j < n && p[i] != "" && p[i] == p[j];
        assert xs[i] == p[i] && xs[j] == p[j];
      }
      if Repeats(fp) {
        var i, j :| 0 <= i < j < |fp| && fp[i] == fp[j];
        assert Filled(xs)[i] == fp[i] && Filled(xs)[j] == fp[j];
      }
      if Repeats(Filled(xs)) && !Repeats(fp) {
        var i, j :| 0 <= i < j < |Filled(xs)| && Filled(xs)[i] == Filled(xs)[j];
        assert j == |fp| && x != "" && Filled(xs)[i] in fp;
        var k :| 0 <= k < n && p[k] == x;
        assert xs[k] == xs[n];
      }
    }
  }

  predicate Distinct<T(==)>(xs: seq<T>) {
    forall i, j :: 0 <= i < j < |xs| ==> xs[i] != xs[j]
  }

  /** The index at which x first occurs in xs. */
  function FirstIndex<T(==)>(xs: seq<T>, x: T): (k: nat)
    requires x in xs
    ensures k < |xs| && xs[k] == x && x !in xs[..k]
  {
    if xs[0] == x then 0 else 1 + FirstIndex(xs[1..], x)
  }

  /** What a loop pushing each non-empty value not yet in a Set produces:
      the distinct non-empty values in the order of their first occurrence. */
  function Dedup(xs: seq<string>): (r: seq<string>)
  {
    if |xs| == 0 then []
    else
      var d := Dedup(xs[..|xs| - 1]);
      var x := xs[|xs| - 1];
      if x == "" || x in d then d else d + [x]
  }

  lemma {:induction false} DedupMembers(xs: seq<string>)
    ensures forall x :: x in Dedup(xs) <==> x in xs && x != ""
    ensures Distinct(Dedup(xs))
    ensures |Dedup(xs)| <= |xs|
  {
    if |xs| > 0 {
      var p := xs[..|xs| - 1];
      DedupMembers(p);
      assert xs == p + [xs[|xs| - 1]];
    }
  }

  /** The values come out in the order in which they first occur. */
  lemma {:induction false} DedupOrder(xs: seq<string>)
    ensures forall i, j :: 0 <= i < j < |Dedup(xs)| ==>
      Dedup(xs)[i] in xs && Dedup(xs)[j] in xs &&
      FirstIndex(xs, Dedup(xs)[i]) < FirstIndex(xs, Dedup(xs)[j])
  {
    DedupMembers(xs);
    if |xs| > 0 {
      var p := xs[..|xs| - 1];
      var x := xs[|xs| - 1];
      DedupOrder(p);
      DedupMembers(p);
      assert xs == p + [x];
      var d := Dedup(p);
      forall y | y in p ensures FirstIndex(xs, y) == FirstIndex(p, y) {
        FirstIndexPrefix(p, x, y);
      }
      if !(x == "" || x in d) {
        forall i | 0 <= i < |d| ensures FirstIndex(xs, d[i]) < FirstIndex(xs, x) {
          assert x !in p;
          FirstIndexLast(p, x);
        }
      }
    }
  }

  lemma FirstIndexPrefix(p: seq<string>, x: string, y: string)
    requires y in p
    ensures FirstIndex(p + [x], y) == FirstIndex(p, y)
  {
    var k := FirstIndex(p, y);
    var k' := FirstIndex(p + [x], y);
    assert (p + [x])[k] == y;
    assert (p + [x])[..k'] == p[..k'] || k' >= |p|;
  }

  lemma FirstIndexLast(p: seq<string>, x: string)
    requires x !in p
    ensures FirstIndex(p + [x], x) == |p|
  {
  }
}
