/**
 * Name recognition on the capture page (capture/capture.js:48-143, 430-440):
 * the normalisation applied to recognised text and dex names, the
 * single-row edit distance, the dex lookup with its fuzzy fallback, and the
 * extraction of a Japanese name from recognised text.
 */
module CaptureNames {
  import opened Common
  import opened Sorting

  /** The class of characters normalizeJa removes after the white space:
      the general and supplemental punctuation blocks and ASCII punctuation. */
  predicate IsPunct(c: char) {
    || ('\U{2000}' <= c <= '\U{206F}') || ('\U{2E00}' <= c <= '\U{2E7F}')
    || c == '\U{0027}' || c == '"' || c == '`' || c == '^' || c == '~' || c == '_' || c == '-'
    || c == '\U{2013}' || c == '\U{2014}' || c == '.' || c == ',' || c == ':' || c == ';'
    || c == '!' || c == '?' || c == '(' || c == ')' || c == '[' || c == ']' || c == '{' || c == '}'
    || c == '<' || c == '>' || c == '\\' || c == '/' || c == '|'
  }

  /** Full-width opening brackets become "(" and closing ones ")". */
  function BracketChar(c: char): (r: char)
    ensures r != '（' && r != '【' && r != '）' && r != '】'
  {
    if c == '（' || c == '【' || c == '[' then '('
    else if c == '）' || c == '】' || c == ']' then ')'
    else c
  }

  function Brackets(s: string): (r: string)
    ensures |r| == |s| && forall i :: 0 <= i < |s| ==> r[i] == BracketChar(s[i])
  {
    seq(|s|, i requires 0 <= i < |s| => BracketChar(s[i]))
  }

  /** The number of consecutive characters from j on that satisfy p. */
  function RunFrom(s: string, j: nat, p: char -> bool): (n: nat)
    decreases |s| - j
    ensures j + n <= |s| || (j > |s| && n == 0)
    ensures forall k :: j <= k < j + n ==> p(s[k])
    ensures j + n < |s| ==> !p(s[j + n])
  {
    if j < |s| && p(s[j]) then 1 + RunFrom(s, j + 1, p) else 0
  }

  /** The length of the match of /Lv\.?\s*\d+/i at position i, 0 when there is none. */
  function LvMatchAt(s: string, i: nat): (n: nat)
    ensures n == 0 || (n >= 3 && i + n <= |s|)
  {
    if i + 1 < |s| && (s[i] == 'L' || s[i] == 'l') && (s[i + 1] == 'v' || s[i + 1] == 'V') then
      var j := i + 2 + (if i + 2 < |s| && s[i + 2] == '.' then 1 else 0);
      var k := j + RunFrom(s, j, IsSpace);
      var d := RunFrom(s, k, IsDigit);
      if d > 0 then k + d - i else 0
    else 0
  }

  /** s.replace(/Lv\.?\s*\d+/gi, ""): every match, found left to right, is removed. */
  function RemoveLv(s: string): (r: string)
    decreases |s|
    ensures |r| <= |s|
    ensures forall c :: c in r ==> c in s
  {
    if |s| == 0 then ""
    else
      var n := LvMatchAt(s, 0);
      if n > 0 then
        var t := RemoveLv(s[n..]);
        assert forall c :: c in s[n..] ==> c in s;
        t
      else
        var t := RemoveLv(s[1..]);
        assert forall c :: c in s[1..] ==> c in s;
        [s[0]] + t
  }

  /** What is left of a character after normalisation: no white space, no
      punctuation other than ASCII parentheses, no full-width brackets. */
  predicate Normalised(c: char) {
    !IsSpace(c) && (!IsPunct(c) || c == '(' || c == ')') && c != '（' && c != '【' && c != '）' && c != '】'
  }

  /** normalizeJa: drop white space and punctuation, turn full-width brackets
      into ASCII ones, drop level markers, trim. */
  function NormalizeJa(s: string): (r: string)
    ensures |r| <= |s|
  {
    Trim(RemoveLv(Brackets(Without(Without(s, IsSpace), IsPunct))))
  }

  /** Every character of a normalised string is Normalised. */
  lemma NormalizeJaChars(s: string)
    ensures forall c :: c in NormalizeJa(s) ==> Normalised(c)
  {
    var c := Brackets(Without(Without(s, IsSpace), IsPunct));
    BracketedClean(s);
    var d := RemoveLv(c);
    var r := Trim(d);
    forall x | x in r ensures x in c {
      var k :| 0 <= k < |r| && r[k] == x;
      assert d[Leading(d) + k] == x;
    }
  }

  /** What normalizeJa's first two replacements drop. */
  predicate JaDropped(c: char) { IsSpace(c) || IsPunct(c) }

  /** A string without "L" or "l" holds no level marker. */
  lemma {:induction false} RemoveLvNoMarker(s: string)
    requires forall i :: 0 <= i < |s| ==> s[i] != 'L' && s[i] != 'l'
    ensures RemoveLv(s) == s
  {
    if |s| > 0 {
      RemoveLvNoMarker(s[1..]);
    }
  }

  /** The characters normalizeJa keeps: once level markers are removed, the
      trim has nothing left to do, so the result is the input with white space
      and punctuation dropped and brackets mapped, less its level markers. On
      an input without "L" or "l", which holds no level marker, that is every
      other character, in order. */
  lemma NormalizeJaKeeps(s: string)
    ensures NormalizeJa(s) == RemoveLv(Brackets(Without(s, JaDropped)))
    ensures (forall i :: 0 <= i < |s| ==> s[i] != 'L' && s[i] != 'l') ==>
      NormalizeJa(s) == Brackets(Without(s, JaDropped))
  {
    WithoutWithout(s, IsSpace, IsPunct, JaDropped);
    var c := Brackets(Without(s, JaDropped));
    BracketedClean(s);
    var d := RemoveLv(c);
    forall i | 0 <= i < |d| ensures !IsSpace(d[i]) {
      assert d[i] in d;
    }
    TrimNoSpace(d);
    if forall i :: 0 <= i < |s| ==> s[i] != 'L' && s[i] != 'l' {
      forall i | 0 <= i < |c| ensures c[i] != 'L' && c[i] != 'l' {
        var b := Without(s, JaDropped);
        assert b[i] in s;
      }
      RemoveLvNoMarker(c);
    }
  }

  lemma BracketedClean(s: string)
    ensures forall x :: x in Brackets(Without(Without(s, IsSpace), IsPunct)) ==> Normalised(x)
  {
    var a := Without(s, IsSpace);
    var b := Without(a, IsPunct);
    var c := Brackets(b);
    forall k | 0 <= k < |b| ensures !IsSpace(b[k]) && !IsPunct(b[k]) {
      assert b[k] in a;
    }
    forall x | x in c ensures Normalised(x) {
      var k :| 0 <= k < |c| && c[k] == x;
      assert c[k] == BracketChar(b[k]);
    }
  }

  function Min3(x: nat, y: nat, z: nat): (m: nat)
    ensures m <= x && m <= y && m <= z && (m == x || m == y || m == z)
  {
    if x <= y && x <= z then x else if y <= z then y else z
  }

  /** The unit-cost edit distance (insert, delete, substitute) between the
      prefixes a[..i] and b[..j]. */
  function Dist(a: string, b: string, i: nat, j: nat): nat
    requires i <= |a| && j <= |b|
    decreases i + j
  {
    if i == 0 then j
    else if j == 0 then i
    else
      Min3(Dist(a, b, i - 1, j) + 1,
           Dist(a, b, i, j - 1) + 1,
           Dist(a, b, i - 1, j - 1) + (if a[i - 1] == b[j - 1] then 0 else 1))
  }

  function EditDistance(a: string, b: string): nat {
    Dist(a, b, |a|, |b|)
  }


  /** The distance never exceeds the longer length. */
  lemma {:induction false} DistBound(a: string, b: string, i: nat, j: nat)
    requires i <= |a| && j <= |b|
    decreases i + j
    ensures Dist(a, b, i, j) <= Max(i, j)
  {
    if i > 0 && j > 0 {
      DistBound(a, b, i - 1, j - 1);
    }
  }

  /** The distance is 0 exactly for equal prefixes. */
  lemma {:induction false} DistZeroIff(a: string, b: string, i: nat, j: nat)
    requires i <= |a| && j <= |b|
    decreases i + j
    ensures Dist(a, b, i, j) == 0 <==> a[..i] == b[..j]
  {
    if i > 0 && j > 0 {
      DistZeroIff(a, b, i - 1, j - 1);
      assert a[..i] == a[..i - 1] + [a[i - 1]] && b[..j] == b[..j - 1] + [b[j - 1]];
      if a[..i] == b[..j] {
        assert a[..i][..i - 1] == b[..j][..j - 1];
      }
    }
  }

  lemma EditDistanceBound(a: string, b: string)
    ensures EditDistance(a, b) <= Max(|a|, |b|)
    ensures EditDistance(a, b) == 0 <==> a == b
  {
    DistBound(a, b, |a|, |b|);
    DistZeroIff(a, b, |a|, |b|);
    assert a[..|a|] == a && b[..|b|] == b;
  }

  /** levenshtein(a, b): one dp row, updated in place for each character of a;
      after processing a[..i], dp[j] is the distance between a[..i] and b[..j]. */
  method Levenshtein(a: string, b: string) returns (d: nat)
    ensures d == EditDistance(a, b)
  {
    var n, m := |a|, |b|;
    if n == 0 { return m; }
    if m == 0 { return n; }
    var dp := new nat[m + 1];
    var j := 0;
    while j <= m
      invariant 0 <= j <= m + 1
      invariant forall k {:trigger dp[k]} :: 0 <= k < j ==> dp[k] == Dist(a, b, 0, k)
    {
      dp[j] := j;
      j := j + 1;
    }
    var i := 1;
    while i <= n
      invariant 1 <= i <= n + 1
      invariant forall k {:trigger dp[k]} :: 0 <= k <= m ==> dp[k] == Dist(a, b, i - 1, k)
    {
      NextRow(a, b, dp, i);
      i := i + 1;
    }
    d := dp[m];
  }

  /** One pass of the outer loop: turns the row for a[..i-1] into the row for a[..i]. */
  method NextRow(a: string, b: string, dp: array<nat>, i: nat)
    requires 1 <= i <= |a| && dp.Length == |b| + 1
    requires forall k {:trigger dp[k]} :: 0 <= k <= |b| ==> dp[k] == Dist(a, b, i - 1, k)
    modifies dp
    ensures forall k {:trigger dp[k]} :: 0 <= k <= |b| ==> dp[k] == Dist(a, b, i, k)
  {
    var m := |b|;
    var prev := dp[0];
    dp[0] := i;
    var j := 1;
    while j <= m
      invariant 1 <= j <= m + 1
      invariant prev == Dist(a, b, i - 1, j - 1)
      invariant forall k {:trigger dp[k]} :: 0 <= k < j ==> dp[k] == Dist(a, b, i, k)
      invariant forall k {:trigger dp[k]} :: j <= k <= m ==> dp[k] == Dist(a, b, i - 1, k)
    {
      var tmp := dp[j];
      var cost := if a[i - 1] == b[j - 1] then 0 else 1;
      var v := Min3(dp[j] + 1, dp[j - 1] + 1, prev + cost);
      assert v == Dist(a, b, i, j);
      dp[j] := v;
      prev := tmp;
      j := j + 1;
    }
  }

  /** A dex entry: its display name and its normalised form. */
  datatype DexName = DexName(ja: string, jaNorm: string)

  /** The state of a scan: the best display name ("" for none), its score and distance. */
  datatype Pick = Pick(best: string, score: real, dist: nat)

  /** Math.max(q.length, norm.length) || 1 */
  function MaxLen(q: string, norm: string): (n: nat)
    ensures n >= 1 && n >= |q| && n >= |norm|
  {
    if Max(|q|, |norm|) == 0 then 1 else Max(|q|, |norm|)
  }

  /** 1 - d / maxLen */
  function Score(q: string, norm: string): (s: real)
    ensures s <= 1.0
  {
    1.0 - (EditDistance(q, norm) as real) / (MaxLen(q, norm) as real)
  }

  lemma ScoreInUnit(q: string, norm: string)
    ensures 0.0 <= Score(q, norm) <= 1.0
    ensures Score(q, norm) == 1.0 <==> q == norm
  {
    EditDistanceBound(q, norm);
    RatioInUnit(EditDistance(q, norm) as real, MaxLen(q, norm) as real);
  }

  lemma RatioInUnit(d: real, l: real)
    requires 0.0 <= d <= l && l > 0.0
    ensures 0.0 <= d / l <= 1.0 && (d / l == 0.0 <==> d == 0.0)
  {
    var x := d / l;
    assert x * l == d;
  }

  predicate SameFirst(q: string, norm: string) {
    |q| > 0 && |norm| > 0 && norm[0] == q[0]
  }

  /** The fuzzy pass over the first entries: entries sharing the query's first
      character; a higher score wins, an equal score wins only with a smaller distance. */
  function FuzzyScan(q: string, xs: seq<DexName>): Pick {
    if |xs| == 0 then Pick("", 0.0, 999)
    else
      var p := FuzzyScan(q, xs[..|xs| - 1]);
      var x := xs[|xs| - 1];
      if !SameFirst(q, x.jaNorm) then p
      else
        var d := EditDistance(q, x.jaNorm);
        var sc := Score(q, x.jaNorm);
        if sc > p.score then Pick(x.ja, sc, d)
        else if sc == p.score && d < p.dist then Pick(x.ja, p.score, d)
        else p
  }

  /** The global pass over the first entries: a strictly higher score wins. */
  function GlobalScan(q: string, xs: seq<DexName>, init: Pick): Pick {
    if |xs| == 0 then init
    else
      var p := GlobalScan(q, xs[..|xs| - 1], init);
      var x := xs[|xs| - 1];
      var sc := Score(q, x.jaNorm);
      if sc > p.score then Pick(x.ja, sc, p.dist) else p
  }

  /** Every entry the fuzzy pass considers scores at most p.score, and one
      scoring exactly p.score is at least p.dist away. */
  ghost predicate FuzzyBound(q: string, xs: seq<DexName>, p: Pick) {
    forall j :: 0 <= j < |xs| && SameFirst(q, xs[j].jaNorm) ==>
      Score(q, xs[j].jaNorm) <= p.score &&
      (Score(q, xs[j].jaNorm) == p.score ==> EditDistance(q, xs[j].jaNorm) >= p.dist)
  }

  /** xs[k] is the entry p was taken from: it shares the first character, p
      holds its name, score and distance, and every earlier such entry with the
      same score is strictly farther away. */
  ghost predicate FuzzyWinner(q: string, xs: seq<DexName>, p: Pick, k: int) {
    && 0 <= k < |xs| && SameFirst(q, xs[k].jaNorm)
    && p == Pick(xs[k].ja, Score(q, xs[k].jaNorm), EditDistance(q, xs[k].jaNorm))
    && forall j :: 0 <= j < k && SameFirst(q, xs[j].jaNorm) && Score(q, xs[j].jaNorm) == p.score ==>
         EditDistance(q, xs[j].jaNorm) > p.dist
  }

  /** The fuzzy pass ends with the initial pick when no entry beat it, and
      otherwise with the name, score and distance of the first entry of highest
      score and, among those, least distance. */
  lemma {:induction false} FuzzyScanBest(q: string, xs: seq<DexName>)
    ensures var p := FuzzyScan(q, xs);
      && 0.0 <= p.score <= 1.0
      && FuzzyBound(q, xs, p)
      && (p == Pick("", 0.0, 999) || exists k :: FuzzyWinner(q, xs, p, k))
  {
    if |xs| > 0 {
      var n := |xs| - 1;
      var ys := xs[..n];
      FuzzyScanBest(q, ys);
      assert forall k :: 0 <= k < n ==> ys[k] == xs[k];
      ScoreInUnit(q, xs[n].jaNorm);
      var p0 := FuzzyScan(q, ys);
      var p := FuzzyScan(q, xs);
      if p != p0 {
        assert FuzzyWinner(q, xs, p, n);
      } else if p0 != Pick("", 0.0, 999) {
        var k :| FuzzyWinner(q, ys, p0, k);
        assert FuzzyWinner(q, xs, p, k);
      }
    }
  }

  /** Every entry scores at most score. */
  ghost predicate GlobalBound(q: string, xs: seq<DexName>, score: real) {
    forall j :: 0 <= j < |xs| ==> Score(q, xs[j].jaNorm) <= score
  }

  /** xs[k] is the first entry to reach score, and name is its display name. */
  ghost predicate GlobalWinner(q: string, xs: seq<DexName>, name: string, score: real, k: int) {
    && 0 <= k < |xs| && xs[k].ja == name && Score(q, xs[k].jaNorm) == score
    && forall j :: 0 <= j < k ==> Score(q, xs[j].jaNorm) < score
  }

  /** The global pass keeps the initial pick unless some entry beats its
      score; then it holds the name and score of the first entry of highest
      score, and the initial distance. */
  lemma {:induction false} GlobalScanBest(q: string, xs: seq<DexName>, init: Pick)
    requires 0.0 <= init.score <= 1.0
    ensures var p := GlobalScan(q, xs, init);
      && init.score <= p.score <= 1.0
      && GlobalBound(q, xs, p.score)
      && (p.score == init.score ==> p == init)
      && (p.score > init.score ==> p.dist == init.dist && exists k :: GlobalWinner(q, xs, p.best, p.score, k))
  {
    if |xs| > 0 {
      var n := |xs| - 1;
      var ys := xs[..n];
      GlobalScanBest(q, ys, init);
      assert forall k :: 0 <= k < n ==> ys[k] == xs[k];
      ScoreInUnit(q, xs[n].jaNorm);
      var p0 := GlobalScan(q, ys, init);
      var p := GlobalScan(q, xs, init);
      if p != p0 {
        assert GlobalWinner(q, xs, p.best, p.score, n);
      } else if p.score > init.score {
        var k :| GlobalWinner(q, ys, p0.best, p0.score, k);
        assert GlobalWinner(q, xs, p.best, p.score, k);
      }
    }
  }

  /** dexNames.find(x => x.jaNorm === q), as an index. */
  function FirstHit(xs: seq<DexName>, q: string): (k: nat)
    requires exists k :: 0 <= k < |xs| && xs[k].jaNorm == q
    ensures k < |xs| && xs[k].jaNorm == q
    ensures forall i :: 0 <= i < k ==> xs[i].jaNorm != q
  {
    if xs[0].jaNorm == q then 0
    else
      assert forall k :: 1 <= k < |xs| ==> xs[1..][k - 1] == xs[k];
      1 + FirstHit(xs[1..], q)
  }

  predicate HasNorm(xs: seq<DexName>, q: string) {
    exists k :: 0 <= k < |xs| && xs[k].jaNorm == q
  }

  datatype Match = Match(name: string, score: real)

  function Clamp01(x: real): (r: real)
    ensures 0.0 <= r <= 1.0 && (0.0 <= x <= 1.0 ==> r == x)
  {
    if x < 0.0 then 0.0 else if x > 1.0 then 1.0 else x
  }

  /** The fuzzy pass, then the global pass when the fuzzy pass named nothing. */
  function Scan(q: string, dex: seq<DexName>): Pick {
    var f := FuzzyScan(q, dex);
    if f.best == "" then GlobalScan(q, dex, f) else f
  }

  /** bestMatchName(raw) over the dex list. The dex name set holds exactly the
      normalised forms of the list's entries. */
  function BestMatch(raw: string, dex: seq<DexName>): Match {
    var q := NormalizeJa(raw);
    if q == "" then Match("", 0.0)
    else if HasNorm(dex, q) then Match(dex[FirstHit(dex, q)].ja, 1.0)
    else
      var g := Scan(q, dex);
      Match(g.best, Clamp01(g.score))
  }

  /** Without an exact hit the scan's score lies in [0,1). When the fuzzy
      pass names an entry, the scan is that pass's pick; otherwise no entry
      scores above the scan's score, and a name, when there is one, is that of
      the first entry reaching it. */
  lemma ScanSpec(q: string, dex: seq<DexName>)
    requires !HasNorm(dex, q)
    ensures var f := FuzzyScan(q, dex);
      var g := Scan(q, dex);
      && 0.0 <= g.score < 1.0
      && (f.best != "" ==> g == f && FuzzyBound(q, dex, f) && exists k :: FuzzyWinner(q, dex, f, k))
      && (f.best == "" ==> GlobalBound(q, dex, g.score))
      && (f.best == "" && g.best != "" ==> exists k :: GlobalWinner(q, dex, g.best, g.score, k))
  {
    FuzzyScanBest(q, dex);
    var f := FuzzyScan(q, dex);
    GlobalScanBest(q, dex, f);
    var g := Scan(q, dex);
    if g.score != 0.0 {
      if f.best != "" {
        var k :| FuzzyWinner(q, dex, f, k);
        ScoreInUnit(q, dex[k].jaNorm);
      } else if g.score > f.score {
        var k :| GlobalWinner(q, dex, g.best, g.score, k);
        ScoreInUnit(q, dex[k].jaNorm);
      } else {
        assert f != Pick("", 0.0, 999);
        var k :| FuzzyWinner(q, dex, f, k);
        ScoreInUnit(q, dex[k].jaNorm);
      }
    }
  }

  /** The score lies in [0,1] and is 1 exactly for an exact hit on a normalised
      dex name, which returns the first such entry; an empty query matches
      nothing. Otherwise, when an entry shares the query's first character and
      the fuzzy pass names it, the result is the first such entry of highest
      score and, among those, least distance; when the fuzzy pass names
      nothing, no entry scores above the result, and a name is that of the
      first entry reaching its score. */
  lemma BestMatchSpec(raw: string, dex: seq<DexName>)
    ensures var q := NormalizeJa(raw);
      var f := FuzzyScan(q, dex);
      var m := BestMatch(raw, dex);
      && 0.0 <= m.score <= 1.0
      && (q == "" ==> m == Match("", 0.0))
      && (q != "" ==> (m.score == 1.0 <==> HasNorm(dex, q)))
      && (q != "" && HasNorm(dex, q) ==> m.name == dex[FirstHit(dex, q)].ja)
      && (q != "" && !HasNorm(dex, q) && f.best != "" ==>
            m == Match(f.best, f.score) && FuzzyBound(q, dex, f) && exists k :: FuzzyWinner(q, dex, f, k))
      && (q != "" && !HasNorm(dex, q) && f.best == "" ==> GlobalBound(q, dex, m.score))
      && (q != "" && !HasNorm(dex, q) && f.best == "" && m.name != "" ==>
            exists k :: GlobalWinner(q, dex, m.name, m.score, k))
  {
    var q := NormalizeJa(raw);
    if q != "" && !HasNorm(dex, q) {
      ScanSpec(q, dex);
    }
  }

  /** bestMatchName(raw): the two passes as loops, with levenshtein for each distance. */
  method BestMatchName(raw: string, dex: seq<DexName>) returns (m: Match)
    ensures m == BestMatch(raw, dex)
  {
    var q := NormalizeJa(raw);
    if q == "" { return Match("", 0.0); }
    if HasNorm(dex, q) { return Match(dex[FirstHit(dex, q)].ja, 1.0); }
    var f := FuzzyPass(q, dex);
    if f.best == "" {
      f := GlobalPass(q, dex, f);
    }
    m := Match(f.best, Clamp01(f.score));
  }

  /** The first loop of bestMatchName: entries sharing the query's first character. */
  method FuzzyPass(q: string, dex: seq<DexName>) returns (p: Pick)
    ensures p == FuzzyScan(q, dex)
  {
    var best, bestScore, bestDist := "", 0.0, 999;
    var i := 0;
    while i < |dex|
      invariant 0 <= i <= |dex|
      invariant Pick(best, bestScore, bestDist) == FuzzyScan(q, dex[..i])
    {
      assert dex[..i + 1][..i] == dex[..i];
      var x := dex[i];
      if SameFirst(q, x.jaNorm) {
        var d := Levenshtein(q, x.jaNorm);
        var score := 1.0 - (d as real) / (MaxLen(q, x.jaNorm) as real);
        if score > bestScore {
          best, bestScore, bestDist := x.ja, score, d;
        } else if score == bestScore && d < bestDist {
          best, bestDist := x.ja, d;
        }
      }
      i := i + 1;
    }
    assert dex[..i] == dex;
    p := Pick(best, bestScore, bestDist);
  }

  /** The second loop of bestMatchName: every entry, a strictly higher score wins. */
  method GlobalPass(q: string, dex: seq<DexName>, init: Pick) returns (p: Pick)
    ensures p == GlobalScan(q, dex, init)
  {
    var best, bestScore, bestDist := init.best, init.score, init.dist;
    var i := 0;
    while i < |dex|
      invariant 0 <= i <= |dex|
      invariant Pick(best, bestScore, bestDist) == GlobalScan(q, dex[..i], init)
    {
      assert dex[..i + 1][..i] == dex[..i];
      var x := dex[i];
      var d := Levenshtein(q, x.jaNorm);
      var score := 1.0 - (d as real) / (MaxLen(q, x.jaNorm) as real);
      if score > bestScore {
        best, bestScore := x.ja, score;
      }
      i := i + 1;
    }
    assert dex[..i] == dex;
    p := Pick(best, bestScore, bestDist);
  }

  /** The kana and kanji ranges the name extraction looks for (ー is inside the kana range). */
  predicate IsJp(c: char) {
    ('\U{3040}' <= c <= '\U{30FF}') || ('\U{4E00}' <= c <= '\U{9FFF}') || c == 'ー'
  }

  /** t.match(/[...]{2,}/g): the maximal runs of at least two such characters, left to right. */
  function JpRuns(t: string): (rs: seq<string>)
    decreases |t|
    ensures forall r :: r in rs ==> |r| >= 2 && (forall c :: c in r ==> IsJp(c))
  {
    if |t| == 0 then []
    else
      var n := RunFrom(t, 0, IsJp);
      if n == 0 then JpRuns(t[1..])
      else
        assert forall c :: c in t[..n] ==> IsJp(c);
        (if n >= 2 then [t[..n]] else []) + JpRuns(t[n..])
  }

  /** The sort of extractNameCandidate: a goes no later than b when it is not shorter. */
  predicate NotShorter(a: string, b: string) { |b| - |a| <= 0 }

  /** extractNameCandidate(text): drop level markers, digits and white space,
      then take the first of the longest runs of Japanese characters (the sort
      is stable), or "" when there is none. */
  function ExtractNameCandidate(text: string): (r: string)
  {
    var t := Without(Without(RemoveLv(text), IsDigit), IsSpace);
    var m := JpRuns(t);
    if |m| == 0 then "" else SortBy(m, NotShorter)[0]
  }

  lemma ExtractNameCandidateSpec(text: string)
    ensures var t := Without(Without(RemoveLv(text), IsDigit), IsSpace);
      var r := ExtractNameCandidate(text);
      && (r == "" <==> |JpRuns(t)| == 0)
      && (r != "" ==> r in JpRuns(t) && |r| >= 2 && forall s :: s in JpRuns(t) ==> |s| <= |r|)
      && (r != "" ==> exists k :: (0 <= k < |JpRuns(t)| && JpRuns(t)[k] == r &&
                                   forall j :: 0 <= j < k ==> |JpRuns(t)[j]| < |r|))
  {
    var t := Without(Without(RemoveLv(text), IsDigit), IsSpace);
    var m := JpRuns(t);
    if |m| > 0 {
      SortByHead(m, NotShorter);
      SortByFirstBest(m, NotShorter);
      var k :| FirstLeast(m, NotShorter, k) && SortBy(m, NotShorter)[0] == m[k];
      forall j | 0 <= j < k ensures |m[j]| < |m[k]| {
        assert !Least(m, NotShorter, m[j]);
      }
    }
  }
}
