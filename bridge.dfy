/**
 * The bridge that carries a team from the pick page into the damage
 * calculator (calc/picklab-bridge.js): species ids are normalised, looked up
 * in the species table and turned into the calculator's Japanese display
 * names by a cascade of form-suffix rules and a guessing fallback, move ids
 * become Japanese move names, and the two six-slot name lists the calculator
 * form is filled with are built.
 *
 * The calculator's name list is a JavaScript Set built from an array; it is
 * modelled as the sequence of its members in insertion order, which is the
 * order in which the guessing fallback visits them.
 */
module Bridge {
  import opened Common

  // ---- normalizeId ----

  /** The characters normalizeId removes: white space, ', ’, -, _, : and . */
  predicate IdPunct(c: char) {
    IsSpace(c) || c == '\'' || c == '’' || c == '-' || c == '_' || c == ':' || c == '.'
  }

  /** normalizeId(s): lower-cased, with every IdPunct character removed. */
  function NormalizeId(s: string): (r: string)
    ensures |r| <= |s|
    ensures forall i :: 0 <= i < |r| ==> !IdPunct(r[i]) && !('A' <= r[i] <= 'Z')
  {
    Without(Lower(s), IdPunct)
  }

  /** Normalising works character by character: the id of a concatenation
      is the concatenation of the ids. */
  lemma NormalizeIdAppend(a: string, b: string)
    ensures NormalizeId(a + b) == NormalizeId(a) + NormalizeId(b)
  {
    assert Lower(a + b) == Lower(a) + Lower(b);
    WithoutAppend(Lower(a), Lower(b), IdPunct);
  }

  /** A single character is dropped when it is white space or one of the
      removed marks, and lower-cased otherwise. */
  lemma NormalizeIdChar(c: char)
    ensures NormalizeId([c]) == if IdPunct(c) then "" else [LowerChar(c)]
  {
    assert Lower([c]) == [LowerChar(c)];
    assert IdPunct(LowerChar(c)) == IdPunct(c);
    assert [LowerChar(c)][1..] == [];
  }

  /** A normalised id is its own normal form, so ids that differ only in case
      and punctuation find the same species table entry. */
  lemma NormalizeIdIdempotent(s: string)
    ensures NormalizeId(NormalizeId(s)) == NormalizeId(s)
  {
    var r := NormalizeId(s);
    assert Lower(r) == r;
    WithoutNothing(r, IdPunct);
  }

  // ---- bestGuessFromSet ----

  /** Full-width parentheses become half-width ones. */
  function HalfParen(c: char): char {
    if c == '（' then '(' else if c == '）' then ')' else c
  }

  /** name.replace(/\s+/g,"").replace(/（/g,"(").replace(/）/g,")") */
  function Clean(name: string): (s: string)
    ensures forall i :: 0 <= i < |s| ==> !IsSpace(s[i]) && s[i] != '（' && s[i] != '）'
  {
    var t := StripSpaces(name);
    seq(|t|, i requires 0 <= i < |t| => HalfParen(t[i]))
  }

  /** The Rotom appliance names the calculator writes as "ロトム" plus a one-character form. */
  function RotomForm(s: string): Option<string> {
    if s == "ヒートロトム" then Some("ロトム炎")
    else if s == "ウォッシュロトム" then Some("ロトム水")
    else if s == "フロストロトム" then Some("ロトム氷")
    else if s == "スピンロトム" then Some("ロトム飛")
    else if s == "カットロトム" then Some("ロトム草")
    else None
  }

  /** The index of the first occurrence of c in s. */
  function FirstOf(s: string, c: char): (r: Option<nat>)
    ensures r.Some? ==> r.value < |s| && s[r.value] == c && forall k :: 0 <= k < r.value ==> s[k] != c
    ensures r.None? ==> forall k :: 0 <= k < |s| ==> s[k] != c
  {
    if |s| == 0 then None
    else if s[0] == c then Some(0)
    else match FirstOf(s[1..], c)
      case None => None
      case Some(k) => Some(k + 1)
  }

  /** The index of the last occurrence of c in s. */
  function LastOf(s: string, c: char): (r: Option<nat>)
    ensures r.Some? ==> r.value < |s| && s[r.value] == c && forall k :: r.value < k < |s| ==> s[k] != c
    ensures r.None? ==> forall k :: 0 <= k < |s| ==> s[k] != c
  {
    if |s| == 0 then None
    else if s[|s| - 1] == c then Some(|s| - 1)
    else LastOf(s[..|s| - 1], c)
  }

  predicate NoSpace(s: string) {
    forall i :: 0 <= i < |s| ==> !IsSpace(s[i])
  }

  /**
   * s.replace(/\(.+\)/, ""): the first match is removed. On a string without
   * line breaks (every string it is applied to has had its white space
   * stripped) the leftmost match starts at the first "(" and, the `+` being
   * greedy, ends at the last ")", provided at least one character lies between.
   */
  function RemoveParenGroup(s: string): (r: string)
    requires NoSpace(s)
  {
    match (FirstOf(s, '('), LastOf(s, ')'))
    case (Some(i), Some(j)) => if i + 2 <= j then s[..i] + s[j + 1..] else s
    case _ => s
  }

  /** The removed part is a "(" ... ")" group with something inside, no "("
      comes before it and no ")" after it; without such a group nothing changes. */
  lemma RemoveParenGroupSpec(s: string)
    requires NoSpace(s)
    ensures RemoveParenGroup(s) == s ||
      exists i, j :: 0 <= i && i + 2 <= j < |s| && s[i] == '(' && s[j] == ')' &&
        (forall k :: 0 <= k < i ==> s[k] != '(') && (forall k :: j < k < |s| ==> s[k] != ')') &&
        RemoveParenGroup(s) == s[..i] + s[j + 1..]
  {
  }

  /** s has a "(" followed, after at least one character, by a ")". */
  predicate HasParenGroup(s: string) {
    exists i, j :: 0 <= i && i + 2 <= j < |s| && s[i] == '(' && s[j] == ')'
  }

  /** Something is removed exactly when s has a parenthesised group. */
  lemma RemoveParenGroupIff(s: string)
    requires NoSpace(s)
    ensures RemoveParenGroup(s) != s <==> HasParenGroup(s)
  {
    if HasParenGroup(s) {
      var i, j :| 0 <= i && i + 2 <= j < |s| && s[i] == '(' && s[j] == ')';
      var f, l := FirstOf(s, '('), LastOf(s, ')');
      assert f.Some? && f.value <= i;
      assert l.Some? && l.value >= j;
      assert |RemoveParenGroup(s)| == |s| - (l.value - f.value + 1);
    }
  }

  /** s.replace(/[\(\)]/g, "") */
  function NoParens(s: string): string {
    Without(s, c => c == '(' || c == ')')
  }

  /** A regional form: the prefix written in the source data and the calculator's suffix letter. */
  datatype Region = Region(k: string, suf: string)

  const Regions: seq<Region> := [Region("アローラ", "A"), Region("ガラル", "G"), Region("ヒスイ", "H")]

  /** The two rules for one region: a leading region name becomes a suffix,
      and otherwise a region name anywhere is dropped together with the
      parenthesised group; each candidate only counts when the set has it. */
  function RegionRule(s: string, r: Region, bdc: seq<string>): (c: Option<string>)
    requires NoSpace(s)
    ensures c.Some? ==> c.value in bdc
  {
    if StartsWith(s, r.k) && s[|r.k|..] + r.suf in bdc then Some(s[|r.k|..] + r.suf)
    else if Includes(s, r.k) && ReplaceFirst(RemoveParenGroup(s), r.k, "") + r.suf in bdc then
      Some(ReplaceFirst(RemoveParenGroup(s), r.k, "") + r.suf)
    else None
  }

  /** The loop over the regions, from the first to the last, stopping at the first hit. */
  function RegionalFrom(s: string, rs: seq<Region>, bdc: seq<string>): (c: Option<string>)
    requires NoSpace(s)
    ensures c.Some? ==> c.value in bdc
  {
    if |rs| == 0 then None
    else match RegionRule(s, rs[0], bdc)
      case Some(c) => Some(c)
      case None => RegionalFrom(s, rs[1..], bdc)
  }

  /** The genie and Urshifu rules, in order. */
  function FormRules(s: string, bdc: seq<string>): (c: Option<string>)
    ensures c.Some? ==> c.value in bdc
  {
    var g1 := ReplaceFirst(NoParens(s), "霊獣", "霊");
    var g2 := ReplaceFirst(NoParens(s), "化身", "化");
    if Includes(s, "霊獣") && g1 in bdc then Some(g1)
    else if Includes(s, "化身") && g2 in bdc then Some(g2)
    else if Includes(s, "いちげき") && "ウーラオス一" in bdc then Some("ウーラオス一")
    else if Includes(s, "れんげき") && "ウーラオス連" in bdc then Some("ウーラオス連")
    else None
  }

  /** The fallback's score of candidate cand against s. */
  function PrefixScore(cand: string, s: string): (n: int)
    ensures n == 0 || n == 10 || n == 40 || n == 150
    ensures n == 150 <==> cand == s
  {
    (if cand == s then 100 else 0) + (if StartsWith(cand, s) then 40 else 0)
      + (if StartsWith(s, cand) then 10 else 0)
  }

  /** The best candidate so far and its score. */
  datatype Best = Best(name: string, score: int)

  /** The fallback loop over the first members: a strictly higher score wins,
      starting from ("", -1). */
  function Fallback(s: string, xs: seq<string>): Best {
    if |xs| == 0 then Best("", -1)
    else
      var p := Fallback(s, xs[..|xs| - 1]);
      var sc := PrefixScore(xs[|xs| - 1], s);
      if sc > p.score then Best(xs[|xs| - 1], sc) else p
  }

  /** The fallback picks the first member with the highest score; since every
      score is at least 0 and the start is -1, a non-empty set always yields a member. */
  lemma {:induction false} FallbackFirstMax(s: string, xs: seq<string>)
    ensures var b := Fallback(s, xs);
      && (|xs| == 0 <==> b == Best("", -1))
      && (forall j :: 0 <= j < |xs| ==> PrefixScore(xs[j], s) <= b.score)
      && (|xs| > 0 ==>
            exists k :: 0 <= k < |xs| && xs[k] == b.name && PrefixScore(xs[k], s) == b.score &&
              forall j :: 0 <= j < k ==> PrefixScore(xs[j], s) < b.score)
  {
    if |xs| > 0 {
      var n := |xs| - 1;
      var q := xs[..n];
      FallbackFirstMax(s, q);
      assert forall j :: 0 <= j < n ==> q[j] == xs[j];
      var p := Fallback(s, q);
      if PrefixScore(xs[n], s) <= p.score {
        var k :| 0 <= k < n && q[k] == p.name && PrefixScore(q[k], s) == p.score &&
          forall j :: 0 <= j < k ==> PrefixScore(q[j], s) < p.score;
        assert xs[k] == p.name;
      }
    }
  }

  /** bestGuessFromSet(name, bdcSet) */
  function BestGuess(name: string, bdc: seq<string>): string {
    if name == "" then ""
    else if name in bdc then name
    else
      var s := Clean(name);
      if s in bdc then s
      else if RotomForm(s).Some? && RotomForm(s).value in bdc then RotomForm(s).value
      else match RegionalFrom(s, Regions, bdc)
        case Some(c) => c
        case None =>
          match FormRules(s, bdc)
          case Some(c) => c
          case None =>
            var b := Fallback(s, bdc).name;
            if b != "" then b else name
  }

  /** The guess is "" for an empty name and the name itself when the set has
      it; otherwise a member of the set or, at worst, the name unchanged. When
      the set is non-empty and has no empty entry, it is always a member. */
  lemma BestGuessSpec(name: string, bdc: seq<string>)
    ensures var r := BestGuess(name, bdc);
      && (name == "" ==> r == "")
      && (name in bdc ==> r == name)
      && (name != "" && name !in bdc && Clean(name) in bdc ==> r == Clean(name))
      && (r == name || r in bdc)
      && (name != "" && |bdc| > 0 && "" !in bdc ==> r in bdc)
  {
    FallbackFirstMax(Clean(name), bdc);
  }

  /** A leading region name (アローラ, ガラル, ヒスイ) is rewritten to the rest
      of the name plus the region's letter: when that is in the set, the rules
      before it did not apply and no earlier region matched, it is the guess. */
  lemma RegionFirst(name: string, bdc: seq<string>, i: nat)
    requires i < |Regions|
    requires name != "" && name !in bdc
    requires var s := Clean(name);
      s !in bdc && (RotomForm(s).None? || RotomForm(s).value !in bdc) &&
      (forall j :: 0 <= j < i ==> RegionRule(s, Regions[j], bdc).None?) &&
      StartsWith(s, Regions[i].k) && s[|Regions[i].k|..] + Regions[i].suf in bdc
    ensures var s := Clean(name);
      BestGuess(name, bdc) == s[|Regions[i].k|..] + Regions[i].suf
  {
    var s := Clean(name);
    for k := 0 to i
      invariant RegionalFrom(s, Regions, bdc) == RegionalFrom(s, Regions[k..], bdc)
    {
      assert Regions[k..][0] == Regions[k];
      assert Regions[k..][1..] == Regions[k + 1..];
    }
    assert Regions[i..][0] == Regions[i];
  }

  /** The regional loop of bestGuessFromSet, with its early return. */
  method RegionalLoop(s: string, bdc: seq<string>) returns (c: Option<string>)
    requires NoSpace(s)
    ensures c == RegionalFrom(s, Regions, bdc)
  {
    for i := 0 to |Regions|
      invariant RegionalFrom(s, Regions, bdc) == RegionalFrom(s, Regions[i..], bdc)
    {
      var r := Regions[i];
      if StartsWith(s, r.k) {
        var cand := s[|r.k|..] + r.suf;
        if cand in bdc {
          return Some(cand);
        }
      }
      if Includes(s, r.k) {
        var cand := ReplaceFirst(RemoveParenGroup(s), r.k, "") + r.suf;
        if cand in bdc {
          return Some(cand);
        }
      }
      assert Regions[i..][1..] == Regions[i + 1..];
    }
    c := None;
  }

  /** The fallback loop of bestGuessFromSet over the members in insertion order. */
  method FallbackLoop(s: string, bdc: seq<string>) returns (b: Best)
    ensures b == Fallback(s, bdc)
  {
    var best, bestScore := "", -1;
    for i := 0 to |bdc|
      invariant Best(best, bestScore) == Fallback(s, bdc[..i])
    {
      assert bdc[..i + 1][..i] == bdc[..i];
      var cand := bdc[i];
      var score := 0;
      if cand == s { score := score + 100; }
      if StartsWith(cand, s) { score := score + 40; }
      if StartsWith(s, cand) { score := score + 10; }
      if score > bestScore {
        bestScore := score;
        best := cand;
      }
    }
    assert bdc[..|bdc|] == bdc;
    b := Best(best, bestScore);
  }

  /** bestGuessFromSet(name, bdcSet), rule by rule. */
  method BestGuessFromSet(name: string, bdc: seq<string>) returns (r: string)
    ensures r == BestGuess(name, bdc)
  {
    if name == "" { return ""; }
    if name in bdc { return name; }
    var s := Clean(name);
    if s in bdc { return s; }
    var rotom := RotomForm(s);
    if rotom.Some? && rotom.value in bdc { return rotom.value; }
    var regional := RegionalLoop(s, bdc);
    if regional.Some? { return regional.value; }
    var forms := FormRules(s, bdc);
    if forms.Some? { return forms.value; }
    var b := FallbackLoop(s, bdc);
    r := if b.name != "" then b.name else name;
  }

  // ---- idToBdcName ----

  /** FORM_SUFFIX: the calculator's one-character form suffix for a form name. */
  function FormSuffix(form: string): Option<string> {
    if form == "ヒート" then Some("炎") else if form == "ウォッシュ" then Some("水")
    else if form == "フロスト" then Some("氷") else if form == "スピン" then Some("飛")
    else if form == "カット" then Some("草")
    else if form == "霊獣" then Some("霊") else if form == "化身" then Some("化")
    else if form == "いちげき" then Some("一") else if form == "れんげき" then Some("連")
    else if form == "アローラ" then Some("A") else if form == "ガラル" then Some("G")
    else if form == "ヒスイ" then Some("H")
    else None
  }

  /** The fields of a species table entry that the conversion reads; a missing one is "". */
  datatype Entry = Entry(speciesNameJa: string, yakkuncomName: string, yakkuncomFormName: string)

  /** a || b on strings */
  function OrElse(a: string, b: string): string { if a != "" then a else b }

  /** The direct attempts on the entry's base name and form, before the yakkuncom name. */
  function FormAttempt(base: string, form: string, e: Entry, bdc: seq<string>): (c: Option<string>)
    ensures c.Some? ==> c.value in bdc
  {
    if base == "" then None
    else if form == "" then (if base in bdc then Some(base) else None)
    else if FormSuffix(form).Some? && base + FormSuffix(form).value in bdc then Some(base + FormSuffix(form).value)
    else if base + form in bdc then Some(base + form)
    else if e.yakkuncomName != "" && e.yakkuncomName in bdc then Some(e.yakkuncomName)
    else None
  }

  /** idToBdcName(speciesId), with the species table keyed by normalised id. */
  function IdToBdcName(speciesId: string, idToEntry: map<string, Entry>, bdc: seq<string>): string {
    var id := NormalizeId(speciesId);
    if id !in idToEntry then BestGuess(speciesId, bdc)
    else
      var e := idToEntry[id];
      var base := Trim(OrElse(e.speciesNameJa, e.yakkuncomName));
      var form := Trim(e.yakkuncomFormName);
      match FormAttempt(base, form, e, bdc)
      case Some(c) => c
      case None =>
        var yk := Trim(e.yakkuncomName);
        if yk != "" && yk in bdc then yk
        else BestGuess(OrElse(yk, OrElse(base, speciesId)), bdc)
  }

  /** The conversion of a known id: a formless base the set has is returned
      as is; with a form, base + suffix, then base + form, then the yakkuncom
      name are tried, each only when the set has it; when none of these
      applies, the trimmed yakkuncom name is next. */
  lemma IdKnownCascade(speciesId: string, idToEntry: map<string, Entry>, bdc: seq<string>)
    requires NormalizeId(speciesId) in idToEntry
    ensures var r := IdToBdcName(speciesId, idToEntry, bdc);
      var e := idToEntry[NormalizeId(speciesId)];
      var base := Trim(OrElse(e.speciesNameJa, e.yakkuncomName));
      var form := Trim(e.yakkuncomFormName);
      var suf := FormSuffix(form);
      && (base != "" && form == "" && base in bdc ==> r == base)
      && (base != "" && form != "" && suf.Some? && base + suf.value in bdc ==> r == base + suf.value)
      && (base != "" && form != "" && (suf.None? || base + suf.value !in bdc) && base + form in bdc ==>
            r == base + form)
      && ((base != "" && form != "" && (suf.None? || base + suf.value !in bdc) && base + form !in bdc &&
           e.yakkuncomName != "" && e.yakkuncomName in bdc) ==> r == e.yakkuncomName)
      && (var yk := Trim(e.yakkuncomName);
          FormAttempt(base, form, e, bdc).None? && yk != "" && yk in bdc ==> r == yk)
  {
    hide BestGuess;
  }

  /** An unknown id is guessed from the id itself. Whatever comes out is a
      member of the set or one of the names the conversion tried, and a
      non-empty id never becomes the empty name when the set has no empty entry. */
  lemma IdToBdcNameSpec(speciesId: string, idToEntry: map<string, Entry>, bdc: seq<string>)
    ensures var r := IdToBdcName(speciesId, idToEntry, bdc);
      var id := NormalizeId(speciesId);
      && (id !in idToEntry ==> r == BestGuess(speciesId, bdc))
      && (r in bdc || r == speciesId ||
            (id in idToEntry && (r == Trim(idToEntry[id].yakkuncomName) ||
                                 r == Trim(OrElse(idToEntry[id].speciesNameJa, idToEntry[id].yakkuncomName)))))
      && (speciesId != "" && "" !in bdc ==> r != "")
  {
    hide Trim;
    var id := NormalizeId(speciesId);
    BestGuessSpec(speciesId, bdc);
    if id in idToEntry {
      var e := idToEntry[id];
      var base := Trim(OrElse(e.speciesNameJa, e.yakkuncomName));
      var yk := Trim(e.yakkuncomName);
      BestGuessSpec(OrElse(yk, OrElse(base, speciesId)), bdc);
    }
  }

  // ---- move names ----

  /** moveIdToJa(moveId): the Japanese name of the move's English name when
      known, else the English name, else the id itself. */
  function MoveIdToJa(moveId: string, psMoves: map<string, string>, moveEnJa: map<string, string>): (r: string)
    ensures moveId != "" ==> r != ""
    ensures moveId == "" ==> r == ""
    ensures (moveId != "" && moveId in psMoves && psMoves[moveId] in moveEnJa &&
             moveEnJa[psMoves[moveId]] != "") ==> r == moveEnJa[psMoves[moveId]]
    ensures (moveId != "" && moveId in psMoves && psMoves[moveId] != "" &&
             (psMoves[moveId] !in moveEnJa || moveEnJa[psMoves[moveId]] == "")) ==> r == psMoves[moveId]
    ensures (moveId != "" && (moveId !in psMoves || psMoves[moveId] == "") &&
             ("" !in moveEnJa || moveEnJa[""] == "")) ==> r == moveId
  {
    if moveId == "" then ""
    else
      var en := if moveId in psMoves then psMoves[moveId] else "";
      if en in moveEnJa && moveEnJa[en] != "" then moveEnJa[en]
      else OrElse(en, moveId)
  }

  // ---- the imported team ----

  /** One slot of the pick page's team as stored; a missing field is "" or empty. */
  datatype PickMon = PickMon(speciesId: string, nature: string, evs: map<string, int>, moves: seq<string>)

  const NoMon := PickMon("", "", map[], [])

  /** The natures table; None for a name it does not list. */
  function NatureJa(nature: string): Option<string> {
    if nature == "Hardy" then Some("がんばりや") else if nature == "Lonely" then Some("さみしがり")
    else if nature == "Brave" then Some("ゆうかん") else if nature == "Adamant" then Some("いじっぱり")
    else if nature == "Naughty" then Some("やんちゃ") else if nature == "Bold" then Some("ずぶとい")
    else if nature == "Docile" then Some("すなお") else if nature == "Relaxed" then Some("のんき")
    else if nature == "Impish" then Some("わんぱく") else if nature == "Lax" then Some("のうてんき")
    else if nature == "Timid" then Some("おくびょう") else if nature == "Hasty" then Some("せっかち")
    else if nature == "Serious" then Some("まじめ") else if nature == "Jolly" then Some("ようき")
    else if nature == "Naive" then Some("むじゃき") else if nature == "Modest" then Some("ひかえめ")
    else if nature == "Mild" then Some("おっとり") else if nature == "Quiet" then Some("れいせい")
    else if nature == "Bashful" then Some("てれや") else if nature == "Rash" then Some("うっかりや")
    else if nature == "Calm" then Some("おだやか") else if nature == "Gentle" then Some("おとなしい")
    else if nature == "Sassy" then Some("なまいき") else if nature == "Careful" then Some("しんちょう")
    else if nature == "Quirky" then Some("きまぐれ")
    else None
  }

  /** ev.x || 0 */
  function EvOf(evs: map<string, int>, k: string): int {
    if k in evs then evs[k] else 0
  }

  datatype Evs = Evs(h: int, a: int, b: int, c: int, d: int, s: int)

  /** One row of the party array. */
  datatype PartyRow = PartyRow(name: string, nature: string, ev: Evs, moves: seq<string>)

  /** The lookup tables buildMaps returns. */
  datatype Maps = Maps(idToEntry: map<string, Entry>, bdc: seq<string>,
                       psMoves: map<string, string>, moveEnJa: map<string, string>)

  /** left[i] || {} */
  function SlotMon(team: seq<PickMon>, i: nat): PickMon {
    if i < |team| then team[i] else NoMon
  }

  function MonName(m: PickMon, maps: Maps): string {
    if m.speciesId != "" then IdToBdcName(m.speciesId, maps.idToEntry, maps.bdc) else ""
  }

  function Row(m: PickMon, maps: Maps): PartyRow {
    PartyRow(
      MonName(m, maps),
      if m.nature != "" then (match NatureJa(m.nature) case Some(j) => j case None => "") else "",
      Evs(EvOf(m.evs, "hp"), EvOf(m.evs, "atk"), EvOf(m.evs, "def"),
          EvOf(m.evs, "spa"), EvOf(m.evs, "spd"), EvOf(m.evs, "spe")),
      seq(|m.moves|, k requires 0 <= k < |m.moves| => MoveIdToJa(m.moves[k], maps.psMoves, maps.moveEnJa)))
  }

  /** The party array: always six rows, one per slot of the left team. */
  function Party(left: seq<PickMon>, maps: Maps): (p: seq<PartyRow>)
    ensures |p| == 6
    ensures forall i :: 0 <= i < 6 ==> p[i] == Row(SlotMon(left, i), maps)
  {
    seq(6, i requires 0 <= i < 6 => Row(SlotMon(left, i), maps))
  }

  /** The opponent's names: always six, one per slot of the right team. */
  function DefNames(right: seq<PickMon>, maps: Maps): (d: seq<string>)
    ensures |d| == 6
    ensures forall i :: 0 <= i < 6 ==> d[i] == MonName(SlotMon(right, i), maps)
  {
    seq(6, i requires 0 <= i < 6 => MonName(SlotMon(right, i), maps))
  }

  /** The move names written into slot i's four move inputs: at most the first four. */
  function WrittenMoves(row: PartyRow): (ms: seq<string>)
    ensures |ms| <= 4 && |ms| <= |row.moves|
    ensures forall k :: 0 <= k < |ms| ==> ms[k] == row.moves[k]
  {
    if |row.moves| <= 4 then row.moves else row.moves[..4]
  }

  /** Each imported slot: a slot without a species id (or past the end of the
      team) gets the empty name; a slot with one gets its converted name; the
      move names keep the order and number of the stored moves, and no more
      than four are written. */
  lemma ImportShape(left: seq<PickMon>, right: seq<PickMon>, maps: Maps)
    ensures var p := Party(left, maps);
      var d := DefNames(right, maps);
      && |p| == 6 && |d| == 6
      && (forall i :: 0 <= i < 6 && (i >= |left| || left[i].speciesId == "") ==> p[i].name == "")
      && (forall i :: 0 <= i < 6 && (i >= |right| || right[i].speciesId == "") ==> d[i] == "")
      && (forall i :: 0 <= i < 6 && i < |left| && left[i].speciesId != "" ==>
            p[i].name == IdToBdcName(left[i].speciesId, maps.idToEntry, maps.bdc))
      && (forall i :: 0 <= i < 6 && i < |left| ==> |p[i].moves| == |left[i].moves|)
      && (forall i :: 0 <= i < 6 && i < |left| ==> forall k :: 0 <= k < |left[i].moves| ==>
            (p[i].moves[k] == "" <==> left[i].moves[k] == ""))
      && (forall i :: 0 <= i < 6 ==> |WrittenMoves(p[i])| <= 4)
  {
  }
}
