/**
 * The statistics page (learn/data.js): for one side of the saved matches it
 * counts, per species name, the matches in which the name was on the team,
 * was picked, and led, turns the counts into rates, and shows the rows
 * filtered by a query, sorted by a chosen column and cut to a limit. The
 * matches can first be narrowed to one regulation.
 *
 * A stored entry whose lists or regulation are missing is modelled with
 * empty ones. A JavaScript Map is modelled with its keys in insertion order,
 * and localeCompare as code-point lexicographic order.
 */
module LearnData {
  import opened Common
  import opened Sorting

  // ---- uniqNonEmpty ----

  /** uniqNonEmpty(arr): the Set of the trimmed non-empty values, spread
      back into an array in insertion order. */
  method UniqNonEmpty(arr: seq<string>) returns (r: seq<string>)
    ensures r == Dedup(TrimAll(arr))
  {
    hide Trim;
    r := [];
    var seen: set<string> := {};
    for i := 0 to |arr|
      invariant r == Dedup(TrimAll(arr)[..i])
      invariant forall x :: x in seen <==> x in r
    {
      assert TrimAll(arr)[..i + 1] == TrimAll(arr)[..i] + [Trim(arr[i])];
      var n := Trim(arr[i]);
      if n != "" && n !in seen {
        seen := seen + {n};
        r := r + [n];
      }
    }
    assert TrimAll(arr)[..|arr|] == TrimAll(arr);
  }

  /** The values are distinct, and they are exactly the non-empty trimmed
      input values. */
  lemma UniqNonEmptySpec(arr: seq<string>)
    ensures Distinct(Dedup(TrimAll(arr)))
    ensures forall x :: x in Dedup(TrimAll(arr)) <==>
      x != "" && exists i :: 0 <= i < |arr| && Trim(arr[i]) == x
  {
    DedupMembers(TrimAll(arr));
    forall x | x != "" && exists i :: 0 <= i < |arr| && Trim(arr[i]) == x
      ensures x in Dedup(TrimAll(arr))
    {
      var i :| 0 <= i < |arr| && Trim(arr[i]) == x;
      assert TrimAll(arr)[i] == x;
    }
  }

  // ---- the entries ----

  /** A saved match as the statistics read it. */
  datatype Entry = Entry(
    selfTeam: seq<string>, oppTeam: seq<string>,
    selfPick: seq<string>, oppPick: seq<string>,
    reg: string)

  datatype Side = Self | Opp

  function TeamOf(e: Entry, side: Side): seq<string> {
    if side == Self then e.selfTeam else e.oppTeam
  }

  function PicksOf(e: Entry, side: Side): seq<string> {
    if side == Self then e.selfPick else e.oppPick
  }

  /** The distinct names on the side's team in one match. */
  function TeamU(e: Entry, side: Side): seq<string> { Dedup(TrimAll(TeamOf(e, side))) }

  /** The distinct names the side picked in one match. */
  function PicksU(e: Entry, side: Side): seq<string> { Dedup(TrimAll(PicksOf(e, side))) }

  /** normName((picks || [])[0]) */
  function LeadName(e: Entry, side: Side): string {
    if |PicksOf(e, side)| > 0 then Trim(PicksOf(e, side)[0]) else ""
  }

  /** A named lead is one of the side's picks. */
  lemma LeadIsPicked(e: Entry, side: Side)
    ensures LeadName(e, side) != "" ==> LeadName(e, side) in PicksU(e, side)
  {
    if LeadName(e, side) != "" {
      DedupMembers(TrimAll(PicksOf(e, side)));
      assert TrimAll(PicksOf(e, side))[0] == LeadName(e, side);
    }
  }

  /** The per-match name lists hold distinct, non-empty names. */
  lemma ListsDistinct(e: Entry, side: Side)
    ensures Distinct(TeamU(e, side)) && "" !in TeamU(e, side)
    ensures Distinct(PicksU(e, side)) && "" !in PicksU(e, side)
  {
    DedupMembers(TrimAll(TeamOf(e, side)));
    DedupMembers(TrimAll(PicksOf(e, side)));
  }

  // ---- reference counts ----

  /** The number of matches in which n was on the side's team. */
  function Appearances(es: seq<Entry>, side: Side, n: string): nat {
    if |es| == 0 then 0
    else Appearances(es[..|es| - 1], side, n) + (if n in TeamU(es[|es| - 1], side) then 1 else 0)
  }

  /** The number of matches in which the side picked n. */
  function PickGames(es: seq<Entry>, side: Side, n: string): nat {
    if |es| == 0 then 0
    else PickGames(es[..|es| - 1], side, n) + (if n in PicksU(es[|es| - 1], side) then 1 else 0)
  }

  /** The number of matches with picks in which the side led with n. */
  function LeadGames(es: seq<Entry>, side: Side, n: string): nat {
    if |es| == 0 then 0
    else
      var e := es[|es| - 1];
      LeadGames(es[..|es| - 1], side, n) +
      (if |PicksU(e, side)| > 0 && LeadName(e, side) != "" && LeadName(e, side) == n then 1 else 0)
  }

  /** The number of matches in which the side picked anyone. */
  function GamesWithPicks(es: seq<Entry>, side: Side): nat {
    if |es| == 0 then 0
    else GamesWithPicks(es[..|es| - 1], side) + (if |PicksU(es[|es| - 1], side)| > 0 then 1 else 0)
  }

  /** Each name appears at most once per match, leads only where it is
      picked, and is picked only in matches with picks. */
  lemma {:induction false} CountBounds(es: seq<Entry>, side: Side, n: string)
    ensures Appearances(es, side, n) <= |es|
    ensures LeadGames(es, side, n) <= PickGames(es, side, n)
    ensures PickGames(es, side, n) <= GamesWithPicks(es, side) <= |es|
  {
    hide TeamU, PicksU, LeadName;
    if |es| > 0 {
      var e := es[|es| - 1];
      CountBounds(es[..|es| - 1], side, n);
      LeadIsPicked(e, side);
      if n in PicksU(e, side) {
        assert |PicksU(e, side)| > 0;
      }
    }
  }

  // ---- the Maps ----

  /** A Map from names to counts, its keys in insertion order. */
  datatype Tally = Tally(keys: seq<string>, count: map<string, nat>)

  const NoTally := Tally([], map[])

  /** m.get(n) || 0 */
  function Get(t: Tally, n: string): nat {
    if n in t.count then t.count[n] else 0
  }

  /** m.set(n, (m.get(n) || 0) + 1): a new key goes last, an old one stays put. */
  function Bump(t: Tally, n: string): Tally {
    if n in t.count then Tally(t.keys, t.count[n := t.count[n] + 1])
    else Tally(t.keys + [n], t.count[n := 1])
  }

  /** Bump each name of ns in turn. */
  function BumpAll(t: Tally, ns: seq<string>): Tally {
    if |ns| == 0 then t else Bump(BumpAll(t, ns[..|ns| - 1]), ns[|ns| - 1])
  }

  ghost predicate KeysMatch(t: Tally) {
    forall n :: n in t.count <==> n in t.keys
  }

  /** Bumping distinct names adds one to each of them and to nothing else. */
  lemma {:induction false} BumpAllCounts(t: Tally, ns: seq<string>)
    requires Distinct(ns) && KeysMatch(t)
    ensures KeysMatch(BumpAll(t, ns))
    ensures forall n :: Get(BumpAll(t, ns), n) == Get(t, n) + (if n in ns then 1 else 0)
  {
    if |ns| > 0 {
      var p := ns[..|ns| - 1];
      var x := ns[|ns| - 1];
      assert ns == p + [x];
      BumpAllCounts(t, p);
      assert x !in p;
    }
  }

  /** The three Maps and the matches-with-picks counter of buildStats. */
  datatype Tallies = Tallies(appear: Tally, pick: Tally, lead: Tally, games: nat)

  /** One pass of buildStats' loop over a match. */
  function Step(ts: Tallies, e: Entry, side: Side): Tallies {
    var appear := BumpAll(ts.appear, TeamU(e, side));
    var picksU := PicksU(e, side);
    if |picksU| == 0 then ts.(appear := appear)
    else
      var lead := LeadName(e, side);
      Tallies(appear, BumpAll(ts.pick, picksU),
              if lead != "" then Bump(ts.lead, lead) else ts.lead, ts.games + 1)
  }

  /** The Maps after the loop has visited every match of es. */
  function CountAll(es: seq<Entry>, side: Side): Tallies {
    if |es| == 0 then Tallies(NoTally, NoTally, NoTally, 0)
    else Step(CountAll(es[..|es| - 1], side), es[|es| - 1], side)
  }

  /** The appear Map counts, for every name, the matches it was on the team. */
  lemma {:induction false} AppearCounts(es: seq<Entry>, side: Side)
    ensures KeysMatch(CountAll(es, side).appear)
    ensures forall n :: Get(CountAll(es, side).appear, n) == Appearances(es, side, n)
  {
    hide TeamU, PicksU, LeadName, BumpAll;
    if |es| > 0 {
      var e := es[|es| - 1];
      AppearCounts(es[..|es| - 1], side);
      ListsDistinct(e, side);
      BumpAllCounts(CountAll(es[..|es| - 1], side).appear, TeamU(e, side));
    }
  }

  /** The pick Map counts the matches in which each name was picked, and the
      counter the matches with any pick. */
  lemma {:induction false} PickCounts(es: seq<Entry>, side: Side)
    ensures KeysMatch(CountAll(es, side).pick)
    ensures forall n :: Get(CountAll(es, side).pick, n) == PickGames(es, side, n)
    ensures CountAll(es, side).games == GamesWithPicks(es, side)
  {
    hide TeamU, PicksU, LeadName, BumpAll;
    if |es| > 0 {
      var e := es[|es| - 1];
      PickCounts(es[..|es| - 1], side);
      ListsDistinct(e, side);
      BumpAllCounts(CountAll(es[..|es| - 1], side).pick, PicksU(e, side));
      if |PicksU(e, side)| == 0 {
        forall n ensures n !in PicksU(e, side) { }
      }
    }
  }

  /** The lead Map counts the matches each name led. */
  lemma {:induction false} LeadCounts(es: seq<Entry>, side: Side)
    ensures KeysMatch(CountAll(es, side).lead)
    ensures forall n :: Get(CountAll(es, side).lead, n) == LeadGames(es, side, n)
  {
    hide TeamU, PicksU, LeadName, BumpAll;
    if |es| > 0 {
      LeadCounts(es[..|es| - 1], side);
    }
  }

  /** A key is in a Map exactly when its count is positive. */
  lemma {:induction false} KeysCounted(t: Tally, ns: seq<string>)
    requires KeysMatch(t) && Distinct(ns)
    requires forall n :: n in t.count ==> t.count[n] > 0
    ensures forall n :: n in BumpAll(t, ns).count ==> BumpAll(t, ns).count[n] > 0
  {
    if |ns| > 0 {
      KeysCounted(t, ns[..|ns| - 1]);
    }
  }

  lemma {:induction false} CountsPositive(es: seq<Entry>, side: Side)
    ensures forall n :: n in CountAll(es, side).appear.count ==> CountAll(es, side).appear.count[n] > 0
    ensures forall n :: n in CountAll(es, side).pick.count ==> CountAll(es, side).pick.count[n] > 0
    ensures forall n :: n in CountAll(es, side).lead.count ==> CountAll(es, side).lead.count[n] > 0
  {
    hide TeamU, PicksU, LeadName, BumpAll;
    if |es| > 0 {
      var e := es[|es| - 1];
      var ts := CountAll(es[..|es| - 1], side);
      CountsPositive(es[..|es| - 1], side);
      AppearCounts(es[..|es| - 1], side);
      PickCounts(es[..|es| - 1], side);
      ListsDistinct(e, side);
      KeysCounted(ts.appear, TeamU(e, side));
      KeysCounted(ts.pick, PicksU(e, side));
    }
  }

  // ---- the rows ----

  datatype Row = Row(
    name: string,
    appearCount: nat, appearRate: real,
    pickCount: nat, pickRate: real,
    leadCount: nat, leadRate: real)

  datatype Stats = Stats(total: nat, gamesWithPicks: nat, rows: seq<Row>)

  /** count / denominator, or 0 when the denominator is 0. */
  function Rate(count: nat, denom: nat): (r: real)
    ensures denom == 0 ==> r == 0.0
    ensures denom > 0 ==> r * denom as real == count as real
    ensures count <= denom ==> 0.0 <= r <= 1.0
  {
    if denom == 0 then 0.0 else count as real / denom as real
  }

  function RowOf(ts: Tallies, total: nat, name: string): Row {
    Row(name,
        Get(ts.appear, name), Rate(Get(ts.appear, name), total),
        Get(ts.pick, name), Rate(Get(ts.pick, name), ts.games),
        Get(ts.lead, name), Rate(Get(ts.lead, name), ts.games))
  }

  /** The Set of all keys of the three Maps, in insertion order. */
  function RowNames(ts: Tallies): seq<string> {
    Dedup(ts.appear.keys + ts.pick.keys + ts.lead.keys)
  }

  /** buildStats(entries, side) */
  function StatsOf(es: seq<Entry>, side: Side): Stats {
    var ts := CountAll(es, side);
    var names := RowNames(ts);
    Stats(|es|, ts.games, seq(|names|, i requires 0 <= i < |names| => RowOf(ts, |es|, names[i])))
  }

  /** Adds one to an existing key or makes a new one: the Maps of buildStats. */
  method AddEach(t0: Tally, ns: seq<string>) returns (t: Tally)
    ensures t == BumpAll(t0, ns)
  {
    t := t0;
    for j := 0 to |ns|
      invariant t == BumpAll(t0, ns[..j])
    {
      assert ns[..j + 1][..j] == ns[..j];
      t := Bump(t, ns[j]);
    }
    assert ns[..|ns|] == ns;
  }

  /** The body of buildStats' loop for one match. */
  method Visit(appear0: Tally, pick0: Tally, lead0: Tally, games0: nat, e: Entry, side: Side)
    returns (appear: Tally, pick: Tally, lead: Tally, games: nat)
    ensures Tallies(appear, pick, lead, games) == Step(Tallies(appear0, pick0, lead0, games0), e, side)
  {
    hide BumpAll, Dedup, TrimAll, Trim;
    var teamU := UniqNonEmpty(TeamOf(e, side));
    appear := AddEach(appear0, teamU);
    pick, lead, games := pick0, lead0, games0;
    var picksU := UniqNonEmpty(PicksOf(e, side));
    if |picksU| > 0 {
      games := games + 1;
      pick := AddEach(pick, picksU);
      var leadName := if |PicksOf(e, side)| > 0 then Trim(PicksOf(e, side)[0]) else "";
      if leadName != "" {
        lead := Bump(lead, leadName);
      }
    }
  }

  /** buildStats(entries, side) */
  method BuildStats(entries: seq<Entry>, side: Side) returns (st: Stats)
    ensures st == StatsOf(entries, side)
  {
    hide Step, RowOf;
    var appear := NoTally;
    var pick := NoTally;
    var lead := NoTally;
    var games := 0;
    for i := 0 to |entries|
      invariant Tallies(appear, pick, lead, games) == CountAll(entries[..i], side)
    {
      assert entries[..i + 1][..i] == entries[..i];
      appear, pick, lead, games := Visit(appear, pick, lead, games, entries[i], side);
    }
    assert entries[..|entries|] == entries;
    var ts := Tallies(appear, pick, lead, games);
    var names := RowNames(ts);
    st := Stats(|entries|, games, seq(|names|, k requires 0 <= k < |names| => RowOf(ts, |entries|, names[k])));
  }

  /** The row names are distinct, and they are exactly the names that
      appear, are picked or lead in some match. */
  lemma NamesMeaning(es: seq<Entry>, side: Side)
    ensures Distinct(RowNames(CountAll(es, side)))
    ensures forall n :: n in RowNames(CountAll(es, side)) <==>
      Appearances(es, side, n) > 0 || PickGames(es, side, n) > 0 || LeadGames(es, side, n) > 0
  {
    hide CountAll, Appearances, PickGames, LeadGames;
    var ts := CountAll(es, side);
    AppearCounts(es, side);
    PickCounts(es, side);
    LeadCounts(es, side);
    CountsPositive(es, side);
    NoEmptyName(es, side);
    DedupMembers(ts.appear.keys + ts.pick.keys + ts.lead.keys);
  }

  /** Each row counts exactly the matches of its name, there is one row per
      name that appears, is picked or leads anywhere, and no other. */
  lemma StatsRows(es: seq<Entry>, side: Side)
    ensures StatsOf(es, side).total == |es|
    ensures StatsOf(es, side).gamesWithPicks == GamesWithPicks(es, side)
    ensures forall i :: 0 <= i < |StatsOf(es, side).rows| ==>
      var r := StatsOf(es, side).rows[i];
      r.appearCount == Appearances(es, side, r.name) &&
      r.pickCount == PickGames(es, side, r.name) &&
      r.leadCount == LeadGames(es, side, r.name)
    ensures forall i, j :: 0 <= i < j < |StatsOf(es, side).rows| ==>
      StatsOf(es, side).rows[i].name != StatsOf(es, side).rows[j].name
    ensures forall n :: (exists i :: 0 <= i < |StatsOf(es, side).rows| && StatsOf(es, side).rows[i].name == n) <==>
      Appearances(es, side, n) > 0 || PickGames(es, side, n) > 0 || LeadGames(es, side, n) > 0
  {
    hide CountAll, Appearances, PickGames, LeadGames, RowNames, Rate;
    var ts := CountAll(es, side);
    var st := StatsOf(es, side);
    var names := RowNames(ts);
    AppearCounts(es, side);
    PickCounts(es, side);
    LeadCounts(es, side);
    NamesMeaning(es, side);
    assert forall i :: 0 <= i < |names| ==> st.rows[i].name == names[i];
    forall n | n in names
      ensures exists i :: 0 <= i < |st.rows| && st.rows[i].name == n
    {
      var i :| 0 <= i < |names| && names[i] == n;
      assert st.rows[i].name == n;
    }
  }

  /** The empty name is never counted. */
  lemma {:induction false} NoEmptyName(es: seq<Entry>, side: Side)
    ensures Appearances(es, side, "") == 0
    ensures PickGames(es, side, "") == 0
    ensures LeadGames(es, side, "") == 0
  {
    if |es| > 0 {
      var e := es[|es| - 1];
      NoEmptyName(es[..|es| - 1], side);
      DedupMembers(TrimAll(TeamOf(e, side)));
      DedupMembers(TrimAll(PicksOf(e, side)));
    }
  }

  /** appear <= total, lead <= pick <= matches with picks <= total, and every
      rate lies in [0, 1]. */
  lemma StatsBounds(es: seq<Entry>, side: Side)
    ensures StatsOf(es, side).gamesWithPicks <= StatsOf(es, side).total
    ensures forall i :: 0 <= i < |StatsOf(es, side).rows| ==>
      var r := StatsOf(es, side).rows[i];
      r.appearCount <= StatsOf(es, side).total &&
      r.leadCount <= r.pickCount <= StatsOf(es, side).gamesWithPicks &&
      0.0 <= r.appearRate <= 1.0 && 0.0 <= r.pickRate <= 1.0 && 0.0 <= r.leadRate <= 1.0
  {
    StatsRows(es, side);
    var st := StatsOf(es, side);
    CountBounds(es, side, "");
    forall i | 0 <= i < |st.rows|
      ensures st.rows[i].appearCount <= st.total
      ensures st.rows[i].leadCount <= st.rows[i].pickCount <= st.gamesWithPicks
      ensures 0.0 <= st.rows[i].appearRate <= 1.0 && 0.0 <= st.rows[i].pickRate <= 1.0
      ensures 0.0 <= st.rows[i].leadRate <= 1.0
    {
      CountBounds(es, side, st.rows[i].name);
    }
  }

  // ---- compare ----

  /** localeCompare: negative, zero or positive. */
  function LexCmp(a: string, b: string): (c: int)
    ensures -1 <= c <= 1
  {
    if |a| == 0 then (if |b| == 0 then 0 else -1)
    else if |b| == 0 then 1
    else if a[0] < b[0] then -1
    else if a[0] > b[0] then 1
    else LexCmp(a[1..], b[1..])
  }

  lemma {:induction false} LexAntisymmetric(a: string, b: string)
    ensures LexCmp(a, b) == -LexCmp(b, a)
  {
    if |a| > 0 && |b| > 0 && a[0] == b[0] {
      LexAntisymmetric(a[1..], b[1..]);
    }
  }

  lemma {:induction false} LexZero(a: string, b: string)
    ensures LexCmp(a, b) == 0 <==> a == b
  {
    if |a| > 0 && |b| > 0 && a[0] == b[0] {
      LexZero(a[1..], b[1..]);
      assert a == [a[0]] + a[1..] && b == [b[0]] + b[1..];
    }
  }

  lemma {:induction false} LexTransitive(a: string, b: string, c: string)
    requires LexCmp(a, b) <= 0 && LexCmp(b, c) <= 0
    ensures LexCmp(a, c) <= 0
  {
    if |a| > 0 && |b| > 0 && |c| > 0 && a[0] == b[0] && b[0] == c[0] {
      LexTransitive(a[1..], b[1..], c[1..]);
    }
  }

  /** The sort-key select: 'name', a numeric column, or any other value. */
  datatype SortKey = Name | AppearCount | AppearRate | PickCount | PickRate | LeadCount | LeadRate | Other

  /** a[key] for a numeric column. */
  function Value(r: Row, key: SortKey): real {
    match key
    case AppearCount => r.appearCount as real
    case AppearRate => r.appearRate
    case PickCount => r.pickCount as real
    case PickRate => r.pickRate
    case LeadCount => r.leadCount as real
    case LeadRate => r.leadRate
    case _ => 0.0
  }

  /** compare(a, b, key), by sign: by name for 'name' and for a key no row
      has (both sides read undefined), otherwise descending by the column
      with ties broken by name. */
  function Compare(a: Row, b: Row, key: SortKey): int {
    if key == Name || key == Other then LexCmp(a.name, b.name)
    else if Value(a, key) == Value(b, key) then LexCmp(a.name, b.name)
    else if Value(b, key) > Value(a, key) then 1
    else -1
  }

  /** "a may stay before b" for the stable sort. */
  function RowLe(key: SortKey): (Row, Row) -> bool {
    (a: Row, b: Row) => Compare(a, b, key) <= 0
  }

  /** compare is antisymmetric, and 0 only between rows of the same name. */
  lemma CompareAntisymmetric(a: Row, b: Row, key: SortKey)
    ensures Compare(a, b, key) == -Compare(b, a, key)
    ensures Compare(a, b, key) == 0 ==> a.name == b.name
  {
    LexAntisymmetric(a.name, b.name);
    LexZero(a.name, b.name);
  }

  /** On a numeric column a larger value goes first. */
  lemma CompareDescending(a: Row, b: Row, key: SortKey)
    requires key != Name && key != Other
    ensures Value(a, key) > Value(b, key) ==> Compare(a, b, key) < 0
    ensures Value(a, key) < Value(b, key) ==> Compare(a, b, key) > 0
  {
  }

  lemma CompareTransitive(a: Row, b: Row, c: Row, key: SortKey)
    requires Compare(a, b, key) <= 0 && Compare(b, c, key) <= 0
    ensures Compare(a, c, key) <= 0
  {
    if key == Name || key == Other {
      LexTransitive(a.name, b.name, c.name);
    } else if Value(a, key) == Value(b, key) && Value(b, key) == Value(c, key) {
      LexTransitive(a.name, b.name, c.name);
    }
  }

  /** compare is a total preorder, so the stable sort orders the rows by it. */
  lemma RowOrder(s: seq<Row>, key: SortKey)
    ensures TotalOn(s, RowLe(key)) && TransitiveOn(s, RowLe(key))
  {
    forall a, b | a in s && b in s ensures RowLe(key)(a, b) || RowLe(key)(b, a) {
      CompareAntisymmetric(a, b, key);
    }
    forall a, b, c | a in s && b in s && c in s && RowLe(key)(a, b) && RowLe(key)(b, c)
      ensures RowLe(key)(a, c)
    {
      CompareTransitive(a, b, c, key);
    }
  }

  // ---- applyFilters and sliceRows ----

  /** arr.filter(p) */
  function Keep<T(!new)>(xs: seq<T>, p: T -> bool): (r: seq<T>)
    ensures |r| <= |xs|
    ensures forall x :: x in r <==> x in xs && p(x)
  {
    if |xs| == 0 then []
    else
      var k := Keep(xs[..|xs| - 1], p);
      var x := xs[|xs| - 1];
      assert xs == xs[..|xs| - 1] + [x];
      if p(x) then k + [x] else k
  }

  /** applyFilters(rows, q): all rows for a blank query, else those whose
      lower-cased name contains the trimmed, lower-cased query. */
  function ApplyFilters(rows: seq<Row>, q: string): (r: seq<Row>)
    ensures Trim(q) == "" ==> r == rows
    ensures Trim(q) != "" ==>
      forall x :: x in r <==> x in rows && Includes(Lower(x.name), Lower(Trim(q)))
  {
    var qq := Lower(Trim(q));
    if qq == "" then rows
    else Keep(rows, (x: Row) => Includes(Lower(x.name), qq))
  }

  /** The longest run of decimal digits at the start of s. */
  function DigitPrefix(s: string): (d: string)
    ensures |d| <= |s| && d == s[..|d|]
    ensures forall i :: 0 <= i < |d| ==> IsDigit(d[i])
    ensures |d| == |s| || !IsDigit(s[|d|])
  {
    if |s| == 0 || !IsDigit(s[0]) then ""
    else
      var rest := DigitPrefix(s[1..]);
      [s[0]] + rest
  }

  /** The value of a run of decimal digits. */
  function DigitsValue(d: string): nat
    requires forall i :: 0 <= i < |d| ==> IsDigit(d[i])
  {
    if |d| == 0 then 0
    else
      assert IsDigit(d[|d| - 1]);
      10 * DigitsValue(d[..|d| - 1]) + (d[|d| - 1] as int - '0' as int)
  }

  /** parseInt(s, 10): leading white space, an optional sign, then the
      longest run of digits; None (NaN) when there is no digit. */
  function ParseInt(s: string): (r: Option<int>)
    ensures r.None? <==> |Magnitude(s)| == 0 || !IsDigit(Magnitude(s)[0])
    ensures r.Some? && !Negative(s) ==> r.value >= 0
  {
    hide TrimStart, DigitsValue;
    var d := DigitPrefix(Magnitude(s));
    var v: int := if Negative(s) then -(DigitsValue(d) as int) else DigitsValue(d);
    if |d| == 0 then None else Some(v)
  }

  /** The text parseInt reads digits from: after white space and a sign. */
  function Magnitude(s: string): string {
    var t := TrimStart(s);
    if |t| > 0 && (t[0] == '-' || t[0] == '+') then t[1..] else t
  }

  predicate Negative(s: string) {
    var t := TrimStart(s);
    |t| > 0 && t[0] == '-'
  }

  /** A limit written as plain digits is read as its value. */
  lemma ParseIntDigits(d: string)
    requires |d| > 0 && forall i :: 0 <= i < |d| ==> IsDigit(d[i])
    ensures ParseInt(d) == Some(DigitsValue(d))
  {
    assert !IsSpace(d[0]);
    assert TrimStart(d) == d;
    assert Magnitude(d) == d && !Negative(d);
    assert DigitPrefix(d) == d;
  }

  /** sliceRows(rows, limit): every row for 'all', for a limit with no
      number and for one at or below 0; otherwise the first n rows. */
  function SliceRows(rows: seq<Row>, limit: string): (r: seq<Row>)
    ensures |r| <= |rows| && r == rows[..|r|]
    ensures limit == "all" ==> r == rows
    ensures ParseInt(limit).None? || ParseInt(limit).value <= 0 ==> r == rows
    ensures limit != "all" && ParseInt(limit).Some? && ParseInt(limit).value > 0 ==>
      |r| == (if ParseInt(limit).value < |rows| then ParseInt(limit).value else |rows|)
  {
    if limit == "all" then rows
    else
      match ParseInt(limit)
      case None => rows
      case Some(n) => if n <= 0 then rows else Take(rows, n)
  }

  // ---- regulations ----

  const AllRegs := "すべて"
  const Unset := "未設定"

  /** getRegLabel(reg): the trimmed regulation, or 未設定 when it is blank. */
  function RegLabel(reg: string): (l: string)
    ensures l != ""
    ensures Trim(reg) != "" ==> l == Trim(reg)
    ensures Trim(reg) == "" ==> l == Unset
  {
    var r := Trim(reg);
    if r != "" then r else Unset
  }

  function Labels(logs: seq<Entry>): (ls: seq<string>)
    ensures |ls| == |logs|
  {
    seq(|logs|, i requires 0 <= i < |logs| => RegLabel(logs[i].reg))
  }

  function LexLe(): (string, string) -> bool {
    (a: string, b: string) => LexCmp(a, b) <= 0
  }

  /** buildRegOptions(allLogs): すべて, then the distinct labels sorted. */
  function RegOptions(logs: seq<Entry>): seq<string> {
    [AllRegs] + SortBy(Dedup(Labels(logs)), LexLe())
  }

  /** The options after すべて are each label of the logs once, in order. */
  lemma RegOptionsSpec(logs: seq<Entry>)
    ensures |RegOptions(logs)| >= 1 && RegOptions(logs)[0] == AllRegs
    ensures forall x :: x in RegOptions(logs)[1..] <==> exists i :: 0 <= i < |logs| && RegLabel(logs[i].reg) == x
    ensures Distinct(RegOptions(logs)[1..])
    ensures SortedBy(RegOptions(logs)[1..], LexLe())
  {
    hide SortBy, Dedup, RegLabel;
    var labels := Dedup(Labels(logs));
    var sorted := SortBy(labels, LexLe());
    assert RegOptions(logs)[1..] == sorted;
    LabelsMembers(logs);
    SortBySameElements(labels, LexLe());
    PermutationDistinct(labels, sorted);
    LexOrder(labels);
    SortBySorted(labels, LexLe());
  }

  lemma LabelsMembers(logs: seq<Entry>)
    ensures Distinct(Dedup(Labels(logs)))
    ensures forall x :: x in Dedup(Labels(logs)) <==> exists i :: 0 <= i < |logs| && RegLabel(logs[i].reg) == x
  {
    hide RegLabel, Dedup;
    DedupMembers(Labels(logs));
    forall x | exists i :: 0 <= i < |logs| && RegLabel(logs[i].reg) == x
      ensures x in Labels(logs) && x != ""
    {
      var i :| 0 <= i < |logs| && RegLabel(logs[i].reg) == x;
      assert Labels(logs)[i] == x;
    }
  }

  /** Code-point order is a total preorder on strings. */
  lemma LexOrder(labels: seq<string>)
    ensures TotalOn(labels, LexLe()) && TransitiveOn(labels, LexLe())
  {
    forall a, b | a in labels && b in labels ensures LexLe()(a, b) || LexLe()(b, a) {
      LexAntisymmetric(a, b);
    }
    forall a, b, c | a in labels && b in labels && c in labels && LexLe()(a, b) && LexLe()(b, c)
      ensures LexLe()(a, c)
    {
      LexTransitive(a, b, c);
    }
  }

  /** Reordering a sequence of distinct values keeps them distinct. */
  lemma PermutationDistinct(s: seq<string>, t: seq<string>)
    requires Distinct(s) && multiset(s) == multiset(t)
    ensures Distinct(t)
  {
    forall i, j | 0 <= i < j < |t| ensures t[i] != t[j] {
      if t[i] == t[j] {
        assert t == t[..j] + [t[j]] + t[j + 1..];
        assert t[i] in t[..j];
        assert multiset(t)[t[i]] >= 2;
        DistinctCount(s, t[i]);
        assert false;
      }
    }
  }

  lemma {:induction false} DistinctCount(s: seq<string>, x: string)
    requires Distinct(s)
    ensures multiset(s)[x] <= 1
  {
    if |s| > 0 {
      var p := s[..|s| - 1];
      assert s == p + [s[|s| - 1]];
      DistinctCount(p, x);
      if x == s[|s| - 1] {
        assert x !in p;
      }
    }
  }

  /** filterByReg(logs, selected) */
  function FilterByReg(logs: seq<Entry>, selected: string): (r: seq<Entry>)
    ensures selected == AllRegs ==> r == logs
    ensures selected == Unset ==> forall e :: e in r <==> e in logs && Trim(e.reg) == ""
    ensures selected != AllRegs && selected != Unset ==>
      forall e :: e in r <==> e in logs && RegLabel(e.reg) == selected
  {
    if selected == AllRegs then logs
    else if selected == Unset then Keep(logs, (e: Entry) => Trim(e.reg) == "")
    else Keep(logs, (e: Entry) => RegLabel(e.reg) == selected)
  }

  /** Any selection other than すべて keeps only logs listed under that
      label; a regulation written out as 未設定 is listed under 未設定 but
      not kept by it. */
  lemma FilterKeepsLabel(logs: seq<Entry>, selected: string)
    requires selected != AllRegs
    ensures forall e :: e in FilterByReg(logs, selected) ==> RegLabel(e.reg) == selected
    ensures forall e :: e in logs && Trim(e.reg) == Unset ==>
      RegLabel(e.reg) == Unset && e !in FilterByReg(logs, Unset)
  {
  }

  // ---- the table ----

  /** The rows the page shows for one side: the matches narrowed to the
      regulation, counted, filtered by the query, sorted and cut. */
  function Table(logs: seq<Entry>, reg: string, side: Side, q: string, key: SortKey, limit: string): seq<Row> {
    var rows := StatsOf(FilterByReg(logs, reg), side).rows;
    SliceRows(SortBy(ApplyFilters(rows, q), RowLe(key)), limit)
  }

  /** The table is sorted by the chosen column, and with a query every row
      shown matches it. */
  lemma TableSpec(logs: seq<Entry>, reg: string, side: Side, q: string, key: SortKey, limit: string)
    ensures SortedBy(Table(logs, reg, side, q, key, limit), RowLe(key))
    ensures Trim(q) != "" ==> forall x :: x in Table(logs, reg, side, q, key, limit) ==>
      Includes(Lower(x.name), Lower(Trim(q)))
  {
    var kept := ApplyFilters(StatsOf(FilterByReg(logs, reg), side).rows, q);
    assert Table(logs, reg, side, q, key, limit) == SliceRows(SortBy(kept, RowLe(key)), limit);
    hide Table, StatsOf, FilterByReg;
    Shown(kept, key, limit);
  }

  /** The rows shown are the best of the rows that match the query, as many
      as the limit allows: they come from those rows (all of them when the
      limit cuts nothing), and each one goes no later than every matching row
      left out. */
  lemma TableRows(logs: seq<Entry>, reg: string, side: Side, q: string, key: SortKey, limit: string)
    ensures var kept := ApplyFilters(StatsOf(FilterByReg(logs, reg), side).rows, q);
      var t := Table(logs, reg, side, q, key, limit);
      && multiset(t) <= multiset(kept)
      && (limit == "all" || ParseInt(limit).None? || ParseInt(limit).value <= 0 ==> multiset(t) == multiset(kept))
      && (limit != "all" && ParseInt(limit).Some? && ParseInt(limit).value > 0 ==>
            |t| == (if ParseInt(limit).value < |kept| then ParseInt(limit).value else |kept|))
      && forall x, y :: x in t && y in kept && y !in t ==> RowLe(key)(x, y)
  {
    var kept := ApplyFilters(StatsOf(FilterByReg(logs, reg), side).rows, q);
    assert Table(logs, reg, side, q, key, limit) == SliceRows(SortBy(kept, RowLe(key)), limit);
    hide Table, StatsOf, FilterByReg, ApplyFilters;
    Shown(kept, key, limit);
  }

  /** The sorted, cut rows: sorted, drawn from the rows given, and the best of them. */
  lemma Shown(kept: seq<Row>, key: SortKey, limit: string)
    ensures var t := SliceRows(SortBy(kept, RowLe(key)), limit);
      && SortedBy(t, RowLe(key))
      && (forall x :: x in t ==> x in kept)
      && multiset(t) <= multiset(kept)
      && (limit == "all" || ParseInt(limit).None? || ParseInt(limit).value <= 0 ==> multiset(t) == multiset(kept))
      && (limit != "all" && ParseInt(limit).Some? && ParseInt(limit).value > 0 ==>
            |t| == (if ParseInt(limit).value < |kept| then ParseInt(limit).value else |kept|))
      && forall x, y :: x in t && y in kept && y !in t ==> RowLe(key)(x, y)
  {
    var sorted := SortBy(kept, RowLe(key));
    var t := SliceRows(sorted, limit);
    RowOrder(kept, key);
    SortByPrefix(kept, RowLe(key), |t|);
    assert t == sorted[..|t|];
    if |t| == |kept| {
      assert t == sorted;
    }
  }
}
