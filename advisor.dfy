/**
 * The suggestion engine of the action advisor (`compute` and its inner
 * `evalAction`, ai.js:412-422, 467-468, 504-718, 741-753).
 *
 * Everything `compute` reads from the page is an explicit input (`Scene`):
 * the two teams, the selected active indices, the two HP boxes, the two
 * option toggles, the entries of the ally HP map and the scenario. The
 * result is the ranked advice, not its HTML.
 */
module Advisor {
  import opened Common
  import opened Sorting
  import opened TypeChart
  import opened Battle

  datatype Action = Stay | UseMove(moveId: string) | SwitchTo(toIdx: int)

  /** A: strongest threat first. B: lowest losing chance first. */
  datatype Scenario = ScenarioA | ScenarioB

  /** The stored scenario, or "B" when there is none or it is empty, upper-cased;
      anything but "A" or "B" falls back to B. */
  function ParseScenario(stored: Option<string>): (sc: Scenario)
    ensures sc == ScenarioA <==> stored.Some? && |stored.value| == 1 && UpperChar(stored.value[0]) == 'A'
  {
    var v := if stored.Some? && stored.value != "" then Upper(stored.value) else "B";
    if v == "A" then ScenarioA else ScenarioB
  }

  datatype Scene = Scene(
    tables: Tables,
    left: seq<Mon>,
    right: seq<Mon>,
    idxL: int,                      // selected own active index, -1 when not a number
    idxR: int,                      // selected opposing active index
    hpLeft: Option<real>,           // own HP box as a number; None when not finite
    hpRight: Option<real>,          // opposing HP box as a number
    considerSetup: bool,
    considerNoSwitch: bool,
    allyHp: seq<(int, real)>,       // the ally HP map's entries in insertion order
    scenario: Scenario)

  /** clamp(int(value, 100), 0, 100) */
  function HpOf(v: Option<real>): (hp: real)
    ensures 0.0 <= hp <= 100.0
    ensures v.None? ==> hp == 100.0
  {
    Clamp(if v.Some? then v.value else 100.0, 0.0, 100.0)
  }

  /** allyHP.get(idx): the value stored under idx, if any. */
  function LookupHp(entries: seq<(int, real)>, idx: int): (r: Option<real>)
    ensures r.Some? <==> exists k :: 0 <= k < |entries| && entries[k].0 == idx
    ensures r.Some? ==> exists k :: 0 <= k < |entries| && entries[k] == (idx, r.value)
  {
    if |entries| == 0 then None
    else if entries[0].0 == idx then Some(entries[0].1)
    else
      var r := LookupHp(entries[1..], idx);
      assert forall k :: 0 <= k < |entries| - 1 ==> entries[1..][k] == entries[k + 1];
      r
  }

  /** allyList over the first entries: the entries whose index holds a mon with a species. */
  function AlliesOf(left: seq<Mon>, entries: seq<(int, real)>): (r: seq<Ally>)
    ensures |r| <= |entries|
    ensures forall a :: a in r ==>
      0 <= a.idx < |left| && a.mon == left[a.idx] && a.mon.speciesId != "" && (a.idx, a.hp) in entries
    ensures forall e :: e in entries && 0 <= e.0 < |left| && left[e.0].speciesId != "" ==>
      Ally(e.0, left[e.0], e.1) in r
  {
    if |entries| == 0 then []
    else
      var p := AlliesOf(left, entries[..|entries| - 1]);
      var (idx, hp) := entries[|entries| - 1];
      assert entries == entries[..|entries| - 1] + [(idx, hp)];
      if 0 <= idx < |left| && left[idx].speciesId != "" then p + [Ally(idx, left[idx], hp)] else p
  }

  /** allyList() */
  method AllyList(left: seq<Mon>, entries: seq<(int, real)>) returns (out: seq<Ally>)
    ensures out == AlliesOf(left, entries)
  {
    out := [];
    var i := 0;
    while i < |entries|
      invariant 0 <= i <= |entries|
      invariant out == AlliesOf(left, entries[..i])
    {
      assert entries[..i + 1][..i] == entries[..i];
      var (idx, hp) := entries[i];
      if 0 <= idx < |left| && left[idx].speciesId != "" {
        out := out + [Ally(idx, left[idx], hp)];
      }
      i := i + 1;
    }
    assert entries[..i] == entries;
  }

  /** Both active mons are selected and have a species. */
  predicate ActiveSet(s: Scene) {
    0 <= s.idxL < |s.left| && s.left[s.idxL].speciesId != ""
    && 0 <= s.idxR < |s.right| && s.right[s.idxR].speciesId != ""
  }

  /** What compute derives from the scene before scoring. */
  datatype Context = Context(
    tables: Tables,
    left: seq<Mon>,
    idxL: int,
    active: Mon,
    opp: Mon,
    oppTypes: seq<string>,
    hpL: real,
    hpR: real,
    considerSetup: bool,
    considerNoSwitch: bool,
    allyHp: seq<(int, real)>,
    allies: seq<Ally>,
    antiSetup: bool,
    setup: SetupKinds)

  function MonsOf(allies: seq<Ally>): (r: seq<Mon>)
    ensures |r| == |allies| && forall k :: 0 <= k < |allies| ==> r[k] == allies[k].mon
  {
    seq(|allies|, k requires 0 <= k < |allies| => allies[k].mon)
  }

  /** The ally list, with the active mon appended when the map has no entry for it. */
  function AlliesWithActive(s: Scene, hpL: real): (r: seq<Ally>)
    requires ActiveSet(s)
    ensures exists k :: 0 <= k < |r| && r[k].idx == s.idxL
    ensures forall a :: a in r ==> 0 <= a.idx < |s.left| && a.mon == s.left[a.idx]
  {
    var allies := AlliesOf(s.left, s.allyHp);
    if exists k :: 0 <= k < |allies| && allies[k].idx == s.idxL then allies
    else
      var r := allies + [Ally(s.idxL, s.left[s.idxL], hpL)];
      assert r[|allies|].idx == s.idxL;
      r
  }

  function MakeContext(s: Scene): (c: Context)
    requires ActiveSet(s)
    ensures forall a :: a in c.allies ==> 0 <= a.idx < |c.left| && a.mon == c.left[a.idx]
    ensures 0 <= c.idxL < |c.left| && c.active == c.left[c.idxL]
  {
    var active := s.left[s.idxL];
    var opp := s.right[s.idxR];
    var hpL := HpOf(s.hpLeft);
    var allies := AlliesWithActive(s, hpL);
    Context(s.tables, s.left, s.idxL, active, opp, GetTypes(s.tables, opp.speciesId),
            hpL, HpOf(s.hpRight), s.considerSetup, s.considerNoSwitch, s.allyHp, allies,
            HasAntiSetup(MonsOf(allies)), PotentialSetup(s.tables, opp))
  }

  /** One move action per non-empty move id, in stored order, repeated ids included. */
  function MoveActions(moves: seq<string>): (r: seq<Action>)
    ensures forall a :: a in r ==> a.UseMove?
    ensures forall m :: UseMove(m) in r <==> m in moves && m != ""
    ensures |r| == |Filled(moves)| && forall k :: 0 <= k < |r| ==> r[k] == UseMove(Filled(moves)[k])
  {
    if |moves| == 0 then []
    else
      var p := MoveActions(moves[..|moves| - 1]);
      var m := moves[|moves| - 1];
      assert moves == moves[..|moves| - 1] + [m];
      if m == "" then p else p + [UseMove(m)]
  }

  /** One switch action per ally other than the active one that still has HP. */
  function SwitchActions(allies: seq<Ally>, idxL: int): (r: seq<Action>)
    ensures forall a :: a in r ==> a.SwitchTo?
    ensures forall i :: SwitchTo(i) in r <==>
      i != idxL && exists k :: 0 <= k < |allies| && allies[k].idx == i && allies[k].hp > 0.0
  {
    if |allies| == 0 then []
    else
      var n := |allies| - 1;
      var p := SwitchActions(allies[..n], idxL);
      var a := allies[n];
      assert forall k :: 0 <= k < n ==> allies[..n][k] == allies[k];
      if a.idx == idxL || a.hp <= 0.0 then p else p + [SwitchTo(a.idx)]
  }

  /** The candidate list: stay, then the moves, then the switches. */
  function Candidates(c: Context): seq<Action> {
    [Stay] + MoveActions(c.active.moves) + SwitchActions(c.allies, c.idxL)
  }

  /** The candidate list is never empty: it holds exactly one stay, first,
      then one move per non-empty move id in stored order, then one switch per
      eligible ally. */
  lemma CandidatesShape(c: Context)
    ensures var acts := Candidates(c);
      var nm := |Filled(c.active.moves)|;
      && |acts| >= 1 + nm && acts[0] == Stay
      && (forall k :: 0 <= k < nm ==> acts[1 + k] == UseMove(Filled(c.active.moves)[k]))
      && (forall k :: 1 + nm <= k < |acts| ==> acts[k].SwitchTo?)
      && (forall k :: 1 <= k < |acts| ==> acts[k] != Stay)
      && (forall m :: UseMove(m) in acts <==> m in c.active.moves && m != "")
      && (forall i :: SwitchTo(i) in acts <==>
            i != c.idxL && exists k :: 0 <= k < |c.allies| && c.allies[k].idx == i && c.allies[k].hp > 0.0)
  {
    CandidatesOrder(c);
    CandidatesMembers(c);
  }

  /** The positions of the moves and the switches in the candidate list. */
  lemma CandidatesOrder(c: Context)
    ensures var acts := Candidates(c);
      var nm := |Filled(c.active.moves)|;
      && |acts| >= 1 + nm && acts[0] == Stay
      && (forall k :: 0 <= k < nm ==> acts[1 + k] == UseMove(Filled(c.active.moves)[k]))
      && (forall k :: 1 + nm <= k < |acts| ==> acts[k].SwitchTo?)
  {
    hide MoveActions, SwitchActions, Filled;
    var ms := MoveActions(c.active.moves);
    var ss := SwitchActions(c.allies, c.idxL);
    var acts := Candidates(c);
    forall k | 1 + |ms| <= k < |acts| ensures acts[k].SwitchTo? {
      assert acts[k] == ss[k - 1 - |ms|];
      assert ss[k - 1 - |ms|] in ss;
    }
    forall k | 0 <= k < |ms| ensures acts[1 + k] == ms[k] {
    }
  }

  /** The members of the candidate list. */
  lemma CandidatesMembers(c: Context)
    ensures var acts := Candidates(c);
      && (forall k :: 1 <= k < |acts| ==> acts[k] != Stay)
      && (forall m :: UseMove(m) in acts <==> m in c.active.moves && m != "")
      && (forall i :: SwitchTo(i) in acts <==>
            i != c.idxL && exists k :: 0 <= k < |c.allies| && c.allies[k].idx == i && c.allies[k].hp > 0.0)
  {
    hide MoveActions, SwitchActions;
    var ms := MoveActions(c.active.moves);
    var ss := SwitchActions(c.allies, c.idxL);
    var acts := Candidates(c);
    forall k | 1 <= k < |acts| ensures acts[k] != Stay {
      if k < 1 + |ms| {
        assert acts[k] == ms[k - 1];
        assert ms[k - 1] in ms;
      } else {
        assert acts[k] == ss[k - 1 - |ms|];
        assert ss[k - 1 - |ms|] in ss;
      }
    }
    forall a | a in acts ensures a in [Stay] || a in ms || a in ss {
      var k :| 0 <= k < |acts| && acts[k] == a;
      if k == 0 {
      } else if k < 1 + |ms| {
        assert acts[k] == ms[k - 1];
      } else {
        assert acts[k] == ss[k - 1 - |ms|];
      }
    }
    forall m | m in c.active.moves && m != "" ensures UseMove(m) in acts {
      var k :| 0 <= k < |ms| && ms[k] == UseMove(m);
      assert acts[k + 1] == UseMove(m);
    }
    forall i | (i != c.idxL && exists k :: 0 <= k < |c.allies| && c.allies[k].idx == i && c.allies[k].hp > 0.0)
      ensures SwitchTo(i) in acts
    {
      var k :| 0 <= k < |ss| && ss[k] == SwitchTo(i);
      assert acts[k + 1 + |ms|] == SwitchTo(i);
    }
  }

  /** compute's candidate generation: push a stay, each non-empty move, then each eligible switch. */
  method BuildActions(c: Context) returns (acts: seq<Action>)
    ensures acts == Candidates(c)
  {
    acts := PushMoves([Stay], c.active.moves);
    acts := PushSwitches(acts, c.allies, c.idxL);
  }

  /** The move loop of the candidate generation, pushing onto acts0. */
  method PushMoves(acts0: seq<Action>, moves: seq<string>) returns (acts: seq<Action>)
    ensures acts == acts0 + MoveActions(moves)
  {
    acts := acts0;
    var i := 0;
    while i < |moves|
      invariant 0 <= i <= |moves|
      invariant acts == acts0 + MoveActions(moves[..i])
    {
      assert moves[..i + 1][..i] == moves[..i];
      if moves[i] != "" {
        acts := acts + [UseMove(moves[i])];
      }
      i := i + 1;
    }
    assert moves[..i] == moves;
  }

  /** The switch loop of the candidate generation, pushing onto acts0. */
  method PushSwitches(acts0: seq<Action>, allies: seq<Ally>, idxL: int) returns (acts: seq<Action>)
    ensures acts == acts0 + SwitchActions(allies, idxL)
  {
    acts := acts0;
    var j := 0;
    while j < |allies|
      invariant 0 <= j <= |allies|
      invariant acts == acts0 + SwitchActions(allies[..j], idxL)
    {
      assert allies[..j + 1][..j] == allies[..j];
      var a := allies[j];
      if a.idx != idxL && a.hp > 0.0 {
        acts := acts + [SwitchTo(a.idx)];
      }
      j := j + 1;
    }
    assert allies[..j] == allies;
  }

  /** Every switch candidate names a slot of the own team. */
  lemma SwitchTargetsValid(c: Context)
    requires forall a :: a in c.allies ==> 0 <= a.idx < |c.left|
    ensures forall act :: act in Candidates(c) && act.SwitchTo? ==> 0 <= act.toIdx < |c.left|
  {
    CandidatesShape(c);
    forall act | act in Candidates(c) && act.SwitchTo? ensures 0 <= act.toIdx < |c.left| {
      assert SwitchTo(act.toIdx) in Candidates(c);
      var k :| 0 <= k < |c.allies| && c.allies[k].idx == act.toIdx && c.allies[k].hp > 0.0;
      assert c.allies[k] in c.allies;
    }
  }

  /** The four risk components of one action. */
  datatype Risks = Risks(setup: real, noSwitch: real, exposure: real, punish: real)

  /** What evalAction works out about an action before it assigns risks. */
  datatype Facts = Facts(
    afterMon: Mon,       // the mon on the field after the action
    afterHp: real,       // its HP percent
    dmg: real,           // damage of a move action, 0 otherwise
    stopNow: bool,       // the move stops setup by itself
    ko: bool,            // the move is expected to knock the opponent out
    threat: real,        // the damage threatened after the action
    safeCnt: nat,        // safe switch-ins left, seen from the mon on the field
    worst: real)         // its worst multiplier against the opponent's types

  predicate ValidAction(c: Context, act: Action) {
    act.SwitchTo? ==> 0 <= act.toIdx < |c.left|
  }

  function Assess(c: Context, act: Action): (f: Facts)
    requires ValidAction(c, act)
    ensures f.ko ==> act.UseMove? && f.dmg > 0.0 && f.dmg >= c.hpR
    ensures f.worst >= 1.0
  {
    var afterMon := if act.SwitchTo? then c.left[act.toIdx] else c.active;
    var afterHp :=
      if act.SwitchTo? then HpOf(Some(match LookupHp(c.allyHp, act.toIdx) case Some(h) => h case None => 100.0))
      else c.hpL;
    var dmg := if act.UseMove? then PredictDamage(c.tables, c.active, act.moveId, c.opp) else 0.0;
    var stopNow := act.UseMove? && act.moveId in StopSetup;
    var ko := act.UseMove? && dmg >= c.hpR && dmg > 0.0;
    var threat := if act.UseMove? then dmg else BestOf(c.tables, afterMon, c.opp, afterMon.moves).best;
    var activeIdx := if act.SwitchTo? then act.toIdx else c.idxL;
    var safeCnt := SafeCount(c.tables, c.allies, c.oppTypes, activeIdx);
    var worst := if |c.oppTypes| > 0 then WorstOf(c.tables, afterMon, c.oppTypes) else 1.0;
    Facts(afterMon, afterHp, dmg, stopNow, ko, threat, safeCnt, worst)
  }

  /** Setup risk: 0.05 unless setup is considered and the opponent can set up;
      then 0.7 (0.35 with an anti-setup answer) when the action leaves the
      opponent free, and 0.12 otherwise. */
  function SetupRisk(c: Context, f: Facts): real {
    if c.considerSetup && (c.setup.canDD || c.setup.canSD) then
      if !f.ko && !f.stopNow && f.threat < 60.0 then (if c.antiSetup then 0.35 else 0.7)
      else 0.12
    else 0.05
  }

  /** No-switch risk: 0.55 with no safe switch-in, 0.18 otherwise; 0.05 when not considered. */
  function NoSwitchRisk(c: Context, f: Facts): real {
    if c.considerNoSwitch && |c.oppTypes| > 0 then (if f.safeCnt == 0 then 0.55 else 0.18)
    else 0.05
  }

  /** Exposure risk, by the worst multiplier and the HP of the mon on the field. */
  function ExposureRisk(f: Facts): real {
    if f.worst >= 2.0 then (if f.afterHp <= 50.0 then 0.35 else 0.22)
    else if f.worst <= 0.5 then 0.03
    else 0.08
  }

  /** Punish risk: switching into a weakness. */
  function PunishRisk(c: Context, act: Action, f: Facts): real {
    if act.SwitchTo? && |c.oppTypes| > 0 && f.worst >= 2.0 then
      Clamp(0.45 + (if f.afterHp <= 80.0 then 0.15 else 0.0) + (if f.worst >= 4.0 then 0.15 else 0.0), 0.0, 0.85)
    else 0.0
  }

  function BaseRisks(c: Context, act: Action, f: Facts): Risks {
    Risks(SetupRisk(c, f), NoSwitchRisk(c, f), ExposureRisk(f), PunishRisk(c, act, f))
  }

  /** A knockout scales the components by 0.2, 0.6, 0.6 and 0.4. */
  function Dampen(r: Risks): Risks {
    Risks(r.setup * 0.2, r.noSwitch * 0.6, r.exposure * 0.6, r.punish * 0.4)
  }

  predicate InUnit(x: real) { 0.0 <= x <= 1.0 }

  function RiskList(r: Risks): seq<real> {
    [r.setup, r.noSwitch, r.exposure, r.punish]
  }

  predicate AllInUnit(rs: seq<real>) {
    forall k :: 0 <= k < |rs| ==> InUnit(rs[k])
  }

  /** The chance that none of the independent risks happens: the product of (1 - r). */
  function NoneHappen(rs: seq<real>): real {
    if |rs| == 0 then 1.0 else Survive(NoneHappen(rs[..|rs| - 1]), rs[|rs| - 1])
  }

  /** The chance x that nothing happened so far, times the chance 1 - r that one more risk does not happen. */
  function Survive(x: real, r: real): real { x * (1.0 - r) }

  /** loseProb = 1 - (1-setup)(1-noSwitch)(1-exposure)(1-punish) */
  function LoseProb(r: Risks): real {
    1.0 - NoneHappen(RiskList(r))
  }

  datatype Reject = FreeSetupNoAnswer | NoAnswers | WeakSwitch

  /** The reject reasons, in the order evalAction pushes them. */
  function RejectReasons(c: Context, act: Action, f: Facts): seq<Reject> {
    var setupOn := c.considerSetup && (c.setup.canDD || c.setup.canSD);
    var noSwitchOn := c.considerNoSwitch && |c.oppTypes| > 0;
    (if setupOn && !f.ko && !f.stopNow && f.threat < 50.0 && !c.antiSetup then [FreeSetupNoAnswer] else [])
    + (if noSwitchOn && f.safeCnt == 0 && f.worst >= 2.0 then [NoAnswers] else [])
    + (if noSwitchOn && act.SwitchTo? && f.worst >= 2.0 && f.safeCnt <= 1 then [WeakSwitch] else [])
  }

  datatype Scored = Scored(
    act: Action,
    threat: real,
    knockOut: bool,
    risks: Risks,
    loseProb: real,
    rejectReasons: seq<Reject>)
  {
    /** reject: at least one reject reason. */
    predicate Rejected() { |rejectReasons| > 0 }
  }

  /** evalAction(act) */
  function EvalAction(c: Context, act: Action): Scored
    requires ValidAction(c, act)
  {
    var f := Assess(c, act);
    var base := BaseRisks(c, act, f);
    var risks := if f.ko then Dampen(base) else base;
    Scored(act, f.threat, f.ko, risks, LoseProb(risks), RejectReasons(c, act, f))
  }

  /** The risk levels evalAction can assign. Since the worst multiplier is at
      least 1, the 0.03 exposure level is never used, and the punish risk never
      reaches its 0.85 cap. */
  lemma RiskLevels(c: Context, act: Action)
    requires ValidAction(c, act)
    ensures var r := BaseRisks(c, act, Assess(c, act));
      && (r.setup == 0.05 || r.setup == 0.12 || r.setup == 0.35 || r.setup == 0.7)
      && (r.noSwitch == 0.05 || r.noSwitch == 0.18 || r.noSwitch == 0.55)
      && (r.exposure == 0.08 || r.exposure == 0.22 || r.exposure == 0.35)
      && (r.punish == 0.0 || r.punish == 0.45 || r.punish == 0.6 || r.punish == 0.75)
      && (r.punish > 0.0 ==> act.SwitchTo?)
  {
    var f := Assess(c, act);
    assert !(f.worst <= 0.5);
  }

  /** Surviving one more risk in [0,1] keeps the chance in [0,1], never raises
      it, and never exceeds the chance of surviving that risk alone. */
  lemma SurviveBounds(x: real, r: real)
    requires InUnit(x) && InUnit(r)
    ensures InUnit(Survive(x, r)) && Survive(x, r) <= x && Survive(x, r) <= 1.0 - r
  {
    UnitProduct(x, 1.0 - r);
  }

  lemma UnitProduct(x: real, y: real)
    requires InUnit(x) && InUnit(y)
    ensures InUnit(x * y) && x * y <= x && x * y <= y
  {
  }

  /** Survive grows with the chance so far and shrinks with the risk. */
  lemma SurviveMonotone(x': real, x: real, r': real, r: real)
    requires 0.0 <= x' <= x && r <= r' <= 1.0
    ensures Survive(x', r') <= Survive(x, r)
  {
    assert x' * (1.0 - r') <= x * (1.0 - r') <= x * (1.0 - r);
  }

  /** For risks in [0,1], the chance that none happens lies in [0,1] and is at
      most the chance that any single one of them does not happen. */
  lemma {:induction false} NoneHappenBounds(rs: seq<real>)
    requires AllInUnit(rs)
    ensures InUnit(NoneHappen(rs))
    ensures forall k :: 0 <= k < |rs| ==> NoneHappen(rs) <= 1.0 - rs[k]
  {
    hide Survive;
    if |rs| > 0 {
      var n := |rs| - 1;
      var q := rs[..n];
      assert forall k :: 0 <= k < n ==> q[k] == rs[k];
      NoneHappenBounds(q);
      SurviveBounds(NoneHappen(q), rs[n]);
    }
  }

  /** Raising any risk never raises the chance that none happens. */
  lemma {:induction false} NoneHappenAntitone(rs: seq<real>, ss: seq<real>)
    requires |rs| == |ss| && AllInUnit(rs) && AllInUnit(ss)
    requires forall k :: 0 <= k < |rs| ==> rs[k] <= ss[k]
    ensures NoneHappen(ss) <= NoneHappen(rs)
  {
    hide Survive;
    if |rs| > 0 {
      var n := |rs| - 1;
      assert forall k :: 0 <= k < n ==> rs[..n][k] == rs[k] && ss[..n][k] == ss[k];
      NoneHappenAntitone(rs[..n], ss[..n]);
      NoneHappenBounds(ss[..n]);
      SurviveMonotone(NoneHappen(ss[..n]), NoneHappen(rs[..n]), ss[n], rs[n]);
    }
  }

  /** The combined losing chance lies in [0,1] and is at least each component. */
  lemma LoseProbBounds(r: Risks)
    requires AllInUnit(RiskList(r))
    ensures InUnit(LoseProb(r))
    ensures LoseProb(r) >= r.setup && LoseProb(r) >= r.noSwitch
    ensures LoseProb(r) >= r.exposure && LoseProb(r) >= r.punish
  {
    var rs := RiskList(r);
    NoneHappenBounds(rs);
    assert rs[0] == r.setup && rs[1] == r.noSwitch && rs[2] == r.exposure && rs[3] == r.punish;
  }

  /** Raising any component never lowers the combined losing chance. */
  lemma LoseProbMonotone(r: Risks, s: Risks)
    requires AllInUnit(RiskList(r)) && AllInUnit(RiskList(s))
    requires r.setup <= s.setup && r.noSwitch <= s.noSwitch
    requires r.exposure <= s.exposure && r.punish <= s.punish
    ensures LoseProb(r) <= LoseProb(s)
  {
    NoneHappenAntitone(RiskList(r), RiskList(s));
  }

  /** A knockout never raises the losing chance of an action, and only a move can knock out. */
  lemma KnockOutLowersRisk(c: Context, act: Action)
    requires ValidAction(c, act)
    ensures var f := Assess(c, act);
      EvalAction(c, act).knockOut ==>
        act.UseMove? && EvalAction(c, act).loseProb <= LoseProb(BaseRisks(c, act, f))
  {
    hide Assess, NoneHappen;
    var f := Assess(c, act);
    var base := BaseRisks(c, act, f);
    RiskLevels(c, act);
    if f.ko {
      LoseProbMonotone(Dampen(base), base);
    }
  }

  /** Every scored action's losing chance lies in [0,1]. */
  lemma EvalLoseProbInUnit(c: Context, act: Action)
    requires ValidAction(c, act)
    ensures InUnit(EvalAction(c, act).loseProb)
  {
    hide Assess, NoneHappen;
    var f := Assess(c, act);
    var base := BaseRisks(c, act, f);
    RiskLevels(c, act);
    if f.ko {
      LoseProbBounds(Dampen(base));
    } else {
      LoseProbBounds(base);
    }
  }

  /** What each reject reason implies about the action's risks. The setup
      reason (threat < 50) is stricter than the free-setup score (threat < 60),
      so it always comes with the highest setup risk. */
  lemma RejectReasonsMeaning(c: Context, act: Action)
    requires ValidAction(c, act)
    ensures var f := Assess(c, act);
      var s := EvalAction(c, act);
      var base := BaseRisks(c, act, f);
      && (FreeSetupNoAnswer in s.rejectReasons ==> s.risks.setup == 0.7 && s.threat < 50.0)
      && (NoAnswers in s.rejectReasons ==> base.noSwitch == 0.55 && base.exposure >= 0.22)
      && (WeakSwitch in s.rejectReasons ==> act.SwitchTo? && base.punish >= 0.45)
      && (!c.considerSetup && !c.considerNoSwitch ==> !s.Rejected())
  {
  }

  function ScoreAll(c: Context, acts: seq<Action>): (r: seq<Scored>)
    requires forall a :: a in acts ==> ValidAction(c, a)
    ensures |r| == |acts| && forall k :: 0 <= k < |acts| ==> r[k] == EvalAction(c, acts[k])
  {
    seq(|acts|, k requires 0 <= k < |acts| => EvalAction(c, acts[k]))
  }

  function Accepted(xs: seq<Scored>): (r: seq<Scored>)
    ensures forall y :: y in r <==> y in xs && !y.Rejected()
  {
    if |xs| == 0 then []
    else
      var n := |xs| - 1;
      assert xs == xs[..n] + [xs[n]];
      Accepted(xs[..n]) + (if xs[n].Rejected() then [] else [xs[n]])
  }

  function RejectedOf(xs: seq<Scored>): (r: seq<Scored>)
    ensures forall y :: y in r <==> y in xs && y.Rejected()
  {
    if |xs| == 0 then []
    else
      var n := |xs| - 1;
      assert xs == xs[..n] + [xs[n]];
      RejectedOf(xs[..n]) + (if xs[n].Rejected() then [xs[n]] else [])
  }

  /** The comparator of scenario A: (b.threat - a.threat) || (a.loseProb - b.loseProb). */
  function CmpA(a: Scored, b: Scored): real {
    if b.threat - a.threat != 0.0 then b.threat - a.threat else a.loseProb - b.loseProb
  }

  /** The comparator of scenario B: (a.loseProb - b.loseProb) || (b.threat - a.threat). */
  function CmpB(a: Scored, b: Scored): real {
    if a.loseProb - b.loseProb != 0.0 then a.loseProb - b.loseProb else b.threat - a.threat
  }

  /** a may stay before b: the comparator is not positive. */
  predicate LeA(a: Scored, b: Scored) { CmpA(a, b) <= 0.0 }
  predicate LeB(a: Scored, b: Scored) { CmpB(a, b) <= 0.0 }

  function Order(sc: Scenario): (Scored, Scored) -> bool {
    if sc == ScenarioA then LeA else LeB
  }

  /** Both comparators are total preorders. */
  lemma OrdersArePreorders(xs: seq<Scored>, sc: Scenario)
    ensures TotalOn(xs, Order(sc)) && TransitiveOn(xs, Order(sc))
  {
  }

  datatype Outcome =
    | NotSet                        // an active mon is missing
    | NoActions                     // no candidate action
    | Advice(top: seq<Scored>, degraded: bool, rejectedShown: seq<Scored>)

  /** The ranking: both lists are sorted by the scenario's order; the advice
      is the first three accepted actions, or the first three rejected ones
      when none is accepted, and the first twelve rejected actions are listed. */
  function Rank(scored: seq<Scored>, sc: Scenario): Outcome {
    var sa := SortBy(Accepted(scored), Order(sc));
    var sr := SortBy(RejectedOf(scored), Order(sc));
    Advice(if |sa| > 0 then Take(sa, 3) else Take(sr, 3), |sa| == 0, Take(sr, 12))
  }

  /** The scored candidates of a scene whose active mons are set. */
  function ScoredOf(s: Scene): seq<Scored>
    requires ActiveSet(s)
  {
    var c := MakeContext(s);
    SwitchTargetsValid(c);
    ScoreAll(c, Candidates(c))
  }

  /** compute() */
  function Compute(s: Scene): Outcome {
    if !ActiveSet(s) then NotSet
    else if |Candidates(MakeContext(s))| == 0 then NoActions
    else Rank(ScoredOf(s), s.scenario)
  }

  /** With at least one candidate the advice holds one to three actions,
      accepted ones unless none is accepted, and at most twelve rejected
      actions are listed. */
  lemma RankShape(scored: seq<Scored>, sc: Scenario)
    requires |scored| > 0
    ensures var o := Rank(scored, sc);
      && 1 <= |o.top| <= 3
      && |o.rejectedShown| <= 12
      && (o.degraded <==> forall x :: x in scored ==> x.Rejected())
      && (forall x :: x in o.top ==> x in scored && x.Rejected() == o.degraded)
      && (forall x :: x in o.rejectedShown ==> x in scored && x.Rejected())
  {
    var le := Order(sc);
    var acc := Accepted(scored);
    var rej := RejectedOf(scored);
    var sa := SortBy(acc, le);
    var sr := SortBy(rej, le);
    SortBySameElements(acc, le);
    SortBySameElements(rej, le);
    var o := Rank(scored, sc);
    assert o.top == (if |sa| > 0 then Take(sa, 3) else Take(sr, 3));
    assert o.degraded == (|sa| == 0);
    assert o.rejectedShown == Take(sr, 12);
    var x0 := scored[0];
    assert x0 in scored;
    if |sa| == 0 {
      assert x0 !in acc;
      assert x0 in rej;
      assert |sr| > 0;
      forall x | x in scored ensures x.Rejected() {
        assert x !in acc;
      }
    } else {
      assert acc[0] in acc;
    }
  }

  /** With both active mons set there is always a candidate, so compute
      always advises: the "no actions" branch is dead. */
  lemma ComputeAdvises(s: Scene)
    ensures Compute(s) != NoActions
    ensures Compute(s) == NotSet <==> !ActiveSet(s)
    ensures ActiveSet(s) ==> |ScoredOf(s)| > 0 && Compute(s) == Rank(ScoredOf(s), s.scenario)
  {
    if ActiveSet(s) {
      CandidatesShape(MakeContext(s));
    }
  }

  /** The actions the advice is drawn from: the accepted ones, or the
      rejected ones when none is accepted. */
  function Pool(scored: seq<Scored>): (r: seq<Scored>)
    ensures |r| == 0 ==> |scored| == 0
    ensures forall x :: x in r <==> x in scored && x.Rejected() == (|Accepted(scored)| == 0)
  {
    if |Accepted(scored)| > 0 then Accepted(scored)
    else
      assert forall x :: x in scored ==> x.Rejected();
      assert |scored| > 0 ==> scored[0] in RejectedOf(scored);
      RejectedOf(scored)
  }

  /** Both shown lists are sorted by the scenario's order. The advice is the
      best min(3, n) of the n actions of the pool and the rejected list the
      best min(12, m) of the m rejected actions: each shown action goes no
      later than every action of its list left out. */
  lemma RankOrdered(scored: seq<Scored>, sc: Scenario)
    ensures var o := Rank(scored, sc);
      var pool := Pool(scored);
      var rej := RejectedOf(scored);
      && o.degraded == (|Accepted(scored)| == 0)
      && |o.top| == (if |pool| < 3 then |pool| else 3)
      && |o.rejectedShown| == (if |rej| < 12 then |rej| else 12)
      && SortedBy(o.top, Order(sc)) && SortedBy(o.rejectedShown, Order(sc))
      && (forall t, x :: t in o.top && x in pool && x !in o.top ==> Order(sc)(t, x))
      && (forall t, x :: t in o.rejectedShown && x in rej && x !in o.rejectedShown ==> Order(sc)(t, x))
  {
    var pool := Pool(scored);
    var rej := RejectedOf(scored);
    OrdersArePreorders(pool, sc);
    OrdersArePreorders(rej, sc);
    SortByTake(pool, Order(sc), 3);
    SortByTake(rej, Order(sc), 12);
  }

  /** Actions the order ranks equal appear in the advice, and in the rejected
      list, in the order in which they were scored: the stable sort keeps
      their relative order and the lists are prefixes of the sorted ones. */
  lemma RankTies(scored: seq<Scored>, sc: Scenario, a: Scored)
    ensures var o := Rank(scored, sc);
      && Ties(o.top, Order(sc), a) <= Ties(Pool(scored), Order(sc), a)
      && Ties(o.rejectedShown, Order(sc), a) <= Ties(RejectedOf(scored), Order(sc), a)
  {
    var pool := Pool(scored);
    var rej := RejectedOf(scored);
    OrdersArePreorders([a] + pool, sc);
    OrdersArePreorders([a] + rej, sc);
    SortByStable(pool, Order(sc), a);
    SortByStable(rej, Order(sc), a);
    TiesTake(SortBy(pool, Order(sc)), Order(sc), a, 3);
    TiesTake(SortBy(rej, Order(sc)), Order(sc), a, 12);
  }

  /** The first advised action is best under the scenario's order among the
      actions of the pool (the accepted actions, or the rejected ones when none
      is accepted): in scenario A none threatens more (and an equal threat is
      no less risky); in scenario B none has a lower losing chance (and an
      equal one threatens no more). */
  lemma TopIsBest(scored: seq<Scored>, sc: Scenario)
    requires |scored| > 0
    ensures var o := Rank(scored, sc);
      forall x :: x in scored && x.Rejected() == o.degraded ==>
        if sc == ScenarioA then
          o.top[0].threat > x.threat || (o.top[0].threat == x.threat && o.top[0].loseProb <= x.loseProb)
        else
          o.top[0].loseProb < x.loseProb || (o.top[0].loseProb == x.loseProb && o.top[0].threat >= x.threat)
  {
    var o := Rank(scored, sc);
    TopFirst(scored, sc);
    hide Rank;
    forall x | x in scored && x.Rejected() == o.degraded
      ensures if sc == ScenarioA then
          o.top[0].threat > x.threat || (o.top[0].threat == x.threat && o.top[0].loseProb <= x.loseProb)
        else
          o.top[0].loseProb < x.loseProb || (o.top[0].loseProb == x.loseProb && o.top[0].threat >= x.threat)
    {
      assert x in Pool(scored);
      OrderMeans(sc, o.top[0], x);
    }
  }

  /** The first advised action goes no later than any action of the pool. */
  lemma TopFirst(scored: seq<Scored>, sc: Scenario)
    requires |scored| > 0
    ensures var o := Rank(scored, sc);
      && |o.top| > 0 && o.degraded == (|Accepted(scored)| == 0)
      && forall x :: x in Pool(scored) ==> Order(sc)(o.top[0], x) || o.top[0] == x
  {
    var le := Order(sc);
    var o := Rank(scored, sc);
    RankOrdered(scored, sc);
    assert o.Advice?;
    hide Rank;
    forall x | x in Pool(scored) ensures le(o.top[0], x) || o.top[0] == x {
      if x in o.top {
        var j :| 0 <= j < |o.top| && o.top[j] == x;
        assert j == 0 || le(o.top[0], x);
      }
    }
  }

  /** What "goes no later" means for each scenario's comparator. */
  lemma OrderMeans(sc: Scenario, h: Scored, x: Scored)
    requires Order(sc)(h, x) || h == x
    ensures if sc == ScenarioA then
        h.threat > x.threat || (h.threat == x.threat && h.loseProb <= x.loseProb)
      else
        h.loseProb < x.loseProb || (h.loseProb == x.loseProb && h.threat >= x.threat)
  {
  }
}
