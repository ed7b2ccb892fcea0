/**
 * The per-mon helpers of the action advisor (ai.js:47, 76-79, 330-410):
 * heuristic damage percent, the best threat among a mon's moves, anti-setup
 * detection, the worst defensive multiplier against the opponent's types,
 * safe-switch counting and the opponent's setup potential.
 *
 * The species table and the move table are read-only inputs (`Tables`).
 * A missing string field (species id, ability, move type) is "".
 */
module Battle {
  import opened Common
  import opened TypeChart

  datatype Mon = Mon(speciesId: string, ability: string, moves: seq<string>)

  /** A move table entry; a missing basePower is 0. */
  datatype MoveData = MoveData(mtype: string, category: string, basePower: real)

  datatype Tables = Tables(
    pokedex: map<string, seq<string>>,   // species id -> its types
    moveTable: map<string, MoveData>,    // move id -> move data
    ddSet: set<string>,                  // species that may learn dragondance
    sdSet: set<string>)                  // species that may learn swordsdance

  /** One entry of the ally list: the team index, the mon and its HP percent. */
  datatype Ally = Ally(idx: int, mon: Mon, hp: real)

  /** Math.max(a, Math.min(b, n)) */
  function Clamp(n: real, a: real, b: real): (r: real)
    ensures a <= b ==> a <= r <= b
    ensures a <= n <= b ==> r == n
    ensures n <= a ==> r == a
    ensures a <= b <= n ==> r == b
  {
    if b < n then (if a < b then b else a) else (if a < n then n else a)
  }

  /** Moves that immediately reduce the opponent's chance of setting up. */
  const StopSetup: set<string> :=
    {"taunt", "encore", "roar", "whirlwind", "haze", "clearsmog",
     "dragontail", "circlethrow", "spectralthief"}

  /** A species' types, or [] when the table does not list it. */
  function GetTypes(t: Tables, speciesId: string): seq<string> {
    if speciesId in t.pokedex then t.pokedex[speciesId] else []
  }

  /** predictDamagePct: 0 for an unknown or Status move, otherwise
      (basePower or 60) x 1.5 same-type bonus x effectiveness / 2, clamped to 0..100. */
  function PredictDamage(t: Tables, att: Mon, moveId: string, def: Mon): (r: real)
    ensures 0.0 <= r <= 100.0
    ensures moveId !in t.moveTable || t.moveTable[moveId].category == "Status" ==> r == 0.0
  {
    if moveId !in t.moveTable then 0.0
    else
      var mv := t.moveTable[moveId];
      if mv.category == "Status" then 0.0
      else
        var bp := if mv.basePower != 0.0 then mv.basePower else 60.0;
        var stab := if mv.mtype in GetTypes(t, att.speciesId) then 1.5 else 1.0;
        var eff := Effect(mv.mtype, GetTypes(t, def.speciesId));
        Clamp(bp * stab * eff / 2.0, 0.0, 100.0)
  }

  /** With non-negative base powers, a move does no damage exactly when it is
      unknown, a Status move, or the defender is immune to its type. */
  lemma DamageZeroIff(t: Tables, att: Mon, moveId: string, def: Mon)
    requires forall m :: m in t.moveTable ==> t.moveTable[m].basePower >= 0.0
    ensures PredictDamage(t, att, moveId, def) == 0.0 <==>
      (moveId !in t.moveTable || t.moveTable[moveId].category == "Status"
       || Effect(t.moveTable[moveId].mtype, GetTypes(t, def.speciesId)) == 0.0)
  {
    hide Effect, Clamp;
    if moveId in t.moveTable && t.moveTable[moveId].category != "Status" {
      var mv := t.moveTable[moveId];
      var bp := if mv.basePower != 0.0 then mv.basePower else 60.0;
      var stab := if mv.mtype in GetTypes(t, att.speciesId) then 1.5 else 1.0;
      var eff := Effect(mv.mtype, GetTypes(t, def.speciesId));
      EffectNonNegative(mv.mtype, GetTypes(t, def.speciesId));
      ScaledZeroIff(bp, stab, eff);
    }
  }

  lemma ScaledZeroIff(bp: real, stab: real, eff: real)
    requires bp > 0.0 && stab > 0.0 && eff >= 0.0
    ensures Clamp(bp * stab * eff / 2.0, 0.0, 100.0) == 0.0 <==> eff == 0.0
  {
    if eff > 0.0 {
      assert bp * stab > 0.0;
      assert bp * stab * eff > 0.0;
    }
  }

  /** The result of a best-threat scan: the highest damage and the move that deals it. */
  datatype Threat = Threat(best: real, bestMove: string)

  /** bestThreatPct over the first moves: starts at (0, ""), skips empty ids,
      and replaces the best only on a strictly higher damage. */
  function BestOf(t: Tables, mon: Mon, opp: Mon, ids: seq<string>): Threat {
    if |ids| == 0 then Threat(0.0, "")
    else
      var p := BestOf(t, mon, opp, ids[..|ids| - 1]);
      var id := ids[|ids| - 1];
      if id == "" then p
      else
        var d := PredictDamage(t, mon, id, opp);
        if d > p.best then Threat(d, id) else p
  }

  /** The scan finds the maximum damage (never below 0), the earliest move
      reaching it, and "" when no move does better than 0. */
  lemma {:induction false} BestOfIsFirstMax(t: Tables, mon: Mon, opp: Mon, ids: seq<string>)
    ensures var r := BestOf(t, mon, opp, ids);
      && 0.0 <= r.best <= 100.0
      && (forall k :: 0 <= k < |ids| && ids[k] != "" ==> PredictDamage(t, mon, ids[k], opp) <= r.best)
      && (r.bestMove == "" <==> r.best == 0.0)
      && (r.bestMove != "" ==>
            && r.bestMove in ids
            && PredictDamage(t, mon, r.bestMove, opp) == r.best
            && forall k :: 0 <= k < FirstIndex(ids, r.bestMove) && ids[k] != "" ==>
                 PredictDamage(t, mon, ids[k], opp) < r.best)
  {
    hide PredictDamage;
    if |ids| > 0 {
      var q := ids[..|ids| - 1];
      var id := ids[|ids| - 1];
      BestOfIsFirstMax(t, mon, opp, q);
      var p := BestOf(t, mon, opp, q);
      assert ids == q + [id];
      var r := BestOf(t, mon, opp, ids);
      if r.bestMove != "" {
        if r == p {
          FirstIndexPrefix(q, id, r.bestMove);
        } else {
          FirstIndexLast(q, id);
        }
      }
    }
  }

  /** bestThreatPct(mon, oppMon) */
  method BestThreatPct(t: Tables, mon: Mon, opp: Mon) returns (r: Threat)
    ensures r == BestOf(t, mon, opp, mon.moves)
  {
    r := Threat(0.0, "");
    var i := 0;
    while i < |mon.moves|
      invariant 0 <= i <= |mon.moves|
      invariant r == BestOf(t, mon, opp, mon.moves[..i])
    {
      var id := mon.moves[i];
      assert mon.moves[..i + 1][..i] == mon.moves[..i];
      if id != "" {
        var p := PredictDamage(t, mon, id, opp);
        if p > r.best {
          r := Threat(p, id);
        }
      }
      i := i + 1;
    }
    assert mon.moves[..i] == mon.moves;
  }

  /** One mon's own answer to setup: the Unaware ability or a setup-stopping move. */
  predicate AntiSetupMon(m: Mon) {
    m.speciesId != "" && (Lower(m.ability) == "unaware" || exists mv :: mv in m.moves && mv in StopSetup)
  }

  /** hasAntiSetup: some ally with a species has Unaware or a move in StopSetup. */
  predicate HasAntiSetup(allies: seq<Mon>): (b: bool)
    ensures b <==> exists k :: 0 <= k < |allies| && AntiSetupMon(allies[k])
  {
    if |allies| == 0 then false
    else AntiSetupMon(allies[0]) || HasAntiSetup(allies[1..])
  }

  /** defenseWorstMult over the first attacking types: the running maximum,
      starting at 1, of the effectiveness of each type against the mon. */
  function WorstOf(t: Tables, defMon: Mon, oppTypes: seq<string>): (w: real)
    ensures w >= 1.0
  {
    if |oppTypes| == 0 then 1.0
    else
      var w := WorstOf(t, defMon, oppTypes[..|oppTypes| - 1]);
      var e := Effect(oppTypes[|oppTypes| - 1], GetTypes(t, defMon.speciesId));
      if e > w then e else w
  }

  /** No attacking type of the opponent is more effective than the worst multiplier. */
  lemma {:induction false} WorstIsMax(t: Tables, defMon: Mon, oppTypes: seq<string>)
    ensures forall k :: 0 <= k < |oppTypes| ==>
      Effect(oppTypes[k], GetTypes(t, defMon.speciesId)) <= WorstOf(t, defMon, oppTypes)
  {
    hide Effect;
    if |oppTypes| > 0 {
      var n := |oppTypes| - 1;
      var q := oppTypes[..n];
      WorstIsMax(t, defMon, q);
      assert forall k :: 0 <= k < n ==> q[k] == oppTypes[k];
    }
  }

  /** The worst multiplier is 1 or the effectiveness of one of the attacking types. */
  lemma {:induction false} WorstIsAttained(t: Tables, defMon: Mon, oppTypes: seq<string>)
    ensures WorstOf(t, defMon, oppTypes) == 1.0
      || exists k :: 0 <= k < |oppTypes| && WorstOf(t, defMon, oppTypes) == Effect(oppTypes[k], GetTypes(t, defMon.speciesId))
  {
    hide Effect;
    if |oppTypes| > 0 {
      var n := |oppTypes| - 1;
      var q := oppTypes[..n];
      WorstIsAttained(t, defMon, q);
      var e := Effect(oppTypes[n], GetTypes(t, defMon.speciesId));
      if e <= WorstOf(t, defMon, q) && WorstOf(t, defMon, q) != 1.0 {
        var k :| 0 <= k < |q| && WorstOf(t, defMon, q) == Effect(q[k], GetTypes(t, defMon.speciesId));
        assert q[k] == oppTypes[k];
      }
    }
  }

  /** defenseWorstMult(defMon, oppTypes) */
  method DefenseWorstMult(t: Tables, defMon: Mon, oppTypes: seq<string>) returns (worst: real)
    ensures worst == WorstOf(t, defMon, oppTypes)
  {
    var defTypes := GetTypes(t, defMon.speciesId);
    worst := 1.0;
    var i := 0;
    while i < |oppTypes|
      invariant 0 <= i <= |oppTypes|
      invariant worst == WorstOf(t, defMon, oppTypes[..i])
    {
      assert oppTypes[..i + 1][..i] == oppTypes[..i];
      var e := TypeEffect(oppTypes[i], defTypes);
      if e > worst {
        worst := e;
      }
      i := i + 1;
    }
    assert oppTypes[..i] == oppTypes;
  }

  /** Whether an ally counts as a safe switch-in for the given active index. */
  predicate SafeAlly(t: Tables, a: Ally, oppTypes: seq<string>, activeIdx: int) {
    a.idx != activeIdx && a.hp > 0.0 && WorstOf(t, a.mon, oppTypes) <= 1.0
  }

  /** safeSwitchCount over the first allies. Since the worst multiplier never
      drops below 1, an ally is counted only when nothing of the opponent's
      hits it harder than neutral. */
  function SafeCount(t: Tables, allies: seq<Ally>, oppTypes: seq<string>, activeIdx: int): (c: nat)
    ensures c <= |allies|
    ensures c > 0 <==> exists k :: (0 <= k < |allies| && allies[k].idx != activeIdx && allies[k].hp > 0.0
      && WorstOf(t, allies[k].mon, oppTypes) == 1.0)
  {
    if |allies| == 0 then 0
    else
      var q := allies[..|allies| - 1];
      assert forall k :: 0 <= k < |q| ==> q[k] == allies[k];
      SafeCount(t, q, oppTypes, activeIdx)
        + (if SafeAlly(t, allies[|allies| - 1], oppTypes, activeIdx) then 1 else 0)
  }

  /** safeSwitchCount(allies, oppTypes, activeIdx) */
  method SafeSwitchCount(t: Tables, allies: seq<Ally>, oppTypes: seq<string>, activeIdx: int) returns (c: nat)
    ensures c == SafeCount(t, allies, oppTypes, activeIdx)
  {
    c := 0;
    var i := 0;
    while i < |allies|
      invariant 0 <= i <= |allies|
      invariant c == SafeCount(t, allies[..i], oppTypes, activeIdx)
    {
      assert allies[..i + 1][..i] == allies[..i];
      var a := allies[i];
      if a.idx != activeIdx && a.hp > 0.0 {
        var w := DefenseWorstMult(t, a.mon, oppTypes);
        if w <= 1.0 {
          c := c + 1;
        }
      }
      i := i + 1;
    }
    assert allies[..i] == allies;
  }

  /** potentialSetup: whether the opponent may use Dragon Dance / Swords Dance. */
  datatype SetupKinds = SetupKinds(canDD: bool, canSD: bool)

  function PotentialSetup(t: Tables, opp: Mon): SetupKinds
  {
    SetupKinds("dragondance" in opp.moves || opp.speciesId in t.ddSet,
               "swordsdance" in opp.moves || opp.speciesId in t.sdSet)
  }
}
