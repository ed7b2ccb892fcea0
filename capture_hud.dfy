/**
 * The capture page's screen heuristics that do not need OCR: locating the
 * opponent's green HP bar in a down-scaled frame (the longest horizontal
 * run of green pixels, thickened by the nearby rows that are mostly green),
 * and the party list that recognised names are appended to.
 */
module CaptureHud {
  import opened Common
  import opened Raster

  /** isGreen: a pixel whose green channel is bright and dominates red and blue. */
  predicate IsGreen(r: int, g: int, b: int) {
    g > 110 && g > r + 28 && g > b + 28
  }

  /** The pixel at (x, y) is green; no pixel outside the frame is. */
  predicate Green(img: Image, y: int, x: int) {
    img.Valid() && 0 <= y < img.h && 0 <= x < img.w &&
    (PixelInBounds(img.w, img.h, y, x);
     var i := (y * img.w + x) * 4;
     IsGreen(img.data[i], img.data[i + 1], img.data[i + 2]))
  }

  /** Reads the pixel at (x, y) of the buffer and classifies it. */
  method PixelIsGreen(img: Image, y: int, x: int) returns (ok: bool)
    requires img.Valid() && 0 <= y < img.h && 0 <= x < img.w
    ensures ok == Green(img, y, x)
  {
    PixelInBounds(img.w, img.h, y, x);
    var i := (y * img.w + x) * 4;
    ok := IsGreen(img.data[i], img.data[i + 1], img.data[i + 2]);
  }

  /** The length of the run of green pixels that starts at (x, y). */
  function RunLen(img: Image, y: int, x: int): (n: nat)
    decreases img.w - x
    ensures n > 0 ==> 0 <= x && x + n <= img.w
    ensures forall k :: x <= k < x + n ==> Green(img, y, k)
    ensures !Green(img, y, x + n)
  {
    if 0 <= x < img.w && Green(img, y, x) then 1 + RunLen(img, y, x + 1) else 0
  }

  /** A run of green pixels begins at (x, y). */
  predicate IsStart(img: Image, y: int, x: int) {
    Green(img, y, x) && !Green(img, y, x - 1)
  }

  /** (x1, y1) comes before (x2, y2) in the row-by-row scan. */
  predicate Before(y1: int, x1: int, y2: int, x2: int) {
    y1 < y2 || (y1 == y2 && x1 < x2)
  }

  /** The run at (x, y) of length len is a longest run, and the first of the
      longest runs in scan order. */
  ghost predicate LongestFirst(img: Image, y: int, x: int, len: int) {
    IsStart(img, y, x) && RunLen(img, y, x) == len &&
    forall y', x' :: IsStart(img, y', x') ==>
      RunLen(img, y', x') <= len && (Before(y', x', y, x) ==> RunLen(img, y', x') < len)
  }

  /** The scan has finished the run at (x', y') once it stands at (x, y). */
  ghost predicate Done(img: Image, y': int, x': int, y: int, x: int) {
    y' < y || (y' == y && x' + RunLen(img, y', x') < x)
  }

  ghost predicate BestBefore(best: Option<Rect>, y: int, x: int) {
    best.Some? && Before(y, x, best.value.y, best.value.x)
  }

  /** Green on [s, e) and not at e: the run from s has length e - s. */
  lemma {:induction false} RunLenExact(img: Image, y: int, s: int, e: int)
    requires s <= e
    requires forall k :: s <= k < e ==> Green(img, y, k)
    requires !Green(img, y, e)
    ensures RunLen(img, y, s) == e - s
    decreases e - s
  {
    if s < e {
      RunLenExact(img, y, s + 1, e);
    }
  }

  /** Every green pixel belongs to a run that starts at or before it. */
  lemma {:induction false} GreenHasStart(img: Image, y: int, x: int)
    requires Green(img, y, x)
    ensures exists x' :: x' <= x && IsStart(img, y, x') && RunLen(img, y, x') > 0
    decreases x
  {
    if !IsStart(img, y, x) {
      GreenHasStart(img, y, x - 1);
    }
  }

  /** best is a run of length bestLen, or None exactly when bestLen is 0. */
  ghost predicate BestOK(img: Image, best: Option<Rect>, bestLen: nat) {
    (best.None? <==> bestLen == 0) &&
    (best.Some? ==>
      (best.value == Rect(best.value.x, best.value.y, bestLen, 1) &&
       IsStart(img, best.value.y, best.value.x) &&
       RunLen(img, best.value.y, best.value.x) == bestLen))
  }

  /** No run the scan has finished at (x, y) is longer than best, and those
      before best are shorter. */
  ghost predicate Beats(img: Image, best: Option<Rect>, bestLen: nat, y: int, x: int) {
    forall y', x' :: IsStart(img, y', x') && Done(img, y', x', y, x) ==>
      (RunLen(img, y', x') <= bestLen &&
       (BestBefore(best, y', x') ==> RunLen(img, y', x') < bestLen))
  }

  /** The scan of the first half of findHpBarRect: the first longest run of
      green pixels, as a rectangle one pixel high. */
  method LongestRun(img: Image) returns (best: Option<Rect>)
    requires img.Valid()
    ensures best.None? ==> forall y, x :: !Green(img, y, x)
    ensures best.Some? ==>
      (best.value.h == 1 && best.value.w > 0 &&
       LongestFirst(img, best.value.y, best.value.x, best.value.w))
  {
    best := None;
    var bestLen: nat := 0;
    for y := 0 to img.h
      invariant BestOK(img, best, bestLen) && (best.Some? ==> best.value.y < y)
      invariant Beats(img, best, bestLen, y, 0)
    {
      best, bestLen := ScanRow(img, y, best, bestLen);
    }
    if best.None? {
      forall y, x ensures !Green(img, y, x) {
        if Green(img, y, x) {
          GreenHasStart(img, y, x);
          var x' :| x' <= x && IsStart(img, y, x') && RunLen(img, y, x') > 0;
          assert Done(img, y, x', img.h, 0);
        }
      }
    } else {
      forall y', x' | IsStart(img, y', x') ensures Done(img, y', x', img.h, 0) {
      }
    }
  }

  /** One row of the scan: the runs of row y are finished in order, and a run
      replaces best only when it is strictly longer. */
  method ScanRow(img: Image, y: int, best0: Option<Rect>, bestLen0: nat)
    returns (best: Option<Rect>, bestLen: nat)
    requires img.Valid() && 0 <= y < img.h
    requires BestOK(img, best0, bestLen0) && (best0.Some? ==> best0.value.y < y)
    requires Beats(img, best0, bestLen0, y, 0)
    ensures BestOK(img, best, bestLen) && (best.Some? ==> best.value.y <= y)
    ensures Beats(img, best, bestLen, y + 1, 0)
  {
    hide Beats, BestOK;
    best, bestLen := best0, bestLen0;
    var runStart := -1;
    for x := 0 to img.w
      invariant -1 <= runStart < x || (runStart == -1 && x == 0)
      invariant runStart >= 0 ==>
        (IsStart(img, y, runStart) && forall k :: runStart <= k < x ==> Green(img, y, k))
      invariant runStart < 0 ==> !Green(img, y, x - 1)
      invariant BestOK(img, best, bestLen)
      invariant best.Some? ==>
        (best.value.y < y ||
         (best.value.y == y && best.value.x + bestLen < x &&
          (runStart < 0 || best.value.x + bestLen < runStart)))
      invariant Beats(img, best, bestLen, y, x)
    {
      var ok := PixelIsGreen(img, y, x);
      if ok {
        if runStart < 0 {
          runStart := x;
        }
        StepGreen(img, best, bestLen, y, x);
      } else if runStart >= 0 {
        var len := x - runStart;
        ghost var (b0, l0) := (best, bestLen);
        if len > bestLen {
          bestLen := len;
          best := Some(Rect(runStart, y, len, 1));
        }
        Recorded(img, b0, l0, best, bestLen, y, x, runStart);
        runStart := -1;
      } else {
        StepGap(img, best, bestLen, y, x);
      }
    }
    if runStart >= 0 {
      var len := img.w - runStart;
      ghost var (b0, l0) := (best, bestLen);
      if len > bestLen {
        bestLen := len;
        best := Some(Rect(runStart, y, len, 1));
      }
      Recorded(img, b0, l0, best, bestLen, y, img.w, runStart);
    } else {
      StepGap(img, best, bestLen, y, img.w);
    }
  }

  /** A green pixel at (x, y) finishes no run. */
  lemma StepGreen(img: Image, best: Option<Rect>, bestLen: nat, y: int, x: int)
    requires Green(img, y, x) && Beats(img, best, bestLen, y, x)
    ensures Beats(img, best, bestLen, y, x + 1)
  {
    forall y', x' | IsStart(img, y', x') && Done(img, y', x', y, x + 1)
      ensures Done(img, y', x', y, x)
    {
    }
  }

  /** Outside a run, a pixel that is not green finishes no run either; at the
      end of the row this finishes the row. */
  lemma StepGap(img: Image, best: Option<Rect>, bestLen: nat, y: int, x: int)
    requires !Green(img, y, x) && !Green(img, y, x - 1) && Beats(img, best, bestLen, y, x)
    ensures Beats(img, best, bestLen, y, x + 1)
    ensures x == img.w ==> Beats(img, best, bestLen, y + 1, 0)
  {
    forall y', x' | IsStart(img, y', x') && Done(img, y', x', y, x + 1)
      ensures Done(img, y', x', y, x)
    {
    }
    if x == img.w {
      forall y', x' | IsStart(img, y', x') && Done(img, y', x', y + 1, 0)
        ensures Done(img, y', x', y, x)
      {
      }
    }
  }

  /** The run from s ends before column e: recording it when it is strictly
      longer than best keeps best the first longest of the finished runs. */
  lemma Recorded(img: Image, best: Option<Rect>, bestLen: nat, nb: Option<Rect>, nl: nat,
                 y: int, e: int, s: int)
    requires 0 <= s < e <= img.w
    requires IsStart(img, y, s) && (forall k :: s <= k < e ==> Green(img, y, k)) && !Green(img, y, e)
    requires BestOK(img, best, bestLen) && Beats(img, best, bestLen, y, e)
    requires best.Some? ==> (best.value.y < y || (best.value.y == y && best.value.x + bestLen < s))
    requires if e - s > bestLen then nb == Some(Rect(s, y, e - s, 1)) && nl == e - s
             else nb == best && nl == bestLen
    ensures BestOK(img, nb, nl) && Beats(img, nb, nl, y, e + 1)
    ensures nb.Some? ==> (nb.value.y < y || (nb.value.y == y && nb.value.x + nl < e + 1))
    ensures e == img.w ==> Beats(img, nb, nl, y + 1, 0)
  {
    RunLenExact(img, y, s, e);
    RecordedBeats(img, best, bestLen, nb, nl, y, e, s);
    if e == img.w {
      RowEnd(img, nb, nl, y);
    }
  }

  /** The finished runs, now including the one from s, are beaten by the new best. */
  lemma RecordedBeats(img: Image, best: Option<Rect>, bestLen: nat, nb: Option<Rect>, nl: nat,
                      y: int, e: int, s: int)
    requires 0 <= s < e <= img.w
    requires IsStart(img, y, s) && (forall k :: s <= k < e ==> Green(img, y, k)) && RunLen(img, y, s) == e - s
    requires Beats(img, best, bestLen, y, e)
    requires best.Some? ==> (best.value.y < y || (best.value.y == y && best.value.x + bestLen < s))
    requires if e - s > bestLen then nb == Some(Rect(s, y, e - s, 1)) && nl == e - s
             else nb == best && nl == bestLen
    ensures Beats(img, nb, nl, y, e + 1)
  {
    forall y', x' | IsStart(img, y', x') && y' == y && x' + RunLen(img, y', x') == e
      ensures x' == s
    {
      EndsTogether(img, y, x', s, e);
    }
    forall y', x' | IsStart(img, y', x') && Done(img, y', x', y, e + 1)
      ensures RunLen(img, y', x') <= nl && (BestBefore(nb, y', x') ==> RunLen(img, y', x') < nl)
    {
      if !Done(img, y', x', y, e) {
        assert x' == s;
      }
    }
  }

  /** Past the last column of row y, every run of the row is finished. */
  lemma RowEnd(img: Image, b: Option<Rect>, l: nat, y: int)
    requires Beats(img, b, l, y, img.w + 1)
    ensures Beats(img, b, l, y + 1, 0)
  {
    forall y', x' | IsStart(img, y', x') && Done(img, y', x', y + 1, 0)
      ensures Done(img, y', x', y, img.w + 1)
    {
    }
  }

  /** Two runs of one row that end at the same column started at the same column. */
  lemma EndsTogether(img: Image, y: int, x': int, s: int, e: int)
    requires IsStart(img, y, x') && x' + RunLen(img, y, x') == e
    requires IsStart(img, y, s) && s < e
    requires forall k :: s <= k < e ==> Green(img, y, k)
    ensures x' == s
  {
  }

  /** Math.floor(w * 0.18): the shortest run accepted as an HP bar. */
  function MinRunLen(w: nat): nat { (18 * w) / 100 }

  /** The number of green pixels of row y in columns [x0, x1). */
  function GreenIn(img: Image, y: int, x0: int, x1: int): (n: nat)
    decreases x1 - x0
    ensures x0 <= x1 ==> n <= x1 - x0
    ensures x1 <= x0 ==> n == 0
  {
    if x1 <= x0 then 0
    else GreenIn(img, y, x0, x1 - 1) + (if Green(img, y, x1 - 1) then 1 else 0)
  }

  /** Row y is part of the bar's thickness: more than 35% of the pixels
      under the run are green. */
  predicate Thick(img: Image, y: int, run: Rect) {
    100 * GreenIn(img, y, run.x, run.x + run.w) > 35 * run.w
  }

  method CountGreen(img: Image, y: int, x0: int, x1: int) returns (cnt: nat)
    requires img.Valid() && 0 <= y < img.h && 0 <= x0 <= x1 <= img.w
    ensures cnt == GreenIn(img, y, x0, x1)
  {
    cnt := 0;
    for x := x0 to x1
      invariant cnt == GreenIn(img, y, x0, x)
    {
      var ok := PixelIsGreen(img, y, x);
      if ok {
        cnt := cnt + 1;
      }
    }
  }

  /** The second half of findHpBarRect: the band of rows around the run,
      at most 8 above and below it, that are thick. */
  method Expand(img: Image, run: Rect) returns (top: int, bot: int)
    requires img.Valid() && 0 <= run.y < img.h && 0 <= run.x && 0 <= run.w
    requires run.x + run.w <= img.w
    ensures top <= run.y <= bot
    ensures 0 <= top && run.y - 8 <= top && bot < img.h && bot <= run.y + 8
    ensures top == run.y || Thick(img, top, run)
    ensures bot == run.y || Thick(img, bot, run)
    ensures forall y :: run.y - 8 <= y <= run.y + 8 && 0 <= y < img.h && Thick(img, y, run) ==>
      top <= y <= bot
  {
    top, bot := run.y, run.y;
    for y := run.y - 8 to run.y + 9
      invariant top <= run.y <= bot
      invariant 0 <= top && run.y - 8 <= top && bot < img.h && bot <= run.y + 8
      invariant top == run.y || Thick(img, top, run)
      invariant bot == run.y || Thick(img, bot, run)
      invariant forall y' :: run.y - 8 <= y' < y && 0 <= y' < img.h && Thick(img, y', run) ==>
        top <= y' <= bot
    {
      if y < 0 || y >= img.h {
        continue;
      }
      var cnt := CountGreen(img, y, run.x, run.x + run.w);
      if 100 * cnt > 35 * run.w {
        top := if y < top then y else top;
        bot := if y > bot then y else bot;
      }
    }
  }

  /** findHpBarRect: null when there is no green run at least
      Math.floor(w * 0.18) long; otherwise the first longest run, thickened
      by the rows around it. */
  method FindHpBarRect(img: Image) returns (r: Option<Rect>)
    requires img.Valid()
    ensures r.None? <==>
      forall y, x :: IsStart(img, y, x) ==> RunLen(img, y, x) < Max(1, MinRunLen(img.w))
    ensures r.Some? ==>
      (r.value.h >= 1 && 0 <= r.value.y && r.value.y + r.value.h <= img.h &&
       exists y0 :: r.value.y <= y0 < r.value.y + r.value.h &&
         y0 - 8 <= r.value.y && r.value.y + r.value.h <= y0 + 9 &&
         LongestFirst(img, y0, r.value.x, r.value.w) && r.value.w >= MinRunLen(img.w))
  {
    var best := LongestRun(img);
    if best.None? {
      return None;
    }
    var run := best.value;
    if run.w < MinRunLen(img.w) {
      return None;
    }
    var top, bot := Expand(img, run);
    r := Some(Rect(run.x, top, run.w, Max(1, bot - top + 1)));
    assert IsStart(img, run.y, run.x);
  }

  /** addToParty on the stored list: the trimmed name is appended unless it is
      empty or already present, dropping the oldest entry when six are held. */
  function AddToParty(party: seq<string>, name: string): seq<string> {
    var nm := Trim(name);
    if nm == "" || nm in party then party
    else (if |party| >= 6 then party[1..] else party) + [nm]
  }

  /** The party stays at most six distinct names, and a new non-blank name
      becomes its last entry while everything else keeps its order. */
  lemma AddToPartyKeeps(party: seq<string>, name: string)
    requires |party| <= 6 && Distinct(party)
    ensures |AddToParty(party, name)| <= 6 && Distinct(AddToParty(party, name))
    ensures Trim(name) == "" || Trim(name) in party <==> AddToParty(party, name) == party
    ensures Trim(name) != "" && Trim(name) !in party ==>
      AddToParty(party, name) == (if |party| == 6 then party[1..] else party) + [Trim(name)]
    ensures forall x :: x in AddToParty(party, name) ==> x in party || x == Trim(name)
  {
    var nm := Trim(name);
    if nm != "" && nm !in party {
      PushNew(party, nm);
    }
  }

  /** Appending a name not yet held, after dropping the oldest of six, changes
      the list and keeps it at most six distinct names. */
  lemma PushNew(party: seq<string>, nm: string)
    requires |party| <= 6 && Distinct(party) && nm !in party
    ensures var r := (if |party| >= 6 then party[1..] else party) + [nm];
      |r| <= 6 && Distinct(r) && r != party && forall x :: x in r ==> x in party || x == nm
  {
    var kept := if |party| >= 6 then party[1..] else party;
    assert forall x :: x in kept ==> x in party;
    var r := kept + [nm];
    assert r != party by {
      if |party| < 6 {
        assert |r| == |party| + 1;
      } else {
        assert r[|r| - 1] == nm;
        assert party[|party| - 1] in party;
      }
    }
    forall i, j | 0 <= i < j < |r| ensures r[i] != r[j] {
      if j < |kept| {
        assert kept[i] != kept[j];
      } else {
        assert r[i] in kept;
      }
    }
  }

  /** The party as the page keeps it between recognitions. */
  class Party {
    var names: seq<string>

    ghost predicate Valid()
      reads this
    {
      |names| <= 6 && Distinct(names)
    }

    constructor ()
      ensures names == [] && Valid()
    {
      names := [];
    }

    method Add(name: string)
      requires Valid()
      modifies this
      ensures Valid()
      ensures names == AddToParty(old(names), name)
    {
      var nm := Trim(name);
      if nm == "" || nm in names {
        return;
      }
      if |names| >= 6 {
        names := names[1..];
      }
      names := names + [nm];
    }
  }
}
