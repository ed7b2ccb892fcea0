/**
 * The learning-log page (learn/log.js): two six-slot team lists, three pick
 * selectors per side whose options are the distinct names entered on that
 * side, a duplicate-pick warning, saving one log entry per match into the
 * browser's storage, and the list of species names offered while typing,
 * read from a cache or from the regulation CSV file.
 *
 * The page's DOM is modelled by its values: the text of each slot input and
 * the value of each pick selector. The clock is a parameter of saving, the
 * storage a field, and the fetched CSV text a parameter of loading.
 */
module LearnLog {
  import opened Common

  // ---- uniq ----

  /** uniq(arr): the distinct non-empty values of arr, in the order of their
      first occurrence (the empty string is the only falsy string). */
  method Uniq(arr: seq<string>) returns (out: seq<string>)
    ensures out == Dedup(arr)
  {
    out := [];
    var seen: set<string> := {};
    for i := 0 to |arr|
      invariant out == Dedup(arr[..i])
      invariant forall x :: x in seen <==> x in out
    {
      assert arr[..i + 1][..i] == arr[..i];
      var v := arr[i];
      if v == "" || v in seen {
        continue;
      }
      seen := seen + {v};
      out := out + [v];
    }
    assert arr[..|arr|] == arr;
  }

  // ---- trimming and filter(Boolean) ----

  /** Filtering leaves nothing exactly when every value is empty. */
  lemma {:induction false} FilledEmpty(xs: seq<string>)
    ensures |Filled(xs)| == 0 <==> forall i :: 0 <= i < |xs| ==> xs[i] == ""
  {
    if |Filled(xs)| == 0 {
      forall i | 0 <= i < |xs| ensures xs[i] == "" {
        assert xs[i] in xs;
      }
    } else {
      assert Filled(xs)[0] in Filled(xs);
    }
  }

  /** A side's entries once trimmed and emptied of blanks, as the page
      filters them before saving and before listing pick options. */
  function Entered(slots: seq<string>): seq<string> { Filled(TrimAll(slots)) }

  /** A side has nothing entered exactly when every slot is white space. */
  lemma NothingEntered(slots: seq<string>)
    ensures |Entered(slots)| == 0 <==>
      forall i, k :: 0 <= i < |slots| && 0 <= k < |slots[i]| ==> IsSpace(slots[i][k])
  {
    FilledEmpty(TrimAll(slots));
    forall i | 0 <= i < |slots| {
      TrimEmptyIffBlank(slots[i]);
    }
  }

  // ---- rebuildPickOptions ----

  /** The names a side's pick selectors offer besides the empty choice:
      uniq of the trimmed, non-empty slot values. */
  function Team(slots: seq<string>): seq<string> { Dedup(Entered(slots)) }

  /** The team lists each entered name exactly once, each of them the trimmed
      text of some slot, and nothing else. */
  lemma TeamMembers(slots: seq<string>)
    ensures Distinct(Team(slots))
    ensures |Team(slots)| <= |slots|
    ensures forall x :: x in Team(slots) <==> x != "" && exists i :: 0 <= i < |slots| && Trim(slots[i]) == x
  {
    DedupMembers(Entered(slots));
    forall x | x != "" && (exists i :: 0 <= i < |slots| && Trim(slots[i]) == x)
      ensures x in Team(slots)
    {
      var i :| 0 <= i < |slots| && Trim(slots[i]) == x;
      assert TrimAll(slots)[i] == x;
    }
  }

  /** A selector's value after its options are rebuilt: kept when the team
      still lists it, the empty choice otherwise. */
  function Restore(prev: string, team: seq<string>): (v: string)
    ensures v == "" || v in team
    ensures v == prev <==> prev in team || prev == ""
  {
    if prev in team then prev else ""
  }

  /** The values of all of a side's selectors after the rebuild. */
  function RestoreAll(picks: seq<string>, team: seq<string>): (r: seq<string>)
    ensures |r| == |picks|
  {
    seq(|picks|, i requires 0 <= i < |picks| => Restore(picks[i], team))
  }

  /** Every selector value is the empty choice or one of the side's names. */
  predicate Offered(picks: seq<string>, slots: seq<string>) {
    forall i :: 0 <= i < |picks| ==> picks[i] == "" || picks[i] in Team(slots)
  }

  /** Setting one selector to an offered value keeps every selector offered. */
  lemma OfferedUpdate(picks: seq<string>, slots: seq<string>, idx: nat, v: string)
    requires Offered(picks, slots) && idx < |picks| && (v == "" || v in Team(slots))
    ensures Offered(picks[idx := v], slots)
  {
  }

  /** fill(side): rebuild each selector's options from the side's slots and
      restore its previous value where the new options still hold it. */
  method Fill(slots: seq<string>, picks: seq<string>) returns (r: seq<string>)
    ensures r == RestoreAll(picks, Team(slots))
    ensures Offered(r, slots)
    ensures forall i :: 0 <= i < |picks| ==>
      (r[i] == picks[i] <==> picks[i] == "" || picks[i] in Team(slots))
  {
    var team := Uniq(Entered(slots));
    r := picks;
    for i := 0 to |picks|
      invariant |r| == |picks|
      invariant forall k :: 0 <= k < i ==> r[k] == Restore(picks[k], team)
      invariant forall k :: i <= k < |picks| ==> r[k] == picks[k]
    {
      var prev := r[i];
      if prev in team {
        r := r[i := prev];
      } else {
        r := r[i := ""];
      }
    }
  }

  /** Rebuilding the options of selectors that already hold offered values
      changes nothing. */
  lemma RestoreStable(picks: seq<string>, slots: seq<string>)
    requires Offered(picks, slots)
    ensures RestoreAll(picks, Team(slots)) == picks
  {
  }

  // ---- getPicks and the duplicate warning ----

  /** getPicks(side): the selectors' trimmed values, blanks dropped. */
  function GetPicks(picks: seq<string>): (r: seq<string>)
    ensures |r| <= |picks|
    ensures forall x :: x in r <==> x != "" && exists i :: 0 <= i < |picks| && Trim(picks[i]) == x
  {
    var r := Filled(TrimAll(picks));
    assert forall x :: x in TrimAll(picks) <==> exists i :: 0 <= i < |picks| && Trim(picks[i]) == x by {
      forall x | exists i :: 0 <= i < |picks| && Trim(picks[i]) == x
        ensures x in TrimAll(picks)
      {
        var i :| 0 <= i < |picks| && Trim(picks[i]) == x;
        assert TrimAll(picks)[i] == x;
      }
    }
    r
  }

  function Elems(xs: seq<string>): set<string> { set x | x in xs }

  /** dup(arr): a Set built from arr is smaller than arr. */
  predicate Dup(xs: seq<string>) { |Elems(xs)| != |xs| }

  lemma {:induction false} ElemsCount(xs: seq<string>)
    ensures |Elems(xs)| <= |xs|
    ensures |Elems(xs)| == |xs| <==> Distinct(xs)
  {
    if |xs| > 0 {
      var p := xs[..|xs| - 1];
      var x := xs[|xs| - 1];
      assert xs == p + [x];
      ElemsCount(p);
      assert Elems(xs) == Elems(p) + {x};
      if x in p {
        assert Elems(p) + {x} == Elems(p);
        var k :| 0 <= k < |p| && p[k] == x;
        assert xs[k] == xs[|xs| - 1];
      } else {
        assert x !in Elems(p);
        if Distinct(p) {
          DistinctSnoc(p, x);
        } else {
          var i, j :| 0 <= i < j < |p| && p[i] == p[j];
          assert xs[i] == xs[j];
        }
      }
    }
  }

  lemma DistinctSnoc(p: seq<string>, x: string)
    requires Distinct(p) && x !in p
    ensures Distinct(p + [x])
  {
    var xs := p + [x];
    forall i, j | 0 <= i < j < |xs| ensures xs[i] != xs[j] {
      if j < |p| {
        assert xs[i] == p[i] && xs[j] == p[j];
      } else {
        assert xs[i] in p;
      }
    }
  }

  /** The warning fires exactly when some name is picked twice. */
  lemma DupIff(xs: seq<string>)
    ensures Dup(xs) <==> exists i, j :: 0 <= i < j < |xs| && xs[i] == xs[j]
  {
    ElemsCount(xs);
  }

  datatype Warning = SelfDuplicate | OppDuplicate

  /** validate(): the warnings shown for the current picks, own side first. */
  function Warnings(selfPicks: seq<string>, oppPicks: seq<string>): (w: seq<Warning>)
    ensures |w| <= 2
    ensures SelfDuplicate in w <==> Dup(GetPicks(selfPicks))
    ensures OppDuplicate in w <==> Dup(GetPicks(oppPicks))
  {
    hide GetPicks, Dup;
    (if Dup(GetPicks(selfPicks)) then [SelfDuplicate] else []) +
    (if Dup(GetPicks(oppPicks)) then [OppDuplicate] else [])
  }

  /** The same name chosen in two of a side's selectors raises that side's
      warning, and a side whose chosen names all differ raises none. The
      condition holds both of the picks and of the selectors themselves: two
      selectors whose trimmed values are equal and not blank. */
  lemma WarnsOnRepeat(selfPicks: seq<string>, oppPicks: seq<string>)
    ensures SelfDuplicate in Warnings(selfPicks, oppPicks) <==>
      exists i, j :: 0 <= i < j < |GetPicks(selfPicks)| && GetPicks(selfPicks)[i] == GetPicks(selfPicks)[j]
    ensures OppDuplicate in Warnings(selfPicks, oppPicks) <==>
      exists i, j :: 0 <= i < j < |GetPicks(oppPicks)| && GetPicks(oppPicks)[i] == GetPicks(oppPicks)[j]
    ensures SelfDuplicate in Warnings(selfPicks, oppPicks) <==> RepeatsFilled(TrimAll(selfPicks))
    ensures OppDuplicate in Warnings(selfPicks, oppPicks) <==> RepeatsFilled(TrimAll(oppPicks))
  {
    DupIff(GetPicks(selfPicks));
    DupIff(GetPicks(oppPicks));
    FilledRepeats(TrimAll(selfPicks));
    FilledRepeats(TrimAll(oppPicks));
  }

  // ---- the stored log ----

  /** One saved match. ts and savedAt are the clock's readings. */
  datatype LogEntry = LogEntry(
    ts: string, savedAt: string,
    selfTeam: seq<string>, oppTeam: seq<string>,
    selfPick: seq<string>, oppPick: seq<string>,
    version: int)

  /** What the storage holds under the log key. */
  datatype Stored = Missing | Malformed | Logs(entries: seq<LogEntry>)

  /** readLogs(): the stored array, or none when absent or not an array. */
  function ReadLogs(st: Stored): seq<LogEntry> {
    if st.Logs? then st.entries else []
  }

  /** The "last saved" counter: savedAt, else ts, else "-". */
  function LastSaved(logs: seq<LogEntry>): (s: string)
    ensures s != ""
    ensures |logs| == 0 ==> s == "-"
  {
    if |logs| == 0 then "-"
    else
      var last := logs[|logs| - 1];
      if last.savedAt != "" then last.savedAt
      else if last.ts != "" then last.ts
      else "-"
  }

  datatype Side = Self | Opp

  /** The page's state: the slot texts, the selector values and the storage. */
  class LogPage {
    var selfSlots: seq<string>
    var oppSlots: seq<string>
    var selfPicks: seq<string>
    var oppPicks: seq<string>
    var stored: Stored

    /** Six slots and three selectors per side, each selector on one of
        the options its side offers. */
    ghost predicate Valid()
      reads this
    {
      |selfSlots| == 6 && |oppSlots| == 6 && |selfPicks| == 3 && |oppPicks| == 3 &&
      Offered(selfPicks, selfSlots) && Offered(oppPicks, oppSlots)
    }

    /** init(): blank slots, selectors on the empty choice, the storage as found. */
    constructor (st: Stored)
      ensures Valid()
      ensures selfSlots == Blank6() && oppSlots == Blank6()
      ensures selfPicks == Blank3() && oppPicks == Blank3()
      ensures stored == st
    {
      hide Team;
      selfSlots := Blank6();
      oppSlots := Blank6();
      selfPicks := Blank3();
      oppPicks := Blank3();
      stored := st;
    }

    /** rebuildPickOptions() */
    method RebuildPickOptions()
      modifies this
      ensures Offered(selfPicks, selfSlots) && Offered(oppPicks, oppSlots)
      ensures selfPicks == RestoreAll(old(selfPicks), Team(selfSlots))
      ensures oppPicks == RestoreAll(old(oppPicks), Team(oppSlots))
      ensures selfSlots == old(selfSlots) && oppSlots == old(oppSlots) && stored == old(stored)
    {
      selfPicks := Fill(selfSlots, selfPicks);
      oppPicks := Fill(oppSlots, oppPicks);
    }

    /** The input handler of slot idx: store the trimmed text, rebuild. */
    method Input(side: Side, idx: nat, text: string)
      requires Valid() && idx < 6
      modifies this
      ensures Valid()
      ensures side == Self ==> selfSlots == old(selfSlots)[idx := Trim(text)] && oppSlots == old(oppSlots)
      ensures side == Opp ==> oppSlots == old(oppSlots)[idx := Trim(text)] && selfSlots == old(selfSlots)
      ensures selfPicks == RestoreAll(old(selfPicks), Team(selfSlots))
      ensures oppPicks == RestoreAll(old(oppPicks), Team(oppSlots))
      ensures stored == old(stored)
    {
      if side == Self {
        selfSlots := selfSlots[idx := Trim(text)];
      } else {
        oppSlots := oppSlots[idx := Trim(text)];
      }
      RebuildPickOptions();
    }

    /** Choosing an option of selector idx; a selector offers only its
        side's names and the empty choice. */
    method Choose(side: Side, idx: nat, v: string)
      requires Valid() && idx < 3
      requires side == Self ==> v == "" || v in Team(selfSlots)
      requires side == Opp ==> v == "" || v in Team(oppSlots)
      modifies this
      ensures Valid()
      ensures side == Self ==> selfPicks == old(selfPicks)[idx := v] && oppPicks == old(oppPicks)
      ensures side == Opp ==> oppPicks == old(oppPicks)[idx := v] && selfPicks == old(selfPicks)
      ensures selfSlots == old(selfSlots) && oppSlots == old(oppSlots) && stored == old(stored)
    {
      hide Team;
      if side == Self {
        OfferedUpdate(selfPicks, selfSlots, idx, v);
        selfPicks := selfPicks[idx := v];
      } else {
        OfferedUpdate(oppPicks, oppSlots, idx, v);
        oppPicks := oppPicks[idx := v];
      }
    }

    /** The number of saved entries the page shows. */
    function Count(): nat
      reads this
    {
      |ReadLogs(stored)|
    }

    /** saveLog(): refuse when neither side has an entry; otherwise append one
        entry holding both sides' six trimmed slots and three trimmed picks. */
    method SaveLog(ts: string, savedAt: string) returns (saved: bool)
      requires Valid()
      modifies this
      ensures Valid()
      ensures saved <==> |Entered(selfSlots)| > 0 || |Entered(oppSlots)| > 0
      ensures !saved ==> stored == old(stored)
      ensures saved ==> stored == Logs(ReadLogs(old(stored)) + [LogEntry(
        ts, savedAt, TrimAll(selfSlots), TrimAll(oppSlots), TrimAll(selfPicks), TrimAll(oppPicks), 1)])
      ensures saved ==> Count() == old(Count()) + 1
      ensures selfSlots == old(selfSlots) && oppSlots == old(oppSlots)
      ensures selfPicks == old(selfPicks) && oppPicks == old(oppPicks)
    {
      var selfTeam := Entered(selfSlots);
      var oppTeam := Entered(oppSlots);
      if |selfTeam| == 0 && |oppTeam| == 0 {
        return false;
      }
      var entry := LogEntry(ts, savedAt, TrimAll(selfSlots), TrimAll(oppSlots),
                            TrimAll(selfPicks), TrimAll(oppPicks), 1);
      var logs := ReadLogs(stored);
      logs := logs + [entry];
      stored := Logs(logs);
      saved := true;
    }

    /** clearAll(): blank every slot and selector, then rebuild. */
    method ClearAll()
      modifies this
      ensures Valid()
      ensures selfSlots == Blank6() && oppSlots == Blank6()
      ensures selfPicks == Blank3() && oppPicks == Blank3()
      ensures stored == old(stored)
    {
      hide Team;
      selfSlots := Blank6();
      oppSlots := Blank6();
      selfPicks := Blank3();
      oppPicks := Blank3();
      RebuildPickOptions();
      RestoreBlank(Team(selfSlots));
      RestoreBlank(Team(oppSlots));
    }
  }

  function Blank6(): seq<string> { ["", "", "", "", "", ""] }
  function Blank3(): seq<string> { ["", "", ""] }

  /** Blank selectors stay blank whatever the options. */
  lemma RestoreBlank(team: seq<string>)
    ensures RestoreAll(Blank3(), team) == Blank3()
  {
    hide Restore;
    assert forall i :: 0 <= i < 3 ==> RestoreAll(Blank3(), team)[i] == "";
  }

  // ---- loadNames ----

  /** str.split(sep) for a one-character separator. */
  function Split(s: string, sep: char): (r: seq<string>)
    ensures |r| >= 1
    ensures forall i :: 0 <= i < |r| ==> sep !in r[i]
  {
    if |s| == 0 then [""]
    else
      var rest := Split(s[1..], sep);
      if s[0] == sep then [""] + rest
      else [[s[0]] + rest[0]] + rest[1..]
  }

  /** parts.join(sep) */
  function Join(parts: seq<string>, sep: char): string
    requires |parts| >= 1
  {
    if |parts| == 1 then parts[0] else parts[0] + [sep] + Join(parts[1..], sep)
  }

  /** Splitting loses nothing: joining the pieces gives back the text. */
  lemma {:induction false} SplitJoin(s: string, sep: char)
    ensures Join(Split(s, sep), sep) == s
  {
    if |s| > 0 {
      var rest := Split(s[1..], sep);
      SplitJoin(s[1..], sep);
      if s[0] == sep {
        assert ([""] + rest)[1..] == rest;
      } else {
        var parts := [[s[0]] + rest[0]] + rest[1..];
        if |rest| > 1 {
          assert parts[1..] == rest[1..];
        }
      }
    }
  }

  /** A carriage return before a line feed belongs to the separator. */
  function DropCR(line: string): string {
    if |line| > 0 && line[|line| - 1] == '\r' then line[..|line| - 1] else line
  }

  /** text.split(/\r?\n/) */
  function Lines(text: string): (r: seq<string>)
    ensures |r| >= 1
  {
    var ps := Split(text, '\n');
    seq(|ps|, i requires 0 <= i < |ps| => if i < |ps| - 1 then DropCR(ps[i]) else ps[i])
  }

  /** (cols[1] || "").trim() for cols = line.split(","). */
  function NameCell(line: string): string {
    var cols := Split(line, ',');
    Trim(if |cols| >= 2 then cols[1] else "")
  }

  function NameCells(lines: seq<string>): (r: seq<string>)
    ensures |r| == |lines|
  {
    seq(|lines|, i requires 0 <= i < |lines| => NameCell(lines[i]))
  }

  /** The non-blank lines of the CSV text, header included. */
  function Records(text: string): seq<string> { Filled(Lines(text)) }

  /** The names the CSV lists: the trimmed second field of each non-blank
      line after the header, empty ones skipped, each name once. */
  function CsvNames(text: string): seq<string> {
    var ls := Records(text);
    if |ls| <= 1 then [] else Dedup(NameCells(ls[1..]))
  }

  /** The loop of loadNames over the CSV lines after the header. */
  method ParseNames(text: string) returns (names: seq<string>)
    ensures names == CsvNames(text)
  {
    hide Records, NameCell;
    var lines := Records(text);
    names := [];
    if |lines| <= 1 {
      return;
    }
    var seen: set<string> := {};
    for i := 1 to |lines|
      invariant names == Dedup(NameCells(lines[1..i]))
      invariant forall x :: x in seen <==> x in names
    {
      ghost var cur := NameCells(lines[1..i + 1]);
      assert cur[..i - 1] == NameCells(lines[1..i]);
      var name := NameCell(lines[i]);
      assert cur[i - 1] == name;
      assert Dedup(cur) == if name == "" || name in names then names else names + [name];
      if name == "" || name in seen {
        continue;
      }
      seen := seen + {name};
      names := names + [name];
    }
    assert lines[1..|lines|] == lines[1..];
  }

  /** The names are distinct and non-empty, each the name field of a line
      after the header, and every non-empty name field is among them. */
  lemma CsvNamesSpec(text: string)
    ensures Distinct(CsvNames(text))
    ensures forall x :: x in CsvNames(text) <==>
      x != "" && exists i :: 1 <= i < |Records(text)| && NameCell(Records(text)[i]) == x
  {
    hide Records, NameCell, Dedup;
    var ls := Records(text);
    if |ls| > 1 {
      DedupMembers(NameCells(ls[1..]));
      forall x | x != "" && exists i :: 1 <= i < |ls| && NameCell(ls[i]) == x
        ensures x in CsvNames(text)
      {
        var i :| 1 <= i < |ls| && NameCell(ls[i]) == x;
        assert NameCells(ls[1..])[i - 1] == x;
      }
      forall x | x in CsvNames(text)
        ensures exists i :: 1 <= i < |ls| && NameCell(ls[i]) == x
      {
        var k :| 0 <= k < |ls| - 1 && NameCells(ls[1..])[k] == x;
        assert NameCell(ls[k + 1]) == x;
      }
    }
  }

  /** The header line never contributes a name. */
  lemma HeaderSkipped(header: string, body: string)
    requires header != "" && '\n' !in header && '\r' !in header
    ensures |Records(header + "\n" + body)| > 0 && Records(header + "\n" + body)[0] == header
  {
    var text := header + "\n" + body;
    var ps := Split(text, '\n');
    SplitPrefix(header, body);
    assert Lines(text)[0] == header;
    FilledHead(Lines(text));
  }

  lemma {:induction false} SplitPrefix(header: string, body: string)
    requires '\n' !in header
    ensures |Split(header + "\n" + body, '\n')| >= 2
    ensures Split(header + "\n" + body, '\n')[0] == header
  {
    var text := header + "\n" + body;
    if |header| > 0 {
      assert text[1..] == header[1..] + "\n" + body;
      SplitPrefix(header[1..], body);
      assert [header[0]] + header[1..] == header;
    } else {
      assert text[0] == '\n';
      assert text[1..] == body;
    }
  }

  lemma {:induction false} FilledHead(xs: seq<string>)
    requires |xs| > 0 && xs[0] != ""
    ensures |Filled(xs)| > 0 && Filled(xs)[0] == xs[0]
  {
    if |xs| > 1 {
      FilledHead(xs[..|xs| - 1]);
      assert xs[..|xs| - 1][0] == xs[0];
    }
  }

  /** What loadNames settles on: the cached array when it holds more than
      100 names, else the names the fetched CSV lists (None when the fetch
      fails), together with what is then written back to the cache. */
  function LoadedNames(cache: Option<seq<string>>, fetched: Option<string>): Option<seq<string>> {
    if cache.Some? && |cache.value| > 100 then cache
    else if fetched.None? then None
    else Some(CsvNames(fetched.value))
  }

  /** loadNames() over the cache's parsed array (None when missing, malformed
      or not an array) and the fetched text (None when the fetch fails). */
  method LoadNames(cache: Option<seq<string>>, fetched: Option<string>)
    returns (names: Option<seq<string>>, newCache: Option<seq<string>>)
    ensures names == LoadedNames(cache, fetched)
    ensures newCache == (if names.Some? then names else cache)
  {
    if cache.Some? && |cache.value| > 100 {
      return cache, cache;
    }
    if fetched.None? {
      return None, cache;
    }
    var parsed := ParseNames(fetched.value);
    names := Some(parsed);
    newCache := names;
  }

  /** A cache of more than 100 names is used as it is, whatever the network
      does; a smaller one is always refetched. */
  lemma CacheRule(cache: seq<string>, fetched: Option<string>)
    ensures |cache| > 100 ==> LoadedNames(Some(cache), fetched) == Some(cache)
    ensures |cache| <= 100 && fetched.Some? ==>
      LoadedNames(Some(cache), fetched) == Some(CsvNames(fetched.value))
  {
  }
}
