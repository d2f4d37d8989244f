/**
  The disabled list (src/enabled.rs): names an operator turned off, read from a file another process writes and
  re-read when its stamp moves.
*/
module ServiceNames {
  const MAX_NAME: nat := 128

  predicate IsNameChar(c: char) {
    'a' <= c <= 'z' || 'A' <= c <= 'Z' || '0' <= c <= '9' || c == '-' || c == '_' || c == '.' || c == '/' || c == ':'
  }

  /** The grammar of a service name (PROTOCOL.md). */
  predicate IsName(s: string) {
    1 <= |s| <= MAX_NAME && forall i :: 0 <= i < |s| ==> IsNameChar(s[i])
  }

  type Service = s: string | IsName(s) witness "a"

  /** The names PROTOCOL.md tells by: every separator it allows, the space it does not, and both bounds on length. */
  lemma ThePublishedNames()
    ensures IsName("ssh") && IsName("a-b_c.d/e:0") && IsName("Z9")
    ensures !IsName("ssh admin") && !IsName("") && !IsName("a\n") && !IsName("\"a\"")
    ensures !IsName("a,b") && !IsName("a\\b")
    ensures IsName(seq(128, _ => 'a')) && !IsName(seq(129, _ => 'a'))
  {
    assert "ssh admin"[3] == ' ' && "a\n"[1] == '\n' && "\"a\""[0] == '"' && "a,b"[1] == ',' && "a\\b"[1] == '\\';
  }
}

module DisabledList {
  import opened Wrappers
  import opened ServiceNames

  /** Milliseconds. */
  type Instant = nat

  const STAT_DEBOUNCE: nat := 100

  // ----- a file's body ---------------------------------------------------------------------------------

  /** Where the first line of `text` ends. */
  function LineEnd(text: string): (n: nat)
    ensures n <= |text|
    ensures forall i :: 0 <= i < n ==> text[i] != '\n'
    ensures n < |text| ==> text[n] == '\n'
  {
    if text == [] || text[0] == '\n' then 0 else 1 + LineEnd(text[1..])
  }

  /** The lines of a text, each without what ends it: a newline, or a return and a newline. */
  function Lines(text: string): seq<string>
    decreases |text|
  {
    if text == [] then []
    else
      var n := LineEnd(text);
      if n == |text| then [text]
      else [if n > 0 && text[n - 1] == '\r' then text[..n - 1] else text[..n]] + Lines(text[n + 1..])
  }

  /** The Unicode property White_Space. */
  predicate IsWhite(c: char) {
    '\U{9}' <= c <= '\U{D}' || c == ' ' || c == '\U{85}' || c == '\U{A0}' || c == '\U{1680}'
    || '\U{2000}' <= c <= '\U{200A}' || c == '\U{2028}' || c == '\U{2029}' || c == '\U{202F}'
    || c == '\U{205F}' || c == '\U{3000}'
  }

  function TrimStart(s: string): string {
    if s != [] && IsWhite(s[0]) then TrimStart(s[1..]) else s
  }

  function TrimEnd(s: string): string {
    if s != [] && IsWhite(s[|s| - 1]) then TrimEnd(s[..|s| - 1]) else s
  }

  function Trim(s: string): string { TrimEnd(TrimStart(s)) }

  /** What a line disables: the name it holds, whitespace aside, or nothing. */
  function Names(line: string): set<string> {
    if IsName(Trim(line)) then {Trim(line)} else {}
  }

  function ParseNames(text: string): set<string> {
    set i: nat, name | i < |Lines(text)| && name in Names(Lines(text)[i]) :: name
  }

  lemma ReturnsAreTrimmed(line: string)
    requires line != [] && line[|line| - 1] == '\r'
    ensures Trim(line[..|line| - 1]) == Trim(line)
  {
    var cut := line[..|line| - 1];
    TrimStartOfCut(line);
    if TrimStart(line) != [] {
      assert TrimEnd(TrimStart(line)) == TrimEnd(TrimStart(line)[..|TrimStart(line)| - 1]);
    }
  }

  lemma {:induction false} TrimStartOfCut(line: string)
    requires line != [] && IsWhite(line[|line| - 1])
    ensures var cut := line[..|line| - 1];
            && (TrimStart(line) == [] ==> TrimStart(cut) == [])
            && (TrimStart(line) != [] ==>
                  && TrimStart(line)[|TrimStart(line)| - 1] == line[|line| - 1]
                  && TrimStart(cut) == TrimStart(line)[..|TrimStart(line)| - 1])
  {
    var cut := line[..|line| - 1];
    if IsWhite(line[0]) {
      if |line| > 1 {
        assert cut[1..] == line[1..][..|line[1..]| - 1];
        TrimStartOfCut(line[1..]);
      }
    }
  }

  lemma TheFirstLineEnds(line: string, rest: string)
    requires '\n' !in line
    ensures var text := line + "\n" + rest;
            LineEnd(text) == |line| && text[..|line|] == line && text[|line| + 1..] == rest
  {
    var text := line + "\n" + rest;
    assert text[|line|] == '\n';
    forall i | 0 <= i < |line| ensures text[i] != '\n' {
      assert text[i] == line[i] && line[i] in line;
    }
  }

  lemma FirstLine(line: string, rest: string)
    requires '\n' !in line
    ensures var text := line + "\n" + rest;
            && |Lines(text)| > 0 && Lines(text)[1..] == Lines(rest) && Names(Lines(text)[0]) == Names(line)
  {
    TheFirstLineEnds(line, rest);
    var text := line + "\n" + rest;
    if line != [] && line[|line| - 1] == '\r' {
      ReturnsAreTrimmed(line);
      assert text[..|line| - 1] == line[..|line| - 1];
      assert Lines(text) == [line[..|line| - 1]] + Lines(rest);
    } else {
      assert Lines(text) == [line] + Lines(rest);
    }
  }

  /** Each line of the file speaks for itself, however it ends and whatever stands around it. */
  lemma LineByLine(line: string, rest: string)
    requires '\n' !in line
    ensures ParseNames(line + "\n" + rest) == Names(line) + ParseNames(rest)
  {
    FirstLine(line, rest);
    var lines := Lines(line + "\n" + rest);
    forall name ensures name in ParseNames(line + "\n" + rest) <==> name in Names(line) + ParseNames(rest) {
      if name in ParseNames(rest) {
        var i: nat :| i < |Lines(rest)| && name in Names(Lines(rest)[i]);
        assert name in Names(lines[i + 1]);
      }
      if name in Names(line) {
        assert name in Names(lines[0]);
      }
    }
  }

  // ----- what a body disables, without its lines -------------------------------------------------------

  predicate AllWhite(s: string) { forall i :: 0 <= i < |s| ==> IsWhite(s[i]) }

  /** The line holds this name and nothing else but white space around it. */
  ghost predicate HoldsAt(line: string, name: string, at: nat) {
    at + |name| <= |line| && line[at..at + |name|] == name && AllWhite(line[..at]) && AllWhite(line[at + |name|..])
  }

  ghost predicate Holds(line: string, name: string) { exists at: nat :: HoldsAt(line, name, at) }

  /** `text[from..to]` is a line: it runs from the start or a newline to the end or a newline, and has none in it. */
  predicate IsLine(text: string, from: nat, to: nat) {
    && from <= to <= |text|
    && (from == 0 || text[from - 1] == '\n')
    && (to == |text| || text[to] == '\n')
    && '\n' !in text[from..to]
  }

  ghost predicate OnALine(text: string, name: string) {
    exists from: nat, to: nat :: IsLine(text, from, to) && Holds(text[from..to], name)
  }

  lemma {:induction false} TrimStartDrops(s: string) returns (n: nat)
    ensures n <= |s| && TrimStart(s) == s[n..] && AllWhite(s[..n])
  {
    n := 0;
    if s != [] && IsWhite(s[0]) {
      n := TrimStartDrops(s[1..]);
      assert s[..n + 1] == [s[0]] + s[1..][..n];
      n := n + 1;
    }
  }

  lemma {:induction false} TrimEndDrops(s: string) returns (n: nat)
    ensures n <= |s| && TrimEnd(s) == s[..n] && AllWhite(s[n..])
  {
    n := |s|;
    if s != [] && IsWhite(s[|s| - 1]) {
      var cut := s[..|s| - 1];
      n := TrimEndDrops(cut);
      assert s[n..] == cut[n..] + [s[|s| - 1]];
    }
  }

  lemma {:induction false} TrimStartStops(s: string, n: nat)
    requires n < |s| && AllWhite(s[..n]) && !IsWhite(s[n])
    ensures TrimStart(s) == s[n..]
  {
    if n > 0 {
      assert s[0] == s[..n][0];
      assert s[1..][..n - 1] == s[..n][1..];
      TrimStartStops(s[1..], n - 1);
    }
  }

  lemma {:induction false} TrimEndStops(s: string, n: nat)
    requires 0 < n <= |s| && AllWhite(s[n..]) && !IsWhite(s[n - 1])
    ensures TrimEnd(s) == s[..n]
  {
    if n < |s| {
      assert s[|s| - 1] == s[n..][|s| - 1 - n];
      assert s[..|s| - 1][n..] == s[n..][..|s| - 1 - n];
      TrimEndStops(s[..|s| - 1], n);
      assert s[..|s| - 1][..n] == s[..n];
    }
  }

  /** Trimming a line leaves a name exactly when the name stands on it among white space alone. */
  lemma TrimExactly(line: string, name: Service)
    ensures Trim(line) == name <==> Holds(line, name)
  {
    if Trim(line) == name {
      var a := TrimStartDrops(line);
      var b := TrimEndDrops(line[a..]);
      assert line[a..][..b] == line[a..a + b] && line[a..][b..] == line[a + b..];
      assert HoldsAt(line, name, a);
    }
    if at: nat :| HoldsAt(line, name, at) {
      var rest := line[at..];
      assert line[at] == name[0] && !IsWhite(name[0]);
      TrimStartStops(line, at);
      assert rest[..|name|] == name && rest[|name|..] == line[at + |name|..];
      assert rest[|name| - 1] == name[|name| - 1];
      TrimEndStops(rest, |name|);
    }
  }

  /** A last line that no newline ends counts like any other. */
  lemma TheLastLineCounts(line: string)
    requires '\n' !in line
    ensures ParseNames(line) == Names(line)
  {
    if line == [] {
      assert Trim(line) == [];
    } else {
      forall i | 0 <= i < |line| ensures line[i] != '\n' {
        assert line[i] in line;
      }
      assert Lines(line) == [line];
      assert Names(line) == set i: nat, name | i < 1 && name in Names([line][i]) :: name by {
        assert [line][0] == line;
      }
    }
  }

  lemma LinesOfTwo(line: string, rest: string, from: nat, to: nat)
    requires '\n' !in line
    ensures var text := line + "\n" + rest;
            IsLine(text, from, to) <==> (from == 0 && to == |line|) || (from > |line| && to > |line|
                                         && IsLine(rest, from - |line| - 1, to - |line| - 1))
  {
    var text := line + "\n" + rest;
    assert text[|line|] == '\n';
    assert forall i :: 0 <= i < |line| ==> text[i] == line[i] && line[i] in line;
    assert forall i :: 0 <= i < |rest| ==> text[|line| + 1 + i] == rest[i];
    if from > |line| && from <= to <= |text| {
      assert text[from..to] == rest[from - |line| - 1..to - |line| - 1];
    }
    if from == 0 && to == |line| {
      assert text[from..to] == line;
    }
    assert from <= |line| < to <= |text| ==> text[from..to][|line| - from] == '\n';
  }

  lemma OnALineOfTwo(line: string, rest: string, name: string)
    requires '\n' !in line
    ensures OnALine(line + "\n" + rest, name) <==> Holds(line, name) || OnALine(rest, name)
  {
    hide Holds;
    var text, n := line + "\n" + rest, |line| + 1;
    if OnALine(text, name) {
      var from: nat, to: nat :| IsLine(text, from, to) && Holds(text[from..to], name);
      LinesOfTwo(line, rest, from, to);
      LineOfOne(line, rest, from, to);
    }
    if Holds(line, name) {
      LinesOfTwo(line, rest, 0, |line|);
      LineOfOne(line, rest, 0, |line|);
    }
    if OnALine(rest, name) {
      var from: nat, to: nat :| IsLine(rest, from, to) && Holds(rest[from..to], name);
      LinesOfTwo(line, rest, from + n, to + n);
      LineOfOne(line, rest, from + n, to + n);
    }
  }

  lemma LineOfOne(line: string, rest: string, from: nat, to: nat)
    requires (from == 0 && to == |line|) || |line| < from <= to <= |line| + 1 + |rest|
    ensures var text, n := line + "\n" + rest, |line| + 1;
            text[from..to] == if from == 0 then line else rest[from - n..to - n]
  {
  }

  /**
    What a body disables is exactly the names that stand alone on a line of it, the last one included: nothing else on
    the line but white space, on either side.
  */
  lemma {:induction false} ANameIsDisabledExactly(text: string, name: Service)
    ensures name in ParseNames(text) <==> OnALine(text, name)
    decreases |text|
  {
    var n := LineEnd(text);
    var line := text[..n];
    assert '\n' !in line;
    TrimExactly(line, name);
    if n == |text| {
      assert line == text;
      TheLastLineCounts(text);
      forall i | 0 <= i < |text| ensures text[i] != '\n' {
        assert text[i] in text;
      }
      if Holds(text, name) {
        assert IsLine(text, 0, |text|) && text[0..|text|] == text;
      }
      if from: nat, to: nat :| IsLine(text, from, to) && Holds(text[from..to], name) {
        assert text[from..to] == text;
      }
    } else {
      var rest := text[n + 1..];
      assert text == line + "\n" + rest;
      LineByLine(line, rest);
      OnALineOfTwo(line, rest, name);
      ANameIsDisabledExactly(rest, name);
    }
  }

  /** Everything a body disables is a name. */
  lemma OnlyNamesAreDisabled(text: string, name: string)
    requires name in ParseNames(text)
    ensures IsName(name)
  {}

  /** How a list of names is written out, one a line. */
  function Written(names: seq<Service>): string {
    if names == [] then [] else names[0] + "\n" + Written(names[1..])
  }

  /** A list written out disables its names and no others. */
  lemma {:induction false} WrittenNamesReadBack(names: seq<Service>)
    ensures ParseNames(Written(names)) == set i | 0 <= i < |names| :: names[i]
  {
    if names == [] {
      assert Lines(Written(names)) == [];
    } else {
      WrittenNamesReadBack(names[1..]);
      assert Trim(names[0]) == names[0];
      LineByLine(names[0], Written(names[1..]));
      assert forall i :: 1 <= i < |names| ==> names[i] == names[1..][i - 1];
    }
  }

  // ----- the cache -------------------------------------------------------------------------------------

  datatype Stamp = Stamp(mtime: nat, len: nat)

  /** A version of the file: its text, if it is one, how long it is, and when it was written, if the platform says. */
  datatype Version = Version(text: Option<string>, len: nat, mtime: Option<nat>) {
    function Stamped(): Option<Stamp> {
      if mtime.Some? then Option.Some(Stamp(mtime.value, len)) else None
    }

    function Disables(): set<string> { if text.Some? then ParseNames(text.value) else {} }
  }

  datatype List = List(disabled: set<string>, stamp: Option<Stamp>, lastStat: Option<Instant>)

  /** What a check finds at the path: the version it stats, and the text it reads a moment later. */
  datatype Look = Look(stat: Option<Version>, read: Option<Version>)

  predicate Due(lastStat: Option<Instant>, now: Instant) { lastStat.None? || now - lastStat.value >= STAT_DEBOUNCE }

  function Refreshed(s: List, now: Instant, look: Look): List {
    if !Due(s.lastStat, now) then s
    else if look.stat.None? then s.(lastStat := Some(now))
    else if look.stat.value.Stamped() == s.stamp then s.(lastStat := Some(now))
    else if look.read.None? || look.read.value.text.None? then s.(lastStat := Some(now))
    else List(look.read.value.Disables(), look.stat.value.Stamped(), Some(now))
  }

  /** What loading starts from: the text read off one handle, and the stamp that handle reports afterwards. */
  function Loaded(read: Option<Version>, stat: Option<Version>): Option<List> {
    if read.None? then Some(List({}, None, None))
    else if read.value.text.None? then None
    else Some(List(read.value.Disables(), if stat.Some? then stat.value.Stamped() else None, None))
  }

  class FileDisabledList {
    var disabled: set<string>
    var stamp: Option<Stamp>
    var lastStat: Option<Instant>

    function State(): List
      reads this
    {
      List(disabled, stamp, lastStat)
    }

    constructor (loaded: List)
      ensures State() == loaded
    {
      disabled, stamp, lastStat := loaded.disabled, loaded.stamp, loaded.lastStat;
    }

    /** Re-read what changed; on any doubt keep what is known. */
    method Refresh(now: Instant, look: Look)
      modifies this
      ensures State() == Refreshed(old(State()), now, look)
    {
      if lastStat.Some? && now - lastStat.value < STAT_DEBOUNCE {
        return;
      }
      lastStat := Some(now);
      if look.stat.None? {
        return;
      }
      var current := look.stat.value.Stamped();
      if current == stamp {
        return;
      }
      if look.read.None? || look.read.value.text.None? {
        return;
      }
      disabled := ParseNames(look.read.value.text.value);
      stamp := current;
    }

    method IsEnabled(service: Service, now: Instant, look: Look) returns (enabled: bool)
      modifies this
      ensures State() == Refreshed(old(State()), now, look)
      ensures enabled <==> service !in State().disabled
    {
      Refresh(now, look);
      enabled := service !in disabled;
    }
  }

  // ----- over a history of the file --------------------------------------------------------------------

  datatype Change = Replaces(version: Version) | Deletes

  /** A check may find the file changed between its stat and its read, and either may fail. */
  datatype Event =
    | Changes(change: Change)
    | Checks(now: Instant, statFails: bool, meanwhile: seq<Change>, readFails: bool)

  /** `had` is every version the file has had. */
  datatype World = World(disk: Option<Version>, had: seq<Version>, list: List)

  function Apply(w: World, change: Change): World {
    match change
    case Replaces(version) => w.(disk := Some(version), had := w.had + [version])
    case Deletes => w.(disk := None)
  }

  function ApplyAll(w: World, changes: seq<Change>): World {
    if changes == [] then w else Apply(ApplyAll(w, changes[..|changes| - 1]), changes[|changes| - 1])
  }

  function Step(w: World, event: Event): World {
    match event
    case Changes(change) => Apply(w, change)
    case Checks(now, statFails, meanwhile, readFails) =>
      var later := ApplyAll(w, meanwhile);
      var look := Look(if statFails then None else w.disk, if readFails then None else later.disk);
      later.(list := Refreshed(w.list, now, look))
  }

  function Run(w: World, events: seq<Event>): World {
    if events == [] then w else Step(Run(w, events[..|events| - 1]), events[|events| - 1])
  }

  /** A list loaded off one handle: the file as it is, or nothing. */
  ghost predicate Fresh(w: World) {
    && (w.disk.Some? ==> |w.had| > 0 && w.disk.value == w.had[|w.had| - 1])
    && Loaded(w.disk, w.disk) == Some(w.list)
  }

  lemma {:induction false} ChangesLeaveTheList(w: World, changes: seq<Change>)
    ensures var later := ApplyAll(w, changes);
            && later.list == w.list
            && w.had <= later.had
            && (w.disk.Some? && w.disk.value in w.had ==> later.disk.Some? ==> later.disk.value in later.had)
            && (w.disk.None? && later.disk.Some? ==> later.disk.value in later.had)
  {
    if changes != [] {
      ChangesLeaveTheList(w, changes[..|changes| - 1]);
    }
  }

  /** The version a read took its stamp from, and the one it took its names from. */
  datatype Reading = Reading(statted: Version, text: Version)

  /** What a check reads, if it is due, stats a stamp that is news, and then finds text. */
  function ReadBy(w: World, event: Event): Option<Reading> {
    match event
    case Changes(_) => None
    case Checks(now, statFails, meanwhile, readFails) =>
      var found := ApplyAll(w, meanwhile).disk;
      if Due(w.list.lastStat, now) && !statFails && w.disk.Some? && w.disk.value.Stamped() != w.list.stamp
         && !readFails && found.Some? && found.value.text.Some?
      then Some(Reading(w.disk.value, found.value)) else None
  }

  /** The last read, at the load or by a check since. */
  function LastRead(w: World, events: seq<Event>): Option<Reading> {
    if events == [] then if w.disk.Some? then Some(Reading(w.disk.value, w.disk.value)) else None
    else
      var before, last := events[..|events| - 1], events[|events| - 1];
      if ReadBy(Run(w, before), last).Some? then ReadBy(Run(w, before), last) else LastRead(w, before)
  }

  /** The set is what this version says, and the file was once that version. */
  ghost predicate Says(w: World, v: Version) { v in w.had && v.text.Some? && w.list.disabled == v.Disables() }

  /** The list is as this read left it. */
  ghost predicate Follows(w: World, read: Option<Reading>) {
    && (w.disk.Some? ==> w.disk.value in w.had)
    && (if read.Some? then Says(w, read.value.text) && w.list.stamp == read.value.statted.Stamped()
        else w.list.disabled == {} && w.list.stamp.None?)
  }

  lemma StepStillFollows(w: World, event: Event, read: Option<Reading>)
    requires Follows(w, read)
    ensures Follows(Step(w, event), if ReadBy(w, event).Some? then ReadBy(w, event) else read)
  {
    var changes := if event.Changes? then [event.change] else event.meanwhile;
    ChangesLeaveTheList(w, changes);
    assert event.Changes? ==> ApplyAll(w, changes) == Apply(ApplyAll(w, []), event.change);
    assert Step(w, event).had == ApplyAll(w, changes).had;
  }

  /** Whatever happens to the file, the list is what the version last read says, under the stamp it was read at. */
  lemma {:induction false} TheListIsWhatWasLastRead(w: World, events: seq<Event>)
    requires Fresh(w)
    ensures Follows(Run(w, events), LastRead(w, events))
  {
    if events != [] {
      TheListIsWhatWasLastRead(w, events[..|events| - 1]);
      StepStillFollows(Run(w, events[..|events| - 1]), events[|events| - 1], LastRead(w, events[..|events| - 1]));
    } else if w.disk.Some? {
      assert w.disk.value in w.had;
    }
  }

  /** No check of the history has read anything. */
  ghost predicate NothingRead(w: World, events: seq<Event>) {
    forall i :: 0 <= i < |events| ==> ReadBy(Run(w, events[..i]), events[i]).None?
  }

  lemma {:induction false} NoneReadExactly(w: World, events: seq<Event>)
    ensures LastRead(w, events).None? <==> w.disk.None? && NothingRead(w, events)
  {
    hide ReadBy, Run;
    if events != [] {
      var n := |events| - 1;
      NoneReadExactly(w, events[..n]);
      assert forall i :: 0 <= i < n ==> events[..n][..i] == events[..i] && events[..n][i] == events[i];
      if LastRead(w, events).None? {
        forall i | 0 <= i < |events| ensures ReadBy(Run(w, events[..i]), events[i]).None? {
          if i < n {
            assert ReadBy(Run(w, events[..n][..i]), events[..n][i]).None?;
          }
        }
      }
    }
  }

  /**
    So with a file there at the load, what is disabled is always what some version of it really said; with none, that
    or, until the first read, nothing.
  */
  lemma TheListIsAlwaysSomeVersion(w: World, events: seq<Event>)
    requires Fresh(w)
    ensures var t := Run(w, events);
            if w.disk.None? && NothingRead(w, events) then t.list.disabled == {} else exists v :: Says(t, v)
  {
    hide Run, LastRead, NothingRead;
    TheListIsWhatWasLastRead(w, events);
    NoneReadExactly(w, events);
    var read := LastRead(w, events);
    if read.Some? {
      assert Says(Run(w, events), read.value.text);
    }
  }

  /** A name comes back only from a check that read a version in place, and that version did not list it. */
  lemma OnlyAReadReEnables(w: World, event: Event, name: string)
    requires name in w.list.disabled && name !in Step(w, event).list.disabled
    ensures event.Checks? && !event.statFails && !event.readFails && w.disk.Some?
    ensures var later := ApplyAll(w, event.meanwhile);
            later.disk.Some? && later.disk.value.text.Some? && name !in later.disk.value.Disables()
  {}

  predicate OnlyDeletions(events: seq<Event>) {
    forall i :: 0 <= i < |events| ==>
      match events[i]
      case Changes(change) => change.Deletes?
      case Checks(_, _, meanwhile, _) => forall k :: 0 <= k < |meanwhile| ==> meanwhile[k].Deletes?
  }

  lemma {:induction false} DeletionsOnlyDelete(w: World, changes: seq<Change>)
    requires forall k :: 0 <= k < |changes| ==> changes[k].Deletes?
    ensures ApplyAll(w, changes).disk == w.disk || ApplyAll(w, changes).disk.None?
  {
    if changes != [] {
      DeletionsOnlyDelete(w, changes[..|changes| - 1]);
    }
  }

  /** Once the file is gone, no deletion, failure or passage of time re-enables anything. */
  lemma {:induction false} DeletionNeverReEnables(w: World, events: seq<Event>)
    requires w.disk.None? && OnlyDeletions(events)
    ensures Run(w, events).disk.None? && Run(w, events).list.disabled == w.list.disabled
  {
    if events != [] {
      var before, last := events[..|events| - 1], events[|events| - 1];
      assert last == events[|before|];
      assert forall i :: 0 <= i < |before| ==> before[i] == events[i];
      DeletionNeverReEnables(w, before);
      if last.Checks? {
        DeletionsOnlyDelete(Run(w, before), last.meanwhile);
        ChangesLeaveTheList(Run(w, before), last.meanwhile);
      }
    }
  }

  // ----- freshness -------------------------------------------------------------------------------------

  /**
    A check looks at the file at most once an interval: one that is due puts the next off by STAT_DEBOUNCE, whatever it
    finds, and one that is not changes nothing.
  */
  lemma ACheckIsDueOnceAnInterval(w: World, now: Instant, statFails: bool, meanwhile: seq<Change>, readFails: bool,
                                  later: Instant)
    ensures var t := Step(w, Checks(now, statFails, meanwhile, readFails));
            if w.list.lastStat.None? || now >= w.list.lastStat.value + STAT_DEBOUNCE
            then Due(t.list.lastStat, later) <==> later >= now + STAT_DEBOUNCE
            else t.list == w.list
  {}

  /**
    A check that looks and is not disturbed leaves the list agreeing with the file exactly when the stamp moved or
    it agreed already.
  */
  lemma FreshExactly(w: World, now: Instant)
    requires w.disk.Some? && w.disk.value.text.Some? && Due(w.list.lastStat, now)
    ensures Step(w, Checks(now, false, [], false)).list.disabled == w.disk.value.Disables()
       <==> w.disk.value.Stamped() != w.list.stamp || w.list.disabled == w.disk.value.Disables()
  {
    assert ApplyAll(w, []) == w;
  }

  /** The list wears the stamp of one version and holds the names of that one or of a later one. */
  ghost predicate WearsAnEarlier(list: List, had: seq<Version>) {
    list.stamp.Some? ==>
      exists i: nat, j: nat :: i <= j < |had| && list.stamp == had[i].Stamped() && list.disabled == had[j].Disables()
  }

  ghost predicate Tracked(w: World) {
    && (w.disk.Some? ==> |w.had| > 0 && w.disk.value == w.had[|w.had| - 1])
    && WearsAnEarlier(w.list, w.had)
  }

  lemma {:induction false} ChangesStayTracked(w: World, changes: seq<Change>)
    requires Tracked(w)
    ensures Tracked(ApplyAll(w, changes)) && w.had <= ApplyAll(w, changes).had && ApplyAll(w, changes).list == w.list
  {
    if changes != [] {
      var before := ApplyAll(w, changes[..|changes| - 1]);
      ChangesStayTracked(w, changes[..|changes| - 1]);
      var after := Apply(before, changes[|changes| - 1]);
      if w.list.stamp.Some? {
        var i: nat, j: nat :| i <= j < |before.had| && w.list.stamp == before.had[i].Stamped()
                              && w.list.disabled == before.had[j].Disables();
        assert after.had[i] == before.had[i] && after.had[j] == before.had[j];
      }
    }
  }

  lemma StepStaysTracked(w: World, event: Event)
    requires Tracked(w)
    ensures Tracked(Step(w, event)) && w.had <= Step(w, event).had
  {
    match event
    case Changes(change) =>
      ChangesStayTracked(w, [change]);
      assert ApplyAll(w, [change]) == Apply(ApplyAll(w, []), change);
    case Checks(now, statFails, meanwhile, readFails) =>
      ChangesStayTracked(w, meanwhile);
      var later, after := ApplyAll(w, meanwhile), Step(w, event);
      if after.list.stamp != w.list.stamp && after.list.stamp.Some? {
        var i, j := |w.had| - 1, |later.had| - 1;
        assert i <= j && later.had[i] == w.had[i];
        assert after.list.stamp == after.had[i].Stamped() && after.list.disabled == after.had[j].Disables();
      }
  }

  lemma {:induction false} RunStaysTracked(w: World, events: seq<Event>)
    requires Tracked(w)
    ensures Tracked(Run(w, events))
  {
    if events != [] {
      RunStaysTracked(w, events[..|events| - 1]);
      StepStaysTracked(Run(w, events[..|events| - 1]), events[|events| - 1]);
    }
  }

  /** Every version of the file came with a stamp, and no two with the same one. */
  ghost predicate Dated(had: seq<Version>) {
    && (forall i :: 0 <= i < |had| ==> had[i].mtime.Some?)
    && (forall i, j :: 0 <= i < j < |had| ==> had[i].Stamped() != had[j].Stamped())
  }

  /**
    After any history of dated replacements, deletions and failures, the first undisturbed check past the debounce
    agrees with the file.
  */
  lemma AnUndisturbedCheckAgrees(w: World, events: seq<Event>, now: Instant)
    requires Fresh(w)
    requires var t := Run(w, events);
             Dated(t.had) && t.disk.Some? && t.disk.value.text.Some? && Due(t.list.lastStat, now)
    ensures var t := Run(w, events); Step(t, Checks(now, false, [], false)).list.disabled == t.disk.value.Disables()
  {
    if w.disk.Some? {
      assert w.list.disabled == w.had[|w.had| - 1].Disables();
    }
    RunStaysTracked(w, events);
    var t := Run(w, events);
    FreshExactly(t, now);
    if t.list.stamp == t.disk.value.Stamped() {
      var i: nat, j: nat :| i <= j < |t.had|
                            && t.list.stamp == t.had[i].Stamped() && t.list.disabled == t.had[j].Disables();
      assert i == |t.had| - 1;
    }
  }

  predicate OnlyChecks(events: seq<Event>) {
    forall i :: 0 <= i < |events| ==> events[i].Checks? && events[i].meanwhile == []
  }

  /** A file whose stamp the list already wears is never read again, however often it is checked. */
  lemma {:induction false} AWornStampIsNeverReread(w: World, events: seq<Event>)
    requires w.disk.Some? && w.list.stamp == w.disk.value.Stamped() && OnlyChecks(events)
    ensures var t := Run(w, events);
            t.disk == w.disk && t.list.disabled == w.list.disabled && t.list.stamp == w.list.stamp
  {
    if events != [] {
      var before, last := events[..|events| - 1], events[|events| - 1];
      assert last == events[|before|];
      assert forall i :: 0 <= i < |before| ==> before[i] == events[i];
      AWornStampIsNeverReread(w, before);
      assert ApplyAll(Run(w, before), last.meanwhile) == Run(w, before);
    }
  }

  const WEB: Service := "web"

  lemma WebReads(mtime: Option<nat>)
    ensures Version(Some(Written([WEB])), 4, mtime).Disables() == {WEB}
  {
    WrittenNamesReadBack([WEB]);
    assert WEB in (set i | 0 <= i < |[WEB]| :: [WEB][i]) by { assert [WEB][0] == WEB; }
  }

  /**
    Nor is a replacement that happens to wear the stamp of the version it replaces: where the two disable
    different names the list stays wrong, however often it checks.
  */
  lemma ATwinStampIsNeverReread(w: World, twin: Version, events: seq<Event>)
    requires w.disk.Some? && w.list.stamp == w.disk.value.Stamped() && w.list.disabled == w.disk.value.Disables()
    requires twin.Stamped() == w.disk.value.Stamped() && OnlyChecks(events)
    ensures var t := Run(Apply(w, Replaces(twin)), events);
            && t.disk == Some(twin)
            && (t.list.disabled == twin.Disables() <==> w.disk.value.Disables() == twin.Disables())
  {
    AWornStampIsNeverReread(Apply(w, Replaces(twin)), events);
  }

  const A: Service := "a"
  const B: Service := "b"

  lemma OneNameReads(name: Service, mtime: Option<nat>)
    requires |name| == 1
    ensures Version(Some(Written([name])), 2, mtime).Disables() == {name} && |Written([name])| == 2
  {
    WrittenNamesReadBack([name]);
    assert name in (set i | 0 <= i < |[name]| :: [name][i]) by { assert [name][0] == name; }
  }

  /**
    Freshness needs stamps of its own for each version: one name exchanged for another of its length, within one
    tick of the clock, is never seen, though the file was replaced and both versions are dated.
  */
  lemma AnEditWithinATickIsNeverSeen(events: seq<Event>)
    requires OnlyChecks(events)
    ensures var was, now := Version(Some(Written([A])), 2, Some(1)), Version(Some(Written([B])), 2, Some(1));
            && |Written([A])| == |Written([B])| == 2
            && Loaded(Some(was), Some(was)).Some?
            && now.Disables() == {B}
            && var w := World(Some(was), [was], Loaded(Some(was), Some(was)).value);
               Run(Apply(w, Replaces(now)), events).list.disabled == {A}
  {
    OneNameReads(A, Some(1));
    OneNameReads(B, Some(1));
    var was, now := Version(Some(Written([A])), 2, Some(1)), Version(Some(Written([B])), 2, Some(1));
    AWornStampIsNeverReread(Apply(World(Some(was), [was], Loaded(Some(was), Some(was)).value), Replaces(now)), events);
  }

  /** Freshness needs stamps: on a platform that reports none, a file that appears later is never read. */
  lemma AnUndatedFileIsNeverSeen(events: seq<Event>)
    requires OnlyChecks(events)
    ensures var file := Version(Some(Written([WEB])), 4, None);
            && Fresh(World(None, [], List({}, None, None)))
            && file.Disables() == {WEB}
            && Run(Apply(World(None, [], List({}, None, None)), Replaces(file)), events).list.disabled == {}
  {
    WebReads(None);
    var file := Version(Some(Written([WEB])), 4, None);
    AWornStampIsNeverReread(Apply(World(None, [], List({}, None, None)), Replaces(file)), events);
  }

  /**
    It needs replacement too: a file rewritten in place under a load pairs its old names with its new stamp for
    good.
  */
  lemma ARewriteUnderALoadIsNeverSeen(events: seq<Event>)
    requires OnlyChecks(events)
    ensures var was, now := Version(Some(""), 0, Some(1)), Version(Some(Written([WEB])), 4, Some(2));
            && Loaded(Some(was), Some(now)).Some?
            && now.Disables() == {WEB}
            && Run(World(Some(now), [was, now], Loaded(Some(was), Some(now)).value), events).list.disabled == {}
  {
    WebReads(Some(2));
    var was, now := Version(Some(""), 0, Some(1)), Version(Some(Written([WEB])), 4, Some(2));
    assert Lines("") == [];
    AWornStampIsNeverReread(World(Some(now), [was, now], Loaded(Some(was), Some(now)).value), events);
  }
}
