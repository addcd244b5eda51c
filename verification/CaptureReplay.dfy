/**
 * A live session's events turned into a replay fixture (scripts/capture_replay.py, export), and what replaying it
 * does to the workspace (services/bridge/src/pex_bridge/app.py).
 */
module CaptureReplay {
  import opened Common

  // ----- text edits -----

  /** Where a text first occurs in another. */
  function FindFirst(text: string, sought: string): (at: Option<nat>)
    ensures at.Some? ==> at.value + |sought| <= |text|
  {
    if sought <= text then Some(0)
    else if text == "" then None
    else
      var at := FindFirst(text[1..], sought);
      if at.None? then None else Some(at.value + 1)
  }

  predicate OccursAt(text: string, sought: string, i: nat) {
    i + |sought| <= |text| && text[i..i + |sought|] == sought
  }

  /** The place found is an occurrence and no earlier place is. */
  lemma {:induction false} FindsFirst(text: string, sought: string)
    ensures var at := FindFirst(text, sought);
            && (at.Some? ==> OccursAt(text, sought, at.value) && forall i | 0 <= i < at.value :: !OccursAt(text, sought, i))
            && (at.None? ==> forall i: nat :: !OccursAt(text, sought, i))
  {
    OccursShifted(text, sought);
    if !(sought <= text) && text != "" {
      hide OccursAt;
      FindsFirst(text[1..], sought);
    }
  }

  lemma OccursShifted(text: string, sought: string)
    ensures OccursAt(text, sought, 0) <==> sought <= text
    ensures text != "" ==> forall i: nat | i > 0 :: OccursAt(text, sought, i) <==> OccursAt(text[1..], sought, i - 1)
    ensures text == "" ==> forall i: nat | i > 0 :: !OccursAt(text, sought, i)
  {
    if text != "" {
      forall i: nat | i > 0 ensures OccursAt(text, sought, i) <==> OccursAt(text[1..], sought, i - 1) {
        OccursNext(text, sought, i);
      }
    }
  }

  lemma OccursNext(text: string, sought: string, i: nat)
    requires text != "" && i > 0
    ensures OccursAt(text, sought, i) <==> OccursAt(text[1..], sought, i - 1)
  {
    if i + |sought| <= |text| {
      assert text[i..i + |sought|] == text[1..][i - 1..i - 1 + |sought|];
    }
  }

  /** current.replace(sought, put, 1) */
  function ReplaceFirst(text: string, sought: string, put: string): string {
    var at := FindFirst(text, sought);
    if at.None? then text else text[..at.value] + put + text[at.value + |sought|..]
  }

  // ----- the session as recorded -----

  datatype Tool = EditTool | WriteTool

  /** Whatever else the fixture keeps of an event. */
  datatype Plain = Shell(command: string, green: bool) | Terminal(message: string) | Talk(text: string)

  /**
   * A captured event: an edit or write call on a path (None outside the workspace), an event the fixture keeps, or
   * one it has no slot for. The texts of an edit are None where its input has none.
   */
  datatype Captured =
    | EditCall(tool: Tool, path: Option<string>, content: Option<string>, sought: Option<string>, put: Option<string>)
    | Kept(plain: Plain)
    | Dropped

  datatype FixtureEvent = FileEdit(path: string, tool: Option<Tool>) | Other(plain: Plain)

  datatype Mutation = Mutation(after: int, path: string, content: string)

  /** A dictionary of texts, with its keys in order of insertion. */
  datatype Files = Files(paths: seq<string>, text: map<string, string>)

  function Put(files: Files, path: string, content: string): Files {
    Files(if path in files.text then files.paths else files.paths + [path], files.text[path := content])
  }

  /** The texts after an edit call; None raises, for a path without text or a replacement that is none. */
  function Edited(files: Files, e: Captured): Option<Files>
    requires e.EditCall? && e.path.Some?
  {
    var path := e.path.value;
    if e.content.Some? then Some(Put(files, path, e.content.value))
    else if path !in files.text then None
    else if e.sought.None? || FindFirst(files.text[path], e.sought.value).None? then Some(files)
    else if e.put.None? then None
    else Some(Put(files, path, ReplaceFirst(files.text[path], e.sought.value, e.put.value)))
  }

  /** The lists the loop builds. */
  datatype Fixture = Fixture(files: Files, events: seq<FixtureEvent>, mutations: seq<Mutation>)

  function Step(f: Fixture, e: Captured): Option<Fixture> {
    match e {
      case Dropped => Some(f)
      case Kept(plain) => Some(f.(events := f.events + [Other(plain)]))
      case EditCall(tool, path, _, _, _) =>
        if path.None? then Some(f)
        else
          var files := Edited(f.files, e);
          if files.None? || path.value !in files.value.text then None
          else Some(Fixture(files.value, f.events + [FileEdit(path.value, Some(tool))],
                            f.mutations + [Mutation(|f.events|, path.value, files.value.text[path.value])]))
    }
  }

  function Recorded(seed: Files, events: seq<Captured>): Option<Fixture> {
    if events == [] then Some(Fixture(seed, [], []))
    else
      var f := Recorded(seed, events[..|events| - 1]);
      if f.None? then None else Step(f.value, events[|events| - 1])
  }

  // ----- reconciliation with the recorded bytes -----

  /** The paths whose text differs from the readable file on disk, in dictionary order. */
  function Drifted(paths: seq<string>, text: map<string, string>, disk: map<string, string>): seq<(string, string)> {
    if paths == [] then []
    else
      var n := |paths| - 1;
      Drifted(paths[..n], text, disk)
      + if paths[n] in disk && paths[n] in text && disk[paths[n]] != text[paths[n]] then [(paths[n], disk[paths[n]])] else []
  }

  predicate IsStop(e: FixtureEvent) {
    e.Other? && e.plain.Terminal?
  }

  /** The last stop, or the end. */
  function LastStop(events: seq<FixtureEvent>): (i: nat)
    ensures i <= |events|
  {
    if events == [] then 0
    else
      var n := |events| - 1;
      if IsStop(events[n]) then n
      else
        var i := LastStop(events[..n]);
        if i == n then |events| else i
  }

  predicate GreenRun(e: FixtureEvent) {
    e.Other? && e.plain.Shell? && e.plain.green
  }

  /** The last green run before i, or i itself. */
  function LastGreen(events: seq<FixtureEvent>, i: nat): (j: nat)
    requires i <= |events|
    ensures j <= i
  {
    if i == 0 then 0
    else if GreenRun(events[i - 1]) then i - 1
    else
      var j := LastGreen(events, i - 1);
      if j == i - 1 then i else j
  }

  function InsertionPoint(events: seq<FixtureEvent>): (p: nat)
    ensures p <= |events|
  {
    LastGreen(events, LastStop(events))
  }

  /** A terminal message, and a run of the tests that passed. */
  ghost predicate StopsAt(events: seq<FixtureEvent>, i: nat) {
    i < |events| && exists m :: events[i] == Other(Terminal(m))
  }

  ghost predicate GreenAt(events: seq<FixtureEvent>, i: nat) {
    i < |events| && exists c :: events[i] == Other(Shell(c, true))
  }

  /** s is the last stop, or the end when there is none. */
  ghost predicate LastStopAt(events: seq<FixtureEvent>, s: nat) {
    s <= |events| && (s < |events| ==> StopsAt(events, s))
    && forall i: nat | StopsAt(events, i) :: i <= s < |events|
  }

  /** p is the last green run before s, or s when there is none. */
  ghost predicate LastGreenBefore(events: seq<FixtureEvent>, s: nat, p: nat) {
    p <= s && (p < s ==> GreenAt(events, p))
    && forall i: nat | i < s && GreenAt(events, i) :: i <= p < s
  }

  /** Reconciling edits go before the last green run before the last stop, or else before that stop, or else at the end. */
  lemma InsertionIs(events: seq<FixtureEvent>)
    ensures exists s :: LastStopAt(events, s) && LastGreenBefore(events, s, InsertionPoint(events))
  {
    hide LastStop, LastGreen;
    LastStopFound(events);
    LastGreenFound(events, LastStop(events));
  }

  lemma {:induction false} LastStopFound(events: seq<FixtureEvent>)
    ensures LastStopAt(events, LastStop(events))
  {
    if events != [] {
      var n := |events| - 1;
      LastStopFound(events[..n]);
      assert StopsAt(events, n) <==> IsStop(events[n]) by {
        if IsStop(events[n]) { assert events[n] == Other(Terminal(events[n].plain.message)); }
      }
      assert forall i: nat | i < n :: StopsAt(events, i) <==> StopsAt(events[..n], i);
    }
  }

  lemma {:induction false} LastGreenFound(events: seq<FixtureEvent>, s: nat)
    requires s <= |events|
    ensures LastGreenBefore(events, s, LastGreen(events, s))
  {
    if s > 0 {
      LastGreenFound(events, s - 1);
      assert GreenAt(events, s - 1) <==> GreenRun(events[s - 1]) by {
        if GreenRun(events[s - 1]) { assert events[s - 1] == Other(Shell(events[s - 1].plain.command, true)); }
      }
    }
  }

  function Shifted(mutations: seq<Mutation>, p: int, count: nat): (r: seq<Mutation>)
    ensures |r| == |mutations|
  {
    seq(|mutations|, i requires 0 <= i < |mutations| =>
      if mutations[i].after >= p then mutations[i].(after := mutations[i].after + count) else mutations[i])
  }

  function Reconciling(drifted: seq<(string, string)>): seq<FixtureEvent> {
    seq(|drifted|, i requires 0 <= i < |drifted| => FileEdit(drifted[i].0, None))
  }

  function ReconcilingMutations(drifted: seq<(string, string)>, p: nat): seq<Mutation> {
    seq(|drifted|, i requires 0 <= i < |drifted| => Mutation(p + i, drifted[i].0, drifted[i].1))
  }

  function PutAll(files: Files, drifted: seq<(string, string)>): Files {
    if drifted == [] then files
    else Put(PutAll(files, drifted[..|drifted| - 1]), drifted[|drifted| - 1].0, drifted[|drifted| - 1].1)
  }

  function DriftOf(f: Fixture, disk: Option<map<string, string>>): seq<(string, string)> {
    if disk.None? || f.events == [] then [] else Drifted(f.files.paths, f.files.text, disk.value)
  }

  function Reconciled(f: Fixture, disk: Option<map<string, string>>): Fixture {
    var drifted, p := DriftOf(f, disk), InsertionPoint(f.events);
    if drifted == [] then f
    else Fixture(PutAll(f.files, drifted), f.events[..p] + Reconciling(drifted) + f.events[p..],
                 Shifted(f.mutations, p, |drifted|) + ReconcilingMutations(drifted, p))
  }

  // ----- the export as it is carried out -----

  lemma {:induction false} RecordingFails(seed: Files, events: seq<Captured>, i: nat)
    requires i <= |events| && Recorded(seed, events[..i]).None?
    ensures Recorded(seed, events).None?
    decreases |events|
  {
    hide Step;
    assert i == |events| ==> events[..i] == events;
    if i < |events| {
      assert events[..|events| - 1][..i] == events[..i];
      RecordingFails(seed, events[..|events| - 1], i);
    }
  }

  lemma {:induction false} LastStopIs(events: seq<FixtureEvent>, i: nat)
    requires i <= |events| && forall j | i < j < |events| :: !IsStop(events[j])
    ensures i < |events| && IsStop(events[i]) ==> LastStop(events) == i
    ensures (i == 0 && |events| > 0 && !IsStop(events[0])) || events == [] ==> LastStop(events) == |events|
    decreases |events|
  {
    if events != [] && i < |events| - 1 {
      assert !IsStop(events[|events| - 1]);
      LastStopIs(events[..|events| - 1], i);
    }
  }

  lemma {:induction false} LastGreenIs(events: seq<FixtureEvent>, start: nat, i: nat)
    requires i <= start <= |events| && forall j | i < j < start :: !GreenRun(events[j])
    ensures i < start && GreenRun(events[i]) ==> LastGreen(events, start) == i
    ensures i == 0 && (start == 0 || !GreenRun(events[0])) ==> LastGreen(events, start) == start
    decreases start
  {
    if start > 0 && i < start - 1 {
      LastGreenIs(events, start - 1, i);
    }
  }

  /** The two backward searches for the place of the reconciling edits. */
  method FindInsertion(events: seq<FixtureEvent>) returns (insertAt: nat)
    ensures insertAt == InsertionPoint(events)
  {
    insertAt := |events|;
    var i: int := |events| - 1;
    while i >= 0
      invariant -1 <= i < |events| && insertAt == |events|
      invariant forall j | i < j < |events| :: !IsStop(events[j])
    {
      if IsStop(events[i]) {
        insertAt := i;
        break;
      }
      i := i - 1;
    }
    LastStopIs(events, if i >= 0 then i else 0);
    ghost var start := insertAt;
    var k: int := insertAt - 1;
    while k >= 0
      invariant -1 <= k < start && insertAt == start
      invariant forall j | k < j < start :: !GreenRun(events[j])
    {
      if GreenRun(events[k]) {
        insertAt := k;
        break;
      }
      k := k - 1;
    }
    LastGreenIs(events, start, if k >= 0 then k else 0);
  }

  /** file_state is compared with the files on disk and brought up to date with them. */
  method FindDrift(files: Files, disk: map<string, string>) returns (drifted: seq<(string, string)>, updated: Files)
    ensures drifted == Drifted(files.paths, files.text, disk) && updated == PutAll(files, drifted)
  {
    drifted, updated := [], files;
    assert files.paths[..0] == [];
    for i := 0 to |files.paths|
      invariant drifted == Drifted(files.paths[..i], files.text, disk) && updated == PutAll(files, drifted)
    {
      assert files.paths[..i + 1][..i] == files.paths[..i];
      var path := files.paths[i];
      if path in disk && path in files.text && disk[path] != files.text[path] {
        assert (drifted + [(path, disk[path])])[..|drifted|] == drifted;
        updated := Put(updated, path, disk[path]);
        drifted := drifted + [(path, disk[path])];
      }
    }
    assert files.paths[..|files.paths|] == files.paths;
  }

  /** Shift the later mutations, then insert each reconciling edit with its mutation, moving on by one each time. */
  method Insert(events: seq<FixtureEvent>, mutations: seq<Mutation>, drifted: seq<(string, string)>, p: nat)
      returns (fixtureEvents: seq<FixtureEvent>, shifted: seq<Mutation>)
    requires p <= |events|
    ensures fixtureEvents == events[..p] + Reconciling(drifted) + events[p..]
    ensures shifted == Shifted(mutations, p, |drifted|) + ReconcilingMutations(drifted, p)
  {
    shifted := mutations;
    for i := 0 to |mutations|
      invariant |shifted| == |mutations|
      invariant forall j | 0 <= j < |mutations| :: shifted[j] == if j < i then Shifted(mutations, p, |drifted|)[j] else mutations[j]
    {
      if shifted[i].after >= p { shifted := shifted[i := shifted[i].(after := shifted[i].after + |drifted|)]; }
    }
    assert shifted == Shifted(mutations, p, |drifted|);
    ghost var base := shifted;
    fixtureEvents := events;
    var insertAt := p;
    assert events[..p] + Reconciling(drifted[..0]) + events[p..] == events;
    for i := 0 to |drifted|
      invariant insertAt == p + i
      invariant fixtureEvents == events[..p] + Reconciling(drifted[..i]) + events[p..]
      invariant shifted == base + ReconcilingMutations(drifted[..i], p)
    {
      assert Reconciling(drifted[..i + 1]) == Reconciling(drifted[..i]) + [FileEdit(drifted[i].0, None)];
      assert ReconcilingMutations(drifted[..i + 1], p) == ReconcilingMutations(drifted[..i], p) + [Mutation(p + i, drifted[i].0, drifted[i].1)];
      fixtureEvents := fixtureEvents[..insertAt] + [FileEdit(drifted[i].0, None)] + fixtureEvents[insertAt..];
      shifted := shifted + [Mutation(insertAt, drifted[i].0, drifted[i].1)];
      insertAt := insertAt + 1;
    }
    assert drifted[..|drifted|] == drifted;
  }

  method Export(seed: Files, captured: seq<Captured>, disk: Option<map<string, string>>) returns (fixture: Option<Fixture>)
    ensures fixture == if Recorded(seed, captured).None? then None else Some(Reconciled(Recorded(seed, captured).value, disk))
  {
    hide Drifted, InsertionPoint, PutAll, Shifted, Reconciling, ReconcilingMutations, Edited;
    var fileState, events: seq<FixtureEvent>, mutations: seq<Mutation> := seed, [], [];
    assert captured[..0] == [];
    for i := 0 to |captured|
      invariant Recorded(seed, captured[..i]) == Some(Fixture(fileState, events, mutations))
    {
      assert captured[..i + 1][..i] == captured[..i];
      match captured[i] {
        case Dropped =>
        case Kept(plain) => events := events + [Other(plain)];
        case EditCall(tool, path, _, _, _) =>
          if path.Some? {
            var edited := Edited(fileState, captured[i]);
            if edited.None? || path.value !in edited.value.text {
              RecordingFails(seed, captured, i + 1);
              return None;
            }
            fileState := edited.value;
            mutations := mutations + [Mutation(|events|, path.value, fileState.text[path.value])];
            events := events + [FileEdit(path.value, Some(tool))];
          }
      }
    }
    assert captured[..|captured|] == captured;
    if disk.None? || events == [] { return Some(Fixture(fileState, events, mutations)); }
    var drifted, updated := FindDrift(fileState, disk.value);
    if drifted == [] { return Some(Fixture(fileState, events, mutations)); }
    var insertAt := FindInsertion(events);
    var fixtureEvents, shifted := Insert(events, mutations, drifted, insertAt);
    return Some(Fixture(updated, fixtureEvents, shifted));
  }

  // ----- replaying a fixture -----

  /** The mutations grouped under an index, in list order. */
  function Due(mutations: seq<Mutation>, i: int): seq<Mutation> {
    if mutations == [] then []
    else
      var n := |mutations| - 1;
      Due(mutations[..n], i) + if mutations[n].after == i then [mutations[n]] else []
  }

  function Materialized(text: map<string, string>, due: seq<Mutation>): map<string, string> {
    if due == [] then text else Materialized(text, due[..|due| - 1])[due[|due| - 1].path := due[|due| - 1].content]
  }

  /** The workspace after the first n events: each is followed by the mutations grouped under it. */
  function Replayed(text: map<string, string>, mutations: seq<Mutation>, n: nat): map<string, string> {
    if n == 0 then text else Materialized(Replayed(text, mutations, n - 1), Due(mutations, n - 1))
  }

  // ----- scripts: what each event writes -----

  /** One optional write for each fixture event. */
  type Script = seq<Option<(string, string)>>

  function Performed(text: map<string, string>, script: Script): map<string, string> {
    if script == [] then text
    else
      var before, last := Performed(text, script[..|script| - 1]), script[|script| - 1];
      if last.None? then before else before[last.value.0 := last.value.1]
  }

  /** The mutation a script calls for at an index, if it calls for one. */
  function Told(script: Script, i: int): seq<Mutation> {
    if 0 <= i < |script| && script[i].Some? then [Mutation(i, script[i].value.0, script[i].value.1)] else []
  }

  /** The mutations say exactly what the script says, each under the index of its event. */
  ghost predicate Tells(mutations: seq<Mutation>, script: Script) {
    forall i: int :: Due(mutations, i) == Told(script, i)
  }

  /** The edit events are those that write, and name what they write. */
  ghost predicate Names(events: seq<FixtureEvent>, script: Script) {
    && |events| == |script|
    && forall i | 0 <= i < |events| ::
         if script[i].Some? then events[i].FileEdit? && events[i].path == script[i].value.0 else events[i].Other?
  }

  lemma {:induction false} DueAppend(a: seq<Mutation>, b: seq<Mutation>, i: int)
    ensures Due(a + b, i) == Due(a, i) + Due(b, i)
  {
    if b == [] {
      assert a + b == a;
    } else {
      var n, all := |b| - 1, a + b;
      DueAppend(a, b[..n], i);
      assert all[..|all| - 1] == a + b[..n] && all[|all| - 1] == b[n];
    }
  }

  lemma DueOne(m: Mutation, i: int)
    ensures Due([m], i) == if m.after == i then [m] else []
  {
    assert [m][..0] == [] && Due([], i) == [];
  }

  lemma {:induction false} PerformedAppend(text: map<string, string>, a: Script, b: Script)
    ensures Performed(text, a + b) == Performed(Performed(text, a), b)
  {
    if b == [] {
      assert a + b == a;
    } else {
      PerformedAppend(text, a, b[..|b| - 1]);
      assert (a + b)[..|a + b| - 1] == a + b[..|b| - 1];
    }
  }

  lemma {:induction false} ReplayedPerforms(text: map<string, string>, mutations: seq<Mutation>, script: Script, n: nat)
    requires Tells(mutations, script) && n <= |script|
    ensures Replayed(text, mutations, n) == Performed(text, script[..n])
  {
    if n > 0 {
      ReplayedPerforms(text, mutations, script, n - 1);
      assert script[..n][..n - 1] == script[..n - 1];
      var due := Due(mutations, n - 1);
      if script[n - 1].Some? {
        MaterializedOne(Performed(text, script[..n - 1]), due[0]);
        assert due == [due[0]];
      }
    }
  }

  lemma MaterializedOne(text: map<string, string>, m: Mutation)
    ensures Materialized(text, [m]) == text[m.path := m.content]
  {
    assert [m][..0] == [] && Materialized(text, []) == text;
  }

  // ----- the recording keeps a script -----

  /** The dictionary's keys, each once, in some order. */
  ghost predicate Keyed(files: Files) {
    && (forall i | 0 <= i < |files.paths| :: files.paths[i] in files.text)
    && (forall path :: path in files.text ==> path in files.paths)
    && (forall i, j | 0 <= i < j < |files.paths| :: files.paths[i] != files.paths[j])
  }

  ghost predicate Scripted(f: Fixture, seed: map<string, string>, script: Script) {
    Tells(f.mutations, script) && Names(f.events, script) && f.files.text == Performed(seed, script) && Keyed(f.files)
  }

  /** The writes of a recorded session, event by event. */
  function ScriptOf(seed: Files, events: seq<Captured>): Script {
    if events == [] then []
    else
      var e, before := events[|events| - 1], ScriptOf(seed, events[..|events| - 1]);
      var f := Recorded(seed, events[..|events| - 1]);
      if f.None? || Step(f.value, e).None? then before
      else if |Step(f.value, e).value.mutations| > |f.value.mutations| then
        var m := Step(f.value, e).value.mutations[|f.value.mutations|];
        before + [Some((m.path, m.content))]
      else if |Step(f.value, e).value.events| > |f.value.events| then before + [None]
      else before
  }

  lemma TellsNext(mutations: seq<Mutation>, script: Script, path: string, content: string)
    requires Tells(mutations, script)
    ensures Tells(mutations + [Mutation(|script|, path, content)], script + [Some((path, content))])
  {
    var m := Mutation(|script|, path, content);
    forall i: int ensures Due(mutations + [m], i) == Told(script + [Some((path, content))], i) {
      DueAppend(mutations, [m], i);
      DueOne(m, i);
    }
  }

  lemma TellsNothing(mutations: seq<Mutation>, script: Script)
    requires Tells(mutations, script)
    ensures Tells(mutations, script + [None])
  {
    hide Due;
  }

  lemma PutKeyed(files: Files, path: string, content: string)
    requires Keyed(files)
    ensures Keyed(Put(files, path, content))
  {
    var g := Put(files, path, content);
    forall x | x in g.text ensures x in g.paths {
      if x == path && path !in files.text { assert g.paths[|files.paths|] == path; } else { assert x in files.paths; }
    }
  }

  lemma EditedKeeps(files: Files, e: Captured)
    requires e.EditCall? && e.path.Some? && Keyed(files) && Edited(files, e).Some? && e.path.value in Edited(files, e).value.text
    ensures var g := Edited(files, e).value;
            Keyed(g) && g.text == files.text[e.path.value := g.text[e.path.value]]
  {
    hide Keyed;
    var path := e.path.value;
    if e.content.Some? {
      PutKeyed(files, path, e.content.value);
    } else if e.sought.Some? && FindFirst(files.text[path], e.sought.value).Some? {
      PutKeyed(files, path, ReplaceFirst(files.text[path], e.sought.value, e.put.value));
    }
  }

  lemma StepScripted(f: Fixture, seed: map<string, string>, script: Script, e: Captured)
    requires Scripted(f, seed, script) && Step(f, e).Some?
    ensures var g := Step(f, e).value;
            && |g.mutations| >= |f.mutations| && |g.events| >= |f.events|
            && Scripted(g, seed,
                        if |g.mutations| > |f.mutations| then
                          script + [Some((g.mutations[|f.mutations|].path, g.mutations[|f.mutations|].content))]
                        else if |g.events| > |f.events| then script + [None] else script)
  {
    hide Edited, Keyed, Tells;
    match e {
      case Dropped =>
      case Kept(plain) =>
        TellsNothing(f.mutations, script);
        assert (script + [None])[..|script|] == script;
      case EditCall(tool, path, _, _, _) =>
        if path.Some? {
          EditedKeeps(f.files, e);
          var content := Edited(f.files, e).value.text[path.value];
          TellsNext(f.mutations, script, path.value, content);
          assert (script + [Some((path.value, content))])[..|script|] == script;
        }
    }
  }

  lemma {:induction false} RecordedScripted(seed: Files, events: seq<Captured>)
    requires Keyed(seed) && Recorded(seed, events).Some?
    ensures Scripted(Recorded(seed, events).value, seed.text, ScriptOf(seed, events))
  {
    hide Keyed, Step, Scripted;
    if events == [] {
      NothingScripted(seed);
    } else {
      RecordedScripted(seed, events[..|events| - 1]);
      StepScripted(Recorded(seed, events[..|events| - 1]).value, seed.text, ScriptOf(seed, events[..|events| - 1]), events[|events| - 1]);
    }
  }

  lemma NothingScripted(seed: Files)
    requires Keyed(seed)
    ensures Scripted(Fixture(seed, [], []), seed.text, [])
  {
  }

  // ----- the reconciliation keeps a script -----

  function Inserted(drifted: seq<(string, string)>): Script {
    seq(|drifted|, i requires 0 <= i < |drifted| => Some(drifted[i]))
  }

  lemma {:induction false} DueShifted(mutations: seq<Mutation>, p: nat, count: nat, i: int)
    ensures Due(Shifted(mutations, p, count), i) ==
            if i < p then Due(mutations, i) else if i < p + count then [] else Shifted(Due(mutations, i - count), p, count)
  {
    if mutations != [] {
      var n := |mutations| - 1;
      DueShifted(mutations[..n], p, count, i);
      assert Shifted(mutations, p, count)[..n] == Shifted(mutations[..n], p, count);
      ShiftedAppend(Due(mutations[..n], i - count), [mutations[n]], p, count);
    }
  }

  lemma ShiftedAppend(a: seq<Mutation>, b: seq<Mutation>, p: int, count: nat)
    ensures Shifted(a + b, p, count) == Shifted(a, p, count) + Shifted(b, p, count)
  {
  }

  lemma {:induction false} DueReconciling(drifted: seq<(string, string)>, p: nat, i: int)
    ensures Due(ReconcilingMutations(drifted, p), i) ==
            if p <= i < p + |drifted| then [Mutation(i, drifted[i - p].0, drifted[i - p].1)] else []
  {
    if drifted != [] {
      var n := |drifted| - 1;
      DueReconciling(drifted[..n], p, i);
      assert ReconcilingMutations(drifted, p)[..n] == ReconcilingMutations(drifted[..n], p);
    }
  }

  lemma ToldReconciled(script: Script, drifted: seq<(string, string)>, p: nat, i: int)
    requires p <= |script|
    ensures Told(script[..p] + Inserted(drifted) + script[p..], i) ==
            if i < p then Told(script, i)
            else if i < p + |drifted| then [Mutation(i, drifted[i - p].0, drifted[i - p].1)]
            else Shifted(Told(script, i - |drifted|), p, |drifted|)
  {
    var script' := script[..p] + Inserted(drifted) + script[p..];
    if p + |drifted| <= i < |script'| { assert script'[i] == script[i - |drifted|]; }
  }

  lemma ReconciledTells(mutations: seq<Mutation>, script: Script, drifted: seq<(string, string)>, p: nat)
    requires Tells(mutations, script) && p <= |script|
    ensures Tells(Shifted(mutations, p, |drifted|) + ReconcilingMutations(drifted, p), script[..p] + Inserted(drifted) + script[p..])
  {
    hide Due, Told, Shifted, ReconcilingMutations, Inserted;
    forall i: int
      ensures Due(Shifted(mutations, p, |drifted|) + ReconcilingMutations(drifted, p), i)
           == Told(script[..p] + Inserted(drifted) + script[p..], i)
    {
      DueAppend(Shifted(mutations, p, |drifted|), ReconcilingMutations(drifted, p), i);
      DueShifted(mutations, p, |drifted|, i);
      DueReconciling(drifted, p, i);
      ToldReconciled(script, drifted, p, i);
    }
  }

  lemma ReconciledNames(events: seq<FixtureEvent>, script: Script, drifted: seq<(string, string)>, p: nat)
    requires Names(events, script) && p <= |script|
    ensures Names(events[..p] + Reconciling(drifted) + events[p..], script[..p] + Inserted(drifted) + script[p..])
  {
  }

  lemma {:induction false} PutAllPerforms(files: Files, drifted: seq<(string, string)>)
    ensures PutAll(files, drifted).text == Performed(files.text, Inserted(drifted))
  {
    if drifted != [] {
      PutAllPerforms(files, drifted[..|drifted| - 1]);
      assert Inserted(drifted)[..|drifted| - 1] == Inserted(drifted[..|drifted| - 1]);
    }
  }

  // ----- the last writer wins -----

  function LastWrite(script: Script, path: string): Option<string> {
    if script == [] then None
    else
      var last := script[|script| - 1];
      if last.Some? && last.value.0 == path then Some(last.value.1) else LastWrite(script[..|script| - 1], path)
  }

  function At(text: map<string, string>, path: string): Option<string> {
    if path in text then Some(text[path]) else None
  }

  lemma {:induction false} PerformedAt(text: map<string, string>, script: Script, path: string)
    ensures At(Performed(text, script), path) ==
            if LastWrite(script, path).Some? then LastWrite(script, path) else At(text, path)
  {
    if script != [] {
      PerformedAt(text, script[..|script| - 1], path);
    }
  }

  lemma {:induction false} LastWriteSome(script: Script, path: string)
    ensures LastWrite(script, path).Some? <==> exists i :: 0 <= i < |script| && script[i].Some? && script[i].value.0 == path
  {
    if script != [] {
      var n := |script| - 1;
      LastWriteSome(script[..n], path);
      if script[n].Some? && script[n].value.0 == path {
      } else if exists i :: 0 <= i < |script| && script[i].Some? && script[i].value.0 == path {
        var i :| 0 <= i < |script| && script[i].Some? && script[i].value.0 == path;
        assert script[..n][i] == script[i];
      }
    }
  }

  // ----- main results -----

  /** Replaying what was recorded ends with the texts the recording ended with. */
  lemma RecordingReplays(seed: Files, events: seq<Captured>)
    requires Keyed(seed) && Recorded(seed, events).Some?
    ensures var f := Recorded(seed, events).value;
            Replayed(seed.text, f.mutations, |f.events|) == f.files.text
  {
    RecordedScripted(seed, events);
    var f, script := Recorded(seed, events).value, ScriptOf(seed, events);
    hide Recorded, ScriptOf;
    ReplayedPerforms(seed.text, f.mutations, script, |script|);
    assert script[..|script|] == script;
  }

  lemma {:induction false} DueIn(mutations: seq<Mutation>, m: Mutation)
    requires m in mutations
    ensures m in Due(mutations, m.after)
  {
    var n := |mutations| - 1;
    if mutations[n] != m {
      assert m in mutations[..n];
      DueIn(mutations[..n], m);
    }
  }

  lemma {:induction false} DueFrom(mutations: seq<Mutation>, i: int)
    ensures forall m | m in Due(mutations, i) :: m in mutations && m.after == i
  {
    if mutations != [] {
      DueFrom(mutations[..|mutations| - 1], i);
    }
  }

  ghost predicate PointsAtItsEdit(m: Mutation, events: seq<FixtureEvent>) {
    0 <= m.after < |events| && events[m.after].FileEdit? && events[m.after].path == m.path
  }

  lemma TellsPoints(mutations: seq<Mutation>, events: seq<FixtureEvent>, script: Script)
    requires Tells(mutations, script) && Names(events, script)
    ensures forall m | m in mutations :: PointsAtItsEdit(m, events)
    ensures forall m, n | m in mutations && n in mutations && m.after == n.after :: m == n
    ensures forall i | 0 <= i < |events| && events[i].FileEdit? :: exists m :: m in mutations && m.after == i
  {
    hide Due;
    forall m | m in mutations ensures PointsAtItsEdit(m, events) && Due(mutations, m.after) == [m] {
      DueIn(mutations, m);
      assert m in Told(script, m.after);
    }
    forall i | 0 <= i < |events| && events[i].FileEdit? ensures exists m :: m in mutations && m.after == i {
      DueFrom(mutations, i);
      assert Told(script, i)[0] in Due(mutations, i);
    }
  }

  function ReconciledScript(seed: Files, events: seq<Captured>, drifted: seq<(string, string)>, p: nat): Script {
    var script := ScriptOf(seed, events);
    if p <= |script| then script[..p] + Inserted(drifted) + script[p..] else script
  }

  lemma ReconcileKeeps(f: Fixture, script: Script, disk: Option<map<string, string>>)
    requires Tells(f.mutations, script) && Names(f.events, script)
    ensures var g, p := Reconciled(f, disk), InsertionPoint(f.events);
            && p <= |script|
            && var script' := script[..p] + Inserted(DriftOf(f, disk)) + script[p..];
            Tells(g.mutations, script') && Names(g.events, script')
  {
    hide Tells, DriftOf, InsertionPoint, Inserted, Reconciling, Shifted, ReconcilingMutations, PutAll;
    var drifted, p := DriftOf(f, disk), InsertionPoint(f.events);
    assert p <= |f.events| == |script|;
    ReconciledTells(f.mutations, script, drifted, p);
    ReconciledNames(f.events, script, drifted, p);
    if drifted == [] { NothingInserted(script, p); }
  }

  lemma NothingInserted(script: Script, p: nat)
    requires p <= |script|
    ensures script[..p] + Inserted([]) + script[p..] == script
  {
  }

  lemma ReconciledScripted(seed: Files, events: seq<Captured>, disk: Option<map<string, string>>)
    requires Keyed(seed) && Recorded(seed, events).Some?
    ensures var f := Recorded(seed, events).value;
            var g, script := Reconciled(f, disk), ReconciledScript(seed, events, DriftOf(f, disk), InsertionPoint(f.events));
            && InsertionPoint(f.events) <= |ScriptOf(seed, events)|
            && Tells(g.mutations, script) && Names(g.events, script)
  {
    hide Recorded, ScriptOf, Tells, Names, DriftOf, Keyed, InsertionPoint, Reconciled, Inserted;
    RecordedScripted(seed, events);
    ReconcileKeeps(Recorded(seed, events).value, ScriptOf(seed, events), disk);
  }

  /** After any reconciliation, mutations and edit events correspond one to one, each mutation under an edit of its file. */
  lemma MutationsPointAtEdits(seed: Files, events: seq<Captured>, disk: Option<map<string, string>>)
    requires Keyed(seed) && Recorded(seed, events).Some?
    ensures var g := Reconciled(Recorded(seed, events).value, disk);
            && (forall m | m in g.mutations :: PointsAtItsEdit(m, g.events))
            && (forall m, n | m in g.mutations && n in g.mutations && m.after == n.after :: m == n)
            && (forall i | 0 <= i < |g.events| && g.events[i].FileEdit? :: exists m :: m in g.mutations && m.after == i)
  {
    hide Recorded, ReconciledScript, Tells, Names, DriftOf, InsertionPoint, PointsAtItsEdit, Reconciled, Keyed;
    ReconciledScripted(seed, events, disk);
    var f := Recorded(seed, events).value;
    TellsPoints(Reconciled(f, disk).mutations, Reconciled(f, disk).events,
                ReconciledScript(seed, events, DriftOf(f, disk), InsertionPoint(f.events)));
  }

  /** The fixture's events less the reconciling edits. */
  function Originals(events: seq<FixtureEvent>): seq<FixtureEvent> {
    if events == [] then []
    else
      var last := events[|events| - 1];
      Originals(events[..|events| - 1]) + if last.FileEdit? && last.tool.None? then [] else [last]
  }

  lemma {:induction false} OriginalsAppend(a: seq<FixtureEvent>, b: seq<FixtureEvent>)
    ensures Originals(a + b) == Originals(a) + Originals(b)
  {
    if b == [] {
      assert a + b == a;
    } else {
      OriginalsAppend(a, b[..|b| - 1]);
      assert (a + b)[..|a + b| - 1] == a + b[..|b| - 1];
    }
  }

  lemma {:induction false} OriginalsNone(drifted: seq<(string, string)>)
    ensures Originals(Reconciling(drifted)) == []
  {
    if drifted != [] {
      OriginalsNone(drifted[..|drifted| - 1]);
      assert Reconciling(drifted)[..|drifted| - 1] == Reconciling(drifted[..|drifted| - 1]);
    }
  }

  lemma {:induction false} RecordedAllOriginal(seed: Files, events: seq<Captured>)
    requires Recorded(seed, events).Some?
    ensures Originals(Recorded(seed, events).value.events) == Recorded(seed, events).value.events
  {
    if events != [] {
      hide Edited;
      RecordedAllOriginal(seed, events[..|events| - 1]);
    }
  }

  /** The recorded events keep their order: dropping the reconciling edits gives back the recording. */
  lemma OriginalOrder(seed: Files, events: seq<Captured>, disk: Option<map<string, string>>)
    requires Recorded(seed, events).Some?
    ensures Originals(Reconciled(Recorded(seed, events).value, disk).events) == Recorded(seed, events).value.events
  {
    hide Recorded, InsertionPoint, DriftOf, Originals;
    RecordedAllOriginal(seed, events);
    var f := Recorded(seed, events).value;
    var drifted, p := DriftOf(f, disk), InsertionPoint(f.events);
    OriginalsAppend(f.events[..p] + Reconciling(drifted), f.events[p..]);
    OriginalsAppend(f.events[..p], Reconciling(drifted));
    OriginalsAppend(f.events[..p], f.events[p..]);
    OriginalsNone(drifted);
    assert f.events[..p] + f.events[p..] == f.events;
  }

  /** No captured edit of a drifted file follows the place where its reconciliation is put. */
  ghost predicate Undisturbed(f: Fixture, drifted: seq<(string, string)>) {
    forall i | 0 <= i < |drifted| ::
      !exists m :: m in f.mutations && m.path == drifted[i].0 && m.after >= InsertionPoint(f.events)
  }

  /** The pairs name each path once, with a text that differs from the recorded one. */
  ghost predicate Differs(d: seq<(string, string)>, paths: seq<string>, text: map<string, string>) {
    && (forall i | 0 <= i < |d| :: d[i].0 in paths && d[i].0 in text && d[i].1 != text[d[i].0])
    && (forall i, j | 0 <= i < j < |d| :: d[i].0 != d[j].0)
  }

  lemma DiffersNext(d: seq<(string, string)>, paths: seq<string>, path: string, text: map<string, string>, actual: string)
    requires Differs(d, paths, text) && path !in paths
    ensures Differs(d, paths + [path], text)
    ensures path in text && actual != text[path] ==> Differs(d + [(path, actual)], paths + [path], text)
  {
  }

  lemma {:induction false} DriftedDiffers(paths: seq<string>, text: map<string, string>, disk: map<string, string>)
    requires forall i, j | 0 <= i < j < |paths| :: paths[i] != paths[j]
    ensures Differs(Drifted(paths, text, disk), paths, text)
  {
    if paths != [] {
      hide Differs;
      var n := |paths| - 1;
      DriftedDiffers(paths[..n], text, disk);
      assert paths == paths[..n] + [paths[n]];
      DiffersNext(Drifted(paths[..n], text, disk), paths[..n], paths[n], text, if paths[n] in disk then disk[paths[n]] else "");
    } else {
      assert Differs([], [], text);
    }
  }

  lemma {:induction false} LastInserted(drifted: seq<(string, string)>, path: string)
    requires forall i, j | 0 <= i < j < |drifted| :: drifted[i].0 != drifted[j].0
    ensures LastWrite(Inserted(drifted), path).None? <==> forall i | 0 <= i < |drifted| :: drifted[i].0 != path
    ensures forall i | 0 <= i < |drifted| && drifted[i].0 == path :: LastWrite(Inserted(drifted), path) == Some(drifted[i].1)
  {
    if drifted != [] {
      var n := |drifted| - 1;
      LastInserted(drifted[..n], path);
      assert Inserted(drifted)[..n] == Inserted(drifted[..n]);
    }
  }

  /** What replaying the reconciled script leaves at a path, against what the reconciliation recorded there. */
  lemma ReplayedAt(text: map<string, string>, script: Script, drifted: seq<(string, string)>, p: nat, path: string)
    requires p <= |script|
    ensures At(Performed(text, script[..p] + Inserted(drifted) + script[p..]), path) ==
            if LastWrite(script[p..], path).Some? then At(Performed(text, script), path)
            else if LastWrite(Inserted(drifted), path).Some? then LastWrite(Inserted(drifted), path)
            else At(Performed(text, script), path)
    ensures At(Performed(Performed(text, script), Inserted(drifted)), path) ==
            if LastWrite(Inserted(drifted), path).Some? then LastWrite(Inserted(drifted), path) else At(Performed(text, script), path)
  {
    hide Performed, LastWrite, Inserted, At;
    var front := Performed(text, script[..p]);
    PerformedAppend(text, script[..p] + Inserted(drifted), script[p..]);
    PerformedAppend(text, script[..p], Inserted(drifted));
    PerformedAppend(text, script[..p], script[p..]);
    assert script[..p] + script[p..] == script;
    PerformedAt(Performed(front, Inserted(drifted)), script[p..], path);
    PerformedAt(front, Inserted(drifted), path);
    PerformedAt(front, script[p..], path);
    PerformedAt(Performed(text, script), Inserted(drifted), path);
  }

  lemma SameTexts(a: map<string, string>, b: map<string, string>)
    ensures a == b <==> forall path :: At(a, path) == At(b, path)
  {
    if forall path :: At(a, path) == At(b, path) {
      assert forall path :: path in a <==> At(a, path).Some?;
      assert forall path :: path in b <==> At(b, path).Some?;
      forall path | path in a ensures path in b && a[path] == b[path] {
        assert At(a, path) == At(b, path);
      }
      assert a.Keys == b.Keys;
    }
  }

  /** A captured edit at or after p, in terms of the script. */
  lemma LaterEdit(f: Fixture, script: Script, p: nat, path: string)
    requires Tells(f.mutations, script) && p <= |script|
    ensures LastWrite(script[p..], path).Some? <==> exists m :: m in f.mutations && m.path == path && m.after >= p
  {
    hide LastWrite, Due;
    LastWriteSome(script[p..], path);
    if exists m :: m in f.mutations && m.path == path && m.after >= p {
      var m :| m in f.mutations && m.path == path && m.after >= p;
      DueIn(f.mutations, m);
      assert m in Told(script, m.after);
      assert script[p..][m.after - p] == script[m.after];
    }
    if exists i :: 0 <= i < |script[p..]| && script[p..][i].Some? && script[p..][i].value.0 == path {
      var i :| 0 <= i < |script[p..]| && script[p..][i].Some? && script[p..][i].value.0 == path;
      assert script[p..][i] == script[p + i];
      DueFrom(f.mutations, p + i);
      assert Told(script, p + i)[0] in Due(f.mutations, p + i);
    }
  }

  /** For a script and drifted files: the replay ends as reconciled exactly when no drifted file is written after p. */
  lemma ScriptReplaysIff(text: map<string, string>, script: Script, drifted: seq<(string, string)>, p: nat)
    requires p <= |script|
    requires forall i, j | 0 <= i < j < |drifted| :: drifted[i].0 != drifted[j].0
    requires forall i | 0 <= i < |drifted| :: At(Performed(text, script), drifted[i].0) != Some(drifted[i].1)
    ensures Performed(text, script[..p] + Inserted(drifted) + script[p..]) == Performed(Performed(text, script), Inserted(drifted))
       <==> forall i | 0 <= i < |drifted| :: LastWrite(script[p..], drifted[i].0).None?
  {
    hide Performed, LastWrite, Inserted, At;
    var a := Performed(text, script[..p] + Inserted(drifted) + script[p..]);
    var b := Performed(Performed(text, script), Inserted(drifted));
    SameTexts(a, b);
    forall path
      ensures At(a, path) == At(b, path) <==> LastWrite(Inserted(drifted), path).None? || LastWrite(script[p..], path).None?
    {
      ReplayedAt(text, script, drifted, p, path);
      LastInserted(drifted, path);
    }
    forall i | 0 <= i < |drifted| ensures LastWrite(Inserted(drifted), drifted[i].0) == Some(drifted[i].1) {
      LastInserted(drifted, drifted[i].0);
    }
    forall path | LastWrite(Inserted(drifted), path).Some? ensures exists i :: 0 <= i < |drifted| && drifted[i].0 == path {
      LastInserted(drifted, path);
    }
  }

  /**
   * Replaying the fixture from the seed ends with the reconciled texts exactly when no drifted file has a captured edit
   * at or after the place where its reconciliation was put.
   */
  lemma ReplayEndsReconciledIff(seed: Files, events: seq<Captured>, disk: Option<map<string, string>>)
    requires Keyed(seed) && Recorded(seed, events).Some?
    ensures var f := Recorded(seed, events).value;
            var g := Reconciled(f, disk);
            Replayed(seed.text, g.mutations, |g.events|) == g.files.text <==> Undisturbed(f, DriftOf(f, disk))
  {
    hide Recorded, ScriptOf, Tells, Names, InsertionPoint, Performed, LastWrite, Inserted, Keyed, Replayed;
    RecordedScripted(seed, events);
    ReconciledScripted(seed, events, disk);
    var f, script := Recorded(seed, events).value, ScriptOf(seed, events);
    var g, drifted, p := Reconciled(f, disk), DriftOf(f, disk), InsertionPoint(f.events);
    var script' := script[..p] + Inserted(drifted) + script[p..];
    NamesLength(g.events, script');
    ReplayedPerforms(seed.text, g.mutations, script', |script'|);
    assert script'[..|script'|] == script';
    ReconciledTexts(f, disk);
    DriftDiffers(f, disk);
    ScriptReplaysIff(seed.text, script, drifted, p);
    forall i | 0 <= i < |drifted|
      ensures LastWrite(script[p..], drifted[i].0).Some? <==> exists m :: m in f.mutations && m.path == drifted[i].0 && m.after >= p
    {
      LaterEdit(f, script, p, drifted[i].0);
    }
  }

  lemma NamesLength(events: seq<FixtureEvent>, script: Script)
    requires Names(events, script)
    ensures |events| == |script|
  {
  }

  lemma ReconciledTexts(f: Fixture, disk: Option<map<string, string>>)
    ensures Reconciled(f, disk).files.text == Performed(f.files.text, Inserted(DriftOf(f, disk)))
  {
    hide DriftOf;
    PutAllPerforms(f.files, DriftOf(f, disk));
  }

  lemma DriftDiffers(f: Fixture, disk: Option<map<string, string>>)
    requires Keyed(f.files)
    ensures var d := DriftOf(f, disk);
            && (forall i, j | 0 <= i < j < |d| :: d[i].0 != d[j].0)
            && (forall i | 0 <= i < |d| :: At(f.files.text, d[i].0) != Some(d[i].1))
  {
    hide Drifted;
    if disk.Some? { DriftedDiffers(f.files.paths, f.files.text, disk.value); }
    forall i | 0 <= i < |DriftOf(f, disk)| ensures At(f.files.text, DriftOf(f, disk)[i].0) != Some(DriftOf(f, disk)[i].1) {
      assert Differs(DriftOf(f, disk), f.files.paths, f.files.text);
    }
  }

  const RUN := Kept(Shell("pytest", true))
  const EDIT := EditCall(WriteTool, Some("a"), Some("x"), None, None)
  const SHOWN := Fixture(Files(["a"], map["a" := "x"]), [Other(Shell("pytest", true)), FileEdit("a", Some(WriteTool))],
                         [Mutation(1, "a", "x")])

  lemma EditAfterRun()
    ensures Recorded(Files([], map[]), [RUN, EDIT]) == Some(SHOWN)
  {
    var seed := Files([], map[]);
    var f1 := Fixture(seed, [Other(Shell("pytest", true))], []);
    assert [RUN, EDIT][..1] == [RUN] && [RUN][..0] == [];
    assert [] + [Other(Shell("pytest", true))] == f1.events;
    assert Recorded(seed, []) == Some(Fixture(seed, [], []));
    assert Recorded(seed, [RUN]) == Some(f1);
    assert Put(seed, "a", "x") == SHOWN.files;
    assert f1.events + [FileEdit("a", Some(WriteTool))] == SHOWN.events;
    assert [] + [Mutation(1, "a", "x")] == SHOWN.mutations;
  }

  lemma InsertedBeforeRun()
    ensures InsertionPoint(SHOWN.events) == 0
  {
    var events := SHOWN.events;
    assert events[..1] == [Other(Shell("pytest", true))] && events[..1][..0] == [];
    assert LastStop([]) == 0 && LastStop(events[..1]) == 1 && LastStop(events) == 2;
    assert LastGreen(events, 1) == 0 && LastGreen(events, 2) == 0;
  }

  /** Reconciled with "y" on disk: the recorded bytes are written first and the captured edit after them. */
  lemma ShownReconciled()
    ensures DriftOf(SHOWN, Some(map["a" := "y"])) == [("a", "y")]
    ensures var g := Reconciled(SHOWN, Some(map["a" := "y"]));
            g.files.text == map["a" := "y"] && |g.events| == 3
            && g.mutations == [Mutation(2, "a", "x"), Mutation(0, "a", "y")]
  {
    InsertedBeforeRun();
    hide InsertionPoint;
    assert ["a"][..0] == [] && Drifted([], SHOWN.files.text, map["a" := "y"]) == [];
    var drifted := DriftOf(SHOWN, Some(map["a" := "y"]));
    assert "x"[0] != "y"[0];
    assert drifted == [("a", "y")];
    assert drifted[..0] == [] && PutAll(SHOWN.files, []) == SHOWN.files;
    assert SHOWN.files.text["a" := "y"] == map["a" := "y"];
    assert Shifted(SHOWN.mutations, 0, 1) == [Mutation(2, "a", "x")];
    assert ReconcilingMutations(drifted, 0) == [Mutation(0, "a", "y")];
    assert [Mutation(2, "a", "x")] + [Mutation(0, "a", "y")] == [Mutation(2, "a", "x"), Mutation(0, "a", "y")];
  }

  lemma ShownReplayed()
    ensures Replayed(map[], [Mutation(2, "a", "x"), Mutation(0, "a", "y")], 3) == map["a" := "x"]
  {
    var one, two := [Mutation(2, "a", "x")], [Mutation(2, "a", "x"), Mutation(0, "a", "y")];
    assert two[..1] == one && one[..0] == [];
    assert Due([], 0) == Due([], 1) == Due([], 2) == [];
    assert Due(one, 0) == Due(one, 1) == [] && Due(one, 2) == one;
    assert Due(two, 0) == [Mutation(0, "a", "y")] && Due(two, 1) == [] && Due(two, 2) == one;
    assert [Mutation(0, "a", "y")][..0] == [];
    assert Replayed(map[], two, 0) == map[];
    assert Replayed(map[], two, 1) == map["a" := "y"];
    assert Replayed(map[], two, 2) == map["a" := "y"];
    assert map["a" := "y"]["a" := "x"] == map["a" := "x"];
  }

  /** A green run first, then a captured edit of a file that drifted: the replay ends with the edit, not the recorded bytes. */
  lemma CapturedEditWins()
    ensures Keyed(Files([], map[])) && Recorded(Files([], map[]), [RUN, EDIT]) == Some(SHOWN)
    ensures var g := Reconciled(SHOWN, Some(map["a" := "y"]));
            && !Undisturbed(SHOWN, DriftOf(SHOWN, Some(map["a" := "y"])))
            && g.files.text == map["a" := "y"]
            && Replayed(map[], g.mutations, |g.events|) == map["a" := "x"]
  {
    EditAfterRun();
    InsertedBeforeRun();
    ShownReconciled();
    ShownReplayed();
    hide Recorded, InsertionPoint, Replayed, Reconciled, DriftOf;
    assert DriftOf(SHOWN, Some(map["a" := "y"]))[0].0 == "a";
    assert SHOWN.mutations[0] in SHOWN.mutations;
  }
}
