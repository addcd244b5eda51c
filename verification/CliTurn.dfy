/** One worker CLI invocation judged from its output log (benchmarks/opencode_cli.py, completed_turn). */
module CliTurn {
  import opened Common
  import opened Base64

  const MAX_OUTPUT: nat := 64 * 1024 * 1024
  const MAX_LINE: nat := 1024 * 1024
  const MAX_EVENTS: nat := 10_000

  datatype Kind = ErrorEvent | StepStart | TextEvent | StepFinish | OtherKind

  /** A decoded event; None stands for a field that is absent or of another type. */
  datatype Part = Part(session: Option<string>, message: Option<string>, text: Option<string>, reasonStop: bool)
  datatype CliEvent = CliEvent(kind: Kind, session: Option<string>, part: Option<Part>)

  /** Decodes one line; None when it is no JSON object, has a repeated key, or a non-finite number. */
  type Reader = seq<Byte> -> Option<CliEvent>

  /** A content digest: equal exactly for equal contents. */
  datatype Digest = Sha256(content: seq<Byte>)

  datatype Turn = Turn(session: string, messages: seq<string>, events: nat, digest: Digest, size: nat)

  predicate Identifies(id: Option<string>) {
    id.Some? && 1 <= |id.value| <= 256
  }

  /** Lines as bytes.splitlines() gives them, with the line under way. */
  function Lines(raw: seq<Byte>, line: seq<Byte>): seq<seq<Byte>> {
    if raw == [] then if line == [] then [] else [line]
    else if raw[0] == 13 && |raw| > 1 && raw[1] == 10 then [line] + Lines(raw[2..], [])
    else if raw[0] == 10 || raw[0] == 13 then [line] + Lines(raw[1..], [])
    else Lines(raw[1..], line + [raw[0]])
  }

  /** The loop's variables. */
  datatype Scan = Scan(session: Option<string>, started: set<string>, latest: Option<string>,
                       messages: seq<string>, events: seq<CliEvent>)

  const FRESH := Scan(None, {}, None, [], [])

  /** One event against what was seen before it. */
  function Hear(s: Scan, e: CliEvent, expected: Option<string>): Option<Scan> {
    if e.kind == ErrorEvent || !Identifies(e.session) then None
    else if (s.session.Some? && s.session != e.session) || (expected.Some? && expected != e.session) then None
    else if e.part.None? || e.part.value.session != e.session || !Identifies(e.part.value.message) then None
    else
      var message := e.part.value.message.value;
      if e.kind != StepStart && message !in s.started then None
      else if e.kind == TextEvent && e.part.value.text.None? then None
      else Some(Scan(e.session,
                     if e.kind == StepStart then s.started + {message} else s.started,
                     if e.kind == StepStart then Some(message) else s.latest,
                     if e.kind == TextEvent then s.messages + [e.part.value.text.value] else s.messages,
                     s.events + [e]))
  }

  predicate LineFits(line: seq<Byte>, before: nat) {
    0 < |line| <= MAX_LINE && before < MAX_EVENTS
  }

  function HearLines(lines: seq<seq<Byte>>, expected: Option<string>, read: Reader): Option<Scan> {
    if lines == [] then Some(FRESH)
    else
      HearLine(HearLines(lines[..|lines| - 1], expected, read), lines[|lines| - 1], expected, read)
  }

  function HearLine(s: Option<Scan>, line: seq<Byte>, expected: Option<string>, read: Reader): Option<Scan> {
    if s.None? || !LineFits(line, |s.value.events|) || read(line).None? then None
    else Hear(s.value, read(line).value, expected)
  }

  /** The last event is a natural stop of the message whose step started last. */
  predicate Stops(s: Scan) {
    && s.events != []
    && var e := s.events[|s.events| - 1];
       e.kind == StepFinish && e.part.Some? && e.part.value.reasonStop && e.part.value.message == s.latest
  }

  function CompletedTurn(raw: seq<Byte>, exit: int, expected: Option<string>, read: Reader): Option<Turn> {
    if exit != 0 || raw == [] || |raw| > MAX_OUTPUT then None
    else
      var s := HearLines(Lines(raw, []), expected, read);
      if s.None? || !Stops(s.value) || s.value.session.None? then None
      else Some(Turn(s.value.session.value, s.value.messages, |s.value.events|, Sha256(raw), |raw|))
  }

  method JudgeTurn(raw: seq<Byte>, exit: int, expected: Option<string>, read: Reader) returns (turn: Option<Turn>)
    ensures turn == CompletedTurn(raw, exit, expected, read)
  {
    hide Hear, Lines, LineFits;
    if exit != 0 || raw == [] || |raw| > MAX_OUTPUT { return None; }
    var lines := Lines(raw, []);
    var s := FRESH;
    var i := 0;
    assert lines[..0] == [];
    while i < |lines|
      invariant i <= |lines| && HearLines(lines[..i], expected, read) == Some(s)
    {
      assert lines[..i + 1][..i] == lines[..i] && lines[..i + 1][i] == lines[i];
      var heard := None;
      if LineFits(lines[i], |s.events|) {
        var event := read(lines[i]);
        if event.Some? { heard := Hear(s, event.value, expected); }
      }
      if heard.None? {
        StaysNone(lines, i + 1, expected, read);
        return None;
      }
      s := heard.value;
      i := i + 1;
    }
    assert lines[..i] == lines;
    if !Stops(s) || s.session.None? { return None; }
    return Some(Turn(s.session.value, s.messages, |s.events|, Sha256(raw), |raw|));
  }

  lemma {:induction false} StaysNone(lines: seq<seq<Byte>>, i: nat, expected: Option<string>, read: Reader)
    requires i <= |lines| && HearLines(lines[..i], expected, read).None?
    ensures HearLines(lines, expected, read).None?
    decreases |lines|
  {
    if i < |lines| {
      assert lines[..|lines| - 1][..i] == lines[..i];
      StaysNone(lines[..|lines| - 1], i, expected, read);
    } else {
      assert lines[..i] == lines;
    }
  }

  // ----- the lines of a log -----

  /** No byte that ends a line. */
  predicate Unbroken(s: seq<Byte>) {
    forall b | b in s :: b != 10 && b != 13
  }

  lemma {:induction false} LinesSkip(a: seq<Byte>, rest: seq<Byte>, line: seq<Byte>)
    requires Unbroken(a)
    ensures Lines(a + rest, line) == Lines(rest, line + a)
  {
    if a == [] {
      assert a + rest == rest && line + a == line;
    } else {
      assert a[0] in a && (a + rest)[0] == a[0] && (a + rest)[1..] == a[1..] + rest;
      assert forall b | b in a[1..] :: b in a;
      LinesSkip(a[1..], rest, line + [a[0]]);
      assert line + [a[0]] + a[1..] == line + a;
    }
  }

  /**
   * splitlines: CR LF, LF and CR each end one line, what follows the last end is a line unless it is empty, and nothing
   * else ends one.
   */
  lemma LinesAre(a: seq<Byte>, rest: seq<Byte>)
    requires Unbroken(a)
    ensures Lines(a, []) == if |a| > 0 then [a] else []
    ensures Lines(a + [13, 10] + rest, []) == [a] + Lines(rest, [])
    ensures Lines(a + [10] + rest, []) == [a] + Lines(rest, [])
    ensures (|rest| > 0 ==> rest[0] != 10) ==> Lines(a + [13] + rest, []) == [a] + Lines(rest, [])
  {
    assert [] + a == a && a + [] == a;
    LinesSkip(a, [], []);
    assert a + [13, 10] + rest == a + ([13, 10] + rest) && ([13, 10] + rest)[2..] == rest;
    LinesSkip(a, [13, 10] + rest, []);
    assert a + [10] + rest == a + ([10] + rest) && ([10] + rest)[1..] == rest;
    LinesSkip(a, [10] + rest, []);
    assert a + [13] + rest == a + ([13] + rest) && ([13] + rest)[1..] == rest;
    LinesSkip(a, [13] + rest, []);
  }

  // ----- what an accepted turn is, said of the whole log -----

  predicate Readable(lines: seq<seq<Byte>>, read: Reader) {
    |lines| <= MAX_EVENTS && forall i | 0 <= i < |lines| :: 0 < |lines[i]| <= MAX_LINE && read(lines[i]).Some?
  }

  function Events(lines: seq<seq<Byte>>, read: Reader): (es: seq<CliEvent>)
    requires Readable(lines, read)
    ensures |es| == |lines| && forall i | 0 <= i < |lines| :: es[i] == read(lines[i]).value
  {
    seq(|lines|, i requires 0 <= i < |lines| => read(lines[i]).value)
  }

  predicate Starts(e: CliEvent, message: Option<string>) {
    e.kind == StepStart && e.part.Some? && e.part.value.message == message
  }

  /** Event i belongs to the session, and to a step that has started. */
  predicate Belongs(es: seq<CliEvent>, i: nat, session: Option<string>)
    requires i < |es|
  {
    && es[i].kind != ErrorEvent && es[i].session == session
    && es[i].part.Some? && es[i].part.value.session == session
    && es[i].part.value.message.Some? && 0 < |es[i].part.value.message.value| < 257
    && (es[i].kind == TextEvent ==> es[i].part.value.text.Some?)
    && exists j :: 0 <= j <= i && Starts(es[j], es[i].part.value.message)
  }

  /** All events under one session: the expected one, if any. */
  predicate Coherent(es: seq<CliEvent>, expected: Option<string>) {
    es != [] ==>
      && es[0].session.Some? && 0 < |es[0].session.value| < 257 && (expected.Some? ==> es[0].session == expected)
      && forall i | 0 <= i < |es| :: Belongs(es, i, es[0].session)
  }

  /** The message of the step that started last. */
  function LastStart(es: seq<CliEvent>): Option<string> {
    if es == [] then None
    else if es[|es| - 1].kind == StepStart && es[|es| - 1].part.Some? then es[|es| - 1].part.value.message
    else LastStart(es[..|es| - 1])
  }

  function Texts(es: seq<CliEvent>): seq<string> {
    if es == [] then []
    else
      var e := es[|es| - 1];
      Texts(es[..|es| - 1]) + if e.kind == TextEvent && e.part.Some? && e.part.value.text.Some? then [e.part.value.text.value] else []
  }

  predicate NaturalStop(es: seq<CliEvent>) {
    && es != []
    && var e := es[|es| - 1];
       e.kind == StepFinish && e.part.Some? && e.part.value.reasonStop && e.part.value.message == LastStart(es)
  }

  /** The scan holds exactly what the whole-history functions say. */
  ghost predicate Holds(s: Scan, es: seq<CliEvent>) {
    && s.events == es && s.latest == LastStart(es) && s.messages == Texts(es)
    && s.session == (if es == [] then None else es[0].session)
    && forall m :: m in s.started <==> exists j :: 0 <= j < |es| && Starts(es[j], Some(m))
  }

  lemma BelongsPrefix(es: seq<CliEvent>, e: CliEvent, session: Option<string>)
    ensures forall i | 0 <= i < |es| :: Belongs(es + [e], i, session) <==> Belongs(es, i, session)
  {
    forall i | 0 <= i < |es| ensures Belongs(es + [e], i, session) <==> Belongs(es, i, session) {
      assert forall j | 0 <= j <= i :: (es + [e])[j] == es[j];
    }
  }

  lemma CoherentNext(es: seq<CliEvent>, e: CliEvent, expected: Option<string>)
    requires Coherent(es, expected)
    ensures var es' := es + [e];
            Coherent(es', expected) <==>
              Identifies(es'[0].session) && (expected.Some? ==> es'[0].session == expected) && Belongs(es', |es|, es'[0].session)
  {
    BelongsPrefix(es, e, (es + [e])[0].session);
    hide Belongs;
    assert es != [] ==> (es + [e])[0] == es[0];
    assert forall i | 0 <= i < |es| :: Belongs(es, i, (es + [e])[0].session);
  }

  lemma StartedNext(s: Scan, es: seq<CliEvent>, e: CliEvent, expected: Option<string>)
    requires Holds(s, es) && (es != [] ==> Identifies(es[0].session)) && Hear(s, e, expected).Some?
    ensures Holds(Hear(s, e, expected).value, es + [e])
  {
    var es', n, h := es + [e], |es|, Hear(s, e, expected).value;
    assert es'[..n] == es && es'[n] == e;
    forall m ensures m in h.started <==> exists j :: 0 <= j < |es'| && Starts(es'[j], Some(m)) {
      if m in s.started {
        var j :| 0 <= j < |es| && Starts(es[j], Some(m));
        assert Starts(es'[j], Some(m));
      } else if e.kind == StepStart && e.part.value.message == Some(m) {
        assert Starts(es'[n], Some(m));
      } else {
        assert forall j | 0 <= j < |es| :: es'[j] == es[j] && !Starts(es[j], Some(m));
      }
    }
  }

  lemma HearHolds(s: Scan, es: seq<CliEvent>, e: CliEvent, expected: Option<string>)
    requires Coherent(es, expected) && Holds(s, es)
    ensures Hear(s, e, expected).Some? <==> Coherent(es + [e], expected)
    ensures Hear(s, e, expected).Some? ==> Holds(Hear(s, e, expected).value, es + [e])
  {
    hide Hear, Holds, Belongs;
    CoherentNext(es, e, expected);
    HearBelongs(s, es, e, expected);
    assert es == [] ==> (es + [e])[0] == e;
    if Hear(s, e, expected).Some? {
      StartedNext(s, es, e, expected);
    }
  }

  /** Whether the next event is heard, in terms of the events before it. */
  lemma HearBelongs(s: Scan, es: seq<CliEvent>, e: CliEvent, expected: Option<string>)
    requires Holds(s, es) && (es != [] ==> Identifies(es[0].session))
    ensures Hear(s, e, expected).Some? <==>
              && Identifies((es + [e])[0].session) && (expected.Some? ==> (es + [e])[0].session == expected)
              && Belongs(es + [e], |es|, (es + [e])[0].session)
  {
    hide Texts, LastStart;
    var es', n := es + [e], |es|;
    assert es'[n] == e && (es != [] ==> es'[0] == es[0]);
    if e.part.Some? && e.part.value.message.Some? {
      var m := e.part.value.message.value;
      if m in s.started {
        var j :| 0 <= j < |es| && Starts(es[j], Some(m));
        assert Starts(es'[j], es'[n].part.value.message);
      } else if e.kind == StepStart {
        assert Starts(es'[n], es'[n].part.value.message);
      } else {
        forall j | 0 <= j <= n ensures !Starts(es'[j], es'[n].part.value.message) {
          if j < n { assert es'[j] == es[j] && !Starts(es[j], Some(m)); }
        }
      }
    }
  }

  lemma CoherentPrefix(es: seq<CliEvent>, e: CliEvent, expected: Option<string>)
    requires Coherent(es + [e], expected)
    ensures Coherent(es, expected)
  {
    var es' := es + [e];
    BelongsPrefix(es, e, es'[0].session);
    hide Belongs;
    assert es != [] ==> es'[0] == es[0];
  }

  lemma HoldsCount(s: Scan, es: seq<CliEvent>)
    requires Holds(s, es)
    ensures |s.events| == |es|
  {
  }

  /** The result of scanning these lines says whether they are readable and coherent, and what they hold. */
  ghost predicate Judges(r: Option<Scan>, lines: seq<seq<Byte>>, expected: Option<string>, read: Reader) {
    && (r.Some? <==> Readable(lines, read) && Coherent(Events(lines, read), expected))
    && (r.Some? ==> Holds(r.value, Events(lines, read)))
  }

  lemma HearLineJudges(r: Option<Scan>, lines: seq<seq<Byte>>, expected: Option<string>, read: Reader)
    requires lines != [] && Judges(r, lines[..|lines| - 1], expected, read)
    ensures Judges(HearLine(r, lines[|lines| - 1], expected, read), lines, expected, read)
  {
    hide Hear, Coherent, Holds, LastStart, Texts, Readable, Events;
    var n := |lines| - 1;
    ReadablePrefix(lines, read);
    if Readable(lines[..n], read) && read(lines[n]).Some? {
      var front, e := Events(lines[..n], read), read(lines[n]).value;
      if r.Some? {
        HearHolds(r.value, front, e, expected);
        HoldsCount(r.value, front);
      } else if Coherent(front + [e], expected) {
        CoherentPrefix(front, e, expected);
      }
    }
  }

  lemma {:induction false} HearLinesHolds(lines: seq<seq<Byte>>, expected: Option<string>, read: Reader)
    ensures Judges(HearLines(lines, expected, read), lines, expected, read)
  {
    if lines != [] {
      hide Judges, HearLine;
      HearLinesHolds(lines[..|lines| - 1], expected, read);
      HearLineJudges(HearLines(lines[..|lines| - 1], expected, read), lines, expected, read);
    }
  }

  lemma ReadablePrefix(lines: seq<seq<Byte>>, read: Reader)
    requires lines != []
    ensures var n := |lines| - 1;
            && (Readable(lines, read) <==> Readable(lines[..n], read) && LineFits(lines[n], n) && read(lines[n]).Some?)
            && (Readable(lines, read) ==> Events(lines, read) == Events(lines[..n], read) + [read(lines[n]).value])
  {
    var n := |lines| - 1;
    if Readable(lines[..n], read) && LineFits(lines[n], n) && read(lines[n]).Some? {
      forall i | 0 <= i < |lines| ensures 0 < |lines[i]| <= MAX_LINE && read(lines[i]).Some? {
        if i < n { assert lines[i] == lines[..n][i]; }
      }
    }
  }

  /** A log is accepted exactly when it is readable, coherent and naturally stopped; and what the turn then reports. */
  lemma CompletedIff(raw: seq<Byte>, exit: int, expected: Option<string>, read: Reader)
    ensures var turn, lines := CompletedTurn(raw, exit, expected, read), Lines(raw, []);
            && (turn.Some? <==>
                  && exit == 0 && 0 < |raw| <= MAX_OUTPUT
                  && Readable(lines, read) && Coherent(Events(lines, read), expected) && NaturalStop(Events(lines, read)))
            && (turn.Some? ==>
                  var es := Events(lines, read);
                  turn.value == Turn(es[0].session.value, Texts(es), |es|, Sha256(raw), |raw|))
  {
    hide HearLines, LastStart, Texts, Lines;
    HearLinesHolds(Lines(raw, []), expected, read);
  }
}
