/**
 * The schema 2 path of the raw log inspector (benchmarks/four_arm.py), and its agreement with the
 * journal that writes such logs.
 */
module RawLogInspector {
  import opened Common
  import opened Base64
  import opened ExperimentPlan
  import opened ProtocolJournal

  /** A JSON-RPC method; the ones the inspector singles out, and the rest by name. */
  datatype Method = Initialize | Initialized | ThreadStart | TurnStart | TurnStarted | TurnCompleted | OtherMethod(name: string)

  /** The thread and turn ids a result carries, where it carries strings. */
  datatype Answer = Answer(thread: Option<string>, turn: Option<string>)

  /** The thread and the nonempty turn id in a turn notification. */
  datatype TurnNote = TurnNote(thread: string, turn: string)

  /** A payload read as JSON. id is None unless it is a string or an integer. */
  datatype Msg =
    | Malformed
    | NotObject
    | Message(id: Option<string>, verb: Option<Method>, answer: Option<Answer>, note: Option<TurnNote>)

  datatype Said = Said(direction: Direction, msg: Msg)

  /** The maps and sets the inspector fills while it reads. */
  datatype Talk = Talk(requests: seq<(string, Method)>, answers: map<string, Answer>, serverRequests: set<string>,
                       replies: set<string>, notes: set<Method>, started: set<string>, completed: set<string>)

  const SILENCE := Talk([], map[], {}, {}, {}, {}, {})

  datatype ResultRow = ResultRow(identity: Identity, threadId: string, turnId: string, started: Option<int>,
                                 ended: Option<int>, followups: nat, harness: string, transport: Transport)

  datatype Fault =
    | BadRunTimes | TooLarge | OutOfBounds | InvalidJson | BadSequence | BadSchema | BadIdentity | BadTimestamp
    | BadHeader | DataAfterFooter | BadFooter | NoFooter | BadLine
    | BadControllerJson | UnrecognizedLine | DuplicateRequest | DuplicateReply | DuplicateAnswer | DuplicateServerRequest

  datatype Config = Config(codec: Codec, parse: seq<Byte> -> Msg, row: ResultRow)

  function Ids(requests: seq<(string, Method)>): (r: set<string>) {
    set q | q in requests :: q.0
  }

  /** One message against the maps, in the inspector's order of cases. */
  function Hear(talk: Talk, said: Said, thread: string): Result<Talk, Fault> {
    var m := said.msg;
    if said.direction == Stdin then
      if !m.Message? then Err(BadControllerJson)
      else if m.verb.Some? then
        if m.id.None? then Ok(talk.(notes := talk.notes + {m.verb.value}))
        else if m.id.value in Ids(talk.requests) then Err(DuplicateRequest)
        else Ok(talk.(requests := talk.requests + [(m.id.value, m.verb.value)]))
      else if m.id.Some? && m.answer.Some? then
        if m.id.value in talk.replies then Err(DuplicateReply)
        else Ok(talk.(replies := talk.replies + {m.id.value}))
      else Err(UnrecognizedLine)
    else if !m.Message? then Ok(talk)
    else if m.id.Some? && m.answer.Some? then
      if m.id.value in talk.answers then Err(DuplicateAnswer)
      else Ok(talk.(answers := talk.answers[m.id.value := m.answer.value]))
    else if m.verb.Some? then
      if m.id.Some? && m.id.value in talk.serverRequests then Err(DuplicateServerRequest)
      else
        var t := if m.id.Some? then talk.(serverRequests := talk.serverRequests + {m.id.value}) else talk;
        if m.note.None? || m.note.value.thread != thread then Ok(t)
        else if m.verb.value == TurnStarted then Ok(t.(started := t.started + {m.note.value.turn}))
        else if m.verb.value == TurnCompleted then Ok(t.(completed := t.completed + {m.note.value.turn}))
        else Ok(t)
    else Ok(talk)
  }

  /** The reading loop's variables. */
  datatype Scan = Scan(count: nat, footer: bool, lines: nat, stdin: nat, stdout: nat, talk: Talk)

  const BLANK_SCAN := Scan(0, false, 0, 0, 0, SILENCE)

  predicate InRun(at: Option<int>, row: ResultRow) {
    at.Some? && row.started.Some? && row.ended.Some? && row.started.value <= at.value <= row.ended.value
  }

  /** The exact header the first record must be. */
  predicate HeaderOk(event: Record, row: ResultRow) {
    && row.identity.arm.Arm? && row.identity.arm.harness == Codex
    && event.body.Header? && event.body.literals && event.body.transport == CodexStdio && !event.body.hasThread
    && event.timestamp == row.started
  }

  predicate FooterOk(event: Record, st: Scan, row: ResultRow) {
    && event.body.Footer? && event.body.literals && event.body.complete
    && st.lines > 0
    && event.body.closing == Closing(st.lines, st.stdin, st.stdout, row.threadId, row.turnId, 1 + row.followups,
                                     row.harness, row.transport)
    && event.timestamp == row.ended
  }

  /** The exact bytes of a protocol line, if its envelope, base64, size, digest and ending agree. */
  function PayloadOf(body: Body): Option<seq<Byte>> {
    if !body.Line? || !body.literals || body.direction.None? then None
    else
      var decoded := Decode(body.payload64);
      if decoded.None? then None
      else
        var payload := decoded.value;
        if payload == [] || |payload| > MAX_PROTOCOL_PAYLOAD_BYTES || |payload| != body.payloadBytes
           || PayloadSha(payload) != body.payloadSha || payload[|payload| - 1] != NEWLINE
        then None else Some(payload)
  }

  /** One record, given what was read before it. */
  function Examine(st: Scan, raw: seq<Byte>, cfg: Config): Result<Scan, Fault> {
    if st.count + 1 > MAX_JOURNAL_RECORDS || |raw| > MAX_JOURNAL_RECORD_BYTES || Blank(raw) then Err(OutOfBounds)
    else
      var parsed := cfg.codec.decode(raw);
      if parsed.None? then Err(InvalidJson)
      else
        var event := parsed.value;
        var next := st.(count := st.count + 1);
        if event.sequence != st.count then Err(BadSequence)
        else if event.schema != 2 then Err(BadSchema)
        else if event.identity != cfg.row.identity then Err(BadIdentity)
        else if !InRun(event.timestamp, cfg.row) then Err(BadTimestamp)
        else if st.count == 0 then
          if HeaderOk(event, cfg.row) then Ok(next) else Err(BadHeader)
        else if st.footer then Err(DataAfterFooter)
        else if event.body.Footer? then
          if FooterOk(event, st, cfg.row) then Ok(next.(footer := true)) else Err(BadFooter)
        else
          var payload := PayloadOf(event.body);
          if payload.None? then Err(BadLine)
          else
            var d := event.body.direction.value;
            var heard := Hear(st.talk, Said(d, cfg.parse(payload.value)), cfg.row.threadId);
            if heard.Err? then Err(heard.error)
            else Ok(next.(lines := st.lines + 1, stdin := st.stdin + (if d == Stdin then 1 else 0),
                          stdout := st.stdout + (if d == Stdout then 1 else 0), talk := heard.value))
  }

  function ScanLines(lines: seq<seq<Byte>>, cfg: Config): Result<Scan, Fault> {
    if lines == [] then Ok(BLANK_SCAN)
    else
      var n := |lines| - 1;
      var st := ScanLines(lines[..n], cfg);
      if st.Err? then st else Examine(st.value, lines[n], cfg)
  }

  function LineEnd(bytes: seq<Byte>): (n: nat)
    ensures n <= |bytes| && (bytes != [] ==> n > 0)
  {
    if bytes == [] then 0 else if bytes[0] == NEWLINE then 1 else 1 + LineEnd(bytes[1..])
  }

  /** readline after readline. */
  function SplitLines(bytes: seq<Byte>): seq<seq<Byte>> {
    if bytes == [] then [] else [bytes[..LineEnd(bytes)]] + SplitLines(bytes[LineEnd(bytes)..])
  }

  datatype Blocker = UnmatchedClient | UnmatchedServer | IncompleteSequence | ThreadNotBound | TurnsNotBound

  function CountMethod(requests: seq<(string, Method)>, m: Method): nat {
    if requests == [] then 0
    else CountMethod(requests[..|requests| - 1], m) + if requests[|requests| - 1].1 == m then 1 else 0
  }

  /** The string ids that answers to requests of one method carry, in request order. */
  function Receipts(requests: seq<(string, Method)>, answers: map<string, Answer>, m: Method): seq<string> {
    if requests == [] then []
    else
      var n := |requests| - 1;
      var (id, verb) := requests[n];
      var receipt := if verb != m || id !in answers then None
                     else if m == ThreadStart then answers[id].thread else answers[id].turn;
      Receipts(requests[..n], answers, m) + if receipt.Some? then [receipt.value] else []
  }

  function Blockers(st: Scan, row: ResultRow): seq<Blocker> {
    var t := st.talk;
    var expected := 1 + row.followups;
    var turns := Receipts(t.requests, t.answers, TurnStart);
    (if Ids(t.requests) != t.answers.Keys then [UnmatchedClient] else [])
    + (if t.serverRequests != t.replies then [UnmatchedServer] else [])
    + (if CountMethod(t.requests, Initialize) != 1 || Initialized !in t.notes
          || CountMethod(t.requests, ThreadStart) != 1 || CountMethod(t.requests, TurnStart) != expected
          || st.stdin == 0 || st.stdout == 0
       then [IncompleteSequence] else [])
    + (if Receipts(t.requests, t.answers, ThreadStart) != [row.threadId] then [ThreadNotBound] else [])
    + (if |turns| != expected || row.turnId !in turns
          || (set x | x in turns) != t.started || (set x | x in turns) != t.completed
       then [TurnsNotBound] else [])
  }

  function Inspect(bytes: seq<Byte>, cfg: Config): Result<(seq<Byte>, seq<Blocker>), Fault> {
    var row := cfg.row;
    if row.started.None? || row.ended.None? || row.ended.value < row.started.value then Err(BadRunTimes)
    else if |bytes| > MAX_JOURNAL_BYTES then Err(TooLarge)
    else
      var st := ScanLines(SplitLines(bytes), cfg);
      if st.Err? then Err(st.error)
      else if !st.value.footer then Err(NoFooter)
      else Ok((bytes, Blockers(st.value, row)))
  }

  /** _inspect_raw_log: one pass over the lines with the digest, the counters and the maps. */
  method InspectRawLog(bytes: seq<Byte>, cfg: Config) returns (result: Result<(seq<Byte>, seq<Blocker>), Fault>)
    ensures result == Inspect(bytes, cfg)
  {
    hide Examine, Blockers, SplitLines, ScanLines, LineEnd;
    NothingRead(cfg);
    var row := cfg.row;
    if row.started.None? || row.ended.None? || row.ended.value < row.started.value {
      return Err(BadRunTimes);
    }
    if |bytes| > MAX_JOURNAL_BYTES {
      return Err(TooLarge);
    }
    var digest: seq<Byte> := [];
    var st := BLANK_SCAN;
    var rest := bytes;
    ghost var done: seq<seq<Byte>> := [];
    while rest != []
      invariant done + SplitLines(rest) == SplitLines(bytes)
      invariant ScanLines(done, cfg) == Ok(st)
      invariant digest + rest == bytes
      decreases |rest|
    {
      var line := rest[..LineEnd(rest)];
      digest := digest + line;
      var next := Examine(st, line, cfg);
      ScanOneMore(done, line, cfg);
      SplitStep(rest, LineEnd(rest));
      done := done + [line];
      rest := rest[LineEnd(rest)..];
      if next.Err? {
        ghost var all := SplitLines(bytes);
        assert all[..|done|] == done;
        PrefixFails(all, |done|, cfg);
        return Err(next.error);
      }
      st := next.value;
    }
    assert done == SplitLines(bytes) && digest == bytes;
    if !st.footer {
      return Err(NoFooter);
    }
    return Ok((digest, Blockers(st, row)));
  }

  lemma NothingRead(cfg: Config)
    ensures ScanLines([], cfg) == Ok(BLANK_SCAN) && SplitLines([]) == []
  {
  }

  lemma ScanOneMore(lines: seq<seq<Byte>>, line: seq<Byte>, cfg: Config)
    ensures ScanLines(lines + [line], cfg) ==
              var st := ScanLines(lines, cfg); if st.Err? then st else Examine(st.value, line, cfg)
  {
    hide Examine;
    assert (lines + [line])[..|lines|] == lines;
  }

  /** Once a prefix fails, the whole scan fails the same way. */
  lemma {:induction false} PrefixFails(lines: seq<seq<Byte>>, k: nat, cfg: Config)
    requires k <= |lines| && ScanLines(lines[..k], cfg).Err?
    ensures ScanLines(lines, cfg) == ScanLines(lines[..k], cfg)
    decreases |lines|
  {
    if k == |lines| {
      assert lines[..k] == lines;
    } else {
      var n := |lines| - 1;
      assert lines[..n][..k] == lines[..k];
      PrefixFails(lines[..n], k, cfg);
    }
  }

  // ----- agreement with the journal -----

  lemma LineEndStable(a: seq<Byte>, b: seq<Byte>)
    requires NEWLINE in a
    ensures LineEnd(a + b) == LineEnd(a)
  {
    if a[0] != NEWLINE {
      assert (a + b)[1..] == a[1..] + b;
      LineEndStable(a[1..], b);
    }
  }

  lemma OneLine(line: seq<Byte>)
    requires line != [] && line[|line| - 1] == NEWLINE && NEWLINE !in line[..|line| - 1]
    ensures LineEnd(line) == |line|
  {
    if |line| > 1 {
      assert line[0] in line[..|line| - 1];
      assert line[1..][..|line| - 2] == line[..|line| - 1][1..];
      OneLine(line[1..]);
    }
  }

  lemma LineEndAtNewline(a: seq<Byte>)
    requires NEWLINE in a
    ensures a[LineEnd(a) - 1] == NEWLINE
  {
    if a[0] != NEWLINE {
      LineEndAtNewline(a[1..]);
    }
  }

  lemma SplitStep(bytes: seq<Byte>, n: nat)
    requires bytes != [] && LineEnd(bytes) == n
    ensures SplitLines(bytes) == [bytes[..n]] + SplitLines(bytes[n..])
  {
  }

  lemma SingleLine(line: seq<Byte>)
    requires line != [] && LineEnd(line) == |line|
    ensures SplitLines(line) == [line]
  {
    SplitStep(line, |line|);
    assert line[|line|..] == [] && line[..|line|] == line;
  }

  lemma {:induction false} SplitAppends(a: seq<Byte>, line: seq<Byte>)
    requires a == [] || a[|a| - 1] == NEWLINE
    requires line != [] && LineEnd(line) == |line|
    ensures SplitLines(a + line) == SplitLines(a) + [line]
    decreases |a|
  {
    hide LineEnd;
    if a == [] {
      SingleLine(line);
      assert a + line == line;
    } else {
      hide SplitLines;
      LineEndStable(a, line);
      var n := LineEnd(a);
      assert (a + line)[..n] == a[..n] && (a + line)[n..] == a[n..] + line;
      SplitStep(a, n);
      SplitStep(a + line, n);
      SplitAppends(a[n..], line);
    }
  }

  function EncodedLines(codec: Codec, records: seq<Record>): (r: seq<seq<Byte>>)
    ensures |r| == |records|
  {
    if records == [] then [] else EncodedLines(codec, records[..|records| - 1]) + [codec.encode(records[|records| - 1])]
  }

  /** Reading the file line by line gives back the records' own lines. */
  lemma {:induction false} SplitEncoded(codec: Codec, records: seq<Record>)
    requires codec.Lawful()
    ensures SplitLines(EncodeAll(codec, records)) == EncodedLines(codec, records)
    ensures records != [] ==> EncodeAll(codec, records) != [] && EncodeAll(codec, records)[|EncodeAll(codec, records)| - 1] == NEWLINE
  {
    if records != [] {
      var n := |records| - 1;
      SplitEncoded(codec, records[..n]);
      var line := codec.encode(records[n]);
      assert NEWLINE !in line[..|line| - 1];
      OneLine(line);
      SplitAppends(EncodeAll(codec, records[..n]), line);
    }
  }

  function SaidIn(traffic: seq<Observed>, parse: seq<Byte> -> Msg): (r: seq<Said>)
    ensures |r| == |traffic|
  {
    if traffic == [] then []
    else
      var n := |traffic| - 1;
      SaidIn(traffic[..n], parse) + [Said(traffic[n].direction, parse(traffic[n].payload))]
  }

  function HearAll(said: seq<Said>, thread: string): Result<Talk, Fault> {
    if said == [] then Ok(SILENCE)
    else
      var n := |said| - 1;
      var talk := HearAll(said[..n], thread);
      if talk.Err? then talk else Hear(talk.value, said[n], thread)
  }

  /** The row binds the open journal: identity, harness family, start, and every timestamp inside the run. */
  ghost predicate OpenBound(identity: Identity, started: Option<int>, traffic: seq<Observed>, row: ResultRow) {
    && identity == row.identity && row.identity.arm.Arm? && row.identity.arm.harness == Codex
    && started == row.started && InRun(started, row)
    && forall i | 0 <= i < |traffic| :: InRun(traffic[i].at, row)
  }

  function OpenScan(traffic: seq<Observed>, talk: Talk): Scan {
    Scan(|traffic| + 1, false, |traffic|, Count(traffic, Stdin), Count(traffic, Stdout), talk)
  }

  /** One written line, read back, moves the scan as its message moves the talk. */
  lemma LineExamined(codec: Codec, identity: Identity, traffic: seq<Observed>, o: Observed, talk: Talk, cfg: Config)
    requires codec.Lawful() && cfg.codec == codec && identity == cfg.row.identity
    requires ExactLine(o.payload) && |codec.encode(LineRecord(identity, |traffic| + 1, o))| <= MAX_JOURNAL_RECORD_BYTES
    requires |traffic| + 2 <= MAX_JOURNAL_RECORDS
    ensures var r := Examine(OpenScan(traffic, talk), codec.encode(LineRecord(identity, |traffic| + 1, o)), cfg);
            var heard := Hear(talk, Said(o.direction, cfg.parse(o.payload)), cfg.row.threadId);
            && (r.Ok? <==> InRun(o.at, cfg.row) && heard.Ok?)
            && (r.Ok? ==> r.value == OpenScan(traffic + [o], heard.value))
  {
    hide Hear, InRun, Encode, Decode;
    RoundTrip(o.payload);
    assert (traffic + [o])[..|traffic|] == traffic;
    var record := LineRecord(identity, |traffic| + 1, o);
    assert codec.decode(codec.encode(record)) == Some(record);
    assert PayloadOf(record.body) == Some(o.payload);
  }

  lemma HeaderExamined(codec: Codec, identity: Identity, started: Option<int>, cfg: Config)
    requires codec.Lawful() && cfg.codec == codec
    requires |codec.encode(HeaderRecord(identity, started))| <= MAX_JOURNAL_RECORD_BYTES
    ensures var r := Examine(BLANK_SCAN, codec.encode(HeaderRecord(identity, started)), cfg);
            && (r.Ok? <==> OpenBound(identity, started, [], cfg.row))
            && (r.Ok? ==> r.value == OpenScan([], SILENCE))
  {
    var record := HeaderRecord(identity, started);
    assert codec.decode(codec.encode(record)) == Some(record);
  }

  lemma BoundsOfPrefix(codec: Codec, records: seq<Record>)
    requires WithinBounds(codec, records) && records != []
    ensures WithinBounds(codec, records[..|records| - 1])
    ensures |codec.encode(records[|records| - 1])| <= MAX_JOURNAL_RECORD_BYTES
  {
  }

  /** Reading an open journal succeeds exactly when the row binds it and its messages are in order. */
  lemma {:induction false} OpenScanned(codec: Codec, identity: Identity, started: Option<int>, traffic: seq<Observed>, cfg: Config)
    requires codec.Lawful() && cfg.codec == codec && ExactTraffic(traffic)
    requires WithinBounds(codec, OpenRecords(identity, started, traffic))
    ensures var st := ScanLines(EncodedLines(codec, OpenRecords(identity, started, traffic)), cfg);
            var heard := HearAll(SaidIn(traffic, cfg.parse), cfg.row.threadId);
            && (st.Ok? <==> OpenBound(identity, started, traffic, cfg.row) && heard.Ok?)
            && (st.Ok? ==> st.value == OpenScan(traffic, heard.value))
    decreases |traffic|
  {
    if traffic == [] {
      HeaderScanned(codec, identity, started, cfg);
    } else {
      hide Examine, Hear, InRun, WithinBounds, OpenBound, HearAll, ScanLines, Count, SaidIn;
      var m := |traffic| - 1;
      var front, o := traffic[..m], traffic[m];
      assert traffic == front + [o];
      OpenRecordsGrow(codec, identity, started, front, o);
      assert ExactTraffic(front);
      OpenScanned(codec, identity, started, front, cfg);
      ScanOneMore(EncodedLines(codec, OpenRecords(identity, started, front)), codec.encode(LineRecord(identity, m + 1, o)), cfg);
      OpenGrows(codec, identity, started, front, o, cfg);
    }
  }

  lemma HeaderScanned(codec: Codec, identity: Identity, started: Option<int>, cfg: Config)
    requires codec.Lawful() && cfg.codec == codec
    requires WithinBounds(codec, OpenRecords(identity, started, []))
    ensures var st := ScanLines(EncodedLines(codec, OpenRecords(identity, started, [])), cfg);
            && (st.Ok? <==> OpenBound(identity, started, [], cfg.row))
            && (st.Ok? ==> st.value == OpenScan([], SILENCE))
  {
    hide Examine, InRun, Count;
    var header := HeaderRecord(identity, started);
    assert header in OpenRecords(identity, started, []);
    HeaderExamined(codec, identity, started, cfg);
    assert EncodedLines(codec, [header]) == [] + [codec.encode(header)];
    ScanOneMore([], codec.encode(header), cfg);
  }

  lemma OpenRecordsGrow(codec: Codec, identity: Identity, started: Option<int>, front: seq<Observed>, o: Observed)
    requires WithinBounds(codec, OpenRecords(identity, started, front + [o]))
    ensures var line := LineRecord(identity, |front| + 1, o);
            && OpenRecords(identity, started, front + [o]) == OpenRecords(identity, started, front) + [line]
            && EncodedLines(codec, OpenRecords(identity, started, front + [o]))
                 == EncodedLines(codec, OpenRecords(identity, started, front)) + [codec.encode(line)]
            && WithinBounds(codec, OpenRecords(identity, started, front))
            && |codec.encode(line)| <= MAX_JOURNAL_RECORD_BYTES && |front| + 2 <= MAX_JOURNAL_RECORDS
  {
    var line := LineRecord(identity, |front| + 1, o);
    assert (front + [o])[..|front|] == front;
    var records := OpenRecords(identity, started, front + [o]);
    assert records == OpenRecords(identity, started, front) + [line];
    assert records[..|records| - 1] == OpenRecords(identity, started, front) && records[|records| - 1] == line;
    BoundsOfPrefix(codec, records);
  }

  lemma OpenGrows(codec: Codec, identity: Identity, started: Option<int>, front: seq<Observed>, o: Observed, cfg: Config)
    requires codec.Lawful() && cfg.codec == codec && ExactTraffic(front + [o])
    requires |codec.encode(LineRecord(identity, |front| + 1, o))| <= MAX_JOURNAL_RECORD_BYTES && |front| + 2 <= MAX_JOURNAL_RECORDS
    requires var st := ScanLines(EncodedLines(codec, OpenRecords(identity, started, front)), cfg);
             var heard := HearAll(SaidIn(front, cfg.parse), cfg.row.threadId);
             && (st.Ok? <==> OpenBound(identity, started, front, cfg.row) && heard.Ok?)
             && (st.Ok? ==> st.value == OpenScan(front, heard.value))
    ensures var line := codec.encode(LineRecord(identity, |front| + 1, o));
            var st := ScanLines(EncodedLines(codec, OpenRecords(identity, started, front)), cfg);
            var next := if st.Err? then st else Examine(st.value, line, cfg);
            var heard := HearAll(SaidIn(front + [o], cfg.parse), cfg.row.threadId);
            && (next.Ok? <==> OpenBound(identity, started, front + [o], cfg.row) && heard.Ok?)
            && (next.Ok? ==> next.value == OpenScan(front + [o], heard.value))
  {
    hide Examine, Hear, InRun, LineRecord, EncodedLines, OpenRecords, ScanLines;
    var traffic := front + [o];
    assert traffic[..|front|] == front && traffic[|front|] == o;
    assert ExactLine(traffic[|front|].payload);
    var said := SaidIn(traffic, cfg.parse);
    assert said[..|front|] == SaidIn(front, cfg.parse);
    var st := ScanLines(EncodedLines(codec, OpenRecords(identity, started, front)), cfg);
    assert OpenBound(identity, started, traffic, cfg.row) <==>
           OpenBound(identity, started, front, cfg.row) && InRun(o.at, cfg.row) by {
      assert forall i | 0 <= i < |front| :: traffic[i] == front[i];
      if OpenBound(identity, started, traffic, cfg.row) {
        assert InRun(traffic[|front|].at, cfg.row);
      }
    }
    if st.Ok? {
      LineExamined(codec, identity, front, o, st.value.talk, cfg);
    }
  }
}
