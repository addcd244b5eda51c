/** Exactly the files the raw log inspector accepts, whoever wrote them (benchmarks/four_arm.py). */
module InspectorGrammar {
  import opened Common
  import opened Base64
  import opened ExperimentPlan
  import opened ProtocolJournal
  import opened RawLogInspector

  function RecordOf(line: seq<Byte>, cfg: Config): Option<Record> {
    cfg.codec.decode(line)
  }

  /** One readable record of the run, at its place in the file. */
  ghost predicate Enveloped(line: seq<Byte>, i: nat, cfg: Config) {
    var r := RecordOf(line, cfg);
    && |line| <= 2_097_152 && (exists b :: b in line && b !in {9, 10, 11, 12, 13, 32})
    && r.Some? && r.value.sequence == i && r.value.schema == 2 && r.value.identity == cfg.row.identity
    && r.value.timestamp.Some? && cfg.row.started.Some? && cfg.row.ended.Some?
    && cfg.row.started.value <= r.value.timestamp.value && r.value.timestamp.value <= cfg.row.ended.value
  }

  /** The controller's header of a Codex run that began with it. */
  ghost predicate HeaderLine(line: seq<Byte>, cfg: Config) {
    exists at :: RecordOf(line, cfg) == Some(Record(2, cfg.row.identity, 0, at, Header(true, CodexStdio, false)))
                 && at == cfg.row.started && cfg.row.identity.arm.Arm? && cfg.row.identity.arm.harness.Codex?
  }

  ghost predicate IsFooter(line: seq<Byte>, cfg: Config) {
    RecordOf(line, cfg).Some? && RecordOf(line, cfg).value.body.Footer?
  }

  /** One exact line of traffic: its payload by base64, size and digest, ended by a newline. */
  ghost predicate TrafficLine(line: seq<Byte>, direction: Direction, payload: seq<Byte>, cfg: Config) {
    exists text ::
      && RecordOf(line, cfg).Some?
      && RecordOf(line, cfg).value.body == Line(true, Some(direction), text, |payload|, PayloadSha(payload))
      && Decode(text) == Some(payload) && 1 <= |payload| <= 1_048_576 && payload[|payload| - 1] == 10
  }

  ghost predicate HasTraffic(line: seq<Byte>, cfg: Config) {
    exists direction, payload :: TrafficLine(line, direction, payload, cfg)
  }

  ghost function TrafficIn(line: seq<Byte>, cfg: Config): Observed
    requires HasTraffic(line, cfg)
  {
    var direction, payload :| TrafficLine(line, direction, payload, cfg);
    Observed(direction, payload, RecordOf(line, cfg).value.timestamp)
  }

  /** The traffic between the header and the end of the list, or its footer. */
  ghost function Traffic(lines: seq<seq<Byte>>, cfg: Config): seq<Observed> {
    if |lines| <= 1 then []
    else
      var n := |lines| - 1;
      Traffic(lines[..n], cfg) + if HasTraffic(lines[n], cfg) then [TrafficIn(lines[n], cfg)] else []
  }

  /** The footer that ends a run and counts the traffic before it. */
  ghost predicate FooterLine(line: seq<Byte>, before: seq<Observed>, cfg: Config) {
    var row := cfg.row;
    && RecordOf(line, cfg).Some? && before != [] && RecordOf(line, cfg).value.timestamp == row.ended
    && RecordOf(line, cfg).value.body ==
       Footer(true, true, Closing(|before|, Count(before, Stdin), Count(before, Stdout), row.threadId, row.turnId,
                                  1 + row.followups, row.harness, row.transport))
  }

  /** The lines before this one are all in order, and so is this one after them. */
  ghost predicate WellFormed(lines: seq<seq<Byte>>, cfg: Config) {
    && |lines| <= 10_000 && (forall i | 0 <= i < |lines| :: Enveloped(lines[i], i, cfg))
    && (lines != [] ==> HeaderLine(lines[0], cfg))
    && (forall i | 1 <= i < |lines| - 1 :: HasTraffic(lines[i], cfg))
    && (|lines| > 1 ==>
          var n := |lines| - 1; HasTraffic(lines[n], cfg) || FooterLine(lines[n], Traffic(lines[..n], cfg), cfg))
  }

  ghost function Heard(lines: seq<seq<Byte>>, cfg: Config): Result<Talk, Fault> {
    HearAll(SaidIn(Traffic(lines, cfg), cfg.parse), cfg.row.threadId)
  }

  ghost predicate Ends(lines: seq<seq<Byte>>, cfg: Config) {
    |lines| > 1 && IsFooter(lines[|lines| - 1], cfg)
  }

  ghost function StateAfter(lines: seq<seq<Byte>>, talk: Talk, cfg: Config): Scan {
    var traffic := Traffic(lines, cfg);
    Scan(|lines|, Ends(lines, cfg), |traffic|, Count(traffic, Stdin), Count(traffic, Stdout), talk)
  }

  lemma BlankIff(line: seq<Byte>)
    ensures Blank(line) <==> !exists b :: b in line && b !in {9, 10, 11, 12, 13, 32}
  {
    if !Blank(line) {
      var i :| 0 <= i < |line| && !Space(line[i]);
      assert line[i] in line;
    }
  }

  /** What makes a body a line of traffic is what PayloadOf checks. */
  lemma TrafficIff(line: seq<Byte>, cfg: Config)
    requires RecordOf(line, cfg).Some?
    ensures HasTraffic(line, cfg) <==> PayloadOf(RecordOf(line, cfg).value.body).Some?
    ensures HasTraffic(line, cfg) ==>
              var body := RecordOf(line, cfg).value.body;
              TrafficIn(line, cfg) == Observed(body.direction.value, PayloadOf(body).value, RecordOf(line, cfg).value.timestamp)
  {
    hide Decode;
    var body := RecordOf(line, cfg).value.body;
    if PayloadOf(body).Some? {
      assert TrafficLine(line, body.direction.value, PayloadOf(body).value, cfg);
    }
  }

  lemma TrafficStep(lines: seq<seq<Byte>>, line: seq<Byte>, cfg: Config)
    ensures Traffic(lines + [line], cfg) ==
              Traffic(lines, cfg) + if lines != [] && HasTraffic(line, cfg) then [TrafficIn(line, cfg)] else []
  {
    hide HasTraffic;
    assert (lines + [line])[..|lines|] == lines;
  }

  ghost predicate Continues(front: seq<seq<Byte>>, line: seq<Byte>, cfg: Config) {
    if front == [] then HeaderLine(line, cfg)
    else !Ends(front, cfg) && (HasTraffic(line, cfg) || FooterLine(line, Traffic(front, cfg), cfg))
  }

  lemma NoFooterTraffic(line: seq<Byte>, cfg: Config)
    ensures !(HasTraffic(line, cfg) && IsFooter(line, cfg))
    ensures forall before :: FooterLine(line, before, cfg) ==> IsFooter(line, cfg)
  {
  }

  lemma WellFormedStep(front: seq<seq<Byte>>, line: seq<Byte>, cfg: Config)
    ensures WellFormed(front + [line], cfg) <==>
              WellFormed(front, cfg) && |front| < 10_000 && Enveloped(line, |front|, cfg) && Continues(front, line, cfg)
  {
    hide Enveloped, HeaderLine, HasTraffic, FooterLine, IsFooter, Traffic;
    var lines, n := front + [line], |front|;
    assert lines[..n] == front && lines[n] == line && forall i | 0 <= i < n :: lines[i] == front[i];
    if n > 0 {
      NoFooterTraffic(front[n - 1], cfg);
      assert n > 1 ==> lines[n - 1] == front[n - 1];
    }
    assert WellFormed(lines, cfg) ==> n > 1 ==> HasTraffic(lines[n - 1], cfg);
  }

  lemma HeardStep(front: seq<seq<Byte>>, line: seq<Byte>, cfg: Config)
    ensures Heard(front + [line], cfg) ==
              if front == [] || !HasTraffic(line, cfg) then Heard(front, cfg)
              else if Heard(front, cfg).Err? then Heard(front, cfg)
              else Hear(Heard(front, cfg).value, Said(TrafficIn(line, cfg).direction, cfg.parse(TrafficIn(line, cfg).payload)),
                        cfg.row.threadId)
  {
    hide HasTraffic, TrafficIn, Hear, Traffic;
    TrafficStep(front, line, cfg);
    if front != [] && HasTraffic(line, cfg) {
      var (traffic, o) := (Traffic(front, cfg), TrafficIn(line, cfg));
      assert (traffic + [o])[..|traffic|] == traffic;
      assert SaidIn(traffic + [o], cfg.parse)[..|traffic|] == SaidIn(traffic, cfg.parse);
    } else {
      assert Traffic(front, cfg) + [] == Traffic(front, cfg);
    }
  }

  lemma HeaderIff(line: seq<Byte>, cfg: Config)
    requires Enveloped(line, 0, cfg)
    ensures HeaderOk(RecordOf(line, cfg).value, cfg.row) <==> HeaderLine(line, cfg)
  {
    var r := RecordOf(line, cfg).value;
    if HeaderOk(r, cfg.row) {
      assert r == Record(2, cfg.row.identity, 0, r.timestamp, Header(true, CodexStdio, false));
    }
  }

  /** The envelope checks, which come first for every record. */
  lemma EnvelopeIff(st: Scan, line: seq<Byte>, cfg: Config)
    ensures Examine(st, line, cfg).Ok? ==> st.count < 10_000 && Enveloped(line, st.count, cfg)
  {
    hide Hear, PayloadOf, Blank;
    BlankIff(line);
  }

  lemma FirstExamined(line: seq<Byte>, cfg: Config)
    ensures var r := Examine(BLANK_SCAN, line, cfg);
            && (r.Ok? <==> Enveloped(line, 0, cfg) && HeaderLine(line, cfg))
            && (r.Ok? ==> r.value == StateAfter([line], SILENCE, cfg))
  {
    hide Hear, PayloadOf, Blank, HeaderOk, HeaderLine;
    BlankIff(line);
    if Enveloped(line, 0, cfg) { HeaderIff(line, cfg); }
  }

  /** One record after the header, given what was read before it. */
  lemma LaterExamined(front: seq<seq<Byte>>, line: seq<Byte>, talk: Talk, cfg: Config)
    requires front != []
    ensures var (st, n) := (StateAfter(front, talk, cfg), |front|);
            var r := Examine(st, line, cfg);
            var said := if HasTraffic(line, cfg) then Hear(talk, Said(TrafficIn(line, cfg).direction, cfg.parse(TrafficIn(line, cfg).payload)), cfg.row.threadId)
                        else Ok(talk);
            && (r.Ok? <==> n < 10_000 && Enveloped(line, n, cfg) && Continues(front, line, cfg) && said.Ok?)
            && (r.Ok? ==> r.value == StateAfter(front + [line], said.value, cfg))
  {
    hide Hear, PayloadOf, Blank, HasTraffic, TrafficIn, Traffic, HeaderOk;
    BlankIff(line);
    EnvelopeIff(StateAfter(front, talk, cfg), line, cfg);
    TrafficStep(front, line, cfg);
    NoFooterTraffic(line, cfg);
    if Enveloped(line, |front|, cfg) {
      TrafficIff(line, cfg);
      FooterIff(line, Traffic(front, cfg), cfg);
      PayloadOfFooter(line, cfg);
      if HasTraffic(line, cfg) { CountsGrow(Traffic(front, cfg), TrafficIn(line, cfg)); }
    }
    assert (front + [line])[|front|] == line;
    assert Traffic(front, cfg) + [] == Traffic(front, cfg);
    hide Count, Decode;
  }

  lemma CountsGrow(traffic: seq<Observed>, o: Observed)
    ensures Count(traffic + [o], Stdin) == Count(traffic, Stdin) + if o.direction == Stdin then 1 else 0
    ensures Count(traffic + [o], Stdout) == Count(traffic, Stdout) + if o.direction == Stdout then 1 else 0
  {
    CountGrows(traffic, o, Stdin);
    CountGrows(traffic, o, Stdout);
  }

  lemma PayloadOfFooter(line: seq<Byte>, cfg: Config)
    requires RecordOf(line, cfg).Some?
    ensures IsFooter(line, cfg) ==> PayloadOf(RecordOf(line, cfg).value.body).None?
  {
  }

  lemma FooterIff(line: seq<Byte>, before: seq<Observed>, cfg: Config)
    requires RecordOf(line, cfg).Some?
    ensures forall st: Scan | st.lines == |before| && st.stdin == Count(before, Stdin) && st.stdout == Count(before, Stdout) ::
              FooterOk(RecordOf(line, cfg).value, st, cfg.row) <==> FooterLine(line, before, cfg)
  {
    hide Count;
  }

  /**
   * The reading loop, over any lines at all: it gets through exactly when they are a header, lines of traffic and at the
   * end at most a footer, each in its envelope, and the messages break no rule; and it then holds what they are.
   */
  lemma {:induction false} ScanIff(lines: seq<seq<Byte>>, cfg: Config)
    ensures var st := ScanLines(lines, cfg);
            && (st.Ok? <==> WellFormed(lines, cfg) && Heard(lines, cfg).Ok?)
            && (st.Ok? ==> st.value == StateAfter(lines, Heard(lines, cfg).value, cfg))
  {
    if lines == [] {
      assert Traffic([], cfg) == [];
    } else {
      hide Examine, WellFormed, Heard, StateAfter, Continues, Hear, HasTraffic, TrafficIn, Enveloped, HeaderLine;
      var n := |lines| - 1;
      var front, line := lines[..n], lines[n];
      assert lines == front + [line];
      ScanIff(front, cfg);
      WellFormedStep(front, line, cfg);
      HeardStep(front, line, cfg);
      ScanOneMore(front, line, cfg);
      if front == [] {
        FirstExamined(line, cfg);
        FirstLine(line, cfg);
      } else if ScanLines(front, cfg).Ok? {
        LaterExamined(front, line, Heard(front, cfg).value, cfg);
      }
    }
  }

  lemma FirstLine(line: seq<Byte>, cfg: Config)
    ensures WellFormed([], cfg) && Heard([], cfg) == Ok(SILENCE)
    ensures Continues([], line, cfg) <==> HeaderLine(line, cfg)
    ensures [] + [line] == [line] && ScanLines([], cfg) == Ok(BLANK_SCAN)
  {
    assert Traffic([], cfg) == [];
  }

  /**
   * Exactly the files that are accepted, and with which blockers: at most 64 MiB, a header, exact traffic both ways or
   * not, and a footer that counts it, all in envelopes of the row's run, and messages that break no rule.
   */
  lemma InspectIff(bytes: seq<Byte>, cfg: Config)
    ensures var (lines, r) := (SplitLines(bytes), Inspect(bytes, cfg));
            && (r.Ok? <==>
                  && cfg.row.started.Some? && cfg.row.ended.Some? && cfg.row.started.value <= cfg.row.ended.value
                  && |bytes| <= 67_108_864 && WellFormed(lines, cfg) && Ends(lines, cfg) && Heard(lines, cfg).Ok?)
            && (r.Ok? ==> r.value == (bytes, Blockers(StateAfter(lines, Heard(lines, cfg).value, cfg), cfg.row)))
  {
    hide WellFormed, Heard, Blockers, SplitLines, ScanLines, Traffic, Ends;
    ScanIff(SplitLines(bytes), cfg);
  }

  // ----- which fault is raised -----

  /** Exactly the messages that raise, and as what. */
  lemma HearFault(talk: Talk, said: Said, thread: string)
    ensures var (r, m) := (Hear(talk, said, thread), said.msg);
            var (ours, theirs) := (said.direction.Stdin? && m.Message?, said.direction.Stdout? && m.Message?);
            && (r.Err? ==> r.error in {BadControllerJson, UnrecognizedLine, DuplicateRequest, DuplicateReply, DuplicateAnswer, DuplicateServerRequest})
            && (r == Err(BadControllerJson) <==> said.direction.Stdin? && !m.Message?)
            && (r == Err(UnrecognizedLine) <==> ours && m.verb.None? && (m.id.None? || m.answer.None?))
            && (r == Err(DuplicateRequest) <==> ours && m.verb.Some? && m.id.Some? && exists q :: q in talk.requests && q.0 == m.id.value)
            && (r == Err(DuplicateReply) <==> ours && m.verb.None? && m.id.Some? && m.answer.Some? && m.id.value in talk.replies)
            && (r == Err(DuplicateAnswer) <==> theirs && m.id.Some? && m.answer.Some? && m.id.value in talk.answers)
            && (r == Err(DuplicateServerRequest) <==>
                  theirs && m.answer.None? && m.verb.Some? && m.id.Some? && m.id.value in talk.serverRequests)
  {
  }

  /** A record that raises does so at the first check that fails, in the order of the reading loop. */
  lemma ExamineFault(st: Scan, line: seq<Byte>, cfg: Config)
    ensures var (r, event) := (Examine(st, line, cfg), RecordOf(line, cfg));
            var bounded := st.count < 10_000 && |line| <= 2_097_152 && exists b :: b in line && b !in {9, 10, 11, 12, 13, 32};
            var read := bounded && event.Some?;
            var placed := read && event.value.sequence == st.count;
            var enveloped := st.count < 10_000 && Enveloped(line, st.count, cfg);
            var later := enveloped && st.count > 0 && !st.footer;
            && (r == Err(OutOfBounds) <==> !bounded)
            && (r == Err(InvalidJson) <==> bounded && event.None?)
            && (r == Err(BadSequence) <==> read && !placed)
            && (r == Err(BadSchema) <==> placed && event.value.schema != 2)
            && (r == Err(BadIdentity) <==> placed && event.value.schema == 2 && event.value.identity != cfg.row.identity)
            && (r == Err(BadTimestamp) <==>
                  placed && event.value.schema == 2 && event.value.identity == cfg.row.identity && !enveloped)
            && (r == Err(BadHeader) <==> enveloped && st.count == 0 && !HeaderLine(line, cfg))
            && (r == Err(DataAfterFooter) <==> enveloped && st.count > 0 && st.footer)
            && (r == Err(BadFooter) <==> later && IsFooter(line, cfg) && !FooterOk(event.value, st, cfg.row))
            && (r == Err(BadLine) <==> later && !IsFooter(line, cfg) && !HasTraffic(line, cfg))
  {
    hide PayloadOf, Blank, HeaderOk, FooterOk, HeaderLine, HasTraffic, Hear;
    BlankIff(line);
    if RecordOf(line, cfg).Some? {
      if Enveloped(line, 0, cfg) { HeaderIff(line, cfg); }
      TrafficIff(line, cfg);
      var body := RecordOf(line, cfg).value.body;
      if PayloadOf(body).Some? && body.Line? && body.direction.Some? {
        HearFault(st.talk, Said(body.direction.value, cfg.parse(PayloadOf(body).value)), cfg.row.threadId);
      }
    }
  }

  /** Each blocker is reported exactly for its own fault, and none twice. */
  lemma BlockersIff(st: Scan, row: ResultRow)
    ensures var (b, t) := (Blockers(st, row), st.talk);
            var turns := Receipts(t.requests, t.answers, TurnStart);
            && (forall i, j | 0 <= i < j < |b| :: b[i] != b[j])
            && (UnmatchedClient in b <==> !forall id :: id in Ids(t.requests) <==> id in t.answers)
            && (UnmatchedServer in b <==> !forall id :: id in t.serverRequests <==> id in t.replies)
            && (IncompleteSequence in b <==>
                  !(&& CountMethod(t.requests, Initialize) == 1 && Initialized in t.notes && CountMethod(t.requests, ThreadStart) == 1
                    && CountMethod(t.requests, TurnStart) == row.followups + 1 && st.stdin > 0 && st.stdout > 0))
            && (ThreadNotBound in b <==>
                  !(|Receipts(t.requests, t.answers, ThreadStart)| == 1 && Receipts(t.requests, t.answers, ThreadStart)[0] == row.threadId))
            && (TurnsNotBound in b <==>
                  !(&& |turns| == row.followups + 1 && row.turnId in turns
                    && (forall x :: x in turns <==> x in t.started) && (forall x :: x in turns <==> x in t.completed)))
  {
    hide CountMethod, Receipts, Ids;
    var t := st.talk;
    var turns := Receipts(t.requests, t.answers, TurnStart);
    SameSets(Ids(t.requests), t.answers.Keys);
    SameSets(t.serverRequests, t.replies);
    SameSets((set x | x in turns), t.started);
    SameSets((set x | x in turns), t.completed);
  }

  lemma SameSets(a: set<string>, b: set<string>)
    ensures a == b <==> forall x :: x in a <==> x in b
  {
  }
}
