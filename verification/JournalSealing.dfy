/**
 * Every run of the Codex journal against the raw log inspector: a file that finish seals is accepted
 * exactly when no earlier finish left its footer behind.
 */
module JournalSealing {
  import opened Common
  import opened Base64
  import opened ExperimentPlan
  import opened ProtocolJournal
  import opened RawLogInspector
  import opened CodexConversation

  /** The constructor wrote its header. */
  predicate Opens(s: Setup) {
    |s.codec.encode(HeaderRecord(s.identity, s.started))| <= MAX_JOURNAL_RECORD_BYTES
  }

  predicate NoFooter(log: seq<JournalEntry>) {
    forall i | 0 <= i < |log| :: log[i].Heard?
  }

  /** No finish among the calls wrote its footer and then raised from the sync, a stat, the seek, a read or the close. */
  ghost predicate NeverRaised(s: Setup, calls: seq<Call>) {
    forall i | 0 <= i < |calls| :: !RaisesAfterFooter(s, Run(s, calls[..i]), calls[i])
  }

  // ----- what every run keeps -----

  lemma {:induction false} FooterlessRecords(identity: Identity, started: Option<int>, log: seq<JournalEntry>)
    requires NoFooter(log)
    ensures |TrafficOf(log)| == |log| && RecordsOf(identity, started, log) == OpenRecords(identity, started, TrafficOf(log))
  {
    if log != [] {
      var n := |log| - 1;
      FooterlessRecords(identity, started, log[..n]);
      var traffic := TrafficOf(log);
      assert traffic == TrafficOf(log[..n]) + [log[n].line];
      assert traffic[..n] == TrafficOf(log[..n]);
    }
  }

  lemma BoundsGrow(codec: Codec, records: seq<Record>, r: Record)
    requires WithinBounds(codec, records) && |records| < MAX_JOURNAL_RECORDS
    requires |codec.encode(r)| <= MAX_JOURNAL_RECORD_BYTES
    requires |EncodeAll(codec, records)| + |codec.encode(r)| <= MAX_JOURNAL_BYTES
    ensures WithinBounds(codec, records + [r])
  {
    assert (records + [r])[..|records|] == records;
  }

  /** What a written entry adds, and that the file keeps its bounds. */
  lemma EntryLands(s: Setup, log: seq<JournalEntry>, e: JournalEntry)
    requires WithinBounds(s.codec, RecordsOf(s.identity, s.started, log)) && Room(s, log, e)
    requires ExactTraffic(TrafficOf(log)) && (e.Heard? ==> ExactLine(e.line.payload))
    ensures WithinBounds(s.codec, RecordsOf(s.identity, s.started, log + [e]))
    ensures ExactTraffic(TrafficOf(log + [e]))
  {
    hide WithinBounds, RecordsOf, TrafficOf, EncodeAll, EntryRecord, ExactLine;
    RecordsGrow(s.identity, s.started, log, e);
    BoundsGrow(s.codec, RecordsOf(s.identity, s.started, log), EntryRecord(s.identity, |log| + 1, e));
    TrafficGrows(log, e);
  }

  /** What one call appends. */
  lemma StepAppends(s: Setup, j: Journal, call: Call)
    ensures var next := Step(s, j, call);
            next.log == if call.ObserveCall? && ExactLine(call.line.payload) && Lands(s, j, Heard(call.line), call.writes)
                        then j.log + [Heard(call.line)]
                        else if LandsFooter(s, j, call) then j.log + [FooterFor(j, call)]
                        else j.log
  {
    hide ExactLine, Room, Suffices, Sealable, ClosingOf, FileOf;
  }

  /** Whatever is called, the file keeps its bounds and holds exact lines only. */
  lemma {:induction false} RunBounded(s: Setup, calls: seq<Call>)
    requires Opens(s)
    ensures WithinBounds(s.codec, RecordsOf(s.identity, s.started, Run(s, calls).log))
    ensures ExactTraffic(TrafficOf(Run(s, calls).log))
    decreases |calls|
  {
    if calls == [] {
      var header := HeaderRecord(s.identity, s.started);
      assert EncodeAll(s.codec, [header]) == [] + s.codec.encode(header);
    } else {
      hide WithinBounds, RecordsOf, TrafficOf, EncodeAll, ExactLine, ExactTraffic, Room, Suffices, Step, Sealable;
      var n := |calls| - 1;
      var j := Run(s, calls[..n]);
      RunBounded(s, calls[..n]);
      StepAppends(s, j, calls[n]);
      if calls[n].ObserveCall? && ExactLine(calls[n].line.payload) && Lands(s, j, Heard(calls[n].line), calls[n].writes) {
        EntryLands(s, j.log, Heard(calls[n].line));
      } else if LandsFooter(s, j, calls[n]) {
        EntryLands(s, j.log, FooterFor(j, calls[n]));
      }
    }
  }

  /** While the journal is open and unfailed, the only footers in it are those of a finish that raised. */
  lemma {:induction false} OpenFooterlessIff(s: Setup, calls: seq<Call>)
    requires !Run(s, calls).failed && !Run(s, calls).closed
    ensures NoFooter(Run(s, calls).log) <==> NeverRaised(s, calls)
    decreases |calls|
  {
    if calls != [] {
      hide ExactLine, Room, Suffices, Sealable, FileOf, ClosingOf, TrafficOf, NeverRaised, NoFooter;
      var n := |calls| - 1;
      var j, next := Run(s, calls[..n]), Run(s, calls);
      OpenFooterlessIff(s, calls[..n]);
      NeverRaisedGrows(s, calls);
      StepAppends(s, j, calls[n]);
      if next.log != j.log {
        NoFooterGrows(j.log, next.log[|j.log|]);
      }
    }
  }

  lemma NoFooterGrows(log: seq<JournalEntry>, e: JournalEntry)
    ensures NoFooter(log + [e]) <==> NoFooter(log) && e.Heard?
  {
    assert (log + [e])[|log|] == e;
    assert forall i | 0 <= i < |log| :: (log + [e])[i] == log[i];
  }

  lemma NeverRaisedGrows(s: Setup, calls: seq<Call>)
    requires calls != []
    ensures var n := |calls| - 1;
            NeverRaised(s, calls) <==> NeverRaised(s, calls[..n]) && !RaisesAfterFooter(s, Run(s, calls[..n]), calls[n])
  {
    hide RaisesAfterFooter, Run;
    var n := |calls| - 1;
    assert forall i | 0 <= i < n :: calls[..n][i] == calls[i] && calls[..n][..i] == calls[..i];
  }

  // ----- a footer that is not the last record -----

  /** Reading a footer either raises or is remembered. */
  lemma FooterRead(st: Scan, raw: seq<Byte>, cfg: Config)
    requires cfg.codec.decode(raw).Some? && cfg.codec.decode(raw).value.body.Footer?
    ensures Examine(st, raw, cfg).Ok? ==> Examine(st, raw, cfg).value.footer && Examine(st, raw, cfg).value.count > 0
  {
    hide Hear, PayloadOf, InRun;
  }

  /** Nothing is read after a footer. */
  lemma NothingAfterFooter(st: Scan, raw: seq<Byte>, cfg: Config)
    requires st.footer && st.count > 0
    ensures Examine(st, raw, cfg).Err?
  {
    hide Hear, PayloadOf, InRun;
  }

  lemma {:induction false} LinesAt(codec: Codec, records: seq<Record>, k: nat)
    requires k < |records|
    ensures EncodedLines(codec, records)[k] == codec.encode(records[k])
    decreases |records|
  {
    if k < |records| - 1 {
      LinesAt(codec, records[..|records| - 1], k);
    }
  }

  lemma {:induction false} RecordAt(identity: Identity, started: Option<int>, log: seq<JournalEntry>, k: nat)
    requires k < |log|
    ensures RecordsOf(identity, started, log)[k + 1] == EntryRecord(identity, k + 1, log[k])
    decreases |log|
  {
    if k < |log| - 1 {
      RecordAt(identity, started, log[..|log| - 1], k);
    }
  }

  lemma {:induction false} EarlyFooterRefused(lines: seq<seq<Byte>>, k: nat, cfg: Config)
    requires k + 1 < |lines|
    requires cfg.codec.decode(lines[k]).Some? && cfg.codec.decode(lines[k]).value.body.Footer?
    ensures ScanLines(lines, cfg).Err?
  {
    hide Examine, ScanLines;
    ScanOneMore(lines[..k], lines[k], cfg);
    assert lines[..k] + [lines[k]] == lines[..k + 1];
    var before := ScanLines(lines[..k], cfg);
    if before.Ok? {
      FooterRead(before.value, lines[k], cfg);
    }
    var st := ScanLines(lines[..k + 1], cfg);
    ScanOneMore(lines[..k + 1], lines[k + 1], cfg);
    assert lines[..k + 1] + [lines[k + 1]] == lines[..k + 2];
    if st.Ok? {
      NothingAfterFooter(st.value, lines[k + 1], cfg);
    }
    PrefixFails(lines, k + 2, cfg);
  }

  /** A file in which anything follows a footer is refused for every result row. */
  lemma BuriedFooterRefused(s: Setup, log: seq<JournalEntry>, k: nat, cfg: Config)
    requires s.codec.Lawful() && cfg.codec == s.codec
    requires k + 1 < |log| && log[k].Footed?
    ensures Inspect(FileOf(s, log), cfg).Err?
  {
    hide RecordsOf, EncodeAll, EncodedLines, ScanLines, SplitLines;
    var records := RecordsOf(s.identity, s.started, log);
    SplitEncoded(s.codec, records);
    LinesAt(s.codec, records, k + 1);
    RecordAt(s.identity, s.started, log, k);
    assert s.codec.decode(s.codec.encode(records[k + 1])) == Some(records[k + 1]);
    EarlyFooterRefused(EncodedLines(s.codec, records), k + 1, cfg);
  }

  // ----- what finish seals -----

  /** A log whose last entry is its only footer is the traffic and that footer. */
  lemma LastFooter(s: Setup, log: seq<JournalEntry>, ended: Option<int>, closing: Closing)
    requires NoFooter(log)
    ensures FileOf(s, log + [Footed(ended, closing)])
              == EncodeAll(s.codec, SealedRecords(s.identity, s.started, TrafficOf(log), ended, closing))
    ensures RecordsOf(s.identity, s.started, log + [Footed(ended, closing)])
              == SealedRecords(s.identity, s.started, TrafficOf(log), ended, closing)
  {
    hide RecordsOf, OpenRecords, TrafficOf, EncodeAll;
    FooterlessRecords(s.identity, s.started, log);
    RecordsGrow(s.identity, s.started, log, Footed(ended, closing));
  }

  /**
   * The inspector accepts what finish sealed exactly when no earlier finish raised after its footer
   * landed, the row binds the journal, and the messages break no rule; it then returns the file's own
   * digest. The journal checks none of this when it seals.
   */
  lemma SealedInspected(s: Setup, calls: seq<Call>, last: Call, cfg: Config)
    requires s.codec.Lawful() && cfg.codec == s.codec && Opens(s)
    requires Seals(s, Run(s, calls), last)
    ensures var j := Run(s, calls);
            var (file, closing) := (last.after.readBack, ClosingFor(j, last));
            var r := Inspect(file, cfg);
            var heard := HearAll(SaidIn(TrafficOf(j.log), cfg.parse), cfg.row.threadId);
            && (r.Ok? <==> NeverRaised(s, calls)
                           && SealBound(s.identity, s.started, TrafficOf(j.log), last.ended, closing, cfg.row) && heard.Ok?)
            && (r.Ok? ==> r.value == (file, Blockers(SealedScan(TrafficOf(j.log), heard.value), cfg.row)))
  {
    hide Inspect, HearAll, SaidIn, SealBound, Blockers, RecordsOf, TrafficOf, EncodeAll, SealedRecords, ClosingOf, Count,
         WithinBounds, ExactTraffic, NeverRaised, Sealable, Room, Suffices, Run, Step;
    var j := Run(s, calls);
    var closing := ClosingFor(j, last);
    var log := j.log + [FooterFor(j, last)];
    OpenFooterlessIff(s, calls);
    if NoFooter(j.log) {
      SealedWithin(s, calls, last);
      LastFooter(s, j.log, last.ended, closing);
      SealedClosing(s, j, last);
      OneFooterInspected(s.codec, s.identity, s.started, TrafficOf(j.log), last.ended, closing, cfg);
    } else {
      var k :| 0 <= k < |j.log| && j.log[k].Footed?;
      assert log[k] == j.log[k];
      BuriedFooterRefused(s, log, k, cfg);
    }
  }

  lemma SealedWithin(s: Setup, calls: seq<Call>, last: Call)
    requires Opens(s) && Seals(s, Run(s, calls), last)
    ensures var j := Run(s, calls);
            && WithinBounds(s.codec, RecordsOf(s.identity, s.started, j.log + [FooterFor(j, last)]))
            && ExactTraffic(TrafficOf(j.log))
  {
    hide RecordsOf, TrafficOf, EncodeAll, ClosingOf, Count, WithinBounds, ExactTraffic, Sealable, Room, Suffices, Run;
    RunBounded(s, calls);
    EntryLands(s, Run(s, calls).log, FooterFor(Run(s, calls), last));
  }

  lemma SealedClosing(s: Setup, j: Journal, last: Call)
    requires LandsFooter(s, j, last)
    ensures var (closing, traffic) := (ClosingFor(j, last), TrafficOf(j.log));
            && Sealable(closing) && |traffic| > 0
            && closing == ClosingOf(traffic, closing.threadId, closing.initialTurn, closing.turns, closing.harness)
  {
    hide TrafficOf, Lands, LowerHex64;
  }

  /**
   * The round trip over every run: what finish sealed passes with no blocker exactly when no earlier
   * finish raised after its footer, the row binds it, the conversation is clean, and it is matched.
   */
  lemma SealedPassesIff(s: Setup, calls: seq<Call>, last: Call, cfg: Config)
    requires s.codec.Lawful() && cfg.codec == s.codec && Opens(s)
    requires Seals(s, Run(s, calls), last)
    ensures var j := Run(s, calls);
            var file := last.after.readBack;
            var said := SaidIn(TrafficOf(j.log), cfg.parse);
            Inspect(file, cfg) == Ok((file, [])) <==>
              && NeverRaised(s, calls)
              && SealBound(s.identity, s.started, TrafficOf(j.log), last.ended, ClosingFor(j, last), cfg.row)
              && Clean(said)
              && HearAll(said, cfg.row.threadId).Ok? && Matched(HearAll(said, cfg.row.threadId).value, cfg.row)
  {
    hide Inspect, Matched, Clean, SaidIn, HearAll, SealBound, EncodeAll, SealedRecords, RecordsOf, Blockers, Sealable,
         TrafficOf, WithinBounds, ExactTraffic, NeverRaised, Room, Suffices, Run, Step, ClosingOf, Count;
    var j := Run(s, calls);
    SealedInspected(s, calls, last, cfg);
    OpenFooterlessIff(s, calls);
    if NoFooter(j.log) {
      SealedWithin(s, calls, last);
      LastFooter(s, j.log, last.ended, ClosingFor(j, last));
      SealedClosing(s, j, last);
      OneFooterPassesIff(s.codec, s.identity, s.started, TrafficOf(j.log), last.ended, ClosingFor(j, last), cfg);
    }
  }

  // ----- a finish that is called again -----

  function FinishOf(ended: Option<int>, threadId: string, initialTurn: string, turns: nat, harness: string, after: AfterFooter): Call {
    FinishCall(ended, threadId, initialTurn, turns, harness, [MAX_JOURNAL_RECORD_BYTES], after)
  }

  /**
   * One line each way, a finish whose sync raises, and a second finish: with room for its records the
   * journal seals, and no result row makes the inspector accept the file.
   */
  lemma RetriedFinishSealsRefused(s: Setup, sent: Observed, received: Observed, ended: Option<int>, threadId: string,
                                  initialTurn: string, turns: nat, harness: string)
    requires s.codec.Lawful()
    requires sent.direction == Stdin && received.direction == Stdout && ExactLine(sent.payload) && ExactLine(received.payload)
    requires Sealable(Closing(2, 1, 1, threadId, initialTurn, turns, harness, CodexStdio))
    requires var footed := Footed(ended, Closing(2, 1, 1, threadId, initialTurn, turns, harness, CodexStdio));
             WithinBounds(s.codec, RecordsOf(s.identity, s.started, [Heard(sent), Heard(received), footed, footed]))
    ensures var footed := Footed(ended, Closing(2, 1, 1, threadId, initialTurn, turns, harness, CodexStdio));
            var file := FileOf(s, [Heard(sent), Heard(received), footed, footed]);
            var calls := [ObserveCall(sent, [MAX_JOURNAL_RECORD_BYTES]), ObserveCall(received, [MAX_JOURNAL_RECORD_BYTES]),
                          FinishOf(ended, threadId, initialTurn, turns, harness, Raised(None))];
            var again := FinishOf(ended, threadId, initialTurn, turns, harness, Compared(true, file, true));
            && Seals(s, Run(s, calls), again)
            && forall cfg: Config | cfg.codec == s.codec :: Inspect(file, cfg).Err?
  {
    hide RecordsOf, WithinBounds, EncodeAll, EntryRecord, ExactLine, Sealable, Suffices, Count, TrafficOf, Inspect, Room, Lands, Run;
    var closing := Closing(2, 1, 1, threadId, initialTurn, turns, harness, CodexStdio);
    var (first, second, footed) := (Heard(sent), Heard(received), Footed(ended, closing));
    var one, two := ObserveCall(sent, [MAX_JOURNAL_RECORD_BYTES]), ObserveCall(received, [MAX_JOURNAL_RECORD_BYTES]);
    var raised := FinishOf(ended, threadId, initialTurn, turns, harness, Raised(None));
    var full := [first, second, footed, footed];
    assert full == [first, second, footed] + [footed] && [first, second, footed] == [first, second] + [footed];
    assert [first, second] == [first] + [second] && [first] == [] + [first];
    WholeWrite(s, [first, second, footed], footed);
    WholeWrite(s, [first, second], footed);
    WholeWrite(s, [first], second);
    WholeWrite(s, [], first);
    TwoLines(sent, received, footed);
    var j1, j2, j3 := OPENED.(log := [first]), OPENED.(log := [first, second]), OPENED.(log := [first, second, footed]);
    assert Step(s, OPENED, one) == j1;
    assert Step(s, j1, two) == j2;
    assert ClosingFor(j2, raised) == closing == ClosingFor(j3, raised);
    assert Step(s, j2, raised) == j3;
    RunThree(s, one, two, raised);
    forall cfg: Config | cfg.codec == s.codec ensures Inspect(FileOf(s, full), cfg).Err? {
      BuriedFooterRefused(s, full, 2, cfg);
    }
  }

  lemma RunThree(s: Setup, one: Call, two: Call, three: Call)
    ensures Run(s, [one, two, three]) == Step(s, Step(s, Step(s, OPENED, one), two), three)
  {
    hide Step;
    var calls := [one, two, three];
    assert [one][..0] == [] && Run(s, [one]) == Step(s, OPENED, one);
    assert [one, two][..1] == [one] && Run(s, [one, two]) == Step(s, Run(s, [one]), two);
    assert calls[..2] == [one, two];
  }

  lemma TwoLines(sent: Observed, received: Observed, footed: JournalEntry)
    requires sent.direction == Stdin && received.direction == Stdout && footed.Footed?
    ensures forall log | log == [Heard(sent), Heard(received)] || log == [Heard(sent), Heard(received), footed] ::
              |TrafficOf(log)| == 2 && Count(TrafficOf(log), Stdin) == 1 && Count(TrafficOf(log), Stdout) == 1
  {
    TrafficGrows([], Heard(sent));
    TrafficGrows([Heard(sent)], Heard(received));
    TrafficGrows([Heard(sent), Heard(received)], footed);
    var two := [Heard(sent), Heard(received)];
    assert [Heard(sent)] + [Heard(received)] == two && two + [footed] == [Heard(sent), Heard(received), footed];
    assert [] + [Heard(sent)] == [Heard(sent)];
    assert TrafficOf(two) == [sent, received] == TrafficOf(two + [footed]);
    assert [sent] + [received] == [sent, received] && [] + [sent] == [sent];
    CountGrows([], sent, Stdin);
    CountGrows([], sent, Stdout);
    CountGrows([sent], received, Stdin);
    CountGrows([sent], received, Stdout);
  }

  /** With room for its record, one entry is written by a single write. */
  lemma WholeWrite(s: Setup, log: seq<JournalEntry>, e: JournalEntry)
    requires WithinBounds(s.codec, RecordsOf(s.identity, s.started, log + [e]))
    ensures WithinBounds(s.codec, RecordsOf(s.identity, s.started, log))
    ensures forall j: Journal | j.log == log && !j.closed && !j.failed :: Lands(s, j, e, [MAX_JOURNAL_RECORD_BYTES])
  {
    hide EntryRecord, RecordsOf;
    RecordsGrow(s.identity, s.started, log, e);
    var records, r := RecordsOf(s.identity, s.started, log + [e]), EntryRecord(s.identity, |log| + 1, e);
    assert records[..|log| + 1] == RecordsOf(s.identity, s.started, log) && records[|log| + 1] == r;
    BoundsOfPrefix(s.codec, records);
    assert |EncodeAll(s.codec, records)| == |FileOf(s, log)| + |s.codec.encode(r)|;
    OneWriteSuffices(|s.codec.encode(r)|, MAX_JOURNAL_RECORD_BYTES);
  }

  lemma OneWriteSuffices(n: nat, w: nat)
    requires n <= w && w > 0
    ensures Suffices(n, [w])
  {
    assert Suffices(0, [w][1..]);
  }
}
