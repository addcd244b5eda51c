/** What a Codex journal with one footer must contain for the raw log inspector to report nothing. */
module CodexConversation {
  import opened Common
  import opened Base64
  import opened ExperimentPlan
  import opened ProtocolJournal
  import opened RawLogInspector

  // ----- a journal with one footer, its last record -----

  /** The result row and the sealed journal name the same run, worker, times and transport. */
  ghost predicate SealBound(identity: Identity, started: Option<int>, traffic: seq<Observed>, ended: Option<int>,
                            closing: Closing, row: ResultRow) {
    && OpenBound(identity, started, traffic, row)
    && ended == row.ended && row.started.value <= row.ended.value
    && closing.threadId == row.threadId && closing.initialTurn == row.turnId && closing.turns == 1 + row.followups
    && closing.harness == row.harness && row.transport == CodexStdio
  }

  function SealedScan(traffic: seq<Observed>, talk: Talk): Scan {
    OpenScan(traffic, talk).(count := |traffic| + 2, footer := true)
  }

  lemma FooterExamined(codec: Codec, identity: Identity, started: Option<int>, traffic: seq<Observed>,
                       ended: Option<int>, closing: Closing, talk: Talk, cfg: Config)
    requires codec.Lawful() && cfg.codec == codec && OpenBound(identity, started, traffic, cfg.row)
    requires |traffic| > 0 && |traffic| + 2 <= MAX_JOURNAL_RECORDS
    requires closing == ClosingOf(traffic, closing.threadId, closing.initialTurn, closing.turns, closing.harness)
    requires |codec.encode(FooterRecord(identity, |traffic| + 1, ended, closing))| <= MAX_JOURNAL_RECORD_BYTES
    ensures var r := Examine(OpenScan(traffic, talk), codec.encode(FooterRecord(identity, |traffic| + 1, ended, closing)), cfg);
            && (r.Ok? <==> SealBound(identity, started, traffic, ended, closing, cfg.row))
            && (r.Ok? ==> r.value == SealedScan(traffic, talk))
  {
    hide Count, Hear;
    var record := FooterRecord(identity, |traffic| + 1, ended, closing);
    assert codec.decode(codec.encode(record)) == Some(record);
  }

  lemma SealedPrefix(codec: Codec, identity: Identity, started: Option<int>, traffic: seq<Observed>,
                     ended: Option<int>, closing: Closing)
    requires WithinBounds(codec, SealedRecords(identity, started, traffic, ended, closing))
    ensures var footer := FooterRecord(identity, |traffic| + 1, ended, closing);
            && WithinBounds(codec, OpenRecords(identity, started, traffic))
            && EncodedLines(codec, SealedRecords(identity, started, traffic, ended, closing))
                 == EncodedLines(codec, OpenRecords(identity, started, traffic)) + [codec.encode(footer)]
            && |codec.encode(footer)| <= MAX_JOURNAL_RECORD_BYTES && |traffic| + 2 <= MAX_JOURNAL_RECORDS
  {
    var footer := FooterRecord(identity, |traffic| + 1, ended, closing);
    var records := SealedRecords(identity, started, traffic, ended, closing);
    assert records == OpenRecords(identity, started, traffic) + [footer];
    assert records[..|records| - 1] == OpenRecords(identity, started, traffic) && records[|records| - 1] == footer;
    BoundsOfPrefix(codec, records);
  }

  lemma SealedScanned(codec: Codec, identity: Identity, started: Option<int>, traffic: seq<Observed>,
                      ended: Option<int>, closing: Closing, cfg: Config)
    requires codec.Lawful() && cfg.codec == codec && ExactTraffic(traffic) && |traffic| > 0
    requires WithinBounds(codec, SealedRecords(identity, started, traffic, ended, closing))
    requires closing == ClosingOf(traffic, closing.threadId, closing.initialTurn, closing.turns, closing.harness)
    ensures var st := ScanLines(EncodedLines(codec, SealedRecords(identity, started, traffic, ended, closing)), cfg);
            var heard := HearAll(SaidIn(traffic, cfg.parse), cfg.row.threadId);
            && (st.Ok? <==> SealBound(identity, started, traffic, ended, closing, cfg.row) && heard.Ok?)
            && (st.Ok? ==> st.value == SealedScan(traffic, heard.value))
  {
    hide Examine, HearAll, SaidIn, ScanLines, EncodedLines, OpenRecords, SealedRecords, ClosingOf, InRun, Count, FooterRecord;
    SealedPrefix(codec, identity, started, traffic, ended, closing);
    OpenScanned(codec, identity, started, traffic, cfg);
    ScanOneMore(EncodedLines(codec, OpenRecords(identity, started, traffic)),
                codec.encode(FooterRecord(identity, |traffic| + 1, ended, closing)), cfg);
    var heard := HearAll(SaidIn(traffic, cfg.parse), cfg.row.threadId);
    if OpenBound(identity, started, traffic, cfg.row) && heard.Ok? {
      FooterExamined(codec, identity, started, traffic, ended, closing, heard.value, cfg);
    }
  }

  /**
   * The inspector accepts traffic and its footer: it raises only when the row does not bind the journal
   * or the messages themselves break a rule, and otherwise returns the file's own digest.
   */
  lemma OneFooterInspected(codec: Codec, identity: Identity, started: Option<int>, traffic: seq<Observed>,
                        ended: Option<int>, closing: Closing, cfg: Config)
    requires codec.Lawful() && cfg.codec == codec && ExactTraffic(traffic) && |traffic| > 0
    requires WithinBounds(codec, SealedRecords(identity, started, traffic, ended, closing))
    requires closing == ClosingOf(traffic, closing.threadId, closing.initialTurn, closing.turns, closing.harness)
    ensures var file := EncodeAll(codec, SealedRecords(identity, started, traffic, ended, closing));
            var r := Inspect(file, cfg);
            var heard := HearAll(SaidIn(traffic, cfg.parse), cfg.row.threadId);
            && (r.Ok? <==> SealBound(identity, started, traffic, ended, closing, cfg.row) && heard.Ok?)
            && (r.Ok? ==> r.value == (file, Blockers(SealedScan(traffic, heard.value), cfg.row)))
  {
    hide HearAll, SaidIn, ScanLines, EncodedLines, SealedRecords, ClosingOf, Blockers, Count;
    SplitEncoded(codec, SealedRecords(identity, started, traffic, ended, closing));
    SealedScanned(codec, identity, started, traffic, ended, closing, cfg);
  }

  // ----- which messages break a rule -----

  predicate Asks(m: Msg) { m.Message? && m.verb.Some? && m.id.Some? }

  predicate Answers(m: Msg) { m.Message? && m.id.Some? && m.answer.Some? }

  /** A client request: the controller gives a method and an id. */
  predicate ClientAsks(s: Said) { s.direction == Stdin && Asks(s.msg) }

  /** A client reply to a server request: an id and a result or error, and no method. */
  predicate ClientReplies(s: Said) { s.direction == Stdin && Answers(s.msg) && s.msg.verb.None? }

  predicate ServerAnswers(s: Said) { s.direction == Stdout && Answers(s.msg) }

  predicate ServerAsks(s: Said) { s.direction == Stdout && Asks(s.msg) && !Answers(s.msg) }

  predicate ClientNotes(s: Said) { s.direction == Stdin && s.msg.Message? && s.msg.verb.Some? && s.msg.id.None? }

  predicate TurnSaid(s: Said, m: Method, thread: string) {
    s.direction == Stdout && s.msg.Message? && !Answers(s.msg) && s.msg.verb == Some(m)
    && s.msg.note.Some? && s.msg.note.value.thread == thread
  }

  /** The ids of the lines of one kind. */
  ghost function IdsOf(said: seq<Said>, kind: Said -> bool): set<string> {
    set i | 0 <= i < |said| && kind(said[i]) && said[i].msg.Message? && said[i].msg.id.Some? :: said[i].msg.id.value
  }

  ghost predicate NoRepeat(said: seq<Said>, kind: Said -> bool) {
    forall i, j | 0 <= i < j < |said| && kind(said[i]) && kind(said[j]) :: !SameId(said[i], said[j])
  }

  predicate SameId(s: Said, t: Said) {
    s.msg.Message? && t.msg.Message? && s.msg.id == t.msg.id
  }

  /** Every line the controller wrote is a request, a notification or a reply. */
  ghost predicate Legible(said: seq<Said>) {
    forall i | 0 <= i < |said| && said[i].direction == Stdin ::
      ClientAsks(said[i]) || ClientNotes(said[i]) || ClientReplies(said[i])
  }

  /** The controller wrote nothing unreadable, and no id repeats in its role. */
  ghost predicate Clean(said: seq<Said>) {
    && Legible(said)
    && NoRepeat(said, ClientAsks) && NoRepeat(said, ClientReplies)
    && NoRepeat(said, ServerAnswers) && NoRepeat(said, ServerAsks)
  }

  function RequestsIn(said: seq<Said>): seq<(string, Method)> {
    if said == [] then []
    else
      var n := |said| - 1;
      RequestsIn(said[..n]) + if ClientAsks(said[n]) then [(said[n].msg.id.value, said[n].msg.verb.value)] else []
  }

  ghost function NotesIn(said: seq<Said>): set<Method> {
    set i | 0 <= i < |said| && ClientNotes(said[i]) :: said[i].msg.verb.value
  }

  ghost function TurnsIn(said: seq<Said>, m: Method, thread: string): set<string> {
    set i | 0 <= i < |said| && TurnSaid(said[i], m, thread) :: said[i].msg.note.value.turn
  }

  ghost predicate AnswersAgree(answers: map<string, Answer>, said: seq<Said>) {
    forall i | 0 <= i < |said| && ServerAnswers(said[i]) ::
      said[i].msg.id.value in answers && answers[said[i].msg.id.value] == said[i].msg.answer.value
  }

  /** The talk holds exactly what was said. */
  ghost predicate Reflects(talk: Talk, said: seq<Said>, thread: string) {
    && talk.requests == RequestsIn(said) && Ids(talk.requests) == IdsOf(said, ClientAsks)
    && talk.answers.Keys == IdsOf(said, ServerAnswers) && AnswersAgree(talk.answers, said)
    && talk.serverRequests == IdsOf(said, ServerAsks)
    && talk.replies == IdsOf(said, ClientReplies)
    && talk.notes == NotesIn(said)
    && talk.started == TurnsIn(said, TurnStarted, thread)
    && talk.completed == TurnsIn(said, TurnCompleted, thread)
  }

  lemma IdsGrow(said: seq<Said>, s: Said, kind: Said -> bool)
    ensures IdsOf(said + [s], kind) ==
              IdsOf(said, kind) + if kind(s) && s.msg.Message? && s.msg.id.Some? then {s.msg.id.value} else {}
  {
    var all := said + [s];
    forall id | id in IdsOf(said, kind) ensures id in IdsOf(all, kind) {
      var i :| 0 <= i < |said| && kind(said[i]) && said[i].msg.Message? && said[i].msg.id == Some(id);
      assert all[i] == said[i];
    }
    assert all[|said|] == s;
    forall id | id in IdsOf(all, kind) && !(kind(s) && s.msg.Message? && s.msg.id == Some(id)) ensures id in IdsOf(said, kind) {
      var i :| 0 <= i < |all| && kind(all[i]) && all[i].msg.Message? && all[i].msg.id == Some(id);
      assert i < |said| && all[i] == said[i];
    }
  }

  lemma NoRepeatGrows(said: seq<Said>, s: Said, kind: Said -> bool)
    requires forall x :: kind(x) ==> x.msg.Message? && x.msg.id.Some?
    ensures NoRepeat(said + [s], kind) <==> NoRepeat(said, kind) && (kind(s) ==> s.msg.id.value !in IdsOf(said, kind))
  {
    var all := said + [s];
    assert all[|said|] == s;
    assert forall i | 0 <= i < |said| :: all[i] == said[i];
  }

  lemma NotesGrow(said: seq<Said>, s: Said)
    ensures NotesIn(said + [s]) == NotesIn(said) + if ClientNotes(s) then {s.msg.verb.value} else {}
  {
    var all := said + [s];
    assert all[|said|] == s;
    assert forall i | 0 <= i < |said| :: all[i] == said[i];
    forall m | m in NotesIn(said) ensures m in NotesIn(all) {
      var i :| 0 <= i < |said| && ClientNotes(said[i]) && said[i].msg.verb.value == m;
      assert ClientNotes(all[i]);
    }
  }

  lemma TurnsGrow(said: seq<Said>, s: Said, m: Method, thread: string)
    ensures TurnsIn(said + [s], m, thread) ==
              TurnsIn(said, m, thread) + if TurnSaid(s, m, thread) then {s.msg.note.value.turn} else {}
  {
    var all := said + [s];
    assert all[|said|] == s;
    assert forall i | 0 <= i < |said| :: all[i] == said[i];
    forall t | t in TurnsIn(said, m, thread) ensures t in TurnsIn(all, m, thread) {
      var i :| 0 <= i < |said| && TurnSaid(said[i], m, thread) && said[i].msg.note.value.turn == t;
      assert TurnSaid(all[i], m, thread);
    }
  }

  /** What one more line may be, given the ids already used. */
  ghost predicate Admissible(said: seq<Said>, s: Said) {
    && (s.direction == Stdin ==> ClientAsks(s) || ClientNotes(s) || ClientReplies(s))
    && (ClientAsks(s) ==> s.msg.id.value !in IdsOf(said, ClientAsks))
    && (ClientReplies(s) ==> s.msg.id.value !in IdsOf(said, ClientReplies))
    && (ServerAnswers(s) ==> s.msg.id.value !in IdsOf(said, ServerAnswers))
    && (ServerAsks(s) ==> s.msg.id.value !in IdsOf(said, ServerAsks))
  }

  lemma LegibleGrows(said: seq<Said>, s: Said)
    ensures Legible(said + [s]) <==>
              Legible(said) && (s.direction == Stdin ==> ClientAsks(s) || ClientNotes(s) || ClientReplies(s))
  {
    assert (said + [s])[|said|] == s;
    assert forall i | 0 <= i < |said| :: (said + [s])[i] == said[i];
  }

  lemma CleanGrows(said: seq<Said>, s: Said)
    ensures Clean(said + [s]) <==> Clean(said) && Admissible(said, s)
  {
    LegibleGrows(said, s);
    NoRepeatGrows(said, s, ClientAsks);
    NoRepeatGrows(said, s, ClientReplies);
    NoRepeatGrows(said, s, ServerAnswers);
    NoRepeatGrows(said, s, ServerAsks);
    hide NoRepeat, Legible, IdsOf;
  }

  lemma HearOkIff(talk: Talk, said: seq<Said>, s: Said, thread: string)
    requires Reflects(talk, said, thread)
    ensures Hear(talk, s, thread).Ok? <==> Admissible(said, s)
  {
    hide RequestsIn, NotesIn, TurnsIn, IdsOf, AnswersAgree, Ids;
  }

  lemma AnswersGrow(answers: map<string, Answer>, said: seq<Said>, s: Said)
    requires AnswersAgree(answers, said) && answers.Keys == IdsOf(said, ServerAnswers)
    requires ServerAnswers(s) ==> s.msg.id.value !in answers
    ensures var next := if ServerAnswers(s) then answers[s.msg.id.value := s.msg.answer.value] else answers;
            AnswersAgree(next, said + [s]) && next.Keys == IdsOf(said + [s], ServerAnswers)
  {
    IdsGrow(said, s, ServerAnswers);
    assert (said + [s])[|said|] == s;
    assert forall i | 0 <= i < |said| :: (said + [s])[i] == said[i];
  }

  lemma RequestsGrow(said: seq<Said>, s: Said)
    requires Ids(RequestsIn(said)) == IdsOf(said, ClientAsks)
    ensures RequestsIn(said + [s]) ==
              RequestsIn(said) + if ClientAsks(s) then [(s.msg.id.value, s.msg.verb.value)] else []
    ensures Ids(RequestsIn(said + [s])) == IdsOf(said + [s], ClientAsks)
  {
    assert (said + [s])[..|said|] == said;
    IdsGrow(said, s, ClientAsks);
    if ClientAsks(s) {
      var q := (s.msg.id.value, s.msg.verb.value);
      var requests := RequestsIn(said);
      assert forall x :: x in requests + [q] <==> x in requests || x == q;
    }
  }

  lemma ClientReflects(talk: Talk, said: seq<Said>, s: Said, thread: string)
    requires s.direction == Stdin && Reflects(talk, said, thread) && Hear(talk, s, thread).Ok?
    ensures var next := Hear(talk, s, thread).value;
            && next.requests == RequestsIn(said + [s]) && Ids(next.requests) == IdsOf(said + [s], ClientAsks)
            && next.replies == IdsOf(said + [s], ClientReplies)
            && next.notes == NotesIn(said + [s])
            && next == talk.(requests := next.requests, replies := next.replies, notes := next.notes)
  {
    hide RequestsIn, NotesIn, TurnsIn, IdsOf, AnswersAgree, Ids;
    RequestsGrow(said, s);
    IdsGrow(said, s, ClientReplies);
    NotesGrow(said, s);
  }

  lemma ServerReflects(talk: Talk, said: seq<Said>, s: Said, thread: string)
    requires s.direction == Stdout && Reflects(talk, said, thread) && Hear(talk, s, thread).Ok?
    ensures var next := Hear(talk, s, thread).value;
            && next.answers.Keys == IdsOf(said + [s], ServerAnswers) && AnswersAgree(next.answers, said + [s])
            && next.serverRequests == IdsOf(said + [s], ServerAsks)
            && next.started == TurnsIn(said + [s], TurnStarted, thread)
            && next.completed == TurnsIn(said + [s], TurnCompleted, thread)
            && next == talk.(answers := next.answers, serverRequests := next.serverRequests,
                             started := next.started, completed := next.completed)
  {
    hide RequestsIn, NotesIn, TurnsIn, IdsOf, AnswersAgree, Ids;
    AnswersGrow(talk.answers, said, s);
    IdsGrow(said, s, ServerAsks);
    TurnsGrow(said, s, TurnStarted, thread);
    TurnsGrow(said, s, TurnCompleted, thread);
  }

  /** A line of one direction adds nothing to the other side's part. */
  lemma OtherSide(answers: map<string, Answer>, said: seq<Said>, s: Said, thread: string)
    requires answers.Keys == IdsOf(said, ServerAnswers) && AnswersAgree(answers, said)
    requires Ids(RequestsIn(said)) == IdsOf(said, ClientAsks)
    ensures s.direction == Stdin ==>
              && IdsOf(said + [s], ServerAnswers) == IdsOf(said, ServerAnswers) && AnswersAgree(answers, said + [s])
              && IdsOf(said + [s], ServerAsks) == IdsOf(said, ServerAsks)
              && TurnsIn(said + [s], TurnStarted, thread) == TurnsIn(said, TurnStarted, thread)
              && TurnsIn(said + [s], TurnCompleted, thread) == TurnsIn(said, TurnCompleted, thread)
    ensures s.direction == Stdout ==>
              && RequestsIn(said + [s]) == RequestsIn(said) && IdsOf(said + [s], ClientAsks) == IdsOf(said, ClientAsks)
              && IdsOf(said + [s], ClientReplies) == IdsOf(said, ClientReplies)
              && NotesIn(said + [s]) == NotesIn(said)
  {
    hide RequestsIn, NotesIn, TurnsIn, IdsOf, AnswersAgree, Ids;
    if s.direction == Stdin {
      AnswersGrow(answers, said, s);
      IdsGrow(said, s, ServerAsks);
      TurnsGrow(said, s, TurnStarted, thread);
      TurnsGrow(said, s, TurnCompleted, thread);
    } else {
      RequestsGrow(said, s);
      IdsGrow(said, s, ClientReplies);
      NotesGrow(said, s);
    }
  }

  lemma HearReflects(talk: Talk, said: seq<Said>, s: Said, thread: string)
    requires Reflects(talk, said, thread) && Hear(talk, s, thread).Ok?
    ensures Reflects(Hear(talk, s, thread).value, said + [s], thread)
  {
    hide RequestsIn, NotesIn, TurnsIn, IdsOf, AnswersAgree, Ids, Hear;
    OtherSide(talk.answers, said, s, thread);
    if s.direction == Stdin {
      ClientReflects(talk, said, s, thread);
    } else {
      ServerReflects(talk, said, s, thread);
    }
  }

  /** The reading loop gets through exactly the clean conversations, and its maps are what was said. */
  lemma {:induction false} HearAllIff(said: seq<Said>, thread: string)
    ensures HearAll(said, thread).Ok? <==> Clean(said)
    ensures HearAll(said, thread).Ok? ==> Reflects(HearAll(said, thread).value, said, thread)
  {
    if said == [] {
      assert IdsOf([], ClientAsks) == IdsOf([], ServerAnswers) == IdsOf([], ServerAsks) == IdsOf([], ClientReplies) == {};
      assert NotesIn([]) == {} && TurnsIn([], TurnStarted, thread) == {} && TurnsIn([], TurnCompleted, thread) == {};
    } else {
      hide Hear, Clean, Reflects, Admissible;
      var n := |said| - 1;
      assert said == said[..n] + [said[n]];
      HearAllIff(said[..n], thread);
      CleanGrows(said[..n], said[n]);
      var talk := HearAll(said[..n], thread);
      if talk.Ok? {
        HearOkIff(talk.value, said[..n], said[n], thread);
        if Hear(talk.value, said[n], thread).Ok? {
          HearReflects(talk.value, said[..n], said[n], thread);
        }
      }
    }
  }

  // ----- which conversations leave no blocker -----

  /** Every request of one method was answered with its string id. */
  ghost predicate AllCarry(requests: seq<(string, Method)>, answers: map<string, Answer>, m: Method) {
    forall i | 0 <= i < |requests| && requests[i].1 == m ::
      requests[i].0 in answers && ReceiptOf(answers[requests[i].0], m).Some?
  }

  function ReceiptOf(a: Answer, m: Method): Option<string> {
    if m == ThreadStart then a.thread else a.turn
  }

  /** The ids those answers carried. */
  ghost function Carried(requests: seq<(string, Method)>, answers: map<string, Answer>, m: Method): set<string> {
    set i | 0 <= i < |requests| && requests[i].1 == m && requests[i].0 in answers
            && ReceiptOf(answers[requests[i].0], m).Some? :: ReceiptOf(answers[requests[i].0], m).value
  }

  lemma {:induction false} ReceiptsLength(requests: seq<(string, Method)>, answers: map<string, Answer>, m: Method)
    ensures |Receipts(requests, answers, m)| <= CountMethod(requests, m)
    ensures |Receipts(requests, answers, m)| == CountMethod(requests, m) <==> AllCarry(requests, answers, m)
  {
    if requests != [] {
      var n := |requests| - 1;
      ReceiptsLength(requests[..n], answers, m);
      assert forall i | 0 <= i < n :: requests[i] == requests[..n][i];
    }
  }

  lemma {:induction false} ReceiptsSet(requests: seq<(string, Method)>, answers: map<string, Answer>, m: Method)
    ensures (set x | x in Receipts(requests, answers, m)) == Carried(requests, answers, m)
  {
    if requests != [] {
      var n := |requests| - 1;
      var front, q := requests[..n], requests[n];
      ReceiptsSet(front, answers, m);
      assert requests == front + [q];
      CarriedGrows(front, q, answers, m);
      hide Carried;
      var r, all := Receipts(front, answers, m), Receipts(requests, answers, m);
      assert forall x :: x in all <==> x in r || (|all| > |r| && x == all[|r|]);
    }
  }

  lemma CarriedGrows(front: seq<(string, Method)>, q: (string, Method), answers: map<string, Answer>, m: Method)
    ensures Carried(front + [q], answers, m) == Carried(front, answers, m)
              + if q.1 == m && q.0 in answers && ReceiptOf(answers[q.0], m).Some?
                then {ReceiptOf(answers[q.0], m).value} else {}
  {
    var all := front + [q];
    assert all[|front|] == q;
    assert forall i | 0 <= i < |front| :: all[i] == front[i];
    forall x | x in Carried(front, answers, m) ensures x in Carried(all, answers, m) {
      var i :| 0 <= i < |front| && front[i].1 == m && front[i].0 in answers
               && ReceiptOf(answers[front[i].0], m) == Some(x);
      assert all[i].1 == m;
    }
  }

  /**
   * One matched conversation: each side's requests are exactly what the other answered; it initializes
   * once, opens the row's thread once, and its turns are the ones the row expects, started and completed.
   */
  ghost predicate Matched(talk: Talk, row: ResultRow) {
    && (forall id :: id in Ids(talk.requests) <==> id in talk.answers)
    && (forall id :: id in talk.serverRequests <==> id in talk.replies)
    && CountMethod(talk.requests, Initialize) == 1 && Initialized in talk.notes
    && CountMethod(talk.requests, ThreadStart) == 1
    && (forall i | 0 <= i < |talk.requests| && talk.requests[i].1 == ThreadStart ::
          talk.requests[i].0 in talk.answers && talk.answers[talk.requests[i].0].thread == Some(row.threadId))
    && CountMethod(talk.requests, TurnStart) == 1 + row.followups
    && AllCarry(talk.requests, talk.answers, TurnStart)
    && var turns := Carried(talk.requests, talk.answers, TurnStart);
       row.turnId in turns && turns == talk.started == talk.completed
  }

  lemma OneThread(talk: Talk, row: ResultRow)
    requires CountMethod(talk.requests, ThreadStart) == 1
    ensures Receipts(talk.requests, talk.answers, ThreadStart) == [row.threadId] <==>
              forall i | 0 <= i < |talk.requests| && talk.requests[i].1 == ThreadStart ::
                talk.requests[i].0 in talk.answers && talk.answers[talk.requests[i].0].thread == Some(row.threadId)
  {
    var r := Receipts(talk.requests, talk.answers, ThreadStart);
    ReceiptsLength(talk.requests, talk.answers, ThreadStart);
    ReceiptsSet(talk.requests, talk.answers, ThreadStart);
    var carried := Carried(talk.requests, talk.answers, ThreadStart);
    if r == [row.threadId] {
      assert carried == {row.threadId};
      forall i | 0 <= i < |talk.requests| && talk.requests[i].1 == ThreadStart
        ensures talk.requests[i].0 in talk.answers && talk.answers[talk.requests[i].0].thread == Some(row.threadId)
      {
        assert talk.answers[talk.requests[i].0].thread.value in carried;
      }
    }
    if forall i | 0 <= i < |talk.requests| && talk.requests[i].1 == ThreadStart ::
         talk.requests[i].0 in talk.answers && talk.answers[talk.requests[i].0].thread == Some(row.threadId) {
      assert AllCarry(talk.requests, talk.answers, ThreadStart);
      assert |r| == 1;
      assert r[0] in (set x | x in r);
      assert r[0] in carried;
      var i :| 0 <= i < |talk.requests| && talk.requests[i].1 == ThreadStart && talk.requests[i].0 in talk.answers
               && ReceiptOf(talk.answers[talk.requests[i].0], ThreadStart) == Some(r[0]);
      assert r == [r[0]];
    }
  }

  /** With traffic both ways, the blocker list is empty exactly for a matched conversation. */
  lemma NoBlockersIff(st: Scan, row: ResultRow)
    requires st.stdin > 0 && st.stdout > 0
    ensures Blockers(st, row) == [] <==> Matched(st.talk, row)
  {
    var t := st.talk;
    ReceiptsLength(t.requests, t.answers, TurnStart);
    ReceiptsSet(t.requests, t.answers, TurnStart);
    if CountMethod(t.requests, ThreadStart) == 1 {
      OneThread(t, row);
    }
    var turns := Receipts(t.requests, t.answers, TurnStart);
    assert row.turnId in turns <==> row.turnId in (set x | x in turns);
    hide CountMethod, Receipts, Carried, AllCarry;
    SetsAgree(Ids(t.requests), t.answers.Keys);
    SetsAgree(t.serverRequests, t.replies);
  }

  lemma SetsAgree(a: set<string>, b: set<string>)
    ensures a == b <==> forall x :: x in a <==> x in b
  {
  }

  /**
   * Traffic and its footer pass with no blocker exactly when the row binds them, the conversation is
   * clean, and it is matched.
   */
  lemma OneFooterPassesIff(codec: Codec, identity: Identity, started: Option<int>, traffic: seq<Observed>,
                        ended: Option<int>, closing: Closing, cfg: Config)
    requires codec.Lawful() && cfg.codec == codec && ExactTraffic(traffic) && Sealable(closing)
    requires WithinBounds(codec, SealedRecords(identity, started, traffic, ended, closing))
    requires closing == ClosingOf(traffic, closing.threadId, closing.initialTurn, closing.turns, closing.harness)
    ensures var file := EncodeAll(codec, SealedRecords(identity, started, traffic, ended, closing));
            var said := SaidIn(traffic, cfg.parse);
            Inspect(file, cfg) == Ok((file, [])) <==>
              && SealBound(identity, started, traffic, ended, closing, cfg.row)
              && Clean(said)
              && HearAll(said, cfg.row.threadId).Ok? && Matched(HearAll(said, cfg.row.threadId).value, cfg.row)
  {
    hide Inspect, Matched, Clean, SaidIn, HearAll, SealBound, EncodeAll, SealedRecords, Blockers, Sealable;
    assert |traffic| > 0 by { SealableHasTraffic(traffic, closing); }
    OneFooterInspected(codec, identity, started, traffic, ended, closing, cfg);
    var heard := HearAll(SaidIn(traffic, cfg.parse), cfg.row.threadId);
    HearAllIff(SaidIn(traffic, cfg.parse), cfg.row.threadId);
    if heard.Ok? {
      assert Count(traffic, Stdin) > 0 && Count(traffic, Stdout) > 0 by { SealableHasTraffic(traffic, closing); }
      NoBlockersIff(SealedScan(traffic, heard.value), cfg.row);
    }
  }

  lemma SealableHasTraffic(traffic: seq<Observed>, closing: Closing)
    requires Sealable(closing)
    requires closing == ClosingOf(traffic, closing.threadId, closing.initialTurn, closing.turns, closing.harness)
    ensures |traffic| > 0 && Count(traffic, Stdin) > 0 && Count(traffic, Stdout) > 0
  {
  }
}
