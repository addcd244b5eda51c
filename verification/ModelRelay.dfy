/**
 * The controller's bounded relay of worker model calls (benchmarks/model_relay.py). A dispatch runs
 * without interruption from its arrival to the backend's first suspension, and again from its resumption
 * to its reply; between those segments any number of other dispatches may run.
 */
module ModelRelay {
  import opened Common
  import Base64

  const MAX_REQUEST_BYTES: nat := 262_144
  const MAX_RESPONSE_BYTES: nat := 1_048_576
  const MAX_OUTPUT_TOKENS: int := 16_384

  datatype Role = System | User | Assistant | Tool | OtherRole

  datatype ChatMessage = ChatMessage(role: Role, knownFields: bool)

  /** messages and maxTokens are None when absent or of another type. */
  datatype Body = Body(knownFields: bool, model: string, streaming: bool,
                       messages: Option<seq<ChatMessage>>, maxTokens: Option<int>)

  /** A request frame: its size, and what it parses to, if it parses to an envelope with the exact keys. */
  datatype Frame = Frame(size: nat, envelope: Option<Envelope>)
  datatype Envelope = Envelope(schemaMatches: bool, requestId: string, body: Option<Body>)

  datatype Status = Reserved | Completed | CancelledUncertain | FailedUncertain

  /** A row of the provider's own audit list. */
  datatype ProviderRow = ProviderRow(pinned: bool, correlation: Option<nat>, requestId: Option<string>, detail: string)

  datatype Receipt = Receipt(requestId: string, frame: Frame, status: Status, provider: Option<ProviderRow>)

  datatype RelayError = DuplicateRequest | CallBudgetExhausted | DeadlineExpired | BackendFailedUncertain

  datatype Reply =
    | InvalidRequest
    | Refused(requestId: string, error: RelayError)
    | Success(requestId: string, content: string)
    | Cancelled

  /** How the awaited backend call ended: content is None when the result is no object. */
  datatype Outcome = Returned(content: Option<string>, encodedBytes: nat) | Raised | TimedOut | WasCancelled

  predicate IdCharacter(c: char) {
    'a' <= c <= 'z' || 'A' <= c <= 'Z' || '0' <= c <= '9' || c == '_' || c == '-'
  }

  predicate ValidId(id: string) {
    1 <= |id| <= 64 && forall i | 0 <= i < |id| :: IdCharacter(id[i])
  }

  predicate ValidBody(body: Body, model: string) {
    && body.knownFields && body.model == model && !body.streaming
    && body.messages.Some? && 1 <= |body.messages.value| <= 256
    && (forall i | 0 <= i < |body.messages.value| ::
          body.messages.value[i].role != OtherRole && body.messages.value[i].knownFields)
    && body.maxTokens.Some? && 1 <= body.maxTokens.value <= MAX_OUTPUT_TOKENS
  }

  /** _validate: the request id of an acceptable frame. */
  function Validate(frame: Frame, model: string): Option<string> {
    if 0 < frame.size <= MAX_REQUEST_BYTES && frame.envelope.Some?
       && frame.envelope.value.schemaMatches && ValidId(frame.envelope.value.requestId)
       && frame.envelope.value.body.Some? && ValidBody(frame.envelope.value.body.value, model)
    then Some(frame.envelope.value.requestId) else None
  }

  /** A reserved dispatch is awaiting its backend, or has replied. */
  datatype Phase = Awaiting | Replied(reply: Reply)

  /** Dispatches are numbered by their receipts; starts lists those whose backend call was started. */
  datatype Relay = Relay(ids: set<string>, audit: seq<Receipt>, phases: seq<Phase>, starts: seq<nat>)

  const IDLE := Relay({}, [], [], [])

  /** The rows the finally clause finds: this dispatch's correlation and this request id, under the pinned schema. */
  function Matches(rows: seq<ProviderRow>, d: nat, id: string): seq<ProviderRow> {
    if rows == [] then []
    else
      var n := |rows| - 1;
      Matches(rows[..n], d, id)
      + if rows[n].pinned && rows[n].correlation == Some(d) && rows[n].requestId == Some(id) then [rows[n]] else []
  }

  function Attached(receipt: Receipt, d: nat, rows: seq<ProviderRow>): Receipt {
    var matches := Matches(rows, d, receipt.requestId);
    if |matches| == 1 then receipt.(provider := Some(matches[0])) else receipt
  }

  /** What the awaited call's end makes of the receipt and the reply. */
  function Judged(id: string, outcome: Outcome, late: bool): (Status, Reply) {
    match outcome {
      case WasCancelled => (CancelledUncertain, Cancelled)
      case Returned(content, bytes) =>
        if !late && content.Some? && bytes <= MAX_RESPONSE_BYTES then (Completed, Success(id, content.value))
        else (FailedUncertain, Refused(id, BackendFailedUncertain))
      case _ => (FailedUncertain, Refused(id, BackendFailedUncertain))
    }
  }

  datatype Limits = Limits(model: string, maxCalls: nat, deadline: real)

  datatype Event =
    | Arrive(frame: Frame, now: real, started: real, rows: seq<ProviderRow>)
    | Resume(d: nat, outcome: Outcome, now: real, rows: seq<ProviderRow>)

  function Refusal(ids: set<string>, id: string, now: real, limits: Limits): Option<RelayError> {
    if id in ids then Some(DuplicateRequest)
    else if |ids| >= limits.maxCalls then Some(CallBudgetExhausted)
    else if now >= limits.deadline then Some(DeadlineExpired)
    else None
  }

  function Reserve(s: Relay, frame: Frame, id: string): Relay {
    s.(ids := s.ids + {id}, audit := s.audit + [Receipt(id, frame, Reserved, None)], phases := s.phases + [Awaiting])
  }

  function Settled(s: Relay, d: nat, outcome: Outcome, late: bool, rows: seq<ProviderRow>): Relay
    requires d < |s.audit| && d < |s.phases|
  {
    var (status, reply) := Judged(s.audit[d].requestId, outcome, late);
    s.(audit := s.audit[d := Attached(s.audit[d].(status := status), d, rows)], phases := s.phases[d := Replied(reply)])
  }

  /** A dispatch whose deadline passes between the two clock readings: reserved, and settled as timed out at once. */
  function Expired(s: Relay, frame: Frame, id: string, rows: seq<ProviderRow>): Relay {
    var (status, reply) := Judged(id, TimedOut, true);
    var receipt := Attached(Receipt(id, frame, status, None), |s.audit|, rows);
    s.(ids := s.ids + {id}, audit := s.audit + [receipt], phases := s.phases + [Replied(reply)])
  }

  lemma ExpiredSettles(s: Relay, frame: Frame, id: string, rows: seq<ProviderRow>)
    requires |s.phases| == |s.audit|
    ensures Expired(s, frame, id, rows) == Settled(Reserve(s, frame, id), |s.audit|, TimedOut, true, rows)
  {
    hide Attached, Judged;
  }

  /** One uninterrupted segment of some dispatch. */
  function Step(s: Relay, e: Event, limits: Limits): Relay {
    match e {
      case Arrive(frame, now, started, rows) =>
        var id := Validate(frame, limits.model);
        if id.None? || Refusal(s.ids, id.value, now, limits).Some? then s
        else
          if started >= limits.deadline then Expired(s, frame, id.value, rows)
          else Reserve(s, frame, id.value).(starts := s.starts + [|s.audit|])
      case Resume(d, outcome, now, rows) =>
        if d < |s.audit| && d < |s.phases| && s.phases[d].Awaiting?
        then Settled(s, d, outcome, now >= limits.deadline, rows) else s
    }
  }

  class PinnedModelRelay {
    const limits: Limits
    var ids: set<string>
    var audit: seq<Receipt>
    ghost var phases: seq<Phase>
    ghost var starts: seq<nat>

    ghost function View(): Relay
      reads this
    {
      Relay(ids, audit, phases, starts)
    }

    ghost predicate Valid()
      reads this
    {
      Inv(View(), limits)
    }

    constructor (limits: Limits)
      requires 1 <= limits.maxCalls <= 1000
      ensures this.limits == limits && View() == IDLE && Valid()
    {
      this.limits := limits;
      ids, audit, phases, starts := {}, [], [], [];
      new;
      assert View() == IDLE;
    }

    /** The segment of dispatch from the frame to the backend's first suspension; None means suspended. */
    method Begin(frame: Frame, now: real, started: real, rows: seq<ProviderRow>)
        returns (reply: Option<Reply>, d: nat)
      requires Valid()
      modifies this
      ensures Valid() && View() == Step(old(View()), Arrive(frame, now, started, rows), limits)
      ensures reply.None? ==> d == old(|audit|) && starts == old(starts) + [d]
      ensures reply.Some? ==> starts == old(starts) && !reply.value.Success?
      ensures reply == Some(InvalidRequest) <==> Validate(frame, limits.model).None?
      ensures Validate(frame, limits.model).Some? ==>
                var id := frame.envelope.value.requestId;
                && (reply == Some(Refused(id, DuplicateRequest)) <==> id in old(ids))
                && (reply == Some(Refused(id, CallBudgetExhausted)) <==> id !in old(ids) && old(|ids|) >= limits.maxCalls)
                && (reply == Some(Refused(id, DeadlineExpired)) <==>
                      id !in old(ids) && old(|ids|) < limits.maxCalls && now >= limits.deadline)
                && (reply == Some(Refused(id, BackendFailedUncertain)) <==>
                      id !in old(ids) && old(|ids|) < limits.maxCalls && now < limits.deadline && started >= limits.deadline)
                && (reply.None? <==>
                      id !in old(ids) && old(|ids|) < limits.maxCalls && now < limits.deadline && started < limits.deadline)
    {
      StepKeeps(View(), Arrive(frame, now, started, rows), limits);
      d := |audit|;
      ghost var before := View();
      var id := Validate(frame, limits.model);
      if id.None? { return Some(InvalidRequest), d; }
      var error := Refusal(ids, id.value, now, limits);
      if error.Some? { return Some(Refused(id.value, error.value)), d; }
      ids := ids + {id.value};
      audit := audit + [Receipt(id.value, frame, Reserved, None)];
      phases := phases + [Awaiting];
      if started >= limits.deadline {
        ExpiredSettles(before, frame, id.value, rows);
        reply := SettleReceipt(d, TimedOut, true, rows);
        return;
      }
      starts := starts + [d];
      return None, d;
    }

    /** The segment from the backend's return, exception, timeout or cancellation to the reply. */
    method Finish(d: nat, outcome: Outcome, now: real, rows: seq<ProviderRow>) returns (reply: Reply)
      requires Valid() && d < |audit| && phases[d].Awaiting?
      modifies this
      ensures Valid() && View() == Step(old(View()), Resume(d, outcome, now, rows), limits)
      ensures phases[d] == Replied(reply)
      ensures reply.Success? <==> audit[d].status == Completed
    {
      StepKeeps(View(), Resume(d, outcome, now, rows), limits);
      var r := SettleReceipt(d, outcome, now >= limits.deadline, rows);
      reply := r.value;
    }

    method SettleReceipt(d: nat, outcome: Outcome, late: bool, rows: seq<ProviderRow>) returns (reply: Option<Reply>)
      requires d < |audit| && |phases| == |audit|
      modifies this`audit, this`phases
      ensures View() == Settled(old(View()), d, outcome, late, rows)
      ensures reply.Some? && phases[d] == Replied(reply.value) && (reply.value.Success? <==> audit[d].status == Completed)
      ensures outcome.TimedOut? ==> reply == Some(Refused(old(audit)[d].requestId, BackendFailedUncertain))
    {
      var (status, answer) := Judged(audit[d].requestId, outcome, late);
      var receipt := audit[d].(status := status);
      var matches := Matches(rows, d, receipt.requestId);
      if |matches| == 1 { receipt := receipt.(provider := Some(matches[0])); }
      audit := audit[d := receipt];
      phases := phases[d := Replied(answer)];
      return Some(answer);
    }
  }

  // ----- what every interleaving keeps -----

  /** The receipt of dispatch d agrees with where dispatch d is. */
  ghost predicate ReceiptOk(receipt: Receipt, phase: Phase, d: nat) {
    && (phase.Awaiting? <==> receipt.status == Reserved)
    && (phase.Awaiting? ==> receipt.provider.None?)
    && (phase.Replied? ==>
          && (phase.reply.Success? <==> receipt.status == Completed)
          && (phase.reply.Cancelled? <==> receipt.status == CancelledUncertain)
          && (phase.reply.Success? ==> phase.reply.requestId == receipt.requestId)
          && (phase.reply.Refused? ==> phase.reply == Refused(receipt.requestId, BackendFailedUncertain)))
    && (receipt.provider.Some? ==>
          && receipt.provider.value.correlation == Some(d) && receipt.provider.value.requestId == Some(receipt.requestId))
  }

  /** The reserved ids are those of the receipts, no two alike. */
  ghost predicate IdsOk(ids: set<string>, audit: seq<Receipt>) {
    && |ids| == |audit|
    && (forall d | 0 <= d < |audit| :: audit[d].requestId in ids)
    && (forall d, e | 0 <= d < e < |audit| :: audit[d].requestId != audit[e].requestId)
  }

  ghost predicate ReceiptsOk(audit: seq<Receipt>, phases: seq<Phase>) {
    && |phases| == |audit|
    && (forall d | 0 <= d < |audit| :: ReceiptOk(audit[d], phases[d], d))
  }

  /** Backend calls start in the order of their receipts; a dispatch still awaiting, or completed, was started. */
  ghost predicate StartsOk(starts: seq<nat>, audit: seq<Receipt>) {
    && (forall i | 0 <= i < |starts| :: starts[i] < |audit|)
    && (forall i, j | 0 <= i < j < |starts| :: starts[i] < starts[j])
    && (forall d | 0 <= d < |audit| && (audit[d].status == Reserved || audit[d].status == Completed) :: d in starts)
  }

  ghost predicate Inv(s: Relay, limits: Limits) {
    && |s.audit| <= limits.maxCalls
    && IdsOk(s.ids, s.audit)
    && ReceiptsOk(s.audit, s.phases)
    && StartsOk(s.starts, s.audit)
  }

  lemma {:induction false} MatchesBelong(rows: seq<ProviderRow>, d: nat, id: string)
    ensures forall m | m in Matches(rows, d, id) ::
              m in rows && m.pinned && m.correlation == Some(d) && m.requestId == Some(id)
  {
    if rows != [] {
      MatchesBelong(rows[..|rows| - 1], d, id);
    }
  }

  lemma SettledReceiptOk(receipt: Receipt, d: nat, outcome: Outcome, late: bool, rows: seq<ProviderRow>)
    requires ReceiptOk(receipt, Awaiting, d)
    ensures var (status, reply) := Judged(receipt.requestId, outcome, late);
            && ReceiptOk(Attached(receipt.(status := status), d, rows), Replied(reply), d)
            && Attached(receipt.(status := status), d, rows).status == status
            && Attached(receipt.(status := status), d, rows).requestId == receipt.requestId
            && Attached(receipt.(status := status), d, rows).frame == receipt.frame
  {
    MatchesBelong(rows, d, receipt.requestId);
  }

  /** Settling needs only that a call reported as completed was started. */
  lemma SettledKeeps(s: Relay, d: nat, outcome: Outcome, late: bool, rows: seq<ProviderRow>)
    requires d < |s.audit| && IdsOk(s.ids, s.audit) && ReceiptsOk(s.audit, s.phases) && s.phases[d].Awaiting?
    ensures var t := Settled(s, d, outcome, late, rows);
            && IdsOk(t.ids, t.audit) && ReceiptsOk(t.audit, t.phases)
            && |t.audit| == |s.audit| && t.starts == s.starts && t.ids == s.ids
            && t.audit[d].status == Judged(s.audit[d].requestId, outcome, late).0
            && t.audit[d].requestId == s.audit[d].requestId && t.audit[d].frame == s.audit[d].frame
            && (forall e | 0 <= e < |s.audit| && e != d :: t.audit[e] == s.audit[e] && t.phases[e] == s.phases[e])
            && t.phases[d] == Replied(Judged(s.audit[d].requestId, outcome, late).1)
  {
    assert ReceiptOk(s.audit[d], s.phases[d], d);
    SettledReceiptOk(s.audit[d], d, outcome, late, rows);
    hide ReceiptOk, Attached, Judged;
    var t := Settled(s, d, outcome, late, rows);
    assert forall e | 0 <= e < |s.audit| :: t.audit[e].requestId == s.audit[e].requestId;
  }

  lemma ResumeKeeps(s: Relay, d: nat, outcome: Outcome, late: bool, rows: seq<ProviderRow>, limits: Limits)
    requires d < |s.audit| && Inv(s, limits) && s.phases[d].Awaiting?
    ensures Inv(Settled(s, d, outcome, late, rows), limits)
  {
    SettledKeeps(s, d, outcome, late, rows);
    assert ReceiptOk(s.audit[d], s.phases[d], d);
    hide IdsOk, ReceiptsOk, ReceiptOk, Settled;
  }

  lemma ReserveKeeps(s: Relay, frame: Frame, id: string)
    requires id !in s.ids && IdsOk(s.ids, s.audit) && ReceiptsOk(s.audit, s.phases)
    ensures var t := Reserve(s, frame, id);
            IdsOk(t.ids, t.audit) && ReceiptsOk(t.audit, t.phases)
  {
    var t := Reserve(s, frame, id);
    assert ReceiptOk(t.audit[|s.audit|], t.phases[|s.audit|], |s.audit|);
    hide ReceiptOk;
    assert forall d | 0 <= d < |s.audit| :: t.audit[d] == s.audit[d] && t.phases[d] == s.phases[d];
  }

  lemma StartKeeps(starts: seq<nat>, audit: seq<Receipt>, receipt: Receipt)
    requires StartsOk(starts, audit)
    ensures StartsOk(starts + [|audit|], audit + [receipt])
    ensures receipt.status != Reserved && receipt.status != Completed ==> StartsOk(starts, audit + [receipt])
  {
    var starts', audit' := starts + [|audit|], audit + [receipt];
    forall d | 0 <= d < |audit'| && (audit'[d].status == Reserved || audit'[d].status == Completed)
      ensures d in starts'
    {
      if d < |audit| { assert d in starts; } else { assert starts'[|starts|] == d; }
    }
  }

  lemma ArriveKeeps(s: Relay, frame: Frame, id: string, expired: bool, rows: seq<ProviderRow>, limits: Limits)
    requires Inv(s, limits) && id !in s.ids && |s.ids| < limits.maxCalls
    ensures var reserved, n := Reserve(s, frame, id), |s.audit|;
            Inv(if expired then Settled(reserved, n, TimedOut, true, rows) else reserved.(starts := s.starts + [n]), limits)
  {
    var reserved, n := Reserve(s, frame, id), |s.audit|;
    ReserveKeeps(s, frame, id);
    hide IdsOk, ReceiptsOk, Attached;
    if expired {
      SettledKeeps(reserved, n, TimedOut, true, rows);
      var t := Settled(reserved, n, TimedOut, true, rows);
      assert t.audit == s.audit + [t.audit[n]];
      hide Settled;
      StartKeeps(s.starts, s.audit, t.audit[n]);
    } else {
      StartKeeps(s.starts, s.audit, Receipt(id, frame, Reserved, None));
    }
  }

  lemma StepKeeps(s: Relay, e: Event, limits: Limits)
    requires Inv(s, limits)
    ensures Inv(Step(s, e, limits), limits)
  {
    hide ReceiptOk, Settled, Validate, StartsOk;
    match e {
      case Arrive(frame, now, started, rows) =>
        var id := Validate(frame, limits.model);
        if id.Some? && Refusal(s.ids, id.value, now, limits).None? {
          ExpiredSettles(s, frame, id.value, rows);
          ArriveKeeps(s, frame, id.value, started >= limits.deadline, rows, limits);
        }
      case Resume(d, outcome, now, rows) =>
        if d < |s.audit| && s.phases[d].Awaiting? {
          ResumeKeeps(s, d, outcome, now >= limits.deadline, rows, limits);
        }
    }
  }

  function Run(events: seq<Event>, limits: Limits): Relay {
    if events == [] then IDLE else Step(Run(events[..|events| - 1], limits), events[|events| - 1], limits)
  }

  lemma {:induction false} RunKeeps(events: seq<Event>, limits: Limits)
    ensures Inv(Run(events, limits), limits)
  {
    if events != [] {
      RunKeeps(events[..|events| - 1], limits);
      StepKeeps(Run(events[..|events| - 1], limits), events[|events| - 1], limits);
    }
  }

  // ----- main results -----

  /**
   * What an arrival does, for a frame that validates under a given id: it is reserved exactly when the id is new, a call
   * is left and the deadline has not come, and then starts its backend call exactly when the second reading of the clock
   * is in time as well; otherwise it changes nothing.
   */
  lemma ArrivalIff(s: Relay, frame: Frame, now: real, started: real, rows: seq<ProviderRow>, limits: Limits)
    requires Inv(s, limits) && Validate(frame, limits.model).Some?
    ensures var t := Step(s, Arrive(frame, now, started, rows), limits);
            var (n, id) := (|s.audit|, frame.envelope.value.requestId);
            var reserved := id !in s.ids && |s.ids| < limits.maxCalls && now < limits.deadline;
            && (!reserved ==> t == s)
            && (reserved ==>
                  && t.ids == s.ids + {id} && |t.audit| == |t.phases| == n + 1
                  && t.audit[..n] == s.audit && t.phases[..n] == s.phases
                  && t.audit[n].requestId == id && t.audit[n].frame == frame)
            && (reserved && started < limits.deadline ==>
                  t.starts == s.starts + [n] && t.phases[n] == Awaiting && t.audit[n].status == Reserved)
            && (reserved && started >= limits.deadline ==>
                  && t.starts == s.starts && t.phases[n] == Replied(Refused(id, BackendFailedUncertain))
                  && t.audit[n].status == FailedUncertain)
  {
    hide IdsOk, StartsOk, Validate;
    IdOfFrame(frame, limits.model);
  }

  lemma IdOfFrame(frame: Frame, model: string)
    requires Validate(frame, model).Some?
    ensures frame.envelope.Some? && Validate(frame, model).value == frame.envelope.value.requestId
  {
  }

  /** Exactly the frames that validate: the bounds and the pinned contract. */
  lemma ValidatesIff(frame: Frame, model: string)
    ensures Validate(frame, model).Some? <==>
              && 1 <= frame.size <= 262_144 && frame.envelope.Some? && frame.envelope.value.schemaMatches
              && 1 <= |frame.envelope.value.requestId| <= 64
              && (forall c | c in frame.envelope.value.requestId :: UrlSafe(c))
              && frame.envelope.value.body.Some?
              && var body := frame.envelope.value.body.value;
                 && body.knownFields && body.model == model && !body.streaming
                 && body.messages.Some? && 1 <= |body.messages.value| <= 256
                 && (forall m | m in body.messages.value :: m.role in {System, User, Assistant, Tool} && m.knownFields)
                 && body.maxTokens.Some? && 1 <= body.maxTokens.value <= 16_384
  {
    hide UrlSafe, IdCharacter;
    forall c ensures IdCharacter(c) <==> UrlSafe(c) {
      IdLetter(c);
    }
  }

  /** Ids are written in the alphabet of section 5 of RFC 4648: '-' and '_' stand for '+' and '/'. */
  predicate UrlSafe(c: char) {
    c == '-' || c == '_' || (Base64.Value(c).Some? && c != '+' && c != '/')
  }

  lemma IdLetter(c: char)
    ensures IdCharacter(c) <==> UrlSafe(c)
  {
  }

  lemma {:induction false} IncreasingBounded(s: seq<nat>, n: nat)
    requires forall i, j | 0 <= i < j < |s| :: s[i] < s[j]
    requires forall i | 0 <= i < |s| :: s[i] < n
    ensures |s| <= n
  {
    if s != [] {
      IncreasingBounded(s[..|s| - 1], s[|s| - 1]);
    }
  }

  /** However dispatches interleave: at most maxCalls backend starts, and at most one for any request id. */
  lemma StartsBounded(events: seq<Event>, limits: Limits)
    ensures var s := Run(events, limits);
            && |s.starts| <= |s.audit| <= limits.maxCalls
            && (forall i | 0 <= i < |s.starts| :: s.starts[i] < |s.audit|)
            && (forall i, j | 0 <= i < j < |s.starts| ::
                  s.audit[s.starts[i]].requestId != s.audit[s.starts[j]].requestId)
  {
    RunKeeps(events, limits);
    IncreasingBounded(Run(events, limits).starts, |Run(events, limits).audit|);
  }

  /** A success was replied only over a completed receipt of a started call; provider rows are the dispatch's own. */
  lemma RepliesHonest(events: seq<Event>, limits: Limits, d: nat)
    requires d < |Run(events, limits).audit|
    ensures var s := Run(events, limits);
            && |s.phases| == |s.audit|
            && (s.phases[d].Replied? && s.phases[d].reply.Success? <==> s.audit[d].status == Completed)
            && (s.audit[d].status == Completed ==> d in s.starts && s.phases[d].reply.requestId == s.audit[d].requestId)
            && (s.audit[d].provider.Some? ==>
                  s.audit[d].provider.value.correlation == Some(d)
                  && s.audit[d].provider.value.requestId == Some(s.audit[d].requestId))
  {
    RunKeeps(events, limits);
    assert ReceiptOk(Run(events, limits).audit[d], Run(events, limits).phases[d], d);
  }

  /** Receipts are never removed, and one that has left `reserved` never changes again. */
  lemma ReceiptStep(s: Relay, e: Event, limits: Limits, d: nat)
    requires Inv(s, limits) && d < |s.audit|
    ensures var t := Step(s, e, limits);
            && d < |t.audit| && t.audit[d].requestId == s.audit[d].requestId && t.audit[d].frame == s.audit[d].frame
            && (s.audit[d].status != Reserved ==> t.audit[d] == s.audit[d] && t.phases[d] == s.phases[d])
  {
    assert ReceiptOk(s.audit[d], s.phases[d], d);
    hide ReceiptOk, IdsOk, StartsOk, Validate, Refusal;
    match e {
      case Arrive(frame, now, started, rows) =>
      case Resume(n, outcome, now, rows) =>
        if n < |s.audit| && s.phases[n].Awaiting? {
          SettledKeeps(s, n, outcome, now >= limits.deadline, rows);
        }
    }
  }

  function RunFrom(s: Relay, events: seq<Event>, limits: Limits): Relay {
    if events == [] then s else Step(RunFrom(s, events[..|events| - 1], limits), events[|events| - 1], limits)
  }

  lemma {:induction false} LeavesReservedOnce(s: Relay, events: seq<Event>, limits: Limits, d: nat)
    requires Inv(s, limits) && d < |s.audit| && s.audit[d].status != Reserved
    ensures var t := RunFrom(s, events, limits);
            Inv(t, limits) && d < |t.audit| && t.audit[d] == s.audit[d] && t.phases[d] == s.phases[d]
  {
    if events != [] {
      var front := events[..|events| - 1];
      LeavesReservedOnce(s, front, limits, d);
      StepKeeps(RunFrom(s, front, limits), events[|events| - 1], limits);
      ReceiptStep(RunFrom(s, front, limits), events[|events| - 1], limits, d);
    }
  }

  /** Exactly when an awaited call is reported as a success. */
  lemma SuccessIff(s: Relay, d: nat, outcome: Outcome, now: real, rows: seq<ProviderRow>, limits: Limits)
    requires Inv(s, limits) && d < |s.audit| && s.phases[d].Awaiting?
    ensures var t := Step(s, Resume(d, outcome, now, rows), limits);
            var ok := outcome.Returned? && outcome.content.Some? && outcome.encodedBytes <= MAX_RESPONSE_BYTES
                      && now < limits.deadline;
            && (t.audit[d].status == Completed <==> ok)
            && (ok ==> t.phases[d] == Replied(Success(s.audit[d].requestId, outcome.content.value)))
            && (t.audit[d].status == CancelledUncertain <==> outcome.WasCancelled?)
            && (t.audit[d].provider.Some? <==> |Matches(rows, d, s.audit[d].requestId)| == 1)
  {
    assert ReceiptOk(s.audit[d], s.phases[d], d);
  }

  /** Event e ends the awaited call of dispatch d in time, with a result of bounded size. */
  predicate Succeeds(s: Relay, e: Event, d: nat, limits: Limits) {
    && e.Resume? && e.d == d && d < |s.audit| && d < |s.phases| && s.phases[d].Awaiting?
    && e.outcome.Returned? && e.outcome.content.Some? && e.outcome.encodedBytes <= MAX_RESPONSE_BYTES
    && e.now < limits.deadline
  }

  predicate Successful(s: Relay, d: nat) {
    d < |s.audit| && d < |s.phases| && s.phases[d].Replied? && s.phases[d].reply.Success?
  }

  ghost predicate SucceedsAt(events: seq<Event>, i: nat, d: nat, limits: Limits) {
    i < |events| && Succeeds(Run(events[..i], limits), events[i], d, limits)
  }

  /** One event makes a success of a dispatch exactly when it ends its awaited call well. */
  lemma SuccessStep(s: Relay, e: Event, d: nat, limits: Limits)
    requires Inv(s, limits)
    ensures var t := Step(s, e, limits);
            && (Successful(t, d) <==> Successful(s, d) || Succeeds(s, e, d, limits))
            && (Succeeds(s, e, d, limits) ==> AnsweredBy(t, d, e))
            && (Successful(s, d) ==> d < |t.audit| && d < |t.phases| && t.phases[d] == s.phases[d] && t.audit[d].requestId == s.audit[d].requestId)
  {
    if d < |s.audit| {
      assert ReceiptOk(s.audit[d], s.phases[d], d);
    }
    hide IdsOk, StartsOk, ReceiptsOk, ReceiptOk, Validate, Refusal;
    match e {
      case Arrive(frame, now, started, rows) =>
      case Resume(n, outcome, now, rows) =>
        if n < |s.audit| && s.phases[n].Awaiting? {
          SettledKeeps(s, n, outcome, now >= limits.deadline, rows);
        }
    }
  }

  lemma EarlierSame(events: seq<Event>, i: nat, d: nat, limits: Limits)
    requires i + 1 < |events|
    ensures SucceedsAt(events, i, d, limits) <==> SucceedsAt(events[..|events| - 1], i, d, limits)
  {
    hide Run, Succeeds;
    assert events[..|events| - 1][..i] == events[..i];
  }

  /** Dispatch d was answered under its own id with what event e returned. */
  predicate AnsweredBy(s: Relay, d: nat, e: Event) {
    && e.Resume? && e.outcome.Returned? && e.outcome.content.Some? && d < |s.audit| && d < |s.phases|
    && s.phases[d] == Replied(Success(s.audit[d].requestId, e.outcome.content.value))
  }

  ghost predicate Traced(events: seq<Event>, s: Relay, d: nat, limits: Limits) {
    && (Successful(s, d) <==> exists i :: 0 <= i < |events| && SucceedsAt(events, i, d, limits))
    && (forall i | 0 <= i < |events| && SucceedsAt(events, i, d, limits) :: AnsweredBy(s, d, events[i]))
  }

  lemma TraceExtends(events: seq<Event>, e: Event, s: Relay, t: Relay, d: nat, limits: Limits)
    requires Traced(events, s, d, limits)
    requires Successful(t, d) <==> Successful(s, d) || SucceedsAt(events + [e], |events|, d, limits)
    requires SucceedsAt(events + [e], |events|, d, limits) ==> AnsweredBy(t, d, e)
    requires Successful(s, d) ==> d < |s.audit| && d < |s.phases| && d < |t.audit| && d < |t.phases| && t.phases[d] == s.phases[d] && t.audit[d].requestId == s.audit[d].requestId
    ensures Traced(events + [e], t, d, limits)
  {
    hide SucceedsAt, Successful, AnsweredBy;
    var all, n := events + [e], |events|;
    forall i | 0 <= i < n ensures SucceedsAt(all, i, d, limits) <==> SucceedsAt(events, i, d, limits) {
      EarlierSame(all, i, d, limits);
      assert all[..n] == events;
    }
    forall i | 0 <= i <= n && SucceedsAt(all, i, d, limits) ensures AnsweredBy(t, d, all[i]) {
      if i < n {
        assert SucceedsAt(events, i, d, limits);
        AnswerStays(s, t, d, events[i]);
      }
    }
    if Successful(s, d) {
      var i :| 0 <= i < n && SucceedsAt(events, i, d, limits);
      assert SucceedsAt(all, i, d, limits);
    }
  }

  /**
   * Over every run: a success is replied exactly when its call was resumed in time while still awaited, and the reply
   * carries what that call returned under the dispatch's own id.
   */
  lemma {:induction false} SuccessTraced(events: seq<Event>, limits: Limits, d: nat)
    ensures Traced(events, Run(events, limits), d, limits)
  {
    hide Step, Inv, Succeeds, AnsweredBy;
    if events != [] {
      hide Successful;
      var n := |events| - 1;
      var front, e := events[..n], events[n];
      assert events == front + [e];
      RunKeeps(front, limits);
      SuccessStep(Run(front, limits), e, d, limits);
      SuccessTraced(front, limits, d);
      hide Traced;
      TraceExtends(front, e, Run(front, limits), Run(events, limits), d, limits);
    }
  }

  lemma AnswerStays(s: Relay, t: Relay, d: nat, e: Event)
    requires AnsweredBy(s, d, e)
    requires d < |t.audit| && d < |t.phases| && t.phases[d] == s.phases[d] && t.audit[d].requestId == s.audit[d].requestId
    ensures AnsweredBy(t, d, e)
  {
  }
}
