/**
 * The controller's review relay (benchmarks/opencode_control_relay.py). A review runs without interruption
 * from its arrival to the callback's first suspension, and again from the callback's end to the reply;
 * between those segments any number of other review requests may arrive.
 */
module ControlRelay {
  import opened Common
  import Text
  import ModelRelay

  const MAX_INSTRUCTION: nat := 20_000

  /** The supported decision types, and any other value. */
  datatype Action = SendNudge | ContinueSession | RequestVerification | Noop | Unsupported

  predicate Repairs(action: Action) {
    action == SendNudge || action == ContinueSession || action == RequestVerification
  }

  predicate Instructive(text: string) {
    Text.Strip(text) != "" && |text| <= MAX_INSTRUCTION && Text.NUL !in text
  }

  /** What the review callback returned: text is None without a string there; encodable is false for lone surrogates. */
  datatype Decision = Decision(action: Action, text: Option<string>, encodable: bool)

  predicate Acceptable(decision: Decision) {
    && (decision.action == Noop
        || (Repairs(decision.action) && decision.text.Some? && Instructive(decision.text.value)))
    && decision.encodable
  }

  /** A frame of the review schema, with None for each field of another type. */
  datatype Request = Request(size: nat, exactKeys: bool, id: Option<string>, vendor: Option<string>,
                             messages: Option<seq<string>>)

  predicate ValidRequest(r: Request) {
    && 0 < r.size <= ModelRelay.MAX_REQUEST_BYTES && r.exactKeys
    && r.id.Some? && ModelRelay.ValidId(r.id.value)
    && r.vendor.Some? && 1 <= |r.vendor.value| <= 256 && Text.NUL !in r.vendor.value
    && r.messages.Some? && |r.messages.value| <= 100
    && (forall m | m in r.messages.value :: |m| <= 20_000 && Text.NUL !in m)
  }

  function IdOf(r: Request): string
    requires ValidRequest(r)
  {
    r.id.value
  }

  function VendorOf(r: Request): string
    requires ValidRequest(r)
  {
    r.vendor.value
  }

  datatype Status = Reserved | Completed | CancelledUncertain | FailedUncertain

  /** elapsed and charged are zero until the review ends. */
  datatype Receipt = Receipt(requestId: string, vendor: string, status: Status, elapsed: real, charged: real)

  datatype Refusal =
    | ReviewsDisabled | DuplicateRequest | SessionMismatch | ReviewInProgress
    | ReviewBudgetExhausted | ReviewTimeBudgetExhausted | DeadlineExpired | ReviewFailedUncertain

  datatype Reply =
    | InvalidRequest
    | Refused(requestId: string, error: Refusal)
    | Advice(requestId: string, action: Action, text: Option<string>)
    | Cancelled

  datatype Outcome = Returned(decision: Decision) | TimedOut | Raised | WasCancelled

  /** A review holds the clock it started at and the time left then, until it has replied. */
  datatype Phase = InReview(started: real, budget: real) | Replied(reply: Reply, timedOut: bool)

  datatype Desk = Desk(ids: set<string>, vendor: Option<string>, inflight: bool, used: real,
                       audit: seq<Receipt>, phases: seq<Phase>)

  const IDLE := Desk({}, None, false, 0.0, [], [])

  datatype Limits = Limits(reviewing: bool, maxReviews: nat, maxSeconds: real, deadline: real)

  datatype Event =
    | Arrive(request: Request, now: real, started: real, callable: real, ended: real)
    | Resume(d: nat, outcome: Outcome, now: real, returned: real, ended: real)

  function Denied(ids: set<string>, vendor: Option<string>, inflight: bool, used: real,
                  id: string, from: string, now: real, limits: Limits): Option<Refusal>
  {
    if !limits.reviewing then Some(ReviewsDisabled)
    else if id in ids then Some(DuplicateRequest)
    else if vendor.Some? && from != vendor.value then Some(SessionMismatch)
    else if inflight then Some(ReviewInProgress)
    else if |ids| >= limits.maxReviews then Some(ReviewBudgetExhausted)
    else if used >= limits.maxSeconds then Some(ReviewTimeBudgetExhausted)
    else if now >= limits.deadline then Some(DeadlineExpired)
    else None
  }

  lemma DeniedIff(ids: set<string>, vendor: Option<string>, inflight: bool, used: real,
                  id: string, from: string, now: real, limits: Limits)
    ensures var denied := Denied(ids, vendor, inflight, used, id, from, now, limits);
            var unseen := limits.reviewing && id !in ids;
            var ours := unseen && (vendor == None || vendor == Some(from));
            var turn := ours && !inflight;
            var counted := turn && |ids| < limits.maxReviews;
            var timed := counted && used < limits.maxSeconds;
            && (denied == Some(ReviewsDisabled) <==> !limits.reviewing)
            && (denied == Some(DuplicateRequest) <==> limits.reviewing && !unseen)
            && (denied == Some(SessionMismatch) <==> unseen && !ours)
            && (denied == Some(ReviewInProgress) <==> ours && !turn)
            && (denied == Some(ReviewBudgetExhausted) <==> turn && !counted)
            && (denied == Some(ReviewTimeBudgetExhausted) <==> counted && !timed)
            && (denied == Some(DeadlineExpired) <==> timed && now >= limits.deadline)
            && (denied.None? <==> timed && now < limits.deadline)
            && denied != Some(ReviewFailedUncertain)
  {
  }

  /** The status, the reply and whether the review counts as timed out. */
  function Judged(id: string, outcome: Outcome, started: real, budget: real, now: real, returned: real, limits: Limits)
    : (Status, Reply, bool)
  {
    match outcome {
      case WasCancelled => (CancelledUncertain, Cancelled, false)
      case TimedOut => (FailedUncertain, Refused(id, ReviewFailedUncertain), true)
      case Raised => (FailedUncertain, Refused(id, ReviewFailedUncertain), false)
      case Returned(decision) =>
        if now >= limits.deadline || returned - started >= budget
        then (FailedUncertain, Refused(id, ReviewFailedUncertain), true)
        else if Acceptable(decision)
        then (Completed, Advice(id, decision.action, if decision.action == Noop then None else decision.text), false)
        else (FailedUncertain, Refused(id, ReviewFailedUncertain), false)
    }
  }

  function Max(x: real, y: real): real {
    if x >= y then x else y
  }

  /** What settling makes of the newest receipt, whatever ended the review. */
  function Verdict(receipt: Receipt, outcome: Outcome, started: real, budget: real, now: real, returned: real, ended: real,
                   limits: Limits): (Receipt, Phase)
  {
    var (status, reply, timedOut) := Judged(receipt.requestId, outcome, started, budget, now, returned, limits);
    var elapsed := Max(0.0, ended - started);
    (receipt.(status := status, elapsed := elapsed, charged := if timedOut then Max(elapsed, budget) else elapsed),
     Replied(reply, timedOut))
  }

  function Settled(s: Desk, outcome: Outcome, started: real, budget: real, now: real, returned: real, ended: real,
                   limits: Limits): Desk
    requires 0 < |s.audit| == |s.phases|
  {
    var n := |s.audit| - 1;
    var (receipt, phase) := Verdict(s.audit[n], outcome, started, budget, now, returned, ended, limits);
    s.(inflight := false, used := s.used + receipt.charged, audit := s.audit[..n] + [receipt], phases := s.phases[..n] + [phase])
  }

  function Reserve(s: Desk, id: string, vendor: string, started: real, budget: real): Desk {
    Desk(s.ids + {id}, Some(vendor), true, s.used, s.audit + [Receipt(id, vendor, Reserved, 0.0, 0.0)],
         s.phases + [InReview(started, budget)])
  }

  /** One uninterrupted segment of some review dispatch. */
  function Step(s: Desk, e: Event, limits: Limits): Desk {
    match e {
      case Arrive(r, now, started, callable, ended) =>
        if !ValidRequest(r)
           || Denied(s.ids, s.vendor, s.inflight, s.used, IdOf(r), VendorOf(r), now, limits).Some?
           || |s.audit| != |s.phases| then s
        else
          var budget := limits.maxSeconds - s.used;
          var reserved := Reserve(s, IdOf(r), VendorOf(r), started, budget);
          if callable >= limits.deadline
          then Settled(reserved, TimedOut, started, budget, callable, started, ended, limits)
          else reserved
      case Resume(d, outcome, now, returned, ended) =>
        if d + 1 == |s.audit| == |s.phases| && s.phases[d].InReview?
        then Settled(s, outcome, s.phases[d].started, s.phases[d].budget, now, returned, ended, limits) else s
    }
  }

  /** The controller object; each pending review keeps its own started and budget. */
  class OpenCodeControlRelay {
    const limits: Limits
    var reviewIds: set<string>
    var vendorSession: Option<string>
    var reviewInflight: bool
    var reviewSecondsUsed: real
    var reviewAudit: seq<Receipt>
    ghost var phases: seq<Phase>

    ghost function View(): Desk
      reads this
    {
      Desk(reviewIds, vendorSession, reviewInflight, reviewSecondsUsed, reviewAudit, phases)
    }

    ghost predicate Valid()
      reads this
    {
      Inv(View(), limits)
    }

    constructor (limits: Limits)
      requires 1 <= limits.maxReviews <= 11 && 0.0 < limits.maxSeconds <= 86_400.0
      ensures this.limits == limits && View() == IDLE && Valid()
    {
      this.limits := limits;
      reviewIds, vendorSession, reviewInflight, reviewSecondsUsed := {}, None, false, 0.0;
      reviewAudit, phases := [], [];
    }

    /** The segment from the frame to the callback's first suspension; no reply means the callback is running. */
    method Begin(r: Request, now: real, started: real, callable: real, ended: real)
        returns (reply: Option<Reply>, budget: real)
      requires Valid()
      modifies this
      ensures Valid() && View() == Step(old(View()), Arrive(r, now, started, callable, ended), limits)
      ensures reply.None? ==>
                && phases == old(phases) + [InReview(started, budget)]
                && budget == limits.maxSeconds - reviewSecondsUsed
      ensures reply == Some(InvalidRequest) <==> !ValidRequest(r)
      ensures ValidRequest(r) ==>
                var id := IdOf(r);
                var unseen := limits.reviewing && id !in old(reviewIds);
                var ours := unseen && (old(vendorSession) == None || old(vendorSession) == Some(VendorOf(r)));
                var turn := ours && !old(reviewInflight);
                var counted := turn && old(|reviewIds|) < limits.maxReviews;
                var timed := counted && old(reviewSecondsUsed) < limits.maxSeconds;
                var admitted := timed && now < limits.deadline;
                && (reply == Some(Refused(id, ReviewsDisabled)) <==> !limits.reviewing)
                && (reply == Some(Refused(id, DuplicateRequest)) <==> limits.reviewing && !unseen)
                && (reply == Some(Refused(id, SessionMismatch)) <==> unseen && !ours)
                && (reply == Some(Refused(id, ReviewInProgress)) <==> ours && !turn)
                && (reply == Some(Refused(id, ReviewBudgetExhausted)) <==> turn && !counted)
                && (reply == Some(Refused(id, ReviewTimeBudgetExhausted)) <==> counted && !timed)
                && (reply == Some(Refused(id, DeadlineExpired)) <==> timed && !admitted)
                && (reply == Some(Refused(id, ReviewFailedUncertain)) <==> admitted && callable >= limits.deadline)
                && (reply.None? <==> admitted && callable < limits.deadline)
    {
      hide Inv, Denied, Verdict, ValidRequest, Settled, IdOf, VendorOf, Step;
      StepKeeps(View(), Arrive(r, now, started, callable, ended), limits);
      Aligned(View(), limits);
      ArriveStep(View(), r, now, started, callable, ended, limits);
      budget := limits.maxSeconds - reviewSecondsUsed;
      if !ValidRequest(r) { return Some(InvalidRequest), budget; }
      var id, vendor := IdOf(r), VendorOf(r);
      var error := Denied(reviewIds, vendorSession, reviewInflight, reviewSecondsUsed, id, vendor, now, limits);
      DeniedIff(reviewIds, vendorSession, reviewInflight, reviewSecondsUsed, id, vendor, now, limits);
      if error.Some? { return Some(Refused(id, error.value)), budget; }
      Admit(id, vendor, started, budget);
      if callable >= limits.deadline {
        var answer := Settle(TimedOut, started, budget, callable, started, ended);
        return Some(answer), budget;
      }
      return None, budget;
    }

    /** Reserve before yielding. */
    method Admit(id: string, vendor: string, started: real, budget: real)
      modifies this
      ensures View() == Reserve(old(View()), id, vendor, started, budget)
    {
      reviewIds := reviewIds + {id};
      vendorSession := Some(vendor);
      reviewInflight := true;
      reviewAudit := reviewAudit + [Receipt(id, vendor, Reserved, 0.0, 0.0)];
      phases := phases + [InReview(started, budget)];
    }

    /** The segment from the callback's end to the reply. */
    method Finish(outcome: Outcome, started: real, budget: real, now: real, returned: real, ended: real)
        returns (reply: Reply)
      requires Valid() && reviewInflight && phases[|phases| - 1] == InReview(started, budget)
      modifies this
      ensures Valid()
      ensures View() == Step(old(View()), Resume(old(|reviewAudit|) - 1, outcome, now, returned, ended), limits)
      ensures phases[|phases| - 1].Replied? && phases[|phases| - 1].reply == reply
    {
      StepKeeps(View(), Resume(|reviewAudit| - 1, outcome, now, returned, ended), limits);
      reply := Settle(outcome, started, budget, now, returned, ended);
    }

    method Settle(outcome: Outcome, started: real, budget: real, now: real, returned: real, ended: real)
        returns (reply: Reply)
      requires 0 < |reviewAudit| == |phases|
      modifies this`reviewAudit, this`reviewSecondsUsed, this`reviewInflight, this`phases
      ensures View() == Settled(old(View()), outcome, started, budget, now, returned, ended, limits)
      ensures reply == Judged(old(reviewAudit)[old(|reviewAudit|) - 1].requestId, outcome, started, budget, now, returned, limits).1
      ensures outcome.TimedOut? ==> reply == Refused(old(reviewAudit)[old(|reviewAudit|) - 1].requestId, ReviewFailedUncertain)
    {
      var n := |reviewAudit| - 1;
      var receipt := reviewAudit[n];
      var (status, answer, timedOut) := Judged(receipt.requestId, outcome, started, budget, now, returned, limits);
      var elapsed := Max(0.0, ended - started);
      var charged := if timedOut then Max(elapsed, budget) else elapsed;
      reviewSecondsUsed := reviewSecondsUsed + charged;
      reviewAudit := reviewAudit[..n] + [receipt.(status := status, elapsed := elapsed, charged := charged)];
      reviewInflight := false;
      phases := phases[..n] + [Replied(answer, timedOut)];
      return answer;
    }
  }

  // ----- what every interleaving keeps -----

  function Charged(audit: seq<Receipt>): real {
    if audit == [] then 0.0 else Charged(audit[..|audit| - 1]) + audit[|audit| - 1].charged
  }

  lemma {:induction false} ChargedLast(audit: seq<Receipt>, receipt: Receipt)
    ensures Charged(audit + [receipt]) == Charged(audit) + receipt.charged
  {
    assert (audit + [receipt])[..|audit|] == audit;
  }

  /** Receipt and phase of one review, given the session and the seconds used so far. */
  ghost predicate ReceiptOk(receipt: Receipt, phase: Phase, vendor: Option<string>) {
    && Some(receipt.vendor) == vendor && receipt.charged >= receipt.elapsed >= 0.0
    && (phase.InReview? <==> receipt.status == Reserved)
    && (phase.InReview? ==> receipt.charged == 0.0)
    && (phase.Replied? ==> (phase.reply.Advice? <==> receipt.status == Completed))
    && (phase.Replied? && !phase.timedOut ==> receipt.charged == receipt.elapsed)
  }

  ghost predicate Identified(ids: set<string>, audit: seq<Receipt>) {
    && |ids| == |audit|
    && (forall d | 0 <= d < |audit| :: audit[d].requestId in ids)
    && (forall d, e | 0 <= d < e < |audit| :: audit[d].requestId != audit[e].requestId)
  }

  ghost predicate ReceiptsOk(audit: seq<Receipt>, phases: seq<Phase>, vendor: Option<string>) {
    && |phases| == |audit|
    && (forall d | 0 <= d < |audit| :: ReceiptOk(audit[d], phases[d], vendor))
  }

  /** Only the newest review may be running or timed out; a timed-out one has used up the time. */
  ghost predicate TimeOk(s: Desk, limits: Limits) {
    && |s.phases| == |s.audit|
    && (forall d | 0 <= d < |s.phases| - 1 :: s.phases[d].Replied? && !s.phases[d].timedOut)
    && s.used == Charged(s.audit)
    && (s.inflight <==> s.phases != [] && s.phases[|s.phases| - 1].InReview?)
    && (s.phases != [] ==> Charged(s.audit[..|s.audit| - 1]) < limits.maxSeconds)
    && (s.inflight ==> s.phases[|s.phases| - 1].budget == limits.maxSeconds - s.used > 0.0)
    && (s.phases != [] && s.phases[|s.phases| - 1].Replied? && s.phases[|s.phases| - 1].timedOut ==> s.used >= limits.maxSeconds)
  }

  ghost predicate Inv(s: Desk, limits: Limits) {
    && |s.audit| <= limits.maxReviews
    && Identified(s.ids, s.audit)
    && ReceiptsOk(s.audit, s.phases, s.vendor)
    && TimeOk(s, limits)
  }

  lemma Appended(ids: set<string>, audit: seq<Receipt>, phases: seq<Phase>, vendor: Option<string>,
                 receipt: Receipt, phase: Phase)
    requires Identified(ids, audit) && receipt.requestId !in ids && (vendor.Some? ==> vendor == Some(receipt.vendor))
    requires ReceiptsOk(audit, phases, vendor) && (vendor.None? ==> audit == [])
    requires ReceiptOk(receipt, phase, Some(receipt.vendor))
    ensures Identified(ids + {receipt.requestId}, audit + [receipt])
    ensures ReceiptsOk(audit + [receipt], phases + [phase], Some(receipt.vendor))
  {
    hide ReceiptOk;
  }

  lemma ReserveKeeps(s: Desk, id: string, vendor: string, started: real, limits: Limits)
    requires Inv(s, limits) && id !in s.ids && (s.vendor.Some? ==> vendor == s.vendor.value)
    requires !s.inflight && |s.ids| < limits.maxReviews && s.used < limits.maxSeconds
    ensures Inv(Reserve(s, id, vendor, started, limits.maxSeconds - s.used), limits)
  {
    var t := Reserve(s, id, vendor, started, limits.maxSeconds - s.used);
    var n := |s.audit|;
    assert s.vendor.None? ==> s.audit == [] by {
      if n > 0 { assert ReceiptOk(s.audit[0], s.phases[0], s.vendor); }
    }
    assert ReceiptOk(t.audit[n], t.phases[n], t.vendor) && |s.ids| == n;
    hide ReceiptOk, Charged;
    Appended(s.ids, s.audit, s.phases, s.vendor, t.audit[n], t.phases[n]);
    hide Identified, ReceiptsOk;
    ChargedLast(s.audit, t.audit[n]);
    assert t.audit[..n] == s.audit;
  }

  lemma VerdictOk(receipt: Receipt, outcome: Outcome, started: real, budget: real, now: real, returned: real, ended: real,
                  limits: Limits)
    ensures var v := Verdict(receipt, outcome, started, budget, now, returned, ended, limits);
            && v.1.Replied? && ReceiptOk(v.0, v.1, Some(receipt.vendor)) && v.0.requestId == receipt.requestId
            && (v.1.timedOut ==> v.0.charged >= budget)
  {
  }

  lemma LastReplaced(ids: set<string>, audit: seq<Receipt>, phases: seq<Phase>, vendor: Option<string>,
                     receipt: Receipt, phase: Phase)
    requires audit != [] && Identified(ids, audit) && ReceiptsOk(audit, phases, vendor)
    requires receipt.requestId == audit[|audit| - 1].requestId && ReceiptOk(receipt, phase, vendor)
    ensures var n := |audit| - 1;
            Identified(ids, audit[..n] + [receipt]) && ReceiptsOk(audit[..n] + [receipt], phases[..n] + [phase], vendor)
  {
    hide ReceiptOk;
    var audit' := audit[..|audit| - 1] + [receipt];
    assert forall d | 0 <= d < |audit| :: audit'[d].requestId == audit[d].requestId;
  }

  lemma SettledKeeps(s: Desk, outcome: Outcome, started: real, budget: real, now: real, returned: real, ended: real,
                     limits: Limits)
    requires Inv(s, limits) && s.inflight && s.phases[|s.phases| - 1] == InReview(started, budget)
    ensures Inv(Settled(s, outcome, started, budget, now, returned, ended, limits), limits)
  {
    var n := |s.audit| - 1;
    assert ReceiptOk(s.audit[n], s.phases[n], s.vendor) && s.used == Charged(s.audit[..n]);
    var v := Verdict(s.audit[n], outcome, started, budget, now, returned, ended, limits);
    VerdictOk(s.audit[n], outcome, started, budget, now, returned, ended, limits);
    hide ReceiptOk, Verdict, ReceiptsOk, Identified;
    LastReplaced(s.ids, s.audit, s.phases, s.vendor, v.0, v.1);
    var t := Settled(s, outcome, started, budget, now, returned, ended, limits);
    ChargedLast(s.audit[..n], v.0);
    hide Charged;
    assert t.audit[..n] == s.audit[..n];
  }

  lemma StepKeeps(s: Desk, e: Event, limits: Limits)
    requires Inv(s, limits)
    ensures Inv(Step(s, e, limits), limits)
  {
    hide ModelRelay.ValidId, Settled, Charged, ReceiptsOk, Identified, Judged;
    match e {
      case Arrive(r, now, started, callable, ended) =>
        if ValidRequest(r) && Denied(s.ids, s.vendor, s.inflight, s.used, IdOf(r), VendorOf(r), now, limits).None? {
          var budget := limits.maxSeconds - s.used;
          ReserveKeeps(s, IdOf(r), VendorOf(r), started, limits);
          if callable >= limits.deadline {
            SettledKeeps(Reserve(s, IdOf(r), VendorOf(r), started, budget), TimedOut, started, budget, callable,
                         started, ended, limits);
          }
        }
      case Resume(d, outcome, now, returned, ended) =>
        if d + 1 == |s.audit| && s.phases[d].InReview? {
          SettledKeeps(s, outcome, s.phases[d].started, s.phases[d].budget, now, returned, ended, limits);
        }
    }
  }

  /** The three ways an arrival can go. */
  lemma ArriveStep(s: Desk, r: Request, now: real, started: real, callable: real, ended: real, limits: Limits)
    requires |s.audit| == |s.phases|
    ensures var t := Step(s, Arrive(r, now, started, callable, ended), limits);
            var budget := limits.maxSeconds - s.used;
            if !ValidRequest(r) then t == s
            else if Denied(s.ids, s.vendor, s.inflight, s.used, IdOf(r), VendorOf(r), now, limits).Some? then t == s
            else
              var reserved := Reserve(s, IdOf(r), VendorOf(r), started, budget);
              if callable >= limits.deadline
              then |reserved.audit| == |reserved.phases| && t == Settled(reserved, TimedOut, started, budget, callable, started, ended, limits)
              else t == reserved
  {
    hide Denied, Verdict, ValidRequest, IdOf, VendorOf, Settled;
  }

  lemma Aligned(s: Desk, limits: Limits)
    requires Inv(s, limits)
    ensures |s.audit| == |s.phases|
  {
  }

  function RunFrom(s: Desk, events: seq<Event>, limits: Limits): Desk {
    if events == [] then s else Step(RunFrom(s, events[..|events| - 1], limits), events[|events| - 1], limits)
  }

  lemma {:induction false} RunKeeps(events: seq<Event>, limits: Limits)
    ensures Inv(RunFrom(IDLE, events, limits), limits)
  {
    if events != [] {
      RunKeeps(events[..|events| - 1], limits);
      StepKeeps(RunFrom(IDLE, events[..|events| - 1], limits), events[|events| - 1], limits);
    }
  }

  // ----- main results -----

  /**
   * What an arrival does, for a valid request: it is reserved for the session it names exactly when reviews are enabled,
   * its id is new, the session is the one seen so far, none is in flight, and reviews, time and deadline allow; it is
   * then in flight with the time left as its budget unless the deadline has passed. Otherwise nothing changes.
   */
  lemma ArrivalIff(s: Desk, r: Request, now: real, started: real, callable: real, ended: real, limits: Limits)
    requires Inv(s, limits) && ValidRequest(r)
    ensures var t := Step(s, Arrive(r, now, started, callable, ended), limits);
            var (n, id, vendor) := (|s.audit|, r.id.value, r.vendor.value);
            var reserved := && limits.reviewing && id !in s.ids && (s.vendor == None || s.vendor == Some(vendor)) && !s.inflight
                            && |s.ids| < limits.maxReviews && s.used < limits.maxSeconds && now < limits.deadline;
            && (!reserved ==> t == s)
            && (reserved ==>
                  && t.ids == s.ids + {id} && t.vendor == Some(vendor) && |t.audit| == |t.phases| == n + 1
                  && t.audit[..n] == s.audit && t.phases[..n] == s.phases
                  && t.audit[n].requestId == id && t.audit[n].vendor == vendor)
            && (reserved && callable < limits.deadline ==>
                  && t.inflight && t.used == s.used && t.audit[n].status == Reserved
                  && t.phases[n] == InReview(started, limits.maxSeconds - s.used))
            && (reserved && callable >= limits.deadline ==>
                  && !t.inflight && t.audit[n].status == FailedUncertain
                  && t.phases[n] == Replied(Refused(id, ReviewFailedUncertain), true))
  {
    hide Charged, ReceiptsOk, Identified, ValidRequest, Denied;
    Aligned(s, limits);
    DeniedIff(s.ids, s.vendor, s.inflight, s.used, IdOf(r), VendorOf(r), now, limits);
    RequestFields(r);
  }

  lemma RequestFields(r: Request)
    requires ValidRequest(r)
    ensures r.id == Some(IdOf(r)) && r.vendor == Some(VendorOf(r))
  {
  }

  /**
   * What the review in flight is answered: a decision in time and acceptable, under the receipt's own id, with its own
   * action, and with its own text for a repair and none for a NOOP; anything else but a cancellation, a refusal.
   */
  lemma AnswersIff(s: Desk, outcome: Outcome, now: real, returned: real, ended: real, limits: Limits)
    requires Inv(s, limits) && s.inflight
    ensures var n := |s.audit| - 1;
            var (id, started, budget) := (s.audit[n].requestId, s.phases[n].started, s.phases[n].budget);
            var t := Step(s, Resume(n, outcome, now, returned, ended), limits);
            var answered := Answered(outcome, started, budget, now, returned, limits);
            && |t.phases| == |t.audit| == n + 1 && t.phases[n].Replied? && t.phases[..n] == s.phases[..n]
            && t.audit[..n] == s.audit[..n] && t.audit[n].requestId == id
            && (answered && Repairs(outcome.decision.action) ==>
                  t.phases[n].reply == Advice(id, outcome.decision.action, Some(outcome.decision.text.value)))
            && (answered && !Repairs(outcome.decision.action) ==> t.phases[n].reply == Advice(id, Noop, None))
            && (!answered && !outcome.WasCancelled? ==> t.phases[n].reply == Refused(id, ReviewFailedUncertain))
            && (outcome.WasCancelled? ==> t.phases[n].reply == Cancelled)
            && (t.phases[n].timedOut <==>
                  outcome.TimedOut? || (outcome.Returned? && !(now < limits.deadline && returned - started < budget)))
  {
    Aligned(s, limits);
    hide Charged, ReceiptsOk, Identified, Instructive;
  }

  /** The callback returned in time, within its budget, with a decision the worker may follow. */
  predicate Answered(outcome: Outcome, started: real, budget: real, now: real, returned: real, limits: Limits) {
    && outcome.Returned? && now < limits.deadline && returned - started < budget
    && outcome.decision.encodable
    && (outcome.decision.action == Noop
        || (outcome.decision.action in {SendNudge, ContinueSession, RequestVerification}
            && outcome.decision.text.Some? && Instructive(outcome.decision.text.value)))
  }

  /** An instruction says something: at most 20000 characters, not all of them white space and none of them NUL. */
  lemma InstructiveIff(text: string)
    ensures Instructive(text) <==>
              (exists c :: c in text && !Text.IsSpace(c)) && |text| <= 20_000 && forall c | c in text :: c != '\U{0}'
  {
    hide Text.IsSpace, Text.Strip;
    Text.StripIs(text);
    var i, j :| 0 <= i <= j <= |text| && Text.Strip(text) == text[i..j]
                && (forall k | 0 <= k < i || j <= k < |text| :: Text.IsSpace(text[k]))
                && (i < j ==> !Text.IsSpace(text[i]) && !Text.IsSpace(text[j - 1]));
    if i < j { assert text[i] in text; }
  }

  /** Exactly the valid requests. */
  lemma ValidRequestIff(r: Request)
    ensures ValidRequest(r) <==>
              && 1 <= r.size <= 262_144 && r.exactKeys
              && r.id.Some? && 1 <= |r.id.value| <= 64 && (forall c | c in r.id.value :: ModelRelay.UrlSafe(c))
              && r.vendor.Some? && 1 <= |r.vendor.value| <= 256 && (forall c | c in r.vendor.value :: c != Text.NUL)
              && r.messages.Some? && |r.messages.value| <= 100
              && (forall m | m in r.messages.value :: |m| <= 20_000 && forall c | c in m :: c != Text.NUL)
  {
    hide ModelRelay.UrlSafe, ModelRelay.IdCharacter;
    forall c ensures ModelRelay.IdCharacter(c) <==> ModelRelay.UrlSafe(c) {
      ModelRelay.IdLetter(c);
    }
  }

  /** However reviews interleave: at most one is in flight, and the clock account is exact. */
  lemma OneReviewAtATime(events: seq<Event>, limits: Limits)
    ensures var s := RunFrom(IDLE, events, limits);
            && |s.audit| == |s.phases| <= limits.maxReviews
            && (forall d, e | 0 <= d < |s.phases| && 0 <= e < |s.phases| && s.phases[d].InReview? && s.phases[e].InReview? :: d == e)
            && (s.inflight <==> exists d :: 0 <= d < |s.phases| && s.phases[d].InReview?)
            && s.used == Charged(s.audit)
            && (forall d | 0 <= d < |s.phases| && s.phases[d].InReview? ::
                  s.phases[d].budget == limits.maxSeconds - s.used > 0.0)
  {
    RunKeeps(events, limits);
    hide Step, Charged, ReceiptsOk, Identified;
    var s := RunFrom(IDLE, events, limits);
    if s.inflight { assert s.phases[|s.phases| - 1].InReview?; }
  }

  /** All admitted reviews name one vendor session, under pairwise different request ids. */
  lemma OneSession(events: seq<Event>, limits: Limits)
    ensures var s := RunFrom(IDLE, events, limits);
            && (forall d | 0 <= d < |s.audit| :: Some(s.audit[d].vendor) == s.vendor)
            && (forall d, e | 0 <= d < e < |s.audit| :: s.audit[d].requestId != s.audit[e].requestId)
  {
    RunKeeps(events, limits);
    hide Step, Charged, TimeOk;
    var s := RunFrom(IDLE, events, limits);
    forall d | 0 <= d < |s.audit| ensures Some(s.audit[d].vendor) == s.vendor {
      assert ReceiptOk(s.audit[d], s.phases[d], s.vendor);
    }
  }

  /** Every review but the last was paid for out of the budget, so only one review can overrun it. */
  lemma OnlyLastOverruns(events: seq<Event>, limits: Limits)
    requires RunFrom(IDLE, events, limits).audit != []
    ensures var s := RunFrom(IDLE, events, limits);
            var n := |s.audit| - 1;
            Charged(s.audit[..n]) < limits.maxSeconds && s.used == Charged(s.audit[..n]) + s.audit[n].charged
  {
    RunKeeps(events, limits);
    hide Step, ReceiptsOk, Identified;
  }

  lemma StuckStep(s: Desk, d: nat, e: Event, limits: Limits)
    requires Inv(s, limits) && d < |s.phases| && s.phases[d].Replied? && s.phases[d].timedOut
    ensures Step(s, e, limits) == s
  {
    hide Charged, ReceiptsOk, Identified, Settled, ValidRequest, Reserve, IdOf, VendorOf;
    assert d == |s.phases| - 1 && s.used >= limits.maxSeconds && !s.inflight;
  }

  /** Once a review has timed out, nothing any later event does changes the desk: no review is ever admitted again. */
  lemma {:induction false} NothingAfterTimeout(s: Desk, d: nat, events: seq<Event>, limits: Limits)
    requires Inv(s, limits) && d < |s.phases| && s.phases[d].Replied? && s.phases[d].timedOut
    ensures RunFrom(s, events, limits) == s
  {
    if events != [] {
      hide Inv, Step;
      NothingAfterTimeout(s, d, events[..|events| - 1], limits);
      StuckStep(s, d, events[|events| - 1], limits);
    }
  }

  /** The exact fate of the review in flight: its status, its charge, and what is left for the next one. */
  lemma SettlesIff(s: Desk, outcome: Outcome, now: real, returned: real, ended: real, limits: Limits)
    requires Inv(s, limits) && s.inflight
    ensures var n := |s.audit| - 1;
            var started, budget := s.phases[n].started, s.phases[n].budget;
            var t := Step(s, Resume(n, outcome, now, returned, ended), limits);
            var inTime := now < limits.deadline && returned - started < budget;
            var timedOut := outcome.TimedOut? || (outcome.Returned? && !inTime);
            && !t.inflight && |t.audit| == n + 1 && t.audit[..n] == s.audit[..n]
            && (t.audit[n].status == Completed <==> outcome.Returned? && inTime && Acceptable(outcome.decision))
            && (t.audit[n].status == CancelledUncertain <==> outcome.WasCancelled?)
            && t.audit[n].status != Reserved
            && t.audit[n].charged == (if timedOut then Max(Max(0.0, ended - started), budget) else Max(0.0, ended - started))
            && t.used == s.used + t.audit[n].charged
            && (timedOut ==> t.used >= limits.maxSeconds)
  {
    Aligned(s, limits);
    hide Charged, ReceiptsOk, Identified, Acceptable;
    assert s.phases[|s.audit| - 1].budget == limits.maxSeconds - s.used;
  }

  /** A receipt that has left `reserved` is never touched again. */
  lemma {:induction false} LeavesReservedOnce(s: Desk, events: seq<Event>, limits: Limits, d: nat)
    requires Inv(s, limits) && d < |s.audit| && s.audit[d].status != Reserved
    ensures var t := RunFrom(s, events, limits);
            Inv(t, limits) && d < |t.audit| && t.audit[d] == s.audit[d]
  {
    if events != [] {
      var front := events[..|events| - 1];
      LeavesReservedOnce(s, front, limits, d);
      StepKeeps(RunFrom(s, front, limits), events[|events| - 1], limits);
      ReceiptStep(RunFrom(s, front, limits), events[|events| - 1], limits, d);
    }
  }

  lemma ReceiptStep(s: Desk, e: Event, limits: Limits, d: nat)
    requires Inv(s, limits) && d < |s.audit| && s.audit[d].status != Reserved
    ensures var t := Step(s, e, limits);
            d < |t.audit| && t.audit[d] == s.audit[d]
  {
    hide Charged, Identified, ValidRequest, IdOf, VendorOf, Denied, Verdict;
    assert ReceiptOk(s.audit[d], s.phases[d], s.vendor);
  }

  // ----- every advice has its decision -----

  /** Event e ends review d, still in flight, with a decision the worker may follow. */
  predicate Advises(s: Desk, e: Event, d: nat, limits: Limits) {
    && e.Resume? && e.d == d && d + 1 == |s.audit| == |s.phases| && s.phases[d].InReview?
    && Answered(e.outcome, s.phases[d].started, s.phases[d].budget, e.now, e.returned, limits)
  }

  predicate Advised(s: Desk, d: nat) {
    d < |s.audit| && d < |s.phases| && s.phases[d].Replied? && s.phases[d].reply.Advice?
  }

  /** Review d was answered under its own id with the decision of event e. */
  predicate AdvisedBy(s: Desk, d: nat, e: Event) {
    && Advised(s, d) && e.Resume? && e.outcome.Returned?
    && s.phases[d].reply.requestId == s.audit[d].requestId && s.phases[d].reply.action == e.outcome.decision.action
    && s.phases[d].reply.text == if e.outcome.decision.action == Noop then None else e.outcome.decision.text
  }

  ghost predicate AdvisesAt(events: seq<Event>, i: nat, d: nat, limits: Limits) {
    i < |events| && Advises(RunFrom(IDLE, events[..i], limits), events[i], d, limits)
  }

  ghost predicate AdviceFrom(events: seq<Event>, s: Desk, d: nat, limits: Limits) {
    && (Advised(s, d) <==> exists i :: 0 <= i < |events| && AdvisesAt(events, i, d, limits))
    && (forall i | 0 <= i < |events| && AdvisesAt(events, i, d, limits) :: AdvisedBy(s, d, events[i]))
  }

  lemma AdviceStep(s: Desk, e: Event, d: nat, limits: Limits)
    requires Inv(s, limits)
    ensures var t := Step(s, e, limits);
            && (Advised(t, d) <==> Advised(s, d) || Advises(s, e, d, limits))
            && (Advises(s, e, d, limits) ==> AdvisedBy(t, d, e))
            && (Advised(s, d) ==> d < |t.audit| && d < |t.phases| && t.phases[d] == s.phases[d] && t.audit[d] == s.audit[d])
  {
    Aligned(s, limits);
    hide Step;
    match e {
      case Arrive(r, now, started, callable, ended) =>
        ArrivalKeepsPhases(s, r, now, started, callable, ended, limits);
      case Resume(n, outcome, now, returned, ended) =>
        if n + 1 == |s.audit| && s.phases[n].InReview? {
          hide Charged, ReceiptsOk, Identified, Instructive;
          AnswersIff(s, outcome, now, returned, ended, limits);
        } else {
          ResumeNothing(s, e, limits);
        }
    }
  }

  lemma ArrivalKeepsPhases(s: Desk, r: Request, now: real, started: real, callable: real, ended: real, limits: Limits)
    requires Inv(s, limits)
    ensures var (t, n) := (Step(s, Arrive(r, now, started, callable, ended), limits), |s.audit|);
            && |s.phases| == n <= |t.audit| == |t.phases| <= n + 1 && t.audit[..n] == s.audit && t.phases[..n] == s.phases
            && (|t.phases| == n + 1 ==> !Advised(t, n))
  {
    hide Step, Inv;
    Aligned(s, limits);
    if ValidRequest(r) {
      ArrivalIff(s, r, now, started, callable, ended, limits);
    } else {
      ArriveStep(s, r, now, started, callable, ended, limits);
    }
  }

  lemma ResumeNothing(s: Desk, e: Event, limits: Limits)
    requires e.Resume? && |s.audit| == |s.phases| && !(e.d + 1 == |s.audit| && s.phases[e.d].InReview?)
    ensures Step(s, e, limits) == s
  {
    hide Settled;
  }

  lemma EarlierAdvice(events: seq<Event>, e: Event, i: nat, d: nat, limits: Limits)
    requires i < |events|
    ensures AdvisesAt(events + [e], i, d, limits) <==> AdvisesAt(events, i, d, limits)
  {
    hide RunFrom, Advises;
    assert (events + [e])[..i] == events[..i];
  }

  lemma AdviceStays(s: Desk, t: Desk, d: nat, e: Event)
    requires AdvisedBy(s, d, e) && d < |t.audit| && d < |t.phases| && t.phases[d] == s.phases[d] && t.audit[d] == s.audit[d]
    ensures AdvisedBy(t, d, e)
  {
  }

  lemma AdviceExtends(events: seq<Event>, e: Event, s: Desk, t: Desk, d: nat, limits: Limits)
    requires AdviceFrom(events, s, d, limits)
    requires Advised(t, d) <==> Advised(s, d) || AdvisesAt(events + [e], |events|, d, limits)
    requires AdvisesAt(events + [e], |events|, d, limits) ==> AdvisedBy(t, d, e)
    requires Advised(s, d) ==>
               && d < |s.audit| && d < |s.phases| && d < |t.audit| && d < |t.phases|
               && t.phases[d] == s.phases[d] && t.audit[d] == s.audit[d]
    ensures AdviceFrom(events + [e], t, d, limits)
  {
    hide AdvisesAt, Advised, AdvisedBy;
    var all, n := events + [e], |events|;
    forall i | 0 <= i < n ensures AdvisesAt(all, i, d, limits) <==> AdvisesAt(events, i, d, limits) {
      EarlierAdvice(events, e, i, d, limits);
    }
    forall i | 0 <= i <= n && AdvisesAt(all, i, d, limits) ensures AdvisedBy(t, d, all[i]) {
      if i < n {
        assert AdvisesAt(events, i, d, limits);
        AdviceStays(s, t, d, events[i]);
      }
    }
    if Advised(s, d) {
      var i :| 0 <= i < n && AdvisesAt(events, i, d, limits);
      assert AdvisesAt(all, i, d, limits);
    }
  }

  /**
   * Over every run: a review is answered with advice exactly when some event ended it in time with a decision the worker
   * may follow, and the advice is that decision's action and text under the review's own id.
   */
  lemma {:induction false} AdviceTraced(events: seq<Event>, limits: Limits, d: nat)
    ensures AdviceFrom(events, RunFrom(IDLE, events, limits), d, limits)
  {
    hide Step, Inv, Advises, AdvisedBy;
    if events != [] {
      hide Advised;
      var n := |events| - 1;
      var front, e := events[..n], events[n];
      assert events == front + [e];
      RunKeeps(front, limits);
      AdviceStep(RunFrom(IDLE, front, limits), e, d, limits);
      AdviceTraced(front, limits, d);
      hide AdviceFrom;
      AdviceExtends(front, e, RunFrom(IDLE, front, limits), RunFrom(IDLE, events, limits), d, limits);
    }
  }

  // ----- a well-behaved worker -----

  /** One review of a worker that waits for each answer: its arrival, then however the callback ended. */
  datatype Exchange = Exchange(request: Request, now: real, started: real, callable: real, expired: real,
                               outcome: Outcome, later: real, returned: real, ended: real)

  function Exchanged(s: Desk, x: Exchange, limits: Limits): Desk {
    Step(Step(s, Arrive(x.request, x.now, x.started, x.callable, x.expired), limits),
         Resume(|s.audit|, x.outcome, x.later, x.returned, x.ended), limits)
  }

  function Session(xs: seq<Exchange>, limits: Limits): Desk {
    if xs == [] then IDLE else Exchanged(Session(xs[..|xs| - 1], limits), xs[|xs| - 1], limits)
  }

  /** Valid requests under one vendor session, no id twice. */
  ghost predicate WellBehaved(xs: seq<Exchange>, vendor: string) {
    && (forall i | 0 <= i < |xs| :: ValidRequest(xs[i].request) && VendorOf(xs[i].request) == vendor)
    && (forall i, j | 0 <= i < j < |xs| :: IdOf(xs[i].request) != IdOf(xs[j].request))
  }

  ghost predicate Between(s: Desk, xs: seq<Exchange>, vendor: string, limits: Limits)
    requires WellBehaved(xs, vendor)
  {
    && Inv(s, limits) && !s.inflight && |s.audit| <= |xs|
    && (s.vendor.Some? ==> s.vendor.value == vendor)
    && (forall id | id in s.ids :: exists i :: 0 <= i < |xs| && IdOf(xs[i].request) == id)
  }

  lemma ExchangedShape(s: Desk, x: Exchange, limits: Limits)
    requires Inv(s, limits) && !s.inflight && ValidRequest(x.request)
    ensures var t := Exchanged(s, x, limits);
            && Inv(t, limits) && !t.inflight && |s.audit| <= |t.audit| <= |s.audit| + 1
            && t.ids <= s.ids + {IdOf(x.request)} && (t.vendor == s.vendor || t.vendor == Some(VendorOf(x.request)))
  {
    hide Inv, ValidRequest, IdOf, VendorOf, Denied, Verdict;
    var e := Arrive(x.request, x.now, x.started, x.callable, x.expired);
    StepKeeps(s, e, limits);
    StepKeeps(Step(s, e, limits), Resume(|s.audit|, x.outcome, x.later, x.returned, x.ended), limits);
    Aligned(s, limits);
  }

  lemma {:induction false} SessionBetween(xs: seq<Exchange>, vendor: string, limits: Limits)
    requires WellBehaved(xs, vendor)
    ensures Between(Session(xs, limits), xs, vendor, limits)
  {
    if xs != [] {
      var front, x := xs[..|xs| - 1], xs[|xs| - 1];
      SessionBetween(front, vendor, limits);
      hide Inv, ValidRequest, IdOf, VendorOf, Exchanged;
      ExchangedShape(Session(front, limits), x, limits);
      var t := Session(xs, limits);
      forall id | id in t.ids ensures exists i :: 0 <= i < |xs| && IdOf(xs[i].request) == id {
        if id == IdOf(x.request) {
          assert IdOf(xs[|xs| - 1].request) == id;
        } else {
          assert id in Session(front, limits).ids;
          var i :| 0 <= i < |front| && IdOf(front[i].request) == id;
          assert IdOf(xs[i].request) == id;
        }
      }
    }
  }

  /**
   * A worker that makes no more than maxReviews well-behaved reviews, one after another, is only ever
   * refused for the time left: never as a duplicate, across sessions, as in progress, or for the review budget.
   */
  lemma SequentialNeverRefused(xs: seq<Exchange>, x: Exchange, vendor: string, limits: Limits)
    requires limits.reviewing && |xs| < limits.maxReviews && ValidRequest(x.request) && WellBehaved(xs + [x], vendor)
    ensures var s := Session(xs, limits);
            Denied(s.ids, s.vendor, s.inflight, s.used, IdOf(x.request), VendorOf(x.request), x.now, limits)
            == if s.used >= limits.maxSeconds then Some(ReviewTimeBudgetExhausted)
               else if x.now >= limits.deadline then Some(DeadlineExpired) else None
  {
    hide ValidRequest, IdOf, VendorOf, Session, TimeOk, ReceiptsOk;
    var all := xs + [x];
    assert all[|xs|] == x;
    assert WellBehaved(xs, vendor) by {
      assert forall i | 0 <= i < |xs| :: all[i] == xs[i];
    }
    SessionBetween(xs, vendor, limits);
    var s := Session(xs, limits);
    forall i | 0 <= i < |xs| ensures IdOf(xs[i].request) != IdOf(x.request) {
      assert all[i] == xs[i];
    }
  }
}
