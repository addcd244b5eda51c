/** The append-only, hash-chained result log of one run (benchmarks/runner.py). */
module ResultLog {
  import opened Common
  import opened ExperimentPlan

  const MAX_RESULT_RECORDS: nat := 100
  const MAX_RESULT_RECORD_BYTES: nat := 1024 * 1024
  const MAX_RESULT_BYTES: nat := 16 * 1024 * 1024

  /** A JSON field read as `is True`, as merely truthy, or as missing or falsy. */
  datatype Flag = IsTrue | Truthy | Falsy

  datatype Status = Completed | Aborted | OtherStatus

  datatype Fingerprints = Fingerprints(manifest: string, evaluator: string, packages: string,
                                       controller: string, benchmark: string)

  /** Every field of a record but its two chain fields. */
  datatype Fields = Fields(runId: string, arm: Arm, task: string, live: Flag, nonPresentation: Flag,
                           abort: bool, status: Status, scheduleIndex: nat,
                           prints: Fingerprints, body: string)

  /** A chain field: null or empty, the digest of a payload, or text that is no such digest. */
  datatype Link = Absent | Sha(fields: Fields, previous: Link) | Text(raw: string)

  datatype Row = Row(fields: Fields, previous: Link, digest: Link)

  /** record_sha256: everything but the digest field itself. */
  function RecordSha(row: Row): Link {
    Sha(row.fields, row.previous)
  }

  /** What the next record must carry as its previous digest. */
  function Carried(digest: Link): Link {
    if digest == Text("") then Absent else digest
  }

  function Head(rows: seq<Row>): Link {
    if rows == [] then Absent else Carried(rows[|rows| - 1].digest)
  }

  datatype ChainError = BreaksChain(index: nat) | InvalidFingerprint(index: nat)

  ghost predicate Faulty(rows: seq<Row>, e: ChainError) {
    && e.index < |rows|
    && match e {
         case BreaksChain(i) => rows[i].previous != Head(rows[..i])
         case InvalidFingerprint(i) => rows[i].digest != RecordSha(rows[i])
       }
  }

  ghost predicate ValidChain(rows: seq<Row>) {
    forall i | 0 <= i < |rows| ::
      rows[i].previous == Head(rows[..i]) && rows[i].digest == RecordSha(rows[i])
  }

  /** verify_result_chain reports exactly the faulty positions. */
  method VerifyResultChain(rows: seq<Row>) returns (errors: seq<ChainError>)
    ensures forall e :: e in errors <==> Faulty(rows, e)
    ensures errors == [] <==> ValidChain(rows)
  {
    errors := [];
    var previous := Absent;
    for i := 0 to |rows|
      invariant previous == Head(rows[..i])
      invariant forall e :: e in errors <==> e.index < i && Faulty(rows, e)
    {
      if rows[i].previous != previous {
        errors := errors + [BreaksChain(i)];
      }
      if rows[i].digest != RecordSha(rows[i]) {
        errors := errors + [InvalidFingerprint(i)];
      }
      previous := Carried(rows[i].digest);
      assert rows[..i + 1][|rows[..i + 1]| - 1] == rows[i];
    }
    if errors == [] {
      forall i | 0 <= i < |rows|
        ensures rows[i].previous == Head(rows[..i]) && rows[i].digest == RecordSha(rows[i])
      {
        assert !Faulty(rows, BreaksChain(i)) && !Faulty(rows, InvalidFingerprint(i));
      }
    } else {
      assert Faulty(rows, errors[0]);
    }
  }

  /** The head digest fixes the whole history: no edit, removal, insertion or reordering survives. */
  lemma {:induction false} HeadFixesHistory(a: seq<Row>, b: seq<Row>)
    requires ValidChain(a) && ValidChain(b)
    requires Head(a) == Head(b)
    ensures a == b
  {
    hide ValidChain, Head;
    if a == [] || b == [] {
      EmptyHead(a, b);
    } else {
      var n, m := |a| - 1, |b| - 1;
      SameLast(a, b);
      PrefixValid(a, n);
      PrefixValid(b, m);
      HeadFixesHistory(a[..n], b[..m]);
      assert a == a[..n] + [a[n]] && b == b[..m] + [b[m]];
    }
  }

  lemma EmptyHead(a: seq<Row>, b: seq<Row>)
    requires ValidChain(a) && ValidChain(b) && Head(a) == Head(b) && (a == [] || b == [])
    ensures a == b
  {
    assert a != [] ==> Head(a) == RecordSha(a[|a| - 1]);
    assert b != [] ==> Head(b) == RecordSha(b[|b| - 1]);
  }

  lemma SameLast(a: seq<Row>, b: seq<Row>)
    requires ValidChain(a) && ValidChain(b) && Head(a) == Head(b) && a != [] && b != []
    ensures a[|a| - 1] == b[|b| - 1] && Head(a[..|a| - 1]) == Head(b[..|b| - 1])
  {
    var n, m := |a| - 1, |b| - 1;
    assert a[n].digest == RecordSha(a[n]) && a[n].previous == Head(a[..n]);
    assert b[m].digest == RecordSha(b[m]) && b[m].previous == Head(b[..m]);
  }

  lemma PrefixValid(rows: seq<Row>, n: nat)
    requires ValidChain(rows) && n <= |rows|
    ensures ValidChain(rows[..n])
  {
    assert forall i | 0 <= i < n :: rows[..n][..i] == rows[..i];
  }

  /** A digest seen anywhere in a valid log pins the records up to it. */
  lemma MiddleFixesPrefix(a: seq<Row>, b: seq<Row>, k: nat)
    requires ValidChain(a) && ValidChain(b)
    requires k < |b| && a != [] && a[|a| - 1].digest == b[k].digest
    ensures a == b[..k + 1]
  {
    PrefixValid(b, k + 1);
    HeadFixesHistory(a, b[..k + 1]);
  }

  // ----- admission -----

  /** A caller's record: whether it has a success field, and whether the long field checklist passes. */
  datatype Submission = Submission(fields: Fields, hasSuccess: bool, checklist: bool)

  datatype ManifestView = ManifestView(frozen: bool, fingerprint: string)

  datatype Refusal =
    | Frozen | RunMismatch | NoSuccess | PresentationNotLive | Checklist | ManifestChanged
    | Unreadable | BrokenChain | Duplicate | AlreadyAborted | MixedRun | StaleFingerprints
    | OffSchedule | RunComplete | WrongEntry | TooLarge

  predicate Live(f: Fields) {
    f.arm.Arm? && f.live != Falsy
  }

  /** A row every other row of a presentation run must look like. */
  predicate LiveRow(f: Fields, runId: string) {
    f.arm.Arm? && f.live == IsTrue && f.nonPresentation != IsTrue && f.status == Completed && f.runId == runId
  }

  predicate Names(f: Fields, e: Entry) {
    f.task == e.task && f.arm == e.arm
  }

  predicate Scheduled(f: Fields, plan: seq<Entry>) {
    exists i | 0 <= i < |plan| :: Names(f, plan[i]) && f.scheduleIndex == plan[i].scheduleIndex
  }

  /** The checks append_immutable makes on the record alone. */
  predicate Submittable(sub: Submission, runId: string, prints: Fingerprints, plan: seq<Entry>) {
    var f := sub.fields;
    && f.runId == runId
    && sub.hasSuccess
    && (f.arm.Arm? && f.live == Falsy ==> f.nonPresentation != Falsy)
    && (Live(f) ==>
          && sub.checklist && f.nonPresentation != IsTrue && f.status == Completed
          && f.prints == prints && Scheduled(f, plan))
  }

  ghost predicate PlanPrefix(rows: seq<Row>, plan: seq<Entry>) {
    && |rows| <= |plan|
    && forall i | 0 <= i < |rows| ::
         Names(rows[i].fields, plan[i]) && rows[i].fields.scheduleIndex == plan[i].scheduleIndex
  }

  ghost predicate AllLive(rows: seq<Row>, runId: string) {
    forall i | 0 <= i < |rows| :: LiveRow(rows[i].fields, runId)
  }

  ghost predicate NoAbort(rows: seq<Row>) {
    forall i | 0 <= i < |rows| :: !rows[i].fields.abort
  }

  ghost predicate SamePrints(rows: seq<Row>, prints: Fingerprints) {
    forall i | 0 <= i < |rows| :: rows[i].fields.prints == prints
  }

  ghost predicate Fresh(rows: seq<Row>, f: Fields) {
    forall i | 0 <= i < |rows| :: rows[i].fields.arm != f.arm || rows[i].fields.task != f.task
  }

  /** What append_immutable demands of the log it finds under the locks. */
  ghost predicate RowFits(rows: seq<Row>, runId: string, f: Fields, prints: Fingerprints, plan: seq<Entry>) {
    && |rows| <= MAX_RESULT_RECORDS
    && ValidChain(rows)
    && Fresh(rows, f)
    && (Live(f) ==>
          && NoAbort(rows) && AllLive(rows, runId) && SamePrints(rows, prints) && PlanPrefix(rows, plan)
          && |rows| < |plan| && Names(f, plan[|rows|]))
  }

  /** assert_next_scheduled, read without any lock. */
  ghost predicate NextScheduled(rows: seq<Row>, runId: string, task: string, arm: Arm,
                                prints: Fingerprints, plan: seq<Entry>) {
    && |rows| <= MAX_RESULT_RECORDS
    && ValidChain(rows) && NoAbort(rows) && AllLive(rows, runId) && SamePrints(rows, prints)
    && PlanPrefix(rows, plan) && |rows| < |plan|
    && plan[|rows|].task == task && plan[|rows|].arm == arm
  }

  /** What append_abort demands under the locks; it does not compare the prefix again. */
  ghost predicate AbortFits(rows: seq<Row>, runId: string, task: string, arm: Arm,
                            prints: Fingerprints, plan: seq<Entry>) {
    && |rows| <= MAX_RESULT_RECORDS
    && ValidChain(rows) && NoAbort(rows) && AllLive(rows, runId) && SamePrints(rows, prints)
    && |rows| < |plan| && plan[|rows|].task == task && plan[|rows|].arm == arm
    && (forall i | 0 <= i < |rows| :: rows[i].fields.arm != arm || rows[i].fields.task != task)
  }

  function AbortFields(runId: string, task: string, arm: Arm, index: nat, prints: Fingerprints, body: string): Fields {
    Fields(runId, arm, task, Falsy, Falsy, true, Aborted, index, prints, body)
  }

  /** The record as committed: linked to the last digest and fingerprinted. */
  function Chained(rows: seq<Row>, f: Fields): Row {
    var previous := if rows == [] then Absent else rows[|rows| - 1].digest;
    Row(f, previous, Sha(f, previous))
  }

  predicate FitsFile(bytes: nat, lineBytes: nat) {
    lineBytes <= MAX_RESULT_RECORD_BYTES && bytes + lineBytes + 1 <= MAX_RESULT_BYTES
  }

  class ResultFile {
    const runId: string
    var rows: seq<Row>
    var bytes: nat

    constructor (runId: string)
      ensures this.runId == runId && rows == [] && bytes == 0
    {
      this.runId := runId;
      rows, bytes := [], 0;
    }

    /** append_immutable, with the manifest as it reads before and under the locks. */
    method AppendImmutable(sub: Submission, before: ManifestView, locked: ManifestView,
                           prints: Fingerprints, plan: seq<Entry>, lineBytes: nat)
        returns (refused: Option<Refusal>)
      requires prints.manifest == before.fingerprint
      modifies this`rows, this`bytes
      ensures refused.None? <==>
                && !before.frozen && !locked.frozen && locked.fingerprint == before.fingerprint
                && Submittable(sub, runId, prints, plan)
                && RowFits(old(rows), runId, sub.fields, prints, plan)
                && lineBytes <= 1_048_576 && old(bytes) + lineBytes < 16_777_216
      ensures refused.None? ==> rows == old(rows) + [Chained(old(rows), sub.fields)]
                                && bytes == old(bytes) + lineBytes + 1
      ensures refused.Some? ==> rows == old(rows) && bytes == old(bytes)
    {
      var f := sub.fields;
      if before.frozen { return Some(Frozen); }
      if f.runId != runId { return Some(RunMismatch); }
      if !sub.hasSuccess { return Some(NoSuccess); }
      if f.arm.Arm? && f.live == Falsy && f.nonPresentation == Falsy { return Some(PresentationNotLive); }
      if Live(f) {
        if !sub.checklist || f.nonPresentation == IsTrue || f.status != Completed || f.prints != prints {
          return Some(Checklist);
        }
        if !Scheduled(f, plan) { return Some(OffSchedule); }
      }
      if locked.frozen { return Some(Frozen); }
      if locked.fingerprint != before.fingerprint { return Some(ManifestChanged); }
      if |rows| > MAX_RESULT_RECORDS { return Some(Unreadable); }
      var errors := VerifyResultChain(rows);
      if errors != [] { return Some(BrokenChain); }
      for i := 0 to |rows|
        invariant rows == old(rows) && bytes == old(bytes)
        invariant forall j | 0 <= j < i :: rows[j].fields.arm != f.arm || rows[j].fields.task != f.task
      {
        if rows[i].fields.arm == f.arm && rows[i].fields.task == f.task { return Some(Duplicate); }
      }
      if Live(f) {
        refused := PrefixRefusal(prints, plan);
        if refused.Some? { return; }
        if plan[|rows|].task != f.task || plan[|rows|].arm != f.arm { return Some(WrongEntry); }
      }
      if !FitsFile(bytes, lineBytes) { return Some(TooLarge); }
      rows := rows + [Chained(rows, f)];
      bytes := bytes + lineBytes + 1;
      return None;
    }

    /** The presentation checks shared by assert_next_scheduled and append_immutable. */
    method PrefixRefusal(prints: Fingerprints, plan: seq<Entry>) returns (refused: Option<Refusal>)
      ensures refused.None? <==>
                && NoAbort(rows) && AllLive(rows, runId) && SamePrints(rows, prints)
                && PlanPrefix(rows, plan) && |rows| < |plan|
    {
      for i := 0 to |rows|
        invariant NoAbort(rows[..i]) && AllLive(rows[..i], runId)
      {
        if rows[i].fields.abort {
          assert !NoAbort(rows);
          return Some(AlreadyAborted);
        }
        if !LiveRow(rows[i].fields, runId) {
          assert !AllLive(rows, runId);
          return Some(MixedRun);
        }
      }
      for i := 0 to |rows|
        invariant SamePrints(rows[..i], prints)
      {
        if rows[i].fields.prints != prints {
          assert !SamePrints(rows, prints);
          return Some(StaleFingerprints);
        }
      }
      assert rows[..|rows|] == rows;
      if |rows| > |plan| { return Some(OffSchedule); }
      for i := 0 to |rows|
        invariant PlanPrefix(rows[..i], plan)
      {
        if !Names(rows[i].fields, plan[i]) || rows[i].fields.scheduleIndex != plan[i].scheduleIndex {
          assert !PlanPrefix(rows, plan);
          return Some(OffSchedule);
        }
      }
      if |rows| >= |plan| { return Some(RunComplete); }
      return None;
    }

    /** assert_next_scheduled followed by append_abort's locked part, with no writer in between. */
    method AppendAbort(task: string, arm: Arm, body: string, before: ManifestView, locked: ManifestView,
                       prints: Fingerprints, plan: seq<Entry>, lineBytes: nat)
        returns (refused: Option<Refusal>)
      requires prints.manifest == before.fingerprint
      modifies this`rows, this`bytes
      ensures refused.None? <==>
                && !before.frozen && !locked.frozen && locked.fingerprint == before.fingerprint
                && NextScheduled(old(rows), runId, task, arm, prints, plan)
                && AbortFits(old(rows), runId, task, arm, prints, plan)
                && lineBytes <= 1_048_576 && old(bytes) + lineBytes < 16_777_216
      ensures refused.None? ==>
                var f := AbortFields(runId, task, arm, plan[|old(rows)|].scheduleIndex, prints, body);
                rows == old(rows) + [Chained(old(rows), f)] && bytes == old(bytes) + lineBytes + 1
      ensures refused.Some? ==> rows == old(rows) && bytes == old(bytes)
    {
      if before.frozen { return Some(Frozen); }
      if |rows| > MAX_RESULT_RECORDS { return Some(Unreadable); }
      var errors := VerifyResultChain(rows);
      if errors != [] { return Some(BrokenChain); }
      refused := PrefixRefusal(prints, plan);
      if refused.Some? { return; }
      if plan[|rows|].task != task || plan[|rows|].arm != arm { return Some(WrongEntry); }
      var f := AbortFields(runId, task, arm, plan[|rows|].scheduleIndex, prints, body);
      if locked.frozen { return Some(Frozen); }
      if locked.fingerprint != before.fingerprint { return Some(ManifestChanged); }
      for i := 0 to |rows|
        invariant rows == old(rows) && bytes == old(bytes)
        invariant forall j | 0 <= j < i :: rows[j].fields.arm != arm || rows[j].fields.task != task
      {
        if rows[i].fields.arm == arm && rows[i].fields.task == task { return Some(Duplicate); }
      }
      if !FitsFile(bytes, lineBytes) { return Some(TooLarge); }
      rows := rows + [Chained(rows, f)];
      bytes := bytes + lineBytes + 1;
      return None;
    }
  }

  // ----- what every sequence of appends keeps -----

  /** One call, with the fingerprints the controller computes at that moment. */
  datatype Op =
    | RowOp(sub: Submission, prints: Fingerprints)
    | AbortOp(task: string, arm: Arm, body: string, prints: Fingerprints)

  /** The plan is fixed by the manifest its digest names. */
  type PlanOfManifest = string -> seq<Entry>

  ghost predicate Accepted(rows: seq<Row>, runId: string, op: Op, planOf: PlanOfManifest) {
    var plan := planOf(op.prints.manifest);
    match op {
      case RowOp(sub, prints) =>
        Submittable(sub, runId, prints, plan) && RowFits(rows, runId, sub.fields, prints, plan)
      case AbortOp(task, arm, _, prints) =>
        AbortFits(rows, runId, task, arm, prints, plan)
    }
  }

  ghost function Committed(rows: seq<Row>, runId: string, op: Op, planOf: PlanOfManifest): Fields
    requires Accepted(rows, runId, op, planOf)
  {
    match op {
      case RowOp(sub, _) => sub.fields
      case AbortOp(task, arm, body, prints) =>
        AbortFields(runId, task, arm, planOf(prints.manifest)[|rows|].scheduleIndex, prints, body)
    }
  }

  ghost function Step(rows: seq<Row>, runId: string, op: Op, planOf: PlanOfManifest): seq<Row> {
    if Accepted(rows, runId, op, planOf) then rows + [Chained(rows, Committed(rows, runId, op, planOf))] else rows
  }

  ghost function Run(ops: seq<Op>, runId: string, planOf: PlanOfManifest): seq<Row> {
    if ops == [] then [] else Step(Run(ops[..|ops| - 1], runId, planOf), runId, ops[|ops| - 1], planOf)
  }

  /** One more than the position of the last live row. */
  ghost function LiveEnd(rows: seq<Row>): (k: nat)
    ensures k <= |rows|
    ensures forall i | k <= i < |rows| :: !Live(rows[i].fields)
    ensures k > 0 ==> Live(rows[k - 1].fields)
  {
    if rows == [] then 0
    else if Live(rows[|rows| - 1].fields) then |rows|
    else LiveEnd(rows[..|rows| - 1])
  }

  ghost predicate LiveRowsFollowPlan(rows: seq<Row>, k: nat, runId: string, planOf: PlanOfManifest)
    requires k <= |rows|
  {
    forall i | 0 <= i < k ::
      && Live(rows[i].fields) && rows[i].fields.runId == runId
      && rows[i].fields.prints == rows[0].fields.prints
      && !rows[i].fields.nonPresentation.IsTrue? && rows[i].fields.status.Completed?
      && NamesNext(rows[i].fields, i, planOf) && Scheduled(rows[i].fields, planOf(rows[i].fields.prints.manifest))
  }

  /** No pair of task and arm stands twice in the plan. */
  ghost predicate PlanDistinct(plan: seq<Entry>) {
    forall i, j | 0 <= i < j < |plan| :: plan[i].task != plan[j].task || plan[i].arm != plan[j].arm
  }

  ghost predicate NothingLiveAfterAbort(rows: seq<Row>) {
    forall i, j | 0 <= i < j < |rows| && rows[i].fields.abort :: !Live(rows[j].fields)
  }

  ghost predicate PairsUnique(rows: seq<Row>) {
    forall i, j | 0 <= i < j < |rows| ::
      rows[i].fields.arm != rows[j].fields.arm || rows[i].fields.task != rows[j].fields.task
  }

  /** f names the i-th entry of the plan of its own manifest. */
  ghost predicate NamesNext(f: Fields, i: nat, planOf: PlanOfManifest) {
    var plan := planOf(f.prints.manifest);
    i < |plan| && Names(f, plan[i])
  }

  /** The live rows come first and follow one manifest's plan; none follows an abort; no pair repeats. */
  ghost predicate Orderly(rows: seq<Row>, runId: string, planOf: PlanOfManifest) {
    && ValidChain(rows)
    && LiveRowsFollowPlan(rows, LiveEnd(rows), runId, planOf)
    && NothingLiveAfterAbort(rows)
    && PairsUnique(rows)
  }

  lemma ChainExtends(rows: seq<Row>, f: Fields)
    requires ValidChain(rows)
    ensures ValidChain(rows + [Chained(rows, f)])
  {
    var next := rows + [Chained(rows, f)];
    forall i | 0 <= i < |next|
      ensures next[i].previous == Head(next[..i]) && next[i].digest == RecordSha(next[i])
    {
      assert next[..i] == rows[..i];
      if i == |rows| { assert rows[..i] == rows; }
    }
  }

  lemma LiveEndExtends(rows: seq<Row>, row: Row)
    ensures LiveEnd(rows + [row]) == if Live(row.fields) then |rows| + 1 else LiveEnd(rows)
  {
    assert (rows + [row])[..|rows|] == rows;
  }

  lemma LiveStep(rows: seq<Row>, runId: string, op: Op, planOf: PlanOfManifest)
    requires LiveRowsFollowPlan(rows, LiveEnd(rows), runId, planOf)
    requires Accepted(rows, runId, op, planOf) && Live(Committed(rows, runId, op, planOf))
    ensures var next := Step(rows, runId, op, planOf);
            LiveEnd(next) == |next| && LiveRowsFollowPlan(next, |next|, runId, planOf) && NothingLiveAfterAbort(next)
  {
    var f := Committed(rows, runId, op, planOf);
    var next := Step(rows, runId, op, planOf);
    LiveEndExtends(rows, Chained(rows, f));
    if |rows| > 0 {
      assert LiveRow(rows[|rows| - 1].fields, runId);
    }
    forall i | 0 <= i < |next|
      ensures && Live(next[i].fields) && next[i].fields.runId == runId
              && next[i].fields.prints == next[0].fields.prints && NamesNext(next[i].fields, i, planOf)
              && !next[i].fields.nonPresentation.IsTrue? && next[i].fields.status.Completed?
              && Scheduled(next[i].fields, planOf(next[i].fields.prints.manifest))
    {
      if i < |rows| { assert next[i] == rows[i]; }
    }
  }

  /** A row that is not live leaves the live prefix, its order and its end as they were. */
  lemma OtherStep(rows: seq<Row>, row: Row, runId: string, planOf: PlanOfManifest)
    requires LiveRowsFollowPlan(rows, LiveEnd(rows), runId, planOf) && NothingLiveAfterAbort(rows)
    requires !Live(row.fields)
    ensures LiveRowsFollowPlan(rows + [row], LiveEnd(rows + [row]), runId, planOf)
    ensures NothingLiveAfterAbort(rows + [row])
  {
    hide NamesNext;
    LiveEndExtends(rows, row);
  }

  lemma FreshKeepsUnique(rows: seq<Row>, row: Row)
    requires PairsUnique(rows) && Fresh(rows, row.fields)
    ensures PairsUnique(rows + [row])
  {
  }

  lemma AcceptedIsFresh(rows: seq<Row>, runId: string, op: Op, planOf: PlanOfManifest)
    requires Accepted(rows, runId, op, planOf)
    ensures ValidChain(rows) && Fresh(rows, Committed(rows, runId, op, planOf))
  {
  }

  lemma StepOrderly(rows: seq<Row>, runId: string, op: Op, planOf: PlanOfManifest)
    requires Orderly(rows, runId, planOf)
    ensures Orderly(Step(rows, runId, op, planOf), runId, planOf)
  {
    if Accepted(rows, runId, op, planOf) {
      hide Accepted, ValidChain, LiveRowsFollowPlan, NothingLiveAfterAbort, PairsUnique, Fresh, Committed, LiveEnd;
      var f := Committed(rows, runId, op, planOf);
      AcceptedIsFresh(rows, runId, op, planOf);
      ChainExtends(rows, f);
      FreshKeepsUnique(rows, Chained(rows, f));
      if Live(f) {
        LiveStep(rows, runId, op, planOf);
      } else {
        OtherStep(rows, Chained(rows, f), runId, planOf);
      }
    }
  }

  /** In a plan without repetition, a live row carries the index of the entry it stands for. */
  lemma LiveRowsIndexed(rows: seq<Row>, runId: string, planOf: PlanOfManifest)
    requires Orderly(rows, runId, planOf)
    ensures forall i | 0 <= i < LiveEnd(rows) ::
              var plan := planOf(rows[0].fields.prints.manifest);
              i < |plan| && Names(rows[i].fields, plan[i])
              && (PlanDistinct(plan) ==> rows[i].fields.scheduleIndex == plan[i].scheduleIndex)
  {
    hide ValidChain, NothingLiveAfterAbort, PairsUnique, LiveEnd, PlanDistinct, Names, Scheduled, Live;
    forall i | 0 <= i < LiveEnd(rows)
      ensures var plan := planOf(rows[0].fields.prints.manifest);
              i < |plan| && Names(rows[i].fields, plan[i])
              && (PlanDistinct(plan) ==> rows[i].fields.scheduleIndex == plan[i].scheduleIndex)
    {
      var plan := planOf(rows[0].fields.prints.manifest);
      assert rows[i].fields.prints == rows[0].fields.prints && NamesNext(rows[i].fields, i, planOf);
      if PlanDistinct(plan) { IndexOfEntry(rows[i].fields, i, plan); }
    }
  }

  lemma IndexOfEntry(f: Fields, i: nat, plan: seq<Entry>)
    requires PlanDistinct(plan) && i < |plan| && Names(f, plan[i]) && Scheduled(f, plan)
    ensures f.scheduleIndex == plan[i].scheduleIndex
  {
    var j :| 0 <= j < |plan| && Names(f, plan[j]) && f.scheduleIndex == plan[j].scheduleIndex;
  }

  /** The plan of the canonical suite has no repetition, under any seed. */
  lemma CanonicalPlanDistinct(seed: Seed)
    ensures PlanDistinct(PlanOf(ALL_TASK_IDS, seed))
  {
    CanonicalTasksDistinct();
    forall i, j | 0 <= i < j < |PlanOf(ALL_TASK_IDS, seed)|
      ensures var p := PlanOf(ALL_TASK_IDS, seed); p[i].task != p[j].task || p[i].arm != p[j].arm
    {
      PlanEntriesDistinct(ALL_TASK_IDS, seed, i, j);
    }
  }

  /** For every sequence of append_immutable and append_abort calls the log stays orderly. */
  lemma {:induction false} RunOrderly(ops: seq<Op>, runId: string, planOf: PlanOfManifest)
    ensures Orderly(Run(ops, runId, planOf), runId, planOf)
    ensures var rows := Run(ops, runId, planOf);
            forall i | 0 <= i < LiveEnd(rows) ::
              var plan := planOf(rows[0].fields.prints.manifest);
              i < |plan| && Names(rows[i].fields, plan[i])
              && (PlanDistinct(plan) ==> rows[i].fields.scheduleIndex == plan[i].scheduleIndex)
  {
    hide Step, Orderly, LiveEnd, PlanDistinct, Names;
    OrderlyRun(ops, runId, planOf);
    LiveRowsIndexed(Run(ops, runId, planOf), runId, planOf);
  }

  lemma {:induction false} OrderlyRun(ops: seq<Op>, runId: string, planOf: PlanOfManifest)
    ensures Orderly(Run(ops, runId, planOf), runId, planOf)
  {
    if ops != [] {
      OrderlyRun(ops[..|ops| - 1], runId, planOf);
      StepOrderly(Run(ops[..|ops| - 1], runId, planOf), runId, ops[|ops| - 1], planOf);
    }
  }

  // ----- exactly what is accepted -----

  /** An empty digest is carried on like a missing one. */
  lemma HeadCarries(rows: seq<Row>, row: Row)
    ensures Head(rows + [row]) == match row.digest {
              case Absent => Absent
              case Text(raw) => if |raw| == 0 then Absent else Text(raw)
              case Sha(fields, previous) => Sha(fields, previous)
            }
  {
    assert (rows + [row])[|rows|] == row;
  }

  /** A log in which every record is a completed live row of this run under these fingerprints, in plan order. */
  ghost predicate Presentable(rows: seq<Row>, runId: string, prints: Fingerprints, plan: seq<Entry>) {
    && |rows| < |plan|
    && forall i | 0 <= i < |rows| ::
         var f := rows[i].fields;
         && f.task == plan[i].task && f.arm == plan[i].arm && f.scheduleIndex == plan[i].scheduleIndex
         && f.arm.Arm? && f.live.IsTrue? && !f.nonPresentation.IsTrue? && f.status.Completed? && !f.abort
         && f.runId == runId && f.prints == prints
  }

  /** No record of the log has this arm and task. */
  ghost predicate NewPair(rows: seq<Row>, arm: Arm, task: string) {
    forall i | 0 <= i < |rows| :: !(rows[i].fields.arm == arm && rows[i].fields.task == task)
  }

  /**
   * Exactly the rows that are accepted. Outside a live run: a record of this run with a success field, flagged as no
   * presentation when its arm is one. In a live run: a completed record that passes the checklist under current
   * fingerprints, with an index of its pair, on a presentable log of which it is the next entry. Either way it is new,
   * the log is at most a hundred records long, and its chain is whole.
   */
  lemma RowAcceptedIff(rows: seq<Row>, runId: string, sub: Submission, prints: Fingerprints, planOf: PlanOfManifest)
    ensures var (f, plan) := (sub.fields, planOf(prints.manifest));
            var live := f.arm.Arm? && (f.live.IsTrue? || f.live.Truthy?);
            Accepted(rows, runId, RowOp(sub, prints), planOf) <==>
              && f.runId == runId && sub.hasSuccess && |rows| <= 100 && NewPair(rows, f.arm, f.task)
              && (forall i | 0 <= i < |rows| :: rows[i].previous == Head(rows[..i]) && rows[i].digest == Sha(rows[i].fields, rows[i].previous))
              && (!live && f.arm.Arm? ==> f.nonPresentation.IsTrue? || f.nonPresentation.Truthy?)
              && (live ==>
                    && sub.checklist && !f.nonPresentation.IsTrue? && f.status.Completed? && f.prints == prints
                    && (exists i :: 0 <= i < |plan| && plan[i].task == f.task && plan[i].arm == f.arm && plan[i].scheduleIndex == f.scheduleIndex)
                    && Presentable(rows, runId, prints, plan)
                    && plan[|rows|].task == f.task && plan[|rows|].arm == f.arm)
  {
    hide Head;
    PresentableIff(rows, runId, prints, planOf(prints.manifest));
    var plan := planOf(prints.manifest);
    assert Scheduled(sub.fields, plan) <==>
      exists i :: 0 <= i < |plan| && plan[i].task == sub.fields.task && plan[i].arm == sub.fields.arm
                  && plan[i].scheduleIndex == sub.fields.scheduleIndex;
    hide Presentable, AllLive, NoAbort, SamePrints, PlanPrefix, Scheduled;
  }

  lemma PresentableIff(rows: seq<Row>, runId: string, prints: Fingerprints, plan: seq<Entry>)
    ensures Presentable(rows, runId, prints, plan) <==>
              |rows| < |plan| && NoAbort(rows) && AllLive(rows, runId) && SamePrints(rows, prints) && PlanPrefix(rows, plan)
  {
  }

  /** Exactly the aborts that are accepted: of the next entry of a presentable log with a whole chain. */
  lemma AbortAcceptedIff(rows: seq<Row>, runId: string, task: string, arm: Arm, prints: Fingerprints, plan: seq<Entry>)
    ensures NextScheduled(rows, runId, task, arm, prints, plan) && AbortFits(rows, runId, task, arm, prints, plan) <==>
              && |rows| <= 100 && Presentable(rows, runId, prints, plan)
              && (forall i | 0 <= i < |rows| :: rows[i].previous == Head(rows[..i]) && rows[i].digest == Sha(rows[i].fields, rows[i].previous))
              && plan[|rows|].task == task && plan[|rows|].arm == arm && NewPair(rows, arm, task)
  {
    hide Head;
    PresentableIff(rows, runId, prints, plan);
    hide Presentable, AllLive, NoAbort, SamePrints, PlanPrefix;
  }

  /** An accepted record is linked to the last digest, or to nothing, and carries the digest of its own fields and link. */
  lemma CommittedLinks(rows: seq<Row>, runId: string, op: Op, planOf: PlanOfManifest)
    requires Accepted(rows, runId, op, planOf)
    ensures var (next, n) := (Step(rows, runId, op, planOf), |rows|);
            && |next| == n + 1 && next[..n] == rows
            && next[n].previous == (if n == 0 then Absent else rows[n - 1].digest)
            && next[n].digest == Sha(next[n].fields, next[n].previous)
            && (op.RowOp? ==> next[n].fields == op.sub.fields)
            && (op.AbortOp? ==>
                  && next[n].fields.abort && next[n].fields.status.Aborted? && next[n].fields.live.Falsy? && next[n].fields.nonPresentation.Falsy?
                  && next[n].fields.runId == runId && next[n].fields.task == op.task && next[n].fields.arm == op.arm
                  && next[n].fields.prints == op.prints && next[n].fields.body == op.body
                  && n < |planOf(op.prints.manifest)| && next[n].fields.scheduleIndex == planOf(op.prints.manifest)[n].scheduleIndex)
  {
    hide ValidChain, AllLive, NoAbort, SamePrints, PlanPrefix, Scheduled, Fresh;
  }

  // ----- a run can be carried to its end -----

  /** The record of plan entry k, as the controller submits it. */
  function RowFor(plan: seq<Entry>, k: nat, runId: string, prints: Fingerprints): Op
    requires k < |plan|
  {
    RowOp(Submission(Fields(runId, plan[k].arm, plan[k].task, IsTrue, Falsy, false, Completed, plan[k].scheduleIndex, prints, ""),
                     true, true), prints)
  }

  function RowsFor(plan: seq<Entry>, n: nat, runId: string, prints: Fingerprints): (ops: seq<Op>)
    requires n <= |plan|
    ensures |ops| == n
  {
    if n == 0 then [] else RowsFor(plan, n - 1, runId, prints) + [RowFor(plan, n - 1, runId, prints)]
  }

  /** The log of a clean run after n entries of its plan. */
  ghost predicate RunSoFar(rows: seq<Row>, n: nat, plan: seq<Entry>, runId: string, prints: Fingerprints) {
    && |rows| == n <= |plan| && ValidChain(rows) && NoAbort(rows) && AllLive(rows, runId) && SamePrints(rows, prints)
    && PlanPrefix(rows, plan) && forall i | 0 <= i < |rows| :: rows[i].fields.nonPresentation == Falsy
  }

  lemma NextRowFits(rows: seq<Row>, n: nat, plan: seq<Entry>, runId: string, prints: Fingerprints, planOf: PlanOfManifest)
    requires RunSoFar(rows, n, plan, runId, prints) && n < |plan| <= MAX_RESULT_RECORDS + 1
    requires PlanDistinct(plan) && (forall i | 0 <= i < |plan| :: plan[i].arm.Arm?) && planOf(prints.manifest) == plan
    ensures var next := Step(rows, runId, RowFor(plan, n, runId, prints), planOf);
            RunSoFar(next, n + 1, plan, runId, prints)
  {
    var op := RowFor(plan, n, runId, prints);
    PlanRowAccepted(rows, n, plan, runId, prints, planOf);
    hide ValidChain, Accepted, PlanDistinct;
    ChainExtends(rows, op.sub.fields);
    var next := Step(rows, runId, op, planOf);
    assert next == rows + [Chained(rows, op.sub.fields)];
    PlanPrefixGrows(rows, n, plan, runId, prints, Chained(rows, op.sub.fields));
  }

  lemma PlanPrefixGrows(rows: seq<Row>, n: nat, plan: seq<Entry>, runId: string, prints: Fingerprints, row: Row)
    requires RunSoFar(rows, n, plan, runId, prints) && n < |plan| && ValidChain(rows + [row])
    requires row.fields == RowFor(plan, n, runId, prints).sub.fields && plan[n].arm.Arm?
    ensures RunSoFar(rows + [row], n + 1, plan, runId, prints)
  {
    hide ValidChain;
    var next := rows + [row];
    assert next[n] == row && forall i | 0 <= i < n :: next[i] == rows[i];
    assert NoAbort(next) && SamePrints(next, prints);
    assert LiveRow(row.fields, runId);
    assert AllLive(next, runId);
    assert Names(row.fields, plan[n]) && row.fields.scheduleIndex == plan[n].scheduleIndex;
    assert PlanPrefix(next, plan);
  }

  lemma PlanRowAccepted(rows: seq<Row>, n: nat, plan: seq<Entry>, runId: string, prints: Fingerprints, planOf: PlanOfManifest)
    requires RunSoFar(rows, n, plan, runId, prints) && n < |plan| <= MAX_RESULT_RECORDS + 1
    requires PlanDistinct(plan) && (forall i | 0 <= i < |plan| :: plan[i].arm.Arm?) && planOf(prints.manifest) == plan
    ensures Accepted(rows, runId, RowFor(plan, n, runId, prints), planOf)
  {
    hide ValidChain;
    var f := RowFor(plan, n, runId, prints).sub.fields;
    assert Names(f, plan[n]) && f.scheduleIndex == plan[n].scheduleIndex;
    assert Scheduled(f, plan);
    forall i | 0 <= i < n ensures rows[i].fields.arm != f.arm || rows[i].fields.task != f.task {
      assert Names(rows[i].fields, plan[i]);
    }
    assert Fresh(rows, f);
    hide PlanDistinct, Scheduled;
    var op := RowFor(plan, n, runId, prints);
    assert op.prints == prints && op.sub.fields == f && planOf(op.prints.manifest) == plan;
    assert Submittable(op.sub, runId, prints, plan);
    assert RowFits(rows, runId, f, prints, plan);
    hide Submittable, RowFits;
    assert Accepted(rows, runId, op, planOf);
  }

  /**
   * Whatever the plan, as long as it repeats no pair: submitted in its order under unchanged fingerprints, every entry is
   * accepted, and the log follows the plan to its end.
   */
  lemma {:induction false} PlanRunsToEnd(plan: seq<Entry>, n: nat, runId: string, prints: Fingerprints, planOf: PlanOfManifest)
    requires n <= |plan| <= MAX_RESULT_RECORDS + 1
    requires PlanDistinct(plan) && (forall i | 0 <= i < |plan| :: plan[i].arm.Arm?) && planOf(prints.manifest) == plan
    ensures RunSoFar(Run(RowsFor(plan, n, runId, prints), runId, planOf), n, plan, runId, prints)
  {
    if n > 0 {
      hide RunSoFar, Step;
      PlanRunsToEnd(plan, n - 1, runId, prints, planOf);
      var ops := RowsFor(plan, n, runId, prints);
      assert ops[..n - 1] == RowsFor(plan, n - 1, runId, prints) && ops[n - 1] == RowFor(plan, n - 1, runId, prints);
      NextRowFits(Run(ops[..n - 1], runId, planOf), n - 1, plan, runId, prints, planOf);
    }
  }

  /** At most one abort, after live rows only, naming the plan entry it stands in for. */
  ghost predicate TerminalAbort(rows: seq<Row>, planOf: PlanOfManifest) {
    forall i | 0 <= i < |rows| && rows[i].fields.abort ::
      && (forall j | 0 <= j < i :: Live(rows[j].fields) && !rows[j].fields.abort)
      && (forall j | i < j < |rows| :: !rows[j].fields.abort)
      && NamesNext(rows[i].fields, i, planOf)
  }

  lemma AbortKeepsTerminal(rows: seq<Row>, runId: string, op: Op, planOf: PlanOfManifest)
    requires TerminalAbort(rows, planOf) && op.AbortOp?
    ensures TerminalAbort(Step(rows, runId, op, planOf), planOf)
  {
    if Accepted(rows, runId, op, planOf) {
      var next := Step(rows, runId, op, planOf);
      forall j | 0 <= j < |rows| ensures Live(next[j].fields) && !next[j].fields.abort {
        assert LiveRow(rows[j].fields, runId) && !rows[j].fields.abort;
      }
    }
  }

  /**
   * append_immutable never looks at record_type outside a live run, so a caller may label a row
   * "abort". An accepted append keeps the abort terminal exactly when the record is not so labelled,
   * or is labelled while the log holds only live unaborted rows and names the next plan entry.
   */
  lemma RowKeepsTerminalIff(rows: seq<Row>, runId: string, op: Op, planOf: PlanOfManifest)
    requires TerminalAbort(rows, planOf)
    requires op.RowOp? && Accepted(rows, runId, op, planOf)
    ensures TerminalAbort(Step(rows, runId, op, planOf), planOf) <==>
              || !op.sub.fields.abort
              || (&& NamesNext(op.sub.fields, |rows|, planOf)
                  && forall j | 0 <= j < |rows| :: Live(rows[j].fields) && !rows[j].fields.abort)
  {
    hide Accepted, TerminalAbort;
    ExtendsTerminalIff(rows, Chained(rows, op.sub.fields), planOf);
  }

  lemma ExtendsTerminalIff(rows: seq<Row>, row: Row, planOf: PlanOfManifest)
    requires TerminalAbort(rows, planOf)
    ensures TerminalAbort(rows + [row], planOf) <==>
              || !row.fields.abort
              || (&& NamesNext(row.fields, |rows|, planOf)
                  && forall j | 0 <= j < |rows| :: Live(rows[j].fields) && !rows[j].fields.abort)
  {
    hide NamesNext;
    var next := rows + [row];
    assert next[|rows|] == row;
    assert forall j | 0 <= j < |rows| :: next[j] == rows[j];
    if row.fields.abort && TerminalAbort(next, planOf) {
      forall j | 0 <= j < |rows| ensures Live(rows[j].fields) && !rows[j].fields.abort {
        assert Live(next[j].fields) && !next[j].fields.abort;
      }
    }
  }

  /** If no caller labels a row "abort", every log has a terminal abort at most. */
  lemma {:induction false} RunTerminalAbort(ops: seq<Op>, runId: string, planOf: PlanOfManifest)
    requires forall k | 0 <= k < |ops| && ops[k].RowOp? :: !ops[k].sub.fields.abort
    ensures TerminalAbort(Run(ops, runId, planOf), planOf)
  {
    if ops != [] {
      var op := ops[|ops| - 1];
      var rows := Run(ops[..|ops| - 1], runId, planOf);
      RunTerminalAbort(ops[..|ops| - 1], runId, planOf);
      if op.AbortOp? {
        AbortKeepsTerminal(rows, runId, op, planOf);
      } else if Accepted(rows, runId, op, planOf) {
        RowKeepsTerminalIff(rows, runId, op, planOf);
      }
    }
  }

  function SmokeRow(arm: string, prints: Fingerprints): Submission {
    Submission(Fields("r", OtherArm(arm), "t", Falsy, Falsy, true, OtherStatus, 0, prints, ""), true, false)
  }

  /** Two smoke rows labelled "abort" are both accepted: the log then holds two aborts. */
  lemma LabelledRowsBreakTerminal(prints: Fingerprints, planOf: PlanOfManifest)
    ensures !TerminalAbort(Run([RowOp(SmokeRow("a", prints), prints), RowOp(SmokeRow("b", prints), prints)], "r", planOf), planOf)
  {
    hide Run, Step, Accepted, ValidChain, TerminalAbort;
    var first, second := RowOp(SmokeRow("a", prints), prints), RowOp(SmokeRow("b", prints), prints);
    assert "a"[0] != "b"[0];
    SmokeSteps(first, second, planOf);
    TwoAborts([Chained([], first.sub.fields)], Chained([Chained([], first.sub.fields)], second.sub.fields), planOf);
  }

  lemma SmokeSteps(first: Op, second: Op, planOf: PlanOfManifest)
    requires forall op | op in {first, second} ::
               op.RowOp? && op.sub.hasSuccess && !op.sub.fields.arm.Arm? && op.sub.fields.runId == "r"
    requires first.sub.fields.arm != second.sub.fields.arm
    ensures var one := [Chained([], first.sub.fields)];
            Run([first, second], "r", planOf) == one + [Chained(one, second.sub.fields)]
  {
    hide Run, Step, Accepted;
    var one := [Chained([], first.sub.fields)];
    assert [] + one == one;
    TwoSteps(first, second, planOf);
    SmokeAccepted([], first, planOf);
    ChainExtends([], first.sub.fields);
    SmokeAccepted(one, second, planOf);
  }

  lemma TwoAborts(rows: seq<Row>, row: Row, planOf: PlanOfManifest)
    requires |rows| == 1 && rows[0].fields.abort && row.fields.abort
    ensures !TerminalAbort(rows + [row], planOf)
  {
    hide NamesNext;
    assert (rows + [row])[0].fields.abort && (rows + [row])[1].fields.abort;
  }

  lemma SmokeAccepted(rows: seq<Row>, op: Op, planOf: PlanOfManifest)
    requires op.RowOp? && op.sub.hasSuccess && !op.sub.fields.arm.Arm? && op.sub.fields.runId == "r"
    requires |rows| <= 1 && ValidChain(rows) && Fresh(rows, op.sub.fields)
    ensures Step(rows, "r", op, planOf) == rows + [Chained(rows, op.sub.fields)]
  {
  }

  lemma TwoSteps(first: Op, second: Op, planOf: PlanOfManifest)
    ensures Run([first, second], "r", planOf) == Step(Step([], "r", first, planOf), "r", second, planOf)
  {
    hide Step;
    assert [first][..0] == [];
    assert [first, second][..1] == [first];
    assert Run([], "r", planOf) == [];
  }
}
