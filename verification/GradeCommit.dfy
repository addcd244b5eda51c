/**
 * The once-only grading commit of one attempt slot (benchmarks/paired_grading.py): any number of
 * graders and readers over three names in one directory, where every single step may raise, raise
 * after taking effect, or crash, inside recovery too.
 */
module GradeCommit {
  import opened Common

  type Pid = nat
  type Inode = nat
  type Verdict = string

  datatype Status = FailedUncertain | Graded

  /** The fields of the grade that vary: the rest is fixed by the pinned attempt. */
  datatype Grade = Grade(status: Status, measured: bool, result: Option<Verdict>, error: bool)

  const RESERVED := Grade(FailedUncertain, false, None, false)
  const FAILED := Grade(FailedUncertain, false, None, true)

  function GradedWith(v: Verdict): Grade {
    Grade(Graded, true, Some(v), false)
  }

  /** A file is empty, torn part way through a write, or holds a whole document. */
  datatype Content = Empty | Torn(doc: Doc) | Whole(doc: Doc)
  datatype Doc = GradeDoc(grade: Grade) | CommitDoc(gradeSha: Sha)
  datatype Sha = Sha(content: Content)

  function CommitFor(g: Grade): Doc {
    CommitDoc(Sha(Whole(GradeDoc(g))))
  }

  /** grade-NAME.json, grade-NAME.pending.json and grade-NAME.committed.json, and what the inodes hold. */
  datatype Files = Files(grade: Option<Inode>, pending: Option<Inode>, marker: Option<Inode>,
                         data: map<Inode, Content>, next: Inode)

  function LinkCount(fs: Files, i: Inode): nat {
    (if fs.grade == Some(i) then 1 else 0) + (if fs.pending == Some(i) then 1 else 0)
    + (if fs.marker == Some(i) then 1 else 0)
  }

  function ContentOf(fs: Files, i: Inode): Content {
    if i in fs.data then fs.data[i] else Empty
  }

  function Put(fs: Files, i: Inode, c: Content): Files {
    fs.(data := fs.data[i := c])
  }

  datatype Recovery = DropMarker | DropPending | Wipe | Write | Sync

  datatype Pc =
    | Idle | Checked | Refused
    | Opened | Wiped1 | Wrote1 | Persisted1
    | Evaluated(v: Verdict) | WorkspaceOk(v: Verdict) | SourcesOk(v: Verdict)
    | Wiped2(v: Verdict) | Wrote2(v: Verdict) | Persisted2(v: Verdict)
    | PendingOpen(v: Verdict) | PendingWrote(v: Verdict) | PendingSynced(v: Verdict)
    | Linked(v: Verdict) | Unlinked(v: Verdict) | Done(v: Verdict)
    | Recover(step: Recovery, markerCreated: bool, pendingCreated: bool, unflushed: Option<Grade>)
    | Leaving(left: Grade)
    | Recovered | Raised

  datatype ReaderPc =
    | RIdle | RGradeStat | RGradeRead(raw: Content) | RMarkerStat(raw: Content)
    | RAccepted(grade: Grade) | RRejected

  datatype Proc = Grader(pc: Pc) | Reader(rpc: ReaderPc) | Crashed

  /** What has really happened: every evaluation started, both post-checks, and both successful fsyncs. */
  datatype History = History(evaluations: seq<Option<Verdict>>, workspaceChecked: bool, sourcesChecked: bool,
                             gradeSynced: bool, markerSynced: bool)

  datatype State = State(fs: Files, owner: Option<Pid>, history: History, procs: map<Pid, Proc>)

  /** Go carries the verdict an evaluation would return. Fail raises; FailAfter raises once the effect is done. */
  datatype Choice = Go(v: Verdict) | Fail | FailAfter | Crash

  function MarkerCreated(pc: Pc): bool { pc.Linked? || pc.Unlinked? }

  function PendingCreated(pc: Pc): bool { pc.PendingOpen? || pc.PendingWrote? || pc.PendingSynced? || pc.Linked? }

  /** What a write that raised may have left in the handle's buffer. */
  function Unflushed(pc: Pc): Option<Grade> {
    if pc.Wiped1? then Some(RESERVED) else if pc.Wiped2? then Some(GradedWith(pc.v)) else None
  }

  /** The exception handler's entry, with the two flags and the buffer as they are at this line. */
  function Handler(pc: Pc): Pc {
    Recover(DropMarker, MarkerCreated(pc), PendingCreated(pc), Unflushed(pc))
  }

  /** The handler gave up: closing the handle flushes what its buffer still holds, and the exception goes on. */
  function Leave(unflushed: Option<Grade>): Pc {
    if unflushed.Some? then Leaving(unflushed.value) else Raised
  }

  function At(s: State, p: Pid, pc: Pc): State {
    s.(procs := s.procs[p := Grader(pc)])
  }

  function Handle(s: State): Inode {
    if s.fs.grade.Some? then s.fs.grade.value else 0
  }

  function WriteGrade(s: State, c: Content): State {
    s.(fs := Put(s.fs, Handle(s), c))
  }

  /** The steps up to the first persisted, reserved grade. */
  function OpenStep(s: State, p: Pid, pc: Pc, c: Choice): State {
    match pc {
      case Idle => At(s, p, if c.Go? && s.fs.marker.None? && s.fs.pending.None? then Checked else Refused)
      case Checked =>
        if s.fs.grade.Some? || c.Fail? then At(s, p, Refused)
        else
          var fs := Put(s.fs, s.fs.next, Empty).(grade := Some(s.fs.next), next := s.fs.next + 1);
          At(s.(fs := fs, owner := Some(p)), p, if c.Go? then Opened else Raised)
      case Opened => if c.Fail? then At(s, p, Handler(pc)) else At(WriteGrade(s, Empty), p, if c.Go? then Wiped1 else Handler(pc))
      case Wiped1 =>
        if c.Fail? then At(WriteGrade(s, Torn(GradeDoc(RESERVED))), p, Handler(pc))
        else At(WriteGrade(s, Whole(GradeDoc(RESERVED))), p, if c.Go? then Wrote1 else Handler(pc))
      case Wrote1 => At(s, p, if c.Go? then Persisted1 else Handler(pc))
      case _ => s
    }
  }

  /** Evaluation, the two post-checks, and the persisted graded payload. */
  function EvaluateStep(s: State, p: Pid, pc: Pc, c: Choice): State {
    var h := s.history;
    match pc {
      case Persisted1 =>
        if c.Go? then At(s.(history := h.(evaluations := h.evaluations + [Some(c.v)])), p, Evaluated(c.v))
        else At(s.(history := h.(evaluations := h.evaluations + [None])), p, Handler(pc))
      case Evaluated(v) =>
        if c.Go? then At(s.(history := h.(workspaceChecked := true)), p, WorkspaceOk(v)) else At(s, p, Handler(pc))
      case WorkspaceOk(v) =>
        if c.Go? then At(s.(history := h.(sourcesChecked := true)), p, SourcesOk(v)) else At(s, p, Handler(pc))
      case SourcesOk(v) =>
        if c.Fail? then At(s, p, Handler(pc)) else At(WriteGrade(s, Empty), p, if c.Go? then Wiped2(v) else Handler(pc))
      case Wiped2(v) =>
        if c.Fail? then At(WriteGrade(s, Torn(GradeDoc(GradedWith(v)))), p, Handler(pc))
        else At(WriteGrade(s, Whole(GradeDoc(GradedWith(v)))), p, if c.Go? then Wrote2(v) else Handler(pc))
      case Wrote2(v) =>
        if c.Fail? then At(s, p, Handler(pc))
        else At(s.(history := h.(gradeSynced := true)), p, if c.Go? then Persisted2(v) else Handler(pc))
      case _ => s
    }
  }

  /** The pending marker, its hard link, and the unlink that completes publication. */
  function PublishStep(s: State, p: Pid, pc: Pc, c: Choice): State {
    var h := s.history;
    match pc {
      case Persisted2(v) =>
        if c.Fail? || s.fs.pending.Some? then At(s, p, Handler(pc))
        else
          var fs := Put(s.fs, s.fs.next, Empty).(pending := Some(s.fs.next), next := s.fs.next + 1);
          At(s.(fs := fs), p, if c.Go? then PendingOpen(v) else Handler(pc))
      case PendingOpen(v) =>
        var i := if s.fs.pending.Some? then s.fs.pending.value else 0;
        if c.Fail? then At(s.(fs := Put(s.fs, i, Torn(CommitFor(GradedWith(v))))), p, Handler(pc))
        else At(s.(fs := Put(s.fs, i, Whole(CommitFor(GradedWith(v))))), p, if c.Go? then PendingWrote(v) else Handler(pc))
      case PendingWrote(v) =>
        if c.Fail? then At(s, p, Handler(pc))
        else At(s.(history := h.(markerSynced := true)), p, if c.Go? then PendingSynced(v) else Handler(pc))
      case PendingSynced(v) =>
        if c.Fail? || s.fs.marker.Some? then At(s, p, Handler(pc))
        else At(s.(fs := s.fs.(marker := s.fs.pending)), p, if c.Go? then Linked(v) else Handler(pc))
      case Linked(v) =>
        if c.Fail? then At(s, p, Handler(pc))
        else At(s.(fs := s.fs.(pending := None)), p, if c.Go? then Unlinked(v) else Handler(pc))
      case Unlinked(v) => At(s, p, if c.Go? then Done(v) else Handler(pc))
      case _ => s
    }
  }

  /** The handler: drop the names it knows it made, then persist the failure; any error ends it. */
  function RecoverStep(s: State, p: Pid, pc: Pc, c: Choice): State
    requires pc.Recover?
  {
    match pc.step {
      case DropMarker =>
        if !pc.markerCreated then At(s, p, pc.(step := DropPending))
        else if c.Fail? then At(s, p, Leave(pc.unflushed))
        else At(s.(fs := s.fs.(marker := None)), p, if c.Go? then pc.(step := DropPending) else Leave(pc.unflushed))
      case DropPending =>
        if !pc.pendingCreated then At(s, p, pc.(step := Wipe))
        else if c.Fail? then At(s, p, Leave(pc.unflushed))
        else At(s.(fs := s.fs.(pending := None)), p, if c.Go? then pc.(step := Wipe) else Leave(pc.unflushed))
      case Wipe =>
        if c.Fail? then At(s, p, Leave(pc.unflushed))
        else At(WriteGrade(s, Empty), p, if c.Go? then pc.(step := Write, unflushed := None) else Raised)
      case Write =>
        if c.Fail? then At(WriteGrade(s, Torn(GradeDoc(FAILED))), p, Leaving(FAILED))
        else At(WriteGrade(s, Whole(GradeDoc(FAILED))), p, if c.Go? then pc.(step := Sync) else Raised)
      case Sync => At(s, p, if c.Go? then Recovered else Raised)
    }
  }

  /** The close that follows: the rest of the buffer reaches the file, or only part of it. */
  function LeaveStep(s: State, p: Pid, pc: Pc, c: Choice): State
    requires pc.Leaving?
  {
    var doc := GradeDoc(pc.left);
    At(WriteGrade(s, if c.Fail? then Torn(doc) else Whole(doc)), p, Raised)
  }

  predicate OpenPc(pc: Pc) { pc.Idle? || pc.Checked? || pc.Opened? || pc.Wiped1? || pc.Wrote1? }

  predicate EvaluatePc(pc: Pc) {
    pc.Persisted1? || pc.Evaluated? || pc.WorkspaceOk? || pc.SourcesOk? || pc.Wiped2? || pc.Wrote2?
  }

  function GraderStep(s: State, p: Pid, pc: Pc, c: Choice): State {
    if OpenPc(pc) then OpenStep(s, p, pc, c)
    else if EvaluatePc(pc) then EvaluateStep(s, p, pc, c)
    else if pc.Recover? then RecoverStep(s, p, pc, c)
    else if pc.Leaving? then LeaveStep(s, p, pc, c)
    else PublishStep(s, p, pc, c)
  }

  predicate Acceptable(g: Grade) {
    g.status == Graded && g.measured && !g.error
  }

  /** read_committed_grade: lstat then read the grade, lstat then read the marker, compare. */
  function ReaderStep(s: State, rpc: ReaderPc): ReaderPc {
    match rpc {
      case RIdle => if s.fs.grade.Some? && LinkCount(s.fs, s.fs.grade.value) == 1 then RGradeStat else RRejected
      case RGradeStat => if s.fs.grade.Some? then RGradeRead(ContentOf(s.fs, s.fs.grade.value)) else RRejected
      case RGradeRead(raw) =>
        if s.fs.marker.Some? && LinkCount(s.fs, s.fs.marker.value) == 1 then RMarkerStat(raw) else RRejected
      case RMarkerStat(raw) =>
        if s.fs.marker.None? || ContentOf(s.fs, s.fs.marker.value) != Whole(CommitDoc(Sha(raw))) then RRejected
        else if raw.Whole? && raw.doc.GradeDoc? && Acceptable(raw.doc.grade) then RAccepted(raw.doc.grade)
        else RRejected
      case _ => rpc
    }
  }

  function Next(s: State, p: Pid, c: Choice): State {
    if p !in s.procs then s
    else match s.procs[p] {
      case Crashed => s
      case Grader(pc) => if c.Crash? then s.(procs := s.procs[p := Crashed]) else GraderStep(s, p, pc, c)
      case Reader(rpc) =>
        s.(procs := s.procs[p := if c.Go? then Reader(ReaderStep(s, rpc)) else if c.Crash? then Crashed else Reader(RRejected)])
    }
  }

  function Run(s: State, schedule: seq<(Pid, Choice)>): State {
    if schedule == [] then s
    else var n := |schedule| - 1; Next(Run(s, schedule[..n]), schedule[n].0, schedule[n].1)
  }

  /** No grade yet; a marker or pending file may already be lying there. */
  ghost predicate Init(s: State) {
    && s.fs.grade.None? && s.owner.None?
    && s.history == History([], false, false, false, false)
    && (forall i | i in s.fs.data :: i < s.fs.next)
    && (s.fs.pending.Some? ==> s.fs.pending.value < s.fs.next)
    && (s.fs.marker.Some? ==> s.fs.marker.value < s.fs.next)
    && forall p | p in s.procs :: s.procs[p] in {Grader(Idle), Reader(RIdle), Crashed}
  }

  // ----- the invariant -----

  /** Verdict v came from the only evaluation and both post-checks then passed. */
  predicate Proven(h: History, v: Verdict) {
    h.evaluations == [Some(v)] && h.workspaceChecked && h.sourcesChecked
  }

  predicate Durable(h: History, v: Verdict) {
    Proven(h, v) && h.gradeSynced && h.markerSynced
  }

  ghost predicate ProvenContent(h: History, c: Content) {
    c.Whole? && c.doc.GradeDoc? && c.doc.grade.status == Graded ==>
      exists v :: Proven(h, v) && c.doc.grade == GradedWith(v)
  }

  ghost predicate MarkerContent(h: History, c: Content) {
    exists v :: Durable(h, v) && c == Whole(CommitFor(GradedWith(v)))
  }

  predicate Before(pc: Pc) { pc.Idle? || pc.Checked? || pc.Refused? }

  ghost predicate PendingIs(s: State, c: Content) {
    s.fs.pending.Some? && s.fs.grade != s.fs.pending && s.fs.marker.None?
    && s.fs.pending.value in s.fs.data && s.fs.data[s.fs.pending.value] == c
  }

  ghost predicate GradeIs(s: State, g: Grade) {
    ContentOf(s.fs, Handle(s)) == Whole(GradeDoc(g))
  }

  /** What holds at each line of the owning grader. */
  ghost predicate OwnerFacts(s: State, pc: Pc) {
    var h := s.history;
    match pc {
      case Opened | Wiped1 | Wrote1 | Persisted1 => h.evaluations == [] && s.fs.marker.None? && s.fs.pending.None?
      case Evaluated(v) => h.evaluations == [Some(v)] && s.fs.marker.None? && s.fs.pending.None?
      case WorkspaceOk(v) =>
        h.evaluations == [Some(v)] && h.workspaceChecked && s.fs.marker.None? && s.fs.pending.None?
      case SourcesOk(v) => Proven(h, v) && s.fs.marker.None? && s.fs.pending.None?
      case Wiped2(v) => Proven(h, v) && s.fs.marker.None? && s.fs.pending.None?
      case Wrote2(v) => Proven(h, v) && s.fs.marker.None? && s.fs.pending.None? && GradeIs(s, GradedWith(v))
      case Persisted2(v) =>
        Proven(h, v) && h.gradeSynced && s.fs.marker.None? && s.fs.pending.None? && GradeIs(s, GradedWith(v))
      case PendingOpen(v) => Proven(h, v) && h.gradeSynced && PendingIs(s, Empty) && GradeIs(s, GradedWith(v))
      case PendingWrote(v) =>
        Proven(h, v) && h.gradeSynced && PendingIs(s, Whole(CommitFor(GradedWith(v)))) && GradeIs(s, GradedWith(v))
      case PendingSynced(v) =>
        Durable(h, v) && PendingIs(s, Whole(CommitFor(GradedWith(v)))) && GradeIs(s, GradedWith(v))
      case Linked(v) => Durable(h, v) && s.fs.marker.Some? && s.fs.pending == s.fs.marker && GradeIs(s, GradedWith(v))
      case Unlinked(v) => Durable(h, v) && s.fs.marker.Some? && s.fs.pending.None? && GradeIs(s, GradedWith(v))
      case Done(v) => Durable(h, v) && s.fs.marker.Some? && s.fs.pending.None? && GradeIs(s, GradedWith(v))
      case Recovered => GradeIs(s, FAILED)
      case Recover(step, _, _, unflushed) =>
        && (step.Sync? ==> GradeIs(s, FAILED))
        && (unflushed.Some? ==> ProvenContent(h, Whole(GradeDoc(unflushed.value))))
      case Leaving(left) => ProvenContent(h, Whole(GradeDoc(left)))
      case _ => true
    }
  }

  ghost predicate ReaderFacts(s: State, rpc: ReaderPc) {
    match rpc {
      case RGradeStat => s.owner.Some?
      case RGradeRead(raw) => s.owner.Some? && ProvenContent(s.history, raw)
      case RMarkerStat(raw) => s.owner.Some? && ProvenContent(s.history, raw)
      case RAccepted(g) => exists v :: Durable(s.history, v) && g == GradedWith(v)
      case _ => true
    }
  }

  ghost predicate ProcOk(s: State, p: Pid, proc: Proc) {
    match proc {
      case Grader(pc) =>
        && (!Before(pc) ==> s.owner == Some(p) && OwnerFacts(s, pc))
        && (pc.Checked? && s.owner.None? ==> s.fs.marker.None? && s.fs.pending.None?)
      case Reader(rpc) => ReaderFacts(s, rpc)
      case Crashed => true
    }
  }

  ghost predicate FilesOk(s: State) {
    && (s.fs.grade.Some? <==> s.owner.Some?)
    && (s.owner.None? ==> s.history == History([], false, false, false, false))
    && |s.history.evaluations| <= 1
    && (forall i | i in s.fs.data :: i < s.fs.next)
    && (s.fs.grade.Some? ==> s.fs.grade.value < s.fs.next && ProvenContent(s.history, ContentOf(s.fs, s.fs.grade.value)))
    && (s.fs.pending.Some? ==> s.fs.pending.value < s.fs.next && s.fs.pending != s.fs.grade)
    && (s.fs.marker.Some? ==> s.fs.marker.value < s.fs.next && s.fs.marker != s.fs.grade)
    && (s.owner.Some? && s.fs.marker.Some? ==> MarkerContent(s.history, ContentOf(s.fs, s.fs.marker.value)))
  }

  ghost predicate Inv(s: State) {
    FilesOk(s) && forall p | p in s.procs :: ProcOk(s, p, s.procs[p])
  }

  /** History only grows, and only while the single evaluation is under way. */
  ghost predicate Grows(h: History, k: History) {
    && (h.workspaceChecked ==> k.workspaceChecked) && (h.sourcesChecked ==> k.sourcesChecked)
    && (h.gradeSynced ==> k.gradeSynced) && (h.markerSynced ==> k.markerSynced)
    && (h.evaluations == k.evaluations || h.evaluations == [])
  }

  lemma GrowsKeeps(h: History, k: History)
    requires Grows(h, k)
    ensures forall v :: Proven(h, v) ==> Proven(k, v)
    ensures forall v :: Durable(h, v) ==> Durable(k, v)
    ensures forall c :: ProvenContent(h, c) ==> ProvenContent(k, c)
    ensures forall c :: MarkerContent(h, c) ==> MarkerContent(k, c)
  {
    forall c | ProvenContent(h, c) ensures ProvenContent(k, c) {
      if c.Whole? && c.doc.GradeDoc? && c.doc.grade.status == Graded {
        var v :| Proven(h, v) && c.doc.grade == GradedWith(v);
        assert Proven(k, v);
      }
    }
    forall c | MarkerContent(h, c) ensures MarkerContent(k, c) {
      var v :| Durable(h, v) && c == Whole(CommitFor(GradedWith(v)));
      assert Durable(k, v);
    }
  }

  /** A step of grader p leaves other processes' ground alone: only an owner-to-be or the owner moves anything. */
  ghost predicate Contained(s: State, t: State, p: Pid) {
    && p in t.procs && t.procs == s.procs[p := t.procs[p]]
    && Grows(s.history, t.history)
    && ((t.fs == s.fs && t.owner == s.owner && t.history == s.history)
        || (t.owner == Some(p) && (s.owner.None? || s.owner == Some(p))))
  }

  lemma OthersKept(s: State, t: State, p: Pid, q: Pid)
    requires Inv(s) && Contained(s, t, p) && q != p && q in t.procs
    ensures ProcOk(t, q, t.procs[q])
  {
    assert ProcOk(s, q, s.procs[q]);
    GrowsKeeps(s.history, t.history);
    if s.procs[q].Reader? && s.procs[q].rpc.RAccepted? {
      var v :| Durable(s.history, v) && s.procs[q].rpc.grade == GradedWith(v);
      assert Durable(t.history, v);
    }
  }

  lemma OpenContained(s: State, p: Pid, pc: Pc, c: Choice)
    requires FilesOk(s) && OpenPc(pc) && !c.Crash?
    requires p in s.procs && s.procs[p] == Grader(pc) && ProcOk(s, p, Grader(pc))
    ensures var t := OpenStep(s, p, pc, c); Contained(s, t, p)
  {
    hide ProvenContent, MarkerContent;
    assert s.procs[p := Grader(pc)] == s.procs;
  }

  lemma OpenFiles(s: State, p: Pid, pc: Pc, c: Choice)
    requires FilesOk(s) && OpenPc(pc) && !c.Crash?
    requires p in s.procs && s.procs[p] == Grader(pc) && ProcOk(s, p, Grader(pc))
    ensures var t := OpenStep(s, p, pc, c); FilesOk(t)
  {
  }

  /** What a raising write of the reserved or the graded payload may leave in the buffer is no unproven grade. */
  lemma UnflushedProven(h: History, pc: Pc)
    requires pc.Wiped2? ==> Proven(h, pc.v)
    ensures Unflushed(pc).Some? ==> ProvenContent(h, Whole(GradeDoc(Unflushed(pc).value)))
  {
  }

  lemma FailedProven(h: History)
    ensures ProvenContent(h, Whole(GradeDoc(FAILED)))
  {
  }

  lemma OpenFacts(s: State, p: Pid, pc: Pc, c: Choice)
    requires FilesOk(s) && OpenPc(pc) && !c.Crash?
    requires p in s.procs && s.procs[p] == Grader(pc) && ProcOk(s, p, Grader(pc))
    ensures var t := OpenStep(s, p, pc, c); p in t.procs && ProcOk(t, p, t.procs[p])
  {
    hide ProvenContent, MarkerContent;
    UnflushedProven(s.history, pc);
  }

  lemma EvaluateContained(s: State, p: Pid, pc: Pc, c: Choice)
    requires EvaluatePc(pc) && !c.Crash?
    requires p in s.procs && s.procs[p] == Grader(pc) && ProcOk(s, p, Grader(pc))
    ensures var t := EvaluateStep(s, p, pc, c); Contained(s, t, p)
  {
    hide ProvenContent, MarkerContent;
    assert s.procs[p := Grader(pc)] == s.procs;
  }

  lemma EvaluateFiles(s: State, p: Pid, pc: Pc, c: Choice)
    requires FilesOk(s) && EvaluatePc(pc) && !c.Crash?
    requires p in s.procs && s.procs[p] == Grader(pc) && ProcOk(s, p, Grader(pc))
    ensures var t := EvaluateStep(s, p, pc, c); FilesOk(t)
  {
    GrowsKeeps(s.history, EvaluateStep(s, p, pc, c).history);
  }

  lemma EvaluateFacts(s: State, p: Pid, pc: Pc, c: Choice)
    requires FilesOk(s) && EvaluatePc(pc) && !c.Crash?
    requires p in s.procs && s.procs[p] == Grader(pc) && ProcOk(s, p, Grader(pc))
    ensures var t := EvaluateStep(s, p, pc, c); p in t.procs && ProcOk(t, p, t.procs[p])
  {
    hide ProvenContent, MarkerContent;
    UnflushedProven(s.history, pc);
  }

  lemma PublishContained(s: State, p: Pid, pc: Pc, c: Choice)
    requires !OpenPc(pc) && !EvaluatePc(pc) && !pc.Recover? && !pc.Leaving? && !c.Crash?
    requires p in s.procs && s.procs[p] == Grader(pc) && ProcOk(s, p, Grader(pc))
    ensures var t := PublishStep(s, p, pc, c); Contained(s, t, p)
  {
    hide ProvenContent, MarkerContent;
    assert s.procs[p := Grader(pc)] == s.procs;
  }

  lemma PublishFiles(s: State, p: Pid, pc: Pc, c: Choice)
    requires FilesOk(s) && !OpenPc(pc) && !EvaluatePc(pc) && !pc.Recover? && !pc.Leaving? && !c.Crash?
    requires p in s.procs && s.procs[p] == Grader(pc) && ProcOk(s, p, Grader(pc))
    ensures var t := PublishStep(s, p, pc, c); FilesOk(t)
  {
    GrowsKeeps(s.history, PublishStep(s, p, pc, c).history);
  }

  /** Creating and filling the pending file, which is nobody else's inode. */
  lemma PendingFacts(s: State, p: Pid, pc: Pc, c: Choice)
    requires FilesOk(s) && (pc.Persisted2? || pc.PendingOpen?) && !c.Crash?
    requires p in s.procs && s.procs[p] == Grader(pc) && ProcOk(s, p, Grader(pc))
    ensures var t := PublishStep(s, p, pc, c); p in t.procs && ProcOk(t, p, t.procs[p])
  {
    hide ProvenContent, MarkerContent, Proven, Durable, ReaderFacts;
  }

  lemma PublishFacts(s: State, p: Pid, pc: Pc, c: Choice)
    requires FilesOk(s) && !OpenPc(pc) && !EvaluatePc(pc) && !pc.Recover? && !pc.Leaving? && !c.Crash?
    requires p in s.procs && s.procs[p] == Grader(pc) && ProcOk(s, p, Grader(pc))
    ensures var t := PublishStep(s, p, pc, c); p in t.procs && ProcOk(t, p, t.procs[p])
  {
    if pc.Persisted2? || pc.PendingOpen? {
      PendingFacts(s, p, pc, c);
    } else {
      hide ProvenContent, MarkerContent, FilesOk, ReaderFacts;
    }
  }

  lemma RecoverContained(s: State, p: Pid, pc: Pc, c: Choice)
    requires pc.Recover? && !c.Crash?
    requires p in s.procs && s.procs[p] == Grader(pc) && ProcOk(s, p, Grader(pc))
    ensures var t := RecoverStep(s, p, pc, c); Contained(s, t, p)
  {
    hide ProvenContent, MarkerContent;
    assert s.procs[p := Grader(pc)] == s.procs;
  }

  predicate NameStep(pc: Pc) { pc.Recover? && (pc.step.DropMarker? || pc.step.DropPending?) }

  lemma RecoverNames(s: State, p: Pid, pc: Pc, c: Choice)
    requires FilesOk(s) && NameStep(pc) && !c.Crash?
    requires p in s.procs && s.procs[p] == Grader(pc) && ProcOk(s, p, Grader(pc))
    ensures var t := RecoverStep(s, p, pc, c); FilesOk(t)
  {
    hide ProvenContent, MarkerContent, OwnerFacts;
  }

  /** Dropping a name keeps what the buffer holds in mind. */
  lemma NameFacts(s: State, p: Pid, pc: Pc, c: Choice)
    requires NameStep(pc) && !c.Crash?
    requires p in s.procs && s.procs[p] == Grader(pc) && ProcOk(s, p, Grader(pc))
    ensures var t := RecoverStep(s, p, pc, c); p in t.procs && ProcOk(t, p, t.procs[p])
  {
    hide ProvenContent, MarkerContent, ReaderFacts;
  }

  /** Rewriting the grade file with anything ungraded or proven keeps the files in order. */
  lemma RewriteKeepsFiles(s: State, t: State, c: Content)
    requires FilesOk(s) && s.owner.Some? && ProvenContent(s.history, c)
    requires t.fs == Put(s.fs, Handle(s), c) && t.owner == s.owner && t.history == s.history
    ensures FilesOk(t)
  {
    hide MarkerContent;
    assert ProvenContent(t.history, c);
  }

  lemma RecoverFiles(s: State, p: Pid, pc: Pc, c: Choice)
    requires FilesOk(s) && pc.Recover? && !c.Crash?
    requires p in s.procs && s.procs[p] == Grader(pc) && ProcOk(s, p, Grader(pc))
    ensures var t := RecoverStep(s, p, pc, c); FilesOk(t)
  {
    if NameStep(pc) {
      RecoverNames(s, p, pc, c);
    } else {
      hide FilesOk;
      var t := RecoverStep(s, p, pc, c);
      if t.fs == s.fs {
        SameFilesOk(s, t);
      } else {
        RewriteKeepsFiles(s, t, if pc.step.Wipe? then Empty else if c.Fail? then Torn(GradeDoc(FAILED)) else Whole(GradeDoc(FAILED)));
      }
    }
  }

  lemma SameFilesOk(s: State, t: State)
    requires FilesOk(s) && t.fs == s.fs && t.owner == s.owner && t.history == s.history
    ensures FilesOk(t)
  {
  }

  lemma RecoverFacts(s: State, p: Pid, pc: Pc, c: Choice)
    requires FilesOk(s) && pc.Recover? && !c.Crash?
    requires p in s.procs && s.procs[p] == Grader(pc) && ProcOk(s, p, Grader(pc))
    ensures var t := RecoverStep(s, p, pc, c); p in t.procs && ProcOk(t, p, t.procs[p])
  {
    hide ProcOk, FilesOk, RecoverStep;
    if NameStep(pc) {
      NameFacts(s, p, pc, c);
    } else if pc.step.Write? {
      RewriteFacts(s, p, pc, c);
    } else {
      EndFacts(s, p, pc, c);
    }
  }

  lemma EndFacts(s: State, p: Pid, pc: Pc, c: Choice)
    requires pc.Recover? && (pc.step.Wipe? || pc.step.Sync?) && !c.Crash?
    requires p in s.procs && s.procs[p] == Grader(pc) && ProcOk(s, p, Grader(pc))
    ensures var t := RecoverStep(s, p, pc, c); p in t.procs && ProcOk(t, p, t.procs[p])
  {
    hide ProvenContent, MarkerContent, ReaderFacts;
  }

  lemma RewriteFacts(s: State, p: Pid, pc: Pc, c: Choice)
    requires pc.Recover? && pc.step.Write? && !c.Crash?
    requires p in s.procs && s.procs[p] == Grader(pc) && ProcOk(s, p, Grader(pc))
    ensures var t := RecoverStep(s, p, pc, c); p in t.procs && ProcOk(t, p, t.procs[p])
  {
    hide ProvenContent, MarkerContent, ReaderFacts;
    FailedProven(s.history);
  }

  lemma LeaveKeeps(s: State, p: Pid, pc: Pc, c: Choice)
    requires FilesOk(s) && pc.Leaving? && !c.Crash?
    requires p in s.procs && s.procs[p] == Grader(pc) && ProcOk(s, p, Grader(pc))
    ensures var t := LeaveStep(s, p, pc, c);
            Contained(s, t, p) && FilesOk(t) && p in t.procs && ProcOk(t, p, t.procs[p])
  {
    hide FilesOk, ProvenContent;
    var t := LeaveStep(s, p, pc, c);
    var doc := GradeDoc(pc.left);
    TornProven(s.history, doc);
    RewriteKeepsFiles(s, t, if c.Fail? then Torn(doc) else Whole(doc));
  }

  lemma TornProven(h: History, doc: Doc)
    ensures ProvenContent(h, Torn(doc))
  {
  }

  lemma ReaderSafe(s: State, rpc: ReaderPc)
    requires FilesOk(s) && ReaderFacts(s, rpc)
    ensures ReaderFacts(s, ReaderStep(s, rpc))
  {
  }

  lemma GraderSafe(s: State, p: Pid, pc: Pc, c: Choice)
    requires FilesOk(s) && !c.Crash?
    requires p in s.procs && s.procs[p] == Grader(pc) && ProcOk(s, p, Grader(pc))
    ensures var t := GraderStep(s, p, pc, c);
            Contained(s, t, p) && FilesOk(t) && ProcOk(t, p, t.procs[p])
  {
    hide FilesOk, ProcOk, OpenStep, EvaluateStep, PublishStep, RecoverStep, LeaveStep, OpenPc, EvaluatePc;
    if OpenPc(pc) {
      OpenContained(s, p, pc, c);
      OpenFiles(s, p, pc, c);
      OpenFacts(s, p, pc, c);
    } else if EvaluatePc(pc) {
      EvaluateContained(s, p, pc, c);
      EvaluateFiles(s, p, pc, c);
      EvaluateFacts(s, p, pc, c);
    } else if pc.Recover? {
      RecoverContained(s, p, pc, c);
      RecoverFiles(s, p, pc, c);
      RecoverFacts(s, p, pc, c);
    } else if pc.Leaving? {
      LeaveKeeps(s, p, pc, c);
    } else {
      PublishContained(s, p, pc, c);
      PublishFiles(s, p, pc, c);
      PublishFacts(s, p, pc, c);
    }
  }

  lemma NextKeeps(s: State, p: Pid, c: Choice)
    requires Inv(s)
    ensures Inv(Next(s, p, c))
  {
    var t := Next(s, p, c);
    if p in s.procs && !s.procs[p].Crashed? {
      assert ProcOk(s, p, s.procs[p]);
      if s.procs[p].Reader? {
        ReaderSafe(s, s.procs[p].rpc);
      } else if !c.Crash? {
        var pc := s.procs[p].pc;
        GraderSafe(s, p, pc, c);
      }
      assert Contained(s, t, p) && FilesOk(t) && ProcOk(t, p, t.procs[p]);
      forall q | q in t.procs ensures ProcOk(t, q, t.procs[q]) {
        if q != p { OthersKept(s, t, p, q); }
      }
    }
  }

  lemma {:induction false} RunKeeps(s: State, schedule: seq<(Pid, Choice)>)
    requires Inv(s)
    ensures Inv(Run(s, schedule))
  {
    if schedule != [] {
      var n := |schedule| - 1;
      RunKeeps(s, schedule[..n]);
      NextKeeps(Run(s, schedule[..n]), schedule[n].0, schedule[n].1);
    }
  }

  // ----- main results -----

  /**
   * Whatever is interleaved, raised or crashed: at most one evaluation ever starts, and a reader
   * accepts only the verdict of that evaluation, after both post-checks passed and after the graded
   * payload and the marker were both synced.
   */
  lemma GradedOnce(s: State, schedule: seq<(Pid, Choice)>, reader: Pid)
    requires Init(s)
    ensures var t := Run(s, schedule);
            && |t.history.evaluations| <= 1
            && (reader in t.procs && t.procs[reader].Reader? && t.procs[reader].rpc.RAccepted? ==>
                  exists v :: t.history == History([Some(v)], true, true, true, true)
                              && t.procs[reader].rpc.grade == GradedWith(v))
  {
    RunKeeps(s, schedule);
    var t := Run(s, schedule);
    if reader in t.procs && t.procs[reader].Reader? && t.procs[reader].rpc.RAccepted? {
      assert ProcOk(t, reader, t.procs[reader]);
      var v :| Durable(t.history, v) && t.procs[reader].rpc.grade == GradedWith(v);
      assert t.history == History([Some(v)], true, true, true, true);
    }
  }

  /** A step of a grader that does not crash. */
  predicate Steps(s: State, p: Pid, c: Choice) {
    p in s.procs && s.procs[p].Grader? && !c.Crash?
  }

  /** What the history records of one step is what was done in it. */
  predicate Told(pc: Pc, c: Choice, h: History, k: History) {
    && k.evaluations == h.evaluations + (if pc.Persisted1? then [if c.Go? then Some(c.v) else None] else [])
    && (k.workspaceChecked <==> h.workspaceChecked || (pc.Evaluated? && c.Go?))
    && (k.sourcesChecked <==> h.sourcesChecked || (pc.WorkspaceOk? && c.Go?))
    && (k.gradeSynced <==> h.gradeSynced || (pc.Wrote2? && !c.Fail?))
    && (k.markerSynced <==> h.markerSynced || (pc.PendingWrote? && !c.Fail?))
  }

  /**
   * The history is what was done: every evaluation that starts, with the verdict it returned if it did, each post-check
   * when it passes, and each flush to disk that took effect.
   */
  lemma HistoryTells(s: State, p: Pid, c: Choice)
    requires Steps(s, p, c)
    ensures Told(s.procs[p].pc, c, s.history, Next(s, p, c).history)
  {
    hide OpenStep, EvaluateStep, PublishStep, RecoverStep, LeaveStep;
    var pc := s.procs[p].pc;
    if EvaluatePc(pc) { EvaluateTells(s, p, pc, c); } else { OtherTells(s, p, pc, c); }
  }

  lemma EvaluateTells(s: State, p: Pid, pc: Pc, c: Choice)
    requires EvaluatePc(pc) && !c.Crash?
    ensures Told(pc, c, s.history, EvaluateStep(s, p, pc, c).history)
  {
    hide Handler, Handle, Put;
  }

  lemma OtherTells(s: State, p: Pid, pc: Pc, c: Choice)
    requires !EvaluatePc(pc) && !c.Crash?
    ensures OpenPc(pc) ==> Told(pc, c, s.history, OpenStep(s, p, pc, c).history)
    ensures pc.Recover? ==> Told(pc, c, s.history, RecoverStep(s, p, pc, c).history)
    ensures pc.Leaving? ==> Told(pc, c, s.history, LeaveStep(s, p, pc, c).history)
    ensures !OpenPc(pc) && !pc.Recover? && !pc.Leaving? ==> Told(pc, c, s.history, PublishStep(s, p, pc, c).history)
  {
    hide Handler, Handle, Put;
  }

  /**
   * Who gets the slot: a grader that finds no marker and no pending file, and then no grade when it creates its own; it is
   * refused otherwise, and then nothing of the slot has changed.
   */
  lemma SlotTakenIff(s: State, p: Pid, c: Choice)
    requires Steps(s, p, c)
    ensures s.procs[p].pc.Idle? ==>
              Next(s, p, c) == At(s, p, if s.fs.marker == s.fs.pending == None && c.Go? then Checked else Refused)
    ensures s.procs[p].pc.Checked? ==>
              var t := Next(s, p, c);
              var takes := s.fs.grade == None && !c.Fail?;
              && (t.owner == Some(p) && t.fs.grade == Some(s.fs.next) && t.fs.data == s.fs.data[s.fs.next := Empty] <== takes)
              && (!takes ==> t == At(s, p, Refused))
              && (t.procs[p].pc.Opened? <==> takes && c.Go?)
  {
  }

  /** Whoever opened the slot has returned, raised or crashed. */
  predicate Settled(s: State) {
    s.owner.Some? && (s.owner.value !in s.procs || match s.procs[s.owner.value] {
                                                     case Grader(pc) => pc.Done? || pc.Recovered? || pc.Raised?
                                                     case _ => true
                                                   })
  }

  lemma SettledStep(s: State, p: Pid, c: Choice)
    requires Settled(s) && (p in s.procs ==> ProcOk(s, p, s.procs[p])) && FilesOk(s)
    ensures var t := Next(s, p, c); Settled(t) && t.fs == s.fs && t.history == s.history && t.owner == s.owner
  {
    hide ProvenContent, MarkerContent, ReaderFacts;
  }

  /** From then on nobody, not even a later grader of the slot, changes a file or evaluates. */
  lemma {:induction false} SettledForever(s: State, schedule: seq<(Pid, Choice)>)
    requires Inv(s) && Settled(s)
    ensures var t := Run(s, schedule); Settled(t) && t.fs == s.fs && t.history == s.history && t.owner == s.owner
  {
    if schedule != [] {
      var n := |schedule| - 1;
      SettledForever(s, schedule[..n]);
      RunKeeps(s, schedule[..n]);
      SettledStep(Run(s, schedule[..n]), schedule[n].0, schedule[n].1);
    }
  }

  /** read_committed_grade with nobody else running. */
  function ReadCommitted(s: State): ReaderPc {
    ReaderStep(s, ReaderStep(s, ReaderStep(s, ReaderStep(s, RIdle))))
  }

  /**
   * Exactly what an undisturbed reader accepts: a grade and a marker that are two files with one name each, a grade that
   * was measured without an error, and a marker that was made for that very content.
   */
  lemma ReadCommittedIff(s: State, g: Grade)
    ensures ReadCommitted(s) == RAccepted(g) <==>
              && s.fs.grade.Some? && s.fs.marker.Some?
              && s.fs.grade != s.fs.marker && s.fs.pending != s.fs.grade && s.fs.pending != s.fs.marker
              && ContentOf(s.fs, s.fs.grade.value) == Whole(GradeDoc(g))
              && ContentOf(s.fs, s.fs.marker.value) == Whole(CommitDoc(Sha(Whole(GradeDoc(g)))))
              && g.status.Graded? && g.measured && !g.error
  {
    var r1 := ReaderStep(s, RIdle);
    var r2 := ReaderStep(s, r1);
    var r3 := ReaderStep(s, r2);
    if r3.RMarkerStat? {
      assert r3 == RMarkerStat(ContentOf(s.fs, s.fs.grade.value));
    }
  }

  /**
   * A grade that was returned is readable for ever; one whose recovery finished is unreadable for ever.
   * A grader that raised earlier promises neither.
   */
  lemma OutcomeIsFinal(s: State, p: Pid, schedule: seq<(Pid, Choice)>)
    requires Inv(s) && p in s.procs && s.procs[p].Grader?
    ensures s.procs[p].pc.Done? ==> ReadCommitted(Run(s, schedule)) == RAccepted(GradedWith(s.procs[p].pc.v))
    ensures s.procs[p].pc.Recovered? ==> ReadCommitted(Run(s, schedule)) == RRejected
  {
    assert ProcOk(s, p, s.procs[p]);
    var pc := s.procs[p].pc;
    if pc.Done? || pc.Recovered? {
      SettledForever(s, schedule);
      var t := Run(s, schedule);
      if pc.Done? {
        var w :| Durable(s.history, w) && ContentOf(s.fs, s.fs.marker.value) == Whole(CommitFor(GradedWith(w)));
        assert w == pc.v;
        ReadCommittedIff(t, GradedWith(pc.v));
      } else if ReadCommitted(t) != RRejected {
        ReadNeverStuck(t);
        ReadCommittedIff(t, ReadCommitted(t).grade);
      }
    }
  }

  lemma ReadNeverStuck(s: State)
    ensures ReadCommitted(s).RAccepted? || ReadCommitted(s).RRejected?
  {
  }

  // ----- recovery removes the names that were made -----

  /** A step of p raises, and the five steps of the handler are then undisturbed. */
  function Handled(s: State, p: Pid, c: Choice, v: Verdict): State {
    Repeat(Next(s, p, c), p, Go(v), 5)
  }

  /**
   * From the opening of the pending file on, a step that raises is followed by a handler that drops the pending file, and
   * the marker once it was linked; only a link that raised after its effect leaves the marker, and with it a grade that
   * the failure payload makes unreadable.
   */
  lemma HandlerCleans(s: State, p: Pid, pc: Pc, c: Choice, v: Verdict)
    requires FilesOk(s) && p in s.procs && s.procs[p] == Grader(pc) && ProcOk(s, p, Grader(pc)) && (c.Fail? || c.FailAfter?)
    requires pc.PendingOpen? || pc.PendingWrote? || pc.PendingSynced? || pc.Linked? || pc.Unlinked?
    ensures var t := Handled(s, p, c, v);
            && t.procs == s.procs[p := Grader(Recovered)] && t.owner == s.owner
            && t.fs.pending.None? && t.fs.grade == s.fs.grade
            && ContentOf(t.fs, Handle(t)) == Whole(GradeDoc(FAILED))
            && (t.fs.marker.Some? <==> pc.PendingSynced? && c.FailAfter? && s.fs.marker.None?)
  {
    hide ProvenContent, MarkerContent, FilesOk, Repeat, Next;
    RaiseRecovers(s, p, pc, c);
    HandlerRuns(Next(s, p, c), p, v);
  }

  lemma RaiseRecovers(s: State, p: Pid, pc: Pc, c: Choice)
    requires p in s.procs && s.procs[p] == Grader(pc) && (c.Fail? || c.FailAfter?)
    requires pc.PendingOpen? || pc.PendingWrote? || pc.PendingSynced? || pc.Linked? || pc.Unlinked?
    ensures var t := Next(s, p, c);
            && t.procs == s.procs[p := Grader(Recover(DropMarker, pc.Linked? || pc.Unlinked?, !pc.Unlinked?, None))]
            && t.owner == s.owner && t.fs.grade == s.fs.grade
            && t.fs.marker == (if pc.PendingSynced? && c.FailAfter? && s.fs.marker.None? then s.fs.pending else s.fs.marker)
            && t.fs.pending == (if pc.Linked? && c.FailAfter? then None else s.fs.pending)
  {
    hide OpenStep, EvaluateStep, RecoverStep, LeaveStep;
  }

  /** One undisturbed step of the handler. */
  lemma HandlerStep(s: State, p: Pid, v: Verdict)
    requires p in s.procs && s.procs[p].Grader? && s.procs[p].pc.Recover?
    ensures var (pc, t) := (s.procs[p].pc, Next(s, p, Go(v)));
            match pc.step {
              case DropMarker =>
                t == At(if pc.markerCreated then s.(fs := s.fs.(marker := None)) else s, p, pc.(step := DropPending))
              case DropPending =>
                t == At(if pc.pendingCreated then s.(fs := s.fs.(pending := None)) else s, p, pc.(step := Wipe))
              case Wipe => t == At(WriteGrade(s, Empty), p, pc.(step := Write, unflushed := None))
              case Write => t == At(WriteGrade(s, Whole(GradeDoc(FAILED))), p, pc.(step := Sync))
              case Sync => t == At(s, p, Recovered)
            }
  {
    hide OpenStep, EvaluateStep, PublishStep, LeaveStep;
  }

  /** A handler that nobody disturbs drops what its flags name, and writes and syncs the failure payload. */
  lemma HandlerRuns(s: State, p: Pid, v: Verdict)
    requires p in s.procs && s.procs[p].Grader? && s.procs[p].pc.Recover? && s.procs[p].pc.step.DropMarker?
    ensures var (pc, t) := (s.procs[p].pc, Repeat(s, p, Go(v), 5));
            && t.procs == s.procs[p := Grader(Recovered)] && t.owner == s.owner && t.fs.grade == s.fs.grade
            && t.fs.marker == (if pc.markerCreated then None else s.fs.marker)
            && t.fs.pending == (if pc.pendingCreated then None else s.fs.pending)
            && ContentOf(t.fs, Handle(t)) == Whole(GradeDoc(FAILED))
  {
    hide Next, At, WriteGrade, ContentOf;
    var t2 := Next(Next(s, p, Go(v)), p, Go(v));
    DropsNames(s, p, v);
    var t3 := Next(t2, p, Go(v));
    var t4 := Next(t3, p, Go(v));
    var t5 := Next(t4, p, Go(v));
    Rewrites(t2, p, v);
    RepeatFive(s, p, Go(v), Next(s, p, Go(v)), t2, t3, t4, t5);
  }

  lemma DropsNames(s: State, p: Pid, v: Verdict)
    requires p in s.procs && s.procs[p].Grader? && s.procs[p].pc.Recover? && s.procs[p].pc.step.DropMarker?
    ensures var (pc, t) := (s.procs[p].pc, Next(Next(s, p, Go(v)), p, Go(v)));
            && t.procs == s.procs[p := Grader(pc.(step := Wipe))] && t.owner == s.owner && t.history == s.history
            && t.fs == s.fs.(marker := if pc.markerCreated then None else s.fs.marker,
                             pending := if pc.pendingCreated then None else s.fs.pending)
  {
    hide Next;
    HandlerStep(s, p, v);
    HandlerStep(Next(s, p, Go(v)), p, v);
  }

  lemma Rewrites(s: State, p: Pid, v: Verdict)
    requires p in s.procs && s.procs[p].Grader? && s.procs[p].pc.Recover? && s.procs[p].pc.step.Wipe?
    ensures var t := Next(Next(Next(s, p, Go(v)), p, Go(v)), p, Go(v));
            && t.procs == s.procs[p := Grader(Recovered)] && t.owner == s.owner
            && t.fs.grade == s.fs.grade && t.fs.marker == s.fs.marker && t.fs.pending == s.fs.pending
            && ContentOf(t.fs, Handle(t)) == Whole(GradeDoc(FAILED))
  {
    hide Next;
    HandlerStep(s, p, v);
    var t1 := Next(s, p, Go(v));
    HandlerStep(t1, p, v);
    HandlerStep(Next(t1, p, Go(v)), p, v);
  }

  lemma RepeatFive(s: State, p: Pid, c: Choice, t1: State, t2: State, t3: State, t4: State, t5: State)
    requires t1 == Next(s, p, c) && t2 == Next(t1, p, c) && t3 == Next(t2, p, c) && t4 == Next(t3, p, c) && t5 == Next(t4, p, c)
    ensures Repeat(s, p, c, 5) == t5
  {
    hide Next;
    assert Repeat(t5, p, c, 0) == t5;
    assert Repeat(t4, p, c, 1) == t5;
    assert Repeat(t3, p, c, 2) == t5;
  }

  /** The link to the marker was made, and raised: no flag tells the handler about it. */
  predicate LinkRaises(s: State, p: Pid, q: Pid, c: Choice) {
    p == q && c.FailAfter? && p in s.procs && s.procs[p].Grader? && s.procs[p].pc.PendingSynced? && s.fs.marker.None?
  }

  /** The pending file was created, and its open raised. */
  predicate OpenRaises(s: State, p: Pid, q: Pid, c: Choice) {
    p == q && c.FailAfter? && p in s.procs && s.procs[p].Grader? && s.procs[p].pc.Persisted2? && s.fs.pending.None?
  }

  predicate LinkRaised(s: State, schedule: seq<(Pid, Choice)>, p: Pid) {
    schedule != []
    && var n := |schedule| - 1;
       LinkRaised(s, schedule[..n], p) || LinkRaises(Run(s, schedule[..n]), p, schedule[n].0, schedule[n].1)
  }

  predicate OpenRaised(s: State, schedule: seq<(Pid, Choice)>, p: Pid) {
    schedule != []
    && var n := |schedule| - 1;
       OpenRaised(s, schedule[..n], p) || OpenRaises(Run(s, schedule[..n]), p, schedule[n].0, schedule[n].1)
  }

  /** Which of the names p made are still there, given what raised after its effect. */
  ghost predicate NamesKept(s: State, p: Pid, link: bool, open: bool) {
    p in s.procs && s.procs[p].Grader? ==>
      match s.procs[p].pc {
        case Recover(step, markerCreated, pendingCreated, _) =>
          && (link ==> !markerCreated && s.fs.marker.Some?) && (open ==> !pendingCreated && s.fs.pending.Some?)
          && (s.fs.marker.Some? ==> link || (markerCreated && step.DropMarker?))
          && (s.fs.pending.Some? ==> open || (pendingCreated && (step.DropMarker? || step.DropPending?)))
        case Recovered => (s.fs.marker.Some? <==> link) && (s.fs.pending.Some? <==> open)
        case Leaving(_) => true
        case Raised => true
        case _ => !link && !open
      }
  }

  /** A step of another process leaves p's names alone. */
  lemma NamesOthers(s: State, p: Pid, q: Pid, c: Choice, link: bool, open: bool)
    requires Inv(s) && NamesKept(s, p, link, open) && q != p
    ensures NamesKept(Next(s, q, c), p, link, open)
  {
    hide FilesOk, OwnerFacts, OpenStep, EvaluateStep, PublishStep, RecoverStep, ReaderFacts;
    NextContained(s, q, c);
    if p in s.procs { assert ProcOk(s, p, s.procs[p]); }
  }

  lemma NextContained(s: State, q: Pid, c: Choice)
    requires Inv(s)
    ensures q in s.procs && !s.procs[q].Crashed? ==> Contained(s, Next(s, q, c), q)
    ensures q !in s.procs || s.procs[q].Crashed? ==> Next(s, q, c) == s
  {
    hide FilesOk, ProcOk, GraderStep, Contained;
    if q in s.procs && s.procs[q].Grader? && !c.Crash? {
      assert ProcOk(s, q, s.procs[q]);
      GraderSafe(s, q, s.procs[q].pc, c);
    } else {
      IdleContained(s, q, c);
    }
  }

  lemma IdleContained(s: State, q: Pid, c: Choice)
    requires q in s.procs ==> !s.procs[q].Grader? || c.Crash?
    ensures q in s.procs && !s.procs[q].Crashed? ==> Contained(s, Next(s, q, c), q)
  {
    hide GraderStep;
  }

  lemma NamesOwn(s: State, p: Pid, pc: Pc, c: Choice, link: bool, open: bool)
    requires FilesOk(s) && p in s.procs && s.procs[p] == Grader(pc) && ProcOk(s, p, Grader(pc)) && !c.Crash?
    requires NamesKept(s, p, link, open)
    ensures NamesKept(GraderStep(s, p, pc, c), p, link || LinkRaises(s, p, p, c), open || OpenRaises(s, p, p, c))
  {
    hide FilesOk, ProvenContent, MarkerContent;
    if OpenPc(pc) || EvaluatePc(pc) {
      NamesEarly(s, p, pc, c, link, open);
    } else if pc.Recover? || pc.Leaving? {
      NamesRecover(s, p, pc, c, link, open);
    } else {
      NamesPublish(s, p, pc, c, link, open);
    }
  }

  lemma NamesEarly(s: State, p: Pid, pc: Pc, c: Choice, link: bool, open: bool)
    requires p in s.procs && s.procs[p] == Grader(pc) && ProcOk(s, p, Grader(pc)) && !c.Crash?
    requires NamesKept(s, p, link, open) && (OpenPc(pc) || EvaluatePc(pc))
    ensures NamesKept(GraderStep(s, p, pc, c), p, link, open)
  {
    hide ProvenContent, MarkerContent, PublishStep, RecoverStep;
  }

  lemma NamesRecover(s: State, p: Pid, pc: Pc, c: Choice, link: bool, open: bool)
    requires p in s.procs && s.procs[p] == Grader(pc) && !c.Crash?
    requires NamesKept(s, p, link, open) && (pc.Recover? || pc.Leaving?)
    ensures NamesKept(GraderStep(s, p, pc, c), p, link, open)
  {
    hide PublishStep, OpenStep, EvaluateStep;
  }

  lemma NamesPublish(s: State, p: Pid, pc: Pc, c: Choice, link: bool, open: bool)
    requires p in s.procs && s.procs[p] == Grader(pc) && ProcOk(s, p, Grader(pc)) && !c.Crash?
    requires NamesKept(s, p, link, open) && !OpenPc(pc) && !EvaluatePc(pc) && !pc.Recover? && !pc.Leaving?
    ensures NamesKept(GraderStep(s, p, pc, c), p, link || LinkRaises(s, p, p, c), open || OpenRaises(s, p, p, c))
  {
    hide ProvenContent, MarkerContent, RecoverStep, OpenStep, EvaluateStep;
  }

  lemma NamesStep(s: State, p: Pid, q: Pid, c: Choice, link: bool, open: bool)
    requires Inv(s) && NamesKept(s, p, link, open)
    ensures NamesKept(Next(s, q, c), p, link || LinkRaises(s, p, q, c), open || OpenRaises(s, p, q, c))
  {
    hide FilesOk, ProcOk, GraderStep;
    if q != p {
      NamesOthers(s, p, q, c, link, open);
    } else if p in s.procs && s.procs[p].Grader? && !c.Crash? {
      assert ProcOk(s, p, s.procs[p]);
      NamesOwn(s, p, s.procs[p].pc, c, link, open);
    }
  }

  lemma InitInv(s: State)
    requires Init(s)
    ensures Inv(s)
  {
  }

  lemma {:induction false} NamesRun(s: State, schedule: seq<(Pid, Choice)>, p: Pid)
    requires Init(s)
    ensures NamesKept(Run(s, schedule), p, LinkRaised(s, schedule, p), OpenRaised(s, schedule, p))
  {
    if schedule != [] {
      hide Next, Inv, NamesKept, LinkRaises, OpenRaises, Init;
      var n := |schedule| - 1;
      InitInv(s);
      RunKeeps(s, schedule[..n]);
      NamesRun(s, schedule[..n], p);
      NamesStep(Run(s, schedule[..n]), p, schedule[n].0, schedule[n].1,
                LinkRaised(s, schedule[..n], p), OpenRaised(s, schedule[..n], p));
    }
  }

  /**
   * Over every run: when a grader's recovery has finished, the marker is gone unless its link raised after its effect, and
   * the pending file unless its open did.
   */
  lemma RecoveredNames(s: State, schedule: seq<(Pid, Choice)>, p: Pid)
    requires Init(s)
    ensures var t := Run(s, schedule);
            p in t.procs && t.procs[p] == Grader(Recovered) ==>
              (t.fs.marker.Some? <==> LinkRaised(s, schedule, p)) && (t.fs.pending.Some? <==> OpenRaised(s, schedule, p))
  {
    hide Run, LinkRaised, OpenRaised;
    NamesRun(s, schedule, p);
  }

  /** Steps left before an undisturbed grader returns. */
  function StepsLeft(pc: Pc): nat {
    match pc {
      case Idle => 16
      case Checked => 15
      case Opened => 14
      case Wiped1 => 13
      case Wrote1 => 12
      case Persisted1 => 11
      case Evaluated(_) => 10
      case WorkspaceOk(_) => 9
      case SourcesOk(_) => 8
      case Wiped2(_) => 7
      case Wrote2(_) => 6
      case Persisted2(_) => 5
      case PendingOpen(_) => 4
      case PendingWrote(_) => 3
      case PendingSynced(_) => 2
      case Linked(_) => 1
      case _ => 0
    }
  }

  predicate Verdicts(pc: Pc, v: Verdict) {
    match pc {
      case Evaluated(w) => w == v
      case WorkspaceOk(w) => w == v
      case SourcesOk(w) => w == v
      case Wiped2(w) => w == v
      case Wrote2(w) => w == v
      case Persisted2(w) => w == v
      case PendingOpen(w) => w == v
      case PendingWrote(w) => w == v
      case PendingSynced(w) => w == v
      case Linked(w) => w == v
      case Unlinked(w) => w == v
      case _ => true
    }
  }

  lemma GoAdvances(s: State, p: Pid, pc: Pc, v: Verdict)
    requires p in s.procs && s.procs[p] == Grader(pc) && ProcOk(s, p, Grader(pc)) && FilesOk(s)
    requires StepsLeft(pc) > 0 && Verdicts(pc, v)
    requires Before(pc) ==> s.owner.None? && s.fs.marker.None? && s.fs.pending.None?
    ensures var t := Next(s, p, Go(v));
            && p in t.procs && t.procs[p].Grader?
            && StepsLeft(t.procs[p].pc) == StepsLeft(pc) - 1 && Verdicts(t.procs[p].pc, v)
            && (t.procs[p].pc.Unlinked? || StepsLeft(t.procs[p].pc) > 0)
            && (Before(t.procs[p].pc) ==> t.owner.None? && t.fs.marker.None? && t.fs.pending.None?)
  {
    hide ProvenContent, MarkerContent;
  }

  /** An undisturbed grader of a fresh slot returns the verdict its evaluation gave. */
  lemma {:induction false} UndisturbedGraderReturns(s: State, p: Pid, v: Verdict) returns (t: State, n: nat)
    requires Inv(s) && p in s.procs && s.procs[p].Grader?
    requires (StepsLeft(s.procs[p].pc) > 0 || s.procs[p].pc.Unlinked?) && Verdicts(s.procs[p].pc, v)
    requires Before(s.procs[p].pc) ==> s.owner.None? && s.fs.marker.None? && s.fs.pending.None?
    ensures t == Repeat(s, p, Go(v), n) && p in t.procs && t.procs[p] == Grader(Done(v))
    decreases StepsLeft(s.procs[p].pc)
  {
    var next := Next(s, p, Go(v));
    if s.procs[p].pc.Unlinked? {
      t, n := next, 1;
      assert Repeat(next, p, Go(v), 0) == next;
    } else {
      assert ProcOk(s, p, s.procs[p]);
      GoAdvances(s, p, s.procs[p].pc, v);
      NextKeeps(s, p, Go(v));
      var m: nat;
      t, m := UndisturbedGraderReturns(next, p, v);
      n := m + 1;
    }
  }

  function Repeat(s: State, p: Pid, c: Choice, n: nat): State
    decreases n
  {
    if n == 0 then s else Repeat(Next(s, p, c), p, c, n - 1)
  }
}
