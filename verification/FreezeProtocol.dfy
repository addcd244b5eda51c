/**
 * Appenders, aborters and freezers sharing one results directory through O_EXCL lock files
 * (benchmarks/runner.py, benchmarks/four_arm.py). Every process is a small program counter; a
 * schedule interleaves single steps in any order, crashes processes and loses lock releases.
 */
module FreezeProtocol {
  import opened Common
  import opened ExperimentPlan
  import opened ResultLog

  type Pid = nat
  type RunId = string

  /** The digest of a whole log file. */
  datatype FileSha = FileSha(rows: seq<Row>)

  datatype Freeze = Freeze(runId: RunId, resultSha: FileSha)

  datatype Manifest = Manifest(config: string, freeze: Option<Freeze>)

  /** The public summary: aggregates of the rows of one run. */
  datatype Summary = Summary(runId: RunId, rows: seq<Row>)

  datatype WriterPc =
    | WStart | WAdmitted | WManifestLocked | WLocked | WRechecked | WChecked(rows: seq<Row>)
    | WUnlockLog | WUnlockManifest | WEnded

  datatype FreezerPc =
    | FStart
    | FScanned(runId: RunId)
    | FChosen(runId: RunId, sha: FileSha)
    | FManifestLocked(runId: RunId, sha: FileSha)
    | FLocked(runId: RunId, sha: FileSha)
    | FLoaded(runId: RunId, sha: FileSha, config: string)
    | FRechecked(runId: RunId, sha: FileSha, config: string)
    | FHashed(runId: RunId, sha: FileSha, config: string)
    | FStaged(runId: RunId, sha: FileSha, config: string, summary: Summary)
    | FConfirmed(runId: RunId, sha: FileSha, config: string, summary: Summary)
    | FCommitted(runId: RunId, summary: Summary)
    | FUnlockLog(runId: RunId)
    | FUnlockManifest
    | FEnded

  datatype Proc =
    | Writer(runId: RunId, op: Op, pc: WriterPc)
    | Freezer(request: Option<RunId>, fpc: FreezerPc)
    | Crashed

  datatype State = State(manifest: Manifest, logs: map<RunId, seq<Row>>, summary: Option<Summary>,
                         manifestLock: Option<Pid>, logLocks: map<RunId, Pid>, procs: map<Pid, Proc>)

  /** What the outside supplies to a step: a run to look at, the code fingerprints, and readiness. */
  datatype Env = Env(runId: RunId, code: Fingerprints, ready: bool)

  /**
   * Go takes the next step. Abandon gives up waiting for a lock, raises inside the locked part, or
   * fails to delete a lock file. Crash stops the process where it is. Edit rewrites the manifest's
   * predeclared part, as an operator may at any time.
   */
  datatype Choice = Go(env: Env) | Abandon | Crash | Edit(config: string)

  function Log(s: State, r: RunId): seq<Row> {
    if r in s.logs then s.logs[r] else []
  }

  function SetProc(s: State, p: Pid, proc: Proc): State {
    s.(procs := s.procs[p := proc])
  }

  function WithManifest(prints: Fingerprints, config: string): Fingerprints {
    prints.(manifest := config)
  }

  /** The prints the controller computes from the manifest it has just read. */
  function Stamped(op: Op, config: string): Op {
    op.(prints := WithManifest(op.prints, config))
  }

  /** What _run_blockers accepts, under the plan of one manifest. */
  ghost predicate Complete(rows: seq<Row>, runId: RunId, planOf: PlanOfManifest, prints: Fingerprints) {
    var plan := planOf(prints.manifest);
    && |rows| == |plan| && |rows| <= MAX_RESULT_RECORDS
    && ValidChain(rows) && NoAbort(rows)
    && forall i | 0 <= i < |rows| ::
         var f := rows[i].fields;
         && Live(f) && f.nonPresentation == Falsy && f.status == Completed && f.runId == runId
         && f.prints == prints && Names(f, plan[i])
  }

  ghost predicate NoBlockers(s: State, runId: RunId, env: Env, planOf: PlanOfManifest) {
    env.ready && Complete(Log(s, runId), runId, planOf, WithManifest(env.code, s.manifest.config))
  }

  /** The unlocked checks of append_immutable and append_abort. */
  ghost predicate Admitted(s: State, runId: RunId, op: Op, planOf: PlanOfManifest) {
    var plan := planOf(op.prints.manifest);
    match op {
      case RowOp(sub, prints) => Submittable(sub, runId, prints, plan)
      case AbortOp(task, arm, _, prints) => NextScheduled(Log(s, runId), runId, task, arm, prints, plan)
    }
  }

  ghost function WriterStep(s: State, p: Pid, w: Proc, planOf: PlanOfManifest): State
    requires w.Writer?
  {
    var r := w.runId;
    match w.pc {
      case WStart =>
        var op := Stamped(w.op, s.manifest.config);
        if s.manifest.freeze.None? && Admitted(s, r, op, planOf) then SetProc(s, p, Writer(r, op, WAdmitted))
        else SetProc(s, p, w.(pc := WEnded))
      case WAdmitted =>
        if s.manifestLock.None? then SetProc(s.(manifestLock := Some(p)), p, w.(pc := WManifestLocked)) else s
      case WManifestLocked =>
        if r !in s.logLocks then SetProc(s.(logLocks := s.logLocks[r := p]), p, w.(pc := WLocked)) else s
      case WLocked =>
        if s.manifest.freeze.None? && s.manifest.config == w.op.prints.manifest
        then SetProc(s, p, w.(pc := WRechecked)) else SetProc(s, p, w.(pc := WUnlockLog))
      case WRechecked =>
        if Accepted(Log(s, r), r, w.op, planOf)
        then SetProc(s, p, w.(pc := WChecked(Log(s, r)))) else SetProc(s, p, w.(pc := WUnlockLog))
      case WChecked(rows) =>
        if Accepted(rows, r, w.op, planOf)
        then var row := Chained(rows, Committed(rows, r, w.op, planOf));
             SetProc(s.(logs := s.logs[r := Log(s, r) + [row]]), p, w.(pc := WUnlockLog))
        else SetProc(s, p, w.(pc := WUnlockLog))
      case WUnlockLog => SetProc(s.(logLocks := s.logLocks - {r}), p, w.(pc := WUnlockManifest))
      case WUnlockManifest => SetProc(s.(manifestLock := None), p, w.(pc := WEnded))
      case WEnded => s
    }
  }

  function WriterAbandon(s: State, p: Pid, w: Proc): State
    requires w.Writer?
  {
    match w.pc {
      case WStart | WAdmitted | WUnlockManifest | WEnded => SetProc(s, p, w.(pc := WEnded))
      case WManifestLocked | WUnlockLog => SetProc(s, p, w.(pc := WUnlockManifest))
      case _ => SetProc(s, p, w.(pc := WUnlockLog))
    }
  }

  ghost function FreezerStep(s: State, p: Pid, f: Proc, env: Env, planOf: PlanOfManifest): State
    requires f.Freezer?
  {
    match f.fpc {
      case FStart =>
        if (f.request.None? || f.request.value == env.runId) && NoBlockers(s, env.runId, env, planOf)
        then SetProc(s, p, f.(fpc := FScanned(env.runId))) else SetProc(s, p, f.(fpc := FEnded))
      case FScanned(r) => SetProc(s, p, f.(fpc := FChosen(r, FileSha(Log(s, r)))))
      case FChosen(r, sha) =>
        if s.manifestLock.None?
        then SetProc(s.(manifestLock := Some(p)), p, f.(fpc := FManifestLocked(r, sha))) else s
      case FManifestLocked(r, sha) =>
        if r !in s.logLocks then SetProc(s.(logLocks := s.logLocks[r := p]), p, f.(fpc := FLocked(r, sha))) else s
      case FLocked(r, sha) =>
        SetProc(s, p, f.(fpc := if s.manifest.freeze.None? then FLoaded(r, sha, s.manifest.config) else FUnlockLog(r)))
      case FLoaded(r, sha, config) =>
        SetProc(s, p, f.(fpc := if NoBlockers(s, r, env, planOf) then FRechecked(r, sha, config) else FUnlockLog(r)))
      case FRechecked(r, sha, config) =>
        SetProc(s, p, f.(fpc := if FileSha(Log(s, r)) == sha then FHashed(r, sha, config) else FUnlockLog(r)))
      case FHashed(r, sha, config) =>
        SetProc(s, p, f.(fpc := FStaged(r, sha, config, Summary(r, Log(s, r)))))
      case FStaged(r, sha, config, summary) =>
        SetProc(s, p, f.(fpc := if FileSha(Log(s, r)) == sha then FConfirmed(r, sha, config, summary) else FUnlockLog(r)))
      case FConfirmed(r, sha, config, summary) =>
        SetProc(s.(manifest := Manifest(config, Some(Freeze(r, sha)))), p, f.(fpc := FCommitted(r, summary)))
      case FCommitted(r, summary) =>
        SetProc(s.(summary := Some(summary)), p, f.(fpc := FUnlockLog(r)))
      case FUnlockLog(r) => SetProc(s.(logLocks := s.logLocks - {r}), p, f.(fpc := FUnlockManifest))
      case FUnlockManifest => SetProc(s.(manifestLock := None), p, f.(fpc := FEnded))
      case FEnded => s
    }
  }

  function FreezerAbandon(s: State, p: Pid, f: Proc): State
    requires f.Freezer?
  {
    match f.fpc {
      case FStart | FScanned(_) | FChosen(_, _) | FUnlockManifest | FEnded => SetProc(s, p, f.(fpc := FEnded))
      case FManifestLocked(_, _) | FUnlockLog(_) => SetProc(s, p, f.(fpc := FUnlockManifest))
      case _ => SetProc(s, p, f.(fpc := FUnlockLog(f.fpc.runId)))
    }
  }

  ghost function Next(s: State, p: Pid, c: Choice, planOf: PlanOfManifest): State {
    if c.Edit? then s.(manifest := s.manifest.(config := c.config))
    else if p !in s.procs then s
    else match s.procs[p] {
      case Crashed => s
      case Writer(_, _, _) =>
        if c.Go? then WriterStep(s, p, s.procs[p], planOf)
        else if c.Abandon? then WriterAbandon(s, p, s.procs[p]) else SetProc(s, p, Crashed)
      case Freezer(_, _) =>
        if c.Go? then FreezerStep(s, p, s.procs[p], c.env, planOf)
        else if c.Abandon? then FreezerAbandon(s, p, s.procs[p]) else SetProc(s, p, Crashed)
    }
  }

  ghost function Run(s: State, schedule: seq<(Pid, Choice)>, planOf: PlanOfManifest): State {
    if schedule == [] then s
    else
      var n := |schedule| - 1;
      Next(Run(s, schedule[..n], planOf), schedule[n].0, schedule[n].1, planOf)
  }

  ghost predicate Init(s: State) {
    && s.manifest.freeze.None? && s.logs == map[] && s.summary.None?
    && s.manifestLock.None? && s.logLocks == map[]
    && forall p | p in s.procs ::
         match s.procs[p] {
           case Writer(_, _, pc) => pc.WStart?
           case Freezer(_, pc) => pc.FStart?
           case Crashed => true
         }
  }

  // ----- the invariant -----

  predicate HoldsManifest(proc: Proc) {
    match proc {
      case Writer(_, _, pc) => !(pc.WStart? || pc.WAdmitted? || pc.WEnded?)
      case Freezer(_, pc) => !(pc.FStart? || pc.FScanned? || pc.FChosen? || pc.FEnded?)
      case Crashed => false
    }
  }

  /** The run whose log lock the process holds, if any. */
  function HeldLog(proc: Proc): Option<RunId> {
    if !HoldsManifest(proc) then None
    else match proc {
      case Writer(run, _, pc) => if pc.WManifestLocked? || pc.WUnlockManifest? then None else Some(run)
      case Freezer(_, pc) => if pc.FManifestLocked? || pc.FUnlockManifest? then None else Some(pc.runId)
      case Crashed => None
    }
  }

  ghost predicate Finished(s: State, r: RunId, planOf: PlanOfManifest) {
    exists prints :: Complete(Log(s, r), r, planOf, prints)
  }

  ghost predicate LocksOk(s: State, p: Pid, proc: Proc) {
    && (HoldsManifest(proc) ==> s.manifestLock == Some(p))
    && (HeldLog(proc).Some? ==> HeldLog(proc).value in s.logLocks && s.logLocks[HeldLog(proc).value] == p)
  }

  /** What a process may rely on at its program counter. */
  ghost predicate FactsOk(s: State, proc: Proc, planOf: PlanOfManifest) {
    match proc {
      case Writer(r, op, pc) =>
        && (pc.WRechecked? || pc.WChecked? ==> s.manifest.freeze.None?)
        && (pc.WChecked? ==> pc.rows == Log(s, r))
      case Freezer(_, pc) => FreezerFacts(s, pc, planOf)
      case Crashed => true
    }
  }

  ghost predicate FreezerFacts(s: State, pc: FreezerPc, planOf: PlanOfManifest) {
    match pc {
      case FLoaded(_, _, _) => s.manifest.freeze.None?
      case FRechecked(r, _, _) => s.manifest.freeze.None? && Finished(s, r, planOf)
      case FHashed(r, sha, _) => s.manifest.freeze.None? && Finished(s, r, planOf) && sha == FileSha(Log(s, r))
      case FStaged(r, sha, _, summary) =>
        s.manifest.freeze.None? && Finished(s, r, planOf) && sha == FileSha(Log(s, r)) && summary == Summary(r, Log(s, r))
      case FConfirmed(r, sha, _, summary) =>
        s.manifest.freeze.None? && Finished(s, r, planOf) && sha == FileSha(Log(s, r)) && summary == Summary(r, Log(s, r))
      case FCommitted(r, summary) =>
        s.manifest.freeze.Some? && s.manifest.freeze.value.runId == r && summary == Summary(r, Log(s, r))
      case _ => true
    }
  }

  ghost predicate ProcOk(s: State, p: Pid, proc: Proc, planOf: PlanOfManifest) {
    LocksOk(s, p, proc) && FactsOk(s, proc, planOf)
  }

  ghost predicate FilesOk(s: State, planOf: PlanOfManifest) {
    && (forall r :: Orderly(Log(s, r), r, planOf))
    && (s.manifest.freeze.Some? ==>
          var f := s.manifest.freeze.value;
          f.resultSha == FileSha(Log(s, f.runId)) && Finished(s, f.runId, planOf))
    && (s.summary.Some? ==>
          && s.manifest.freeze.Some? && s.manifest.freeze.value.runId == s.summary.value.runId
          && s.summary.value.rows == Log(s, s.summary.value.runId))
  }

  ghost predicate Inv(s: State, planOf: PlanOfManifest) {
    FilesOk(s, planOf) && forall p | p in s.procs :: ProcOk(s, p, s.procs[p], planOf)
  }

  ghost predicate SameFiles(s: State, s': State) {
    s'.logs == s.logs && s'.manifest.freeze == s.manifest.freeze && s'.summary == s.summary
  }

  /** A step of p disturbs nobody else: it touches files and locks only as far as p holds the manifest lock. */
  ghost predicate Disciplined(s: State, s': State, p: Pid) {
    && p in s'.procs && s'.procs == s.procs[p := s'.procs[p]]
    && (SameFiles(s, s') || s.manifestLock == Some(p))
    && (s'.manifestLock == s.manifestLock || s.manifestLock.None? || s.manifestLock == Some(p))
    && (s'.logLocks == s.logLocks || s.manifestLock == Some(p))
  }

  lemma FilesCarry(s: State, s': State, planOf: PlanOfManifest)
    requires SameFiles(s, s')
    ensures FilesOk(s, planOf) ==> FilesOk(s', planOf)
    ensures forall r :: Finished(s, r, planOf) ==> Finished(s', r, planOf)
    ensures forall proc :: FactsOk(s, proc, planOf) ==> FactsOk(s', proc, planOf)
  {
    assert forall r :: Log(s', r) == Log(s, r);
  }

  lemma OthersUndisturbed(s: State, s': State, p: Pid, q: Pid, planOf: PlanOfManifest)
    requires Inv(s, planOf) && Disciplined(s, s', p)
    requires q != p && q in s'.procs
    ensures ProcOk(s', q, s'.procs[q], planOf)
  {
    var proc := s.procs[q];
    assert ProcOk(s, q, proc, planOf);
    if HoldsManifest(proc) {
      FilesCarry(s, s', planOf);
    }
  }

  lemma WriterDisciplined(s: State, p: Pid, planOf: PlanOfManifest)
    requires p in s.procs && s.procs[p].Writer? && LocksOk(s, p, s.procs[p])
    ensures var s' := WriterStep(s, p, s.procs[p], planOf);
            Disciplined(s, s', p) && LocksOk(s', p, s'.procs[p])
  {
    hide Accepted, Admitted, Committed;
    assert s.procs[p := s.procs[p]] == s.procs;
  }

  lemma WriterLocal(s: State, p: Pid, planOf: PlanOfManifest)
    requires p in s.procs && s.procs[p].Writer? && FactsOk(s, s.procs[p], planOf)
    ensures var w := s.procs[p];
            var s' := WriterStep(s, p, w, planOf);
            && p in s'.procs && FactsOk(s', s'.procs[p], planOf)
            && (!(w.pc.WChecked? && Accepted(w.pc.rows, w.runId, w.op, planOf)) ==> SameFiles(s, s'))
  {
    hide Accepted, Admitted, Committed;
  }

  lemma WriterStepSafe(s: State, p: Pid, planOf: PlanOfManifest)
    requires FilesOk(s, planOf) && p in s.procs && s.procs[p].Writer? && FactsOk(s, s.procs[p], planOf)
    ensures FilesOk(WriterStep(s, p, s.procs[p], planOf), planOf)
  {
    var w := s.procs[p];
    if w.pc.WChecked? && Accepted(w.pc.rows, w.runId, w.op, planOf) {
      AppendSafe(s, p, planOf);
    } else {
      WriterLocal(s, p, planOf);
      FilesCarry(s, WriterStep(s, p, w, planOf), planOf);
    }
  }

  lemma AppendSafe(s: State, p: Pid, planOf: PlanOfManifest)
    requires FilesOk(s, planOf) && p in s.procs && s.procs[p].Writer? && FactsOk(s, s.procs[p], planOf)
    requires s.procs[p].pc.WChecked? && Accepted(s.procs[p].pc.rows, s.procs[p].runId, s.procs[p].op, planOf)
    ensures FilesOk(WriterStep(s, p, s.procs[p], planOf), planOf)
  {
    var w := s.procs[p];
    var s' := WriterStep(s, p, w, planOf);
    StepOrderly(Log(s, w.runId), w.runId, w.op, planOf);
    forall r ensures Orderly(Log(s', r), r, planOf) {
      if r != w.runId { assert Log(s', r) == Log(s, r); }
    }
  }

  lemma FreezerDisciplined(s: State, p: Pid, env: Env, planOf: PlanOfManifest)
    requires p in s.procs && s.procs[p].Freezer? && LocksOk(s, p, s.procs[p])
    ensures var s' := FreezerStep(s, p, s.procs[p], env, planOf);
            Disciplined(s, s', p) && LocksOk(s', p, s'.procs[p])
  {
    hide NoBlockers;
    assert s.procs[p := s.procs[p]] == s.procs;
  }

  /** An empty blocker list under the locks means the log is a finished run. */
  lemma RecheckFinished(s: State, r: RunId, env: Env, planOf: PlanOfManifest)
    requires NoBlockers(s, r, env, planOf)
    ensures Finished(s, r, planOf)
  {
    assert Complete(Log(s, r), r, planOf, WithManifest(env.code, s.manifest.config));
  }

  ghost predicate CommitPc(pc: FreezerPc) {
    pc.FConfirmed? || pc.FCommitted?
  }

  lemma FreezerLocalFiles(s: State, p: Pid, env: Env, planOf: PlanOfManifest)
    requires p in s.procs && s.procs[p].Freezer? && !CommitPc(s.procs[p].fpc)
    ensures SameFiles(s, FreezerStep(s, p, s.procs[p], env, planOf))
  {
  }

  lemma FreezerLocalFacts(s: State, p: Pid, env: Env, planOf: PlanOfManifest)
    requires p in s.procs && s.procs[p].Freezer? && !CommitPc(s.procs[p].fpc)
    requires FreezerFacts(s, s.procs[p].fpc, planOf)
    ensures var s' := FreezerStep(s, p, s.procs[p], env, planOf);
            p in s'.procs && s'.procs[p].Freezer? && FreezerFacts(s, s'.procs[p].fpc, planOf)
  {
    match s.procs[p].fpc {
      case FLoaded(r, sha, config) =>
        if NoBlockers(s, r, env, planOf) { RecheckFinished(s, r, env, planOf); }
      case _ =>
    }
  }

  lemma CommitSafe(s: State, p: Pid, env: Env, planOf: PlanOfManifest)
    requires FilesOk(s, planOf) && p in s.procs && s.procs[p].Freezer? && FactsOk(s, s.procs[p], planOf)
    requires s.procs[p].fpc.FConfirmed? || s.procs[p].fpc.FCommitted?
    ensures var s' := FreezerStep(s, p, s.procs[p], env, planOf);
            p in s'.procs && FilesOk(s', planOf) && FactsOk(s', s'.procs[p], planOf)
  {
    var s' := FreezerStep(s, p, s.procs[p], env, planOf);
    assert forall r :: Log(s', r) == Log(s, r);
    assert forall r :: Finished(s, r, planOf) ==> Finished(s', r, planOf);
  }

  lemma FreezerStepSafe(s: State, p: Pid, env: Env, planOf: PlanOfManifest)
    requires FilesOk(s, planOf) && p in s.procs && s.procs[p].Freezer? && FactsOk(s, s.procs[p], planOf)
    ensures var s' := FreezerStep(s, p, s.procs[p], env, planOf);
            p in s'.procs && FilesOk(s', planOf) && FactsOk(s', s'.procs[p], planOf)
  {
    if s.procs[p].fpc.FConfirmed? || s.procs[p].fpc.FCommitted? {
      CommitSafe(s, p, env, planOf);
    } else {
      FreezerLocalFiles(s, p, env, planOf);
      FreezerLocalFacts(s, p, env, planOf);
      FilesCarry(s, FreezerStep(s, p, s.procs[p], env, planOf), planOf);
    }
  }

  lemma WriterAbandonSafe(s: State, p: Pid, planOf: PlanOfManifest)
    requires p in s.procs && s.procs[p].Writer? && ProcOk(s, p, s.procs[p], planOf)
    ensures var s' := WriterAbandon(s, p, s.procs[p]);
            SameFiles(s, s') && Disciplined(s, s', p) && ProcOk(s', p, s'.procs[p], planOf)
  {
  }

  lemma FreezerAbandonSafe(s: State, p: Pid, planOf: PlanOfManifest)
    requires p in s.procs && s.procs[p].Freezer? && ProcOk(s, p, s.procs[p], planOf)
    ensures var s' := FreezerAbandon(s, p, s.procs[p]);
            SameFiles(s, s') && Disciplined(s, s', p) && ProcOk(s', p, s'.procs[p], planOf)
  {
    hide Finished;
  }

  lemma NextKeeps(s: State, p: Pid, c: Choice, planOf: PlanOfManifest)
    requires Inv(s, planOf)
    ensures Inv(Next(s, p, c, planOf), planOf)
  {
    var s' := Next(s, p, c, planOf);
    if c.Edit? {
      FilesCarry(s, s', planOf);
      forall q | q in s'.procs ensures ProcOk(s', q, s'.procs[q], planOf) {
        assert ProcOk(s, q, s.procs[q], planOf);
      }
    } else if p in s.procs && !s.procs[p].Crashed? {
      if c.Go? && s.procs[p].Writer? {
        WriterDisciplined(s, p, planOf);
        WriterLocal(s, p, planOf);
        WriterStepSafe(s, p, planOf);
      } else if c.Go? {
        FreezerDisciplined(s, p, c.env, planOf);
        FreezerStepSafe(s, p, c.env, planOf);
      } else if c.Abandon? {
        if s.procs[p].Writer? { WriterAbandonSafe(s, p, planOf); } else { FreezerAbandonSafe(s, p, planOf); }
        FilesCarry(s, s', planOf);
      } else {
        FilesCarry(s, s', planOf);
      }
      forall q | q in s'.procs ensures ProcOk(s', q, s'.procs[q], planOf) {
        if q != p { OthersUndisturbed(s, s', p, q, planOf); }
      }
    }
  }

  /** The invariant holds after every schedule of any number of processes. */
  lemma {:induction false} RunKeeps(s: State, schedule: seq<(Pid, Choice)>, planOf: PlanOfManifest)
    requires Inv(s, planOf)
    ensures Inv(Run(s, schedule, planOf), planOf)
  {
    if schedule != [] {
      var n := |schedule| - 1;
      RunKeeps(s, schedule[..n], planOf);
      NextKeeps(Run(s, schedule[..n], planOf), schedule[n].0, schedule[n].1, planOf);
    }
  }

  lemma InitInv(s: State, planOf: PlanOfManifest)
    requires Init(s)
    ensures Inv(s, planOf)
  {
    forall p | p in s.procs ensures ProcOk(s, p, s.procs[p], planOf) {
      assert !HoldsManifest(s.procs[p]);
    }
  }

  // ----- main results -----

  /** A frozen manifest stays frozen for the same run and digest, and no log of any run grows again. */
  lemma FrozenStep(s: State, p: Pid, c: Choice, planOf: PlanOfManifest)
    requires p in s.procs ==> FactsOk(s, s.procs[p], planOf)
    requires s.manifest.freeze.Some?
    ensures var s' := Next(s, p, c, planOf);
            s'.manifest.freeze == s.manifest.freeze && s'.logs == s.logs
  {
    hide Accepted, Admitted, NoBlockers, Finished, Committed;
  }

  lemma {:induction false} FrozenForever(s: State, schedule: seq<(Pid, Choice)>, planOf: PlanOfManifest)
    requires Inv(s, planOf) && s.manifest.freeze.Some?
    ensures var s' := Run(s, schedule, planOf);
            && s'.manifest.freeze == s.manifest.freeze && s'.logs == s.logs
            && FileSha(Log(s', s'.manifest.freeze.value.runId)) == s.manifest.freeze.value.resultSha
  {
    if schedule != [] {
      var n := |schedule| - 1;
      FrozenForever(s, schedule[..n], planOf);
      RunKeeps(s, schedule[..n], planOf);
      var mid := Run(s, schedule[..n], planOf);
      if schedule[n].0 in mid.procs {
        assert ProcOk(mid, schedule[n].0, mid.procs[schedule[n].0], planOf);
      }
      FrozenStep(mid, schedule[n].0, schedule[n].1, planOf);
    }
  }

  /** From a fresh directory, whatever happens: the digest matches, and a summary is never ahead of the freeze. */
  lemma FreezeSafety(s: State, before: seq<(Pid, Choice)>, after: seq<(Pid, Choice)>, planOf: PlanOfManifest)
    requires Init(s)
    ensures var mid := Run(s, before, planOf);
            && (mid.manifest.freeze.Some? ==>
                  var end := Run(mid, after, planOf);
                  var f := mid.manifest.freeze.value;
                  end.manifest.freeze == Some(f) && FileSha(Log(end, f.runId)) == f.resultSha)
            && (mid.summary.Some? ==>
                  && mid.manifest.freeze.Some?
                  && mid.manifest.freeze.value.runId == mid.summary.value.runId
                  && FileSha(mid.summary.value.rows) == mid.manifest.freeze.value.resultSha)
  {
    InitInv(s, planOf);
    RunKeeps(s, before, planOf);
    var mid := Run(s, before, planOf);
    if mid.manifest.freeze.Some? {
      FrozenForever(mid, after, planOf);
    }
  }

  lemma BlockedStep(s: State, p: Pid, q: Pid, c: Choice, planOf: PlanOfManifest)
    requires q in s.procs ==> ProcOk(s, q, s.procs[q], planOf)
    requires s.manifestLock == Some(p) && p in s.procs && s.procs[p].Crashed?
    ensures var s' := Next(s, q, c, planOf);
            SameFiles(s, s') && s'.manifestLock == Some(p) && p in s'.procs && s'.procs[p].Crashed?
  {
    hide Accepted, Admitted, NoBlockers, Finished, Committed;
  }

  /** A process that crashed holding the manifest lock stops every later append, freeze and summary. */
  lemma {:induction false} StaleLockFailsClosed(s: State, p: Pid, schedule: seq<(Pid, Choice)>, planOf: PlanOfManifest)
    requires Inv(s, planOf)
    requires s.manifestLock == Some(p) && p in s.procs && s.procs[p].Crashed?
    ensures var s' := Run(s, schedule, planOf);
            SameFiles(s, s') && s'.manifestLock == Some(p) && p in s'.procs && s'.procs[p].Crashed?
  {
    if schedule != [] {
      var n := |schedule| - 1;
      StaleLockFailsClosed(s, p, schedule[..n], planOf);
      RunKeeps(s, schedule[..n], planOf);
      BlockedStep(Run(s, schedule[..n], planOf), p, schedule[n].0, schedule[n].1, planOf);
    }
  }

  /** The frozen log of the canonical suite, whatever its manifest's seed, holds every task under every arm exactly once. */
  lemma FrozenLogBalanced(s: State, planOf: PlanOfManifest, seedOf: string -> Seed, task: string, arm: Arm)
    requires Inv(s, planOf) && s.manifest.freeze.Some?
    requires forall m :: planOf(m) == PlanOf(ALL_TASK_IDS, seedOf(m))
    requires task in ALL_TASK_IDS && arm.Arm?
    ensures var rows := Log(s, s.manifest.freeze.value.runId);
            && |rows| == 32
            && exists i :: 0 <= i < |rows| && rows[i].fields.task == task && rows[i].fields.arm == arm
                 && forall j | 0 <= j < |rows| && j != i :: rows[j].fields.task != task || rows[j].fields.arm != arm
  {
    var r := s.manifest.freeze.value.runId;
    var rows := Log(s, r);
    var prints :| Complete(rows, r, planOf, prints);
    CanonicalTasksDistinct();
    var i := PlanCovers(ALL_TASK_IDS, seedOf(prints.manifest), task, arm);
    assert Names(rows[i].fields, planOf(prints.manifest)[i]);
    forall j | 0 <= j < |rows| && j != i ensures rows[j].fields.task != task || rows[j].fields.arm != arm {
      assert Orderly(rows, r, planOf);
      assert PairsUnique(rows);
    }
  }

  /** The canonical run, submitted in the order of its plan, is accepted to its end and then leaves no blocker. */
  lemma CanonicalRunCompletes(runId: RunId, prints: Fingerprints, seed: Seed, planOf: PlanOfManifest)
    requires planOf(prints.manifest) == PlanOf(ALL_TASK_IDS, seed)
    ensures |PlanOf(ALL_TASK_IDS, seed)| == 32
    ensures Complete(ResultLog.Run(RowsFor(PlanOf(ALL_TASK_IDS, seed), 32, runId, prints), runId, planOf), runId, planOf, prints)
  {
    hide ResultLog.Run, ValidChain, PlanOf;
    var plan := PlanOf(ALL_TASK_IDS, seed);
    CanonicalTasksDistinct();
    CanonicalPlanDistinct(seed);
    forall i | 0 <= i < |plan| ensures plan[i].arm.Arm? {
      PlanEntriesDistinct(ALL_TASK_IDS, seed, if i == 0 then 0 else i - 1, if i == 0 then 1 else i);
    }
    PlanRunsToEnd(plan, 32, runId, prints, planOf);
    CompletedPlan(ResultLog.Run(RowsFor(plan, 32, runId, prints), runId, planOf), plan, runId, prints, planOf);
  }

  lemma CompletedPlan(rows: seq<Row>, plan: seq<Entry>, runId: RunId, prints: Fingerprints, planOf: PlanOfManifest)
    requires RunSoFar(rows, |plan|, plan, runId, prints) && |plan| <= MAX_RESULT_RECORDS && planOf(prints.manifest) == plan
    ensures Complete(rows, runId, planOf, prints)
  {
    hide ValidChain;
    forall i | 0 <= i < |rows| ensures Live(rows[i].fields) && rows[i].fields.status == Completed && rows[i].fields.runId == runId {
      assert LiveRow(rows[i].fields, runId);
    }
  }

  // ----- only a requested, ready run is frozen -----

  /** The run a freezer works on, once it has chosen one. */
  function ChosenRun(pc: FreezerPc): Option<RunId> {
    match pc {
      case FStart | FUnlockManifest | FEnded => None
      case _ => Some(pc.runId)
    }
  }

  predicate Permits(request: Option<RunId>, r: RunId) {
    request.None? || request.value == r
  }

  /** Some freezer of the directory was asked for the run, or for none in particular. */
  ghost predicate Requested(s: State, r: RunId) {
    exists p :: p in s.procs && s.procs[p].Freezer? && Permits(s.procs[p].request, r)
  }

  /** No freezer works on a run it was not asked for, and neither the freeze nor the summary names one nobody asked for. */
  ghost predicate Asked(start: State, s: State) {
    && (forall p | p in s.procs && s.procs[p].Freezer? ::
          && p in start.procs && start.procs[p].Freezer? && start.procs[p].request == s.procs[p].request
          && (ChosenRun(s.procs[p].fpc).Some? ==> Permits(s.procs[p].request, ChosenRun(s.procs[p].fpc).value)))
    && (s.manifest.freeze.Some? ==> Requested(start, s.manifest.freeze.value.runId))
  }

  lemma FreezerAsks(s: State, p: Pid, c: Choice, planOf: PlanOfManifest)
    requires p in s.procs && s.procs[p].Freezer? && !c.Edit?
    requires ChosenRun(s.procs[p].fpc).Some? ==> Permits(s.procs[p].request, ChosenRun(s.procs[p].fpc).value)
    ensures var s' := Next(s, p, c, planOf);
            && p in s'.procs && s'.procs == s.procs[p := s'.procs[p]]
            && (s'.procs[p].Freezer? ==>
                  && s'.procs[p].request == s.procs[p].request
                  && (ChosenRun(s'.procs[p].fpc).Some? ==> Permits(s.procs[p].request, ChosenRun(s'.procs[p].fpc).value)))
            && (s'.manifest.freeze == s.manifest.freeze
                || (s'.manifest.freeze.Some? && Permits(s.procs[p].request, s'.manifest.freeze.value.runId)))
  {
    hide NoBlockers, FreezerStep, FreezerAbandon;
    if c.Go? {
      FreezerStepAsks(s, p, c.env, planOf);
    } else if c.Abandon? {
      FreezerAbandonAsks(s, p);
    }
  }

  lemma FreezerStepAsks(s: State, p: Pid, env: Env, planOf: PlanOfManifest)
    requires p in s.procs && s.procs[p].Freezer?
    requires ChosenRun(s.procs[p].fpc).Some? ==> Permits(s.procs[p].request, ChosenRun(s.procs[p].fpc).value)
    ensures var s' := FreezerStep(s, p, s.procs[p], env, planOf);
            && p in s'.procs && s'.procs == s.procs[p := s'.procs[p]]
            && s'.procs[p].Freezer? && s'.procs[p].request == s.procs[p].request
            && (ChosenRun(s'.procs[p].fpc).Some? ==> Permits(s.procs[p].request, ChosenRun(s'.procs[p].fpc).value))
            && (s'.manifest.freeze == s.manifest.freeze
                || (s'.manifest.freeze.Some? && Permits(s.procs[p].request, s'.manifest.freeze.value.runId)))
  {
    hide NoBlockers;
    assert s.procs[p := s.procs[p]] == s.procs;
  }

  lemma FreezerAbandonAsks(s: State, p: Pid)
    requires p in s.procs && s.procs[p].Freezer?
    requires ChosenRun(s.procs[p].fpc).Some? ==> Permits(s.procs[p].request, ChosenRun(s.procs[p].fpc).value)
    ensures var s' := FreezerAbandon(s, p, s.procs[p]);
            && p in s'.procs && s'.procs == s.procs[p := s'.procs[p]]
            && s'.procs[p].Freezer? && s'.procs[p].request == s.procs[p].request
            && (ChosenRun(s'.procs[p].fpc).Some? ==> Permits(s.procs[p].request, ChosenRun(s'.procs[p].fpc).value))
            && s'.manifest.freeze == s.manifest.freeze
  {
  }

  lemma AskedStep(start: State, s: State, p: Pid, c: Choice, planOf: PlanOfManifest)
    requires Asked(start, s)
    ensures Asked(start, Next(s, p, c, planOf))
  {
    if p in s.procs && s.procs[p].Freezer? && !c.Edit? {
      hide Next;
      FreezerAsks(s, p, c, planOf);
    } else {
      hide Accepted, Admitted, Committed;
    }
  }

  lemma {:induction false} AskedRun(start: State, schedule: seq<(Pid, Choice)>, planOf: PlanOfManifest)
    requires Init(start)
    ensures Asked(start, Run(start, schedule, planOf))
  {
    if schedule != [] {
      hide Next, Asked;
      var n := |schedule| - 1;
      AskedRun(start, schedule[..n], planOf);
      AskedStep(start, Run(start, schedule[..n], planOf), schedule[n].0, schedule[n].1, planOf);
    }
  }

  /**
   * From a fresh directory, over every schedule: a freezer asked for one run never works on another, and a frozen
   * manifest and a published summary name a run that some freezer was asked for, or that one asked for none may choose.
   * So when every freezer asks for r, nothing but r is ever frozen or published.
   */
  lemma FrozenAsRequested(start: State, schedule: seq<(Pid, Choice)>, planOf: PlanOfManifest)
    requires Init(start)
    ensures var s := Run(start, schedule, planOf);
            && (forall p | p in s.procs && s.procs[p].Freezer? && ChosenRun(s.procs[p].fpc).Some? ::
                  p in start.procs && start.procs[p].Freezer?
                  && Permits(start.procs[p].request, ChosenRun(s.procs[p].fpc).value))
            && (s.manifest.freeze.Some? ==> Requested(start, s.manifest.freeze.value.runId))
            && (s.summary.Some? ==> Requested(start, s.summary.value.runId))
            && (forall r | forall p | p in start.procs && start.procs[p].Freezer? :: start.procs[p].request == Some(r) ::
                  (s.manifest.freeze.Some? ==> s.manifest.freeze.value.runId == r)
                  && (s.summary.Some? ==> s.summary.value.runId == r))
  {
    AskedRun(start, schedule, planOf);
    InitInv(start, planOf);
    RunKeeps(start, schedule, planOf);
  }

  /** What a freezer looks at before it takes a lock: another run than it was asked for, or any blocker, ends it there. */
  lemma FreezerStartsIff(s: State, p: Pid, env: Env, planOf: PlanOfManifest)
    requires p in s.procs && s.procs[p].Freezer? && s.procs[p].fpc.FStart?
    ensures var s' := Next(s, p, Go(env), planOf);
            var goes := Permits(s.procs[p].request, env.runId) && env.ready
                        && Complete(Log(s, env.runId), env.runId, planOf, WithManifest(env.code, s.manifest.config));
            s' == s.(procs := s.procs[p := Freezer(s.procs[p].request, if goes then FScanned(env.runId) else FEnded)])
  {
  }

  lemma UnreadyStep(s: State, p: Pid, c: Choice, planOf: PlanOfManifest)
    requires Unready(s) && (c.Go? ==> !c.env.ready)
    ensures Unready(Next(s, p, c, planOf))
  {
    hide Accepted, Admitted, Committed, Complete;
  }

  /** Nothing is frozen, and no freezer is past the checks it makes under the locks. */
  ghost predicate Unready(s: State) {
    && s.manifest.freeze.None? && s.summary.None?
    && forall p | p in s.procs && s.procs[p].Freezer? ::
         s.procs[p].fpc.FStart? || s.procs[p].fpc.FEnded?
  }

  /** While readiness is refused, as it is at this commit, nothing is ever frozen or published. */
  lemma {:induction false} NeverReadyNeverFrozen(start: State, schedule: seq<(Pid, Choice)>, planOf: PlanOfManifest)
    requires Init(start) && forall i | 0 <= i < |schedule| && schedule[i].1.Go? :: !schedule[i].1.env.ready
    ensures Unready(Run(start, schedule, planOf))
  {
    if schedule != [] {
      hide Next, Unready;
      var n := |schedule| - 1;
      NeverReadyNeverFrozen(start, schedule[..n], planOf);
      UnreadyStep(Run(start, schedule[..n], planOf), schedule[n].0, schedule[n].1, planOf);
    }
  }

  // ----- the protocol is not vacuous -----

  /** Process p alone takes n steps. */
  ghost function Alone(s: State, p: Pid, env: Env, n: nat, planOf: PlanOfManifest): State {
    if n == 0 then s else Next(Alone(s, p, env, n - 1, planOf), p, Go(env), planOf)
  }

  ghost predicate Unlocked(s: State, r: RunId) {
    s.manifestLock.None? && r !in s.logLocks && s.manifest.freeze.None?
  }

  lemma {:induction false} AloneAdds(s: State, p: Pid, env: Env, n: nat, m: nat, planOf: PlanOfManifest)
    ensures Alone(s, p, env, n + m, planOf) == Alone(Alone(s, p, env, n, planOf), p, env, m, planOf)
  {
    if m > 0 { AloneAdds(s, p, env, n, m - 1, planOf); }
  }

  lemma AloneOne(s: State, p: Pid, env: Env, planOf: PlanOfManifest)
    ensures Alone(s, p, env, 1, planOf) == Next(s, p, Go(env), planOf)
  {
    assert Alone(s, p, env, 0, planOf) == s;
  }

  lemma ScanStep(s: State, p: Pid, env: Env, planOf: PlanOfManifest)
    requires p in s.procs && s.procs[p].Freezer? && s.procs[p].fpc.FStart?
    requires s.procs[p].request.None? || s.procs[p].request.value == env.runId
    requires NoBlockers(s, env.runId, env, planOf)
    ensures Alone(s, p, env, 1, planOf) == SetProc(s, p, Freezer(s.procs[p].request, FScanned(env.runId)))
  {
    AloneOne(s, p, env, planOf);
  }

  lemma FreezerLoads(s: State, p: Pid, env: Env, planOf: PlanOfManifest)
    requires p in s.procs && s.procs[p].Freezer? && s.procs[p].fpc.FScanned?
    requires Unlocked(s, s.procs[p].fpc.runId)
    ensures var r, req := s.procs[p].fpc.runId, s.procs[p].request;
            Alone(s, p, env, 4, planOf) ==
              SetProc(s.(manifestLock := Some(p), logLocks := s.logLocks[r := p]), p,
                      Freezer(req, FLoaded(r, FileSha(Log(s, r)), s.manifest.config)))
  {
    hide NoBlockers;
    var r, req := s.procs[p].fpc.runId, s.procs[p].request;
    var sha := FileSha(Log(s, r));
    AloneOne(s, p, env, planOf);
    var s1 := Alone(s, p, env, 1, planOf);
    assert s1 == SetProc(s, p, Freezer(req, FChosen(r, sha)));
    var s2 := Alone(s, p, env, 2, planOf);
    assert s2 == SetProc(s.(manifestLock := Some(p)), p, Freezer(req, FManifestLocked(r, sha)));
    var s3 := Alone(s, p, env, 3, planOf);
    assert s3 == SetProc(s.(manifestLock := Some(p), logLocks := s.logLocks[r := p]), p, Freezer(req, FLocked(r, sha)));
  }

  lemma RecheckStep(s: State, p: Pid, env: Env, planOf: PlanOfManifest)
    requires p in s.procs && s.procs[p].Freezer? && s.procs[p].fpc.FLoaded?
    requires NoBlockers(s, s.procs[p].fpc.runId, env, planOf)
    ensures var pc := s.procs[p].fpc;
            Alone(s, p, env, 1, planOf) == SetProc(s, p, Freezer(s.procs[p].request, FRechecked(pc.runId, pc.sha, pc.config)))
  {
    AloneOne(s, p, env, planOf);
  }

  lemma FreezerStages(s: State, p: Pid, env: Env, planOf: PlanOfManifest)
    requires p in s.procs && s.procs[p].Freezer? && s.procs[p].fpc.FRechecked?
    requires s.procs[p].fpc.sha == FileSha(Log(s, s.procs[p].fpc.runId))
    ensures var pc, req := s.procs[p].fpc, s.procs[p].request;
            Alone(s, p, env, 3, planOf) ==
              SetProc(s, p, Freezer(req, FConfirmed(pc.runId, pc.sha, pc.config, Summary(pc.runId, Log(s, pc.runId)))))
  {
    var pc, req := s.procs[p].fpc, s.procs[p].request;
    AloneOne(s, p, env, planOf);
    assert Alone(s, p, env, 1, planOf) == SetProc(s, p, Freezer(req, FHashed(pc.runId, pc.sha, pc.config)));
    assert Alone(s, p, env, 2, planOf) ==
           SetProc(s, p, Freezer(req, FStaged(pc.runId, pc.sha, pc.config, Summary(pc.runId, Log(s, pc.runId)))));
  }

  lemma CommitAlone(s: State, p: Pid, env: Env, planOf: PlanOfManifest)
    requires p in s.procs && s.procs[p].Freezer? && s.procs[p].fpc.FConfirmed?
    ensures var pc := s.procs[p].fpc;
            var t := Alone(s, p, env, 4, planOf);
            && t.manifest == Manifest(pc.config, Some(Freeze(pc.runId, pc.sha)))
            && t.summary == Some(pc.summary) && t.logs == s.logs
            && t.manifestLock.None? && t.logLocks == s.logLocks - {pc.runId}
  {
    var pc, req := s.procs[p].fpc, s.procs[p].request;
    assert Alone(s, p, env, 0, planOf) == s;
    var s1 := Alone(s, p, env, 1, planOf);
    assert s1 == SetProc(s.(manifest := Manifest(pc.config, Some(Freeze(pc.runId, pc.sha)))), p,
                         Freezer(req, FCommitted(pc.runId, pc.summary)));
    var s2 := Alone(s, p, env, 2, planOf);
    assert s2 == SetProc(s1.(summary := Some(pc.summary)), p, Freezer(req, FUnlockLog(pc.runId)));
    var s3 := Alone(s, p, env, 3, planOf);
    assert s3 == SetProc(s2.(logLocks := s.logLocks - {pc.runId}), p, Freezer(req, FUnlockManifest));
  }

  lemma BlockersCarry(s: State, t: State, env: Env, planOf: PlanOfManifest)
    requires t.logs == s.logs && t.manifest == s.manifest && NoBlockers(s, env.runId, env, planOf)
    ensures NoBlockers(t, env.runId, env, planOf)
  {
  }

  lemma FreezerReachesRecheck(s: State, p: Pid, env: Env, planOf: PlanOfManifest)
    requires p in s.procs && s.procs[p].Freezer? && s.procs[p].fpc.FStart?
    requires s.procs[p].request.None? || s.procs[p].request.value == env.runId
    requires Unlocked(s, env.runId) && NoBlockers(s, env.runId, env, planOf)
    ensures var r, req := env.runId, s.procs[p].request;
            Alone(s, p, env, 6, planOf) ==
              SetProc(s.(manifestLock := Some(p), logLocks := s.logLocks[r := p]), p,
                      Freezer(req, FRechecked(r, FileSha(Log(s, r)), s.manifest.config)))
  {
    hide Alone, Next, Complete;
    ScanStep(s, p, env, planOf);
    var s1 := Alone(s, p, env, 1, planOf);
    AloneAdds(s, p, env, 1, 4, planOf);
    FreezerLoads(s1, p, env, planOf);
    var s5 := Alone(s, p, env, 5, planOf);
    AloneAdds(s, p, env, 5, 1, planOf);
    BlockersCarry(s, s5, env, planOf);
    RecheckStep(s5, p, env, planOf);
  }

  lemma FreezerFinishes(s: State, p: Pid, env: Env, planOf: PlanOfManifest)
    requires p in s.procs && s.procs[p].Freezer? && s.procs[p].fpc.FRechecked?
    requires s.procs[p].fpc.sha == FileSha(Log(s, s.procs[p].fpc.runId))
    ensures var pc := s.procs[p].fpc;
            var t := Alone(s, p, env, 7, planOf);
            && t.manifest == Manifest(pc.config, Some(Freeze(pc.runId, pc.sha)))
            && t.summary == Some(Summary(pc.runId, Log(s, pc.runId))) && t.logs == s.logs
            && t.manifestLock.None? && t.logLocks == s.logLocks - {pc.runId}
  {
    FreezerStages(s, p, env, planOf);
    AloneAdds(s, p, env, 3, 4, planOf);
    CommitAlone(Alone(s, p, env, 3, planOf), p, env, planOf);
  }

  /** An undisturbed freezer of a finished run freezes it, publishes its summary and gives both locks back. */
  lemma FreezerAlone(s: State, p: Pid, env: Env, planOf: PlanOfManifest)
    requires p in s.procs && s.procs[p].Freezer? && s.procs[p].fpc.FStart?
    requires s.procs[p].request.None? || s.procs[p].request.value == env.runId
    requires Unlocked(s, env.runId) && NoBlockers(s, env.runId, env, planOf)
    ensures var r, rows := env.runId, Log(s, env.runId);
            var t := Alone(s, p, env, 13, planOf);
            && t.manifest == Manifest(s.manifest.config, Some(Freeze(r, FileSha(rows))))
            && t.summary == Some(Summary(r, rows)) && t.logs == s.logs
            && t.manifestLock.None? && t.logLocks == s.logLocks
  {
    hide Alone, Next, NoBlockers;
    FreezerReachesRecheck(s, p, env, planOf);
    AloneAdds(s, p, env, 6, 7, planOf);
    FreezerFinishes(Alone(s, p, env, 6, planOf), p, env, planOf);
    assert s.logLocks[env.runId := p] - {env.runId} == s.logLocks;
  }

  lemma AdmitStep(s: State, p: Pid, env: Env, planOf: PlanOfManifest)
    requires p in s.procs && s.procs[p].Writer? && s.procs[p].pc.WStart? && s.manifest.freeze.None?
    requires Admitted(s, s.procs[p].runId, Stamped(s.procs[p].op, s.manifest.config), planOf)
    ensures var w := s.procs[p];
            Alone(s, p, env, 1, planOf) == SetProc(s, p, Writer(w.runId, Stamped(w.op, s.manifest.config), WAdmitted))
  {
    AloneOne(s, p, env, planOf);
  }

  lemma WriterRechecks(s: State, p: Pid, env: Env, planOf: PlanOfManifest)
    requires p in s.procs && s.procs[p].Writer? && s.procs[p].pc.WAdmitted?
    requires Unlocked(s, s.procs[p].runId) && s.procs[p].op.prints.manifest == s.manifest.config
    ensures var w := s.procs[p];
            Alone(s, p, env, 3, planOf) ==
              SetProc(s.(manifestLock := Some(p), logLocks := s.logLocks[w.runId := p]), p, w.(pc := WRechecked))
  {
    var w := s.procs[p];
    AloneOne(s, p, env, planOf);
    assert Alone(s, p, env, 1, planOf) == SetProc(s.(manifestLock := Some(p)), p, w.(pc := WManifestLocked));
    assert Alone(s, p, env, 2, planOf) ==
           SetProc(s.(manifestLock := Some(p), logLocks := s.logLocks[w.runId := p]), p, w.(pc := WLocked));
  }

  lemma AppendSteps(s: State, p: Pid, env: Env, planOf: PlanOfManifest)
    requires p in s.procs && s.procs[p].Writer? && s.procs[p].pc.WRechecked?
    requires Accepted(Log(s, s.procs[p].runId), s.procs[p].runId, s.procs[p].op, planOf)
    ensures var w, rows := s.procs[p], Log(s, s.procs[p].runId);
            var row := Chained(rows, Committed(rows, w.runId, w.op, planOf));
            Alone(s, p, env, 2, planOf) == SetProc(s.(logs := s.logs[w.runId := rows + [row]]), p, w.(pc := WUnlockLog))
  {
    var w, rows := s.procs[p], Log(s, s.procs[p].runId);
    AloneOne(s, p, env, planOf);
    var s1 := Alone(s, p, env, 1, planOf);
    assert s1 == SetProc(s, p, w.(pc := WChecked(rows)));
    AloneAdds(s, p, env, 1, 1, planOf);
    AloneOne(s1, p, env, planOf);
  }

  lemma WriterUnlocks(s: State, p: Pid, env: Env, planOf: PlanOfManifest)
    requires p in s.procs && s.procs[p].Writer? && s.procs[p].pc.WUnlockLog?
    ensures var t := Alone(s, p, env, 2, planOf);
            SameFiles(s, t) && t.manifest == s.manifest
            && t.manifestLock.None? && t.logLocks == s.logLocks - {s.procs[p].runId}
  {
    var w := s.procs[p];
    AloneOne(s, p, env, planOf);
    assert Alone(s, p, env, 1, planOf) == SetProc(s.(logLocks := s.logLocks - {w.runId}), p, w.(pc := WUnlockManifest));
  }

  lemma WriterReachesRecheck(s: State, p: Pid, env: Env, planOf: PlanOfManifest)
    requires p in s.procs && s.procs[p].Writer? && s.procs[p].pc.WStart? && Unlocked(s, s.procs[p].runId)
    requires Admitted(s, s.procs[p].runId, Stamped(s.procs[p].op, s.manifest.config), planOf)
    ensures var w := s.procs[p];
            Alone(s, p, env, 4, planOf) ==
              SetProc(s.(manifestLock := Some(p), logLocks := s.logLocks[w.runId := p]), p,
                      Writer(w.runId, Stamped(w.op, s.manifest.config), WRechecked))
  {
    hide Alone, Next, Admitted;
    AdmitStep(s, p, env, planOf);
    AloneAdds(s, p, env, 1, 3, planOf);
    WriterRechecks(Alone(s, p, env, 1, planOf), p, env, planOf);
  }

  /** An undisturbed writer whose record fits appends exactly that record and gives both locks back. */
  lemma WriterAlone(s: State, p: Pid, env: Env, planOf: PlanOfManifest)
    requires p in s.procs && s.procs[p].Writer? && s.procs[p].pc.WStart?
    requires Unlocked(s, s.procs[p].runId)
    requires var w := s.procs[p];
             var op := Stamped(w.op, s.manifest.config);
             Admitted(s, w.runId, op, planOf) && Accepted(Log(s, w.runId), w.runId, op, planOf)
    ensures var w := s.procs[p];
            var t := Alone(s, p, env, 8, planOf);
            && Log(t, w.runId) == Step(Log(s, w.runId), w.runId, Stamped(w.op, s.manifest.config), planOf)
            && |Log(t, w.runId)| == |Log(s, w.runId)| + 1
            && (forall r | r != w.runId :: Log(t, r) == Log(s, r))
            && t.manifest == s.manifest && t.summary == s.summary
            && t.manifestLock.None? && t.logLocks == s.logLocks
  {
    hide Alone, Next, Accepted, Admitted, Committed;
    var w, rows := s.procs[p], Log(s, s.procs[p].runId);
    WriterReachesRecheck(s, p, env, planOf);
    var s4 := Alone(s, p, env, 4, planOf);
    AloneAdds(s, p, env, 4, 2, planOf);
    AppendSteps(s4, p, env, planOf);
    AloneAdds(s, p, env, 6, 2, planOf);
    WriterUnlocks(Alone(s, p, env, 6, planOf), p, env, planOf);
    assert s.logLocks[w.runId := p] - {w.runId} == s.logLocks;
  }

  // ----- every process ends and gives its locks back -----

  /** What an undisturbed writer leaves, whether or not its record is admitted and accepted. */
  lemma WriterEnds(s: State, p: Pid, env: Env, planOf: PlanOfManifest)
    requires p in s.procs && s.procs[p].Writer? && s.procs[p].pc.WStart?
    requires s.manifestLock.None? && s.procs[p].runId !in s.logLocks
    ensures var (w, t) := (s.procs[p], Alone(s, p, env, 8, planOf));
            var op := Stamped(w.op, s.manifest.config);
            var writes := s.manifest.freeze.None? && Admitted(s, w.runId, op, planOf) && Accepted(Log(s, w.runId), w.runId, op, planOf);
            && p in t.procs && t.procs[p].Writer? && t.procs[p].pc.WEnded?
            && t.manifestLock.None? && t.logLocks == s.logLocks && t.manifest == s.manifest && t.summary == s.summary
            && t.logs == if writes
                         then s.logs[w.runId := Log(s, w.runId) + [Chained(Log(s, w.runId), Committed(Log(s, w.runId), w.runId, op, planOf))]]
                         else s.logs
  {
    hide Alone, Next, Accepted, Admitted, Committed;
    var w, op := s.procs[p], Stamped(s.procs[p].op, s.manifest.config);
    if s.manifest.freeze.None? && Admitted(s, w.runId, op, planOf) {
      WriterReachesRecheck(s, p, env, planOf);
      var s4 := Alone(s, p, env, 4, planOf);
      AloneAdds(s, p, env, 4, 4, planOf);
      assert s.logLocks[w.runId := p] - {w.runId} == s.logLocks;
      RecheckedEnds(s4, p, env, planOf);
    } else {
      WriterNotAdmitted(s, p, env, planOf);
    }
  }

  lemma WriterNotAdmitted(s: State, p: Pid, env: Env, planOf: PlanOfManifest)
    requires p in s.procs && s.procs[p].Writer? && s.procs[p].pc.WStart?
    requires !(s.manifest.freeze.None? && Admitted(s, s.procs[p].runId, Stamped(s.procs[p].op, s.manifest.config), planOf))
    ensures Alone(s, p, env, 8, planOf) == SetProc(s, p, s.procs[p].(pc := WEnded))
  {
    hide Admitted, Alone, Next;
    NotAdmittedStep(s, p, env, planOf);
    AloneOne(s, p, env, planOf);
    AloneAdds(s, p, env, 1, 7, planOf);
    WriterStays(SetProc(s, p, s.procs[p].(pc := WEnded)), p, env, 7, planOf);
  }

  lemma NotAdmittedStep(s: State, p: Pid, env: Env, planOf: PlanOfManifest)
    requires p in s.procs && s.procs[p].Writer? && s.procs[p].pc.WStart?
    requires !(s.manifest.freeze.None? && Admitted(s, s.procs[p].runId, Stamped(s.procs[p].op, s.manifest.config), planOf))
    ensures Next(s, p, Go(env), planOf) == SetProc(s, p, s.procs[p].(pc := WEnded))
  {
    hide Admitted;
  }

  lemma {:induction false} WriterStays(t: State, p: Pid, env: Env, n: nat, planOf: PlanOfManifest)
    requires p in t.procs && t.procs[p].Writer? && t.procs[p].pc.WEnded?
    ensures Alone(t, p, env, n, planOf) == t
  {
    if n > 0 { WriterStays(t, p, env, n - 1, planOf); }
  }

  lemma RecheckedEnds(s: State, p: Pid, env: Env, planOf: PlanOfManifest)
    requires p in s.procs && s.procs[p].Writer? && s.procs[p].pc.WRechecked?
    ensures var (w, t, rows) := (s.procs[p], Alone(s, p, env, 4, planOf), Log(s, s.procs[p].runId));
            && p in t.procs && t.procs[p].Writer? && t.procs[p].pc.WEnded?
            && t.manifestLock.None? && t.logLocks == s.logLocks - {w.runId} && t.manifest == s.manifest && t.summary == s.summary
            && t.logs == if Accepted(rows, w.runId, w.op, planOf)
                         then s.logs[w.runId := rows + [Chained(rows, Committed(rows, w.runId, w.op, planOf))]] else s.logs
  {
    hide Accepted, Committed, Alone, Next;
    var w, rows := s.procs[p], Log(s, s.procs[p].runId);
    if Accepted(rows, w.runId, w.op, planOf) {
      AppendSteps(s, p, env, planOf);
      AloneAdds(s, p, env, 2, 2, planOf);
      UnlocksEnd(Alone(s, p, env, 2, planOf), p, env, planOf);
    } else {
      RefusedUnlocks(s, p, env, planOf);
      AloneAdds(s, p, env, 1, 2, planOf);
      UnlocksEnd(Alone(s, p, env, 1, planOf), p, env, planOf);
      AloneAdds(s, p, env, 3, 1, planOf);
      WriterStays(Alone(s, p, env, 3, planOf), p, env, 1, planOf);
    }
  }

  lemma RefusedUnlocks(s: State, p: Pid, env: Env, planOf: PlanOfManifest)
    requires p in s.procs && s.procs[p].Writer? && s.procs[p].pc.WRechecked?
    requires !Accepted(Log(s, s.procs[p].runId), s.procs[p].runId, s.procs[p].op, planOf)
    ensures Alone(s, p, env, 1, planOf) == SetProc(s, p, s.procs[p].(pc := WUnlockLog))
  {
    hide Accepted;
    AloneOne(s, p, env, planOf);
  }

  lemma UnlocksEnd(s: State, p: Pid, env: Env, planOf: PlanOfManifest)
    requires p in s.procs && s.procs[p].Writer? && s.procs[p].pc.WUnlockLog?
    ensures var (w, t) := (s.procs[p], Alone(s, p, env, 2, planOf));
            t == SetProc(s.(manifestLock := None, logLocks := s.logLocks - {w.runId}), p, w.(pc := WEnded))
  {
    var w := s.procs[p];
    AloneOne(s, p, env, planOf);
    assert Alone(s, p, env, 1, planOf) == SetProc(s.(logLocks := s.logLocks - {w.runId}), p, w.(pc := WUnlockManifest));
  }

  /** Under the locks a writer goes on exactly when the manifest is still unfrozen and the one it was admitted under. */
  lemma WriterRechecksIff(s: State, p: Pid, env: Env, planOf: PlanOfManifest)
    requires p in s.procs && s.procs[p].Writer? && s.procs[p].pc.WLocked?
    ensures var w := s.procs[p];
            Next(s, p, Go(env), planOf) ==
              SetProc(s, p, w.(pc := if s.manifest.freeze.None? && w.op.prints.manifest == s.manifest.config
                                     then WRechecked else WUnlockLog))
  {
  }

  /** The locks p does not hold. */
  ghost predicate GivesBack(s: State, t: State, manifest: bool, log: Option<RunId>) {
    && SameFiles(s, t) && t.manifest == s.manifest
    && t.manifestLock == (if manifest then None else s.manifestLock)
    && t.logLocks == (if log.Some? then s.logLocks - {log.value} else s.logLocks)
  }

  /**
   * A writer that gives up, wherever it stands, ends in two more steps without touching a file; it returns the locks it
   * held, but for the one whose release is what failed.
   */
  lemma WriterAbandons(s: State, p: Pid, env: Env, planOf: PlanOfManifest)
    requires p in s.procs && s.procs[p].Writer?
    ensures var (w, t) := (s.procs[p], Alone(Next(s, p, Abandon, planOf), p, env, 2, planOf));
            && p in t.procs && t.procs[p].Writer? && t.procs[p].pc.WEnded?
            && GivesBack(s, t, HoldsManifest(w) && !w.pc.WUnlockManifest?, if w.pc.WUnlockLog? then None else HeldLog(w))
  {
    var t := Next(s, p, Abandon, planOf);
    hide Accepted, Admitted, Committed, Next;
    TwoSteps(t, p, env, planOf);
    WriterLeaves(s, p, env, planOf);
  }

  lemma TwoSteps(s: State, p: Pid, env: Env, planOf: PlanOfManifest)
    ensures Alone(s, p, env, 2, planOf) == Next(Next(s, p, Go(env), planOf), p, Go(env), planOf)
  {
    hide Next;
    AloneOne(s, p, env, planOf);
    assert Alone(s, p, env, 2, planOf) == Next(Alone(s, p, env, 1, planOf), p, Go(env), planOf);
  }

  /** From its release on a process only gives back what it still holds. */
  lemma WriterUnwinds(s: State, p: Pid, env: Env, planOf: PlanOfManifest)
    requires p in s.procs && s.procs[p].Writer?
    requires s.procs[p].pc.WUnlockLog? || s.procs[p].pc.WUnlockManifest? || s.procs[p].pc.WEnded?
    ensures var w := s.procs[p];
            Next(Next(s, p, Go(env), planOf), p, Go(env), planOf)
              == SetProc(s.(manifestLock := if w.pc.WEnded? then s.manifestLock else None,
                            logLocks := if w.pc.WUnlockLog? then s.logLocks - {w.runId} else s.logLocks),
                         p, w.(pc := WEnded))
  {
    hide Accepted, Admitted, Committed;
    assert s.procs[p := s.procs[p]] == s.procs;
  }

  /** Where giving up leads. */
  lemma WriterGivesUp(s: State, p: Pid, planOf: PlanOfManifest)
    requires p in s.procs && s.procs[p].Writer?
    ensures var w := s.procs[p];
            Next(s, p, Abandon, planOf) == SetProc(s, p, w.(pc :=
              if !HoldsManifest(w) || w.pc.WUnlockManifest? then WEnded
              else if HeldLog(w).None? || w.pc.WUnlockLog? then WUnlockManifest else WUnlockLog))
  {
  }

  lemma WriterLeaves(s: State, p: Pid, env: Env, planOf: PlanOfManifest)
    requires p in s.procs && s.procs[p].Writer?
    ensures var w := s.procs[p];
            var t := Next(Next(Next(s, p, Abandon, planOf), p, Go(env), planOf), p, Go(env), planOf);
            && p in t.procs && t.procs[p].Writer? && t.procs[p].pc.WEnded?
            && GivesBack(s, t, HoldsManifest(w) && !w.pc.WUnlockManifest?, if w.pc.WUnlockLog? then None else HeldLog(w))
  {
    hide Next;
    WriterGivesUp(s, p, planOf);
    WriterUnwinds(Next(s, p, Abandon, planOf), p, env, planOf);
  }

  /** The same of a freezer. */
  lemma FreezerAbandons(s: State, p: Pid, env: Env, planOf: PlanOfManifest)
    requires p in s.procs && s.procs[p].Freezer?
    ensures var (f, t) := (s.procs[p], Alone(Next(s, p, Abandon, planOf), p, env, 2, planOf));
            && p in t.procs && t.procs[p].Freezer? && t.procs[p].fpc.FEnded?
            && GivesBack(s, t, HoldsManifest(f) && !f.fpc.FUnlockManifest?, if f.fpc.FUnlockLog? then None else HeldLog(f))
  {
    hide NoBlockers, Next;
    TwoSteps(Next(s, p, Abandon, planOf), p, env, planOf);
    FreezerLeaves(s, p, env, planOf);
  }

  lemma FreezerUnwinds(s: State, p: Pid, env: Env, planOf: PlanOfManifest)
    requires p in s.procs && s.procs[p].Freezer?
    requires s.procs[p].fpc.FUnlockLog? || s.procs[p].fpc.FUnlockManifest? || s.procs[p].fpc.FEnded?
    ensures var f := s.procs[p];
            Next(Next(s, p, Go(env), planOf), p, Go(env), planOf)
              == SetProc(s.(manifestLock := if f.fpc.FEnded? then s.manifestLock else None,
                            logLocks := if f.fpc.FUnlockLog? then s.logLocks - {f.fpc.runId} else s.logLocks),
                         p, f.(fpc := FEnded))
  {
    hide NoBlockers;
    assert s.procs[p := s.procs[p]] == s.procs;
  }

  lemma FreezerGivesUp(s: State, p: Pid, planOf: PlanOfManifest)
    requires p in s.procs && s.procs[p].Freezer?
    ensures var f := s.procs[p];
            Next(s, p, Abandon, planOf) == SetProc(s, p, f.(fpc :=
              if !HoldsManifest(f) || f.fpc.FUnlockManifest? then FEnded
              else if HeldLog(f).None? || f.fpc.FUnlockLog? then FUnlockManifest else FUnlockLog(HeldLog(f).value)))
  {
  }

  lemma FreezerLeaves(s: State, p: Pid, env: Env, planOf: PlanOfManifest)
    requires p in s.procs && s.procs[p].Freezer?
    ensures var f := s.procs[p];
            var t := Next(Next(Next(s, p, Abandon, planOf), p, Go(env), planOf), p, Go(env), planOf);
            && p in t.procs && t.procs[p].Freezer? && t.procs[p].fpc.FEnded?
            && GivesBack(s, t, HoldsManifest(f) && !f.fpc.FUnlockManifest?, if f.fpc.FUnlockLog? then None else HeldLog(f))
  {
    hide Next;
    FreezerGivesUp(s, p, planOf);
    FreezerUnwinds(Next(s, p, Abandon, planOf), p, env, planOf);
  }

  /** The operator's edit and a crash touch nothing but the predeclared part and the process itself. */
  lemma OutsideSteps(s: State, p: Pid, config: string, planOf: PlanOfManifest)
    ensures Next(s, p, Edit(config), planOf) == State(Manifest(config, s.manifest.freeze), s.logs, s.summary, s.manifestLock, s.logLocks, s.procs)
    ensures p in s.procs ==>
              Next(s, p, Crash, planOf) == State(s.manifest, s.logs, s.summary, s.manifestLock, s.logLocks, s.procs[p := Crashed])
  {
    if p in s.procs && s.procs[p].Crashed? { assert s.procs[p := Crashed] == s.procs; }
  }

  /**
   * What a frozen log is, over every schedule: at most a hundred records, each a completed live presentation row of the
   * frozen run under one set of fingerprints, none aborted, in the order of the plan those fingerprints name, and chained.
   */
  lemma FrozenRunPresentable(start: State, schedule: seq<(Pid, Choice)>, planOf: PlanOfManifest)
    requires Init(start)
    ensures var s := Run(start, schedule, planOf);
            s.manifest.freeze.Some? ==>
              var (r, rows) := (s.manifest.freeze.value.runId, Log(s, s.manifest.freeze.value.runId));
              exists prints: Fingerprints :: PresentedRun(rows, r, prints, planOf(prints.manifest))
  {
    InitInv(start, planOf);
    RunKeeps(start, schedule, planOf);
    var s := Run(start, schedule, planOf);
    if s.manifest.freeze.Some? {
      var r := s.manifest.freeze.value.runId;
      var prints :| Complete(Log(s, r), r, planOf, prints);
      CompleteIff(Log(s, r), r, planOf, prints);
    }
  }

  ghost predicate PresentedRun(rows: seq<Row>, r: RunId, prints: Fingerprints, plan: seq<Entry>) {
    && |rows| == |plan| && |rows| <= 100
    && (forall i | 0 <= i < |rows| :: rows[i].previous == Head(rows[..i]) && rows[i].digest == Sha(rows[i].fields, rows[i].previous))
    && forall i | 0 <= i < |rows| ::
         var f := rows[i].fields;
         && f.task == plan[i].task && f.arm == plan[i].arm && f.arm.Arm? && (f.live.IsTrue? || f.live.Truthy?)
         && f.nonPresentation.Falsy? && f.status.Completed? && !f.abort && f.runId == r && f.prints == prints
  }

  /** Exactly the runs without blockers. */
  lemma CompleteIff(rows: seq<Row>, r: RunId, planOf: PlanOfManifest, prints: Fingerprints)
    ensures Complete(rows, r, planOf, prints) <==> PresentedRun(rows, r, prints, planOf(prints.manifest))
  {
    hide Head;
  }
}
