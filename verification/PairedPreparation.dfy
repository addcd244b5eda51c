/**
 * Prepared pairs of attempts: their schedule, the exclusive reservation of each, and the limits an admitted attempt
 * runs under (benchmarks/paired_preparation.py).
 */
module PairedPreparation {
  import opened Common
  import opened Sorting
  import ControlRelay
  import WorkerSession

  datatype Harness = Codex | OpenCode
  datatype Condition = Baseline | Pex

  datatype Block = Block(harness: Harness, task: string)
  datatype Cell = Cell(harness: Harness, task: string, condition: Condition)

  /** The hash keys that order blocks and, inside a block, the two conditions: any functions at all. */
  datatype Keys = Keys(block: Block -> nat, condition: Cell -> nat)

  function BlockOrder(keys: Keys): (Block, Block) -> bool {
    (a: Block, b: Block) => keys.block(a) <= keys.block(b)
  }

  /** Every harness with every task. */
  function Blocks(tasks: seq<string>): (r: seq<Block>)
    ensures |r| == 2 * |tasks|
    ensures forall i | 0 <= i < |tasks| :: r[i] == Block(Codex, tasks[i]) && r[|tasks| + i] == Block(OpenCode, tasks[i])
  {
    seq(|tasks|, i requires 0 <= i < |tasks| => Block(Codex, tasks[i]))
    + seq(|tasks|, i requires 0 <= i < |tasks| => Block(OpenCode, tasks[i]))
  }

  function Ordered(tasks: seq<string>, keys: Keys): (r: seq<Block>)
    ensures multiset(r) == multiset(Blocks(tasks)) && |r| == 2 * |tasks|
  {
    SortBy(Blocks(tasks), BlockOrder(keys))
  }

  /** The conditions of one block in execution order: a stable sort of the two by key. */
  function ConditionsOf(b: Block, keys: Keys): (r: seq<Condition>)
    ensures r == [Baseline, Pex] || r == [Pex, Baseline]
  {
    if keys.condition(Cell(b.harness, b.task, Baseline)) <= keys.condition(Cell(b.harness, b.task, Pex))
    then [Baseline, Pex] else [Pex, Baseline]
  }

  function CellAt(ordered: seq<Block>, keys: Keys, i: nat): Cell
    requires i < 2 * |ordered|
  {
    Cell(ordered[i / 2].harness, ordered[i / 2].task, ConditionsOf(ordered[i / 2], keys)[i % 2])
  }

  function Schedule(tasks: seq<string>, keys: Keys): (r: seq<Cell>)
    ensures |r| == 4 * |tasks|
    ensures forall i | 0 <= i < |r| :: r[i] == CellAt(Ordered(tasks, keys), keys, i)
  {
    var ordered := Ordered(tasks, keys);
    seq(4 * |tasks|, i requires 0 <= i < 4 * |tasks| => CellAt(ordered, keys, i))
  }

  /** The nested loops that build the schedule. */
  method PrepareSchedule(tasks: seq<string>, keys: Keys) returns (schedule: seq<Cell>)
    ensures schedule == Schedule(tasks, keys)
  {
    hide ConditionsOf, Ordered;
    var ordered := Ordered(tasks, keys);
    schedule := [];
    for b := 0 to |ordered|
      invariant |schedule| == 2 * b
      invariant forall i | 0 <= i < |schedule| :: schedule[i] == CellAt(ordered, keys, i)
    {
      var conditions := ConditionsOf(ordered[b], keys);
      for k := 0 to 2
        invariant |schedule| == 2 * b + k
        invariant forall i | 0 <= i < |schedule| :: schedule[i] == CellAt(ordered, keys, i)
      {
        schedule := schedule + [Cell(ordered[b].harness, ordered[b].task, conditions[k])];
      }
    }
  }

  lemma BlocksDistinct(tasks: seq<string>)
    requires Distinct(tasks)
    ensures Distinct(Blocks(tasks))
  {
    var blocks, n := Blocks(tasks), |tasks|;
    forall i, j | 0 <= i < j < |blocks| ensures blocks[i] != blocks[j] {
      assert blocks[i] == if i < n then Block(Codex, tasks[i]) else blocks[n + (i - n)];
      assert blocks[j] == if j < n then Block(Codex, tasks[j]) else blocks[n + (j - n)];
    }
  }

  lemma BlocksIn(tasks: seq<string>, block: Block)
    ensures block in Blocks(tasks) <==> block.task in tasks
  {
    var blocks, n := Blocks(tasks), |tasks|;
    if block.task in tasks {
      var i :| 0 <= i < n && tasks[i] == block.task;
      assert blocks[if block.harness == Codex then i else n + i] == block;
    }
    if block in blocks {
      var i :| 0 <= i < |blocks| && blocks[i] == block;
      assert blocks[i] == if i < n then Block(Codex, tasks[i]) else blocks[n + (i - n)];
    }
  }

  lemma OrderedBlocks(tasks: seq<string>, keys: Keys)
    requires Distinct(tasks)
    ensures Distinct(Ordered(tasks, keys))
    ensures forall block :: block in Ordered(tasks, keys) <==> block.task in tasks
  {
    hide Ordered, Blocks;
    BlocksDistinct(tasks);
    PermutationDistinct(Blocks(tasks), Ordered(tasks, keys));
    forall block: Block ensures block in Ordered(tasks, keys) <==> block.task in tasks {
      BlocksIn(tasks, block);
      assert block in Ordered(tasks, keys) <==> block in multiset(Ordered(tasks, keys));
      assert block in Blocks(tasks) <==> block in multiset(Blocks(tasks));
    }
  }

  /** Every cell of the tasks is scheduled, and exactly once. */
  lemma EveryCellOnce(tasks: seq<string>, keys: Keys)
    requires Distinct(tasks)
    ensures Distinct(Schedule(tasks, keys))
    ensures forall cell :: cell in Schedule(tasks, keys) <==> cell.task in tasks
  {
    hide Ordered, ConditionsOf, Schedule, CellAt;
    OrderedBlocks(tasks, keys);
    var s := Schedule(tasks, keys);
    forall i, j | 0 <= i < j < |s| ensures s[i] != s[j] {
      CellsDiffer(Ordered(tasks, keys), keys, i, j);
    }
    forall cell: Cell ensures cell in s <==> cell.task in tasks {
      CellScheduled(tasks, keys, cell);
    }
  }

  lemma CellScheduled(tasks: seq<string>, keys: Keys, cell: Cell)
    requires Distinct(tasks)
    ensures cell in Schedule(tasks, keys) <==> cell.task in tasks
  {
    hide Ordered, ConditionsOf, Schedule, Distinct;
    OrderedBlocks(tasks, keys);
    var ordered, s := Ordered(tasks, keys), Schedule(tasks, keys);
    if cell in s {
      var i :| 0 <= i < |s| && s[i] == cell;
      assert ordered[i / 2] in ordered;
    }
    if cell.task in tasks {
      var b :| 0 <= b < |ordered| && ordered[b] == Block(cell.harness, cell.task);
      var k := if ConditionsOf(ordered[b], keys)[0] == cell.condition then 0 else 1;
      assert s[2 * b + k] == CellAt(ordered, keys, 2 * b + k);
    }
  }

  lemma CellsDiffer(ordered: seq<Block>, keys: Keys, i: nat, j: nat)
    requires Distinct(ordered) && i < j < 2 * |ordered|
    ensures CellAt(ordered, keys, i) != CellAt(ordered, keys, j)
  {
    hide ConditionsOf;
    if i / 2 == j / 2 {
      assert i % 2 == 0 && j % 2 == 1;
    } else {
      assert ordered[i / 2] != ordered[j / 2];
    }
  }

  /** Both conditions of a harness and task run back to back, whatever the keys. */
  lemma ConditionsAdjacent(tasks: seq<string>, keys: Keys, b: nat)
    requires b < 2 * |tasks|
    ensures var s := Schedule(tasks, keys);
            && s[2 * b].harness == s[2 * b + 1].harness && s[2 * b].task == s[2 * b + 1].task
            && s[2 * b].condition != s[2 * b + 1].condition
  {
    hide Ordered, ConditionsOf, Schedule;
    var ordered, s := Ordered(tasks, keys), Schedule(tasks, keys);
    assert s[2 * b] == CellAt(ordered, keys, 2 * b) && s[2 * b + 1] == CellAt(ordered, keys, 2 * b + 1);
  }

  lemma BlockOrderTotal(keys: Keys)
    ensures TotalPreorder(BlockOrder(keys))
  {
  }

  /**
   * The keys decide the order and nothing else does: blocks ascend by key, Codex and then task order breaking a tie, and
   * the condition of smaller key runs first, the baseline on a tie.
   */
  lemma ScheduleAscends(tasks: seq<string>, keys: Keys, b: nat, c: nat)
    requires b < c < 2 * |tasks|
    ensures var s := Schedule(tasks, keys);
            var (x, y) := (Block(s[2 * b].harness, s[2 * b].task), Block(s[2 * c].harness, s[2 * c].task));
            keys.block(x) < keys.block(y) || (keys.block(x) == keys.block(y) && Before(x, y, Blocks(tasks)))
  {
    hide Blocks, ConditionsOf;
    var ordered, s := Ordered(tasks, keys), Schedule(tasks, keys);
    BlockOrderTotal(keys);
    SortBySorted(Blocks(tasks), BlockOrder(keys));
    SortByStable(Blocks(tasks), BlockOrder(keys));
    assert BlockOrder(keys)(ordered[b], ordered[c]);
    assert s[2 * b] == CellAt(ordered, keys, 2 * b) && s[2 * c] == CellAt(ordered, keys, 2 * c);
  }

  lemma ConditionsAscend(tasks: seq<string>, keys: Keys, b: nat)
    requires b < 2 * |tasks|
    ensures var s := Schedule(tasks, keys);
            var (first, second) := (keys.condition(s[2 * b]), keys.condition(s[2 * b + 1]));
            first < second || (first == second && s[2 * b].condition == Baseline)
  {
    hide Blocks, Ordered;
    var ordered, s := Ordered(tasks, keys), Schedule(tasks, keys);
    assert s[2 * b] == CellAt(ordered, keys, 2 * b) && s[2 * b + 1] == CellAt(ordered, keys, 2 * b + 1);
  }

  // ----- reservation -----

  type Pid = nat

  /** The digest a receipt is named by. */
  datatype Name = Sha256(runId: string, cell: Cell)

  /** An admission checks the plan, then creates the receipt exclusively; it may raise or crash anywhere. */
  datatype Phase = Checking(index: nat) | Ready(index: nat) | Reserved(index: nat) | Collided(index: nat) | Stopped

  /** Who created a receipt, and for which index of the schedule. */
  datatype Receipt = Receipt(owner: Pid, index: nat)

  datatype Control = Control(receipts: map<Name, Receipt>, procs: map<Pid, Phase>)

  /** Go proceeds; Fail raises or crashes before the step, FailAfter once its effect is done. */
  datatype Choice = Go | Fail | FailAfter

  function NameOf(runId: string, schedule: seq<Cell>, i: nat): Name
    requires i < |schedule|
  {
    Sha256(runId, schedule[i])
  }

  function Next(s: Control, p: Pid, c: Choice, runId: string, schedule: seq<Cell>): Control {
    if p !in s.procs then s
    else if c == Fail then (if s.procs[p].Checking? || s.procs[p].Ready? then s.(procs := s.procs[p := Stopped]) else s)
    else match s.procs[p] {
      case Checking(i) => s.(procs := s.procs[p := if i < |schedule| && c == Go then Ready(i) else Stopped])
      case Ready(i) =>
        if i >= |schedule| then s.(procs := s.procs[p := Stopped])
        else if NameOf(runId, schedule, i) in s.receipts then s.(procs := s.procs[p := Collided(i)])
        else Control(s.receipts[NameOf(runId, schedule, i) := Receipt(p, i)], s.procs[p := if c == Go then Reserved(i) else Stopped])
      case _ => s
    }
  }

  function Run(s: Control, steps: seq<(Pid, Choice)>, runId: string, schedule: seq<Cell>): Control {
    if steps == [] then s
    else Next(Run(s, steps[..|steps| - 1], runId, schedule), steps[|steps| - 1].0, steps[|steps| - 1].1, runId, schedule)
  }

  ghost predicate Inv(s: Control, runId: string, schedule: seq<Cell>) {
    && (forall p | p in s.procs && s.procs[p].Reserved? ::
          && s.procs[p].index < |schedule| && NameOf(runId, schedule, s.procs[p].index) in s.receipts
          && s.receipts[NameOf(runId, schedule, s.procs[p].index)].owner == p)
    && (forall p | p in s.procs && s.procs[p].Collided? ::
          && s.procs[p].index < |schedule| && NameOf(runId, schedule, s.procs[p].index) in s.receipts
          && s.receipts[NameOf(runId, schedule, s.procs[p].index)].owner != p)
    && (forall name | name in s.receipts ::
          && s.receipts[name].index < |schedule| && NameOf(runId, schedule, s.receipts[name].index) == name
          && s.receipts[name].owner in s.procs
          && !s.procs[s.receipts[name].owner].Checking? && !s.procs[s.receipts[name].owner].Ready?)
  }

  lemma NextKeeps(s: Control, p: Pid, c: Choice, runId: string, schedule: seq<Cell>)
    requires Inv(s, runId, schedule)
    ensures Inv(Next(s, p, c, runId, schedule), runId, schedule)
    ensures s.receipts.Keys <= Next(s, p, c, runId, schedule).receipts.Keys
  {
    hide Inv, NameOf;
    if p in s.procs && (s.procs[p].Checking? || s.procs[p].Ready?) {
      var t := Next(s, p, c, runId, schedule);
      if t.receipts == s.receipts {
        PhaseKeeps(s, p, t.procs[p], runId, schedule);
      } else {
        ReceiptKeeps(s, p, t.procs[p], runId, schedule);
      }
    }
  }

  lemma PhaseKeeps(s: Control, p: Pid, next: Phase, runId: string, schedule: seq<Cell>)
    requires Inv(s, runId, schedule) && p in s.procs && (s.procs[p].Checking? || s.procs[p].Ready?)
    requires next.Stopped? || (next.Ready? && s.procs[p].Checking?)
             || (next.Collided? && s.procs[p] == Ready(next.index) && next.index < |schedule| && NameOf(runId, schedule, next.index) in s.receipts)
    ensures Inv(s.(procs := s.procs[p := next]), runId, schedule)
  {
    hide NameOf;
  }

  lemma ReceiptKeeps(s: Control, p: Pid, next: Phase, runId: string, schedule: seq<Cell>)
    requires Inv(s, runId, schedule) && p in s.procs && s.procs[p].Ready? && s.procs[p].index < |schedule|
    requires next == Stopped || next == Reserved(s.procs[p].index)
    requires NameOf(runId, schedule, s.procs[p].index) !in s.receipts
    ensures var i := s.procs[p].index;
            Inv(Control(s.receipts[NameOf(runId, schedule, i) := Receipt(p, i)], s.procs[p := next]), runId, schedule)
  {
  }

  lemma {:induction false} RunKeeps(s: Control, steps: seq<(Pid, Choice)>, runId: string, schedule: seq<Cell>)
    requires Inv(s, runId, schedule)
    ensures Inv(Run(s, steps, runId, schedule), runId, schedule)
    ensures s.receipts.Keys <= Run(s, steps, runId, schedule).receipts.Keys
  {
    hide Inv, Next;
    if steps != [] {
      RunKeeps(s, steps[..|steps| - 1], runId, schedule);
      NextKeeps(Run(s, steps[..|steps| - 1], runId, schedule), steps[|steps| - 1].0, steps[|steps| - 1].1, runId, schedule);
    }
  }

  /**
   * However admissions interleave, fail and crash: no index is reserved twice, and one that found its receipt already
   * there met an earlier admission of the same index, never of another. A consumed slot stays consumed.
   */
  lemma ReservedOnce(procs: map<Pid, Phase>, steps: seq<(Pid, Choice)>, later: seq<(Pid, Choice)>, runId: string,
                     schedule: seq<Cell>, p: Pid, q: Pid)
    requires Distinct(schedule) && forall r | r in procs :: procs[r].Checking?
    ensures var s := Run(Control(map[], procs), steps, runId, schedule);
            && (p != q && p in s.procs && q in s.procs && s.procs[p].Reserved? && s.procs[q].Reserved? ==>
                  s.procs[p].index != s.procs[q].index)
            && (p in s.procs && s.procs[p].Collided? ==>
                  && s.procs[p].index < |schedule| && NameOf(runId, schedule, s.procs[p].index) in s.receipts
                  && var met := s.receipts[NameOf(runId, schedule, s.procs[p].index)];
                     met.owner != p && met.index == s.procs[p].index)
            && s.receipts.Keys <= Run(s, later, runId, schedule).receipts.Keys
  {
    hide Next, Run;
    RunKeeps(Control(map[], procs), steps, runId, schedule);
    RunKeeps(Run(Control(map[], procs), steps, runId, schedule), later, runId, schedule);
  }

  /** Two undisturbed steps of an admission: what each may end with, for every index and whatever is reserved. */
  lemma AdmittedIff(s: Control, p: Pid, i: nat, runId: string, schedule: seq<Cell>)
    requires p in s.procs && s.procs[p] == Checking(i)
    ensures var t := Next(Next(s, p, Go, runId, schedule), p, Go, runId, schedule);
            && (i >= |schedule| ==> t == Control(s.receipts, s.procs[p := Stopped]))
            && (i < |schedule| ==>
                  var name := NameOf(runId, schedule, i);
                  t == if name in s.receipts then Control(s.receipts, s.procs[p := Collided(i)])
                       else Control(s.receipts[name := Receipt(p, i)], s.procs[p := Reserved(i)]))
  {
  }

  /**
   * A step that fails before its effect stops the admission and reserves nothing; one that fails after it leaves the
   * receipt behind exactly when it was about to create a new one. An admission that has ended never moves again.
   */
  lemma FailureStops(s: Control, p: Pid, runId: string, schedule: seq<Cell>)
    requires p in s.procs
    ensures s.procs[p].Checking? ==>
              && Next(s, p, Fail, runId, schedule) == Control(s.receipts, s.procs[p := Stopped])
              && Next(s, p, FailAfter, runId, schedule) == Control(s.receipts, s.procs[p := Stopped])
    ensures s.procs[p].Ready? && s.procs[p].index < |schedule| ==>
              var (i, name) := (s.procs[p].index, NameOf(runId, schedule, s.procs[p].index));
              && Next(s, p, Fail, runId, schedule) == Control(s.receipts, s.procs[p := Stopped])
              && Next(s, p, FailAfter, runId, schedule) ==
                 if name in s.receipts then Control(s.receipts, s.procs[p := Collided(i)])
                 else Control(s.receipts[name := Receipt(p, i)], s.procs[p := Stopped])
    ensures !s.procs[p].Checking? && !s.procs[p].Ready? ==> forall c :: Next(s, p, c, runId, schedule) == s
  {
  }

  // ----- admission limits -----

  datatype Budget = Budget(wallSeconds: int, modelCalls: int, followups: int, reviewSeconds: int)

  /** The budgets prepare_experiment accepts. */
  predicate Valid(b: Budget) {
    1 <= b.wallSeconds <= 86_400 && 1 <= b.modelCalls <= 1000 && 0 <= b.followups <= 10
    && 1 <= b.reviewSeconds <= b.wallSeconds
  }

  function RelayLimits(cell: Cell, b: Budget, started: real): ControlRelay.Limits
    requires Valid(b)
  {
    ControlRelay.Limits(cell.condition == Pex, b.followups + 1, b.reviewSeconds as real, started + b.wallSeconds as real)
  }

  function WorkerFollowups(cell: Cell, b: Budget): int {
    if cell.condition == Pex then b.followups else 0
  }

  /** Exactly the budgets a preparation accepts: the relays' and the worker's own limits, within a day. */
  lemma ValidIff(b: Budget)
    ensures Valid(b) <==>
              && 0 < b.reviewSeconds <= b.wallSeconds <= 24 * 60 * 60
              && 0 < b.modelCalls < 1001 && WorkerSession.Configured(true, b.followups)
  {
  }

  /**
   * Every admitted attempt starts its relay and its worker within what they accept, and the relay has a review for
   * every one the worker can ask for: it turns none away except for the time left.
   */
  lemma AdmittedReviewsSuffice(cell: Cell, b: Budget, started: real, w: WorkerSession.World,
                               xs: seq<ControlRelay.Exchange>, x: ControlRelay.Exchange, vendor: string)
    requires Valid(b)
    ensures WorkerSession.Configured(cell.condition == Pex, WorkerFollowups(cell, b))
    ensures var limits := RelayLimits(cell, b, started);
            1 <= limits.maxReviews <= 11 && 0.0 < limits.maxSeconds <= limits.deadline - started <= 86_400.0
    ensures var limits := RelayLimits(cell, b, started);
            cell.condition == Pex && ControlRelay.ValidRequest(x.request) && ControlRelay.WellBehaved(xs + [x], vendor)
            && |xs| < WorkerSession.WorkerRun(w, true, WorkerFollowups(cell, b)).reviews ==>
              var s := ControlRelay.Session(xs, limits);
              ControlRelay.Denied(s.ids, s.vendor, s.inflight, s.used, ControlRelay.IdOf(x.request),
                                  ControlRelay.VendorOf(x.request), x.now, limits)
              in {None, Some(ControlRelay.ReviewTimeBudgetExhausted), Some(ControlRelay.DeadlineExpired)}
  {
    hide ControlRelay.Session, ControlRelay.ValidRequest, ControlRelay.WellBehaved, ControlRelay.Denied, WorkerSession.WorkerRun;
    var limits := RelayLimits(cell, b, started);
    if cell.condition == Pex && ControlRelay.ValidRequest(x.request) && ControlRelay.WellBehaved(xs + [x], vendor)
       && |xs| < WorkerSession.WorkerRun(w, true, WorkerFollowups(cell, b)).reviews {
      WorkerSession.ReviewsNeverExhausted(w, b.followups, xs, x, vendor, limits);
    }
  }
}
