/** The predeclared paired randomization schedule (benchmarks/runner.py). */
module ExperimentPlan {
  import opened Common
  import opened Sorting
  import TextOrder

  datatype Harness = Cursor | Codex

  /** "cursor", "cursor_pex", "codex" and "codex_pex", or any other arm name a record may carry. */
  datatype Arm = Arm(harness: Harness, pex: bool) | OtherArm(name: string)

  const PRESENTATION_ARMS: seq<Arm> := [Arm(Cursor, false), Arm(Cursor, true), Arm(Codex, false), Arm(Codex, true)]
  const ALL_TASK_IDS: seq<string> := [
    "pexbench_001_premature_stop", "pexbench_002_drift", "pexbench_003_permission_spam",
    "pexbench_004_false_claim", "pexbench_005_handoff", "pexbench_006_quixbugs_wrap",
    "pexbench_007_quixbugs_next_permutation", "pexbench_008_quixbugs_kth"
  ]

  datatype Block = Block(task: string, harness: Harness)

  /** The seeded digests that order blocks and, inside a block, the two arms: any functions at all. */
  datatype Seed = Seed(block: Block -> nat, arm: (Block, Arm) -> nat)

  datatype Entry = Entry(scheduleIndex: nat, blockIndex: nat, task: string, arm: Arm)

  /** sorted over tuples of digest, task and harness, "codex" before "cursor". */
  predicate Precedes(a: Block, b: Block, seed: Seed) {
    || seed.block(a) < seed.block(b)
    || (seed.block(a) == seed.block(b) && a.task != b.task && TextOrder.Before(a.task, b.task))
    || (seed.block(a) == seed.block(b) && a.task == b.task && (a.harness == Codex || b.harness == Cursor))
  }

  function BlockOrder(seed: Seed): (Block, Block) -> bool {
    (a: Block, b: Block) => Precedes(a, b, seed)
  }

  function BlocksOf(tasks: seq<string>): (r: seq<Block>)
    ensures |r| == 2 * |tasks|
  {
    if tasks == [] then []
    else BlocksOf(tasks[..|tasks| - 1]) + [Block(tasks[|tasks| - 1], Cursor), Block(tasks[|tasks| - 1], Codex)]
  }

  /** The arms of one block in execution order: a stable sort of [baseline, treatment] by digest. */
  function ArmsOf(b: Block, seed: Seed): (r: seq<Arm>)
    ensures |r| == 2
  {
    var arms := [Arm(b.harness, false), Arm(b.harness, true)];
    if seed.arm(b, arms[0]) <= seed.arm(b, arms[1]) then arms else [arms[1], arms[0]]
  }

  function EntryAt(blocks: seq<Block>, seed: Seed, i: nat): Entry
    requires i < 2 * |blocks|
  {
    Entry(i + 1, i / 2 + 1, blocks[i / 2].task, ArmsOf(blocks[i / 2], seed)[i % 2])
  }

  /** The schedule for blocks already in order: two consecutive entries a block. */
  function Schedule(ordered: seq<Block>, seed: Seed): (r: seq<Entry>)
    ensures |r| == 2 * |ordered|
    ensures forall i | 0 <= i < |r| :: r[i] == EntryAt(ordered, seed, i)
  {
    seq(2 * |ordered|, i requires 0 <= i < 2 * |ordered| => EntryAt(ordered, seed, i))
  }

  function Ordered(tasks: seq<string>, seed: Seed): (r: seq<Block>)
    ensures |r| == 2 * |tasks|
    ensures multiset(r) == multiset(BlocksOf(tasks))
  {
    SortBy(BlocksOf(tasks), BlockOrder(seed))
  }

  function PlanOf(tasks: seq<string>, seed: Seed): (r: seq<Entry>)
    ensures |r| == 4 * |tasks|
  {
    Schedule(Ordered(tasks, seed), seed)
  }

  /** experiment_plan: refuses any task list or arm list but the canonical ones. */
  method BuildPlan(tasks: seq<string>, arms: seq<Arm>, seed: Seed)
      returns (result: Result<seq<Entry>, string>)
    ensures result.Ok? <==> tasks == ALL_TASK_IDS && arms == PRESENTATION_ARMS
    ensures result.Ok? ==> result.value == PlanOf(tasks, seed)
  {
    if tasks != ALL_TASK_IDS {
      return Err("benchmark plan requires the canonical eight-task smoke suite");
    }
    if arms != PRESENTATION_ARMS {
      return Err("benchmark plan requires the canonical four presentation arms");
    }
    var plan := ScheduleBlocks(tasks, seed);
    return Ok(plan);
  }

  /** The two list-building loops of experiment_plan. */
  method ScheduleBlocks(tasks: seq<string>, seed: Seed) returns (plan: seq<Entry>)
    ensures plan == PlanOf(tasks, seed)
  {
    var blocks: seq<Block> := [];
    for t := 0 to |tasks|
      invariant blocks == BlocksOf(tasks[..t])
    {
      assert tasks[..t + 1][..t] == tasks[..t];
      blocks := blocks + [Block(tasks[t], Cursor), Block(tasks[t], Codex)];
    }
    assert tasks[..|tasks|] == tasks;
    plan := AppendArms(SortBy(blocks, BlockOrder(seed)), seed);
  }

  method AppendArms(ordered: seq<Block>, seed: Seed) returns (plan: seq<Entry>)
    ensures plan == Schedule(ordered, seed)
  {
    plan := [];
    for b := 0 to |ordered|
      invariant |plan| == 2 * b
      invariant forall i | 0 <= i < |plan| :: plan[i] == EntryAt(ordered, seed, i)
    {
      var arms := ArmsOf(ordered[b], seed);
      for k := 0 to 2
        invariant |plan| == 2 * b + k
        invariant forall i | 0 <= i < |plan| :: plan[i] == EntryAt(ordered, seed, i)
      {
        plan := plan + [Entry(|plan| + 1, b + 1, ordered[b].task, arms[k])];
      }
    }
  }

  lemma {:induction false} BlockAt(tasks: seq<string>, i: nat)
    requires i < 2 * |tasks|
    ensures BlocksOf(tasks)[i] == Block(tasks[i / 2], if i % 2 == 0 then Cursor else Codex)
  {
    if i < 2 * |tasks| - 2 {
      BlockAt(tasks[..|tasks| - 1], i);
    }
  }

  lemma BlocksDistinct(tasks: seq<string>)
    requires Distinct(tasks)
    ensures Distinct(BlocksOf(tasks))
  {
    var blocks := BlocksOf(tasks);
    forall i, j | 0 <= i < j < |blocks| ensures blocks[i] != blocks[j] {
      BlockAt(tasks, i);
      BlockAt(tasks, j);
    }
  }

  /** The blocks of the schedule, whatever order the digests put them in. */
  ghost predicate Arranges(ordered: seq<Block>, tasks: seq<string>) {
    && |ordered| == 2 * |tasks|
    && Distinct(ordered)
    && (forall b | 0 <= b < |ordered| :: ordered[b].task in tasks)
  }

  lemma SortedBlocks(tasks: seq<string>, ordered: seq<Block>)
    requires Distinct(tasks) && multiset(ordered) == multiset(BlocksOf(tasks))
    ensures Arranges(ordered, tasks)
  {
    var blocks := BlocksOf(tasks);
    assert |ordered| == |multiset(ordered)| == |multiset(blocks)| == |blocks|;
    BlocksDistinct(tasks);
    PermutationDistinct(blocks, ordered);
    forall b | 0 <= b < |ordered| ensures ordered[b].task in tasks {
      assert ordered[b] in multiset(ordered);
      var i :| 0 <= i < |blocks| && blocks[i] == ordered[b];
      BlockAt(tasks, i);
    }
  }

  lemma BlockPlace(tasks: seq<string>, ordered: seq<Block>, block: Block) returns (b: nat)
    requires multiset(ordered) == multiset(BlocksOf(tasks)) && block.task in tasks
    ensures b < |ordered| && ordered[b] == block
  {
    var t :| 0 <= t < |tasks| && tasks[t] == block.task;
    var i := if block.harness == Cursor then 2 * t else 2 * t + 1;
    BlockAt(tasks, i);
    assert BlocksOf(tasks)[i] in multiset(BlocksOf(tasks));
    assert block in multiset(ordered);
    b :| 0 <= b < |ordered| && ordered[b] == block;
  }

  /** Both arms of a pair run back to back, once treated and once not, under one block number. */
  lemma PairsAdjacent(tasks: seq<string>, seed: Seed, b: nat)
    requires Distinct(tasks) && b < 2 * |tasks|
    ensures var p := PlanOf(tasks, seed);
            && p[2 * b].task == p[2 * b + 1].task && p[2 * b].task in tasks
            && p[2 * b].arm.Arm? && p[2 * b + 1].arm == Arm(p[2 * b].arm.harness, !p[2 * b].arm.pex)
            && p[2 * b].blockIndex == p[2 * b + 1].blockIndex == b + 1
            && p[2 * b].scheduleIndex == 2 * b + 1 && p[2 * b + 1].scheduleIndex == 2 * b + 2
  {
    hide Ordered, BlocksOf, Distinct;
    var ordered := Ordered(tasks, seed);
    SortedBlocks(tasks, ordered);
    assert Schedule(ordered, seed)[2 * b] == EntryAt(ordered, seed, 2 * b);
    assert Schedule(ordered, seed)[2 * b + 1] == EntryAt(ordered, seed, 2 * b + 1);
  }

  lemma EntriesDiffer(ordered: seq<Block>, seed: Seed, i: nat, j: nat)
    requires Distinct(ordered) && i < j < 2 * |ordered|
    ensures EntryAt(ordered, seed, i).task != EntryAt(ordered, seed, j).task
            || EntryAt(ordered, seed, i).arm != EntryAt(ordered, seed, j).arm
  {
    if i / 2 == j / 2 {
      assert i % 2 == 0 && j % 2 == 1;
    } else {
      assert ordered[i / 2] != ordered[j / 2];
    }
  }

  /** Every scheduled entry is one of the requested tasks under a presentation arm, and is scheduled once. */
  lemma PlanEntriesDistinct(tasks: seq<string>, seed: Seed, i: nat, j: nat)
    requires Distinct(tasks) && i < j < 4 * |tasks|
    ensures var p := PlanOf(tasks, seed);
            && p[i].task in tasks && p[i].arm.Arm? && p[j].task in tasks && p[j].arm.Arm?
            && (p[i].task != p[j].task || p[i].arm != p[j].arm)
  {
    hide Ordered, BlocksOf, Distinct;
    var ordered := Ordered(tasks, seed);
    SortedBlocks(tasks, ordered);
    EntriesDiffer(ordered, seed, i, j);
    assert Schedule(ordered, seed)[i] == EntryAt(ordered, seed, i);
    assert Schedule(ordered, seed)[j] == EntryAt(ordered, seed, j);
  }

  lemma ArmPlace(b: Block, seed: Seed, arm: Arm) returns (k: nat)
    requires arm.Arm? && arm.harness == b.harness
    ensures k < 2 && ArmsOf(b, seed)[k] == arm
  {
    k := if ArmsOf(b, seed)[0] == arm then 0 else 1;
  }

  /** Every task is scheduled under every presentation arm. */
  lemma PlanCovers(tasks: seq<string>, seed: Seed, task: string, arm: Arm) returns (i: nat)
    requires task in tasks && arm.Arm?
    ensures i < |PlanOf(tasks, seed)|
    ensures PlanOf(tasks, seed)[i].task == task && PlanOf(tasks, seed)[i].arm == arm
  {
    hide Ordered, BlocksOf, ArmsOf;
    var ordered := Ordered(tasks, seed);
    var b := BlockPlace(tasks, ordered, Block(task, arm.harness));
    var k := ArmPlace(ordered[b], seed, arm);
    i := 2 * b + k;
    assert Schedule(ordered, seed)[i] == EntryAt(ordered, seed, i);
  }

  /** The eight canonical task ids are distinct, so the plan has 32 entries. */
  lemma CanonicalTasksDistinct()
    ensures Distinct(ALL_TASK_IDS) && |ALL_TASK_IDS| == 8
  {
    var t := ALL_TASK_IDS;
    assert t[0][11] == '1' && t[1][11] == '2' && t[2][11] == '3' && t[3][11] == '4';
    assert t[4][11] == '5' && t[5][11] == '6' && t[6][11] == '7' && t[7][11] == '8';
    forall i, j | 0 <= i < j < |t| ensures t[i] != t[j] {
      assert t[i][11] != t[j][11];
    }
  }

  lemma BlockOrderTotal(seed: Seed)
    ensures TotalPreorder(BlockOrder(seed))
  {
    hide TextOrder.Before;
    TextOrder.BeforeOrders();
    forall a, b, c | Precedes(a, b, seed) && Precedes(b, c, seed) ensures Precedes(a, c, seed) {
      PrecedesTransitive(a, b, c, seed);
    }
  }

  lemma PrecedesTransitive(a: Block, b: Block, c: Block, seed: Seed)
    requires Precedes(a, b, seed) && Precedes(b, c, seed)
    ensures Precedes(a, c, seed)
  {
    hide TextOrder.Before;
    TextOrder.BeforeOrders();
    if a.task != b.task && a.task == c.task { TextOrder.BeforeTotal(a.task, b.task); }
  }

  /**
   * The seed decides the order and the task list does not: the blocks ascend by digest, blocks of one digest by task in
   * code point order and then with Codex first.
   */
  lemma PlanAscends(tasks: seq<string>, seed: Seed, b: nat, c: nat)
    requires b < c < 2 * |tasks|
    ensures var p := PlanOf(tasks, seed);
            && p[2 * b].arm.Arm? && p[2 * c].arm.Arm?
            && var (x, y) := (Block(p[2 * b].task, p[2 * b].arm.harness), Block(p[2 * c].task, p[2 * c].arm.harness));
               && seed.block(x) <= seed.block(y)
               && (seed.block(x) == seed.block(y) ==> TextOrder.Before(x.task, y.task))
               && (seed.block(x) == seed.block(y) && x.task == y.task && x.harness.Cursor? ==> y.harness.Cursor?)
  {
    hide BlocksOf;
    var ordered, p := Ordered(tasks, seed), PlanOf(tasks, seed);
    BlockOrderTotal(seed);
    SortBySorted(BlocksOf(tasks), BlockOrder(seed));
    TextOrder.BeforeTotal(ordered[b].task, ordered[b].task);
    assert BlockOrder(seed)(ordered[b], ordered[c]);
    assert p[2 * b] == EntryAt(ordered, seed, 2 * b) && p[2 * c] == EntryAt(ordered, seed, 2 * c);
  }

  lemma ArmsAscend(tasks: seq<string>, seed: Seed, b: nat)
    requires b < 2 * |tasks|
    ensures var p := PlanOf(tasks, seed);
            && p[2 * b].arm.Arm?
            && var block := Block(p[2 * b].task, p[2 * b].arm.harness);
               var (first, second) := (seed.arm(block, p[2 * b].arm), seed.arm(block, p[2 * b + 1].arm));
               first < second || (first == second && !p[2 * b].arm.pex)
  {
    hide Ordered, BlocksOf;
    var ordered, p := Ordered(tasks, seed), PlanOf(tasks, seed);
    assert p[2 * b] == EntryAt(ordered, seed, 2 * b) && p[2 * b + 1] == EntryAt(ordered, seed, 2 * b + 1);
  }
}
