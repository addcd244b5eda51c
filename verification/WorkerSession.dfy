/**
 * The worker's session loop: turns of one vendor session, a review after each, and repairs up to the
 * follow-up limit (benchmarks/opencode_session.py, opencode_worker.py).
 */
module WorkerSession {
  import opened Common
  import opened Base64
  import opened CliTurn
  import opened ControlRelay
  import Text

  // ----- the session loop -----

  datatype Advised = Advised(action: Action, text: Option<string>)

  datatype TurnOutcome = Exited(raw: seq<Byte>, code: int) | Interrupted
  datatype ReviewOutcome = Decided(decision: Advised) | ReviewRaised

  /** Everything the session cannot decide: its logs, its clock readings, its reviews, each by number. */
  datatype World = World(read: Reader, deadline: real, clock: nat -> real, prompt: string,
                         turn: nat -> TurnOutcome, review: nat -> ReviewOutcome)

  datatype SessionRun = SessionRun(turns: seq<Turn>, actions: seq<Action>, outgoing: seq<string>, limitReached: bool)

  /** reviews counts the review callbacks started. */
  datatype Outcome = Finished(run: SessionRun, reviews: nat) | Failed(reviews: nat)

  predicate Late(w: World, reading: nat) {
    w.clock(reading) >= w.deadline
  }

  predicate Promptable(prompt: string, session: Option<string>) {
    && |prompt| <= 20_000 && Text.NUL !in prompt && Text.Strip(prompt) != ""
    && (session.Some? ==> |session.value| <= 256 && Text.NUL !in session.value)
  }

  function RunTurn(w: World, k: nat, prompt: string, session: Option<string>): Option<Turn> {
    if !Promptable(prompt, session) || w.turn(k).Interrupted? then None
    else CompletedTurn(w.turn(k).raw, w.turn(k).code, session, w.read)
  }

  /** The loop's lists and the prompt it will send next. */
  datatype State = State(turns: seq<Turn>, actions: seq<Action>, outgoing: seq<string>, prompt: string)

  function SessionOf(turns: seq<Turn>): Option<string> {
    if turns == [] then None else Some(turns[|turns| - 1].session)
  }

  datatype Next = Again(state: State) | Done(outcome: Outcome)

  function Finish(w: World, reading: nat, run: SessionRun, reviews: nat): Outcome {
    if Late(w, reading) then Failed(reviews) else Finished(run, reviews)
  }

  /** One pass through the loop: turn, review, and what the decision asks for. */
  function Advance(w: World, supervised: bool, maxFollowups: nat, s: State): Next {
    var k := |s.turns|;
    if Late(w, 4 * k) then Done(Failed(|s.actions|))
    else
      var turn := RunTurn(w, k, s.prompt, SessionOf(s.turns));
      if turn.None? || Late(w, 4 * k + 1) || (s.turns != [] && Some(turn.value.session) != SessionOf(s.turns))
      then Done(Failed(|s.actions|))
      else
        var turns := s.turns + [turn.value];
        if !supervised then Done(Finish(w, 4 * k + 2, SessionRun(turns, s.actions, s.outgoing, false), |s.actions|))
        else if Late(w, 4 * k + 2) then Done(Failed(|s.actions|))
        else if w.review(k).ReviewRaised? || Late(w, 4 * k + 3) || w.review(k).decision.action == Unsupported
        then Done(Failed(|s.actions| + 1))
        else Decide(w, maxFollowups, s, turns, w.review(k).decision)
  }

  function Decide(w: World, maxFollowups: nat, s: State, turns: seq<Turn>, d: Advised): Next {
    var actions, reviews, reading := s.actions + [d.action], |s.actions| + 1, 4 * |s.turns| + 4;
    if d.action == Noop then Done(Finish(w, reading, SessionRun(turns, actions, s.outgoing, false), reviews))
    else if d.text.None? || !Instructive(d.text.value) then Done(Failed(reviews))
    else if |s.outgoing| >= maxFollowups
    then Done(Finish(w, reading, SessionRun(turns, actions, s.outgoing, true), reviews))
    else Again(State(turns, actions, s.outgoing + [d.text.value], d.text.value))
  }

  function Session(w: World, supervised: bool, maxFollowups: nat, s: State): Outcome
    decreases maxFollowups - |s.outgoing|
  {
    match Advance(w, supervised, maxFollowups, s)
    case Done(outcome) => outcome
    case Again(next) => Session(w, supervised, maxFollowups, next)
  }

  predicate Configured(supervised: bool, maxFollowups: int) {
    0 <= maxFollowups <= 10 && (!supervised ==> maxFollowups == 0)
  }

  function WorkerRun(w: World, supervised: bool, maxFollowups: int): Outcome {
    if Configured(supervised, maxFollowups)
    then Session(w, supervised, maxFollowups, State([], [], [], w.prompt)) else Failed(0)
  }

  method RunSession(w: World, supervised: bool, maxFollowups: int) returns (outcome: Outcome)
    ensures outcome == WorkerRun(w, supervised, maxFollowups)
  {
    hide RunTurn, Instructive;
    if !Configured(supervised, maxFollowups) { return Failed(0); }
    var turns: seq<Turn>, actions: seq<Action>, outgoing: seq<string> := [], [], [];
    var vendorSession: Option<string>, nextPrompt, limitReached := None, w.prompt, false;
    while true
      invariant vendorSession == SessionOf(turns) && !limitReached
      invariant Session(w, supervised, maxFollowups, State(turns, actions, outgoing, nextPrompt))
             == WorkerRun(w, supervised, maxFollowups)
      decreases maxFollowups - |outgoing|
    {
      var k := |turns|;
      if Late(w, 4 * k) { return Failed(|actions|); }
      var turn := RunTurn(w, k, nextPrompt, vendorSession);
      if turn.None? || Late(w, 4 * k + 1) { return Failed(|actions|); }
      if vendorSession.Some? && Some(turn.value.session) != vendorSession { return Failed(|actions|); }
      vendorSession := Some(turn.value.session);
      turns := turns + [turn.value];
      if !supervised { break; }
      if Late(w, 4 * k + 2) { return Failed(|actions|); }
      if w.review(k).ReviewRaised? || Late(w, 4 * k + 3) { return Failed(|actions| + 1); }
      var decision := w.review(k).decision;
      if decision.action == Unsupported { return Failed(|actions| + 1); }
      actions := actions + [decision.action];
      if decision.action == Noop { break; }
      if decision.text.None? || !Instructive(decision.text.value) { return Failed(|actions|); }
      if |outgoing| >= maxFollowups {
        limitReached := true;
        break;
      }
      nextPrompt := decision.text.value;
      outgoing := outgoing + [nextPrompt];
    }
    if Late(w, if supervised then 4 * |turns| else 4 * |turns| - 2) { return Failed(|actions|); }
    return Finished(SessionRun(turns, actions, outgoing, limitReached), |actions|);
  }

  // ----- what a session keeps -----

  function SessionBefore(turns: seq<Turn>, i: nat): Option<string>
    requires i < |turns|
  {
    if i == 0 then None else Some(turns[i - 1].session)
  }

  /** Turn i is what its log, read in the session so far, completes to. */
  ghost predicate Logged(w: World, turns: seq<Turn>, i: nat)
    requires i < |turns|
  {
    && w.turn(i).Exited? && w.turn(i).code == 0
    && CompletedTurn(w.turn(i).raw, 0, SessionBefore(turns, i), w.read) == Some(turns[i])
  }

  ghost predicate AllLogged(w: World, turns: seq<Turn>) {
    forall i | 0 <= i < |turns| :: Logged(w, turns, i)
  }

  predicate AllRepair(actions: seq<Action>) {
    forall i | 0 <= i < |actions| :: Repairs(actions[i])
  }

  predicate AllInstructive(texts: seq<string>) {
    forall i | 0 <= i < |texts| :: Instructive(texts[i])
  }

  ghost predicate Progress(w: World, maxFollowups: nat, s: State) {
    && |s.turns| == |s.actions| == |s.outgoing| <= maxFollowups
    && AllLogged(w, s.turns) && AllRepair(s.actions) && AllInstructive(s.outgoing)
  }

  /** Terminal actions: repairs, then one last action, which is a repair exactly when the limit was reached. */
  predicate Terminal(actions: seq<Action>, limitReached: bool) {
    && actions != [] && AllRepair(actions[..|actions| - 1])
    && (if limitReached then Repairs(actions[|actions| - 1]) else actions[|actions| - 1] == Noop)
  }

  /** The shape of every finished run. */
  ghost predicate Lineage(w: World, supervised: bool, maxFollowups: nat, run: SessionRun) {
    && 1 <= |run.turns| <= maxFollowups + 1 && AllLogged(w, run.turns)
    && |run.outgoing| == |run.turns| - 1 && AllInstructive(run.outgoing)
    && (if supervised
        then
          && |run.actions| == |run.turns| && Terminal(run.actions, run.limitReached)
          && (run.limitReached ==> |run.outgoing| == maxFollowups)
        else |run.turns| == 1 && run.actions == [] && !run.limitReached)
  }

  lemma LoggedNext(w: World, turns: seq<Turn>, prompt: string, turn: Turn)
    requires AllLogged(w, turns) && RunTurn(w, |turns|, prompt, SessionOf(turns)) == Some(turn)
    ensures AllLogged(w, turns + [turn])
  {
    hide CompletedTurn;
    var n, all := |turns|, turns + [turn];
    forall i | 0 <= i < |all| ensures Logged(w, all, i) {
      if i < n {
        assert Logged(w, turns, i) && all[i] == turns[i] && SessionBefore(all, i) == SessionBefore(turns, i);
      } else {
        assert SessionBefore(all, n) == SessionOf(turns);
        NeedsExitZero(w.turn(n).raw, w.turn(n).code, SessionOf(turns), w.read);
      }
    }
  }

  lemma NeedsExitZero(raw: seq<Byte>, code: int, expected: Option<string>, read: Reader)
    ensures CompletedTurn(raw, code, expected, read).Some? ==> code == 0
  {
  }

  lemma AdvanceKeeps(w: World, supervised: bool, maxFollowups: nat, s: State)
    requires Progress(w, maxFollowups, s) && (!supervised ==> s.turns == [])
    ensures var next := Advance(w, supervised, maxFollowups, s);
            && (next.Again? ==> supervised && Progress(w, maxFollowups, next.state))
            && (next.Done? ==> next.outcome.reviews <= maxFollowups + 1)
            && (next.Done? && next.outcome.Finished? ==>
                  && Lineage(w, supervised, maxFollowups, next.outcome.run)
                  && next.outcome.reviews == |next.outcome.run.actions|)
  {
    hide RunTurn, Instructive, AllLogged;
    var turn := RunTurn(w, |s.turns|, s.prompt, SessionOf(s.turns));
    if turn.Some? {
      LoggedNext(w, s.turns, s.prompt, turn.value);
    }
    assert forall action: Action :: (s.actions + [action])[..|s.actions|] == s.actions;
  }

  lemma {:induction false} SessionKeeps(w: World, supervised: bool, maxFollowups: nat, s: State)
    requires Progress(w, maxFollowups, s) && (!supervised ==> s.turns == [])
    ensures var outcome := Session(w, supervised, maxFollowups, s);
            && outcome.reviews <= maxFollowups + 1
            && (outcome.Finished? ==>
                  && Lineage(w, supervised, maxFollowups, outcome.run)
                  && outcome.reviews == |outcome.run.actions|)
    decreases maxFollowups - |s.outgoing|
  {
    hide Progress, Lineage;
    AdvanceKeeps(w, supervised, maxFollowups, s);
    match Advance(w, supervised, maxFollowups, s)
    case Done(_) =>
    case Again(next) => SessionKeeps(w, supervised, maxFollowups, next);
  }

  /** Every worker run, finished or failed, asks for at most maxFollowups + 1 reviews; a finished one has its lineage. */
  lemma WorkerRunKeeps(w: World, supervised: bool, maxFollowups: int)
    ensures var outcome := WorkerRun(w, supervised, maxFollowups);
            && (maxFollowups >= 0 ==> outcome.reviews <= maxFollowups + 1)
            && (outcome.Finished? ==>
                  && Configured(supervised, maxFollowups)
                  && Lineage(w, supervised, maxFollowups, outcome.run)
                  && outcome.reviews == |outcome.run.actions|)
  {
    if Configured(supervised, maxFollowups) {
      SessionKeeps(w, supervised, maxFollowups, State([], [], [], w.prompt));
    }
  }

  // ----- exactly the runs that finish -----

  /** What the worker can be started with: bounded text that is not blank, and a bounded session id. */
  predicate Sendable(prompt: string, session: Option<string>) {
    && |prompt| <= 20_000 && (forall c | c in prompt :: c != Text.NUL) && (exists c :: c in prompt && !Text.IsSpace(c))
    && (session.Some? ==> |session.value| <= 256 && forall c | c in session.value :: c != Text.NUL)
  }

  lemma {:induction false} StripLeftBlank(s: string)
    ensures Text.StripLeft(s) == "" <==> forall c | c in s :: Text.IsSpace(c)
    ensures Text.StripLeft(s) != "" ==> !Text.IsSpace(Text.StripLeft(s)[0])
  {
    hide Text.IsSpace;
    if s != "" {
      assert s == [s[0]] + s[1..];
      StripLeftBlank(s[1..]);
    }
  }

  lemma {:induction false} StripRightKeeps(s: string)
    requires s != "" && !Text.IsSpace(s[0])
    ensures Text.StripRight(s) != ""
  {
    hide Text.IsSpace;
    if Text.IsSpace(s[|s| - 1]) { StripRightKeeps(s[..|s| - 1]); }
  }

  /** Only white space strips to nothing. */
  lemma BlankIff(s: string)
    ensures Text.Strip(s) == "" <==> forall c | c in s :: Text.IsSpace(c)
  {
    hide Text.IsSpace;
    StripLeftBlank(s);
    if Text.StripLeft(s) != "" { StripRightKeeps(Text.StripLeft(s)); }
  }

  lemma PromptableIff(prompt: string, session: Option<string>)
    ensures Promptable(prompt, session) <==> Sendable(prompt, session)
  {
    hide Text.IsSpace, Text.Strip;
    BlankIff(prompt);
  }

  /** The first prompt is the task's; each later one is the instruction of the review before it. */
  function PromptAt(w: World, run: SessionRun, i: nat): string
    requires i <= |run.outgoing|
  {
    if i == 0 then w.prompt else run.outgoing[i - 1]
  }

  /** Turn i of the run was started in time with its prompt, in the session so far, and completed in time. */
  ghost predicate TurnPlayed(w: World, run: SessionRun, i: nat)
    requires i < |run.turns| && i <= |run.outgoing|
  {
    && w.clock(4 * i) < w.deadline && w.clock(4 * i + 1) < w.deadline
    && Sendable(PromptAt(w, run, i), SessionBefore(run.turns, i))
    && w.turn(i).Exited?
    && CompletedTurn(w.turn(i).raw, w.turn(i).code, SessionBefore(run.turns, i), w.read) == Some(run.turns[i])
  }

  /** Review i came back in time and decided action i. */
  ghost predicate ReviewPlayed(w: World, run: SessionRun, i: nat)
    requires i < |run.actions|
  {
    && w.clock(4 * i + 2) < w.deadline && w.clock(4 * i + 3) < w.deadline
    && w.review(i).Decided? && w.review(i).decision.action == run.actions[i]
  }

  /** Review i asked for a repair with this instruction. */
  ghost predicate RepairPlayed(w: World, i: nat, text: string) {
    && w.review(i).Decided? && Repairs(w.review(i).decision.action)
    && w.review(i).decision.text == Some(text) && Instructive(text)
  }

  /** Review i asked for one repair too many. */
  ghost predicate LimitPlayed(w: World, i: nat) {
    && w.review(i).Decided? && Repairs(w.review(i).decision.action)
    && w.review(i).decision.text.Some? && Instructive(w.review(i).decision.text.value)
  }

  /** A whole run as the worker, its reviews and its clock give it. */
  ghost predicate Plays(w: World, supervised: bool, maxFollowups: nat, run: SessionRun) {
    var n := |run.turns|;
    && 1 <= n == |run.outgoing| + 1 && (forall i | 0 <= i < n :: TurnPlayed(w, run, i))
    && if !supervised then n == 1 && run.actions == [] && !run.limitReached && w.clock(2) < w.deadline
       else
         && |run.actions| == n <= maxFollowups + 1 && (forall i | 0 <= i < n :: ReviewPlayed(w, run, i))
         && (forall i | 0 <= i < n - 1 :: RepairPlayed(w, i, run.outgoing[i]))
         && w.clock(4 * n) < w.deadline
         && if run.limitReached then n == maxFollowups + 1 && LimitPlayed(w, n - 1)
            else run.actions[n - 1] == Noop
  }

  /** The loop's lists after k turns of the run. */
  function StateAt(w: World, run: SessionRun, k: nat): State
    requires k <= |run.turns| && k <= |run.actions| && k <= |run.outgoing|
  {
    State(run.turns[..k], run.actions[..k], run.outgoing[..k], PromptAt(w, run, k))
  }

  lemma TurnStarts(w: World, run: SessionRun, k: nat)
    requires k < |run.turns| && k <= |run.outgoing| && TurnPlayed(w, run, k)
    ensures RunTurn(w, k, PromptAt(w, run, k), SessionOf(run.turns[..k])) == Some(run.turns[k])
    ensures k > 0 ==> SessionOf(run.turns[..k]) == Some(run.turns[k].session)
  {
    hide CompletedTurn, Sendable;
    PromptableIff(PromptAt(w, run, k), SessionBefore(run.turns, k));
    assert SessionOf(run.turns[..k]) == SessionBefore(run.turns, k);
    KeepsSession(w.turn(k).raw, w.turn(k).code, SessionBefore(run.turns, k), w.read);
  }

  lemma MiddleAdvances(w: World, maxFollowups: nat, run: SessionRun, k: nat)
    requires Plays(w, true, maxFollowups, run) && k + 1 < |run.turns|
    ensures Advance(w, true, maxFollowups, StateAt(w, run, k)) == Again(StateAt(w, run, k + 1))
  {
    hide RunTurn, Instructive, CompletedTurn, Sendable;
    assert TurnPlayed(w, run, k) && ReviewPlayed(w, run, k) && RepairPlayed(w, k, run.outgoing[k]);
    TurnStarts(w, run, k);
    assert run.turns[..k] + [run.turns[k]] == run.turns[..k + 1] && run.actions[..k] + [run.actions[k]] == run.actions[..k + 1];
    assert run.outgoing[..k] + [run.outgoing[k]] == run.outgoing[..k + 1];
  }

  lemma LastAdvances(w: World, maxFollowups: nat, run: SessionRun)
    requires Plays(w, true, maxFollowups, run)
    ensures var k := |run.turns| - 1;
            Advance(w, true, maxFollowups, StateAt(w, run, k)) == Done(Finished(run, |run.actions|))
  {
    hide RunTurn, Instructive, CompletedTurn, Sendable;
    var n, k := |run.turns|, |run.turns| - 1;
    assert TurnPlayed(w, run, k) && ReviewPlayed(w, run, k);
    TurnStarts(w, run, k);
    assert run.turns[..k] + [run.turns[k]] == run.turns && run.actions[..k] + [run.actions[k]] == run.actions;
    assert run.outgoing[..k] == run.outgoing;
    assert run == SessionRun(run.turns, run.actions, run.outgoing, run.limitReached);
  }

  /** A whole run is what the loop does from any of its turns on. */
  lemma {:induction false} PlaysFinishes(w: World, maxFollowups: nat, run: SessionRun, k: nat)
    requires Plays(w, true, maxFollowups, run) && k < |run.turns|
    ensures Session(w, true, maxFollowups, StateAt(w, run, k)) == Finished(run, |run.actions|)
    decreases |run.turns| - k
  {
    hide Advance, ReviewPlayed, RepairPlayed, TurnPlayed, LimitPlayed;
    if k + 1 < |run.turns| {
      MiddleAdvances(w, maxFollowups, run, k);
      PlaysFinishes(w, maxFollowups, run, k + 1);
    } else {
      LastAdvances(w, maxFollowups, run);
    }
  }

  function RunOf(s: State): SessionRun {
    SessionRun(s.turns, s.actions, s.outgoing, false)
  }

  /** The loop's lists so far are the beginning of a run. */
  ghost predicate PlayedSoFar(w: World, maxFollowups: nat, s: State) {
    && |s.turns| == |s.actions| == |s.outgoing| <= maxFollowups && s.prompt == PromptAt(w, RunOf(s), |s.turns|)
    && forall i | 0 <= i < |s.turns| ::
         TurnPlayed(w, RunOf(s), i) && ReviewPlayed(w, RunOf(s), i) && RepairPlayed(w, i, s.outgoing[i])
  }

  lemma TurnStable(w: World, run: SessionRun, more: SessionRun, i: nat)
    requires i < |run.turns| <= |more.turns| && i <= |run.outgoing| <= |more.outgoing|
    requires more.turns[..i + 1] == run.turns[..i + 1] && more.outgoing[..i] == run.outgoing[..i]
    ensures TurnPlayed(w, run, i) <==> TurnPlayed(w, more, i)
  {
    hide CompletedTurn, Sendable;
    assert more.turns[..i + 1][i] == more.turns[i] && run.turns[..i + 1][i] == run.turns[i];
    assert i > 0 ==> more.turns[..i + 1][i - 1] == more.turns[i - 1] && run.turns[..i + 1][i - 1] == run.turns[i - 1];
    assert i > 0 ==> more.outgoing[..i][i - 1] == more.outgoing[i - 1] && run.outgoing[..i][i - 1] == run.outgoing[i - 1];
  }

  /** The turn the loop is at, when it completes in time, is played in every run that goes on from here. */
  lemma TurnPlays(w: World, s: State, turn: Turn, run: SessionRun)
    requires |s.turns| == |s.outgoing| && s.prompt == PromptAt(w, RunOf(s), |s.turns|)
    requires !Late(w, 4 * |s.turns|) && !Late(w, 4 * |s.turns| + 1)
    requires RunTurn(w, |s.turns|, s.prompt, SessionOf(s.turns)) == Some(turn)
    requires run.turns == s.turns + [turn] && |run.outgoing| >= |s.outgoing| && run.outgoing[..|s.outgoing|] == s.outgoing
    ensures TurnPlayed(w, run, |s.turns|)
  {
    hide CompletedTurn, Sendable, Promptable;
    var k := |s.turns|;
    PromptableIff(s.prompt, SessionOf(s.turns));
    assert SessionBefore(run.turns, k) == SessionOf(s.turns);
    assert k > 0 ==> run.outgoing[..k][k - 1] == run.outgoing[k - 1];
  }

  lemma EarlierPlayed(w: World, maxFollowups: nat, s: State, run: SessionRun)
    requires PlayedSoFar(w, maxFollowups, s)
    requires |run.turns| >= |s.turns| && run.turns[..|s.turns|] == s.turns
    requires |run.actions| >= |s.actions| && run.actions[..|s.actions|] == s.actions
    requires |run.outgoing| >= |s.outgoing| && run.outgoing[..|s.outgoing|] == s.outgoing
    ensures forall i | 0 <= i < |s.turns| ::
              TurnPlayed(w, run, i) && ReviewPlayed(w, run, i) && RepairPlayed(w, i, run.outgoing[i])
  {
    hide TurnPlayed;
    forall i | 0 <= i < |s.turns|
      ensures TurnPlayed(w, run, i) && ReviewPlayed(w, run, i) && RepairPlayed(w, i, run.outgoing[i])
    {
      assert run.turns[..|s.turns|][..i + 1] == run.turns[..i + 1] && run.outgoing[..|s.outgoing|][..i] == run.outgoing[..i];
      assert run.actions[..|s.actions|][i] == run.actions[i] && run.outgoing[..|s.outgoing|][i] == run.outgoing[i];
      TurnStable(w, RunOf(s), run, i);
    }
  }

  lemma AdvancePlays(w: World, maxFollowups: nat, s: State)
    requires PlayedSoFar(w, maxFollowups, s)
    ensures var next := Advance(w, true, maxFollowups, s);
            && (next.Again? ==> PlayedSoFar(w, maxFollowups, next.state))
            && (next.Done? && next.outcome.Finished? ==> Plays(w, true, maxFollowups, next.outcome.run))
  {
    hide RunTurn, Instructive, CompletedTurn, TurnPlayed;
    var next := Advance(w, true, maxFollowups, s);
    var k := |s.turns|;
    if next.Again? || next.outcome.Finished? {
      var run := if next.Again? then RunOf(next.state) else next.outcome.run;
      var turn := RunTurn(w, k, s.prompt, SessionOf(s.turns)).value;
      assert run.turns == s.turns + [turn];
      assert run.turns[..k] == s.turns && run.actions[..k] == s.actions && run.outgoing[..k] == s.outgoing;
      TurnPlays(w, s, turn, run);
      EarlierPlayed(w, maxFollowups, s, run);
    }
  }

  lemma {:induction false} FinishesPlayed(w: World, maxFollowups: nat, s: State)
    requires PlayedSoFar(w, maxFollowups, s)
    ensures var outcome := Session(w, true, maxFollowups, s);
            outcome.Finished? ==> Plays(w, true, maxFollowups, outcome.run)
    decreases maxFollowups - |s.outgoing|
  {
    hide PlayedSoFar, Plays;
    AdvancePlays(w, maxFollowups, s);
    match Advance(w, true, maxFollowups, s)
    case Done(_) =>
    case Again(next) => FinishesPlayed(w, maxFollowups, next);
  }

  /** A run without reviews is one turn. */
  lemma UnsupervisedIff(w: World, run: SessionRun)
    ensures WorkerRun(w, false, 0) == Finished(run, 0) <==> Plays(w, false, 0, run)
  {
    hide RunTurn, CompletedTurn, TurnPlayed;
    var s := State([], [], [], w.prompt);
    if Plays(w, false, 0, run) {
      assert TurnPlayed(w, run, 0);
      UnsupervisedPlays(w, run);
      TurnStarts(w, run, 0);
      assert run.turns[..0] == [] && run.turns == [] + [run.turns[0]] && run.outgoing == [];
      assert run == SessionRun(run.turns, [], [], false);
    }
    if WorkerRun(w, false, 0) == Finished(run, 0) {
      var turn := RunTurn(w, 0, w.prompt, None).value;
      assert run == SessionRun([turn], [], [], false);
      assert [] + [turn] == [turn];
      TurnPlays(w, s, turn, run);
    }
  }

  lemma UnsupervisedPlays(w: World, run: SessionRun)
    requires |run.turns| >= 1 && TurnPlayed(w, run, 0)
    ensures w.clock(0) < w.deadline && w.clock(1) < w.deadline
  {
    hide CompletedTurn, Sendable;
  }

  /**
   * Exactly the runs a worker finishes: every turn was prompted with the task or with the instruction of the review
   * before it, in one session and in time; every review decided its action in time, each but the last a repair with
   * its instruction; and the last a NOOP, or a repair beyond the limit.
   */
  lemma FinishedIff(w: World, supervised: bool, maxFollowups: int, run: SessionRun)
    ensures WorkerRun(w, supervised, maxFollowups) == Finished(run, |run.actions|) <==>
              && 0 <= maxFollowups <= 10 && (supervised || maxFollowups == 0)
              && Plays(w, supervised, maxFollowups, run)
  {
    hide Plays, Session;
    if Configured(supervised, maxFollowups) && !supervised {
      UnsupervisedIff(w, run);
      UnsupervisedActions(w, run);
    } else if Configured(supervised, maxFollowups) {
      var s := State([], [], [], w.prompt);
      FinishesPlayed(w, maxFollowups, s);
      if Plays(w, true, maxFollowups, run) {
        StartAt(w, maxFollowups, run);
        PlaysFinishes(w, maxFollowups, run, 0);
      }
    }
  }

  lemma StartAt(w: World, maxFollowups: nat, run: SessionRun)
    requires Plays(w, true, maxFollowups, run)
    ensures |run.turns| > 0 && StateAt(w, run, 0) == State([], [], [], w.prompt)
  {
    hide TurnPlayed;
    assert run.turns[..0] == [] && run.actions[..0] == [] && run.outgoing[..0] == [];
  }

  lemma UnsupervisedActions(w: World, run: SessionRun)
    ensures WorkerRun(w, false, 0).Finished? ==> WorkerRun(w, false, 0).run.actions == []
    ensures Plays(w, false, 0, run) ==> run.actions == []
    ensures WorkerRun(w, false, 0).reviews == 0
  {
    hide RunTurn, TurnPlayed;
  }

  lemma KeepsSession(raw: seq<Byte>, code: int, expected: Option<string>, read: Reader)
    ensures var turn := CompletedTurn(raw, code, expected, read);
            turn.Some? && expected.Some? ==> turn.value.session == expected.value
  {
    hide Lines, HearLines, Readable, Events, NaturalStop, Belongs;
    CompletedIff(raw, code, expected, read);
  }

  /** A repaired session never leaves its vendor session. */
  lemma {:induction false} OneVendorSession(w: World, turns: seq<Turn>, i: nat)
    requires AllLogged(w, turns) && i < |turns|
    ensures turns[i].session == turns[0].session
  {
    if i > 0 {
      hide CompletedTurn;
      assert Logged(w, turns, i);
      OneVendorSession(w, turns, i - 1);
      KeepsSession(w.turn(i).raw, 0, SessionBefore(turns, i), w.read);
    }
  }

  /**
   * A relay admitted with maxFollowups + 1 reviews never turns a worker's next review away except for the time left:
   * xs are the reviews the session has had answered so far, x the one it asks for now.
   */
  lemma ReviewsNeverExhausted(w: World, maxFollowups: nat, xs: seq<Exchange>, x: Exchange, vendor: string, limits: Limits)
    requires limits.reviewing && limits.maxReviews == maxFollowups + 1
    requires |xs| < WorkerRun(w, true, maxFollowups).reviews
    requires ValidRequest(x.request) && WellBehaved(xs + [x], vendor)
    ensures var s := ControlRelay.Session(xs, limits);
            var denied := Denied(s.ids, s.vendor, s.inflight, s.used, IdOf(x.request), VendorOf(x.request), x.now, limits);
            denied == None || denied == Some(ReviewTimeBudgetExhausted) || denied == Some(DeadlineExpired)
  {
    hide WorkerRun, ControlRelay.Session, ValidRequest, WellBehaved, Denied;
    WorkerRunKeeps(w, true, maxFollowups);
    SequentialNeverRefused(xs, x, vendor, limits);
  }
}
