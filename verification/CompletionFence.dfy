/** The quiet period required of a finished generation (benchmarks/opencode_completion.py, QuietCompletionFence). */
module CompletionFence {
  import opened Common
  import opened TextOrder
  import Sorting

  datatype Observation = Observation(now: real, generation: Option<(string, string)>, eventIds: seq<string>,
                                     followups: int, reviewsPresent: bool, journalComplete: bool)

  predicate Settled(o: Observation) {
    o.generation.Some? && o.eventIds != [] && o.reviewsPresent && o.journalComplete
  }

  datatype Identity = Identity(generation: Option<(string, string)>, eventIds: seq<string>, followups: int)

  function IdentityOf(o: Observation): Identity {
    Identity(o.generation, Sorting.SortBy(o.eventIds, Before), o.followups)
  }

  datatype Fence = Fence(identity: Option<Identity>, since: Option<real>)

  const UNSET := Fence(None, None)

  function Step(f: Fence, o: Observation): Fence {
    if !Settled(o) then UNSET
    else if f.identity != Some(IdentityOf(o)) || f.since.None? || o.now < f.since.value
    then Fence(Some(IdentityOf(o)), Some(o.now))
    else f
  }

  function Run(history: seq<Observation>): Fence {
    if history == [] then UNSET else Step(Run(history[..|history| - 1]), history[|history| - 1])
  }

  class QuietCompletionFence {
    const seconds: real
    var identity: Option<Identity>
    var since: Option<real>
    ghost var history: seq<Observation>

    ghost predicate Valid()
      reads this
    {
      Fence(identity, since) == Run(history)
    }

    constructor (seconds: real)
      ensures Valid() && this.seconds == seconds && history == []
    {
      this.seconds := seconds;
      identity, since, history := None, None, [];
    }

    /** Quiet exactly when the whole history so far says so. */
    method Observe(o: Observation) returns (quiet: bool)
      requires Valid()
      modifies this
      ensures Valid() && history == old(history) + [o]
      ensures quiet <==> Quiet(history, seconds)
    {
      history := history + [o];
      assert history[..|history| - 1] == old(history);
      QuietIff(history, seconds);
      if !Settled(o) {
        identity, since := None, None;
        return false;
      }
      var current := IdentityOf(o);
      if identity != Some(current) || since.None? || o.now < since.value {
        identity, since := Some(current), Some(o.now);
      }
      return o.now - since.value >= seconds;
    }
  }

  // ----- the same, said of the whole history -----

  /** Settled work: a finished generation, at least one event, and complete reviews and journal. */
  lemma SettledIff(o: Observation)
    ensures Settled(o) <==> o.generation.Some? && |o.eventIds| > 0 && o.reviewsPresent && o.journalComplete
  {
  }


  /** One generation, the same events in any order, and as many follow-ups. */
  ghost predicate SameWork(a: Observation, b: Observation) {
    a.generation == b.generation && multiset(a.eventIds) == multiset(b.eventIds) && a.followups == b.followups
  }

  /** From j on: settled, one identity, and no clock before that of j. */
  ghost predicate QuietSince(history: seq<Observation>, j: nat)
    requires j < |history|
  {
    forall i | j <= i < |history| ::
      Settled(history[i]) && SameWork(history[i], history[j]) && history[i].now >= history[j].now
  }

  ghost predicate Quiet(history: seq<Observation>, seconds: real) {
    exists j: nat :: j < |history| && QuietSince(history, j)
                     && history[|history| - 1].now - history[j].now >= seconds
  }

  lemma SameWorkIff(a: Observation, b: Observation)
    ensures SameWork(a, b) <==> IdentityOf(a) == IdentityOf(b)
  {
    hide Before, Sorting.SortBy;
    if multiset(a.eventIds) == multiset(b.eventIds) {
      BeforeOrders();
      Sorting.SortByCanonical(a.eventIds, b.eventIds, Before);
    }
    assert multiset(Sorting.SortBy(a.eventIds, Before)) == multiset(a.eventIds);
    assert multiset(Sorting.SortBy(b.eventIds, Before)) == multiset(b.eventIds);
  }

  /** The fence is set exactly after a settled observation, to its identity and to a clock of a quiet stretch. */
  ghost predicate Tracks(f: Fence, history: seq<Observation>) {
    if history == [] || !Settled(history[|history| - 1]) then f == UNSET
    else
      && f.identity == Some(IdentityOf(history[|history| - 1])) && f.since.Some?
      && f.since.value <= history[|history| - 1].now
      && (exists j: nat :: j < |history| && QuietSince(history, j) && history[j].now == f.since.value)
      && (forall j: nat | j < |history| && QuietSince(history, j) :: f.since.value <= history[j].now)
  }

  lemma Extends(history: seq<Observation>, o: Observation, j: nat)
    requires j < |history|
    ensures QuietSince(history + [o], j) <==>
              QuietSince(history, j) && Settled(o) && SameWork(o, history[j]) && o.now >= history[j].now
  {
    hide Settled, SameWork;
    var longer := history + [o];
    assert longer[|history|] == o && forall i | 0 <= i < |history| :: longer[i] == history[i];
  }

  lemma LastQuiet(history: seq<Observation>, j: nat)
    requires j < |history| && QuietSince(history, j)
    ensures Settled(history[|history| - 1]) && SameWork(history[|history| - 1], history[j])
    ensures history[|history| - 1].now >= history[j].now
  {
  }

  lemma StepTracks(f: Fence, history: seq<Observation>, o: Observation)
    requires Tracks(f, history) && Settled(o)
    ensures Tracks(Step(f, o), history + [o])
  {
    hide Settled, SameWork, QuietSince, IdentityOf;
    var longer, n, g := history + [o], |history|, Step(f, o);
    assert longer[n] == o;
    QuietNow(longer);
    if f.identity != Some(IdentityOf(o)) || f.since.None? || o.now < f.since.value {
      forall j: nat | j < |longer| && QuietSince(longer, j) ensures g.since.value <= longer[j].now {
        if j < n {
          Extends(history, o, j);
          LastQuiet(history, j);
          SameWorkIff(history[n - 1], history[j]);
          SameWorkIff(o, history[j]);
        }
      }
    } else {
      var j: nat :| j < |history| && QuietSince(history, j) && history[j].now == f.since.value;
      LastQuiet(history, j);
      SameWorkIff(history[n - 1], history[j]);
      SameWorkIff(o, history[j]);
      Extends(history, o, j);
      assert QuietSince(longer, j) && longer[j].now == g.since.value;
      forall k: nat | k < |longer| && QuietSince(longer, k) ensures g.since.value <= longer[k].now {
        if k < n { Extends(history, o, k); }
      }
    }
  }

  lemma QuietNow(history: seq<Observation>)
    requires history != [] && Settled(history[|history| - 1])
    ensures QuietSince(history, |history| - 1)
  {
  }

  lemma {:induction false} RunTracks(history: seq<Observation>)
    ensures Tracks(Run(history), history)
  {
    if history != [] {
      hide Tracks, Settled;
      var front, o := history[..|history| - 1], history[|history| - 1];
      RunTracks(front);
      assert history == front + [o];
      if Settled(o) {
        StepTracks(Run(front), front, o);
      } else {
        UnsettledTracks(front, o);
      }
    }
  }

  lemma UnsettledTracks(history: seq<Observation>, o: Observation)
    requires !Settled(o)
    ensures Step(Run(history), o) == UNSET && Tracks(UNSET, history + [o])
  {
  }

  /** Over any history, the fence answers yes exactly when some stretch of it up to now has been quiet long enough. */
  lemma QuietIff(history: seq<Observation>, seconds: real)
    requires history != []
    ensures var f, o := Run(history), history[|history| - 1];
            Quiet(history, seconds) <==> Settled(o) && f.since.Some? && o.now - f.since.value >= seconds
  {
    hide Run, QuietSince, Settled, IdentityOf;
    RunTracks(history);
    forall j: nat | j < |history| && QuietSince(history, j) ensures Settled(history[|history| - 1]) {
      LastQuiet(history, j);
    }
  }
}
