/** Task timing derived from hook receipts (benchmarks/cursor_capture.py, CursorCapture._timing). */
module CursorTiming {
  import opened Common
  import Sorting

  const DAY_NS: int := 86_400 * 1_000_000_000

  datatype Kind = PromptRelease | Stop | HookActivity | OtherKind
  datatype HookEvent = BeforeSubmitPrompt | StopEvent | SessionStart | OtherEvent
  datatype IdentityField = ConversationId | SessionId | ComposerId

  /** A validated receipt; rest stands for the fields that only its encoding shows, size for that encoding's bytes. */
  datatype Receipt = Receipt(id: string, clock: int, wall: int, identity: seq<(IdentityField, string)>, kind: Kind,
                             event: HookEvent, flushed: bool, promptSha: string, rest: string, size: nat)

  datatype Unavailable =
    | Invalidated | NoReceipts | ClocksTie | WallReverses | IdentityChanged | NoPromptRelease | WorkedBeforePrompt
    | PromptUnbound | NoTerminalId | TerminalInvalid | TerminalNotLast | TerminalForeign | TerminalNotAfter
    | TerminalWallEarlier | TooLong

  datatype Span = Span(start: Receipt, stop: Receipt)

  predicate HexDigit(c: char) {
    '0' <= c <= '9' || 'a' <= c <= 'f'
  }

  predicate LowerHex(s: string, length: nat) {
    |s| == length && forall i | 0 <= i < |s| :: HexDigit(s[i])
  }

  predicate Earlier(a: Receipt, b: Receipt) {
    a.clock <= b.clock
  }

  predicate Repeats(rs: seq<Receipt>) {
    exists i, j :: 0 <= i < j < |rs| && rs[i].clock == rs[j].clock
  }

  /** The position of the first prompt release, or the length. */
  function FirstPrompt(rs: seq<Receipt>): (i: nat)
    ensures i <= |rs| && (i < |rs| ==> rs[i].kind == PromptRelease)
    ensures forall j | 0 <= j < i :: rs[j].kind != PromptRelease
  {
    if rs == [] then 0
    else
      var i := FirstPrompt(rs[..|rs| - 1]);
      if i < |rs| - 1 then i else if rs[|rs| - 1].kind == PromptRelease then |rs| - 1 else |rs|
  }

  /** The first receipt under an id. */
  function Find(rs: seq<Receipt>, id: string): (r: Option<Receipt>)
    ensures r.Some? ==> r.value in rs && r.value.id == id
    ensures r.None? ==> forall i | 0 <= i < |rs| :: rs[i].id != id
  {
    if rs == [] then None else if rs[0].id == id then Some(rs[0]) else Find(rs[1..], id)
  }

  predicate Preliminary(r: Receipt) {
    r.kind == HookActivity && r.event == SessionStart
  }

  predicate BindsPrompt(r: Receipt, promptSha: string) {
    r.event == BeforeSubmitPrompt && r.flushed && r.promptSha == promptSha
  }

  /** The receipt the caller names as terminal, if it names one. */
  function Named(receipts: seq<Receipt>, terminal: Option<string>): Option<Receipt> {
    if terminal.Some? then Find(receipts, terminal.value) else None
  }

  /** The checks on the terminal stop, once the start is settled. */
  function Ended(named: Option<Receipt>, last: Receipt, start: Receipt, terminal: Option<string>): Result<Span, Unavailable> {
    if terminal.None? || !LowerHex(terminal.value, 32) then Err(NoTerminalId)
    else if named.None? || named.value.kind != Stop || named.value.event != StopEvent then Err(TerminalInvalid)
    else
      var stop := named.value;
      if stop.clock != last.clock then Err(TerminalNotLast)
      else if start.identity != stop.identity then Err(TerminalForeign)
      else if stop.clock <= start.clock then Err(TerminalNotAfter)
      else if stop.wall < start.wall then Err(TerminalWallEarlier)
      else if stop.clock - start.clock > DAY_NS then Err(TooLong)
      else Ok(Span(start, stop))
  }

  predicate WallsReverse(ordered: seq<Receipt>) {
    exists i :: 0 <= i < |ordered| - 1 && ordered[i + 1].wall < ordered[i].wall
  }

  predicate IdentitiesDiffer(ordered: seq<Receipt>) {
    exists i :: 0 <= i < |ordered| && (ordered[i].identity == [] || ordered[i].identity != ordered[0].identity)
  }

  /** The checks on the receipts in clock order. */
  function InOrder(ordered: seq<Receipt>, named: Option<Receipt>, terminal: Option<string>, promptSha: string): Result<Span, Unavailable>
    requires ordered != []
  {
    var first := FirstPrompt(ordered);
    if WallsReverse(ordered) then Err(WallReverses)
    else if IdentitiesDiffer(ordered) then Err(IdentityChanged)
    else if first == |ordered| then Err(NoPromptRelease)
    else if exists i :: 0 <= i < first && !Preliminary(ordered[i]) then Err(WorkedBeforePrompt)
    else if !BindsPrompt(ordered[first], promptSha) then Err(PromptUnbound)
    else Ended(named, ordered[|ordered| - 1], ordered[first], terminal)
  }

  function Timing(receipts: seq<Receipt>, invalidated: bool, terminal: Option<string>, promptSha: string): Result<Span, Unavailable> {
    if invalidated then Err(Invalidated)
    else if receipts == [] then Err(NoReceipts)
    else if Repeats(receipts) then Err(ClocksTie)
    else InOrder(Sorting.SortBy(receipts, Earlier), Named(receipts, terminal), terminal, promptSha)
  }

  /** No two receipts under one id. */
  ghost predicate DistinctIds(rs: seq<Receipt>) {
    forall i, j | 0 <= i < j < |rs| :: rs[i].id != rs[j].id
  }

  // ----- the order of arrival does not matter -----

  lemma EarlierOrders()
    ensures Sorting.TotalPreorder(Earlier)
  {
  }

  lemma RepeatsPermuted(a: seq<Receipt>, b: seq<Receipt>)
    requires multiset(a) == multiset(b) && !Repeats(a)
    ensures !Repeats(b)
  {
    forall i, j | 0 <= i < j < |b| ensures b[i].clock != b[j].clock {
      Sorting.WithoutCounts(b, j);
      assert Sorting.Without(b, j)[i] == b[i] && b[i] in multiset(Sorting.Without(b, j));
      Sorting.SameMembers(a, b);
      assert b[i] in b && b[j] in b;
      ClockOnce(a, b[i], b[j]);
      if b[i] == b[j] { assert multiset(b)[b[j]] >= 2; }
      OnceWithoutRepeats(a, b[j]);
    }
  }

  lemma ClockOnce(a: seq<Receipt>, x: Receipt, y: Receipt)
    requires !Repeats(a) && x in a && y in a
    ensures x.clock == y.clock ==> x == y
  {
    var i :| 0 <= i < |a| && a[i] == x;
    var j :| 0 <= j < |a| && a[j] == y;
  }

  lemma {:induction false} OnceWithoutRepeats(a: seq<Receipt>, x: Receipt)
    requires !Repeats(a)
    ensures multiset(a)[x] <= 1
  {
    if a != [] {
      var n := |a| - 1;
      assert !Repeats(a[..n]) by {
        forall i, j | 0 <= i < j < n ensures a[..n][i].clock != a[..n][j].clock {
          assert a[i].clock != a[j].clock;
        }
      }
      OnceWithoutRepeats(a[..n], x);
      assert a == a[..n] + [a[n]];
      if x == a[n] {
        forall i | 0 <= i < n ensures a[..n][i] != x {
          assert a[i].clock != a[n].clock;
        }
      }
    }
  }

  lemma FindPermuted(a: seq<Receipt>, b: seq<Receipt>, id: string)
    requires multiset(a) == multiset(b) && DistinctIds(a)
    ensures Find(a, id) == Find(b, id)
  {
    Sorting.SameMembers(a, b);
    var x, y := Find(a, id), Find(b, id);
    forall i | 0 <= i < |a| ensures a[i] in b {
      assert a[i] in a;
    }
    forall i | 0 <= i < |b| ensures b[i] in a {
      assert b[i] in b;
    }
    assert x.None? <==> y.None?;
    if x.Some? {
      var i :| 0 <= i < |a| && a[i] == x.value;
      var j :| 0 <= j < |a| && a[j] == y.value;
    }
  }

  /** The timing, and why there is none, are the same in whatever order the receipts arrived. */
  lemma ArrivalOrderIrrelevant(a: seq<Receipt>, b: seq<Receipt>, invalidated: bool, terminal: Option<string>, promptSha: string)
    requires multiset(a) == multiset(b) && DistinctIds(a)
    ensures Timing(a, invalidated, terminal, promptSha) == Timing(b, invalidated, terminal, promptSha)
  {
    hide Repeats, Find, InOrder;
    Sorting.SameMembers(a, b);
    if Repeats(a) {
      if !Repeats(b) { RepeatsPermuted(b, a); }
    } else {
      RepeatsPermuted(a, b);
      EarlierOrders();
      AntisymmetricWithoutRepeats(a);
      Sorting.SortByCanonical(a, b, Earlier);
      if terminal.Some? { FindPermuted(a, b, terminal.value); }
    }
  }

  lemma AntisymmetricWithoutRepeats(a: seq<Receipt>)
    requires !Repeats(a)
    ensures Sorting.AntisymmetricOn(a, Earlier)
  {
    forall i, j | 0 <= i < |a| && 0 <= j < |a| && Earlier(a[i], a[j]) && Earlier(a[j], a[i]) ensures a[i] == a[j] {
      ClockOnce(a, a[i], a[j]);
    }
  }

  // ----- what a span is, said of the receipts as a set -----

  /** The earliest prompt release, which binds the task and is preceded only by session starts. */
  ghost predicate Begins(start: Receipt, rs: seq<Receipt>, promptSha: string) {
    && start in rs && start.kind == PromptRelease && BindsPrompt(start, promptSha)
    && (forall r | r in rs && r.kind == PromptRelease :: start.clock <= r.clock)
    && (forall r | r in rs && r.clock < start.clock :: Preliminary(r))
  }

  /** The stop receipt the caller named, and nothing is later. */
  ghost predicate Closes(stop: Receipt, rs: seq<Receipt>, terminal: Option<string>) {
    && stop in rs && stop.kind == Stop && stop.event == StopEvent
    && terminal == Some(stop.id) && LowerHex(stop.id, 32)
    && (forall r | r in rs :: r.clock <= stop.clock)
  }

  /** Clocks strictly order the receipts, walls follow them, and one identity made them all. */
  ghost predicate Coherent(rs: seq<Receipt>) {
    !Repeats(rs) && WallsAgree(rs) && IdentitiesAgree(rs)
  }

  lemma SortedFacts(receipts: seq<Receipt>)
    requires !Repeats(receipts)
    ensures var ordered := Sorting.SortBy(receipts, Earlier);
            && |ordered| == |receipts| && (forall r :: r in ordered <==> r in receipts)
            && forall i, j | 0 <= i < j < |ordered| :: ordered[i].clock < ordered[j].clock
  {
    var ordered := Sorting.SortBy(receipts, Earlier);
    Sorting.SameMembers(ordered, receipts);
    EarlierOrders();
    Sorting.SortBySorted(receipts, Earlier);
    RepeatsPermuted(receipts, ordered);
    forall i, j | 0 <= i < j < |ordered| ensures ordered[i].clock < ordered[j].clock {
      assert Earlier(ordered[i], ordered[j]);
    }
  }

  /** Adjacent walls in order make all walls in order. */
  lemma {:induction false} WallsFollow(ordered: seq<Receipt>, i: nat, j: nat)
    requires forall k :: 0 <= k < |ordered| - 1 ==> ordered[k].wall <= ordered[k + 1].wall
    requires i <= j < |ordered|
    ensures ordered[i].wall <= ordered[j].wall
  {
    if i < j {
      WallsFollow(ordered, i, j - 1);
    }
  }

  ghost predicate WallsAgree(rs: seq<Receipt>) {
    forall r, q | r in rs && q in rs && r.clock < q.clock :: r.wall <= q.wall
  }

  ghost predicate IdentitiesAgree(rs: seq<Receipt>) {
    forall r, q | r in rs && q in rs :: r.identity == q.identity && r.identity != []
  }

  lemma WallsIff(receipts: seq<Receipt>)
    requires !Repeats(receipts)
    ensures WallsAgree(receipts) <==> !WallsReverse(Sorting.SortBy(receipts, Earlier))
  {
    hide Repeats, Sorting.SortBy;
    SortedFacts(receipts);
    var ordered := Sorting.SortBy(receipts, Earlier);
    if WallsAgree(receipts) {
      forall i | 0 <= i < |ordered| - 1 ensures ordered[i].wall <= ordered[i + 1].wall {
        assert ordered[i] in ordered && ordered[i + 1] in ordered;
      }
    }
    if !WallsReverse(ordered) {
      forall r, q | r in receipts && q in receipts && r.clock < q.clock ensures r.wall <= q.wall {
        var i :| 0 <= i < |ordered| && ordered[i] == r;
        var j :| 0 <= j < |ordered| && ordered[j] == q;
        WallsFollow(ordered, i, j);
      }
    }
  }

  lemma IdentitiesIff(receipts: seq<Receipt>)
    requires !Repeats(receipts)
    ensures IdentitiesAgree(receipts) <==> !IdentitiesDiffer(Sorting.SortBy(receipts, Earlier))
  {
    hide Repeats, Sorting.SortBy;
    SortedFacts(receipts);
    var ordered := Sorting.SortBy(receipts, Earlier);
    if IdentitiesAgree(receipts) {
      forall i | 0 <= i < |ordered| ensures ordered[i].identity != [] && ordered[i].identity == ordered[0].identity {
        assert ordered[i] in ordered && ordered[0] in ordered;
      }
    }
    if !IdentitiesDiffer(ordered) {
      forall r, q | r in receipts && q in receipts ensures r.identity == q.identity && r.identity != [] {
        var i :| 0 <= i < |ordered| && ordered[i] == r;
        var j :| 0 <= j < |ordered| && ordered[j] == q;
      }
    }
  }

  lemma BeginsIff(receipts: seq<Receipt>, promptSha: string, start: Receipt)
    requires !Repeats(receipts)
    ensures var ordered := Sorting.SortBy(receipts, Earlier);
            var first := FirstPrompt(ordered);
            Begins(start, receipts, promptSha) <==>
              && first < |ordered| && ordered[first] == start && BindsPrompt(start, promptSha)
              && !(exists i :: 0 <= i < first && !Preliminary(ordered[i]))
  {
    hide Repeats, Preliminary, BindsPrompt, Sorting.SortBy;
    SortedFacts(receipts);
    var ordered := Sorting.SortBy(receipts, Earlier);
    var first := FirstPrompt(ordered);
    if Begins(start, receipts, promptSha) {
      var k :| 0 <= k < |ordered| && ordered[k] == start;
      assert first <= k;
      assert ordered[first] in receipts && ordered[first].kind == PromptRelease;
      forall i | 0 <= i < first ensures Preliminary(ordered[i]) {
        assert ordered[i] in receipts && ordered[i].clock < start.clock;
      }
    }
    if first < |ordered| && ordered[first] == start && BindsPrompt(start, promptSha) {
      if forall i :: 0 <= i < first ==> Preliminary(ordered[i]) {
        forall r | r in receipts && r.clock < start.clock ensures Preliminary(r) {
          var k :| 0 <= k < |ordered| && ordered[k] == r;
        }
        forall r | r in receipts && r.kind == PromptRelease ensures start.clock <= r.clock {
          var k :| 0 <= k < |ordered| && ordered[k] == r;
        }
      }
    }
  }

  lemma ClosesIff(receipts: seq<Receipt>, terminal: Option<string>, stop: Receipt)
    requires !Repeats(receipts) && DistinctIds(receipts) && receipts != []
    ensures var ordered := Sorting.SortBy(receipts, Earlier);
            && |ordered| == |receipts|
            && (Closes(stop, receipts, terminal) <==>
                  && terminal.Some? && LowerHex(terminal.value, 32) && Find(receipts, terminal.value) == Some(stop)
                  && stop.kind == Stop && stop.event == StopEvent && stop.clock == ordered[|ordered| - 1].clock)
  {
    hide Repeats, LowerHex, Sorting.SortBy;
    SortedFacts(receipts);
    var ordered := Sorting.SortBy(receipts, Earlier);
    var last := ordered[|ordered| - 1];
    assert last in ordered;
    forall r | r in receipts ensures r.clock <= last.clock {
      var k :| 0 <= k < |ordered| && ordered[k] == r;
    }
    if stop in receipts {
      var i :| 0 <= i < |receipts| && receipts[i] == stop;
      var found := Find(receipts, stop.id);
      assert found.Some?;
      var j :| 0 <= j < |receipts| && receipts[j] == found.value;
      assert i == j;
    }
  }

  /**
   * A span is derived exactly when the capture was not invalidated, the receipts are coherent, and within a day it
   * reaches from the earliest prompt release, which binds the task, to the named stop, which has the greatest clock.
   */
  lemma TimingIff(receipts: seq<Receipt>, invalidated: bool, terminal: Option<string>, promptSha: string, span: Span)
    requires DistinctIds(receipts)
    ensures Timing(receipts, invalidated, terminal, promptSha) == Ok(span) <==>
              && !invalidated && Coherent(receipts)
              && Begins(span.start, receipts, promptSha) && Closes(span.stop, receipts, terminal)
              && span.start.clock < span.stop.clock <= span.start.clock + DAY_NS
  {
    hide Repeats, BindsPrompt, Preliminary, LowerHex, FirstPrompt, Find, Sorting.SortBy, Begins, Closes, WallsAgree, IdentitiesAgree,
      WallsReverse, IdentitiesDiffer;
    MemberOf(span, receipts, terminal, promptSha);
    if receipts != [] && !Repeats(receipts) {
      WallsIff(receipts);
      IdentitiesIff(receipts);
      BeginsIff(receipts, promptSha, span.start);
      ClosesIff(receipts, terminal, span.stop);
      SortedFacts(receipts);
      SameCoherence(receipts, span);
    }
  }

  lemma MemberOf(span: Span, receipts: seq<Receipt>, terminal: Option<string>, promptSha: string)
    ensures Coherent(receipts) ==> !Repeats(receipts)
    ensures Begins(span.start, receipts, promptSha) ==> span.start in receipts && receipts != []
    ensures Closes(span.stop, receipts, terminal) ==> span.stop in receipts
  {
  }

  lemma SameCoherence(receipts: seq<Receipt>, span: Span)
    ensures Coherent(receipts) && span.start in receipts && span.stop in receipts ==>
              && span.start.identity == span.stop.identity
              && (span.start.clock < span.stop.clock ==> span.start.wall <= span.stop.wall)
  {
  }

  // ----- why there is no span -----

  /** The receipts the timing looks for: session starts before the prompt, and the submission of the benchmark's prompt. */
  lemma ReceiptRoles(r: Receipt, promptSha: string)
    ensures Preliminary(r) <==> r.kind.HookActivity? && r.event.SessionStart?
    ensures BindsPrompt(r, promptSha) <==> r.event.BeforeSubmitPrompt? && r.flushed && r.promptSha == promptSha
  {
  }

  lemma LowerHexIff(s: string, length: nat)
    ensures LowerHex(s, length) <==> |s| == length && forall c | c in s :: c in "0123456789abcdef"
  {
    hide HexDigit;
    forall c ensures HexDigit(c) <==> c in "0123456789abcdef" {
      HexDigitIff(c);
    }
  }

  lemma HexDigitIff(c: char)
    ensures HexDigit(c) <==> c in "0123456789abcdef"
  {
    var digits := "0123456789abcdef";
    if '0' <= c <= '9' { assert digits[c as int - '0' as int] == c; }
    if 'a' <= c <= 'f' { assert digits[10 + c as int - 'a' as int] == c; }
  }

  /** Two receipts of one clock. */
  ghost predicate Ties(rs: seq<Receipt>) {
    exists i, j :: 0 <= i < j < |rs| && rs[i].clock == rs[j].clock
  }

  /** The earliest prompt release, whatever it binds and whatever precedes it. */
  ghost predicate Releases(start: Receipt, rs: seq<Receipt>) {
    start in rs && start.kind.PromptRelease? && forall r | r in rs && r.kind.PromptRelease? :: start.clock <= r.clock
  }

  ghost predicate OnlyStartsBefore(start: Receipt, rs: seq<Receipt>) {
    forall r | r in rs && r.clock < start.clock :: Preliminary(r)
  }

  lemma FirstReleases(receipts: seq<Receipt>)
    requires !Repeats(receipts)
    ensures var ordered := Sorting.SortBy(receipts, Earlier);
            var first := FirstPrompt(ordered);
            && (first == |ordered| <==> forall r | r in receipts :: !r.kind.PromptRelease?)
            && (first < |ordered| ==>
                  && Releases(ordered[first], receipts)
                  && (OnlyStartsBefore(ordered[first], receipts) <==> !exists i :: 0 <= i < first && !Preliminary(ordered[i])))
            && forall start | Releases(start, receipts) :: first < |ordered| && ordered[first] == start
  {
    hide Repeats, Preliminary, Sorting.SortBy;
    SortedFacts(receipts);
    var ordered := Sorting.SortBy(receipts, Earlier);
    var first := FirstPrompt(ordered);
    forall r | r in receipts ensures exists k :: 0 <= k < |ordered| && ordered[k] == r {
      assert r in ordered;
    }
    if first < |ordered| {
      assert ordered[first] in ordered;
      forall i | 0 <= i < first ensures ordered[i] in receipts && ordered[i].clock < ordered[first].clock {
        assert ordered[i] in ordered;
      }
    }
    forall start | Releases(start, receipts) ensures first < |ordered| && ordered[first] == start {
      var k :| 0 <= k < |ordered| && ordered[k] == start;
      assert first <= k;
      assert ordered[first] in ordered;
    }
  }

  /** Which check fails first, said of the receipts as a set: the reason the timing gives for having no span. */
  lemma ReasonIff(receipts: seq<Receipt>, invalidated: bool, terminal: Option<string>, promptSha: string)
    ensures var r := Timing(receipts, invalidated, terminal, promptSha);
            var held := !invalidated && receipts != [];
            var ordered := held && !Ties(receipts);
            var forwards := ordered && WallsAgree(receipts);
            var one := forwards && IdentitiesAgree(receipts);
            var prompted := one && exists start :: Releases(start, receipts);
            && (r == Err(Invalidated) <==> invalidated)
            && (r == Err(NoReceipts) <==> !invalidated && receipts == [])
            && (r == Err(ClocksTie) <==> held && !ordered)
            && (r == Err(WallReverses) <==> ordered && !forwards)
            && (r == Err(IdentityChanged) <==> forwards && !one)
            && (r == Err(NoPromptRelease) <==> one && !prompted)
            && (r == Err(WorkedBeforePrompt) <==> one && exists start :: Releases(start, receipts) && !OnlyStartsBefore(start, receipts))
            && (r == Err(PromptUnbound) <==>
                  one && exists start :: Releases(start, receipts) && OnlyStartsBefore(start, receipts) && !BindsPrompt(start, promptSha))
  {
    hide Sorting.SortBy, FirstPrompt, Find, BindsPrompt, Preliminary, WallsReverse, IdentitiesDiffer, WallsAgree, IdentitiesAgree,
         LowerHex, Releases, OnlyStartsBefore, Repeats, Ties;
    assert Repeats(receipts) <==> Ties(receipts) by { TiesRepeat(receipts); }
    if receipts != [] && !Repeats(receipts) {
      WallsIff(receipts);
      IdentitiesIff(receipts);
      FirstReleases(receipts);
    }
  }

  lemma TiesRepeat(rs: seq<Receipt>)
    ensures Repeats(rs) <==> Ties(rs)
  {
  }

  /** Why the terminal stop does not end the span that starts here. */
  lemma EndedIff(named: Option<Receipt>, last: Receipt, start: Receipt, terminal: Option<string>)
    ensures var r := Ended(named, last, start, terminal);
            var given := terminal.Some? && LowerHex(terminal.value, 32);
            var stopped := given && named.Some? && named.value.kind.Stop? && named.value.event.StopEvent?;
            && (r == Err(NoTerminalId) <==> !given)
            && (r == Err(TerminalInvalid) <==> given && !stopped)
            && (stopped ==>
                  var stop := named.value;
                  var final := stop.clock == last.clock;
                  var ours := final && start.identity == stop.identity;
                  var after := ours && start.clock < stop.clock;
                  var forwards := after && start.wall <= stop.wall;
                  && (r == Err(TerminalNotLast) <==> !final)
                  && (r == Err(TerminalForeign) <==> final && !ours)
                  && (r == Err(TerminalNotAfter) <==> ours && !after)
                  && (r == Err(TerminalWallEarlier) <==> after && !forwards)
                  && (r == Err(TooLong) <==> forwards && stop.clock - start.clock > 86_400_000_000_000)
                  && (r == Ok(Span(start, stop)) <==> forwards && stop.clock - start.clock <= 86_400_000_000_000))
  {
    hide LowerHex;
  }
}
