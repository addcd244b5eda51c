/** The newest finished reply of a session (benchmarks/opencode_completion.py, completed_generation). */
module CompletedGeneration {
  import opened Common
  import opened TextOrder
  import Sorting

  datatype Role = User | Assistant | OtherRole

  /** A message's info; times are None unless they are positive finite numbers, texts unless they are strings. */
  datatype Info = Info(session: Option<string>, created: Option<real>, id: Option<string>, role: Role,
                       parent: Option<string>, completed: Option<real>, finishedByStop: bool, failed: bool)

  predicate WellFormed(info: Info, session: string) {
    info.session == Some(session) && info.created.Some? && info.id.Some? && info.id.value != ""
  }

  /** Later by creation, and by id within one instant. */
  predicate NotLater(a: Info, b: Info) {
    && a.created.Some? && a.id.Some? && b.created.Some? && b.id.Some?
    && (a.created.value < b.created.value || (a.created.value == b.created.value && Before(a.id.value, b.id.value)))
  }

  /** max(..., key=latest) among the infos of a role. */
  function Newest(infos: seq<Info>, role: Role, session: string): (r: Option<Info>)
    requires forall i | 0 <= i < |infos| :: WellFormed(infos[i], session)
    ensures r.Some? ==> r.value in infos && WellFormed(r.value, session) && r.value.role == role
  {
    if infos == [] then None
    else
      var n := |infos| - 1;
      var best := Newest(infos[..n], role, session);
      if infos[n].role != role then best
      else if best.None? || !NotLater(infos[n], best.value) then Some(infos[n])
      else best
  }

  function CountRole(infos: seq<Info>, role: Role): nat {
    if infos == [] then 0
    else CountRole(infos[..|infos| - 1], role) + if infos[|infos| - 1].role == role then 1 else 0
  }

  predicate DistinctIds(infos: seq<Info>) {
    forall i, j | 0 <= i < j < |infos| :: infos[i].id != infos[j].id
  }

  /** The assistant info is a successful reply to the user info. */
  predicate Answers(assistant: Info, user: Info)
    requires assistant.created.Some? && user.created.Some?
  {
    && assistant.parent == user.id && assistant.created.value >= user.created.value
    && assistant.completed.Some? && assistant.completed.value >= assistant.created.value
    && assistant.finishedByStop && !assistant.failed
  }

  predicate AllWellFormed(messages: seq<Option<Info>>, session: string) {
    forall i | 0 <= i < |messages| :: messages[i].Some? && WellFormed(messages[i].value, session)
  }

  function Infos(messages: seq<Option<Info>>, session: string): (infos: seq<Info>)
    requires AllWellFormed(messages, session)
    ensures |infos| == |messages| && forall i | 0 <= i < |infos| :: infos[i] == messages[i].value && WellFormed(infos[i], session)
  {
    seq(|messages|, i requires 0 <= i < |messages| && messages[i].Some? => messages[i].value)
  }

  /** messages is None when it is no list, a member None when it has no info. */
  function Completed(messages: Option<seq<Option<Info>>>, idle: bool, session: string, minimumUsers: int)
    : Option<(string, string)>
  {
    if messages.None? || !idle || !AllWellFormed(messages.value, session) then None
    else
      var infos := Infos(messages.value, session);
      var user, assistant := Newest(infos, User, session), Newest(infos, Assistant, session);
      if !DistinctIds(infos) || CountRole(infos, User) < (if minimumUsers > 1 then minimumUsers else 1)
         || user.None? || assistant.None? || !Answers(assistant.value, user.value) then None
      else Some((user.value.id.value, assistant.value.id.value))
  }

  // ----- the newest message -----

  lemma NotLaterTotal(a: Info, b: Info)
    requires a.created.Some? && a.id.Some? && b.created.Some? && b.id.Some?
    ensures NotLater(a, b) || NotLater(b, a)
    ensures NotLater(a, b) && NotLater(b, a) ==> a.id == b.id
  {
    BeforeTotal(a.id.value, b.id.value);
  }

  lemma NotLaterTransitive(a: Info, b: Info, c: Info)
    requires a.created.Some? && a.id.Some? && b.created.Some? && b.id.Some? && c.created.Some? && c.id.Some?
    requires NotLater(a, b) && NotLater(b, c)
    ensures NotLater(a, c)
  {
    if a.created.value == b.created.value == c.created.value {
      BeforeTransitive(a.id.value, b.id.value, c.id.value);
    }
  }

  /** No message of the role is later than r. */
  ghost predicate Tops(r: Info, infos: seq<Info>, role: Role, session: string)
    requires WellFormed(r, session) && forall i | 0 <= i < |infos| :: WellFormed(infos[i], session)
  {
    forall i | 0 <= i < |infos| && infos[i].role == role :: NotLater(infos[i], r)
  }

  lemma {:induction false} NewestTops(infos: seq<Info>, role: Role, session: string)
    requires forall i | 0 <= i < |infos| :: WellFormed(infos[i], session)
    ensures var r := Newest(infos, role, session);
            && (r.None? <==> forall i | 0 <= i < |infos| :: infos[i].role != role)
            && (r.Some? ==> Tops(r.value, infos, role, session))
  {
    if infos != [] {
      hide Before;
      var n := |infos| - 1;
      NewestTops(infos[..n], role, session);
      var best, r := Newest(infos[..n], role, session), Newest(infos, role, session);
      if r.Some? {
        NotLaterTotal(infos[n], infos[n]);
        if best.Some? {
          NotLaterTotal(infos[n], best.value);
          forall i | 0 <= i < n && infos[i].role == role ensures NotLater(infos[i], r.value) {
            assert infos[..n][i] == infos[i];
            if r.value == infos[n] { NotLaterTransitive(infos[i], best.value, infos[n]); }
          }
        } else {
          assert forall i | 0 <= i < n :: infos[..n][i] == infos[i];
        }
      } else {
        assert forall i | 0 <= i < n :: infos[..n][i] == infos[i];
      }
    }
  }

  /** Two infos that each top the list are one, when ids are distinct. */
  lemma TopsUnique(a: Info, b: Info, infos: seq<Info>, role: Role, session: string)
    requires forall i | 0 <= i < |infos| :: WellFormed(infos[i], session)
    requires DistinctIds(infos) && a in infos && b in infos && a.role == role && b.role == role
    requires WellFormed(a, session) && WellFormed(b, session) && Tops(a, infos, role, session) && Tops(b, infos, role, session)
    ensures a == b
  {
    hide Before;
    var i :| 0 <= i < |infos| && infos[i] == a;
    var j :| 0 <= j < |infos| && infos[j] == b;
    NotLaterTotal(a, b);
  }

  // ----- main results -----

  /**
   * What a completion means: every message is well formed and of the session, no id repeats, and the pair names the
   * newest user message of enough of them and the newest assistant message, which answers it.
   */
  lemma CompletedIff(messages: seq<Option<Info>>, idle: bool, session: string, minimumUsers: int, user: Info, assistant: Info)
    requires AllWellFormed(messages, session)
    requires Some(user) in messages && Some(assistant) in messages && user.role == User && assistant.role == Assistant
    ensures WellFormed(user, session) && WellFormed(assistant, session)
    ensures var infos := Infos(messages, session);
            Completed(Some(messages), idle, session, minimumUsers) == Some((user.id.value, assistant.id.value))
            <==>
              && idle && DistinctIds(infos) && CountRole(infos, User) >= minimumUsers
              && Tops(user, infos, User, session) && Tops(assistant, infos, Assistant, session)
              && Answers(assistant, user)
  {
    hide CountRole, Answers, Before;
    var infos := Infos(messages, session);
    var i :| 0 <= i < |messages| && messages[i] == Some(user);
    var j :| 0 <= j < |messages| && messages[j] == Some(assistant);
    assert infos[i] == user && infos[j] == assistant;
    NewestTops(infos, User, session);
    NewestTops(infos, Assistant, session);
    CountPositive(infos, i, User);
    var newest, reply := Newest(infos, User, session).value, Newest(infos, Assistant, session).value;
    if DistinctIds(infos) {
      if Tops(user, infos, User, session) { TopsUnique(user, newest, infos, User, session); }
      if Tops(assistant, infos, Assistant, session) { TopsUnique(assistant, reply, infos, Assistant, session); }
      SameId(user, newest, infos, session);
      SameId(assistant, reply, infos, session);
    }
  }

  /** Every member is a message of the session with a time and an id. */
  predicate Sound(messages: seq<Option<Info>>, session: string) {
    forall m | m in messages :: m.Some? && m.value.session == Some(session) && m.value.created.Some? && m.value.id.Some? && |m.value.id.value| > 0
  }

  /** The places of the user messages. */
  function UserPlaces(messages: seq<Option<Info>>): set<nat> {
    set i: nat | i < |messages| && messages[i].Some? && messages[i].value.role.User?
  }

  lemma {:induction false} UsersCounted(messages: seq<Option<Info>>, session: string)
    requires AllWellFormed(messages, session)
    ensures CountRole(Infos(messages, session), User) == |UserPlaces(messages)|
  {
    if messages != [] {
      var n := |messages| - 1;
      var front := messages[..n];
      UsersCounted(front, session);
      assert Infos(messages, session)[..n] == Infos(front, session);
      assert UserPlaces(messages) == UserPlaces(front) + (if messages[n].value.role.User? then {n} else {});
    }
  }

  /** Of this role, under this id, and not older than any other of the role. */
  ghost predicate NewestOf(x: Info, messages: seq<Option<Info>>, role: Role, id: string) {
    && Some(x) in messages && x.role == role && x.id == Some(id) && x.created.Some?
    && forall m | Some(m) in messages && m.role == role :: m.created.Some? && m.id.Some? &&
         (m.created.value < x.created.value || (m.created.value == x.created.value && Before(m.id.value, id)))
  }

  /** The reply names the message, is not older, was completed, and stopped without an error. */
  predicate Replies(reply: Info, user: Info) {
    && reply.parent == user.id && reply.created.Some? && user.created.Some? && reply.created.value >= user.created.value
    && reply.completed.Some? && reply.completed.value >= reply.created.value && reply.finishedByStop && !reply.failed
  }

  lemma TopsNewest(x: Info, messages: seq<Option<Info>>, session: string)
    requires AllWellFormed(messages, session) && Some(x) in messages
    ensures WellFormed(x, session) && (Tops(x, Infos(messages, session), x.role, session) <==> NewestOf(x, messages, x.role, x.id.value))
  {
    hide Before;
    var i :| 0 <= i < |messages| && messages[i] == Some(x);
    assert WellFormed(messages[i].value, session);
    var infos := Infos(messages, session);
    if Tops(x, infos, x.role, session) {
      forall m | Some(m) in messages && m.role == x.role ensures NotLater(m, x) {
        var j :| 0 <= j < |messages| && messages[j] == Some(m);
        assert infos[j] == m;
      }
    }
    if NewestOf(x, messages, x.role, x.id.value) {
      forall j | 0 <= j < |infos| && infos[j].role == x.role ensures NotLater(infos[j], x) {
        assert Some(infos[j]) == messages[j];
      }
    }
  }

  /**
   * Exactly when a pair is returned, for messages of any shape: the session is idle and every message sound, no id
   * repeats, there are enough user messages, and the pair names the newest of them and the newest assistant message,
   * which replies to it.
   */
  lemma CompletedExactly(messages: seq<Option<Info>>, idle: bool, session: string, minimumUsers: int, u: string, a: string)
    ensures Completed(Some(messages), idle, session, minimumUsers) == Some((u, a)) <==>
              && idle && Sound(messages, session) && (forall i, j | 0 <= i < j < |messages| :: messages[i].value.id != messages[j].value.id)
              && |UserPlaces(messages)| >= minimumUsers
              && exists user, reply :: NewestOf(user, messages, User, u) && NewestOf(reply, messages, Assistant, a) && Replies(reply, user)
  {
    hide CountRole, Before, Newest, NewestOf, UserPlaces, Tops;
    if AllWellFormed(messages, session) {
      UsersCounted(messages, session);
      var infos := Infos(messages, session);
      if Completed(Some(messages), idle, session, minimumUsers) == Some((u, a)) {
        var user, reply := Newest(infos, User, session).value, Newest(infos, Assistant, session).value;
        InMessages(messages, session, user);
        InMessages(messages, session, reply);
        CompletedIff(messages, idle, session, minimumUsers, user, reply);
        TopsNewest(user, messages, session);
        TopsNewest(reply, messages, session);
      }
      forall user, reply | NewestOf(user, messages, User, u) && NewestOf(reply, messages, Assistant, a)
        ensures Some(user) in messages && Some(reply) in messages && user.role == User && reply.role == Assistant
        ensures user.id == Some(u) && reply.id == Some(a) && user.created.Some? && reply.created.Some?
        ensures Replies(reply, user) && idle && DistinctIds(infos) && |UserPlaces(messages)| >= minimumUsers ==>
                  Completed(Some(messages), idle, session, minimumUsers) == Some((u, a))
      {
        NewestIn(user, messages, User, u);
        NewestIn(reply, messages, Assistant, a);
        TopsNewest(user, messages, session);
        TopsNewest(reply, messages, session);
        CompletedIff(messages, idle, session, minimumUsers, user, reply);
      }
    }
    assert Sound(messages, session) <==> AllWellFormed(messages, session) by { SoundIff(messages, session); }
  }

  lemma NewestIn(x: Info, messages: seq<Option<Info>>, role: Role, id: string)
    requires NewestOf(x, messages, role, id)
    ensures Some(x) in messages && x.role == role && x.id == Some(id) && x.created.Some?
  {
    hide Before;
  }

  lemma SoundIff(messages: seq<Option<Info>>, session: string)
    ensures Sound(messages, session) <==> AllWellFormed(messages, session)
  {
    if Sound(messages, session) {
      forall i | 0 <= i < |messages| ensures messages[i].Some? && WellFormed(messages[i].value, session) {
        assert messages[i] in messages;
      }
    }
  }

  lemma InMessages(messages: seq<Option<Info>>, session: string, x: Info)
    requires AllWellFormed(messages, session) && x in Infos(messages, session)
    ensures Some(x) in messages
  {
    var infos := Infos(messages, session);
    var i :| 0 <= i < |infos| && infos[i] == x;
    assert messages[i] == Some(x);
  }

  lemma SameId(a: Info, b: Info, infos: seq<Info>, session: string)
    requires DistinctIds(infos) && a in infos && b in infos
    ensures a.id == b.id ==> a == b
  {
    var i :| 0 <= i < |infos| && infos[i] == a;
    var j :| 0 <= j < |infos| && infos[j] == b;
  }

  lemma {:induction false} CountPositive(infos: seq<Info>, i: nat, role: Role)
    requires i < |infos| && infos[i].role == role
    ensures CountRole(infos, role) >= 1
  {
    if i < |infos| - 1 {
      assert infos[..|infos| - 1][i] == infos[i];
      CountPositive(infos[..|infos| - 1], i, role);
    }
  }

  /** A reply to an earlier message never completes a session in which a newer user message is waiting. */
  lemma NewerUserReopens(messages: seq<Option<Info>>, idle: bool, session: string, minimumUsers: int, waiting: Info)
    requires AllWellFormed(messages, session) && Some(waiting) in messages && waiting.role == User
    requires forall m | Some(m) in messages && m.role == Assistant :: m.parent != waiting.id
    requires forall m | Some(m) in messages && m.role == User :: NotLater(m, waiting)
    ensures Completed(Some(messages), idle, session, minimumUsers).None?
  {
    hide CountRole, Before;
    var infos := Infos(messages, session);
    if Completed(Some(messages), idle, session, minimumUsers).Some? {
      var i :| 0 <= i < |messages| && messages[i] == Some(waiting);
      assert infos[i] == waiting;
      NewestTops(infos, User, session);
      var user, assistant := Newest(infos, User, session).value, Newest(infos, Assistant, session).value;
      var k :| 0 <= k < |infos| && infos[k] == user;
      var a :| 0 <= a < |infos| && infos[a] == assistant;
      assert messages[k] == Some(user) && messages[a] == Some(assistant);
      NotLaterTotal(user, waiting);
      assert false;
    }
  }

  /** The order in which messages are reported does not matter. */
  lemma ReportOrderIrrelevant(messages: seq<Option<Info>>, other: seq<Option<Info>>, idle: bool, session: string, minimumUsers: int)
    requires multiset(messages) == multiset(other)
    ensures Completed(Some(messages), idle, session, minimumUsers) == Completed(Some(other), idle, session, minimumUsers)
  {
    hide Answers, Before, CountRole, Newest;
    Sorting.SameMembers(messages, other);
    if AllWellFormed(messages, session) {
      assert AllWellFormed(other, session) by {
        forall i | 0 <= i < |other| ensures other[i].Some? && WellFormed(other[i].value, session) {
          assert other[i] in messages;
        }
      }
      var a, b := Infos(messages, session), Infos(other, session);
      InfosPermuted(messages, other, session);
      CountPermuted(a, b, User);
      if DistinctIds(b) { DistinctPermuted(b, a); }
      if DistinctIds(a) {
        DistinctPermuted(a, b);
        NewestPermuted(a, b, User, session);
        NewestPermuted(a, b, Assistant, session);
      }
    } else {
      var i :| 0 <= i < |messages| && !(messages[i].Some? && WellFormed(messages[i].value, session));
      assert messages[i] in other;
    }
  }

  lemma {:induction false} InfosPermuted(messages: seq<Option<Info>>, other: seq<Option<Info>>, session: string)
    requires AllWellFormed(messages, session) && AllWellFormed(other, session) && multiset(messages) == multiset(other)
    ensures multiset(Infos(messages, session)) == multiset(Infos(other, session))
    decreases |messages|
  {
    hide WellFormed, Sorting.Without;
    Sorting.SameMembers(messages, other);
    if messages != [] {
      assert messages[0] in messages;
      var k :| 0 <= k < |other| && other[k] == messages[0];
      Sorting.WithoutCounts(messages, 0);
      Sorting.WithoutCounts(other, k);
      assert multiset(Sorting.Without(messages, 0)) == multiset(messages) - multiset{messages[0]};
      assert multiset(Sorting.Without(other, k)) == multiset(other) - multiset{messages[0]};
      InfosWithout(messages, 0, session);
      InfosWithout(other, k, session);
      InfosPermuted(Sorting.Without(messages, 0), Sorting.Without(other, k), session);
      Sorting.WithoutCounts(Infos(messages, session), 0);
      Sorting.WithoutCounts(Infos(other, session), k);
    }
  }

  lemma InfosWithout(messages: seq<Option<Info>>, k: nat, session: string)
    requires AllWellFormed(messages, session) && k < |messages|
    ensures AllWellFormed(Sorting.Without(messages, k), session)
    ensures Infos(Sorting.Without(messages, k), session) == Sorting.Without(Infos(messages, session), k)
  {
    hide WellFormed;
  }

  lemma DistinctPermuted(a: seq<Info>, b: seq<Info>)
    requires multiset(a) == multiset(b) && DistinctIds(a)
    ensures DistinctIds(b)
  {
    forall i, j | 0 <= i < j < |b| ensures b[i].id != b[j].id {
      if b[i].id == b[j].id {
        Sorting.WithoutCounts(b, j);
        assert Sorting.Without(b, j)[i] == b[i];
        assert b[i] in multiset(Sorting.Without(b, j));
        Sorting.SameMembers(a, b);
        assert b[i] in a && b[j] in a;
        SameId(b[i], b[j], a, "");
        assert multiset(a)[b[j]] >= 2;
        OnceWhenDistinct(a, b[j]);
        assert false;
      }
    }
  }

  lemma {:induction false} OnceWhenDistinct(a: seq<Info>, x: Info)
    requires DistinctIds(a)
    ensures multiset(a)[x] <= 1
  {
    if a != [] {
      var n := |a| - 1;
      OnceWhenDistinct(a[..n], x);
      assert a == a[..n] + [a[n]];
      if x == a[n] { assert x !in a[..n]; }
    }
  }

  lemma {:induction false} CountPermuted(a: seq<Info>, b: seq<Info>, role: Role)
    requires multiset(a) == multiset(b)
    ensures CountRole(a, role) == CountRole(b, role)
    decreases |a|
  {
    hide CountRole, Sorting.Without;
    Sorting.SameMembers(a, b);
    if a != [] {
      assert a[0] in a;
      var k :| 0 <= k < |b| && b[k] == a[0];
      Sorting.WithoutCounts(a, 0);
      Sorting.WithoutCounts(b, k);
      assert multiset(Sorting.Without(a, 0)) == multiset(a) - multiset{a[0]};
      assert multiset(Sorting.Without(b, k)) == multiset(b) - multiset{a[0]};
      CountPermuted(Sorting.Without(a, 0), Sorting.Without(b, k), role);
      CountWithout(a, 0, role);
      CountWithout(b, k, role);
    }
  }

  lemma CountWithout(s: seq<Info>, k: nat, role: Role)
    requires k < |s|
    ensures CountRole(s, role) == CountRole(Sorting.Without(s, k), role) + if s[k].role == role then 1 else 0
  {
    assert s == s[..k] + ([s[k]] + s[k + 1..]);
    CountAppend(s[..k], [s[k]] + s[k + 1..], role);
    CountAppend([s[k]], s[k + 1..], role);
    CountAppend(s[..k], s[k + 1..], role);
    assert [s[k]][..0] == [];
    assert CountRole([], role) == 0;
  }

  lemma {:induction false} CountAppend(a: seq<Info>, b: seq<Info>, role: Role)
    ensures CountRole(a + b, role) == CountRole(a, role) + CountRole(b, role)
  {
    if b == [] {
      assert a + b == a;
    } else {
      CountAppend(a, b[..|b| - 1], role);
      assert (a + b)[..|a + b| - 1] == a + b[..|b| - 1];
    }
  }

  lemma NewestPermuted(a: seq<Info>, b: seq<Info>, role: Role, session: string)
    requires (forall i | 0 <= i < |a| :: WellFormed(a[i], session)) && (forall i | 0 <= i < |b| :: WellFormed(b[i], session))
    requires multiset(a) == multiset(b) && DistinctIds(a)
    ensures Newest(a, role, session) == Newest(b, role, session)
  {
    hide Newest, Before;
    NewestTops(a, role, session);
    NewestTops(b, role, session);
    Sorting.SameMembers(a, b);
    var x, y := Newest(a, role, session), Newest(b, role, session);
    forall i | 0 <= i < |a| ensures a[i] in b {
      assert a[i] in a;
    }
    forall i | 0 <= i < |b| ensures b[i] in a {
      assert b[i] in b;
    }
    assert x.None? <==> y.None?;
    if x.Some? {
      forall i | 0 <= i < |a| && a[i].role == role ensures NotLater(a[i], y.value) {
        var j :| 0 <= j < |b| && b[j] == a[i];
      }
      TopsUnique(x.value, y.value, a, role, session);
    }
  }
}
