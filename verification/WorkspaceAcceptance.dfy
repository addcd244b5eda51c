/** Which trees the workspace fingerprint accepts (benchmarks/boundary.py, workspace_manifest_sha256). */
module WorkspaceAcceptance {
  import opened Common
  import opened Base64
  import opened WorkspaceManifest
  import PathCollisions
  import Sorting

  // ----- what the walk asks of one name, and of all of them -----

  /** One name and what it stands for, the counts aside. */
  predicate Sound(node: Node, path: Path, complete: bool, rules: Rules)
    requires path != []
  {
    match node
    case Link(_) => false
    case Directory(_, mount, _) => complete ==> |Joined(path)| <= 1_024 && !mount
    case File(_, content, regular, links, mount) =>
      && (complete ==> regular && links == 1 && !mount)
      && (complete || (regular && !rules.ignoredFile(path[|path| - 1])) ==>
            |Joined(path)| <= 1_024 && !rules.marked(Slashed(Joined(path))) && |content| <= 67_108_864)
  }

  /** A basic walk passes by the ignored directories. */
  predicate PassedBy(name: string, complete: bool, rules: Rules) {
    !complete && rules.ignoredDirectory(name)
  }

  ghost predicate SoundBelow(node: Node, path: Path, complete: bool, rules: Rules)
    requires node.Directory?
  {
    forall name | name in node.children ::
      && Sound(node.children[name], path + [name], complete, rules)
      && (node.children[name].Directory? && !PassedBy(name, complete, rules) ==>
            SoundBelow(node.children[name], path + [name], complete, rules))
  }

  /** How many names a walk meets: those of the directory and those of every directory below that it enters. */
  function Met(node: Node, path: Path, listing: Path -> seq<string>, complete: bool, rules: Rules): nat
    requires node.Directory?
    decreases node, 1, 0
  {
    |node.children| + MetBelow(InOrder(listing(path), node.children, true), node, path, listing, complete, rules)
  }

  function MetBelow(names: seq<string>, node: Node, path: Path, listing: Path -> seq<string>, complete: bool, rules: Rules): nat
    requires node.Directory?
    decreases node, 0, |names|
  {
    if names == [] then 0
    else
      var n := |names| - 1;
      MetBelow(names[..n], node, path, listing, complete, rules)
      + if names[n] in node.children && node.children[names[n]].Directory? && !PassedBy(names[n], complete, rules)
        then Met(node.children[names[n]], path + [names[n]], listing, complete, rules) else 0
  }

  /** The bytes of the files among the entries. */
  function Bytes(entries: seq<Entry>): nat {
    if entries == [] then 0
    else
      var n := |entries| - 1;
      Bytes(entries[..n]) + if entries[n].kept.KeptFile? then |entries[n].kept.content| else 0
  }

  /** Every file comes while there are less than ten thousand rows. */
  ghost predicate InTime(entries: seq<Entry>, before: nat) {
    forall i | 0 <= i < |entries| && entries[i].kept.KeptFile? :: before + i < 10_000
  }

  ghost predicate Room(s: State, entries: seq<Entry>, names: nat) {
    s.seen + names <= 20_000 && s.bytes + Bytes(entries) <= 536_870_912 && InTime(entries, |s.entries|)
  }

  function After(s: State, entries: seq<Entry>, names: nat): State {
    State(s.entries + entries, s.bytes + Bytes(entries), s.seen + names)
  }

  lemma {:induction false} BytesConcat(a: seq<Entry>, b: seq<Entry>)
    ensures Bytes(a + b) == Bytes(a) + Bytes(b)
  {
    if b == [] {
      assert a + b == a;
    } else {
      BytesConcat(a, b[..|b| - 1]);
      assert (a + b)[..|a + b| - 1] == a + b[..|b| - 1];
    }
  }

  lemma InTimeConcat(a: seq<Entry>, b: seq<Entry>, before: nat)
    ensures InTime(a + b, before) <==> InTime(a, before) && InTime(b, before + |a|)
  {
    if InTime(a + b, before) {
      forall i | 0 <= i < |a| && a[i].kept.KeptFile? ensures before + i < 10_000 { assert (a + b)[i] == a[i]; }
      forall i | 0 <= i < |b| && b[i].kept.KeptFile? ensures before + |a| + i < 10_000 { assert (a + b)[|a| + i] == b[i]; }
    }
  }

  /** Room for two parts is room for the first and then for the second. */
  lemma RoomConcat(s: State, a: seq<Entry>, b: seq<Entry>, m: nat, n: nat)
    ensures Room(s, a + b, m + n) <==> Room(s, a, m) && Room(After(s, a, m), b, n)
    ensures After(s, a + b, m + n) == After(After(s, a, m), b, n)
  {
    hide InTime, Bytes;
    BytesConcat(a, b);
    InTimeConcat(a, b, |s.entries|);
    assert (s.entries + a) + b == s.entries + (a + b);
  }

  lemma RoomForNothing(s: State)
    requires s.seen <= 20_000 && s.bytes <= 536_870_912
    ensures Room(s, [], 0) && After(s, [], 0) == s
  {
    assert s.entries + [] == s.entries;
  }

  // ----- the parts of a walk -----

  lemma DirectoryIff(s: State, path: Path, node: Node, complete: bool, rules: Rules)
    requires s.seen <= 20_000 && s.bytes <= 536_870_912 && path != [] && DirectoryLike(node)
    ensures var (t, more) := (VisitDirectory(s, path, node, complete), if complete && node.Directory? then [Entry(path, KeptDirectory(node.mode))] else []);
            && (t.Some? <==> Sound(node, path, complete, rules))
            && (t.Some? ==> t.value == After(s, more, 0)) && Room(s, more, 0)
  {
    hide Joined;
    RoomForNothing(s);
    if node.Directory? {
      assert [Entry(path, KeptDirectory(node.mode))][..0] == [];
    }
  }

  lemma {:induction false} DirectoriesIff(s: State, names: seq<string>, node: Node, path: Path, complete: bool, rules: Rules)
    requires node.Directory? && s.seen <= 20_000 && s.bytes <= 536_870_912
    requires forall i | 0 <= i < |names| :: names[i] in node.children && DirectoryLike(node.children[names[i]])
    ensures var (t, more) := (VisitDirectories(s, names, node, path, complete), DirectoryEntries(names, node, path, complete));
            && (t.Some? <==> forall i | 0 <= i < |names| :: Sound(node.children[names[i]], path + [names[i]], complete, rules))
            && (t.Some? ==> t.value == After(s, more, 0)) && Room(s, more, 0)
  {
    hide DirectoryLike, VisitDirectory, Sound, InTime, Bytes;
    RoomForNothing(s);
    if names != [] {
      var n := |names| - 1;
      var front, last, at := names[..n], names[n], path + [names[n]];
      DirectoriesIff(s, front, node, path, complete, rules);
      var more := DirectoryEntries(front, node, path, complete);
      DirectoryIff(After(s, more, 0), at, node.children[last], complete, rules);
      RoomConcat(s, more, DirectoryEntries(names, node, path, complete)[|more|..], 0, 0);
    }
  }

  lemma FileIff(s: State, path: Path, node: Node, complete: bool, rules: Rules)
    requires s.seen <= 20_000 && s.bytes <= 536_870_912 && path != [] && !DirectoryLike(node)
    ensures var more := if node.File? && !Skipped(path[|path| - 1], node, complete, rules) then [Entry(path, KeptOf(node, complete))] else [];
            var t := VisitFile(s, path, node, complete, rules);
            && (t.Some? <==> Sound(node, path, complete, rules) && Room(s, more, 0))
            && (t.Some? ==> t.value == After(s, more, 0))
  {
    hide Joined;
    RoomForNothing(s);
    if node.File? {
      var e := Entry(path, KeptOf(node, complete));
      assert [e][..0] == [] && Bytes([e]) == |node.content|;
      assert InTime([e], |s.entries|) <==> |s.entries| < 10_000 by {
        assert [e][0] == e;
      }
    }
  }

  lemma {:induction false} FilesIff(s: State, names: seq<string>, node: Node, path: Path, complete: bool, rules: Rules)
    requires node.Directory? && s.seen <= 20_000 && s.bytes <= 536_870_912
    requires forall i | 0 <= i < |names| :: names[i] in node.children && !DirectoryLike(node.children[names[i]])
    ensures var (t, more) := (VisitFiles(s, names, node, path, complete, rules), FileEntries(names, node, path, complete, rules));
            && (t.Some? <==>
                  Room(s, more, 0) && forall i | 0 <= i < |names| :: Sound(node.children[names[i]], path + [names[i]], complete, rules))
            && (t.Some? ==> t.value == After(s, more, 0))
  {
    hide DirectoryLike, VisitFile, Sound, InTime, Bytes, Skipped, KeptOf;
    RoomForNothing(s);
    if names != [] {
      var n := |names| - 1;
      var front, last, at := names[..n], names[n], path + [names[n]];
      FilesIff(s, front, node, path, complete, rules);
      var more := FileEntries(front, node, path, complete, rules);
      var added := if node.children[last].File? && !Skipped(last, node.children[last], complete, rules)
                   then [Entry(at, KeptOf(node.children[last], complete))] else [];
      assert FileEntries(names, node, path, complete, rules) == more + added;
      RoomConcat(s, more, added, 0, 0);
      if VisitFiles(s, front, node, path, complete, rules).Some? {
        FileIff(After(s, more, 0), at, node.children[last], complete, rules);
      }
    }
  }

  /** The directories among these, and everything below those that are entered. */
  ghost predicate SoundUnder(names: seq<string>, node: Node, path: Path, complete: bool, rules: Rules)
    requires node.Directory? && forall i | 0 <= i < |names| :: names[i] in node.children
  {
    forall i | 0 <= i < |names| ::
      && node.children[names[i]].Directory?
      && (!PassedBy(names[i], complete, rules) ==> SoundBelow(node.children[names[i]], path + [names[i]], complete, rules))
  }

  lemma {:induction false} WalkIff(s: State, node: Node, path: Path, listing: Path -> seq<string>, complete: bool, rules: Rules)
    requires node.Directory? && Lists(listing, node, path) && s.seen <= 20_000 && s.bytes <= 536_870_912
    ensures var (t, more) := (Walk(s, node, path, listing, complete, rules), EntriesAt(node, path, listing, complete, rules));
            var names := Met(node, path, listing, complete, rules);
            && (t.Some? <==> SoundBelow(node, path, complete, rules) && Room(s, more, names))
            && (t.Some? ==> t.value == After(s, more, names))
    decreases node, 1, 0
  {
    hide InOrder, VisitDirectories, VisitFiles, Descend, DirectoryEntries, FileEntries, Below, Sound, SoundBelow, SoundUnder;
    hide InTime, Bytes, MetBelow, DirectoryLike;
    var names := listing(path);
    var directories, files := InOrder(names, node.children, true), InOrder(names, node.children, false);
    InOrderNames(names, node.children);
    ListedOnce(names, node.children);
    KindsCounted(names, node.children);
    SoundParts(directories, files, node, path, complete, rules);
    var here := |directories| + |files|;
    var d, f := DirectoryEntries(directories, node, path, complete), FileEntries(files, node, path, complete, rules);
    var b := Below(directories, node, path, listing, complete, rules);
    var below := MetBelow(directories, node, path, listing, complete, rules);
    WalkRoom(s, d, f, b, here, below);
    if s.seen + here <= 20_000 {
      var s0 := s.(seen := s.seen + here);
      DirectoriesIff(s0, directories, node, path, complete, rules);
      var s1 := After(s0, d, 0);
      FilesIff(s1, files, node, path, complete, rules);
      if Room(s1, f, 0) {
        DescendIff(After(s1, f, 0), directories, node, path, listing, complete, rules);
      }
    }
  }

  /** The counts of a directory's names first, then of its directories and files, then of what is below. */
  lemma WalkRoom(s: State, d: seq<Entry>, f: seq<Entry>, b: seq<Entry>, here: nat, below: nat)
    requires s.seen <= 20_000 && s.bytes <= 536_870_912
    ensures var s0 := s.(seen := s.seen + here);
            var (s1, s2) := (After(s0, d, 0), After(After(s0, d, 0), f, 0));
            && (Room(s, d + f + b, here + below) <==>
                  s.seen + here <= 20_000 && Room(s0, d, 0) && Room(s1, f, 0) && Room(s2, b, below))
            && After(s, d + f + b, here + below) == After(s2, b, below)
  {
    hide InTime, Bytes;
    var s0 := s.(seen := s.seen + here);
    RoomConcat(s0, d + f, b, 0, below);
    RoomConcat(s0, d, f, 0, 0);
  }

  lemma KindsCounted(names: seq<string>, children: map<string, Node>)
    requires multiset(names) == multiset(children.Keys)
    ensures |InOrder(names, children, true)| + |InOrder(names, children, false)| == |children|
  {
    KindsAll(names, children);
    assert |multiset(names)| == |names|;
    assert |multiset(children.Keys)| == |children.Keys|;
    forall name | name in names ensures name in children { assert name in multiset(names); }
  }

  lemma {:induction false} KindsAll(names: seq<string>, children: map<string, Node>)
    ensures (forall name | name in names :: name in children) ==>
              |InOrder(names, children, true)| + |InOrder(names, children, false)| == |names|
  {
    hide DirectoryLike;
    var a, b := NamesWhere(names, children, true), NamesWhere(names, children, false);
    assert |multiset(a)| == |a| && |multiset(b)| == |b|;
    assert |multiset(InOrder(names, children, true))| == |InOrder(names, children, true)|;
    assert |multiset(InOrder(names, children, false))| == |InOrder(names, children, false)|;
    if names != [] {
      var n := |names| - 1;
      KindsAll(names[..n], children);
      var c, d := NamesWhere(names[..n], children, true), NamesWhere(names[..n], children, false);
      assert |multiset(c)| == |c| && |multiset(d)| == |d|;
      assert |multiset(InOrder(names[..n], children, true))| == |InOrder(names[..n], children, true)|;
      assert |multiset(InOrder(names[..n], children, false))| == |InOrder(names[..n], children, false)|;
      assert names[n] in names && forall name | name in names[..n] :: name in names;
    }
  }

  lemma SoundParts(directories: seq<string>, files: seq<string>, node: Node, path: Path, complete: bool, rules: Rules)
    requires node.Directory?
    requires forall name :: name in directories <==> name in node.children && DirectoryLike(node.children[name])
    requires forall name :: name in files <==> name in node.children && !DirectoryLike(node.children[name])
    requires forall i | 0 <= i < |directories| :: directories[i] in node.children
    requires forall i | 0 <= i < |files| :: files[i] in node.children
    ensures SoundBelow(node, path, complete, rules) <==>
              && (forall i | 0 <= i < |directories| :: Sound(node.children[directories[i]], path + [directories[i]], complete, rules))
              && (forall i | 0 <= i < |files| :: Sound(node.children[files[i]], path + [files[i]], complete, rules))
              && SoundUnder(directories, node, path, complete, rules)
    ensures forall i | 0 <= i < |directories| :: DirectoryLike(node.children[directories[i]])
    ensures forall i | 0 <= i < |files| :: !DirectoryLike(node.children[files[i]])
  {
    hide Joined, Slashed, PassedBy;
    if (forall i | 0 <= i < |directories| :: Sound(node.children[directories[i]], path + [directories[i]], complete, rules))
       && (forall i | 0 <= i < |files| :: Sound(node.children[files[i]], path + [files[i]], complete, rules))
       && SoundUnder(directories, node, path, complete, rules) {
      forall name | name in node.children
        ensures Sound(node.children[name], path + [name], complete, rules)
        ensures node.children[name].Directory? && !PassedBy(name, complete, rules) ==>
                  SoundBelow(node.children[name], path + [name], complete, rules)
      {
        assert name in directories || name in files;
      }
    }
  }

  lemma {:induction false} DescendIff(s: State, names: seq<string>, node: Node, path: Path, listing: Path -> seq<string>,
                                      complete: bool, rules: Rules)
    requires node.Directory? && Lists(listing, node, path) && s.seen <= 20_000 && s.bytes <= 536_870_912
    requires forall i | 0 <= i < |names| :: names[i] in node.children
    ensures var (t, more) := (Descend(s, names, node, path, listing, complete, rules), Below(names, node, path, listing, complete, rules));
            var met := MetBelow(names, node, path, listing, complete, rules);
            && (t.Some? <==> SoundUnder(names, node, path, complete, rules) && Room(s, more, met))
            && (t.Some? ==> t.value == After(s, more, met))
    decreases node, 0, |names|
  {
    hide Walk, SoundBelow, EntriesAt, Met, Room, After, SoundUnder, Lists;
    RoomForNothing(s);
    if names == [] {
      NothingUnder(node, path, complete, rules);
    } else {
      var n := |names| - 1;
      var front, name := names[..n], names[n];
      var child, at := node.children[name], path + [name];
      DescendIff(s, front, node, path, listing, complete, rules);
      UnderStep(names, node, path, complete, rules);
      var (more, met) := (Below(front, node, path, listing, complete, rules), MetBelow(front, node, path, listing, complete, rules));
      if Room(s, more, met) { RoomBounds(s, more, met); }
      ListsChild(listing, node, path, name);
      if child.Directory? && Entered(name, complete, rules) {
        var (last, count) := (EntriesAt(child, at, listing, complete, rules), Met(child, at, listing, complete, rules));
        RoomConcat(s, more, last, met, count);
        if Room(s, more, met) {
          WalkIff(After(s, more, met), child, at, listing, complete, rules);
        }
      } else {
        assert more + [] == more;
      }
    }
  }

  lemma NothingUnder(node: Node, path: Path, complete: bool, rules: Rules)
    requires node.Directory?
    ensures SoundUnder([], node, path, complete, rules)
  {
  }

  lemma UnderStep(names: seq<string>, node: Node, path: Path, complete: bool, rules: Rules)
    requires node.Directory? && names != [] && forall i | 0 <= i < |names| :: names[i] in node.children
    ensures var (n, name) := (|names| - 1, names[|names| - 1]);
            SoundUnder(names, node, path, complete, rules) <==>
              && SoundUnder(names[..n], node, path, complete, rules) && node.children[name].Directory?
              && (Entered(name, complete, rules) ==> SoundBelow(node.children[name], path + [name], complete, rules))
  {
    hide SoundBelow;
    var n := |names| - 1;
    if SoundUnder(names, node, path, complete, rules) {
      forall i | 0 <= i < n
        ensures node.children[names[..n][i]].Directory?
        ensures !PassedBy(names[..n][i], complete, rules) ==>
                  SoundBelow(node.children[names[..n][i]], path + [names[..n][i]], complete, rules)
      {
        assert names[..n][i] == names[i];
      }
    }
  }

  lemma RoomBounds(s: State, entries: seq<Entry>, names: nat)
    requires Room(s, entries, names)
    ensures After(s, entries, names).seen <= 20_000 && After(s, entries, names).bytes <= 536_870_912
  {
  }

  lemma ListsChild(listing: Path -> seq<string>, node: Node, path: Path, name: string)
    requires node.Directory? && Lists(listing, node, path) && name in node.children
    ensures Lists(listing, node.children[name], path + [name])
  {
  }

  // ----- the same, said of paths -----

  /** A walk gets to this path: it enters all the directories on the way. */
  ghost predicate Reaches(path: Path, complete: bool, rules: Rules) {
    forall i | 0 <= i < |path| - 1 :: !PassedBy(path[i], complete, rules)
  }

  /** Whatever the walk gets to is sound. */
  ghost predicate AllSound(node: Node, path: Path, complete: bool, rules: Rules)
    requires node.Directory?
  {
    forall rest | rest != [] && Reaches(rest, complete, rules) && PathCollisions.NodeAt(node, rest).Some? ::
      Sound(PathCollisions.NodeAt(node, rest).value, path + rest, complete, rules)
  }

  lemma NodeBelow(node: Node, rest: Path)
    requires rest != []
    ensures PathCollisions.NodeAt(node, rest)
         == if node.Directory? && rest[0] in node.children then PathCollisions.NodeAt(node.children[rest[0]], rest[1..]) else None
    ensures |rest| > 1 && PathCollisions.NodeAt(node, rest).Some? ==> node.Directory? && rest[0] in node.children && node.children[rest[0]].Directory?
  {
  }

  lemma ReachesRest(rest: Path, complete: bool, rules: Rules)
    requires rest != []
    ensures Reaches(rest, complete, rules) <==>
              |rest| == 1 || (!PassedBy(rest[0], complete, rules) && Reaches(rest[1..], complete, rules))
  {
    hide PassedBy;
    if |rest| > 1 && !PassedBy(rest[0], complete, rules) && Reaches(rest[1..], complete, rules) {
      forall i | 0 <= i < |rest| - 1 ensures !PassedBy(rest[i], complete, rules) {
        if i > 0 { assert rest[i] == rest[1..][i - 1]; }
      }
    }
  }

  lemma {:induction false} SoundIff(node: Node, path: Path, complete: bool, rules: Rules)
    requires node.Directory?
    ensures SoundBelow(node, path, complete, rules) <==> AllSound(node, path, complete, rules)
    decreases node
  {
    hide Sound, PassedBy, Reaches, PathCollisions.NodeAt;
    forall name | name in node.children && node.children[name].Directory? {
      SoundIff(node.children[name], path + [name], complete, rules);
    }
    if SoundBelow(node, path, complete, rules) {
      AllFromBelow(node, path, complete, rules);
    }
    if AllSound(node, path, complete, rules) {
      BelowFromAll(node, path, complete, rules);
    }
  }

  lemma AllFromBelow(node: Node, path: Path, complete: bool, rules: Rules)
    requires node.Directory? && SoundBelow(node, path, complete, rules)
    requires forall name | name in node.children && node.children[name].Directory? && !PassedBy(name, complete, rules) ::
               AllSound(node.children[name], path + [name], complete, rules)
    ensures AllSound(node, path, complete, rules)
  {
    hide Sound, PassedBy, Reaches, PathCollisions.NodeAt;
    forall rest | rest != [] && Reaches(rest, complete, rules) && PathCollisions.NodeAt(node, rest).Some?
      ensures Sound(PathCollisions.NodeAt(node, rest).value, path + rest, complete, rules)
    {
      NodeBelow(node, rest);
      ReachesRest(rest, complete, rules);
      var name := rest[0];
      assert rest == [name] + rest[1..];
      if |rest| == 1 {
        NodeHere(node.children[name]);
        assert path + rest == path + [name];
      } else {
        assert (path + [name]) + rest[1..] == path + rest;
      }
    }
  }

  lemma NodeHere(node: Node)
    ensures PathCollisions.NodeAt(node, []) == Some(node)
  {
  }

  lemma BelowFromAll(node: Node, path: Path, complete: bool, rules: Rules)
    requires node.Directory? && AllSound(node, path, complete, rules)
    requires forall name | name in node.children && node.children[name].Directory? ::
               SoundBelow(node.children[name], path + [name], complete, rules) <==> AllSound(node.children[name], path + [name], complete, rules)
    ensures SoundBelow(node, path, complete, rules)
  {
    hide Sound, PassedBy, Reaches, PathCollisions.NodeAt;
    forall name | name in node.children
      ensures Sound(node.children[name], path + [name], complete, rules)
      ensures node.children[name].Directory? && !PassedBy(name, complete, rules) ==>
                SoundBelow(node.children[name], path + [name], complete, rules)
    {
      var child := node.children[name];
      NodeBelow(node, [name]);
      NodeHere(child);
      ReachesRest([name], complete, rules);
      assert [name][1..] == [];
      if child.Directory? && !PassedBy(name, complete, rules) {
        forall rest | rest != [] && Reaches(rest, complete, rules) && PathCollisions.NodeAt(child, rest).Some?
          ensures Sound(PathCollisions.NodeAt(child, rest).value, (path + [name]) + rest, complete, rules)
        {
          var long := [name] + rest;
          assert long[1..] == rest && path + long == (path + [name]) + rest;
          NodeBelow(node, long);
          ReachesRest(long, complete, rules);
        }
      }
    }
  }

  // ----- main results -----

  /** What a snapshot keeps, if it is accepted, in the order it is met. */
  function EntriesOf(root: Node, listing: Path -> seq<string>, complete: bool, rules: Rules): seq<Entry>
    requires root.Directory?
  {
    (if complete then [Entry([], KeptDirectory(root.mode))] else []) + EntriesAt(root, [], listing, complete, rules)
  }

  /**
   * Exactly the trees that are accepted: whatever the walk gets to is sound, it meets at most 20000 names and 512 MiB of
   * files, and no file after ten thousand rows.
   */
  lemma AcceptedIff(root: Node, listing: Path -> seq<string>, complete: bool, rules: Rules)
    requires Lists(listing, root, [])
    ensures ManifestOf(root, listing, complete, rules).Some? <==>
              && root.Directory? && Met(root, [], listing, complete, rules) <= 20_000
              && Bytes(EntriesOf(root, listing, complete, rules)) <= 536_870_912
              && InTime(EntriesOf(root, listing, complete, rules), 0)
              && forall path | path != [] && Reaches(path, complete, rules) && PathCollisions.NodeAt(root, path).Some? ::
                   Sound(PathCollisions.NodeAt(root, path).value, path, complete, rules)
    ensures ManifestOf(root, listing, complete, rules).Some? ==>
              Snapshot(root, listing, complete, rules) == Some(EntriesOf(root, listing, complete, rules))
  {
    hide Walk, Sound, SoundBelow, Lists, EntriesAt, Met, Reaches, PathCollisions.NodeAt, Sorting.SortBy;
    if root.Directory? {
      var first := if complete then [Entry([], KeptDirectory(root.mode))] else [];
      var more := EntriesAt(root, [], listing, complete, rules);
      WalkIff(State(first, 0, 0), root, [], listing, complete, rules);
      SoundIff(root, [], complete, rules);
      BytesConcat(first, more);
      InTimeConcat(first, more, 0);
      assert Bytes(first) == 0;
      assert forall rest: Path :: [] + rest == rest;
    }
  }

  /** A path is printed as its names with a slash between them, the root as a dot. */
  lemma {:induction false} JoinedGrows(path: Path, name: string)
    ensures Joined([]) == "." && Joined([name]) == name
    ensures path != [] ==> Joined(path + [name]) == Joined(path) + "/" + name
  {
    if |path| > 1 {
      JoinedGrows(path[1..], name);
      assert (path + [name])[1..] == path[1..] + [name];
      assert path[0] + "/" + (Joined(path[1..]) + "/" + name) == path[0] + "/" + Joined(path[1..]) + "/" + name;
    } else if |path| == 1 {
      assert (path + [name])[1..] == [name];
    }
  }

  /** The row of what is kept at a path: its printed path, for a file with slashes throughout. */
  lemma RowIs(e: Entry)
    ensures RowOf(e).kept == e.kept && |RowOf(e).path| == |Joined(e.path)|
    ensures e.kept.KeptDirectory? ==> RowOf(e).path == Joined(e.path)
    ensures e.kept.KeptFile? ==> forall i | 0 <= i < |Joined(e.path)| ::
              RowOf(e).path[i] == if Joined(e.path)[i] == '\\' then '/' else Joined(e.path)[i]
  {
  }

  /**
   * What is kept, read off the tree: at a path the walk gets to, a complete snapshot keeps the mode of a directory and the
   * mode and content of a file, and a basic one the content of a regular file that is not ignored.
   */
  lemma KeptIff(root: Node, path: Path, kept: Kept, complete: bool, rules: Rules)
    ensures LookFrom(root, path, complete, rules) == Some(kept) <==>
              && root.Directory? && Reaches(path, complete, rules) && PathCollisions.NodeAt(root, path).Some?
              && match PathCollisions.NodeAt(root, path).value {
                   case Directory(mode, _, _) => complete && kept == KeptDirectory(mode)
                   case File(mode, content, regular, _, _) =>
                     if complete then kept == KeptFile(Some(mode), content)
                     else regular && !rules.ignoredFile(path[|path| - 1]) && kept == KeptFile(None, content)
                   case Link(_) => false
                 }
  {
    LookIff(root, path, kept, complete, rules);
  }

  lemma {:induction false} LookIff(node: Node, path: Path, kept: Kept, complete: bool, rules: Rules)
    ensures Look(node, path, complete, rules) == Some(kept) <==>
              && path != [] && Reaches(path, complete, rules) && PathCollisions.NodeAt(node, path).Some?
              && match PathCollisions.NodeAt(node, path).value {
                   case Directory(mode, _, _) => complete && kept == KeptDirectory(mode)
                   case File(mode, content, regular, _, _) =>
                     if complete then kept == KeptFile(Some(mode), content)
                     else regular && !rules.ignoredFile(path[|path| - 1]) && kept == KeptFile(None, content)
                   case Link(_) => false
                 }
    decreases path
  {
    hide Reaches;
    if path != [] {
      NodeBelow(node, path);
      ReachesRest(path, complete, rules);
      if |path| > 1 && node.Directory? && path[0] in node.children {
        LookIff(node.children[path[0]], path[1..], kept, complete, rules);
      }
    }
  }
}
