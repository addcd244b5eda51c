/** Which file paths the workspace fingerprint tells apart (benchmarks/boundary.py, workspace_manifest_sha256). */
module PathCollisions {
  import opened Common
  import opened Base64
  import opened WorkspaceManifest
  import Sorting

  /** Any name a file system gives. */
  predicate ProperName(name: string) {
    name != "" && name != "." && '/' !in name
  }

  predicate ProperPath(path: Path) {
    forall i | 0 <= i < |path| :: ProperName(path[i])
  }

  predicate NoBackslash(path: Path) {
    forall i | 0 <= i < |path| :: '\\' !in path[i]
  }

  /** The paths of two files make the same row. */
  predicate PrintAlike(p: Path, q: Path) {
    Slashed(Joined(p)) == Slashed(Joined(q))
  }

  ghost predicate KeepsFile(root: Node, path: Path, complete: bool, rules: Rules) {
    LookFrom(root, path, complete, rules).Some? && LookFrom(root, path, complete, rules).value.KeptFile?
  }

  ghost predicate ProperKept(root: Node, complete: bool, rules: Rules) {
    forall path | LookFrom(root, path, complete, rules).Some? :: ProperPath(path)
  }

  /** No file kept in one tree prints like a file kept elsewhere in the other. */
  ghost predicate PrintApart(root: Node, other: Node, complete: bool, rules: Rules) {
    forall p, q | KeepsFile(root, p, complete, rules) && KeepsFile(other, q, complete, rules) && PrintAlike(p, q) :: p == q
  }

  /** No kept file has a backslash in its path. */
  ghost predicate PlainKept(root: Node, complete: bool, rules: Rules) {
    ProperKept(root, complete, rules) && forall path | KeepsFile(root, path, complete, rules) :: NoBackslash(path)
  }

  // ----- joined paths -----

  lemma JoinedProper(path: Path)
    requires ProperPath(path) && path != []
    ensures Joined(path) != "" && Joined(path) != "."
  {
    assert ProperName(path[0]);
    if |path| > 1 {
      assert ProperName(path[1]);
      assert |Joined(path)| > 1;
    }
  }

  lemma {:induction false} SlashedPlain(path: Path)
    requires NoBackslash(path)
    ensures '\\' !in Joined(path) && Slashed(Joined(path)) == Joined(path)
  {
    if |path| > 1 {
      assert NoBackslash(path[1..]);
      SlashedPlain(path[1..]);
    }
    assert '\\' !in Joined(path);
    assert Slashed(Joined(path)) == Joined(path);
  }

  /** The position of the first slash, or the length. */
  function FirstSlash(s: string): nat {
    if s == "" || s[0] == '/' then 0 else 1 + FirstSlash(s[1..])
  }

  lemma {:induction false} FirstSlashAfter(name: string, rest: string)
    requires '/' !in name && (rest == "" || rest[0] == '/')
    ensures FirstSlash(name + rest) == |name|
  {
    if name == "" {
      assert name + rest == rest;
    } else {
      assert (name + rest)[1..] == name[1..] + rest && (name + rest)[0] == name[0] && name[0] in name;
      FirstSlashAfter(name[1..], rest);
    }
  }

  function Tail(path: Path): string
    requires path != []
  {
    if |path| == 1 then "" else "/" + Joined(path[1..])
  }

  lemma JoinedSplit(path: Path)
    requires ProperPath(path) && path != []
    ensures Joined(path) == path[0] + Tail(path) && FirstSlash(Joined(path)) == |path[0]|
  {
    assert ProperName(path[0]);
    FirstSlashAfter(path[0], Tail(path));
    assert |path| > 1 ==> path[0] + ("/" + Joined(path[1..])) == path[0] + "/" + Joined(path[1..]);
    assert |path| == 1 ==> path[0] + "" == path[0];
  }

  lemma SameSplit(p: Path, q: Path)
    requires ProperPath(p) && ProperPath(q) && p != [] && q != [] && Joined(p) == Joined(q)
    ensures p[0] == q[0] && Tail(p) == Tail(q)
  {
    hide ProperPath, Joined, Tail, FirstSlash;
    JoinedSplit(p);
    JoinedSplit(q);
    var s, n := Joined(p), |p[0]|;
    assert p[0] == s[..n] && Tail(p) == s[n..];
    assert q[0] == s[..n] && Tail(q) == s[n..];
  }

  lemma SameTail(p: Path, q: Path)
    requires p != [] && q != [] && p[0] == q[0] && Tail(p) == Tail(q)
    ensures |p| == 1 <==> |q| == 1
    ensures |p| > 1 ==> Joined(p[1..]) == Joined(q[1..])
  {
    hide Joined;
    if |p| > 1 {
      assert Tail(p)[0] == '/' && Tail(p)[1..] == Joined(p[1..]);
      assert Tail(q)[1..] == Joined(q[1..]);
    }
  }

  /** Proper paths join apart. */
  lemma {:induction false} JoinedInjective(p: Path, q: Path)
    requires ProperPath(p) && ProperPath(q) && Joined(p) == Joined(q)
    ensures p == q
  {
    hide ProperName, Tail;
    if p != [] { JoinedProper(p); }
    if q != [] { JoinedProper(q); }
    if p != [] && q != [] {
      SameSplit(p, q);
      SameTail(p, q);
      if |p| > 1 {
        JoinedInjective(p[1..], q[1..]);
        assert p == [p[0]] + p[1..] && q == [q[0]] + q[1..];
      } else {
        assert p == [p[0]] && q == [q[0]];
      }
    }
  }

  // ----- trees whose files print apart -----

  lemma RowInjective(x: Entry, y: Entry)
    requires ProperPath(x.path) && ProperPath(y.path) && RowOf(x) == RowOf(y)
    requires x.kept.KeptFile? && y.kept.KeptFile? && PrintAlike(x.path, y.path) ==> x.path == y.path
    ensures x == y
  {
    hide ProperPath, Joined, Slashed;
    if !x.kept.KeptFile? {
      JoinedInjective(x.path, y.path);
    }
  }

  /** A path kept in one tree is kept, the same, in any other with the same manifest whose files print apart from its own. */
  lemma EqualManifestsLook(root: Node, other: Node, listing: Path -> seq<string>, listing': Path -> seq<string>,
                           path: Path, complete: bool, rules: Rules)
    requires Lists(listing, root, []) && Lists(listing', other, [])
    requires ProperKept(root, complete, rules) && ProperKept(other, complete, rules) && PrintApart(root, other, complete, rules)
    requires ManifestOf(root, listing, complete, rules).Some?
    requires ManifestOf(root, listing, complete, rules) == ManifestOf(other, listing', complete, rules)
    requires LookFrom(root, path, complete, rules).Some?
    ensures LookFrom(other, path, complete, rules) == LookFrom(root, path, complete, rules)
  {
    hide Snapshot, Lists, LookFrom, OncePerPath, ProperPath, PrintAlike, RowOf;
    SnapshotExact(root, listing, complete, rules);
    SnapshotExact(other, listing', complete, rules);
    var a, b := Snapshot(root, listing, complete, rules).value, Snapshot(other, listing', complete, rules).value;
    var e := Entry(path, LookFrom(root, path, complete, rules).value);
    assert e in a;
    var i :| 0 <= i < |a| && a[i] == e;
    assert RowsOf(a)[i] in multiset(RowsOf(a)) && multiset(RowsOf(a)) == multiset(RowsOf(b));
    assert RowOf(e) in RowsOf(b);
    var j :| 0 <= j < |b| && RowsOf(b)[j] == RowOf(e);
    assert b[j] in b;
    assert LookFrom(other, b[j].path, complete, rules) == Some(b[j].kept);
    RowInjective(e, b[j]);
  }

  /** While no two of their files print alike: one manifest exactly when the trees agree on everything kept. */
  lemma ApartManifestsIff(root: Node, other: Node, listing: Path -> seq<string>, listing': Path -> seq<string>,
                          complete: bool, rules: Rules)
    requires TotalOrder(rules.before) && Lists(listing, root, []) && Lists(listing', other, [])
    requires ProperKept(root, complete, rules) && ProperKept(other, complete, rules) && PrintApart(root, other, complete, rules)
    requires ManifestOf(root, listing, complete, rules).Some? && ManifestOf(other, listing', complete, rules).Some?
    ensures ManifestOf(root, listing, complete, rules) == ManifestOf(other, listing', complete, rules)
       <==> Agree(root, other, complete, rules)
  {
    hide ManifestOf, Lists, LookFrom, ProperKept, TotalOrder, PrintAlike;
    if ManifestOf(root, listing, complete, rules) == ManifestOf(other, listing', complete, rules) {
      assert PrintApart(other, root, complete, rules) by { ApartSymmetric(root, other, complete, rules); }
      hide PrintApart;
      forall path ensures LookFrom(root, path, complete, rules) == LookFrom(other, path, complete, rules) {
        if LookFrom(root, path, complete, rules).Some? {
          EqualManifestsLook(root, other, listing, listing', path, complete, rules);
        } else if LookFrom(other, path, complete, rules).Some? {
          EqualManifestsLook(other, root, listing', listing, path, complete, rules);
        }
      }
    } else if Agree(root, other, complete, rules) {
      AgreeingManifests(root, other, listing, listing', complete, rules);
    }
  }

  lemma ApartSymmetric(root: Node, other: Node, complete: bool, rules: Rules)
    requires PrintApart(root, other, complete, rules)
    ensures PrintApart(other, root, complete, rules)
  {
    hide KeepsFile, Slashed, Joined;
  }

  /** While no kept file's path has a backslash: one manifest exactly when the trees agree on everything kept. */
  lemma PlainManifestsIff(root: Node, other: Node, listing: Path -> seq<string>, listing': Path -> seq<string>,
                          complete: bool, rules: Rules)
    requires TotalOrder(rules.before) && Lists(listing, root, []) && Lists(listing', other, [])
    requires PlainKept(root, complete, rules) && PlainKept(other, complete, rules)
    requires ManifestOf(root, listing, complete, rules).Some? && ManifestOf(other, listing', complete, rules).Some?
    ensures ManifestOf(root, listing, complete, rules) == ManifestOf(other, listing', complete, rules)
       <==> Agree(root, other, complete, rules)
  {
    hide ManifestOf, Lists, LookFrom, TotalOrder, Joined, Slashed, ProperPath, NoBackslash;
    forall p, q | KeepsFile(root, p, complete, rules) && KeepsFile(other, q, complete, rules) && PrintAlike(p, q)
      ensures p == q
    {
      SlashedPlain(p);
      SlashedPlain(q);
      JoinedInjective(p, q);
    }
    ApartManifestsIff(root, other, listing, listing', complete, rules);
  }

  // ----- paths that print alike -----

  /** A printed path split at its slashes. */
  function Pieces(s: string): (path: Path)
    ensures path != []
    decreases |s|
  {
    FirstSlashAt(s);
    var n := FirstSlash(s);
    if n == |s| then [s] else [s[..n]] + Pieces(s[n + 1..])
  }

  lemma FirstSlashAt(s: string)
    ensures FirstSlash(s) <= |s| && '/' !in s[..FirstSlash(s)]
    ensures FirstSlash(s) < |s| ==> s[FirstSlash(s)] == '/'
  {
    if s != "" && s[0] != '/' {
      FirstSlashAt(s[1..]);
      var n := FirstSlash(s[1..]);
      assert s[..n + 1] == [s[0]] + s[1..][..n];
    }
  }

  lemma {:induction false} JoinedPieces(s: string)
    ensures Joined(Pieces(s)) == s
    decreases |s|
  {
    FirstSlashAt(s);
    var n := FirstSlash(s);
    if n < |s| {
      JoinedPieces(s[n + 1..]);
      assert s == s[..n] + "/" + s[n + 1..];
    }
  }

  lemma {:induction false} PiecesPlain(s: string)
    requires '\\' !in s
    ensures NoBackslash(Pieces(s))
    decreases |s|
  {
    FirstSlashAt(s);
    if FirstSlash(s) < |s| {
      PiecesPlain(s[FirstSlash(s) + 1..]);
    }
  }

  lemma PiecesStep(s: string, n: nat)
    requires FirstSlash(s) == n && n <= |s|
    ensures Pieces(s) == if n == |s| then [s] else [s[..n]] + Pieces(s[n + 1..])
  {
    hide FirstSlash;
  }

  lemma {:induction false} PiecesJoined(path: Path)
    requires ProperPath(path) && path != []
    ensures Pieces(Joined(path)) == path
  {
    hide ProperPath, Joined, Pieces, FirstSlash, Tail;
    JoinedSplit(path);
    var s, n := Joined(path), |path[0]|;
    PiecesStep(s, n);
    if |path| > 1 {
      ProperTail(path);
      TailRest(path);
      PiecesJoined(path[1..]);
      HeadAndRest(path[0], Joined(path[1..]));
      assert path == [path[0]] + path[1..];
    } else {
      TailRest(path);
      assert s == path[0] && path == [s];
    }
  }

  lemma TailRest(path: Path)
    requires path != []
    ensures Tail(path) == if |path| == 1 then "" else "/" + Joined(path[1..])
  {
    hide Joined;
  }

  lemma HeadAndRest(head: string, rest: string)
    ensures var s := head + ("/" + rest); s[..|head|] == head && s[|head| + 1..] == rest
  {
  }

  lemma ProperTail(path: Path)
    requires ProperPath(path) && path != []
    ensures ProperPath(path[1..])
  {
  }

  /** The path without backslashes that prints as this one. */
  function Alias(path: Path): (alias: Path)
    ensures alias != []
  {
    Pieces(Slashed(Joined(path)))
  }

  lemma AliasPrints(path: Path)
    ensures NoBackslash(Alias(path)) && Slashed(Joined(Alias(path))) == Slashed(Joined(path))
  {
    var s := Slashed(Joined(path));
    JoinedPieces(s);
    PiecesPlain(s);
    SlashedPlain(Alias(path));
  }

  /**
   * A file's path prints like a different path without backslashes exactly when it has a backslash and what stands
   * between its slashes and backslashes are names.
   */
  lemma PlainAliasIff(path: Path)
    requires ProperPath(path) && path != []
    ensures (exists q :: ProperPath(q) && NoBackslash(q) && q != path && PrintAlike(q, path))
       <==> !NoBackslash(path) && ProperPath(Alias(path))
  {
    hide Joined, Slashed, ProperPath, NoBackslash;
    AliasPrints(path);
    if !NoBackslash(path) && ProperPath(Alias(path)) {
      assert Alias(path) != path;
    }
    forall q | ProperPath(q) && NoBackslash(q) && q != path && PrintAlike(q, path)
      ensures !NoBackslash(path) && ProperPath(Alias(path))
    {
      SlashedPlain(q);
      JoinedProper(path);
      if q == [] {
        OnlyDotPrintsDot(path);
      } else {
        PiecesJoined(q);
      }
      if NoBackslash(path) {
        SlashedPlain(path);
        JoinedInjective(path, q);
      }
    }
  }

  lemma OnlyDotPrintsDot(path: Path)
    requires ProperPath(path) && path != []
    ensures Slashed(Joined(path)) != Joined([])
  {
    var s := Joined(path);
    assert Slashed(s) == "." ==> |s| == 1 && Slashed(s)[0] == '.';
    assert Slashed(s) == "." ==> s == ".";
    JoinedProper(path);
  }

  lemma SlashedInjective(s: string, t: string)
    requires '/' !in s && '/' !in t && Slashed(s) == Slashed(t)
    ensures s == t
  {
    forall i | 0 <= i < |s| ensures s[i] == t[i] {
      assert Slashed(s)[i] == Slashed(t)[i] && s[i] in s && t[i] in t;
    }
  }

  /** The name is two names with a backslash between them. */
  predicate SplitsAt(name: string, i: nat) {
    i < |name| && name[i] == '\\' && ProperName(name[..i]) && ProperName(name[i + 1..])
  }

  lemma SplitPrints(name: string, i: nat)
    requires SplitsAt(name, i)
    ensures PrintAlike([name[..i], name[i + 1..]], [name])
  {
    var a, b := name[..i], name[i + 1..];
    assert [a, b][1..] == [b] && Joined([a, b]) == a + "/" + b;
    assert name == a + "\\" + b;
    assert Slashed(Joined([a, b])) == Slashed(name);
  }

  lemma MergePrints(path: Path)
    requires ProperPath(path) && |path| >= 2
    ensures var merged := [path[0] + "\\" + path[1]] + path[2..];
            ProperPath(merged) && merged != path && PrintAlike(merged, path)
  {
    var name := path[0] + "\\" + path[1];
    var merged := [name] + path[2..];
    assert ProperName(path[0]) && ProperName(path[1]);
    assert |name| >= 3 && '/' !in name;
    assert ProperPath(merged);
    assert merged[1..] == path[2..] && path[1..][1..] == path[2..];
    if |path| == 2 {
      assert Joined(merged) == name && Joined(path) == path[0] + "/" + path[1];
    } else {
      var rest := Joined(path[2..]);
      assert Joined(path[1..]) == path[1] + "/" + rest;
      assert Joined(merged) == name + "/" + rest && Joined(path) == path[0] + "/" + (path[1] + "/" + rest);
    }
    assert Slashed(Joined(merged)) == Slashed(Joined(path));
  }

  lemma ProperHead(path: Path)
    requires ProperPath(path) && path != []
    ensures ProperName(path[0])
  {
  }

  /** A longer path that prints like a single name splits that name. */
  lemma LongerSplits(name: string, q: Path)
    requires ProperName(name) && ProperPath(q) && |q| >= 2 && PrintAlike(q, [name])
    ensures SplitsAt(name, |q[0]|)
  {
    hide ProperPath;
    ProperHead(q);
    ProperTail(q);
    var i, rest := |q[0]|, Joined(q[1..]);
    var s := Slashed(q[0] + "/" + rest);
    assert s == Slashed(name);
    assert s[i] == '/' && name[i] in name;
    assert name[i] == '\\';
    var a, b := name[..i], name[i + 1..];
    assert Slashed(a) == s[..i] == Slashed(q[0]);
    SlashedInjective(a, q[0]);
    assert Slashed(b) == s[i + 1..] == Slashed(rest);
    JoinedProper(q[1..]);
    OnlyDotPrintsDot(q[1..]);
    assert Slashed(".") == ".";
    assert b == "." ==> Slashed(rest) == ".";
  }

  /**
   * A file's path prints like some other path exactly when it has at least two names, which may be one with a backslash
   * between them, or is one name that splits at a backslash into two.
   */
  lemma AliasIff(path: Path)
    requires ProperPath(path) && path != []
    ensures (exists q :: ProperPath(q) && q != path && PrintAlike(q, path))
       <==> |path| >= 2 || exists i: nat :: SplitsAt(path[0], i)
  {
    hide PrintAlike, SplitsAt, ProperPath;
    ProperHead(path);
    if |path| >= 2 {
      MergePrints(path);
    } else {
      assert path == [path[0]];
      forall i: nat | SplitsAt(path[0], i) ensures exists q :: ProperPath(q) && q != path && PrintAlike(q, path) {
        SplitAlias(path[0], i);
      }
      forall q | ProperPath(q) && q != path && PrintAlike(q, path) ensures exists i: nat :: SplitsAt(path[0], i) {
        AliasLonger(path[0], q);
        LongerSplits(path[0], q);
      }
    }
  }

  lemma SplitAlias(name: string, i: nat)
    requires SplitsAt(name, i)
    ensures exists q :: ProperPath(q) && q != [name] && PrintAlike(q, [name])
  {
    SplitPrints(name, i);
    assert ProperPath([name[..i], name[i + 1..]]);
  }

  lemma AliasLonger(name: string, q: Path)
    requires ProperName(name) && ProperPath(q) && q != [name] && PrintAlike(q, [name])
    ensures |q| >= 2
  {
    assert Slashed(".") == ".";
    if q == [] {
      OnlyDotPrintsDot([name]);
    } else if |q| == 1 {
      assert ProperName(q[0]);
      SlashedInjective(q[0], name);
    }
  }

  // ----- trees that are accepted -----

  /** How many names a part of a tree has, and how many bytes its files. */
  datatype Load = Load(names: nat, bytes: nat)

  /** What one name of a directory adds: itself, and its content or everything below it. */
  function LoadAt(name: string, node: Node, path: Path, listing: Path -> seq<string>): Load
    requires node.Directory?
    decreases node, 0, 0
  {
    if name !in node.children then Load(0, 0)
    else match node.children[name] {
      case File(_, content, _, _, _) => Load(1, |content|)
      case Directory(_, _, _) =>
        var below := LoadOf(node.children[name], path + [name], listing);
        Load(1 + below.names, below.bytes)
      case Link(_) => Load(1, 0)
    }
  }

  function LoadBelow(names: seq<string>, node: Node, path: Path, listing: Path -> seq<string>): Load
    requires node.Directory?
    decreases node, 1, |names|
  {
    if names == [] then Load(0, 0)
    else
      var n := |names| - 1;
      var before, last := LoadBelow(names[..n], node, path, listing), LoadAt(names[n], node, path, listing);
      Load(before.names + last.names, before.bytes + last.bytes)
  }

  function LoadOf(node: Node, path: Path, listing: Path -> seq<string>): Load
    requires node.Directory?
    decreases node, 2, 0
  {
    LoadBelow(InOrder(listing(path), node.children, true) + InOrder(listing(path), node.children, false), node, path, listing)
  }

  /** A directory entry the walk has nothing against but the counts. */
  predicate OrdinaryEntry(node: Node, path: Path, rules: Rules) {
    && |Joined(path)| <= MAX_PATH
    && match node {
         case File(_, content, regular, links, mount) =>
           regular && links == 1 && !mount && |content| <= MAX_FILE_BYTES && !rules.marked(Slashed(Joined(path)))
         case Directory(_, mount, _) => !mount
         case Link(_) => false
       }
  }

  ghost predicate Ordinary(node: Node, path: Path, rules: Rules)
    requires node.Directory?
  {
    forall name | name in node.children ::
      && OrdinaryEntry(node.children[name], path + [name], rules)
      && (node.children[name].Directory? ==> Ordinary(node.children[name], path + [name], rules))
  }

  /** The state has room for a load. */
  predicate Room(s: State, load: Load) {
    s.seen + load.names <= MAX_ENTRIES && |s.entries| + load.names <= MAX_FILES && s.bytes + load.bytes <= MAX_TOTAL_BYTES
  }

  predicate Used(s: State, t: State, load: Load) {
    t.seen <= s.seen + load.names && |t.entries| <= |s.entries| + load.names && t.bytes <= s.bytes + load.bytes
  }

  lemma {:induction false} DirectoriesFit(s: State, names: seq<string>, node: Node, path: Path, complete: bool, rules: Rules)
    requires node.Directory? && Ordinary(node, path, rules)
    requires forall i | 0 <= i < |names| :: names[i] in node.children && node.children[names[i]].Directory?
    ensures var t := VisitDirectories(s, names, node, path, complete);
            && t.Some? && t.value.seen == s.seen && t.value.bytes == s.bytes && |t.value.entries| <= |s.entries| + |names|
  {
    hide Joined;
    if names != [] {
      var n := |names| - 1;
      DirectoriesFit(s, names[..n], node, path, complete, rules);
      assert OrdinaryEntry(node.children[names[n]], path + [names[n]], rules);
    }
  }

  lemma {:induction false} FilesFit(s: State, names: seq<string>, node: Node, path: Path, listing: Path -> seq<string>,
                                    complete: bool, rules: Rules)
    requires node.Directory? && Ordinary(node, path, rules)
    requires forall i | 0 <= i < |names| :: names[i] in node.children && node.children[names[i]].File?
    requires |s.entries| + |names| <= MAX_FILES && s.bytes + LoadBelow(names, node, path, listing).bytes <= MAX_TOTAL_BYTES
    ensures LoadBelow(names, node, path, listing).names == |names|
    ensures var t := VisitFiles(s, names, node, path, complete, rules);
            && t.Some? && t.value.seen == s.seen && |t.value.entries| <= |s.entries| + |names|
            && t.value.bytes <= s.bytes + LoadBelow(names, node, path, listing).bytes
  {
    hide Joined, Slashed, Ordinary;
    if names != [] {
      var n := |names| - 1;
      FilesFit(s, names[..n], node, path, listing, complete, rules);
      OrdinaryHere(node, names[n], path, rules);
    }
  }

  lemma OrdinaryHere(node: Node, name: string, path: Path, rules: Rules)
    requires node.Directory? && Ordinary(node, path, rules) && name in node.children
    ensures OrdinaryEntry(node.children[name], path + [name], rules)
    ensures node.children[name].Directory? ==> Ordinary(node.children[name], path + [name], rules)
  {
  }

  lemma {:induction false} LoadConcat(a: seq<string>, b: seq<string>, node: Node, path: Path, listing: Path -> seq<string>)
    requires node.Directory?
    ensures var (x, y) := (LoadBelow(a, node, path, listing), LoadBelow(b, node, path, listing));
            LoadBelow(a + b, node, path, listing) == Load(x.names + y.names, x.bytes + y.bytes)
  {
    hide LoadAt;
    if b == [] {
      assert a + b == a;
    } else {
      LoadConcat(a, b[..|b| - 1], node, path, listing);
      assert (a + b)[..|a + b| - 1] == a + b[..|b| - 1];
    }
  }

  /** Ordinary files and directories are accepted wherever there is room for them. */
  lemma {:induction false} OrdinaryAccepted(s: State, node: Node, path: Path, listing: Path -> seq<string>, complete: bool, rules: Rules)
    requires node.Directory? && Lists(listing, node, path) && Ordinary(node, path, rules)
    requires Room(s, LoadOf(node, path, listing))
    ensures var t := Walk(s, node, path, listing, complete, rules);
            t.Some? && Used(s, t.value, LoadOf(node, path, listing))
    decreases node, 1, 0
  {
    hide InOrder, VisitDirectories, VisitFiles, Descend, LoadBelow, Ordinary;
    var names := listing(path);
    var directories, files := InOrder(names, node.children, true), InOrder(names, node.children, false);
    ListedKinds(names, node, path, rules);
    LoadConcat(directories, files, node, path, listing);
    DirectoriesLoad(directories, node, path, listing);
    var s0 := s.(seen := s.seen + |directories| + |files|);
    DirectoriesFit(s0, directories, node, path, complete, rules);
    var a := VisitDirectories(s0, directories, node, path, complete).value;
    FilesLoad(files, node, path, listing);
    FilesFit(a, files, node, path, listing, complete, rules);
    var b := VisitFiles(a, files, node, path, complete, rules).value;
    DescentFits(b, directories, node, path, listing, complete, rules);
  }

  lemma ListedKinds(names: seq<string>, node: Node, path: Path, rules: Rules)
    requires node.Directory? && multiset(names) == multiset(node.children.Keys) && Ordinary(node, path, rules)
    ensures forall i | 0 <= i < |InOrder(names, node.children, true)| ::
              var name := InOrder(names, node.children, true)[i]; name in node.children && node.children[name].Directory?
    ensures forall i | 0 <= i < |InOrder(names, node.children, false)| ::
              var name := InOrder(names, node.children, false)[i]; name in node.children && node.children[name].File?
  {
    hide InOrder, Joined, Slashed;
    InOrderIn(names, node.children, true);
    InOrderIn(names, node.children, false);
    InOrderNames(names, node.children);
    forall name | name in node.children ensures !node.children[name].Link? {
      OrdinaryHere(node, name, path, rules);
    }
  }

  lemma {:induction false} DirectoriesLoad(names: seq<string>, node: Node, path: Path, listing: Path -> seq<string>)
    requires node.Directory? && forall i | 0 <= i < |names| :: names[i] in node.children && node.children[names[i]].Directory?
    ensures |names| <= LoadBelow(names, node, path, listing).names
  {
    hide LoadOf;
    if names != [] {
      DirectoriesLoad(names[..|names| - 1], node, path, listing);
    }
  }

  lemma {:induction false} FilesLoad(names: seq<string>, node: Node, path: Path, listing: Path -> seq<string>)
    requires node.Directory? && forall i | 0 <= i < |names| :: names[i] in node.children && node.children[names[i]].File?
    ensures |names| == LoadBelow(names, node, path, listing).names
  {
    if names != [] {
      FilesLoad(names[..|names| - 1], node, path, listing);
    }
  }

  function Plus(a: Load, b: Load): Load {
    Load(a.names + b.names, a.bytes + b.bytes)
  }

  lemma RoomAfter(s: State, t: State, a: Load, b: Load)
    requires Room(s, Plus(a, b)) && Used(s, t, a)
    ensures Room(t, b) && forall u | Used(t, u, b) :: Used(s, u, Plus(a, b))
  {
  }

  lemma RoomBefore(s: State, a: Load, b: Load)
    requires Room(s, Plus(a, b))
    ensures Room(s, a)
  {
  }

  /** The names below the directories among these, without the directories themselves. */
  function LoadInside(names: seq<string>, node: Node, path: Path, listing: Path -> seq<string>): Load
    requires node.Directory?
  {
    var load := LoadBelow(names, node, path, listing);
    Load(if |names| <= load.names then load.names - |names| else 0, load.bytes)
  }

  lemma InsideStep(names: seq<string>, node: Node, path: Path, listing: Path -> seq<string>)
    requires node.Directory? && names != []
    requires forall i | 0 <= i < |names| :: names[i] in node.children && node.children[names[i]].Directory?
    ensures var (n, name) := (|names| - 1, names[|names| - 1]);
            LoadInside(names, node, path, listing)
              == Plus(LoadInside(names[..n], node, path, listing), LoadOf(node.children[name], path + [name], listing))
  {
    var n, name := |names| - 1, names[|names| - 1];
    DirectoriesLoad(names[..n], node, path, listing);
    DirectoriesLoad(names, node, path, listing);
    var below := LoadOf(node.children[name], path + [name], listing);
    assert LoadAt(name, node, path, listing) == Load(1 + below.names, below.bytes);
  }

  lemma {:induction false} DescentFits(s: State, names: seq<string>, node: Node, path: Path, listing: Path -> seq<string>,
                                       complete: bool, rules: Rules)
    requires node.Directory? && Lists(listing, node, path) && Ordinary(node, path, rules)
    requires forall i | 0 <= i < |names| :: names[i] in node.children && node.children[names[i]].Directory?
    requires Room(s, LoadInside(names, node, path, listing))
    ensures var t := Descend(s, names, node, path, listing, complete, rules);
            t.Some? && Used(s, t.value, LoadInside(names, node, path, listing))
    decreases node, 0, |names|
  {
    hide Walk, Entered, Ordinary, LoadOf, LoadInside, Room, Used;
    if names == [] {
      NothingUsed(s, LoadInside(names, node, path, listing));
    } else {
      var n := |names| - 1;
      var child, at := node.children[names[n]], path + [names[n]];
      var before, last := LoadInside(names[..n], node, path, listing), LoadOf(child, at, listing);
      InsideStep(names, node, path, listing);
      RoomBefore(s, before, last);
      DescentFits(s, names[..n], node, path, listing, complete, rules);
      var t := Descend(s, names[..n], node, path, listing, complete, rules).value;
      RoomAfter(s, t, before, last);
      NothingUsed(t, last);
      OrdinaryHere(node, names[n], path, rules);
      OrdinaryAccepted(t, child, at, listing, complete, rules);
    }
  }

  lemma NothingUsed(s: State, load: Load)
    ensures Used(s, s, load)
  {
  }

  /** Every tree can be listed. */
  lemma ListingExists(root: Node)
    ensures exists listing: Path -> seq<string> :: Lists(listing, root, [])
  {
    var listing: Path -> seq<string> := (path: Path) =>
      var node := NodeAt(root, path);
      if node.Some? && node.value.Directory? then SomeOrder(node.value.children.Keys) else [];
    ListingUnder(root, root, [], listing);
  }

  function NodeAt(node: Node, path: Path): Option<Node>
    decreases path
  {
    if path == [] then Some(node)
    else if !node.Directory? || path[0] !in node.children then None
    else NodeAt(node.children[path[0]], path[1..])
  }

  ghost function SomeOrder(keys: set<string>): (names: seq<string>)
    ensures multiset(names) == multiset(keys)
  {
    if keys == {} then []
    else
      var key :| key in keys;
      assert multiset(keys) == multiset(keys - {key}) + multiset{key};
      [key] + SomeOrder(keys - {key})
  }

  lemma {:induction false} NodeAtStep(node: Node, path: Path, name: string)
    requires NodeAt(node, path).Some? && NodeAt(node, path).value.Directory? && name in NodeAt(node, path).value.children
    ensures NodeAt(node, path + [name]) == Some(NodeAt(node, path).value.children[name])
    decreases path
  {
    if path == [] {
      assert ([] + [name])[1..] == [];
    } else {
      assert (path + [name])[1..] == path[1..] + [name];
      NodeAtStep(node.children[path[0]], path[1..], name);
    }
  }

  lemma {:induction false} ListingUnder(root: Node, node: Node, path: Path, listing: Path -> seq<string>)
    requires NodeAt(root, path) == Some(node)
    requires forall at :: listing(at) == if NodeAt(root, at).Some? && NodeAt(root, at).value.Directory?
                                         then SomeOrder(NodeAt(root, at).value.children.Keys) else []
    ensures Lists(listing, node, path)
    decreases node
  {
    hide NodeAt, SomeOrder;
    if node.Directory? {
      forall name | name in node.children ensures Lists(listing, node.children[name], path + [name]) {
        NodeAtStep(root, path, name);
        ListingUnder(root, node.children[name], path + [name], listing);
      }
    }
  }

  // ----- two trees with the directories of two paths, and a file at one of them -----

  /** The directories above a path, and at the path a leaf if there is one. */
  function Chain(path: Path, leaf: Option<Node>): (node: Node)
    requires path != []
    ensures node.Directory?
  {
    Directory(0, false,
              if |path| > 1 then map[path[0] := Chain(path[1..], leaf)]
              else if leaf.Some? then map[path[0] := leaf.value] else map[])
  }

  /** Neither path leads through the other. */
  predicate Part(p: Path, q: Path) {
    p != [] && q != [] && (p[0] != q[0] || Part(p[1..], q[1..]))
  }

  /** Both chains in one tree. */
  function Fork(p: Path, q: Path, a: Option<Node>, b: Option<Node>): (node: Node)
    requires Part(p, q)
    ensures node.Directory?
  {
    if p[0] == q[0] then Directory(0, false, map[p[0] := Fork(p[1..], q[1..], a, b)])
    else Directory(0, false, Chain(p, a).children + Chain(q, b).children)
  }

  predicate LeafOk(leaf: Option<Node>) {
    leaf.Some? ==> leaf.value.File? && leaf.value.regular
  }

  function LeafLoad(leaf: Option<Node>): nat {
    if leaf.Some? && leaf.value.File? then |leaf.value.content| else 0
  }

  lemma {:induction false} ShortPath(path: Path)
    requires ProperPath(path)
    ensures |path| <= |Joined(path)|
  {
    if path != [] {
      assert ProperName(path[0]);
      if |path| > 1 {
        assert ProperPath(path[1..]);
        ShortPath(path[1..]);
      }
    }
  }

  /** No rule ignores the file or a directory above it. */
  predicate Public(path: Path, rules: Rules)
    requires path != []
  {
    !rules.ignoredFile(path[|path| - 1]) && forall i | 0 <= i < |path| - 1 :: !rules.ignoredDirectory(path[i])
  }

  /** x is a directory on the way to the path. */
  predicate Leads(x: Path, path: Path) {
    x != [] && |x| < |path| && x[0] == path[0] && (|x| == 1 || Leads(x[1..], path[1..]))
  }

  function LeafKept(leaf: Option<Node>, complete: bool): Option<Kept>
    requires LeafOk(leaf)
  {
    if leaf.Some? then Some(KeptOf(leaf.value, complete)) else None
  }

  lemma {:induction false} ChainLook(path: Path, leaf: Option<Node>, x: Path, complete: bool, rules: Rules)
    requires path != [] && LeafOk(leaf) && (complete || Public(path, rules))
    ensures Look(Chain(path, leaf), x, complete, rules) ==
            if x == path then LeafKept(leaf, complete)
            else if complete && Leads(x, path) then Some(KeptDirectory(0)) else None
  {
    if |path| > 1 && |x| > 1 && x[0] == path[0] {
      assert complete || Public(path[1..], rules);
      ChainLook(path[1..], leaf, x[1..], complete, rules);
      assert path == [path[0]] + path[1..] && x == [x[0]] + x[1..];
    } else if |x| == 1 && |path| == 1 && x[0] == path[0] {
      assert x == path;
    }
  }

  lemma MergedLook(x: Node, y: Node, path: Path, complete: bool, rules: Rules)
    requires x.Directory? && y.Directory?
    ensures var merged := Directory(0, false, x.children + y.children);
            Look(merged, path, complete, rules) ==
            if path != [] && path[0] in y.children then Look(y, path, complete, rules) else Look(x, path, complete, rules)
    ensures path == [] || path[0] !in y.children ==> Look(y, path, complete, rules).None?
  {
  }

  lemma {:induction false} ForkLook(p: Path, q: Path, a: Option<Node>, b: Option<Node>, x: Path, complete: bool, rules: Rules)
    requires Part(p, q) && LeafOk(a) && LeafOk(b) && (complete || (Public(p, rules) && Public(q, rules)))
    ensures Look(Fork(p, q, a, b), x, complete, rules) ==
            if x == p then LeafKept(a, complete)
            else if x == q then LeafKept(b, complete)
            else if complete && (Leads(x, p) || Leads(x, q)) then Some(KeptDirectory(0)) else None
  {
    hide LeafKept, LeafOk;
    if p[0] == q[0] {
      if |x| > 1 && x[0] == p[0] {
        assert complete || (Public(p[1..], rules) && Public(q[1..], rules));
        ForkLook(p[1..], q[1..], a, b, x[1..], complete, rules);
        assert p == [p[0]] + p[1..] && q == [q[0]] + q[1..] && x == [x[0]] + x[1..];
      }
    } else {
      PartedLook(p, q, a, b, x, complete, rules);
    }
  }

  lemma PartedLook(p: Path, q: Path, a: Option<Node>, b: Option<Node>, x: Path, complete: bool, rules: Rules)
    requires Part(p, q) && p[0] != q[0] && LeafOk(a) && LeafOk(b) && (complete || (Public(p, rules) && Public(q, rules)))
    ensures Look(Fork(p, q, a, b), x, complete, rules) ==
            if x == p then LeafKept(a, complete)
            else if x == q then LeafKept(b, complete)
            else if complete && (Leads(x, p) || Leads(x, q)) then Some(KeptDirectory(0)) else None
  {
    hide Look, LeafKept, Public;
    MergedLook(Chain(p, a), Chain(q, b), x, complete, rules);
    ChainLook(p, a, x, complete, rules);
    ChainLook(q, b, x, complete, rules);
    ChainNames(p, a);
    ChainNames(q, b);
    hide Chain;
  }

  lemma ChainNames(path: Path, leaf: Option<Node>)
    requires path != []
    ensures forall name | name in Chain(path, leaf).children :: name == path[0]
  {
  }

  // ----- their size -----

  lemma {:induction false} JoinedPrefix(path: Path, k: nat)
    requires ProperPath(path) && 0 < k <= |path|
    ensures |Joined(path[..k])| <= |Joined(path)|
  {
    if k < |path| {
      assert ProperPath(path[1..]);
      if k > 1 {
        assert path[..k][1..] == path[1..][..k - 1];
        JoinedPrefix(path[1..], k - 1);
      }
    } else {
      assert path[..k] == path;
    }
  }

  lemma {:induction false} ChainOrdinary(path: Path, k: nat, leaf: Option<Node>, rules: Rules)
    requires k < |path| && ProperPath(path) && |Joined(path)| <= MAX_PATH
    requires leaf.Some? ==> leaf.value.File? && OrdinaryEntry(leaf.value, path, rules)
    ensures Ordinary(Chain(path[k..], leaf), path[..k], rules)
    decreases |path| - k
  {
    hide Joined, Slashed, ProperPath;
    assert path[k..][0] == path[k] && path[k..][1..] == path[k + 1..] && path[..k] + [path[k]] == path[..k + 1];
    if k + 1 == |path| {
      assert path[..k + 1] == path;
    } else {
      JoinedPrefix(path, k + 1);
      ChainOrdinary(path, k + 1, leaf, rules);
    }
  }

  lemma {:induction false} ForkOrdinary(p: Path, q: Path, k: nat, a: Option<Node>, b: Option<Node>, rules: Rules)
    requires k < |p| && k < |q| && p[..k] == q[..k] && Part(p[k..], q[k..])
    requires ProperPath(p) && ProperPath(q) && |Joined(p)| <= MAX_PATH && |Joined(q)| <= MAX_PATH
    requires a.Some? ==> a.value.File? && OrdinaryEntry(a.value, p, rules)
    requires b.Some? ==> b.value.File? && OrdinaryEntry(b.value, q, rules)
    ensures Ordinary(Fork(p[k..], q[k..], a, b), p[..k], rules)
    decreases |p| - k
  {
    hide Joined, Slashed, ProperPath, OrdinaryEntry, Chain;
    if p[k] == q[k] {
      assert p[k..][1..] == p[k + 1..] && q[k..][1..] == q[k + 1..];
      assert p[..k] + [p[k]] == p[..k + 1] == q[..k + 1];
      JoinedPrefix(p, k + 1);
      ForkOrdinary(p, q, k + 1, a, b, rules);
      ShortDirectory(Fork(p[k + 1..], q[k + 1..], a, b), p[..k + 1], rules);
    } else {
      ChainOrdinary(p, k, a, rules);
      ChainOrdinary(q, k, b, rules);
      MergedOrdinary(Chain(p[k..], a), Chain(q[k..], b), p[..k], rules);
    }
  }

  lemma ShortDirectory(node: Node, path: Path, rules: Rules)
    requires node.Directory? && !node.mount && |Joined(path)| <= MAX_PATH
    ensures OrdinaryEntry(node, path, rules)
  {
  }

  lemma MergedOrdinary(x: Node, y: Node, path: Path, rules: Rules)
    requires x.Directory? && y.Directory? && Ordinary(x, path, rules) && Ordinary(y, path, rules)
    ensures Ordinary(Directory(0, false, x.children + y.children), path, rules)
  {
    hide OrdinaryEntry;
  }

  lemma {:induction false} DistinctFit(names: seq<string>, all: set<string>)
    requires Sorting.Distinct(names) && forall i | 0 <= i < |names| :: names[i] in all
    ensures |names| <= |all|
  {
    if names != [] {
      DistinctFit(names[..|names| - 1], all - {names[|names| - 1]});
    }
  }

  lemma TwoLoads(names: seq<string>, x: string, y: string, node: Node, path: Path, listing: Path -> seq<string>)
    requires node.Directory? && Sorting.Distinct(names) && forall i | 0 <= i < |names| :: names[i] == x || names[i] == y
    ensures var (load, lx, ly) := (LoadBelow(names, node, path, listing), LoadAt(x, node, path, listing), LoadAt(y, node, path, listing));
            && load.names <= lx.names + (if x == y then 0 else ly.names)
            && load.bytes <= lx.bytes + (if x == y then 0 else ly.bytes)
  {
    hide LoadAt;
    DistinctFit(names, {x, y});
    if |names| == 2 {
      assert names[0] != names[1];
      assert names[..1] == [names[0]] && names[..1][..0] == [];
      assert LoadBelow([], node, path, listing) == Load(0, 0);
      assert LoadBelow(names[..1], node, path, listing) == LoadAt(names[0], node, path, listing);
    } else if |names| == 1 {
      assert names[..0] == [];
      assert LoadBelow([], node, path, listing) == Load(0, 0);
    }
  }

  /** A directory with no names but these two. */
  lemma DirectoryLoad(node: Node, x: string, y: string, path: Path, listing: Path -> seq<string>)
    requires node.Directory? && Lists(listing, node, path) && forall name | name in node.children :: name == x || name == y
    ensures var (load, lx, ly) := (LoadOf(node, path, listing), LoadAt(x, node, path, listing), LoadAt(y, node, path, listing));
            && load.names <= lx.names + (if x == y then 0 else ly.names)
            && load.bytes <= lx.bytes + (if x == y then 0 else ly.bytes)
  {
    hide LoadAt, LoadBelow, InOrder;
    ListedOnce(listing(path), node.children);
    var names := InOrder(listing(path), node.children, true) + InOrder(listing(path), node.children, false);
    BothDistinct(InOrder(listing(path), node.children, true), InOrder(listing(path), node.children, false), node.children);
    TwoLoads(names, x, y, node, path, listing);
  }

  lemma BothDistinct(d: seq<string>, f: seq<string>, children: map<string, Node>)
    requires Sorting.Distinct(d) && Sorting.Distinct(f)
    requires forall name :: name in d <==> name in children && DirectoryLike(children[name])
    requires forall name :: name in f <==> name in children && !DirectoryLike(children[name])
    ensures Sorting.Distinct(d + f) && forall i | 0 <= i < |d + f| :: (d + f)[i] in children
  {
    hide DirectoryLike;
    assert forall i | 0 <= i < |d| :: d[i] in d;
    assert forall i | 0 <= i < |f| :: f[i] in f;
  }

  /** What the next name of a chain adds in any directory that has the chain's child there. */
  lemma {:induction false} BranchLoad(path: Path, k: nat, leaf: Option<Node>, node: Node, listing: Path -> seq<string>)
    requires k < |path| && LeafOk(leaf) && node.Directory? && Lists(listing, node, path[..k])
    requires SameAt(node, Chain(path[k..], leaf), path[k])
    ensures var load := LoadAt(path[k], node, path[..k], listing);
            load.names <= |path| - k && load.bytes <= LeafLoad(leaf)
    decreases |path| - k, 0
  {
    hide LoadOf;
    assert path[k..][0] == path[k] && path[k..][1..] == path[k + 1..] && path[..k] + [path[k]] == path[..k + 1];
    if k + 1 < |path| {
      ChainLoad(path, k + 1, leaf, listing);
    }
  }

  predicate SameAt(x: Node, y: Node, name: string)
    requires x.Directory? && y.Directory?
  {
    (name in x.children <==> name in y.children) && (name in x.children ==> x.children[name] == y.children[name])
  }

  lemma {:induction false} ChainLoad(path: Path, k: nat, leaf: Option<Node>, listing: Path -> seq<string>)
    requires k < |path| && LeafOk(leaf) && Lists(listing, Chain(path[k..], leaf), path[..k])
    ensures var load := LoadOf(Chain(path[k..], leaf), path[..k], listing);
            load.names <= |path| - k && load.bytes <= LeafLoad(leaf)
    decreases |path| - k, 1
  {
    hide LoadOf, Lists, LoadAt;
    var node := Chain(path[k..], leaf);
    assert path[k..][0] == path[k];
    DirectoryLoad(node, path[k], path[k], path[..k], listing);
    BranchLoad(path, k, leaf, node, listing);
  }

  lemma ForkParts(p: Path, q: Path, a: Option<Node>, b: Option<Node>)
    requires Part(p, q) && p[0] != q[0]
    ensures SameAt(Fork(p, q, a, b), Chain(p, a), p[0]) && SameAt(Fork(p, q, a, b), Chain(q, b), q[0])
    ensures forall name | name in Fork(p, q, a, b).children :: name == p[0] || name == q[0]
  {
  }

  lemma {:induction false} ForkLoad(p: Path, q: Path, k: nat, a: Option<Node>, b: Option<Node>, listing: Path -> seq<string>)
    requires k < |p| && k < |q| && p[..k] == q[..k] && Part(p[k..], q[k..]) && LeafOk(a) && LeafOk(b)
    requires Lists(listing, Fork(p[k..], q[k..], a, b), p[..k])
    ensures var load := LoadOf(Fork(p[k..], q[k..], a, b), p[..k], listing);
            load.names <= |p| - k + |q| - k && load.bytes <= LeafLoad(a) + LeafLoad(b)
    decreases |p| - k
  {
    hide LoadOf, Chain, LeafOk, LeafLoad, SameAt;
    var node := Fork(p[k..], q[k..], a, b);
    if p[k] == q[k] {
      assert p[k..][1..] == p[k + 1..] && q[k..][1..] == q[k + 1..];
      assert p[..k] + [p[k]] == p[..k + 1] == q[..k + 1];
      DirectoryLoad(node, p[k], p[k], p[..k], listing);
      ForkLoad(p, q, k + 1, a, b, listing);
    } else {
      ForkParts(p[k..], q[k..], a, b);
      assert p[k..][0] == p[k] && q[k..][0] == q[k];
      DirectoryLoad(node, p[k], q[k], p[..k], listing);
      hide Lists, LoadAt, Fork;
      BranchLoad(p, k, a, node, listing);
      BranchLoad(q, k, b, node, listing);
    }
  }

  // ----- what the manifest tells apart -----

  /** The other tree keeps at q the file this one keeps at p, and the same everywhere else. */
  ghost predicate Moved(root: Node, other: Node, p: Path, q: Path, complete: bool, rules: Rules) {
    && p != q && LookFrom(root, p, complete, rules).Some? && LookFrom(root, p, complete, rules).value.KeptFile?
    && LookFrom(root, q, complete, rules).None? && LookFrom(other, p, complete, rules).None?
    && LookFrom(other, q, complete, rules) == LookFrom(root, p, complete, rules)
    && forall path | path != p && path != q :: LookFrom(other, path, complete, rules) == LookFrom(root, path, complete, rules)
  }

  /** Moving any one kept file to any other path that prints alike goes unnoticed, in both modes. */
  lemma MovedFileUnnoticed(root: Node, other: Node, listing: Path -> seq<string>, listing': Path -> seq<string>,
                           p: Path, q: Path, complete: bool, rules: Rules)
    requires TotalOrder(rules.before) && Lists(listing, root, []) && Lists(listing', other, [])
    requires ManifestOf(root, listing, complete, rules).Some? && ManifestOf(other, listing', complete, rules).Some?
    requires Moved(root, other, p, q, complete, rules) && PrintAlike(p, q)
    ensures ManifestOf(root, listing, complete, rules) == ManifestOf(other, listing', complete, rules)
    ensures !Agree(root, other, complete, rules)
  {
    hide Snapshot, Lists, LookFrom, Joined, Slashed, TotalOrder;
    SnapshotExact(root, listing, complete, rules);
    SnapshotExact(other, listing', complete, rules);
    var a, b := Snapshot(root, listing, complete, rules).value, Snapshot(other, listing', complete, rules).value;
    var kept := LookFrom(root, p, complete, rules).value;
    assert Entry(p, kept) in a;
    var k :| 0 <= k < |a| && a[k] == Entry(p, kept);
    forall e: Entry ensures e in b <==> (e in a && e != Entry(p, kept)) || e == Entry(q, kept) {
      assert e.path == p || e.path == q || (e in a <==> e in b);
    }
    assert forall i | 0 <= i < |a| :: a[i] in a && a[i].path != q;
    assert RowOf(a[k]) == RowOf(Entry(q, kept));
    EntryReplaced(a, b, k, Entry(q, kept));
    ManifestsEqualIff(a, b, rules);
  }

  lemma EntryReplaced(a: seq<Entry>, b: seq<Entry>, k: nat, e: Entry)
    requires OncePerPath(a) && OncePerPath(b) && k < |a|
    requires forall i | 0 <= i < |a| :: a[i].path != e.path
    requires forall x: Entry :: x in b <==> (x in a && x != a[k]) || x == e
    requires RowOf(a[k]) == RowOf(e)
    ensures multiset(RowsOf(a)) == multiset(RowsOf(b))
  {
    hide RowOf;
    var c := a[k := e];
    forall x: Entry ensures multiset(c)[x] == multiset(b)[x] {
      ReplacedMembers(a, k, e, x);
      CountInOnce(c, x);
      CountInOnce(b, x);
    }
    assert multiset(c) == multiset(b);
    PermutedRows(c, b);
    assert RowsOf(c) == RowsOf(a);
  }

  lemma ReplacedMembers(a: seq<Entry>, k: nat, e: Entry, x: Entry)
    requires OncePerPath(a) && k < |a| && forall i | 0 <= i < |a| :: a[i].path != e.path
    ensures OncePerPath(a[k := e])
    ensures x in a[k := e] <==> (x in a && x != a[k]) || x == e
  {
    var c := a[k := e];
    assert c[k] == e;
    if x in a && x != a[k] {
      var i :| 0 <= i < |a| && a[i] == x;
      assert c[i] == x;
    }
    if x in c && x != e {
      var i :| 0 <= i < |c| && c[i] == x;
      assert a[i] == x && a[i].path != a[k].path;
    }
  }

  /** A file can be kept at the path, whatever else is in the tree. */
  predicate Storable(path: Path, complete: bool, rules: Rules) {
    && path != [] && ProperPath(path) && (complete || Public(path, rules))
    && |Joined(path)| <= MAX_PATH && !rules.marked(Slashed(Joined(path)))
  }

  lemma {:induction false} AlikeParts(p: Path, q: Path)
    requires p != [] && q != [] && p != q && ProperPath(p) && ProperPath(q) && |Joined(p)| == |Joined(q)|
    ensures Part(p, q)
  {
    assert ProperName(p[0]) && ProperName(q[0]);
    if p[0] == q[0] {
      if |p| > 1 { assert ProperPath(p[1..]); JoinedProper(p[1..]); }
      if |q| > 1 { assert ProperPath(q[1..]); JoinedProper(q[1..]); }
      assert p == [p[0]] + p[1..] && q == [q[0]] + q[1..];
      if |p| > 1 && |q| > 1 {
        AlikeParts(p[1..], q[1..]);
      }
    }
  }

  lemma AlikeStorable(p: Path, q: Path, complete: bool, rules: Rules)
    requires Storable(p, complete, rules) && Storable(q, complete, rules) && p != q && PrintAlike(p, q)
    ensures Part(p, q)
  {
    hide Joined, ProperPath, Public;
    assert |Slashed(Joined(p))| == |Slashed(Joined(q))|;
    AlikeParts(p, q);
  }

  function Leaf(content: seq<Byte>): Node {
    File(0, content, true, 1, false)
  }

  /** Such a tree is accepted, however it is listed. */
  lemma ForkAccepted(p: Path, q: Path, a: Option<Node>, b: Option<Node>, listing: Path -> seq<string>, complete: bool, rules: Rules)
    requires Part(p, q) && ProperPath(p) && ProperPath(q) && |Joined(p)| <= MAX_PATH && |Joined(q)| <= MAX_PATH
    requires LeafOk(a) && LeafOk(b) && LeafLoad(a) + LeafLoad(b) <= MAX_TOTAL_BYTES
    requires a.Some? ==> OrdinaryEntry(a.value, p, rules)
    requires b.Some? ==> OrdinaryEntry(b.value, q, rules)
    requires Lists(listing, Fork(p, q, a, b), [])
    ensures ManifestOf(Fork(p, q, a, b), listing, complete, rules).Some?
  {
    hide Walk, Lists, Ordinary, OrdinaryEntry, Joined, LoadOf, Fork, ProperPath;
    assert p[0..] == p && q[0..] == q && p[..0] == [] && q[..0] == [];
    ForkOrdinary(p, q, 0, a, b, rules);
    ForkLoad(p, q, 0, a, b, listing);
    ShortPath(p);
    ShortPath(q);
    var root := Fork(p, q, a, b);
    var s := State(if complete then [Entry([], KeptDirectory(root.mode))] else [], 0, 0);
    OrdinaryAccepted(s, root, [], listing, complete, rules);
  }

  /** The file at p alone, and the file at q alone, both among the directories of both paths. */
  lemma ForkMoves(p: Path, q: Path, file: Node, complete: bool, rules: Rules)
    requires Part(p, q) && p != q && file.File? && file.regular && (complete || (Public(p, rules) && Public(q, rules)))
    ensures Moved(Fork(p, q, Some(file), None), Fork(p, q, None, Some(file)), p, q, complete, rules)
  {
    hide Fork, Look, Public;
    var root, other := Fork(p, q, Some(file), None), Fork(p, q, None, Some(file));
    forall x ensures LookFrom(root, x, complete, rules) ==
                       if x == p then Some(KeptOf(file, complete)) else if x == q then None else LookFrom(other, x, complete, rules)
      ensures x == p ==> LookFrom(other, x, complete, rules).None?
      ensures x == q ==> LookFrom(other, x, complete, rules) == Some(KeptOf(file, complete))
    {
      ForkLook(p, q, Some(file), None, x, complete, rules);
      ForkLook(p, q, None, Some(file), x, complete, rules);
      ForkModes(p, q, Some(file), None);
      ForkModes(p, q, None, Some(file));
    }
  }

  lemma ForkModes(p: Path, q: Path, a: Option<Node>, b: Option<Node>)
    requires Part(p, q)
    ensures Fork(p, q, a, b).mode == 0
  {
    hide Chain;
  }

  /** It keeps no file but those given it, and directories on the way. */
  lemma ForkKeeps(p: Path, q: Path, a: Option<Node>, b: Option<Node>, complete: bool, rules: Rules)
    requires Part(p, q) && ProperPath(p) && ProperPath(q) && LeafOk(a) && LeafOk(b)
    requires complete || (Public(p, rules) && Public(q, rules))
    ensures ProperKept(Fork(p, q, a, b), complete, rules)
    ensures forall x | KeepsFile(Fork(p, q, a, b), x, complete, rules) :: x == p || x == q
  {
    hide Fork, Look, Public, ProperPath, Leads;
    var root := Fork(p, q, a, b);
    forall x | LookFrom(root, x, complete, rules).Some?
      ensures ProperPath(x) && (KeepsFile(root, x, complete, rules) ==> x == p || x == q)
    {
      ForkLook(p, q, a, b, x, complete, rules);
      if x == [] { NoNames(x); }
      if Leads(x, p) { LeadsProper(x, p); }
      if Leads(x, q) { LeadsProper(x, q); }
    }
  }

  lemma NoNames(x: Path)
    requires x == []
    ensures ProperPath(x)
  {
  }

  lemma {:induction false} LeadsProper(x: Path, path: Path)
    requires Leads(x, path) && ProperPath(path)
    ensures ProperPath(x)
  {
    assert ProperName(path[0]);
    if |x| > 1 {
      assert ProperPath(path[1..]);
      LeadsProper(x[1..], path[1..]);
      assert x == [x[0]] + x[1..];
    }
  }

  /**
   * Any two different paths that print alike collide, in both modes: the same file at the one or at the other, among
   * the directories of both, makes two different accepted trees with one manifest, whatever the file and however the
   * trees are listed.
   */
  lemma AlikeCollide(p: Path, q: Path, content: seq<Byte>, listing: Path -> seq<string>, listing': Path -> seq<string>,
                     complete: bool, rules: Rules)
    requires TotalOrder(rules.before) && p != q && PrintAlike(p, q)
    requires Storable(p, complete, rules) && Storable(q, complete, rules) && |content| <= MAX_FILE_BYTES
    ensures Part(p, q)
    ensures var root, other := Fork(p, q, Some(Leaf(content)), None), Fork(p, q, None, Some(Leaf(content)));
            Lists(listing, root, []) && Lists(listing', other, []) ==>
              && ManifestOf(root, listing, complete, rules).Some?
              && ManifestOf(root, listing, complete, rules) == ManifestOf(other, listing', complete, rules)
              && !Agree(root, other, complete, rules)
  {
    hide Joined, ProperPath, Public, ManifestOf, Lists, Fork, TotalOrder, Agree, Part, Moved;
    var file := Leaf(content);
    AlikeStorable(p, q, complete, rules);
    var root, other := Fork(p, q, Some(file), None), Fork(p, q, None, Some(file));
    if Lists(listing, root, []) && Lists(listing', other, []) {
      ForkAccepted(p, q, Some(file), None, listing, complete, rules);
      ForkAccepted(p, q, None, Some(file), listing', complete, rules);
      ForkMoves(p, q, file, complete, rules);
      MovedFileUnnoticed(root, other, listing, listing', p, q, complete, rules);
    }
  }

  // ----- which sets of file paths the manifest tells apart -----

  /** An accepted tree that keeps no files but at these paths. */
  ghost predicate Stored(root: Node, listing: Path -> seq<string>, paths: iset<Path>, complete: bool, rules: Rules) {
    && Lists(listing, root, []) && ManifestOf(root, listing, complete, rules).Some? && ProperKept(root, complete, rules)
    && forall path | KeepsFile(root, path, complete, rules) :: path in paths
  }

  /** Among accepted trees whose files are at these paths, one manifest means one tree, in everything kept. */
  ghost predicate ToldApart(paths: iset<Path>, complete: bool, rules: Rules) {
    forall root, other, listing: Path -> seq<string>, listing': Path -> seq<string>
      | && Stored(root, listing, paths, complete, rules) && Stored(other, listing', paths, complete, rules)
        && ManifestOf(root, listing, complete, rules) == ManifestOf(other, listing', complete, rules) ::
      Agree(root, other, complete, rules)
  }

  /** The walk raises at a file whose path is too long or marked. */
  ghost predicate FilesFitted(entries: seq<Entry>, rules: Rules) {
    forall e | e in entries && e.kept.KeptFile? ::
      |Slashed(Joined(e.path))| <= MAX_PATH && !rules.marked(Slashed(Joined(e.path)))
  }

  lemma {:induction false} DirectoriesFitted(s: State, names: seq<string>, node: Node, path: Path, complete: bool, rules: Rules)
    requires node.Directory? && (forall i | 0 <= i < |names| :: names[i] in node.children) && FilesFitted(s.entries, rules)
    ensures var t := VisitDirectories(s, names, node, path, complete); t.Some? ==> FilesFitted(t.value.entries, rules)
  {
    hide Joined, Slashed;
    if names != [] {
      DirectoriesFitted(s, names[..|names| - 1], node, path, complete, rules);
    }
  }

  lemma {:induction false} NamesFitted(s: State, names: seq<string>, node: Node, path: Path, complete: bool, rules: Rules)
    requires node.Directory? && (forall i | 0 <= i < |names| :: names[i] in node.children) && FilesFitted(s.entries, rules)
    ensures var t := VisitFiles(s, names, node, path, complete, rules); t.Some? ==> FilesFitted(t.value.entries, rules)
  {
    hide Joined, Slashed;
    if names != [] {
      NamesFitted(s, names[..|names| - 1], node, path, complete, rules);
    }
  }

  lemma {:induction false} WalkFitted(s: State, node: Node, path: Path, listing: Path -> seq<string>, complete: bool, rules: Rules)
    requires node.Directory? && FilesFitted(s.entries, rules)
    ensures var t := Walk(s, node, path, listing, complete, rules); t.Some? ==> FilesFitted(t.value.entries, rules)
    decreases node, 1, 0
  {
    hide InOrder, VisitDirectories, VisitFiles, Descend, FilesFitted;
    var names := listing(path);
    var directories, files := InOrder(names, node.children, true), InOrder(names, node.children, false);
    InOrderNames(names, node.children);
    var s0 := s.(seen := s.seen + |directories| + |files|);
    DirectoriesFitted(s0, directories, node, path, complete, rules);
    var a := VisitDirectories(s0, directories, node, path, complete);
    if a.Some? {
      NamesFitted(a.value, files, node, path, complete, rules);
      var b := VisitFiles(a.value, files, node, path, complete, rules);
      if b.Some? {
        DescentFitted(b.value, directories, node, path, listing, complete, rules);
      }
    }
  }

  lemma {:induction false} DescentFitted(s: State, names: seq<string>, node: Node, path: Path, listing: Path -> seq<string>,
                                         complete: bool, rules: Rules)
    requires node.Directory? && (forall i | 0 <= i < |names| :: names[i] in node.children) && FilesFitted(s.entries, rules)
    ensures var t := Descend(s, names, node, path, listing, complete, rules); t.Some? ==> FilesFitted(t.value.entries, rules)
    decreases node, 0, |names|
  {
    hide Walk, Entered, FilesFitted;
    if names != [] {
      var n := |names| - 1;
      DescentFitted(s, names[..n], node, path, listing, complete, rules);
      var t := Descend(s, names[..n], node, path, listing, complete, rules);
      if t.Some? && node.children[names[n]].Directory? {
        WalkFitted(t.value, node.children[names[n]], path + [names[n]], listing, complete, rules);
      }
    }
  }

  lemma {:induction false} LookPublic(node: Node, path: Path, rules: Rules)
    requires Look(node, path, false, rules).Some?
    ensures path != [] && Public(path, rules)
    decreases path
  {
    if |path| > 1 {
      LookPublic(node.children[path[0]], path[1..], rules);
    }
  }

  /** Where an accepted tree keeps a file, one can be kept. */
  lemma KeptStorable(root: Node, listing: Path -> seq<string>, path: Path, complete: bool, rules: Rules)
    requires Lists(listing, root, []) && ManifestOf(root, listing, complete, rules).Some?
    requires KeepsFile(root, path, complete, rules) && ProperPath(path)
    ensures Storable(path, complete, rules)
  {
    hide Lists, Walk, Look, Public, ProperPath, Joined, Slashed, FilesFitted;
    SnapshotExact(root, listing, complete, rules);
    var s := State(if complete then [Entry([], KeptDirectory(root.mode))] else [], 0, 0);
    NoFiles(s.entries, rules);
    WalkFitted(s, root, [], listing, complete, rules);
    var entries := Snapshot(root, listing, complete, rules).value;
    var e := Entry(path, LookFrom(root, path, complete, rules).value);
    assert e in entries;
    FittedEntry(entries, e, rules);
    LookNeedsPath(root, complete, rules);
    if !complete { LookPublic(root, path, rules); }
  }

  lemma NoFiles(entries: seq<Entry>, rules: Rules)
    requires forall e | e in entries :: e.kept.KeptDirectory?
    ensures FilesFitted(entries, rules)
  {
  }

  lemma FittedEntry(entries: seq<Entry>, e: Entry, rules: Rules)
    requires FilesFitted(entries, rules) && e in entries && e.kept.KeptFile?
    ensures |Joined(e.path)| <= MAX_PATH && !rules.marked(Slashed(Joined(e.path)))
  {
  }

  /**
   * The manifest tells trees with files at these paths apart exactly when no two of the paths print alike, leaving out
   * paths at which no accepted tree keeps a file.
   */
  lemma ToldApartIff(paths: iset<Path>, complete: bool, rules: Rules)
    requires TotalOrder(rules.before)
    ensures ToldApart(paths, complete, rules) <==>
              forall p, q | p in paths && q in paths && Storable(p, complete, rules) && Storable(q, complete, rules)
                            && PrintAlike(p, q) :: p == q
  {
    hide ManifestOf, Lists, TotalOrder, Storable, PrintAlike, Agree;
    if forall p, q | p in paths && q in paths && Storable(p, complete, rules) && Storable(q, complete, rules)
                     && PrintAlike(p, q) :: p == q {
      hide LookFrom, ProperPath;
      forall root, other, listing: Path -> seq<string>, listing': Path -> seq<string>
        | && Stored(root, listing, paths, complete, rules) && Stored(other, listing', paths, complete, rules)
          && ManifestOf(root, listing, complete, rules) == ManifestOf(other, listing', complete, rules)
        ensures Agree(root, other, complete, rules)
      {
        forall p, q | KeepsFile(root, p, complete, rules) && KeepsFile(other, q, complete, rules) && PrintAlike(p, q)
          ensures p == q
        {
          KeptStorable(root, listing, p, complete, rules);
          KeptStorable(other, listing', q, complete, rules);
        }
        ApartManifestsIff(root, other, listing, listing', complete, rules);
      }
    }
    forall p, q | p in paths && q in paths && Storable(p, complete, rules) && Storable(q, complete, rules)
                  && PrintAlike(p, q) && p != q
      ensures !ToldApart(paths, complete, rules)
    {
      AlikeNotTold(paths, p, q, complete, rules);
    }
  }

  lemma AlikeNotTold(paths: iset<Path>, p: Path, q: Path, complete: bool, rules: Rules)
    requires TotalOrder(rules.before) && p in paths && q in paths && PrintAlike(p, q) && p != q
    requires Storable(p, complete, rules) && Storable(q, complete, rules)
    ensures !ToldApart(paths, complete, rules)
  {
    hide ManifestOf, Lists, TotalOrder, PrintAlike, KeepsFile, ProperKept, Agree, Fork, Part, Public, ProperPath;
    var a, b := Some(Leaf([])), None;
    AlikeStorable(p, q, complete, rules);
    var root, other := Fork(p, q, a, b), Fork(p, q, b, a);
    ListingExists(root);
    ListingExists(other);
    var listing :| Lists(listing, root, []);
    var listing' :| Lists(listing', other, []);
    AlikeCollide(p, q, [], listing, listing', complete, rules);
    ForkKeeps(p, q, a, b, complete, rules);
    ForkKeeps(p, q, b, a, complete, rules);
    assert Stored(root, listing, paths, complete, rules) && Stored(other, listing', paths, complete, rules);
  }
}
