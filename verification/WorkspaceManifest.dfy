/** The fingerprint of a worker's directory tree (benchmarks/boundary.py, workspace_manifest_sha256). */
module WorkspaceManifest {
  import opened Common
  import opened Base64
  import Sorting
  import opened TextOrder

  const MAX_FILES: nat := 10_000
  const MAX_ENTRIES: nat := 20_000
  const MAX_FILE_BYTES: nat := 64 * 1024 * 1024
  const MAX_TOTAL_BYTES: nat := 512 * 1024 * 1024
  const MAX_PATH: nat := 1_024

  datatype Node =
    | File(mode: nat, content: seq<Byte>, regular: bool, links: nat, mount: bool)
    | Directory(mode: nat, mount: bool, children: map<string, Node>)
    | Link(toDirectory: bool)

  type Path = seq<string>

  /** The names that count as ignored or private, up to case, and the order Python gives rows. */
  datatype Rules = Rules(ignoredDirectory: string -> bool, ignoredFile: string -> bool, marked: string -> bool,
                         before: (Row, Row) -> bool)

  /** What a snapshot keeps of one path; a basic one keeps only the contents of files. */
  datatype Kept = KeptDirectory(mode: nat) | KeptFile(permissions: Option<nat>, content: seq<Byte>)

  /** A manifest row; its digest stands for the content it is taken of. */
  datatype Row = Row(path: string, kept: Kept)

  datatype Entry = Entry(path: Path, kept: Kept)

  // ----- names and paths -----

  function Joined(path: Path): string {
    if path == [] then "." else if |path| == 1 then path[0] else path[0] + "/" + Joined(path[1..])
  }

  /** relative.replace("\\", "/") */
  function Slashed(s: string): (r: string)
    ensures |r| == |s| && forall i | 0 <= i < |s| :: r[i] == if s[i] == '\\' then '/' else s[i]
  {
    seq(|s|, i requires 0 <= i < |s| => if s[i] == '\\' then '/' else s[i])
  }

  /** The row of an entry: the separators of a file's path are normalised, those of a directory's are not. */
  function RowOf(e: Entry): Row {
    Row(if e.kept.KeptFile? then Slashed(Joined(e.path)) else Joined(e.path), e.kept)
  }

  function RowsOf(entries: seq<Entry>): (rows: seq<Row>)
    ensures |rows| == |entries| && forall i | 0 <= i < |entries| :: rows[i] == RowOf(entries[i])
  {
    seq(|entries|, i requires 0 <= i < |entries| => RowOf(entries[i]))
  }

  predicate DirectoryLike(node: Node) {
    node.Directory? || (node.Link? && node.toDirectory)
  }

  function NamesWhere(names: seq<string>, children: map<string, Node>, directories: bool): seq<string> {
    if names == [] then []
    else
      var n := |names| - 1;
      NamesWhere(names[..n], children, directories)
      + if names[n] in children && DirectoryLike(children[names[n]]) == directories then [names[n]] else []
  }

  /** sorted(names) or sorted(filenames) of a listing. */
  function InOrder(names: seq<string>, children: map<string, Node>, directories: bool): seq<string> {
    Sorting.SortBy(NamesWhere(names, children, directories), Before)
  }

  // ----- the walk -----

  datatype State = State(entries: seq<Entry>, bytes: nat, seen: nat)

  function VisitDirectory(s: State, path: Path, node: Node, complete: bool): Option<State> {
    if !node.Directory? then None
    else if !complete then Some(s)
    else if |Joined(path)| > MAX_PATH || node.mount then None
    else Some(s.(entries := s.entries + [Entry(path, KeptDirectory(node.mode))]))
  }

  predicate Skipped(name: string, node: Node, complete: bool, rules: Rules)
    requires node.File?
  {
    !complete && (rules.ignoredFile(name) || !node.regular)
  }

  function KeptOf(node: Node, complete: bool): Kept
    requires node.File?
  {
    KeptFile(if complete then Some(node.mode) else None, node.content)
  }

  function VisitFile(s: State, path: Path, node: Node, complete: bool, rules: Rules): Option<State>
    requires path != []
  {
    if !node.File? || (complete && (!node.regular || node.links != 1 || node.mount)) then None
    else if Skipped(path[|path| - 1], node, complete, rules) then Some(s)
    else
      var relative := Slashed(Joined(path));
      if |relative| > MAX_PATH || rules.marked(relative) || |s.entries| >= MAX_FILES || |node.content| > MAX_FILE_BYTES
         || s.bytes + |node.content| > MAX_TOTAL_BYTES then None
      else Some(s.(entries := s.entries + [Entry(path, KeptOf(node, complete))], bytes := s.bytes + |node.content|))
  }

  function VisitDirectories(s: State, names: seq<string>, node: Node, path: Path, complete: bool): Option<State>
    requires node.Directory? && forall i | 0 <= i < |names| :: names[i] in node.children
  {
    if names == [] then Some(s)
    else
      var n := |names| - 1;
      var t := VisitDirectories(s, names[..n], node, path, complete);
      if t.None? then None else VisitDirectory(t.value, path + [names[n]], node.children[names[n]], complete)
  }

  function VisitFiles(s: State, names: seq<string>, node: Node, path: Path, complete: bool, rules: Rules): Option<State>
    requires node.Directory? && forall i | 0 <= i < |names| :: names[i] in node.children
  {
    if names == [] then Some(s)
    else
      var n := |names| - 1;
      var t := VisitFiles(s, names[..n], node, path, complete, rules);
      if t.None? then None else VisitFile(t.value, path + [names[n]], node.children[names[n]], complete, rules)
  }

  predicate Entered(name: string, complete: bool, rules: Rules) {
    complete || !rules.ignoredDirectory(name)
  }

  /** A directory's own names, then everything below the directories among them that are entered. */
  function Walk(s: State, node: Node, path: Path, listing: Path -> seq<string>, complete: bool, rules: Rules): Option<State>
    requires node.Directory?
    decreases node, 1, 0
  {
    var names := listing(path);
    var directories, files := InOrder(names, node.children, true), InOrder(names, node.children, false);
    InOrderNames(names, node.children);
    if s.seen + |directories| + |files| > MAX_ENTRIES then None
    else
      var a := VisitDirectories(s.(seen := s.seen + |directories| + |files|), directories, node, path, complete);
      if a.None? then None
      else
        var b := VisitFiles(a.value, files, node, path, complete, rules);
        if b.None? then None else Descend(b.value, directories, node, path, listing, complete, rules)
  }

  function Descend(s: State, names: seq<string>, node: Node, path: Path, listing: Path -> seq<string>, complete: bool,
                   rules: Rules): Option<State>
    requires node.Directory? && forall i | 0 <= i < |names| :: names[i] in node.children
    decreases node, 0, |names|
  {
    if names == [] then Some(s)
    else
      var n := |names| - 1;
      var t := Descend(s, names[..n], node, path, listing, complete, rules);
      if t.None? || !node.children[names[n]].Directory? then None
      else if !Entered(names[n], complete, rules) then t
      else Walk(t.value, node.children[names[n]], path + [names[n]], listing, complete, rules)
  }

  lemma {:induction false} NamesWhereIn(names: seq<string>, children: map<string, Node>, directories: bool)
    ensures forall name :: name in NamesWhere(names, children, directories) <==>
              name in names && name in children && DirectoryLike(children[name]) == directories
  {
    if names != [] {
      var n := |names| - 1;
      NamesWhereIn(names[..n], children, directories);
      assert names == names[..n] + [names[n]];
    }
  }

  lemma InOrderIn(names: seq<string>, children: map<string, Node>, directories: bool)
    ensures forall name :: name in InOrder(names, children, directories) <==>
              name in names && name in children && DirectoryLike(children[name]) == directories
  {
    NamesWhereIn(names, children, directories);
    var where, sorted := NamesWhere(names, children, directories), InOrder(names, children, directories);
    forall name ensures name in sorted <==> name in where {
      assert name in sorted <==> name in multiset(sorted);
      assert name in where <==> name in multiset(where);
    }
  }

  lemma InOrderNames(names: seq<string>, children: map<string, Node>)
    ensures forall i | 0 <= i < |InOrder(names, children, true)| :: InOrder(names, children, true)[i] in children
    ensures forall i | 0 <= i < |InOrder(names, children, false)| :: InOrder(names, children, false)[i] in children
  {
    InOrderIn(names, children, true);
    InOrderIn(names, children, false);
  }

  /** A manifest is the digest of its sorted rows, which stands for them. */
  datatype Manifest = Sha256(rows: seq<Row>)

  function Snapshot(root: Node, listing: Path -> seq<string>, complete: bool, rules: Rules): Option<seq<Entry>> {
    if !root.Directory? then None
    else
      var s := Walk(State(if complete then [Entry([], KeptDirectory(root.mode))] else [], 0, 0), root, [], listing, complete, rules);
      if s.None? then None else Some(s.value.entries)
  }

  function ManifestOf(root: Node, listing: Path -> seq<string>, complete: bool, rules: Rules): Option<Manifest> {
    var entries := Snapshot(root, listing, complete, rules);
    if entries.None? then None else Some(Sha256(Sorting.SortBy(RowsOf(entries.value), rules.before)))
  }

  // ----- the walk as it is carried out -----

  lemma {:induction false} DirectoriesFail(s: State, names: seq<string>, i: nat, node: Node, path: Path, complete: bool)
    requires node.Directory? && i <= |names| && (forall j | 0 <= j < |names| :: names[j] in node.children)
    requires VisitDirectories(s, names[..i], node, path, complete).None?
    ensures VisitDirectories(s, names, node, path, complete).None?
    decreases |names|
  {
    hide VisitDirectory;
    assert i == |names| ==> names[..i] == names;
    if i < |names| {
      assert names[..|names| - 1][..i] == names[..i];
      DirectoriesFail(s, names[..|names| - 1], i, node, path, complete);
    }
  }

  lemma {:induction false} FilesFail(s: State, names: seq<string>, i: nat, node: Node, path: Path, complete: bool, rules: Rules)
    requires node.Directory? && i <= |names| && (forall j | 0 <= j < |names| :: names[j] in node.children)
    requires VisitFiles(s, names[..i], node, path, complete, rules).None?
    ensures VisitFiles(s, names, node, path, complete, rules).None?
    decreases |names|
  {
    hide VisitFile;
    assert i == |names| ==> names[..i] == names;
    if i < |names| {
      assert names[..|names| - 1][..i] == names[..i];
      FilesFail(s, names[..|names| - 1], i, node, path, complete, rules);
    }
  }

  lemma {:induction false} DescentFails(s: State, names: seq<string>, i: nat, node: Node, path: Path,
                                        listing: Path -> seq<string>, complete: bool, rules: Rules)
    requires node.Directory? && i <= |names| && (forall j | 0 <= j < |names| :: names[j] in node.children)
    requires Descend(s, names[..i], node, path, listing, complete, rules).None?
    ensures Descend(s, names, node, path, listing, complete, rules).None?
    decreases |names|
  {
    hide Walk, Entered;
    assert i == |names| ==> names[..i] == names;
    if i < |names| {
      assert names[..|names| - 1][..i] == names[..i];
      DescentFails(s, names[..|names| - 1], i, node, path, listing, complete, rules);
    }
  }

  method VisitNames(s: State, directories: seq<string>, files: seq<string>, node: Node, path: Path, complete: bool, rules: Rules)
      returns (r: Option<State>)
    requires node.Directory?
    requires forall i | 0 <= i < |directories| :: directories[i] in node.children
    requires forall i | 0 <= i < |files| :: files[i] in node.children
    ensures r == var a := VisitDirectories(s, directories, node, path, complete);
                 if a.None? then None else VisitFiles(a.value, files, node, path, complete, rules)
  {
    hide VisitDirectory, VisitFile;
    var t := s;
    assert directories[..0] == [] && files[..0] == [];
    for i := 0 to |directories|
      invariant VisitDirectories(s, directories[..i], node, path, complete) == Some(t)
    {
      assert directories[..i + 1][..i] == directories[..i];
      var next := VisitDirectory(t, path + [directories[i]], node.children[directories[i]], complete);
      if next.None? {
        DirectoriesFail(s, directories, i + 1, node, path, complete);
        return None;
      }
      t := next.value;
    }
    assert directories[..|directories|] == directories;
    var u := t;
    for i := 0 to |files|
      invariant VisitFiles(t, files[..i], node, path, complete, rules) == Some(u)
    {
      assert files[..i + 1][..i] == files[..i];
      var next := VisitFile(u, path + [files[i]], node.children[files[i]], complete, rules);
      if next.None? {
        FilesFail(t, files, i + 1, node, path, complete, rules);
        return None;
      }
      u := next.value;
    }
    assert files[..|files|] == files;
    return Some(u);
  }

  /** One directory of os.walk, and then the directories below it that it keeps. */
  method WalkInto(s: State, node: Node, path: Path, listing: Path -> seq<string>, complete: bool, rules: Rules)
      returns (r: Option<State>)
    requires node.Directory?
    ensures r == Walk(s, node, path, listing, complete, rules)
    decreases node
  {
    hide InOrder, VisitDirectories, VisitFiles, Entered;
    var names := listing(path);
    var directories, files := InOrder(names, node.children, true), InOrder(names, node.children, false);
    InOrderNames(names, node.children);
    var seen := s.seen + |directories| + |files|;
    if seen > MAX_ENTRIES { return None; }
    var visited := VisitNames(s.(seen := seen), directories, files, node, path, complete, rules);
    if visited.None? { return None; }
    var t := visited.value;
    assert directories[..0] == [];
    for i := 0 to |directories|
      invariant Descend(visited.value, directories[..i], node, path, listing, complete, rules) == Some(t)
    {
      assert directories[..i + 1][..i] == directories[..i];
      var child := node.children[directories[i]];
      var next := Some(t);
      if !child.Directory? {
        next := None;
      } else if Entered(directories[i], complete, rules) {
        next := WalkInto(t, child, path + [directories[i]], listing, complete, rules);
      }
      if next.None? {
        DescentFails(visited.value, directories, i + 1, node, path, listing, complete, rules);
        return None;
      }
      t := next.value;
    }
    assert directories[..|directories|] == directories;
    return Some(t);
  }

  method Fingerprint(root: Node, listing: Path -> seq<string>, complete: bool, rules: Rules) returns (m: Option<Manifest>)
    ensures m == ManifestOf(root, listing, complete, rules)
  {
    if !root.Directory? { return None; }
    var s := WalkInto(State(if complete then [Entry([], KeptDirectory(root.mode))] else [], 0, 0), root, [], listing, complete, rules);
    if s.None? { return None; }
    return Some(Sha256(Sorting.SortBy(RowsOf(s.value.entries), rules.before)));
  }

  // ----- the listing order does not matter -----

  /** The operating system lists every directory completely, in whatever order. */
  ghost predicate Lists(listing: Path -> seq<string>, node: Node, path: Path)
    decreases node
  {
    node.Directory? ==>
      && multiset(listing(path)) == multiset(node.children.Keys)
      && forall name | name in node.children :: Lists(listing, node.children[name], path + [name])
  }

  lemma {:induction false} NamesWhereCounts(names: seq<string>, children: map<string, Node>, directories: bool, name: string)
    ensures multiset(NamesWhere(names, children, directories))[name] ==
            if name in children && DirectoryLike(children[name]) == directories then multiset(names)[name] else 0
  {
    if names != [] {
      var n := |names| - 1;
      NamesWhereCounts(names[..n], children, directories, name);
      assert names == names[..n] + [names[n]];
    }
  }

  lemma InOrderSame(names: seq<string>, names': seq<string>, children: map<string, Node>, directories: bool)
    requires multiset(names) == multiset(names')
    ensures InOrder(names, children, directories) == InOrder(names', children, directories)
  {
    hide Before, NamesWhere, DirectoryLike;
    var a, b := NamesWhere(names, children, directories), NamesWhere(names', children, directories);
    forall name ensures multiset(a)[name] == multiset(b)[name] {
      NamesWhereCounts(names, children, directories, name);
      NamesWhereCounts(names', children, directories, name);
    }
    assert multiset(a) == multiset(b);
    BeforeOrders();
    Sorting.SortByCanonical(a, b, Before);
  }

  lemma {:induction false} WalkSame(s: State, node: Node, path: Path, listing: Path -> seq<string>, other: Path -> seq<string>,
                                    complete: bool, rules: Rules)
    requires node.Directory? && Lists(listing, node, path) && Lists(other, node, path)
    ensures Walk(s, node, path, listing, complete, rules) == Walk(s, node, path, other, complete, rules)
    decreases node, 1, 0
  {
    hide InOrder, VisitDirectories, VisitFiles, Descend;
    InOrderSame(listing(path), other(path), node.children, true);
    InOrderSame(listing(path), other(path), node.children, false);
    InOrderNames(listing(path), node.children);
    forall t: State
      ensures Descend(t, InOrder(listing(path), node.children, true), node, path, listing, complete, rules)
           == Descend(t, InOrder(listing(path), node.children, true), node, path, other, complete, rules)
    {
      DescendSame(t, InOrder(listing(path), node.children, true), node, path, listing, other, complete, rules);
    }
  }

  lemma {:induction false} DescendSame(s: State, names: seq<string>, node: Node, path: Path, listing: Path -> seq<string>,
                                       other: Path -> seq<string>, complete: bool, rules: Rules)
    requires node.Directory? && (forall i | 0 <= i < |names| :: names[i] in node.children)
    requires Lists(listing, node, path) && Lists(other, node, path)
    ensures Descend(s, names, node, path, listing, complete, rules) == Descend(s, names, node, path, other, complete, rules)
    decreases node, 0, |names|
  {
    hide Walk, Entered;
    if names != [] {
      var n := |names| - 1;
      DescendSame(s, names[..n], node, path, listing, other, complete, rules);
      var t := Descend(s, names[..n], node, path, listing, complete, rules);
      if t.Some? && node.children[names[n]].Directory? {
        WalkSame(t.value, node.children[names[n]], path + [names[n]], listing, other, complete, rules);
      }
    }
  }

  /** Whether a tree is accepted, and its manifest, are the same for every order its directories are listed in. */
  lemma ListingIrrelevant(root: Node, listing: Path -> seq<string>, other: Path -> seq<string>, complete: bool, rules: Rules)
    requires Lists(listing, root, []) && Lists(other, root, [])
    ensures ManifestOf(root, listing, complete, rules) == ManifestOf(root, other, complete, rules)
  {
    hide Walk, Lists;
    if root.Directory? {
      WalkSame(State(if complete then [Entry([], KeptDirectory(root.mode))] else [], 0, 0), root, [], listing, other, complete, rules);
    }
  }

  // ----- what an accepted tree's entries are -----

  /** What a snapshot keeps at a path below a directory, read off the tree itself. */
  function Look(node: Node, path: Path, complete: bool, rules: Rules): Option<Kept>
    decreases path
  {
    if !node.Directory? || path == [] || path[0] !in node.children then None
    else
      var child := node.children[path[0]];
      if |path| > 1 then
        if child.Directory? && Entered(path[0], complete, rules) then Look(child, path[1..], complete, rules) else None
      else if child.Directory? then
        if complete then Some(KeptDirectory(child.mode)) else None
      else if child.File? && !Skipped(path[0], child, complete, rules) then Some(KeptOf(child, complete))
      else None
  }

  /** The same from the root, whose own mode a complete snapshot keeps. */
  function LookFrom(root: Node, path: Path, complete: bool, rules: Rules): Option<Kept> {
    if path == [] && complete && root.Directory? then Some(KeptDirectory(root.mode)) else Look(root, path, complete, rules)
  }

  function DirectoryEntries(names: seq<string>, node: Node, path: Path, complete: bool): seq<Entry>
    requires node.Directory?
  {
    if names == [] then []
    else
      var n := |names| - 1;
      DirectoryEntries(names[..n], node, path, complete)
      + if complete && names[n] in node.children && node.children[names[n]].Directory?
        then [Entry(path + [names[n]], KeptDirectory(node.children[names[n]].mode))] else []
  }

  function FileEntries(names: seq<string>, node: Node, path: Path, complete: bool, rules: Rules): seq<Entry>
    requires node.Directory?
  {
    if names == [] then []
    else
      var n := |names| - 1;
      FileEntries(names[..n], node, path, complete, rules)
      + if names[n] in node.children && node.children[names[n]].File? && !Skipped(names[n], node.children[names[n]], complete, rules)
        then [Entry(path + [names[n]], KeptOf(node.children[names[n]], complete))] else []
  }

  function EntriesAt(node: Node, path: Path, listing: Path -> seq<string>, complete: bool, rules: Rules): seq<Entry>
    requires node.Directory?
    decreases node, 1, 0
  {
    var directories := InOrder(listing(path), node.children, true);
    var files := InOrder(listing(path), node.children, false);
    DirectoryEntries(directories, node, path, complete) + FileEntries(files, node, path, complete, rules)
    + Below(directories, node, path, listing, complete, rules)
  }

  function Below(names: seq<string>, node: Node, path: Path, listing: Path -> seq<string>, complete: bool, rules: Rules): seq<Entry>
    requires node.Directory?
    decreases node, 0, |names|
  {
    if names == [] then []
    else
      var n := |names| - 1;
      Below(names[..n], node, path, listing, complete, rules)
      + if names[n] in node.children && node.children[names[n]].Directory? && Entered(names[n], complete, rules)
        then EntriesAt(node.children[names[n]], path + [names[n]], listing, complete, rules) else []
  }

  // Without the bounds, the walk only appends these entries.

  lemma {:induction false} DirectoriesAppend(s: State, names: seq<string>, node: Node, path: Path, complete: bool)
    requires node.Directory? && forall i | 0 <= i < |names| :: names[i] in node.children
    ensures var t := VisitDirectories(s, names, node, path, complete);
            t.Some? ==> t.value.entries == s.entries + DirectoryEntries(names, node, path, complete)
  {
    if names == [] {
      assert s.entries + [] == s.entries;
    } else {
      DirectoriesAppend(s, names[..|names| - 1], node, path, complete);
      hide Joined;
    }
  }

  lemma {:induction false} FilesAppend(s: State, names: seq<string>, node: Node, path: Path, complete: bool, rules: Rules)
    requires node.Directory? && forall i | 0 <= i < |names| :: names[i] in node.children
    ensures var t := VisitFiles(s, names, node, path, complete, rules);
            t.Some? ==> t.value.entries == s.entries + FileEntries(names, node, path, complete, rules)
  {
    hide Joined, Slashed;
    if names == [] {
      assert s.entries + [] == s.entries;
    } else {
      FilesAppend(s, names[..|names| - 1], node, path, complete, rules);
    }
  }

  lemma {:induction false} WalkAppends(s: State, node: Node, path: Path, listing: Path -> seq<string>, complete: bool, rules: Rules)
    requires node.Directory?
    ensures var t := Walk(s, node, path, listing, complete, rules);
            t.Some? ==> t.value.entries == s.entries + EntriesAt(node, path, listing, complete, rules)
    decreases node, 1, 0
  {
    hide InOrder, VisitDirectories, VisitFiles, Descend, DirectoryEntries, FileEntries, Below;
    var names := listing(path);
    var directories, files := InOrder(names, node.children, true), InOrder(names, node.children, false);
    InOrderNames(names, node.children);
    var s0 := s.(seen := s.seen + |directories| + |files|);
    var a := VisitDirectories(s0, directories, node, path, complete);
    DirectoriesAppend(s0, directories, node, path, complete);
    if a.Some? {
      FilesAppend(a.value, files, node, path, complete, rules);
      var b := VisitFiles(a.value, files, node, path, complete, rules);
      if b.Some? {
        DescendAppends(b.value, directories, node, path, listing, complete, rules);
      }
    }
  }

  lemma {:induction false} DescendAppends(s: State, names: seq<string>, node: Node, path: Path, listing: Path -> seq<string>,
                                          complete: bool, rules: Rules)
    requires node.Directory? && forall i | 0 <= i < |names| :: names[i] in node.children
    ensures var t := Descend(s, names, node, path, listing, complete, rules);
            t.Some? ==> t.value.entries == s.entries + Below(names, node, path, listing, complete, rules)
    decreases node, 0, |names|
  {
    hide Walk, EntriesAt, Entered;
    if names == [] {
      assert s.entries + [] == s.entries;
    } else {
      var n := |names| - 1;
      DescendAppends(s, names[..n], node, path, listing, complete, rules);
      var t := Descend(s, names[..n], node, path, listing, complete, rules);
      if t.Some? && node.children[names[n]].Directory? {
        WalkAppends(t.value, node.children[names[n]], path + [names[n]], listing, complete, rules);
      }
    }
  }

  // Membership, part by part.

  /** No path twice. */
  ghost predicate OncePerPath(entries: seq<Entry>) {
    forall i, j | 0 <= i < j < |entries| :: entries[i].path != entries[j].path
  }

  ghost predicate IsBelow(e: Entry, path: Path) {
    |e.path| > |path| && e.path[..|path|] == path
  }

  lemma {:induction false} DirectoryEntriesIn(names: seq<string>, node: Node, path: Path, complete: bool)
    requires node.Directory? && Sorting.Distinct(names)
    ensures forall e :: e in DirectoryEntries(names, node, path, complete) <==>
              && IsBelow(e, path) && |e.path| == |path| + 1 && e.path[|path|] in names && complete
              && e.path[|path|] in node.children && node.children[e.path[|path|]].Directory?
              && e.kept == KeptDirectory(node.children[e.path[|path|]].mode)
    ensures OncePerPath(DirectoryEntries(names, node, path, complete))
  {
    if names != [] {
      var n := |names| - 1;
      DirectoryEntriesIn(names[..n], node, path, complete);
      assert names == names[..n] + [names[n]];
      assert forall e: Entry :: IsBelow(e, path) && |e.path| == |path| + 1 ==> e.path == path + [e.path[|path|]];
      assert IsBelow(Entry(path + [names[n]], KeptDirectory(0)), path);
    }
  }

  lemma {:induction false} FileEntriesIn(names: seq<string>, node: Node, path: Path, complete: bool, rules: Rules)
    requires node.Directory? && Sorting.Distinct(names)
    ensures forall e :: e in FileEntries(names, node, path, complete, rules) <==>
              && IsBelow(e, path) && |e.path| == |path| + 1 && e.path[|path|] in names
              && e.path[|path|] in node.children && node.children[e.path[|path|]].File?
              && !Skipped(e.path[|path|], node.children[e.path[|path|]], complete, rules)
              && e.kept == KeptOf(node.children[e.path[|path|]], complete)
    ensures OncePerPath(FileEntries(names, node, path, complete, rules))
  {
    hide Skipped, KeptOf;
    if names != [] {
      var n := |names| - 1;
      FileEntriesIn(names[..n], node, path, complete, rules);
      assert names == names[..n] + [names[n]];
      assert forall e: Entry :: IsBelow(e, path) && |e.path| == |path| + 1 ==> e.path == path + [e.path[|path|]];
    }
  }

  /** Membership in the entries of a whole subtree. */
  ghost predicate Describes(entries: seq<Entry>, node: Node, path: Path, complete: bool, rules: Rules) {
    && OncePerPath(entries)
    && forall e :: e in entries <==> IsBelow(e, path) && Look(node, e.path[|path|..], complete, rules) == Some(e.kept)
  }

  ghost predicate FoundUnder(e: Entry, names: seq<string>, node: Node, path: Path, complete: bool, rules: Rules)
    requires node.Directory?
  {
    && IsBelow(e, path) && |e.path| > |path| + 1 && e.path[|path|] in names
    && Look(node, e.path[|path|..], complete, rules) == Some(e.kept)
  }

  lemma OnceConcat(a: seq<Entry>, b: seq<Entry>)
    requires OncePerPath(a) && OncePerPath(b)
    requires forall x, y | x in a && y in b :: x.path != y.path
    ensures OncePerPath(a + b)
  {
    var c := a + b;
    forall i, j | 0 <= i < j < |c| ensures c[i].path != c[j].path {
      if i < |a| <= j { assert c[i] in a && c[j] in b; }
    }
  }

  /** Entering a child puts its name before every path found there. */
  lemma ChildLook(e: Entry, name: string, node: Node, path: Path, complete: bool, rules: Rules)
    requires node.Directory? && name in node.children && node.children[name].Directory? && Entered(name, complete, rules)
    ensures FoundUnder(e, [name], node, path, complete, rules) <==>
              && IsBelow(e, path + [name])
              && Look(node.children[name], e.path[|path| + 1..], complete, rules) == Some(e.kept)
  {
    if IsBelow(e, path) && |e.path| > |path| + 1 && e.path[|path|] == name {
      assert e.path[..|path| + 1] == path + [name];
      assert e.path[|path|..][0] == name && e.path[|path|..][1..] == e.path[|path| + 1..];
    }
    if IsBelow(e, path + [name]) {
      assert e.path[..|path|] == path && e.path[|path|] == name;
      assert e.path[|path|..][0] == name && e.path[|path|..][1..] == e.path[|path| + 1..];
    }
  }

  lemma ChildLookNone(e: Entry, name: string, node: Node, path: Path, complete: bool, rules: Rules)
    requires node.Directory?
    requires !(name in node.children && node.children[name].Directory? && Entered(name, complete, rules))
    ensures !FoundUnder(e, [name], node, path, complete, rules)
  {
    if IsBelow(e, path) && |e.path| > |path| + 1 && e.path[|path|] == name {
      assert e.path[|path|..][0] == name;
    }
  }

  lemma FoundUnderSplit(e: Entry, names: seq<string>, node: Node, path: Path, complete: bool, rules: Rules)
    requires node.Directory? && names != []
    ensures var n := |names| - 1;
            FoundUnder(e, names, node, path, complete, rules) <==>
              FoundUnder(e, names[..n], node, path, complete, rules) || FoundUnder(e, [names[n]], node, path, complete, rules)
  {
    hide Look;
    assert names == names[..|names| - 1] + [names[|names| - 1]];
  }

  lemma {:induction false} EntriesDescribe(node: Node, path: Path, listing: Path -> seq<string>, complete: bool, rules: Rules)
    requires node.Directory? && Lists(listing, node, path)
    ensures Describes(EntriesAt(node, path, listing, complete, rules), node, path, complete, rules)
    decreases node, 1, 0
  {
    hide InOrder, DirectoryEntries, FileEntries, Below, OncePerPath, Look, Sorting.Distinct, FoundUnder;
    var names := listing(path);
    var directories, files := InOrder(names, node.children, true), InOrder(names, node.children, false);
    ListedOnce(names, node.children);
    DirectoryEntriesIn(directories, node, path, complete);
    FileEntriesIn(files, node, path, complete, rules);
    BelowDescribes(directories, node, path, listing, complete, rules);
    var d, f := DirectoryEntries(directories, node, path, complete), FileEntries(files, node, path, complete, rules);
    var b := Below(directories, node, path, listing, complete, rules);
    ThreeParts(d, f, b, directories, files, node, path, complete, rules);
  }

  /** The three parts of a directory's entries, none of which shares a path with another. */
  lemma ThreeParts(d: seq<Entry>, f: seq<Entry>, b: seq<Entry>, directories: seq<string>, files: seq<string>,
                   node: Node, path: Path, complete: bool, rules: Rules)
    requires node.Directory? && OncePerPath(d) && OncePerPath(f) && OncePerPath(b)
    requires forall name :: name in directories <==> name in node.children && DirectoryLike(node.children[name])
    requires forall name :: name in files <==> name in node.children && !DirectoryLike(node.children[name])
    requires forall e :: e in d <==>
               && IsBelow(e, path) && |e.path| == |path| + 1 && e.path[|path|] in directories && complete
               && e.path[|path|] in node.children && node.children[e.path[|path|]].Directory?
               && e.kept == KeptDirectory(node.children[e.path[|path|]].mode)
    requires forall e :: e in f <==>
               && IsBelow(e, path) && |e.path| == |path| + 1 && e.path[|path|] in files
               && e.path[|path|] in node.children && node.children[e.path[|path|]].File?
               && !Skipped(e.path[|path|], node.children[e.path[|path|]], complete, rules)
               && e.kept == KeptOf(node.children[e.path[|path|]], complete)
    requires forall e :: e in b <==> FoundUnder(e, directories, node, path, complete, rules)
    ensures Describes(d + f + b, node, path, complete, rules)
  {
    hide OncePerPath, Skipped;
    OnceConcat(d, f);
    OnceConcat(d + f, b);
    forall e ensures e in d + f + b <==> IsBelow(e, path) && Look(node, e.path[|path|..], complete, rules) == Some(e.kept) {
      if IsBelow(e, path) {
        var name := e.path[|path|];
        assert e.path[|path|..][0] == name;
        if Look(node, e.path[|path|..], complete, rules).Some? {
          assert name in node.children;
        }
      }
    }
  }

  /** A complete listing names each child once, sorted into directories and the rest. */
  lemma ListedOnce(names: seq<string>, children: map<string, Node>)
    requires multiset(names) == multiset(children.Keys)
    ensures Sorting.Distinct(InOrder(names, children, true)) && Sorting.Distinct(InOrder(names, children, false))
    ensures forall name :: name in InOrder(names, children, true) <==> name in children && DirectoryLike(children[name])
    ensures forall name :: name in InOrder(names, children, false) <==> name in children && !DirectoryLike(children[name])
  {
    hide NamesWhere;
    InOrderIn(names, children, true);
    InOrderIn(names, children, false);
    forall name ensures name in names <==> name in children {
      assert name in names <==> name in multiset(names);
    }
    OnceInOrder(names, children, true);
    OnceInOrder(names, children, false);
  }

  lemma OnceInOrder(names: seq<string>, children: map<string, Node>, directories: bool)
    requires multiset(names) == multiset(children.Keys)
    ensures Sorting.Distinct(InOrder(names, children, directories))
  {
    hide NamesWhere, DirectoryLike;
    var order := InOrder(names, children, directories);
    forall name ensures multiset(order)[name] <= 1 {
      NamesWhereCounts(names, children, directories, name);
    }
    CountedOnce(order);
  }

  lemma CountedOnce<T>(s: seq<T>)
    requires forall x :: multiset(s)[x] <= 1
    ensures Sorting.Distinct(s)
  {
    forall i, j | 0 <= i < j < |s| ensures s[i] != s[j] {
      assert s == s[..j] + [s[j]] + s[j + 1..];
      assert s[i] in multiset(s[..j]) by { assert s[..j][i] == s[i]; }
      assert multiset(s)[s[j]] >= multiset(s[..j])[s[j]] + 1;
    }
  }

  lemma {:induction false} BelowDescribes(names: seq<string>, node: Node, path: Path, listing: Path -> seq<string>,
                                          complete: bool, rules: Rules)
    requires node.Directory? && Lists(listing, node, path) && Sorting.Distinct(names)
    ensures OncePerPath(Below(names, node, path, listing, complete, rules))
    ensures forall e :: e in Below(names, node, path, listing, complete, rules) <==>
                          FoundUnder(e, names, node, path, complete, rules)
    decreases node, 0, |names|
  {
    hide EntriesAt, OncePerPath, Look, FoundUnder;
    if names == [] {
      NothingUnder(node, path, complete, rules);
    } else {
      var n := |names| - 1;
      var front, name := names[..n], names[n];
      BelowDescribes(front, node, path, listing, complete, rules);
      var last := if name in node.children && node.children[name].Directory? && Entered(name, complete, rules)
                  then EntriesAt(node.children[name], path + [name], listing, complete, rules) else [];
      assert OncePerPath(last) && forall e :: e in last <==> FoundUnder(e, [name], node, path, complete, rules) by {
        if name in node.children && node.children[name].Directory? && Entered(name, complete, rules) {
          EntriesDescribe(node.children[name], path + [name], listing, complete, rules);
          forall e ensures e in last <==> FoundUnder(e, [name], node, path, complete, rules) {
            ChildLook(e, name, node, path, complete, rules);
          }
        } else {
          NothingUnder(node, path, complete, rules);
          forall e ensures !FoundUnder(e, [name], node, path, complete, rules) {
            ChildLookNone(e, name, node, path, complete, rules);
          }
        }
      }
      BelowJoins(Below(front, node, path, listing, complete, rules), last, names, node, path, complete, rules);
    }
  }

  lemma NothingUnder(node: Node, path: Path, complete: bool, rules: Rules)
    requires node.Directory?
    ensures OncePerPath([]) && forall e :: !FoundUnder(e, [], node, path, complete, rules)
  {
  }

  lemma BelowJoins(a: seq<Entry>, b: seq<Entry>, names: seq<string>, node: Node, path: Path, complete: bool, rules: Rules)
    requires node.Directory? && names != [] && Sorting.Distinct(names) && OncePerPath(a) && OncePerPath(b)
    requires forall e :: e in a <==> FoundUnder(e, names[..|names| - 1], node, path, complete, rules)
    requires forall e :: e in b <==> FoundUnder(e, [names[|names| - 1]], node, path, complete, rules)
    ensures OncePerPath(a + b) && forall e :: e in a + b <==> FoundUnder(e, names, node, path, complete, rules)
  {
    hide OncePerPath, Look;
    forall x, y | x in a && y in b ensures x.path != y.path {
      assert x.path[|path|] in names[..|names| - 1] && y.path[|path|] == names[|names| - 1];
    }
    OnceConcat(a, b);
    forall e ensures e in a + b <==> FoundUnder(e, names, node, path, complete, rules) {
      FoundUnderSplit(e, names, node, path, complete, rules);
    }
  }

  // ----- main results -----

  /** An accepted snapshot holds each kept path once, and exactly what is found there. */
  lemma SnapshotExact(root: Node, listing: Path -> seq<string>, complete: bool, rules: Rules)
    requires Lists(listing, root, []) && Snapshot(root, listing, complete, rules).Some?
    ensures var entries := Snapshot(root, listing, complete, rules).value;
            && OncePerPath(entries)
            && forall e :: e in entries <==> LookFrom(root, e.path, complete, rules) == Some(e.kept)
  {
    hide EntriesAt, Walk, Lists, Look;
    var first := if complete then [Entry([], KeptDirectory(root.mode))] else [];
    var below := EntriesAt(root, [], listing, complete, rules);
    WalkAppends(State(first, 0, 0), root, [], listing, complete, rules);
    EntriesDescribe(root, [], listing, complete, rules);
    OnceConcat(first, below);
    forall e: Entry ensures e in first + below <==> LookFrom(root, e.path, complete, rules) == Some(e.kept) {
      assert e.path[0..] == e.path && e.path[..0] == [];
      LookNeedsPath(root, complete, rules);
    }
  }

  lemma LookNeedsPath(node: Node, complete: bool, rules: Rules)
    ensures Look(node, [], complete, rules).None?
  {
  }

  ghost predicate TotalOrder(le: (Row, Row) -> bool) {
    Sorting.TotalPreorder(le) && forall x, y :: le(x, y) && le(y, x) ==> x == y
  }

  /** Two accepted trees have one manifest exactly when they print the same rows, each as often. */
  lemma ManifestsEqualIff(a: seq<Entry>, b: seq<Entry>, rules: Rules)
    requires TotalOrder(rules.before)
    ensures Sha256(Sorting.SortBy(RowsOf(a), rules.before)) == Sha256(Sorting.SortBy(RowsOf(b), rules.before))
       <==> multiset(RowsOf(a)) == multiset(RowsOf(b))
  {
    if multiset(RowsOf(a)) == multiset(RowsOf(b)) {
      Sorting.SortByCanonical(RowsOf(a), RowsOf(b), rules.before);
    }
  }

  /** Both trees keep the same at every path. */
  ghost predicate Agree(root: Node, other: Node, complete: bool, rules: Rules) {
    forall path :: LookFrom(root, path, complete, rules) == LookFrom(other, path, complete, rules)
  }

  lemma {:induction false} CountInOnce(entries: seq<Entry>, e: Entry)
    requires OncePerPath(entries)
    ensures multiset(entries)[e] == if e in entries then 1 else 0
  {
    if entries != [] {
      var n := |entries| - 1;
      CountInOnce(entries[..n], e);
      assert entries == entries[..n] + [entries[n]];
    }
  }

  lemma RowsWithout(entries: seq<Entry>, k: nat)
    requires k < |entries|
    ensures RowsOf(Sorting.Without(entries, k)) == Sorting.Without(RowsOf(entries), k)
  {
    hide RowOf;
  }

  lemma {:induction false} PermutedRows(a: seq<Entry>, b: seq<Entry>)
    requires multiset(a) == multiset(b)
    ensures multiset(RowsOf(a)) == multiset(RowsOf(b))
    decreases |a|
  {
    hide RowOf, Sorting.Without;
    if a == [] {
      assert |multiset(b)| == |b|;
    } else {
      assert a[0] in multiset(b);
      var k :| 0 <= k < |b| && b[k] == a[0];
      Sorting.WithoutCounts(a, 0);
      Sorting.WithoutCounts(b, k);
      assert multiset(Sorting.Without(a, 0)) == multiset(a) - multiset{a[0]};
      assert multiset(Sorting.Without(b, k)) == multiset(b) - multiset{a[0]};
      PermutedRows(Sorting.Without(a, 0), Sorting.Without(b, k));
      RowsWithout(a, 0);
      RowsWithout(b, k);
      Sorting.WithoutCounts(RowsOf(a), 0);
      Sorting.WithoutCounts(RowsOf(b), k);
    }
  }

  /** Trees that agree have one manifest. */
  lemma AgreeingManifests(root: Node, other: Node, listing: Path -> seq<string>, listing': Path -> seq<string>,
                          complete: bool, rules: Rules)
    requires TotalOrder(rules.before) && Lists(listing, root, []) && Lists(listing', other, [])
    requires ManifestOf(root, listing, complete, rules).Some? && ManifestOf(other, listing', complete, rules).Some?
    requires Agree(root, other, complete, rules)
    ensures ManifestOf(root, listing, complete, rules) == ManifestOf(other, listing', complete, rules)
  {
    hide Snapshot, Lists, LookFrom, OncePerPath, RowOf, TotalOrder;
    SnapshotExact(root, listing, complete, rules);
    SnapshotExact(other, listing', complete, rules);
    var a, b := Snapshot(root, listing, complete, rules).value, Snapshot(other, listing', complete, rules).value;
    forall e: Entry ensures multiset(a)[e] == multiset(b)[e] {
      CountInOnce(a, e);
      CountInOnce(b, e);
    }
    assert multiset(a) == multiset(b);
    PermutedRows(a, b);
    ManifestsEqualIff(a, b, rules);
  }
}
