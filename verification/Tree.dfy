/**
 The file browser (handlers.go): a virtual tree with one child per watched folder, the lookup of a
 node by its virtual path, and the mapping from a virtual path back to the disk.
*/
module Tree {
  import opened Wrappers
  import opened Keys
  import opened Paths

  const MAX_CHILDREN: nat := 500
  const MAX_DEPTH: nat := 8

  // What is on disk at some path; a directory lists its entries in display order.
  datatype Disk = File(size: nat) | Dir(entries: seq<Entry>)
  datatype Entry = Entry(name: string, disk: Disk)

  // `abs` is the absolute path the node was built from, which its id is a hash of.
  datatype Node = Node(name: string, path: string, abs: string, isDir: bool, size: nat, children: seq<Node>)

  datatype Folder = Folder(path: string, exclude: seq<string>)

  function SumSizes(nodes: seq<Node>): nat {
    if nodes == [] then 0 else SumSizes(nodes[..|nodes| - 1]) + nodes[|nodes| - 1].size
  }

  /* ---- building ---- */

  // `name` is the last name of `abs`; the virtual path is relative to the directory that holds the
  // watched folder `root`.
  function Build(name: string, root: string, abs: string, d: Disk, excluded: string -> bool, depth: nat): Node
    decreases d
  {
    var path := "/" + Rel(root, abs);
    match d
    case File(size) => Node(name, path, abs, false, size, [])
    case Dir(entries) =>
      if depth >= MAX_DEPTH then Node(name, path, abs, true, 0, [])
      else
        var cs := Children(root, abs, entries, excluded, depth);
        Node(name, path, abs, true, SumSizes(cs), cs)
  }

  // The nodes for the first entries that are not excluded, up to the limit.
  function Children(root: string, abs: string, entries: seq<Entry>, excluded: string -> bool, depth: nat): (cs: seq<Node>)
    ensures |cs| <= MAX_CHILDREN
    decreases entries
  {
    if entries == [] then []
    else
      var front, e := entries[..|entries| - 1], entries[|entries| - 1];
      var cs := Children(root, abs, front, excluded, depth);
      if |cs| >= MAX_CHILDREN || excluded(e.name) then cs
      else cs + [Build(e.name, root, Clean(abs + "/" + e.name), e.disk, excluded, depth + 1)]
  }

  // buildNode, with the accumulating loop.
  method BuildNode(name: string, root: string, abs: string, d: Disk, excluded: string -> bool, depth: nat) returns (node: Node)
    ensures node == Build(name, root, abs, d, excluded, depth)
    decreases d
  {
    hide Rel, Clean, Collected;
    var path := "/" + Rel(root, abs);
    match d
    case File(size) => return Node(name, path, abs, false, size, []);
    case Dir(entries) =>
      if depth >= MAX_DEPTH {
        return Node(name, path, abs, true, 0, []);
      }
      CollectedAround(name, root, abs, entries, excluded, depth);
      hide Build;
      var children: seq<Node>, size: nat, count: nat := [], 0, 0;
      for i := 0 to |entries|
        invariant Collected(root, abs, entries, excluded, depth, i, children, size, count)
      {
        CollectedStep(root, abs, entries, excluded, depth, i, children, size, count);
        if count >= MAX_CHILDREN {
          CollectedFull(root, abs, entries, excluded, depth, i, children, size, count);
          break;
        }
        var e := entries[i];
        if excluded(e.name) {
          continue;
        }
        EntryIsSmaller(entries, i);
        var child := BuildNode(e.name, root, Clean(abs + "/" + e.name), e.disk, excluded, depth + 1);
        children := children + [child];
        size := size + child.size;
        count := count + 1;
      }
      return Node(name, path, abs, true, size, children);
  }

  // The loop's variables after the first i entries.
  ghost predicate Collected(root: string, abs: string, entries: seq<Entry>, excluded: string -> bool, depth: nat, i: nat,
                            children: seq<Node>, size: nat, count: nat)
  {
    && i <= |entries| && children == Children(root, abs, entries[..i], excluded, depth)
    && size == SumSizes(children) && count == |children|
  }

  // Where the loop starts, and what it has when it is through.
  lemma CollectedAround(name: string, root: string, abs: string, entries: seq<Entry>, excluded: string -> bool, depth: nat)
    requires depth < MAX_DEPTH
    ensures Collected(root, abs, entries, excluded, depth, 0, [], 0, 0)
    ensures forall children, size, count | Collected(root, abs, entries, excluded, depth, |entries|, children, size, count) ::
              Node(name, "/" + Rel(root, abs), abs, true, size, children) == Build(name, root, abs, Dir(entries), excluded, depth)
  {
    assert entries[..|entries|] == entries;
  }

  // One more entry: nothing if there is no more room or it is excluded, otherwise its node.
  lemma CollectedStep(root: string, abs: string, entries: seq<Entry>, excluded: string -> bool, depth: nat, i: nat,
                      children: seq<Node>, size: nat, count: nat)
    requires i < |entries| && Collected(root, abs, entries, excluded, depth, i, children, size, count)
    ensures count >= MAX_CHILDREN || excluded(entries[i].name) ==>
              Collected(root, abs, entries, excluded, depth, i + 1, children, size, count)
    ensures var e := entries[i];
            var child := Build(e.name, root, Clean(abs + "/" + e.name), e.disk, excluded, depth + 1);
            count < MAX_CHILDREN && !excluded(e.name) ==>
              Collected(root, abs, entries, excluded, depth, i + 1, children + [child], size + child.size, count + 1)
  {
    hide Build;
    assert entries[..i + 1][..i] == entries[..i];
    SumSizesStep(children, Build(entries[i].name, root, Clean(abs + "/" + entries[i].name), entries[i].disk, excluded, depth + 1));
  }

  lemma {:induction false} CollectedFull(root: string, abs: string, entries: seq<Entry>, excluded: string -> bool, depth: nat, i: nat,
                                         children: seq<Node>, size: nat, count: nat)
    requires Collected(root, abs, entries, excluded, depth, i, children, size, count) && count >= MAX_CHILDREN
    ensures Collected(root, abs, entries, excluded, depth, |entries|, children, size, count)
    decreases |entries| - i
  {
    assert i <= |entries|;
    if i < |entries| {
      CollectedStep(root, abs, entries, excluded, depth, i, children, size, count);
      CollectedFull(root, abs, entries, excluded, depth, i + 1, children, size, count);
    }
  }

  lemma EntryIsSmaller(entries: seq<Entry>, i: nat)
    requires i < |entries|
    ensures entries[i].disk < Dir(entries)
  {
    assert entries[i] in entries;
  }

  // The exclude test with the folder's own patterns.
  function Excludes(f: Folder, excluded: (seq<string>, string) -> bool): string -> bool {
    (name: string) => excluded(f.exclude, name)
  }

  function FolderChild(f: Folder, d: Disk, excluded: (seq<string>, string) -> bool): Node {
    Build(Base(f.path), f.path, f.path, d, Excludes(f, excluded), 0)
  }

  // One child per watched folder that is a directory; `disk` is what is found at a path.
  function Folders(folders: seq<Folder>, disk: string -> Option<Disk>, excluded: (seq<string>, string) -> bool): seq<Node> {
    if folders == [] then []
    else
      var f := folders[|folders| - 1];
      Folders(folders[..|folders| - 1], disk, excluded)
      + match disk(f.path)
        case Some(Dir(es)) => [FolderChild(f, Dir(es), excluded)]
        case _ => []
  }

  function BuildLocalTree(folders: seq<Folder>, disk: string -> Option<Disk>, excluded: (seq<string>, string) -> bool): Node {
    var cs := Folders(folders, disk, excluded);
    Node("/", "/", "", true, SumSizes(cs), cs)
  }

  // buildLocalTree, with the accumulating loop.
  method BuildTree(folders: seq<Folder>, disk: string -> Option<Disk>, excluded: (seq<string>, string) -> bool) returns (root: Node)
    ensures root == BuildLocalTree(folders, disk, excluded)
  {
    hide Build, Base, Excludes;
    var children, size := [], 0;
    assert Folders(folders[..0], disk, excluded) == children && SumSizes(children) == size;
    hide Folders, SumSizes;
    for i := 0 to |folders|
      invariant children == Folders(folders[..i], disk, excluded) && size == SumSizes(children)
    {
      FoldersStep(folders, disk, excluded, i);
      var f := folders[i];
      var found := disk(f.path);
      if found.None? || found.value.File? {
        continue;
      }
      var node := BuildNode(Base(f.path), f.path, f.path, found.value, Excludes(f, excluded), 0);
      SumSizesStep(children, node);
      children := children + [node];
      size := size + node.size;
    }
    assert folders[..|folders|] == folders;
    return Node("/", "/", "", true, size, children);
  }

  lemma SumSizesStep(nodes: seq<Node>, node: Node)
    ensures SumSizes(nodes + [node]) == SumSizes(nodes) + node.size
  {
    assert (nodes + [node])[..|nodes|] == nodes;
  }

  lemma FoldersStep(folders: seq<Folder>, disk: string -> Option<Disk>, excluded: (seq<string>, string) -> bool, i: nat)
    requires i < |folders|
    ensures var found := disk(folders[i].path);
            Folders(folders[..i + 1], disk, excluded)
            == Folders(folders[..i], disk, excluded)
               + if found.Some? && found.value.Dir? then [FolderChild(folders[i], found.value, excluded)] else []
  {
    hide FolderChild;
    assert folders[..i + 1][..i] == folders[..i];
  }

  /* ---- looking up ---- */

  function ChildNamed(children: seq<Node>, name: string): Option<Node> {
    if children == [] then None
    else if children[0].name == name then Some(children[0])
    else ChildNamed(children[1..], name)
  }

  // The first child with the name, if there is one.
  lemma {:induction false} ChildNamedExactly(children: seq<Node>, name: string)
    ensures var r := ChildNamed(children, name);
            if r.None? then forall i | 0 <= i < |children| :: children[i].name != name
            else exists i | 0 <= i < |children| ::
                   children[i] == r.value && r.value.name == name && forall j | 0 <= j < i :: children[j].name != name
    decreases |children|
  {
    if children != [] && children[0].name != name {
      var rest := children[1..];
      ChildNamedExactly(rest, name);
      assert forall j | 0 < j < |children| :: children[j] == rest[j - 1];
      if ChildNamed(rest, name).Some? {
        var i :| 0 <= i < |rest| && rest[i] == ChildNamed(rest, name).value && rest[i].name == name
                 && forall j | 0 <= j < i :: rest[j].name != name;
        assert children[i + 1] == ChildNamed(children, name).value;
      }
    }
  }

  function Walk(node: Node, segs: seq<string>): Option<Node>
    decreases |segs|
  {
    if segs == [] then Some(node)
    else
      match ChildNamed(node.children, segs[0])
      case None => None
      case Some(c) => Walk(c, segs[1..])
  }

  function Find(root: Node, path: string): Option<Node> {
    if path == "" || path == "/" then Some(root) else Walk(root, Split(Trim(path)))
  }

  lemma RootIsFound(root: Node)
    ensures Find(root, "") == Find(root, "/") == Some(root)
  {
  }

  method FindByPath(root: Node, path: string) returns (r: Option<Node>)
    ensures r == Find(root, path)
  {
    if path == "" || path == "/" {
      return Some(root);
    }
    var segs := Split(Trim(path));
    var cur := root;
    for i := 0 to |segs|
      invariant Walk(root, segs) == Walk(cur, segs[i..])
    {
      var next: Option<Node> := None;
      for j := 0 to |cur.children|
        invariant ChildNamed(cur.children, segs[i]) == ChildNamed(cur.children[j..], segs[i])
        invariant next == None
      {
        if cur.children[j].name == segs[i] {
          next := Some(cur.children[j]);
          break;
        }
        assert cur.children[j..][1..] == cur.children[j + 1..];
      }
      assert next == ChildNamed(cur.children, segs[i]);
      assert segs[i..][1..] == segs[i + 1..];
      if next == None {
        return None;
      }
      cur := next.value;
    }
    return Some(cur);
  }

  /* ---- mapping back to the disk ---- */

  // filepath.Abs, with the working directory as a parameter.
  function Abs(cwd: string, path: string): string {
    CleanAbs(if Absolute(path) then path else cwd + "/" + path)
  }

  // A relative path is taken from the working directory, an absolute one as it is.
  lemma AbsExactly(dir: seq<string>, rel: seq<string>)
    requires dir != [] && AllProper(dir) && rel != [] && AllProper(rel)
    ensures Abs("/" + Join(dir), Join(rel)) == "/" + Join(dir + rel)
    ensures Abs("/" + Join(dir), "/" + Join(rel)) == "/" + Join(rel)
  {
    JoinEnds(rel);
    CleanExtended(dir, rel);
    CleanExtended(rel, []);
  }

  function Resolve(cwd: string, folders: seq<Folder>, segs: seq<string>): string
    requires segs != []
  {
    if folders == [] then ""
    else
      var f := folders[0];
      var clean, base := Abs(cwd, JoinElems([f.path] + segs[1..])), Abs(cwd, f.path);
      if Base(f.path) == segs[0] && (clean == base || HasPrefix(clean, base + "/")) then clean
      else Resolve(cwd, folders[1..], segs)
  }

  // A folder answers a request if it has the request's first name and the rest stays inside it.
  ghost predicate Answers(cwd: string, f: Folder, segs: seq<string>)
    requires segs != []
  {
    var clean, base := Abs(cwd, JoinElems([f.path] + segs[1..])), Abs(cwd, f.path);
    Base(f.path) == segs[0] && (clean == base || exists rest :: clean == base + "/" + rest)
  }

  // The first folder that answers decides; if none does there is no result.
  lemma {:induction false} ResolveExactly(cwd: string, folders: seq<Folder>, segs: seq<string>, i: nat)
    requires segs != [] && i <= |folders| && forall j | 0 <= j < i :: !Answers(cwd, folders[j], segs)
    ensures i == |folders| ==> Resolve(cwd, folders, segs) == ""
    ensures i < |folders| && Answers(cwd, folders[i], segs) ==>
              Resolve(cwd, folders, segs) == Abs(cwd, JoinElems([folders[i].path] + segs[1..]))
    decreases |folders|
  {
    if folders != [] {
      var f := folders[0];
      hide Base, Abs, JoinElems, HasPrefix;
      PrefixExactly(Abs(cwd, JoinElems([f.path] + segs[1..])), Abs(cwd, f.path) + "/");
      if i > 0 {
        assert !Answers(cwd, folders[0], segs);
        forall j | 0 <= j < i - 1
          ensures !Answers(cwd, folders[1..][j], segs)
        {
          assert folders[1..][j] == folders[j + 1];
        }
        ResolveExactly(cwd, folders[1..], segs, i - 1);
      }
    }
  }

  method ResolveWatched(cwd: string, folders: seq<Folder>, virtual: string) returns (r: string)
    ensures var segs := Split(Trim(virtual)); r == if segs[0] == "" then "" else Resolve(cwd, folders, segs)
  {
    var segs := Split(Trim(virtual));
    if |segs| == 0 || segs[0] == "" {
      return "";
    }
    for i := 0 to |folders|
      invariant Resolve(cwd, folders, segs) == Resolve(cwd, folders[i..], segs)
    {
      assert folders[i..][1..] == folders[i + 1..];
      var f := folders[i];
      if Base(f.path) != segs[0] {
        continue;
      }
      var clean := Abs(cwd, JoinElems([f.path] + segs[1..]));
      var base := Abs(cwd, f.path);
      if clean == base || HasPrefix(clean, base + "/") {
        return clean;
      }
    }
    return "";
  }

  // No escape: whatever the request holds ("..", ".", empty segments), a result is a folder's absolute
  // path, or that path and '/' and more, and has only proper names left in it.
  lemma {:induction false} ResolveStaysInside(cwd: string, folders: seq<Folder>, segs: seq<string>)
    requires segs != []
    ensures var r := Resolve(cwd, folders, segs);
            r != "" ==>
              && (exists f | f in folders :: Base(f.path) == segs[0]
                                             && (r == Abs(cwd, f.path) || HasPrefix(r, Abs(cwd, f.path) + "/")))
              && exists names :: AllProper(names) && r == "/" + Join(names)
    decreases |folders|
  {
    if folders != [] {
      var f := folders[0];
      var path := JoinElems([f.path] + segs[1..]);
      var full := if Absolute(path) then path else cwd + "/" + path;
      SplitHasNoSlash(full);
      ReduceIsProper(Split(full));
      assert Abs(cwd, path) == "/" + Join(Reduce(Split(full)));
      ResolveStaysInside(cwd, folders[1..], segs);
      assert f in folders && forall g | g in folders[1..] :: g in folders;
    }
  }

  /* ---- the round trip ---- */

  // Names in a directory are proper and distinct, all the way down.
  ghost predicate RealDisk(d: Disk)
    decreases d
  {
    d.Dir? ==>
      && (forall i | 0 <= i < |d.entries| :: Proper(d.entries[i].name) && RealDisk(d.entries[i].disk))
      && (forall i, j | 0 <= i < j < |d.entries| :: d.entries[i].name != d.entries[j].name)
  }

  ghost predicate InTree(n: Node, root: Node)
    decreases root
  {
    n == root || exists i | 0 <= i < |root.children| :: InTree(n, root.children[i])
  }

  ghost predicate DistinctNames(nodes: seq<Node>) {
    forall i, j | 0 <= i < j < |nodes| :: nodes[i].name != nodes[j].name
  }

  // Whatever path is looked up, a result is in the tree and has the last name of the path.
  lemma {:induction false} FoundIsInTree(node: Node, segs: seq<string>, n: Node)
    requires Walk(node, segs) == Some(n)
    ensures InTree(n, node) && (segs != [] ==> n.name == segs[|segs| - 1])
    decreases |segs|
  {
    if segs != [] {
      ChildNamedExactly(node.children, segs[0]);
      var c := ChildNamed(node.children, segs[0]).value;
      var i :| 0 <= i < |node.children| && node.children[i] == c && c.name == segs[0];
      FoundIsInTree(c, segs[1..], n);
      assert InTree(n, node.children[i]);
    }
  }

  lemma {:induction false} ChildNamedFinds(children: seq<Node>, i: nat)
    requires DistinctNames(children) && i < |children|
    ensures ChildNamed(children, children[i].name) == Some(children[i])
    decreases i
  {
    if i > 0 {
      assert children[0].name != children[i].name;
      ChildNamedFinds(children[1..], i - 1);
    }
  }

  ghost function ChildNode(root: string, abs: string, e: Entry, excluded: string -> bool, depth: nat): Node {
    Build(e.name, root, Clean(abs + "/" + e.name), e.disk, excluded, depth + 1)
  }

  ghost predicate Increasing(s: seq<nat>, bound: nat) {
    (forall i | 0 <= i < |s| :: s[i] < bound) && forall i, j | 0 <= i < j < |s| :: s[i] < s[j]
  }

  // Which entries are listed: in order, none that is excluded, and all others unless there are more than
  // fit, in which case the first of them.
  ghost predicate Lists(from: seq<nat>, entries: seq<Entry>, excluded: string -> bool) {
    && Increasing(from, |entries|) && |from| <= 500
    && (forall i | 0 <= i < |from| :: !excluded(entries[from[i]].name))
    && (forall j: nat | j < |entries| && !excluded(entries[j].name) && j !in from ::
          |from| == 500 && forall i | 0 <= i < |from| :: from[i] < j)
  }

  lemma ListsOneMore(from: seq<nat>, entries: seq<Entry>, excluded: string -> bool)
    requires entries != [] && Lists(from, entries[..|entries| - 1], excluded)
    ensures var n := |entries| - 1;
            Lists(if |from| < 500 && !excluded(entries[n].name) then from + [n] else from, entries, excluded)
  {
    var n := |entries| - 1;
    var front := entries[..n];
    assert forall j | 0 <= j < n :: front[j] == entries[j];
    if |from| < 500 && !excluded(entries[n].name) {
      var more := from + [n];
      forall j: nat | j < |entries| && !excluded(entries[j].name)
        ensures j in more
      {
        if j == n {
          assert more[|from|] == n;
        } else {
          assert !excluded(front[j].name);
          assert j in from;
        }
      }
    } else {
      forall j: nat | j < |entries| && !excluded(entries[j].name) && j !in from
        ensures |from| == 500 && forall i | 0 <= i < |from| :: from[i] < j
      {
        if j < n {
          assert !excluded(front[j].name);
        }
      }
    }
  }

  // Each child is built from an entry of its own.
  lemma {:induction false} ChildrenComeFromEntries(root: string, abs: string, entries: seq<Entry>, excluded: string -> bool, depth: nat)
    returns (from: seq<nat>)
    ensures var cs := Children(root, abs, entries, excluded, depth);
            && |from| == |cs| && Lists(from, entries, excluded)
            && forall i | 0 <= i < |cs| :: cs[i] == ChildNode(root, abs, entries[from[i]], excluded, depth)
    decreases |entries|
  {
    hide Build, Lists;
    from := [];
    if entries == [] {
      ListsNothing(excluded);
    } else {
      var n := |entries| - 1;
      var front := entries[..n];
      from := ChildrenComeFromEntries(root, abs, front, excluded, depth);
      ListsOneMore(from, entries, excluded);
      ListedInRange(from, front, excluded);
      assert forall i | 0 <= i < |from| :: entries[from[i]] == front[from[i]];
      if |from| < 500 && !excluded(entries[n].name) {
        from := from + [n];
      }
    }
  }

  lemma ListsNothing(excluded: string -> bool)
    ensures Lists([], [], excluded)
  {
  }

  lemma ListedInRange(from: seq<nat>, entries: seq<Entry>, excluded: string -> bool)
    requires Lists(from, entries, excluded)
    ensures Increasing(from, |entries|)
  {
  }

  // What a folder node holds: below depth 8 the nodes of the listed entries, at depth 8 nothing.
  lemma FolderLists(name: string, root: string, abs: string, entries: seq<Entry>, excluded: string -> bool, depth: nat)
    returns (from: seq<nat>)
    ensures var cs := Build(name, root, abs, Dir(entries), excluded, depth).children;
            if depth >= 8 then cs == []
            else && |from| == |cs| && Lists(from, entries, excluded)
                 && forall i | 0 <= i < |cs| :: cs[i] == ChildNode(root, abs, entries[from[i]], excluded, depth)
  {
    from := ChildrenComeFromEntries(root, abs, entries, excluded, depth);
  }

  lemma ChildrenDistinct(root: string, abs: string, entries: seq<Entry>, excluded: string -> bool, depth: nat, from: seq<nat>)
    requires forall i, j | 0 <= i < j < |entries| :: entries[i].name != entries[j].name
    requires var cs := Children(root, abs, entries, excluded, depth);
             && |from| == |cs| && Increasing(from, |entries|)
             && forall i | 0 <= i < |cs| :: cs[i] == ChildNode(root, abs, entries[from[i]], excluded, depth)
    ensures DistinctNames(Children(root, abs, entries, excluded, depth))
  {
    hide Children, Clean;
    var cs := Children(root, abs, entries, excluded, depth);
    forall i, j | 0 <= i < j < |cs|
      ensures cs[i].name != cs[j].name
    {
      ChildName(root, abs, entries[from[i]], excluded, depth);
      ChildName(root, abs, entries[from[j]], excluded, depth);
    }
  }

  lemma ChildName(root: string, abs: string, e: Entry, excluded: string -> bool, depth: nat)
    ensures ChildNode(root, abs, e, excluded, depth).name == e.name
  {
    hide Clean, Children, Rel;
  }

  // The entry a listed child was built from.
  lemma ChildOrigin(name: string, root: string, abs: string, d: Disk, excluded: string -> bool, depth: nat, i: nat) returns (e: Entry)
    requires i < |Build(name, root, abs, d, excluded, depth).children|
    ensures d.Dir? && e in d.entries && e.disk < d && !excluded(e.name)
    ensures Build(name, root, abs, d, excluded, depth).children[i] == ChildNode(root, abs, e, excluded, depth)
  {
    assert d.Dir? && Build(name, root, abs, d, excluded, depth).children == Children(root, abs, d.entries, excluded, depth);
    hide Build, Children;
    var from := ChildrenComeFromEntries(root, abs, d.entries, excluded, depth);
    e := d.entries[from[i]];
    EntryIsSmaller(d.entries, from[i]);
  }

  // On a real disk it has a proper name, and looking that up finds the child.
  lemma ChildEntry(name: string, root: string, abs: string, d: Disk, excluded: string -> bool, depth: nat, i: nat) returns (e: Entry)
    requires RealDisk(d) && i < |Build(name, root, abs, d, excluded, depth).children|
    ensures d.Dir? && e in d.entries && e.disk < d && !excluded(e.name) && Proper(e.name) && RealDisk(e.disk)
    ensures Build(name, root, abs, d, excluded, depth).children[i] == ChildNode(root, abs, e, excluded, depth)
    ensures ChildNamed(Build(name, root, abs, d, excluded, depth).children, e.name)
            == Some(Build(name, root, abs, d, excluded, depth).children[i])
  {
    e := ChildOrigin(name, root, abs, d, excluded, depth, i);
    assert Build(name, root, abs, d, excluded, depth).children == Children(root, abs, d.entries, excluded, depth);
    hide Build, Children;
    var from := ChildrenComeFromEntries(root, abs, d.entries, excluded, depth);
    ChildrenDistinct(root, abs, d.entries, excluded, depth, from);
    ChildName(root, abs, e, excluded, depth);
    ChildNamedFinds(Children(root, abs, d.entries, excluded, depth), i);
  }

  // What a name after another leads to on disk.
  ghost predicate OnDisk(d: Disk, names: seq<string>, at: Disk)
    decreases |names|
  {
    if names == [] then at == d
    else d.Dir? && exists e | e in d.entries :: e.name == names[0] && OnDisk(e.disk, names[1..], at)
  }

  // A node shows what is on disk: a folder as a folder, a file as a file of its size.
  ghost predicate Shows(n: Node, at: Disk) {
    match at
    case File(size) => !n.isDir && n.size == size && n.children == []
    case Dir(_) => n.isDir
  }

  lemma OnDiskBelow(d: Disk, e: Entry, rest: seq<string>, at: Disk)
    requires d.Dir? && e in d.entries && OnDisk(e.disk, rest, at)
    ensures OnDisk(d, [e.name] + rest, at)
  {
    assert ([e.name] + rest)[1..] == rest;
  }

  // Below a built node, every node's absolute path is that node's and the names walked, its virtual path
  // is relative to the same directory, walking those names finds it, and walking them on disk leads to
  // what the node shows.
  lemma {:induction false} BelowBuilt(name: string, root: string, names: seq<string>, d: Disk, excluded: string -> bool, depth: nat, n: Node)
    returns (more: seq<string>, at: Disk)
    requires names != [] && AllProper(names) && RealDisk(d)
    requires InTree(n, Build(name, root, "/" + Join(names), d, excluded, depth))
    ensures AllProper(more)
    ensures n.path == "/" + Rel(root, n.abs) && n.abs == "/" + Join(names + more)
    ensures Walk(Build(name, root, "/" + Join(names), d, excluded, depth), more) == Some(n)
    ensures forall i | 0 <= i < |more| :: !excluded(more[i])
    ensures OnDisk(d, more, at) && Shows(n, at) && n.name == if more == [] then name else more[|more| - 1]
    decreases d
  {
    hide Clean, Children, ChildNamed, Join, Rel, OnDisk;
    var abs := "/" + Join(names);
    var node := Build(name, root, abs, d, excluded, depth);
    if n == node {
      more, at := [], d;
      assert OnDisk(d, [], d) by {
        HereOnDisk(d);
      }
      assert names + more == names;
    } else {
      var i :| 0 <= i < |node.children| && InTree(n, node.children[i]);
      var e := ChildEntry(name, root, abs, d, excluded, depth, i);
      ChildAbs(names, e.name);
      var rest;
      rest, at := BelowBuilt(e.name, root, names + [e.name], e.disk, excluded, depth + 1, n);
      more := [e.name] + rest;
      OnDiskBelow(d, e, rest, at);
      Regroup(names, e.name, rest);
      WalkDown(node, node.children[i], more, n);
    }
  }

  lemma HereOnDisk(d: Disk)
    ensures OnDisk(d, [], d)
  {
  }

  lemma Regroup(a: seq<string>, x: string, rest: seq<string>)
    ensures a + ([x] + rest) == a + [x] + rest
  {
  }

  lemma WalkDown(node: Node, child: Node, more: seq<string>, n: Node)
    requires more != [] && ChildNamed(node.children, more[0]) == Some(child) && Walk(child, more[1..]) == Some(n)
    ensures Walk(node, more) == Some(n)
  {
  }

  lemma ChildAbs(names: seq<string>, name: string)
    requires names != [] && AllProper(names) && Proper(name)
    ensures Clean("/" + Join(names) + "/" + name) == "/" + Join(names + [name])
  {
    assert Join([name]) == name;
    CleanExtended(names, [name]);
  }

  // A watched folder given by a clean absolute path other than the root.
  ghost predicate CleanFolder(f: Folder, names: seq<string>) {
    names != [] && AllProper(names) && f.path == "/" + Join(names)
  }

  ghost predicate GoodFolders(folders: seq<Folder>) {
    && (forall i | 0 <= i < |folders| :: exists names :: CleanFolder(folders[i], names))
    && (forall i, j | 0 <= i < j < |folders| :: Base(folders[i].path) != Base(folders[j].path))
  }

  // Each child of the root is built from a watched folder of its own, in order.
  lemma {:induction false} FolderNodes(folders: seq<Folder>, disk: string -> Option<Disk>, excluded: (seq<string>, string) -> bool)
    returns (from: seq<nat>)
    ensures var cs := Folders(folders, disk, excluded);
            && |from| == |cs| && Increasing(from, |folders|)
            && forall i | 0 <= i < |cs| ::
                 var f := folders[from[i]];
                 disk(f.path).Some? && cs[i] == FolderChild(f, disk(f.path).value, excluded)
    ensures forall j: nat | j < |folders| :: j in from <==> disk(folders[j].path).Some? && disk(folders[j].path).value.Dir?
    decreases |folders|
  {
    hide FolderChild;
    from := [];
    if folders != [] {
      var n := |folders| - 1;
      var front := folders[..n];
      from := FolderNodes(front, disk, excluded);
      assert forall i | 0 <= i < |from| :: folders[from[i]] == front[from[i]];
      var found := disk(folders[n].path);
      ghost var before := from;
      if found.Some? && found.value.Dir? {
        from := from + [n];
      }
      forall j: nat | j < |folders|
        ensures j in from <==> disk(folders[j].path).Some? && disk(folders[j].path).value.Dir?
      {
        assert j in from <==> j in before || (j == n && found.Some? && found.value.Dir?);
        assert j < n ==> folders[j] == front[j];
        assert n !in before;
      }
    }
  }

  lemma ResolvesHere(cwd: string, f: Folder, names: seq<string>, more: seq<string>)
    requires CleanFolder(f, names) && AllProper(more)
    ensures var clean := Abs(cwd, JoinElems([f.path] + more));
            && clean == "/" + Join(names + more) && Abs(cwd, f.path) == f.path
            && (clean == f.path || HasPrefix(clean, f.path + "/"))
  {
    CleanExtended(names, more);
    var elems := [f.path] + more;
    assert elems[1..] == more;
    assert JoinElems(elems) == if more == [] then f.path else f.path + "/" + Join(more);
    hide CleanAbs, JoinElems, Split;
    if more == [] {
      assert names + more == names;
    } else {
      JoinAppend(names, more);
      hide Join;
      assert "/" + Join(names + more) == f.path + "/" + Join(more);
    }
  }

  lemma {:induction false} ResolveFolder(cwd: string, folders: seq<Folder>, f: Folder, names: seq<string>, more: seq<string>)
    requires forall i, j | 0 <= i < j < |folders| :: Base(folders[i].path) != Base(folders[j].path)
    requires f in folders && CleanFolder(f, names) && AllProper(more)
    ensures Resolve(cwd, folders, [Base(f.path)] + more) == "/" + Join(names + more)
    decreases |folders|
  {
    hide Base, Join, JoinElems, Abs;
    var segs := [Base(f.path)] + more;
    assert segs[1..] == more;
    if folders[0] == f {
      ResolvesHere(cwd, f, names, more);
    } else {
      var k :| 0 <= k < |folders| && folders[k] == f;
      assert Base(folders[0].path) != Base(folders[k].path);
      assert folders[1..][k - 1] == f;
      ResolveFolder(cwd, folders[1..], f, names, more);
    }
  }

  lemma FolderNode(folders: seq<Folder>, disk: string -> Option<Disk>, excluded: (seq<string>, string) -> bool, i: nat)
    returns (f: Folder, names: seq<string>)
    requires GoodFolders(folders) && i < |Folders(folders, disk, excluded)|
    ensures f in folders && disk(f.path).Some? && CleanFolder(f, names) && Base(f.path) == names[|names| - 1]
    ensures Folders(folders, disk, excluded)[i] == FolderChild(f, disk(f.path).value, excluded)
    ensures ChildNamed(Folders(folders, disk, excluded), Base(f.path)) == Some(Folders(folders, disk, excluded)[i])
  {
    hide Base, Children, Folders, Join;
    var cs := Folders(folders, disk, excluded);
    var from := FolderNodes(folders, disk, excluded);
    f := folders[from[i]];
    names :| CleanFolder(folders[from[i]], names);
    BaseOfClean(names);
    assert forall j | 0 <= j < |cs| :: cs[j].name == Base(folders[from[j]].path);
    ChildNamedFinds(cs, i);
  }

  // Every node of the tree is what its own path looks up, and resolving that path gives the absolute
  // path the node was built from.
  lemma TreeRoundTrip(cwd: string, folders: seq<Folder>, disk: string -> Option<Disk>,
                      excluded: (seq<string>, string) -> bool, n: Node)
    requires GoodFolders(folders)
    requires forall f | f in folders && disk(f.path).Some? :: RealDisk(disk(f.path).value)
    requires InTree(n, BuildLocalTree(folders, disk, excluded))
    ensures var root := BuildLocalTree(folders, disk, excluded);
            && Find(root, n.path) == Some(n)
            && (n != root ==> Split(Trim(n.path))[0] != "" && Resolve(cwd, folders, Split(Trim(n.path))) == n.abs)
  {
    hide Base, Join, Rel, Resolve, Build, Split, Trim, ChildNamed;
    var root := BuildLocalTree(folders, disk, excluded);
    if n != root {
      var i :| 0 <= i < |root.children| && InTree(n, root.children[i]);
      var f, names := FolderNode(folders, disk, excluded, i);
      assert Proper(names[|names| - 1]);
      var rel := [Base(f.path)];
      var more, at := BelowBuilt(Base(f.path), f.path, names, disk(f.path).value, Excludes(f, excluded), 0, n);
      RelOfClean(names, more);
      assert (rel + more)[0] == rel[0] && (rel + more)[1..] == more;
      assert AllProper(rel + more);
      VirtualPathSplits(rel + more);
      ResolveFolder(cwd, folders, f, names, more);
    }
  }

  // Why folders are given by clean paths: with a '/' at the end, the folder's own virtual path is "/.",
  // which looks up nothing, and its files lose the folder's name from theirs.
  lemma TrailingSlashBreaksLookup(names: seq<string>, name: string, disk: string -> Option<Disk>, excluded: (seq<string>, string) -> bool,
                                  exclude: seq<string>)
    requires names != [] && AllProper(names) && Proper(name)
    requires var found := disk("/" + Join(names) + "/"); found.Some? && found.value.Dir?
    ensures var root := BuildLocalTree([Folder("/" + Join(names) + "/", exclude)], disk, excluded);
            && |root.children| == 1 && root.children[0].path == "/." && Find(root, "/.") == None
    ensures var path := "/" + Join(names) + "/"; Rel(path, Clean(path + "/" + name)) == name
  {
    var path := "/" + Join(names) + "/";
    var f := Folder(path, exclude);
    SlashedPieces(names, name);
    assert Folders([f][..0], disk, excluded) == [];
    var root := BuildLocalTree([f], disk, excluded);
    assert root.children == [FolderChild(f, disk(path).value, excluded)];
    assert Proper(names[|names| - 1]);
    assert Split(Trim("/.")) == ["."] by {
      assert TrimLeft("/.") == "." && TrimRight(".") == ".";
      SplitWhole(".");
    }
    assert ChildNamed(root.children, ".") == None;
  }

  // Every node but the root shows what is on disk below its folder, at its own absolute path, and no name
  // on the way there is one that the folder's own patterns exclude.
  lemma NodesShowDisk(folders: seq<Folder>, disk: string -> Option<Disk>, excluded: (seq<string>, string) -> bool, n: Node)
    returns (f: Folder, names: seq<string>, more: seq<string>, at: Disk)
    requires GoodFolders(folders)
    requires forall f | f in folders && disk(f.path).Some? :: RealDisk(disk(f.path).value)
    requires InTree(n, BuildLocalTree(folders, disk, excluded)) && n != BuildLocalTree(folders, disk, excluded)
    ensures f in folders && CleanFolder(f, names) && disk(f.path).Some?
    ensures OnDisk(disk(f.path).value, more, at) && Shows(n, at) && n.abs == "/" + Join(names + more)
    ensures forall i | 0 <= i < |more| :: !excluded(f.exclude, more[i])
  {
    hide Base, Join, Rel, Build, OnDisk, Shows;
    var root := BuildLocalTree(folders, disk, excluded);
    var i :| 0 <= i < |root.children| && InTree(n, root.children[i]);
    f, names := FolderNode(folders, disk, excluded, i);
    more, at := BelowBuilt(Base(f.path), f.path, names, disk(f.path).value, Excludes(f, excluded), 0, n);
  }

  lemma {:induction false} BuiltSizesAddUp(name: string, root: string, abs: string, d: Disk, excluded: string -> bool, depth: nat, n: Node)
    requires InTree(n, Build(name, root, abs, d, excluded, depth))
    ensures n.isDir ==> n.size == SumSizes(n.children)
    decreases d
  {
    var node := Build(name, root, abs, d, excluded, depth);
    if n != node {
      var i :| 0 <= i < |node.children| && InTree(n, node.children[i]);
      var e := ChildOrigin(name, root, abs, d, excluded, depth, i);
      BuiltSizesAddUp(e.name, root, Clean(abs + "/" + e.name), e.disk, excluded, depth + 1, n);
    }
  }

  // Every folder in the tree, the root included, is as large as its listed children together.
  lemma SizesAddUp(folders: seq<Folder>, disk: string -> Option<Disk>, excluded: (seq<string>, string) -> bool, n: Node)
    requires InTree(n, BuildLocalTree(folders, disk, excluded))
    ensures n.isDir ==> n.size == SumSizes(n.children)
  {
    var root := BuildLocalTree(folders, disk, excluded);
    if n != root {
      var i :| 0 <= i < |root.children| && InTree(n, root.children[i]);
      var from := FolderNodes(folders, disk, excluded);
      var f := folders[from[i]];
      BuiltSizesAddUp(Base(f.path), f.path, f.path, disk(f.path).value, Excludes(f, excluded), 0, n);
    }
  }
}
