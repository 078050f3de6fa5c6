/**
 Slash-separated path strings: the parts of Go's strings and path/filepath packages that the file
 browser relies on (Split, Join, Trim, Clean, Base, Abs).
*/
module Paths {
  import opened Keys

  // A directory entry's name.
  predicate Proper(name: string) {
    name != "" && '/' !in name && name != "." && name != ".."
  }

  ghost predicate AllProper(segs: seq<string>) {
    forall i | 0 <= i < |segs| :: Proper(segs[i])
  }

  function Split(s: string): (r: seq<string>)
    ensures |r| >= 1
  {
    if s == "" then [""]
    else
      var rest := Split(s[1..]);
      if s[0] == '/' then [""] + rest else [[s[0]] + rest[0]] + rest[1..]
  }

  function Join(segs: seq<string>): string {
    if segs == [] then "" else if |segs| == 1 then segs[0] else segs[0] + "/" + Join(segs[1..])
  }

  function TrimLeft(s: string): string {
    if s != "" && s[0] == '/' then TrimLeft(s[1..]) else s
  }

  function TrimRight(s: string): string {
    if s != "" && s[|s| - 1] == '/' then TrimRight(s[..|s| - 1]) else s
  }

  function Trim(s: string): string { TrimRight(TrimLeft(s)) }

  // Drop empty and "." segments and let ".." remove the one before it; at the root ".." does nothing.
  function Reduce(segs: seq<string>): seq<string> {
    if segs == [] then []
    else
      var front, last := Reduce(segs[..|segs| - 1]), segs[|segs| - 1];
      if last == "" || last == "." then front
      else if last == ".." then (if front == [] then [] else front[..|front| - 1])
      else front + [last]
  }

  // filepath.Clean of an absolute path.
  function CleanAbs(path: string): string {
    "/" + Join(Reduce(Split(path)))
  }

  // The same for a relative path, where ".." at the front stays.
  function ReduceRel(segs: seq<string>): seq<string> {
    if segs == [] then []
    else
      var front, last := ReduceRel(segs[..|segs| - 1]), segs[|segs| - 1];
      if last == "" || last == "." then front
      else if last == ".." && front != [] && front[|front| - 1] != ".." then front[..|front| - 1]
      else front + [last]
  }

  // filepath.Clean.
  function Clean(path: string): string {
    if Absolute(path) then CleanAbs(path) else NameOf(ReduceRel(Split(path)))
  }

  // No pieces are the current directory.
  function NameOf(pieces: seq<string>): string {
    if pieces == [] then "." else Join(pieces)
  }

  // The cleaned pieces of a path (filepath.Clean) and of the directory it is in (filepath.Dir).
  function Pieces(path: string): seq<string> {
    if Absolute(path) then Reduce(Split(path)) else ReduceRel(Split(path))
  }

  function DirPieces(path: string): seq<string> {
    var front := Split(path)[..|Split(path)| - 1];
    if Absolute(path) then Reduce(front) else ReduceRel(front)
  }

  function RelPieces(base: seq<string>, target: seq<string>): seq<string> {
    if base != [] && target != [] && base[0] == target[0] then RelPieces(base[1..], target[1..])
    else seq(|base|, _ => "..") + target
  }

  // filepath.Rel from the directory that holds `root` to `abs`.
  function Rel(root: string, abs: string): string {
    NameOf(RelPieces(DirPieces(root), Pieces(abs)))
  }

  // filepath.Join before it cleans: empty elements at the front count for nothing.
  function JoinElems(elems: seq<string>): string {
    if elems == [] then "" else if elems[0] == "" then JoinElems(elems[1..]) else Join(elems)
  }

  // filepath.Base.
  function Base(path: string): string {
    var t := TrimRight(path);
    if path == "" then "." else if t == "" then "/" else Split(t)[|Split(t)| - 1]
  }

  /* ---- facts ---- */

  lemma {:induction false} SplitAtSlash(a: string, b: string)
    ensures Split(a + "/" + b) == Split(a) + Split(b)
    decreases |a|
  {
    var whole := a + "/" + b;
    if a == "" {
      assert whole[1..] == b;
      assert whole == "/" + b;
    } else {
      assert whole[1..] == a[1..] + "/" + b && whole[0] == a[0];
      SplitAtSlash(a[1..], b);
    }
  }

  lemma {:induction false} SplitWhole(s: string)
    requires '/' !in s
    ensures Split(s) == [s]
    decreases |s|
  {
    if s != "" {
      assert s[0] in s && s == [s[0]] + s[1..];
      assert forall c | c in s[1..] :: c in s;
      SplitWhole(s[1..]);
    }
  }

  lemma {:induction false} SplitJoin(segs: seq<string>)
    requires segs != [] && forall i | 0 <= i < |segs| :: '/' !in segs[i]
    ensures Split(Join(segs)) == segs
    decreases |segs|
  {
    SplitWhole(segs[0]);
    if |segs| > 1 {
      SplitAtSlash(segs[0], Join(segs[1..]));
      SplitJoin(segs[1..]);
    }
  }

  lemma {:induction false} JoinEnds(segs: seq<string>)
    requires segs != [] && AllProper(segs)
    ensures var s := Join(segs); s != "" && s[0] == segs[0][0] && s[0] != '/' && s[|s| - 1] != '/'
    decreases |segs|
  {
    assert Proper(segs[0]) && segs[0][0] in segs[0] && segs[0][|segs[0]| - 1] in segs[0];
    if |segs| > 1 {
      JoinEnds(segs[1..]);
    }
  }

  // A virtual path splits into the names it was joined from.
  lemma VirtualPathSplits(segs: seq<string>)
    requires segs != [] && AllProper(segs)
    ensures Trim("/" + Join(segs)) == Join(segs)
    ensures Split(Trim("/" + Join(segs))) == segs
    ensures "/" + Join(segs) != "/" && "/" + Join(segs) != ""
  {
    JoinEnds(segs);
    var s := Join(segs);
    assert ("/" + s)[1..] == s;
    assert TrimLeft(s) == s && TrimRight(s) == s;
    assert forall i | 0 <= i < |segs| :: Proper(segs[i]);
    SplitJoin(segs);
  }

  lemma {:induction false} JoinAppend(a: seq<string>, b: seq<string>)
    requires a != [] && b != []
    ensures Join(a + b) == Join(a) + "/" + Join(b)
    decreases |a|
  {
    if |a| == 1 {
      assert (a + b)[1..] == b;
    } else {
      assert (a + b)[1..] == a[1..] + b;
      JoinAppend(a[1..], b);
    }
  }

  lemma {:induction false} ReduceProper(front: seq<string>, segs: seq<string>)
    requires AllProper(segs)
    ensures Reduce(front + segs) == Reduce(front) + segs
    decreases |segs|
  {
    if segs == [] {
      assert front + segs == front;
    } else {
      var init, last := segs[..|segs| - 1], segs[|segs| - 1];
      assert (front + segs)[..|front + segs| - 1] == front + init;
      assert Proper(segs[|segs| - 1]);
      ReduceProper(front, init);
      assert Reduce(front) + init + [last] == Reduce(front) + segs;
    }
  }

  lemma {:induction false} ReduceSkipsEmptyTail(front: seq<string>)
    ensures Reduce(front + [""]) == Reduce(front)
  {
    assert (front + [""])[..|front|] == front;
  }

  // Reducing the pieces of any path leaves proper names only.
  lemma {:induction false} ReduceIsProper(segs: seq<string>)
    requires forall i | 0 <= i < |segs| :: '/' !in segs[i]
    ensures AllProper(Reduce(segs))
    decreases |segs|
  {
    if segs != [] {
      ReduceIsProper(segs[..|segs| - 1]);
    }
  }

  lemma {:induction false} SplitHasNoSlash(s: string)
    ensures forall i | 0 <= i < |Split(s)| :: '/' !in Split(s)[i]
    decreases |s|
  {
    if s != "" {
      SplitHasNoSlash(s[1..]);
    }
  }

  lemma SplitAbsolute(folder: seq<string>)
    requires folder != [] && AllProper(folder)
    ensures Split("/" + Join(folder)) == [""] + folder
  {
    assert forall i | 0 <= i < |folder| :: Proper(folder[i]);
    SplitJoin(folder);
    assert "/" + Join(folder) == "" + "/" + Join(folder);
    SplitAtSlash("", Join(folder));
  }

  lemma ReduceAbsolute(segs: seq<string>)
    requires AllProper(segs)
    ensures Reduce([""] + segs) == segs
  {
    ReduceProper([""], segs);
    ReduceSkipsEmptyTail([]);
    assert [] + [""] == [""];
  }

  lemma CleanOfPieces(path: string, segs: seq<string>)
    requires AllProper(segs)
    requires Split(path) == [""] + segs || Split(path) == [""] + segs + [""]
    ensures CleanAbs(path) == "/" + Join(segs)
  {
    ReduceAbsolute(segs);
    ReduceSkipsEmptyTail([""] + segs);
  }

  lemma SplitExtended(folder: seq<string>, rel: seq<string>)
    requires AllProper(folder) && AllProper(rel) && folder != []
    ensures Split("/" + Join(folder) + "/" + Join(rel)) == [""] + (folder + rel) + if rel == [] then [""] else []
  {
    var s := "/" + Join(folder);
    SplitAbsolute(folder);
    SplitAtSlash(s, Join(rel));
    if rel != [] {
      assert forall i | 0 <= i < |rel| :: Proper(rel[i]);
      SplitJoin(rel);
    }
  }

  // A clean absolute path, extended by proper names, is clean already.
  lemma CleanExtended(folder: seq<string>, rel: seq<string>)
    requires AllProper(folder) && AllProper(rel) && folder != []
    ensures CleanAbs("/" + Join(folder) + "/" + Join(rel)) == "/" + Join(folder + rel)
    ensures CleanAbs("/" + Join(folder)) == "/" + Join(folder)
  {
    SplitAbsolute(folder);
    CleanOfPieces("/" + Join(folder), folder);
    SplitExtended(folder, rel);
    CleanOfPieces("/" + Join(folder) + "/" + Join(rel), folder + rel);
  }

  lemma BaseOfPieces(path: string, segs: seq<string>)
    requires path != "" && path[|path| - 1] != '/' && segs != [] && Split(path) == [""] + segs
    ensures Base(path) == segs[|segs| - 1]
  {
    assert TrimRight(path) == path;
  }

  lemma BaseOfClean(folder: seq<string>)
    requires AllProper(folder) && folder != []
    ensures Base("/" + Join(folder)) == folder[|folder| - 1]
  {
    JoinEnds(folder);
    var s, j := "/" + Join(folder), Join(folder);
    assert s[|s| - 1] == j[|j| - 1];
    SplitAbsolute(folder);
    BaseOfPieces(s, folder);
  }

  lemma {:induction false} RelPiecesBelow(base: seq<string>, more: seq<string>)
    ensures RelPieces(base, base + more) == more
    decreases |base|
  {
    if base == [] {
      assert base + more == more;
      assert seq(|base|, _ => "..") + more == more;
    } else {
      assert (base + more)[1..] == base[1..] + more;
      RelPiecesBelow(base[1..], more);
    }
  }

  lemma PiecesOfClean(folder: seq<string>)
    requires folder != [] && AllProper(folder)
    ensures Pieces("/" + Join(folder)) == folder
    ensures DirPieces("/" + Join(folder)) == folder[..|folder| - 1]
  {
    var up := folder[..|folder| - 1];
    SplitAbsolute(folder);
    hide Split, Reduce, Join;
    assert ([""] + folder)[..|folder|] == [""] + up;
    ReduceAbsolute(folder);
    ReduceAbsolute(up);
  }

  // Below a folder with a clean path, the relative path starts with the folder's own name.
  lemma RelOfClean(folder: seq<string>, more: seq<string>)
    requires folder != [] && AllProper(folder) && AllProper(more)
    ensures Rel("/" + Join(folder), "/" + Join(folder + more)) == Join([folder[|folder| - 1]] + more)
  {
    hide Pieces, DirPieces, Join, RelPieces, CleanAbs;
    var n := |folder| - 1;
    var up, rel := folder[..n], [folder[n]] + more;
    PiecesOfClean(folder);
    PiecesOfClean(folder + more);
    assert folder + more == up + rel;
    RelPiecesBelow(up, rel);
  }

  // With a '/' at the end, the folder itself counts as the directory that holds it.
  lemma SlashedPieces(folder: seq<string>, name: string)
    requires folder != [] && AllProper(folder) && Proper(name)
    ensures var path := "/" + Join(folder) + "/";
            && Rel(path, path) == "." && Base(path) == folder[|folder| - 1]
            && Rel(path, Clean(path + "/" + name)) == name
  {
    SlashedFolder(folder);
    SlashedBase(folder);
    SlashedChild(folder, name);
    hide Pieces, DirPieces, RelPieces, Clean, Base;
    RelPiecesBelow(folder, []);
    assert folder + [] == folder;
    RelPiecesBelow(folder, [name]);
    assert Join([name]) == name;
  }

  lemma SlashedFolder(folder: seq<string>)
    requires folder != [] && AllProper(folder)
    ensures var path := "/" + Join(folder) + "/"; Pieces(path) == folder && DirPieces(path) == folder
  {
    var path := "/" + Join(folder) + "/";
    SplitExtended(folder, []);
    assert path == path + Join([]);
    assert folder + [] == folder;
    hide Split, Reduce, Join;
    var pieces := [""] + folder + [""];
    assert pieces[..|pieces| - 1] == [""] + folder;
    ReduceAbsolute(folder);
    ReduceSkipsEmptyTail([""] + folder);
  }

  lemma SlashedBase(folder: seq<string>)
    requires folder != [] && AllProper(folder)
    ensures Base("/" + Join(folder) + "/") == folder[|folder| - 1]
  {
    var bare := "/" + Join(folder);
    JoinEnds(folder);
    BaseOfClean(folder);
    hide Split, Join, TrimRight;
    assert bare[|bare| - 1] == Join(folder)[|Join(folder)| - 1];
    TrimRightExactly(bare, "/");
    TrimRightExactly(bare, "");
    assert bare + "" == bare;
  }

  lemma SlashedChild(folder: seq<string>, name: string)
    requires folder != [] && AllProper(folder) && Proper(name)
    ensures Clean("/" + Join(folder) + "/" + "/" + name) == "/" + Join(folder + [name])
    ensures Pieces("/" + Join(folder + [name])) == folder + [name]
  {
    var bare := "/" + Join(folder);
    var below := folder + [name];
    SplitAbsolute(folder);
    assert bare + "/" + "/" + name == (bare + "/") + "/" + name;
    SplitAtSlash(bare + "/", name);
    assert bare + "/" == bare + "/" + "";
    SplitAtSlash(bare, "");
    SplitWhole(name);
    ReduceAbsolute(folder);
    ReduceSkipsEmptyTail([""] + folder);
    ReduceProper([""] + folder + [""], [name]);
    SplitAbsolute(below);
    ReduceAbsolute(below);
  }

  /* ---- what cleaning does ---- */

  lemma {:induction false} ReduceSame(a: seq<string>, a1: seq<string>, b: seq<string>)
    requires Reduce(a) == Reduce(a1)
    ensures Reduce(a + b) == Reduce(a1 + b)
    decreases |b|
  {
    if b == [] {
      assert a + b == a && a1 + b == a1;
    } else {
      var front := b[..|b| - 1];
      assert (a + b)[..|a + b| - 1] == a + front && (a1 + b)[..|a1 + b| - 1] == a1 + front;
      ReduceSame(a, a1, front);
    }
  }

  lemma ReduceOne(a: seq<string>, last: string)
    ensures Reduce(a + [last]) ==
            if last == "" || last == "." then Reduce(a)
            else if last == ".." then (if Reduce(a) == [] then [] else Reduce(a)[..|Reduce(a)| - 1])
            else Reduce(a) + [last]
  {
    assert (a + [last])[..|a|] == a;
  }

  // Anywhere in an absolute path, "" and "." count for nothing and ".." takes away the name before it; at
  // the root ".." counts for nothing either.
  lemma ReduceCancels(a: seq<string>, name: string, b: seq<string>)
    requires Proper(name)
    ensures Reduce(a + [""] + b) == Reduce(a + b) && Reduce(a + ["."] + b) == Reduce(a + b)
    ensures Reduce(a + [name, ".."] + b) == Reduce(a + b)
    ensures Reduce([".."] + b) == Reduce(b)
  {
    ReduceOne(a, "");
    ReduceOne(a, ".");
    ReduceOne(a, name);
    ReduceOne(a + [name], "..");
    assert a + [name] + [".."] == a + [name, ".."];
    ReduceOne([], "..");
    assert [] + [".."] == [".."] && [] + b == b;
    hide Reduce;
    ReduceSame(a + [""], a, b);
    ReduceSame(a + ["."], a, b);
    ReduceSame(a + [name, ".."], a, b);
    ReduceSame([".."], [], b);
  }

  lemma {:induction false} ReduceRelSame(a: seq<string>, a1: seq<string>, b: seq<string>)
    requires ReduceRel(a) == ReduceRel(a1)
    ensures ReduceRel(a + b) == ReduceRel(a1 + b)
    decreases |b|
  {
    if b == [] {
      assert a + b == a && a1 + b == a1;
    } else {
      var front := b[..|b| - 1];
      assert (a + b)[..|a + b| - 1] == a + front && (a1 + b)[..|a1 + b| - 1] == a1 + front;
      ReduceRelSame(a, a1, front);
    }
  }

  lemma ReduceRelOne(a: seq<string>, last: string)
    ensures var r := ReduceRel(a);
            ReduceRel(a + [last]) ==
            if last == "" || last == "." then r
            else if last == ".." && r != [] && r[|r| - 1] != ".." then r[..|r| - 1]
            else r + [last]
  {
    assert (a + [last])[..|a|] == a;
  }

  // The same in a relative path, except that ".." with no name before it stays.
  lemma ReduceRelCancels(a: seq<string>, name: string, b: seq<string>)
    requires Proper(name)
    ensures ReduceRel(a + [""] + b) == ReduceRel(a + b) && ReduceRel(a + ["."] + b) == ReduceRel(a + b)
    ensures ReduceRel(a + [name, ".."] + b) == ReduceRel(a + b)
  {
    ReduceRelOne(a, "");
    ReduceRelOne(a, ".");
    ReduceRelOne(a, name);
    ReduceRelOne(a + [name], "..");
    assert a + [name] + [".."] == a + [name, ".."];
    hide ReduceRel;
    ReduceRelSame(a + [""], a, b);
    ReduceRelSame(a + ["."], a, b);
    ReduceRelSame(a + [name, ".."], a, b);
  }

  function Ups(n: nat): seq<string> {
    if n == 0 then [] else Ups(n - 1) + [".."]
  }

  lemma {:induction false} ReduceRelUps(ups: nat)
    ensures ReduceRel(Ups(ups)) == Ups(ups)
    decreases ups
  {
    if ups > 0 {
      ReduceRelUps(ups - 1);
      ReduceRelOne(Ups(ups - 1), "..");
      hide ReduceRel;
    }
  }

  lemma {:induction false} ReduceRelProper(ups: nat, names: seq<string>)
    requires AllProper(names)
    ensures ReduceRel(Ups(ups) + names) == Ups(ups) + names
    decreases |names|
  {
    hide ReduceRel, Ups;
    ReduceRelUps(ups);
    if names == [] {
      assert Ups(ups) + names == Ups(ups);
    } else {
      var n := |names| - 1;
      var front := names[..n];
      assert Proper(names[n]);
      ReduceRelProper(ups, front);
      ReduceRelOne(Ups(ups) + front, names[n]);
      assert Ups(ups) + front + [names[n]] == Ups(ups) + names;
    }
  }

  // A clean relative path is left alone; no path is the current directory.
  lemma CleanRelative(names: seq<string>)
    requires names != [] && AllProper(names)
    ensures Clean(Join(names)) == Join(names)
  {
    JoinEnds(names);
    assert forall i | 0 <= i < |names| :: Proper(names[i]);
    SplitJoin(names);
    hide Split, Join, ReduceRel;
    ReduceRelProper(0, names);
    assert Ups(0) + names == names;
    assert !Absolute(Join(names));
  }

  lemma {:induction false} JoinRelative(segs: seq<string>)
    requires segs != [] && forall i | 0 <= i < |segs| :: '/' !in segs[i] && segs[i] != ""
    ensures Join(segs) != "" && Join(segs)[0] != '/'
  {
    assert segs[0][0] in segs[0];
  }

  lemma UpsAreDots(ups: nat)
    ensures |Ups(ups)| == ups && forall i | 0 <= i < ups :: Ups(ups)[i] == ".."
  {
  }

  lemma RelativePieces(ups: nat, folder: seq<string>)
    requires AllProper(folder)
    ensures forall i | 0 <= i < |Ups(ups) + folder| :: '/' !in (Ups(ups) + folder)[i] && (Ups(ups) + folder)[i] != ""
  {
    UpsAreDots(ups);
    hide Ups;
    forall i | 0 <= i < |Ups(ups) + folder|
      ensures '/' !in (Ups(ups) + folder)[i] && (Ups(ups) + folder)[i] != ""
    {
      if i >= ups {
        assert Proper(folder[i - ups]);
      }
    }
  }

  lemma FrontOf(a: seq<string>, b: seq<string>)
    requires b != []
    ensures (a + b)[..|a + b| - 1] == a + b[..|b| - 1]
  {
  }

  lemma MovedOver(a: seq<string>, b: seq<string>, c: seq<string>)
    requires b != []
    ensures a + (b + c) == (a + b[..|b| - 1]) + ([b[|b| - 1]] + c)
  {
  }

  // The pieces of a clean relative path, and of the directory it is in.
  lemma PiecesOfRelative(ups: nat, folder: seq<string>)
    requires folder != [] && AllProper(folder)
    ensures Pieces(Join(Ups(ups) + folder)) == Ups(ups) + folder
    ensures DirPieces(Join(Ups(ups) + folder)) == Ups(ups) + folder[..|folder| - 1]
  {
    hide Ups, Split, Join, ReduceRel;
    RelativePieces(ups, folder);
    FrontOf(Ups(ups), folder);
    JoinRelative(Ups(ups) + folder);
    SplitJoin(Ups(ups) + folder);
    ReduceRelProper(ups, folder);
    ReduceRelProper(ups, folder[..|folder| - 1]);
    assert !Absolute(Join(Ups(ups) + folder));
  }

  // Below a folder with a clean relative path the relative path starts with the folder's own name too.
  lemma RelOfRelative(ups: nat, folder: seq<string>, more: seq<string>)
    requires folder != [] && AllProper(folder) && AllProper(more)
    ensures Rel(Join(Ups(ups) + folder), Join(Ups(ups) + (folder + more))) == Join([folder[|folder| - 1]] + more)
  {
    hide Pieces, DirPieces, Join, RelPieces, Ups;
    PiecesOfRelative(ups, folder);
    PiecesOfRelative(ups, folder + more);
    MovedOver(Ups(ups), folder, more);
    hide AllProper;
    RelPiecesBelow(Ups(ups) + folder[..|folder| - 1], [folder[|folder| - 1]] + more);
  }

  lemma CleanNothing()
    ensures Clean("") == "."
  {
    ReduceRelOne([], "");
    assert [] + [""] == [""];
  }

  /* ---- trimming, names, joining ---- */

  ghost predicate AllSlashes(s: string) {
    forall c | c in s :: c == '/'
  }

  lemma {:induction false} TrimLeftExactly(l: string, m: string)
    requires AllSlashes(l) && (m == "" || m[0] != '/')
    ensures TrimLeft(l + m) == m
    decreases |l|
  {
    if l != "" {
      assert l[0] in l && (l + m)[1..] == l[1..] + m && forall c | c in l[1..] :: c in l;
      TrimLeftExactly(l[1..], m);
    } else {
      assert l + m == m;
    }
  }

  lemma {:induction false} TrimRightExactly(m: string, r: string)
    requires AllSlashes(r) && (m == "" || m[|m| - 1] != '/')
    ensures TrimRight(m + r) == m
    decreases |r|
  {
    if r != "" {
      var front := r[..|r| - 1];
      assert AllSlashes(front) by {
        forall c | c in front
          ensures c == '/'
        {
          assert c in r;
        }
      }
      assert r[|r| - 1] in r && (m + r)[..|m + r| - 1] == m + front;
      TrimRightExactly(m, front);
    } else {
      assert m + r == m;
    }
  }

  // All slashes at both ends go, and nothing else.
  lemma TrimExactly(l: string, m: string, r: string)
    requires AllSlashes(l) && AllSlashes(r) && (m == "" || (m[0] != '/' && m[|m| - 1] != '/'))
    ensures Trim(l + m + r) == m
  {
    if m == "" {
      SlashesJoin(l, r);
      assert l + m + r == (l + r) + "";
      TrimLeftExactly(l + r, "");
    } else {
      assert l + m + r == l + (m + r);
      assert (m + r)[0] == m[0];
      TrimLeftExactly(l, m + r);
      TrimRightExactly(m, r);
    }
  }

  lemma SlashesJoin(l: string, r: string)
    requires AllSlashes(l) && AllSlashes(r)
    ensures AllSlashes(l + r)
  {
  }

  // The last name of any path that has one, whatever slashes follow it.
  lemma BaseExactly(front: string, name: string, slashes: string)
    requires name != "" && '/' !in name && AllSlashes(slashes)
    ensures Base(name + slashes) == name && Base(front + "/" + name + slashes) == name
    ensures Base("") == "." && Base("/") == "/"
  {
    assert name[|name| - 1] in name;
    TrimRightExactly(name, slashes);
    SplitWhole(name);
    var path := front + "/" + name;
    assert path[|path| - 1] == name[|name| - 1];
    TrimRightExactly(path, slashes);
    SplitAtSlash(front, name);
    assert TrimRight("/") == "" by {
      assert "/"[..0] == "";
    }
  }

  lemma {:induction false} JoinElemsSkips(empties: nat, elems: seq<string>)
    requires elems == [] || elems[0] != ""
    ensures JoinElems(seq(empties, _ => "") + elems) == Join(elems)
    decreases empties
  {
    var all := seq(empties, _ => "") + elems;
    if empties > 0 {
      assert all[1..] == seq(empties - 1, _ => "") + elems;
      JoinElemsSkips(empties - 1, elems);
    } else {
      assert all == elems;
    }
  }

  // From one directory to another: up to where they part, and down.
  lemma {:induction false} RelPiecesExactly(common: seq<string>, up: seq<string>, down: seq<string>)
    requires up == [] || down == [] || up[0] != down[0]
    ensures RelPieces(common + up, common + down) == seq(|up|, _ => "..") + down
    decreases |common|
  {
    if common == [] {
      assert common + up == up && common + down == down;
    } else {
      assert (common + up)[1..] == common[1..] + up && (common + down)[1..] == common[1..] + down;
      RelPiecesExactly(common[1..], up, down);
    }
  }
}
