/**
 The rotating log writer (logging.go).  Slot 0 is the live log, slots 1 and 2 the kept generations.
 Renames and opens are taken to succeed, except that renaming a file that is not there does nothing.
*/
module LogRotation {
  import opened Wrappers
  import opened Envelope

  const MAX_LOG_BYTES: nat := 10 * 1024 * 1024
  const KEEP: nat := 3

  // The files on disk, by slot; None until the slot is first used.
  type Slots = map<nat, Bytes>

  function Content(files: Slots, slot: nat): Bytes {
    if slot in files then files[slot] else []
  }

  // Everything kept, oldest first.
  function Kept(files: Slots): Bytes {
    Content(files, 2) + Content(files, 1) + Content(files, 0)
  }

  function Rename(files: Slots, src: nat, dst: nat): Slots {
    if src in files then (files - {src})[dst := files[src]] else files
  }

  class Writer {
    var files: Slots
    var n: nat

    ghost predicate Valid()
      reads this
    {
      && files.Keys <= {0, 1, 2} && 0 in files
      && n == |files[0]|
    }

    // openRotating: append to what is there.
    constructor (files: Slots)
      requires files.Keys <= {0, 1, 2}
      ensures Valid() && Kept(this.files) == Kept(files) && Content(this.files, 0) == Content(files, 0)
      ensures forall s | s != 0 :: s in this.files <==> s in files
      ensures forall s | s != 0 && s in files :: this.files[s] == files[s]
    {
      this.files := files[0 := Content(files, 0)];
      n := |Content(files, 0)|;
    }

    // Shift every generation by one slot, dropping the oldest, and start an empty log.
    method Rotate()
      requires Valid()
      modifies this
      ensures Valid() && n == 0
      ensures Content(files, 0) == [] && Content(files, 1) == old(Content(files, 0))
      ensures Content(files, 2) == if 1 in old(files) then old(Content(files, 1)) else old(Content(files, 2))
      ensures 1 in files && (2 in files <==> 1 in old(files) || 2 in old(files))
    {
      var i := KEEP - 1;
      while i >= 1
        invariant 0 <= i <= 2
        invariant i == 2 ==> files == old(files)
        invariant i == 1 ==> files == Rename(old(files), 1, 2)
        invariant i == 0 ==> files == Rename(Rename(old(files), 1, 2), 0, 1)
      {
        var src := if i > 1 then i - 1 else 0;
        files := Rename(files, src, i);
        i := i - 1;
      }
      files := files[0 := []];
      n := 0;
    }

    method Write(p: Bytes)
      requires Valid()
      modifies this
      ensures Valid()
      ensures if old(n) + |p| > 10_485_760
              then Content(files, 0) == p && Content(files, 1) == old(Content(files, 0))
                   && Content(files, 2) == if 1 in old(files) then old(Content(files, 1)) else old(Content(files, 2))
              else Content(files, 0) == old(Content(files, 0)) + p && Content(files, 1) == old(Content(files, 1))
                   && Content(files, 2) == old(Content(files, 2))
      ensures 1 in files <==> old(n) + |p| > 10_485_760 || 1 in old(files)
      ensures 2 in files <==> 2 in old(files) || (old(n) + |p| > 10_485_760 && 1 in old(files))
    {
      if n + |p| > MAX_LOG_BYTES {
        Rotate();
      }
      files := files[0 := files[0] + p];
      n := n + |p|;
    }
  }

  /* ---- any sequence of writes ---- */

  // Where each write has gone: dropped, slot 2, slot 1 if there is one, or the live log.
  datatype Layout = Layout(dropped: seq<Bytes>, second: seq<Bytes>, first: Option<seq<Bytes>>, live: seq<Bytes>) {
    // Everything ever written, in the order in which it lies on disk, oldest first.
    function All(): seq<Bytes> {
      dropped + second + (if first.Some? then first.value else []) + live
    }
  }

  function Flatten(writes: seq<Bytes>): Bytes {
    if writes == [] then [] else Flatten(writes[..|writes| - 1]) + writes[|writes| - 1]
  }

  // A rotation drops slot 2 only if there is a slot 1 to take its place.
  function Place(l: Layout, p: Bytes): Layout {
    if |Flatten(l.live)| + |p| <= MAX_LOG_BYTES then l.(live := l.live + [p])
    else if l.first.None? then Layout(l.dropped, l.second, Some(l.live), [p])
    else Layout(l.dropped + l.second, l.first.value, Some(l.live), [p])
  }

  // What is there when the log is opened counts as one write a file.
  function StartLayout(files: Slots): Layout {
    Layout([], [Content(files, 2)], if 1 in files then Some([files[1]]) else None, [Content(files, 0)])
  }

  // The layout after a sequence of writes into a directory with these files.
  function LayoutOf(files: Slots, writes: seq<Bytes>): Layout {
    if writes == [] then StartLayout(files)
    else Place(LayoutOf(files, writes[..|writes| - 1]), writes[|writes| - 1])
  }

  // The files hold exactly this.
  ghost predicate Holds(files: Slots, l: Layout) {
    && Content(files, 2) == Flatten(l.second)
    && (1 in files <==> l.first.Some?)
    && (1 in files ==> files[1] == Flatten(l.first.value))
    && Content(files, 0) == Flatten(l.live)
  }

  lemma FlattenOne(x: seq<Bytes>, p: Bytes)
    ensures Flatten(x + [p]) == Flatten(x) + p
    ensures Flatten([p]) == p
  {
    assert (x + [p])[..|x|] == x;
    assert [p][..0] == [];
  }

  lemma {:induction false} FlattenConcat(x: seq<Bytes>, y: seq<Bytes>)
    ensures Flatten(x + y) == Flatten(x) + Flatten(y)
    decreases |y|
  {
    if y == [] {
      assert x + y == x;
    } else {
      var front, last := y[..|y| - 1], y[|y| - 1];
      assert (x + y)[..|x + y| - 1] == x + front;
      FlattenConcat(x, front);
    }
  }

  lemma StartHolds(files: Slots)
    ensures Holds(files, StartLayout(files))
  {
    forall p: Bytes
      ensures Flatten([p]) == p
    {
      FlattenOne([], p);
    }
  }

  lemma LayoutStep(files: Slots, writes: seq<Bytes>, i: nat)
    requires i < |writes|
    ensures LayoutOf(files, writes[..i + 1]) == Place(LayoutOf(files, writes[..i]), writes[i])
  {
    assert writes[..i + 1][..i] == writes[..i];
  }

  // Driving the writer with any writes, over whatever earlier runs have left, puts them on disk in whole
  // runs.
  method WriteAll(files: Slots, writes: seq<Bytes>) returns (w: Writer)
    requires files.Keys <= {0, 1, 2}
    ensures fresh(w) && w.Valid() && Holds(w.files, LayoutOf(files, writes))
  {
    hide LayoutOf, StartLayout, Flatten;
    w := new Writer(files);
    StartHolds(files);
    StartIs(files, writes);
    for i := 0 to |writes|
      invariant fresh(w) && w.Valid() && Holds(w.files, LayoutOf(files, writes[..i]))
    {
      FlattenOne(LayoutOf(files, writes[..i]).live, writes[i]);
      LayoutStep(files, writes, i);
      w.Write(writes[i]);
    }
    assert writes[..|writes|] == writes;
  }

  lemma StartIs(files: Slots, writes: seq<Bytes>)
    ensures LayoutOf(files, writes[..0]) == StartLayout(files)
  {
  }

  lemma PlaceKeepsOrder(l: Layout, p: Bytes)
    ensures Place(l, p).All() == l.All() + [p]
  {
    hide Flatten;
    var kept := l.dropped + l.second + (if l.first.Some? then l.first.value else []);
    assert kept + (l.live + [p]) == kept + l.live + [p];
  }

  // No write is lost from the middle, duplicated, reordered or split: dropped writes, slot 2, slot 1 and
  // the live log are what was there and then the writes, in order, each file a run of whole writes.
  lemma {:induction false} LayoutKeepsOrder(files: Slots, writes: seq<Bytes>)
    ensures LayoutOf(files, writes).All() == StartLayout(files).All() + writes
    decreases |writes|
  {
    if writes != [] {
      hide StartLayout, Place;
      var front, p := writes[..|writes| - 1], writes[|writes| - 1];
      LayoutKeepsOrder(files, front);
      PlaceKeepsOrder(LayoutOf(files, front), p);
      assert writes == front + [p];
    }
  }

  lemma AllOnDisk(files: Slots, l: Layout)
    requires Holds(files, l)
    ensures Flatten(l.All()) == Flatten(l.dropped) + Kept(files)
  {
    var first := if l.first.Some? then l.first.value else [];
    FlattenConcat(l.dropped, l.second);
    FlattenConcat(l.dropped + l.second, first);
    FlattenConcat(l.dropped + l.second + first, l.live);
  }

  // So slot 2, slot 1 and the live log together are a suffix of what they were at the start and
  // everything written since.
  lemma KeptIsSuffix(start: Slots, files: Slots, writes: seq<Bytes>)
    requires Holds(files, LayoutOf(start, writes))
    ensures Kept(start) + Flatten(writes) == Flatten(LayoutOf(start, writes).dropped) + Kept(files)
  {
    hide LayoutOf, Holds, Kept;
    StartHolds(start);
    AllOnDisk(start, StartLayout(start));
    AllOnDisk(files, LayoutOf(start, writes));
    LayoutKeepsOrder(start, writes);
    FlattenConcat(StartLayout(start).All(), writes);
  }

  ghost predicate Bounded(l: Layout, bound: nat) {
    |Flatten(l.second)| <= bound && (l.first.Some? ==> |Flatten(l.first.value)| <= bound) && |Flatten(l.live)| <= bound
  }

  // No file outgrows the limit, the longest single write, and what it was at the start.
  lemma {:induction false} SizesBounded(start: Slots, writes: seq<Bytes>, bound: nat)
    requires bound >= 10_485_760 && Bounded(StartLayout(start), bound)
    requires forall w | w in writes :: |w| <= bound
    ensures Bounded(LayoutOf(start, writes), bound)
    decreases |writes|
  {
    if writes != [] {
      hide StartLayout, Flatten;
      var front, p := writes[..|writes| - 1], writes[|writes| - 1];
      assert p in writes && forall w | w in front :: w in writes;
      SizesBounded(start, front, bound);
      FlattenOne(LayoutOf(start, front).live, p);
    }
  }

  // From an empty directory the files are a suffix of the writes alone.
  lemma FreshLogIsSuffix(files: Slots, writes: seq<Bytes>)
    requires Holds(files, LayoutOf(map[], writes))
    ensures Flatten(writes) == Flatten(LayoutOf(map[], writes).dropped) + Kept(files)
  {
    KeptIsSuffix(map[], files, writes);
    assert Kept(map[]) == [];
  }
}
