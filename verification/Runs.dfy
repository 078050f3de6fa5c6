/**
 Whole histories: passes, complete or cut short anywhere, mixed with arbitrary outside changes.  The
 question is what a pass can destroy; the answer is only content that both sides once held.
*/
module Runs {
  import opened Wrappers
  import opened Envelope
  import opened Cells
  import opened Planner
  import opened Worlds
  import opened Passes

  // Some pass, stopped after some number of its effects, leads from w to w1.
  ghost predicate PassTo(cfg: Config, w: World, w1: World, ops: seq<Op>, ent: Entropy, n: nat, k: nat) {
    && PlanOf(cfg, w, ops) && n <= |ops| && k <= STEPS && (n == |ops| ==> k == 0)
    && w1 == RunPart(cfg, w, LocalSnap(cfg, w), ops, ent, n, k)
  }

  ghost predicate PassStep(cfg: Config, w: World, w1: World) {
    exists ops, ent, n, k :: PassTo(cfg, w, w1, ops, ent, n, k)
  }

  // Local edits, local deletes, foreign puts and deletes, resolved conflicts: anything but the rows, as
  // long as the files stay where the scan looks and the objects open there.  Objects may carry a wrong
  // label, or none.
  ghost predicate OutsideStep(cfg: Config, w: World, w1: World) {
    w1.rows == w.rows && Tame(cfg, w1)
  }

  // A history from a fresh install: no rows at the start.
  ghost predicate History(cfg: Config, t: seq<World>) {
    && |t| > 0 && Tame(cfg, t[0]) && t[0].rows == map[]
    && forall i | 0 <= i < |t| - 1 :: PassStep(cfg, t[i], t[i + 1]) || OutsideStep(cfg, t[i], t[i + 1])
  }

  // At some point up to i, both sides held these bytes at p.
  ghost predicate OnceMirrored(cfg: Config, t: seq<World>, i: nat, p: string, content: Option<Bytes>)
    requires i < |t|
  {
    exists j | 0 <= j <= i :: BothHold(ViewAt(cfg, t[j], p), content)
  }

  // What one pass step may do to the cell of p.
  lemma PassStepAt(cfg: Config, w: World, w1: World, p: string)
    requires ValidConfig(cfg) && Tame(cfg, w) && PassStep(cfg, w, w1)
    ensures var h := cfg.prim.hash;
            var c, d := ViewAt(cfg, w, p), ViewAt(cfg, w1, p);
            && TameAt(cfg, w1, p)
            && (c.file.Some? && d.file != c.file ==> c.row == FileHash(h, c) && d.file.Some?)
            && (c.obj.Some? && d.obj.Some? && d.obj != c.obj ==>
                  c.row.Some? && (Digest(c) == c.row || Digest(c) == Some("")))
            && (c.obj.Some? && d.obj.None? ==> c.row.Some? && c.file.None?)
            && (d.row.Some? && d.row != c.row ==> BothHold(d, d.file) && d.row == FileHash(h, d))
  {
    hide RunPart, Tame, ViewAt, PlanOf, LocalSnap, Touched;
    var ops, ent, n, k :| PassTo(cfg, w, w1, ops, ent, n, k);
    var h, c := cfg.prim.hash, ViewAt(cfg, w, p);
    PartialPass(cfg, w, ops, ent, n, k);
    TameEverywhere(cfg, w1, p);
    OnlyRecordedContentIsReplaced(h, c, 0);
    OnlyRecordedContentIsReplaced(h, c, k);
    OnlyRecordedContentIsReplaced(h, c, STEPS);
    assert CellAdvance(h, c, CellDecide(h, c), ScanDigest(h, c), Todo, 0).0 == c;
  }

  lemma TameEverywhere(cfg: Config, w: World, p: string)
    requires Tame(cfg, w)
    ensures TameAt(cfg, w, p)
  {
  }

  // In every world of a history: it is tame, and every row records bytes that both sides once held.
  lemma {:induction false} RowsRecordMirrors(cfg: Config, t: seq<World>, i: nat)
    requires ValidConfig(cfg) && History(cfg, t) && i < |t|
    ensures Tame(cfg, t[i])
    ensures forall p | ViewAt(cfg, t[i], p).row.Some? ::
              exists b :: OnceMirrored(cfg, t, i, p, Some(b)) && cfg.prim.hash(b) == ViewAt(cfg, t[i], p).row.value
    decreases i
  {
    if i > 0 {
      RowsRecordMirrors(cfg, t, i - 1);
      var w, w1 := t[i - 1], t[i];
      assert PassStep(cfg, t[i - 1], t[i - 1 + 1]) || OutsideStep(cfg, t[i - 1], t[i - 1 + 1]);
      forall p
        ensures PassStep(cfg, w, w1) ==> TameAt(cfg, w1, p)
        ensures ViewAt(cfg, w1, p).row.Some? ==>
                  exists b :: OnceMirrored(cfg, t, i, p, Some(b)) && cfg.prim.hash(b) == ViewAt(cfg, w1, p).row.value
      {
        var c, d := ViewAt(cfg, w, p), ViewAt(cfg, w1, p);
        if PassStep(cfg, w, w1) {
          PassStepAt(cfg, w, w1, p);
        }
        if d.row.Some? {
          if d.row == c.row {
            var b :| OnceMirrored(cfg, t, i - 1, p, Some(b)) && cfg.prim.hash(b) == c.row.value;
            assert OnceMirrored(cfg, t, i, p, Some(b));
          } else {
            assert BothHold(ViewAt(cfg, t[i], p), Some(d.file.value));
            assert OnceMirrored(cfg, t, i, p, Some(d.file.value));
          }
        }
      }
    }
  }

  // No unsynced version is overwritten, over any history: a pass never removes a file; bytes it replaces
  // in a file are bytes both sides held before; it puts over an object only if its label is the recorded
  // one or empty, and bytes under an honest label were on both sides before; an object it deletes has a
  // row and no file, and was mirrored too unless it changed since the row was written.
  lemma NothingUnsyncedIsOverwritten(cfg: Config, t: seq<World>, i: nat, p: string)
    requires ValidConfig(cfg) && History(cfg, t) && i + 1 < |t| && PassStep(cfg, t[i], t[i + 1])
    ensures var c, d := ViewAt(cfg, t[i], p), ViewAt(cfg, t[i + 1], p);
            && (c.file.Some? ==> d.file.Some?)
            && (c.file.Some? && d.file != c.file ==> OnceMirrored(cfg, t, i, p, c.file))
            && (c.obj.Some? && d.obj.Some? && d.obj != c.obj ==>
                  && c.row.Some? && (Digest(c) == c.row || Digest(c) == Some(""))
                  && (WellLabelled(cfg.prim.hash, c) ==> OnceMirrored(cfg, t, i, p, c.obj.value.plain)))
            && (c.obj.Some? && d.obj.None? ==>
                  c.row.Some? && c.file.None?
                  && (Digest(c) == c.row && WellLabelled(cfg.prim.hash, c) ==> OnceMirrored(cfg, t, i, p, c.obj.value.plain)))
  {
    RowsRecordMirrors(cfg, t, i);
    PassStepAt(cfg, t[i], t[i + 1], p);
    var c := ViewAt(cfg, t[i], p);
    if c.row.Some? {
      var b :| OnceMirrored(cfg, t, i, p, Some(b)) && cfg.prim.hash(b) == c.row.value;
      assert c.file.Some? && c.row == FileHash(cfg.prim.hash, c) ==> c.file == Some(b);
      assert WellLabelled(cfg.prim.hash, c) && c.obj.Some? && c.row == Digest(c) ==> c.obj.value.plain == Some(b);
    }
  }

  lemma {:induction false} AdvanceKeepsFiles(cfg: Config, w: World, op: Op, entry: LocalEntry, f: Fresh, stage: Stage, k: nat)
    requires op.kind != DeleteLocal
    ensures w.files.Keys <= Advance(cfg, w, op, entry, f, stage, k).0.files.Keys
    decreases k
  {
    if k > 0 {
      var (w1, s1) := Step(cfg, w, op, entry, f, stage);
      AdvanceKeepsFiles(cfg, w1, op, entry, f, s1, k - 1);
    }
  }

  lemma {:induction false} RunOpsKeepsFiles(cfg: Config, w: World, local: LocalSnapshot, ops: seq<Op>, ent: Entropy)
    requires forall op | op in ops :: op.kind != DeleteLocal
    ensures w.files.Keys <= RunOps(cfg, w, local, ops, ent).0.files.Keys
    decreases |ops|
  {
    if ops != [] {
      var entry, f := EntryFor(local, ops[0].path), ent(ops[0].path);
      assert ops[0] in ops && forall op | op in ops[1..] :: op in ops;
      AdvanceKeepsFiles(cfg, w, ops[0], entry, f, Todo, STEPS);
      RunOpsKeepsFiles(cfg, RunOp(cfg, w, ops[0], entry, f).0, local, ops[1..], ent);
    }
  }

  // Passes never make a file disappear, in any world at all.
  lemma PassKeepsFiles(cfg: Config, w: World, w1: World)
    requires PassStep(cfg, w, w1)
    ensures w.files.Keys <= w1.files.Keys
  {
    hide RunOps, Advance;
    var ops: seq<Op>, ent: Entropy, n: nat, k: nat :| PassTo(cfg, w, w1, ops, ent, n, k);
    var local := LocalSnap(cfg, w);
    forall op | op in ops
      ensures op.kind != DeleteLocal
    {
      assert Planned(op, local, RemoteSnap(cfg, w), w.rows, cfg.machine);
    }
    assert forall op | op in ops[..n] :: op in ops;
    RunOpsKeepsFiles(cfg, w, local, ops[..n], ent);
    if n < |ops| {
      assert ops[n] in ops;
      AdvanceKeepsFiles(cfg, RunOps(cfg, w, local, ops[..n], ent).0, ops[n], EntryFor(local, ops[n].path), ent(ops[n].path), Todo, k);
    }
  }

  lemma {:induction false} FilesNeverShrink(cfg: Config, t: seq<World>, i: nat, j: nat)
    requires forall m | 0 <= m < |t| - 1 :: PassStep(cfg, t[m], t[m + 1])
    requires i <= j < |t|
    ensures t[i].files.Keys <= t[j].files.Keys
    decreases j
  {
    if i < j {
      hide PassStep;
      FilesNeverShrink(cfg, t, i, j - 1);
      assert PassStep(cfg, t[j - 1], t[j - 1 + 1]);
      PassKeepsFiles(cfg, t[j - 1], t[j]);
    }
  }
}
