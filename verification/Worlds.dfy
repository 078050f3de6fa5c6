/**
 The engine's world: local files, bucket, state rows, conflict list and byte counters.  `Step` is one
 atomic store effect of one operation (execute, doUpload, doDownload in engine.go).  `ViewAt` shows one
 path of a world as a `Cell`; the projection lemmas say that an operation on a path acts on that
 path's cell as `CellStep` does and leaves every other cell alone.
*/
module Worlds {
  import opened Wrappers
  import opened Envelope
  import opened Cells
  import opened Keys
  import opened Planner

  // `watched` stands for the folder walk with its exclude patterns: the files a scan reports.
  datatype Config = Config(prim: Primitives, machine: string, master: Bytes, watched: string -> bool)

  ghost predicate ValidConfig(cfg: Config) {
    Lawful(cfg.prim) && |cfg.master| == KEY_SIZE
  }

  datatype ConflictRecord = ConflictRecord(id: string, path: string)

  datatype World = World(
    files: map<string, Bytes>,
    bucket: map<string, Obj>,
    rows: StateSnapshot,
    conflicts: seq<ConflictRecord>,
    up: nat,
    down: nat)

  /* ---- snapshots ---- */

  function LocalSnap(cfg: Config, w: World): LocalSnapshot {
    map p | p in w.files && cfg.watched(p) :: LocalEntry(|w.files[p]|, cfg.prim.hash(w.files[p]))
  }

  function RemotePaths(cfg: Config, w: World): set<string> {
    set k | k in w.bucket && Listed(cfg.machine, k) :: PathFromKey(cfg.machine, k)
  }

  lemma RemotePathsKeys(cfg: Config, w: World)
    ensures forall p | p in RemotePaths(cfg, w) ::
              Absolute(p) && KeyFor(cfg.machine, p) in w.bucket && Listed(cfg.machine, KeyFor(cfg.machine, p))
    ensures forall p | Absolute(p) && KeyFor(cfg.machine, p) in w.bucket && Listed(cfg.machine, KeyFor(cfg.machine, p)) ::
              p in RemotePaths(cfg, w)
  {
    forall p | p in RemotePaths(cfg, w)
      ensures Absolute(p) && KeyFor(cfg.machine, p) in w.bucket && Listed(cfg.machine, KeyFor(cfg.machine, p))
    {
      var k :| k in w.bucket && Listed(cfg.machine, k) && PathFromKey(cfg.machine, k) == p;
      KeyRoundTrip(cfg.machine, p, k);
    }
    forall p | Absolute(p) && KeyFor(cfg.machine, p) in w.bucket && Listed(cfg.machine, KeyFor(cfg.machine, p))
      ensures p in RemotePaths(cfg, w)
    {
      KeyRoundTrip(cfg.machine, p, KeyFor(cfg.machine, p));
    }
  }

  function RemoteSnap(cfg: Config, w: World): RemoteSnapshot {
    RemotePathsKeys(cfg, w);
    map p | p in RemotePaths(cfg, w) ::
      RemoteEntry(KeyFor(cfg.machine, p), w.bucket[KeyFor(cfg.machine, p)].meta.digest)
  }

  /* ---- one store effect ---- */

  // A path is listed at most once.
  function RecordConflict(conflicts: seq<ConflictRecord>, path: string, id: string): seq<ConflictRecord> {
    if exists c | c in conflicts :: c.path == path then conflicts else conflicts + [ConflictRecord(id, path)]
  }

  function Step(cfg: Config, w: World, op: Op, entry: LocalEntry, f: Fresh, stage: Stage): (World, Stage) {
    match op.kind
    case Upload =>
      (match stage
       case Todo => if op.path in w.files then (w, Read(w.files[op.path])) else (w, Failed)
       case Read(b) =>
         (match SealObject(cfg.prim, cfg.master, b, entry.hash, entry.size, f)
          case None => (w, Failed)
          case Some(o) => (w.(bucket := w.bucket[op.key := o], up := w.up + |o.ct|), Stored))
       case Stored => (w.(rows := w.rows[op.path := Row(entry.size, entry.hash, op.key)]), Finished)
       case _ => (w, stage))
    case Download =>
      (match stage
       case Todo =>
         if op.key !in w.bucket then (w, Failed)
         else
           (match OpenObject(cfg.prim, cfg.master, w.bucket[op.key])
            case None => (w, Failed)
            case Some(b) => (w, Fetched(b)))
       case Fetched(b) => (w.(files := w.files[op.path := b], down := w.down + |b|), Written(b))
       case Written(b) => (w.(rows := w.rows[op.path := Row(|b|, cfg.prim.hash(b), op.key)]), Finished)
       case _ => (w, stage))
    case DeleteRemote =>
      (match stage
       case Todo => (w.(bucket := w.bucket - {op.key}), Removed)
       case Removed => (w.(rows := w.rows - {op.path}), Finished)
       case _ => (w, stage))
    case DeleteLocal =>
      (match stage
       case Todo => (w.(files := w.files - {op.path}), Removed)
       case Removed => (w.(rows := w.rows - {op.path}), Finished)
       case _ => (w, stage))
    case Conflict =>
      if stage.Todo? then (w.(conflicts := RecordConflict(w.conflicts, op.path, f.clock)), Finished) else (w, stage)
    case Noop => (w, if stage.Todo? then Finished else stage)
  }

  function Advance(cfg: Config, w: World, op: Op, entry: LocalEntry, f: Fresh, stage: Stage, k: nat): (World, Stage)
    decreases k
  {
    if k == 0 then (w, stage)
    else
      var (w1, s1) := Step(cfg, w, op, entry, f, stage);
      Advance(cfg, w1, op, entry, f, s1, k - 1)
  }

  function RunOp(cfg: Config, w: World, op: Op, entry: LocalEntry, f: Fresh): (World, Stage) {
    Advance(cfg, w, op, entry, f, Todo, STEPS)
  }

  /* ---- a list of operations ---- */

  // The randomness and clock readings of a pass; a pass runs at most one operation per path.
  type Entropy = string -> Fresh

  // The map lookup of the source: a path the scan did not report has an empty entry.
  function EntryFor(local: LocalSnapshot, p: string): LocalEntry {
    if p in local then local[p] else LocalEntry(0, "")
  }

  // Run the operations in order and stop at the first that fails.
  function RunOps(cfg: Config, w: World, local: LocalSnapshot, ops: seq<Op>, ent: Entropy): (World, bool)
    decreases |ops|
  {
    if ops == [] then (w, true)
    else
      var (w1, s1) := RunOp(cfg, w, ops[0], EntryFor(local, ops[0].path), ent(ops[0].path));
      if s1.Failed? then (w1, false) else RunOps(cfg, w1, local, ops[1..], ent)
  }

  // The world a pass leaves if it stops after `n` whole operations and `k` effects of the next one.
  function RunPart(cfg: Config, w: World, local: LocalSnapshot, ops: seq<Op>, ent: Entropy, n: nat, k: nat): World
    requires n <= |ops| && (n == |ops| ==> k == 0)
  {
    var w1 := RunOps(cfg, w, local, ops[..n], ent).0;
    if n == |ops| then w1
    else Advance(cfg, w1, ops[n], EntryFor(local, ops[n].path), ent(ops[n].path), Todo, k).0
  }

  /* ---- one path of a world ---- */

  predicate Hidden(cfg: Config, p: string) {
    Contains(KeyFor(cfg.machine, p), RESERVED)
  }

  function ViewAt(cfg: Config, w: World, p: string): Cell {
    var key := KeyFor(cfg.machine, p);
    Cell(
      if cfg.watched(p) && p in w.files then Some(w.files[p]) else None,
      if Absolute(p) && !Hidden(cfg, p) && key in w.bucket then
        Some(RemoteView(w.bucket[key].meta.digest, OpenObject(cfg.prim, cfg.master, w.bucket[key])))
      else None,
      if p in w.rows then Some(w.rows[p].hash) else None)
  }

  // Watched files are absolute and outside reserved directories; listed objects open, and lie where
  // the scan looks.
  ghost predicate TameAt(cfg: Config, w: World, p: string) {
    && (cfg.watched(p) && p in w.files ==> Absolute(p) && !Hidden(cfg, p))
    && (ViewAt(cfg, w, p).obj.Some? ==> cfg.watched(p) && ViewAt(cfg, w, p).obj.value.plain.Some?)
  }

  ghost predicate Tame(cfg: Config, w: World) {
    forall p :: TameAt(cfg, w, p)
  }

  // In addition, every listed object is labelled with the hash of what it holds.
  ghost predicate Ready(cfg: Config, w: World) {
    Tame(cfg, w) && forall p :: WellLabelled(cfg.prim.hash, ViewAt(cfg, w, p))
  }

  // An operation the planner can emit in a tame world.
  ghost predicate Proper(cfg: Config, op: Op) {
    && Absolute(op.path) && !Hidden(cfg, op.path) && cfg.watched(op.path)
    && op.key == KeyFor(cfg.machine, op.path)
  }

  // What a plan taken from a world's own snapshots consists of.
  ghost predicate PlanOf(cfg: Config, w: World, ops: seq<Op>) {
    IsPlan(ops, LocalSnap(cfg, w), RemoteSnap(cfg, w), w.rows, cfg.machine)
  }

  lemma SnapshotsSeeCells(cfg: Config, w: World, p: string)
    requires Tame(cfg, w)
    ensures DecideAt(LocalSnap(cfg, w), RemoteSnap(cfg, w), w.rows, p) == CellDecide(cfg.prim.hash, ViewAt(cfg, w, p))
    ensures EntryFor(LocalSnap(cfg, w), p).hash == ScanDigest(cfg.prim.hash, ViewAt(cfg, w, p))
    ensures OpFor(LocalSnap(cfg, w), RemoteSnap(cfg, w), w.rows, cfg.machine, p).key == KeyFor(cfg.machine, p)
    ensures p in RemoteSnap(cfg, w) <==> ViewAt(cfg, w, p).obj.Some?
    ensures p in LocalSnap(cfg, w) <==> ViewAt(cfg, w, p).file.Some?
  {
    RemotePathsKeys(cfg, w);
    KeyRoundTrip(cfg.machine, p, "");
    assert TameAt(cfg, w, p);
  }

  lemma PlanMembers(cfg: Config, w: World, ops: seq<Op>, p: string)
    requires Tame(cfg, w) && PlanOf(cfg, w, ops)
    ensures var kind := CellDecide(cfg.prim.hash, ViewAt(cfg, w, p));
            var op := Op(kind, p, KeyFor(cfg.machine, p));
            && (kind != Noop ==> op in ops && Proper(cfg, op) && Runnable(ViewAt(cfg, w, p), kind))
            && (forall o | o in ops && o.path == p :: kind != Noop && o == op)
  {
    SnapshotsSeeCells(cfg, w, p);
    assert TameAt(cfg, w, p);
    forall o | o in ops && o.path == p
      ensures CellDecide(cfg.prim.hash, ViewAt(cfg, w, p)) != Noop
    {
      assert Planned(o, LocalSnap(cfg, w), RemoteSnap(cfg, w), w.rows, cfg.machine);
    }
  }

  /* ---- projection ---- */

  ghost predicate SameExceptAt<V>(m: map<string, V>, m1: map<string, V>, x: string) {
    forall y | y != x :: (y in m <==> y in m1) && (y in m ==> m1[y] == m[y])
  }

  // A step touches no path and no key but its own.
  lemma StepFrame(cfg: Config, w: World, op: Op, entry: LocalEntry, f: Fresh, stage: Stage)
    ensures var w1 := Step(cfg, w, op, entry, f, stage).0;
            && SameExceptAt(w.files, w1.files, op.path)
            && SameExceptAt(w.bucket, w1.bucket, op.key)
            && SameExceptAt(w.rows, w1.rows, op.path)
  {
    hide SealObject, OpenObject, RecordConflict;
  }

  lemma SameExceptTransitive<V>(m: map<string, V>, m1: map<string, V>, m2: map<string, V>, x: string)
    requires SameExceptAt(m, m1, x) && SameExceptAt(m1, m2, x)
    ensures SameExceptAt(m, m2, x)
  {
  }

  lemma {:induction false} AdvanceFrame(cfg: Config, w: World, op: Op, entry: LocalEntry, f: Fresh, stage: Stage, k: nat)
    ensures var w1 := Advance(cfg, w, op, entry, f, stage, k).0;
            && SameExceptAt(w.files, w1.files, op.path)
            && SameExceptAt(w.bucket, w1.bucket, op.key)
            && SameExceptAt(w.rows, w1.rows, op.path)
    decreases k
  {
    if k > 0 {
      hide Step, SameExceptAt;
      var (w1, s1) := Step(cfg, w, op, entry, f, stage);
      StepFrame(cfg, w, op, entry, f, stage);
      AdvanceFrame(cfg, w1, op, entry, f, s1, k - 1);
      var w2 := Advance(cfg, w1, op, entry, f, s1, k - 1).0;
      SameExceptTransitive(w.files, w1.files, w2.files, op.path);
      SameExceptTransitive(w.bucket, w1.bucket, w2.bucket, op.key);
      SameExceptTransitive(w.rows, w1.rows, w2.rows, op.path);
    }
  }

  // Operations on other paths and keys, whether they fail or not, leave a path's file and row and a
  // key's object as they are.
  ghost predicate SameAt<V>(m: map<string, V>, m1: map<string, V>, x: string) {
    (x in m1 <==> x in m) && (x in m ==> m1[x] == m[x])
  }

  lemma {:induction false} OtherPathsKept(cfg: Config, w: World, local: LocalSnapshot, ops: seq<Op>, ent: Entropy, p: string)
    requires forall op | op in ops :: op.path != p
    ensures var w1 := RunOps(cfg, w, local, ops, ent).0;
            SameAt(w.files, w1.files, p) && SameAt(w.rows, w1.rows, p)
    decreases |ops|
  {
    if ops != [] {
      hide RunOp;
      var entry, f := EntryFor(local, ops[0].path), ent(ops[0].path);
      RunOpFrame(cfg, w, ops[0], entry, f);
      assert ops[0].path != p && forall op | op in ops[1..] :: op in ops;
      OtherPathsKept(cfg, RunOp(cfg, w, ops[0], entry, f).0, local, ops[1..], ent, p);
    }
  }

  lemma RunOpFrame(cfg: Config, w: World, op: Op, entry: LocalEntry, f: Fresh)
    ensures var w1 := RunOp(cfg, w, op, entry, f).0;
            && SameExceptAt(w.files, w1.files, op.path)
            && SameExceptAt(w.bucket, w1.bucket, op.key)
            && SameExceptAt(w.rows, w1.rows, op.path)
  {
    hide Advance;
    AdvanceFrame(cfg, w, op, entry, f, Todo, STEPS);
  }

  lemma {:induction false} OtherKeysKept(cfg: Config, w: World, local: LocalSnapshot, ops: seq<Op>, ent: Entropy, key: string)
    requires forall op | op in ops :: op.key != key
    ensures SameAt(w.bucket, RunOps(cfg, w, local, ops, ent).0.bucket, key)
    decreases |ops|
  {
    if ops != [] {
      hide RunOp;
      var entry, f := EntryFor(local, ops[0].path), ent(ops[0].path);
      RunOpFrame(cfg, w, ops[0], entry, f);
      assert ops[0].key != key && forall op | op in ops[1..] :: op in ops;
      OtherKeysKept(cfg, RunOp(cfg, w, ops[0], entry, f).0, local, ops[1..], ent, key);
    }
  }

  // A whole upload and a whole download, as they change a world.
  lemma UploadEffect(cfg: Config, w: World, op: Op, entry: LocalEntry, f: Fresh)
    requires Lawful(cfg.prim) && |cfg.master| == KEY_SIZE
    requires op.kind == Upload && op.path in w.files
    ensures var o := SealObject(cfg.prim, cfg.master, w.files[op.path], entry.hash, entry.size, f);
            && o.Some? && |o.value.ct| == |w.files[op.path]| + TAG_SIZE
            && RunOp(cfg, w, op, entry, f)
               == (w.(bucket := w.bucket[op.key := o.value], up := w.up + |o.value.ct|,
                      rows := w.rows[op.path := Row(entry.size, entry.hash, op.key)]), Finished)
  {
    SealedObjectOpens(cfg.prim, cfg.master, w.files[op.path], entry.hash, entry.size, f);
    hide SealObject, Lawful;
    var (w1, s1) := Step(cfg, w, op, entry, f, Todo);
    var (w2, s2) := Step(cfg, w1, op, entry, f, s1);
    var (w3, s3) := Step(cfg, w2, op, entry, f, s2);
    assert Advance(cfg, w3, op, entry, f, s3, 0) == (w3, s3);
    assert Advance(cfg, w2, op, entry, f, s2, 1) == (w3, s3);
    assert Advance(cfg, w1, op, entry, f, s1, 2) == (w3, s3);
  }

  lemma DownloadEffect(cfg: Config, w: World, op: Op, entry: LocalEntry, f: Fresh)
    requires op.kind == Download && op.key in w.bucket
    requires OpenObject(cfg.prim, cfg.master, w.bucket[op.key]).Some?
    ensures var b := OpenObject(cfg.prim, cfg.master, w.bucket[op.key]).value;
            RunOp(cfg, w, op, entry, f)
            == (w.(files := w.files[op.path := b], down := w.down + |b|,
                   rows := w.rows[op.path := Row(|b|, cfg.prim.hash(b), op.key)]), Finished)
  {
    hide OpenObject;
    var (w1, s1) := Step(cfg, w, op, entry, f, Todo);
    var (w2, s2) := Step(cfg, w1, op, entry, f, s1);
    var (w3, s3) := Step(cfg, w2, op, entry, f, s2);
    assert Advance(cfg, w3, op, entry, f, s3, 0) == (w3, s3);
    assert Advance(cfg, w2, op, entry, f, s2, 1) == (w3, s3);
    assert Advance(cfg, w1, op, entry, f, s1, 2) == (w3, s3);
  }

  lemma OtherCellsKept(cfg: Config, w: World, w1: World, op: Op, p: string)
    requires Proper(cfg, op) && p != op.path
    requires SameExceptAt(w.files, w1.files, op.path)
    requires SameExceptAt(w.bucket, w1.bucket, op.key)
    requires SameExceptAt(w.rows, w1.rows, op.path)
    ensures ViewAt(cfg, w1, p) == ViewAt(cfg, w, p)
    ensures TameAt(cfg, w, p) ==> TameAt(cfg, w1, p)
  {
    if Absolute(p) && KeyFor(cfg.machine, p) == op.key {
      KeyForInjective(cfg.machine, p, op.path);
    }
  }

  lemma OwnCellStep(cfg: Config, w: World, op: Op, entry: LocalEntry, f: Fresh, stage: Stage)
    requires ValidConfig(cfg) && Proper(cfg, op)
    ensures var (w1, s1) := Step(cfg, w, op, entry, f, stage);
            && (ViewAt(cfg, w1, op.path), s1)
                 == CellStep(cfg.prim.hash, ViewAt(cfg, w, op.path), op.kind, entry.hash, stage)
            && (TameAt(cfg, w, op.path) ==> TameAt(cfg, w1, op.path))
  {
    hide SealObject, OpenObject, RecordConflict;
    if stage.Read? {
      SealedObjectOpens(cfg.prim, cfg.master, stage.plain, entry.hash, entry.size, f);
    }
  }

  lemma StepProjects(cfg: Config, w: World, op: Op, entry: LocalEntry, f: Fresh, stage: Stage)
    requires ValidConfig(cfg) && Proper(cfg, op)
    ensures var (w1, s1) := Step(cfg, w, op, entry, f, stage);
            && (ViewAt(cfg, w1, op.path), s1)
                 == CellStep(cfg.prim.hash, ViewAt(cfg, w, op.path), op.kind, entry.hash, stage)
            && (forall p | p != op.path :: ViewAt(cfg, w1, p) == ViewAt(cfg, w, p))
            && (Tame(cfg, w) ==> Tame(cfg, w1))
  {
    var w1 := Step(cfg, w, op, entry, f, stage).0;
    OwnCellStep(cfg, w, op, entry, f, stage);
    StepFrame(cfg, w, op, entry, f, stage);
    forall p | p != op.path
      ensures ViewAt(cfg, w1, p) == ViewAt(cfg, w, p)
      ensures TameAt(cfg, w, p) ==> TameAt(cfg, w1, p)
    {
      OtherCellsKept(cfg, w, w1, op, p);
    }
  }

  lemma {:induction false} AdvanceProjects(cfg: Config, w: World, op: Op, entry: LocalEntry, f: Fresh, stage: Stage, k: nat)
    requires ValidConfig(cfg) && Proper(cfg, op)
    ensures var (w1, s1) := Advance(cfg, w, op, entry, f, stage, k);
            && (ViewAt(cfg, w1, op.path), s1)
                 == CellAdvance(cfg.prim.hash, ViewAt(cfg, w, op.path), op.kind, entry.hash, stage, k)
            && (forall p | p != op.path :: ViewAt(cfg, w1, p) == ViewAt(cfg, w, p))
            && (Tame(cfg, w) ==> Tame(cfg, w1))
    decreases k
  {
    if k > 0 {
      var (w1, s1) := Step(cfg, w, op, entry, f, stage);
      StepProjects(cfg, w, op, entry, f, stage);
      AdvanceProjects(cfg, w1, op, entry, f, s1, k - 1);
    }
  }

  lemma RunOpProjects(cfg: Config, w: World, op: Op, entry: LocalEntry, f: Fresh)
    requires ValidConfig(cfg) && Proper(cfg, op) && Tame(cfg, w) && Runnable(ViewAt(cfg, w, op.path), op.kind)
    ensures var (w1, s1) := RunOp(cfg, w, op, entry, f);
            && !s1.Failed? && Tame(cfg, w1)
            && ViewAt(cfg, w1, op.path) == CellRun(cfg.prim.hash, ViewAt(cfg, w, op.path), op.kind, entry.hash).0
            && (forall p | p != op.path :: ViewAt(cfg, w1, p) == ViewAt(cfg, w, p))
  {
    AdvanceProjects(cfg, w, op, entry, f, Todo, STEPS);
    RunClosedForm(cfg.prim.hash, ViewAt(cfg, w, op.path), op.kind, entry.hash);
  }

  ghost predicate CanRun(cfg: Config, w: World, ops: seq<Op>) {
    Distinct(ops) && forall op | op in ops :: Proper(cfg, op) && Runnable(ViewAt(cfg, w, op.path), op.kind)
  }

  // The first operation succeeds and leaves the rest runnable, their cells untouched.
  lemma RunOpsFirst(cfg: Config, w: World, local: LocalSnapshot, ops: seq<Op>, ent: Entropy)
    requires ValidConfig(cfg) && Tame(cfg, w) && CanRun(cfg, w, ops) && ops != []
    ensures Proper(cfg, ops[0]) && Runnable(ViewAt(cfg, w, ops[0].path), ops[0].kind)
    ensures var w1 := RunOp(cfg, w, ops[0], EntryFor(local, ops[0].path), ent(ops[0].path)).0;
            && RunOps(cfg, w, local, ops, ent) == RunOps(cfg, w1, local, ops[1..], ent)
            && Tame(cfg, w1) && CanRun(cfg, w1, ops[1..])
            && ViewAt(cfg, w1, ops[0].path)
                 == CellRun(cfg.prim.hash, ViewAt(cfg, w, ops[0].path), ops[0].kind, EntryFor(local, ops[0].path).hash).0
            && (forall p | p != ops[0].path :: ViewAt(cfg, w1, p) == ViewAt(cfg, w, p))
            && (forall op | op in ops[1..] :: op in ops && op.path != ops[0].path)
  {
    hide RunOp, ViewAt, Tame;
    assert ops[0] in ops;
    RunOpProjects(cfg, w, ops[0], EntryFor(local, ops[0].path), ent(ops[0].path));
    TailFacts(ops);
  }

  // Running a list of operations on distinct paths: each path's cell gets its own operation, in
  // whatever order the list has them, and the other cells stay.
  lemma {:induction false} RunOpsProjects(cfg: Config, w: World, local: LocalSnapshot, ops: seq<Op>, ent: Entropy)
    requires ValidConfig(cfg) && Tame(cfg, w) && CanRun(cfg, w, ops)
    ensures var (w1, ok) := RunOps(cfg, w, local, ops, ent);
            && ok && Tame(cfg, w1)
            && (forall op | op in ops ::
                  ViewAt(cfg, w1, op.path)
                    == CellRun(cfg.prim.hash, ViewAt(cfg, w, op.path), op.kind, EntryFor(local, op.path).hash).0)
            && (forall p | (forall op | op in ops :: op.path != p) :: ViewAt(cfg, w1, p) == ViewAt(cfg, w, p))
    decreases |ops|
  {
    if ops != [] {
      hide RunOp, RunOps, ViewAt, Tame;
      var op0 := ops[0];
      var w1 := RunOp(cfg, w, op0, EntryFor(local, op0.path), ent(op0.path)).0;
      RunOpsFirst(cfg, w, local, ops, ent);
      RunOpsProjects(cfg, w1, local, ops[1..], ent);
      assert forall op | op in ops :: op == op0 || op in ops[1..];
    }
  }
}
