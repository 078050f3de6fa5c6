/**
 Whole passes (`ReconcileOnce` in engine.go) over a world: convergence, idempotence, order
 independence, interruption, and changes between the scan and the operations.
*/
module Passes {
  import opened Wrappers
  import opened Envelope
  import opened Cells
  import opened Keys
  import opened Planner
  import opened Worlds

  /* ---- convergence ---- */

  lemma PlanCanRun(cfg: Config, w: World, ops: seq<Op>)
    requires Tame(cfg, w) && PlanOf(cfg, w, ops)
    ensures CanRun(cfg, w, ops)
  {
    forall op | op in ops
      ensures Proper(cfg, op) && Runnable(ViewAt(cfg, w, op.path), op.kind)
    {
      PlanMembers(cfg, w, ops, op.path);
    }
  }

  // In a tame world a pass without faults runs to its end and settles every path.
  lemma PassSettles(cfg: Config, w: World, ops: seq<Op>, ent: Entropy)
    requires ValidConfig(cfg) && Tame(cfg, w) && PlanOf(cfg, w, ops)
    ensures var (w1, ok) := RunOps(cfg, w, LocalSnap(cfg, w), ops, ent);
            && ok && Tame(cfg, w1)
            && forall p :: ViewAt(cfg, w1, p) == Settle(cfg.prim.hash, ViewAt(cfg, w, p))
  {
    var local := LocalSnap(cfg, w);
    PlanCanRun(cfg, w, ops);
    RunOpsProjects(cfg, w, local, ops, ent);
    var w1 := RunOps(cfg, w, local, ops, ent).0;
    forall p
      ensures ViewAt(cfg, w1, p) == Settle(cfg.prim.hash, ViewAt(cfg, w, p))
    {
      var c := ViewAt(cfg, w, p);
      var kind := CellDecide(cfg.prim.hash, c);
      PlanMembers(cfg, w, ops, p);
      SnapshotsSeeCells(cfg, w, p);
      RunClosedForm(cfg.prim.hash, c, kind, ScanDigest(cfg.prim.hash, c));
      if kind != Noop {
        assert Op(kind, p, KeyFor(cfg.machine, p)) in ops;
      }
    }
  }

  ghost predicate InConflict(ops: seq<Op>, p: string) {
    exists op | op in ops :: op.kind == Conflict && op.path == p
  }

  // Every path without a conflict ends absent on both sides, or with equal bytes on both sides and no
  // row that says otherwise; a conflicting path keeps its cell; no file disappears.
  ghost predicate Reconciled(cfg: Config, w: World, ops: seq<Op>, w1: World) {
    && Ready(cfg, w1)
    && (forall p | InConflict(ops, p) :: ViewAt(cfg, w1, p) == ViewAt(cfg, w, p))
    && (forall p | !InConflict(ops, p) :: Converged(cfg.prim.hash, ViewAt(cfg, w1, p)))
    && (forall p | ViewAt(cfg, w, p).file.Some? :: ViewAt(cfg, w1, p).file.Some?)
  }

  lemma PassConverges(cfg: Config, w: World, ops: seq<Op>, ent: Entropy)
    requires ValidConfig(cfg) && Ready(cfg, w) && PlanOf(cfg, w, ops)
    ensures var (w1, ok) := RunOps(cfg, w, LocalSnap(cfg, w), ops, ent);
            ok && Reconciled(cfg, w, ops, w1)
  {
    PassSettles(cfg, w, ops, ent);
    var w1 := RunOps(cfg, w, LocalSnap(cfg, w), ops, ent).0;
    forall p
      ensures WellLabelled(cfg.prim.hash, ViewAt(cfg, w1, p))
      ensures InConflict(ops, p) ==> ViewAt(cfg, w1, p) == ViewAt(cfg, w, p)
      ensures !InConflict(ops, p) ==> Converged(cfg.prim.hash, ViewAt(cfg, w1, p))
      ensures ViewAt(cfg, w, p).file.Some? ==> ViewAt(cfg, w1, p).file.Some?
    {
      PlanMembers(cfg, w, ops, p);
      SettleConverges(cfg.prim.hash, ViewAt(cfg, w, p));
    }
  }

  /* ---- conflict list and byte counters ---- */

  function ConflictPaths(w: World): set<string> {
    set c | c in w.conflicts :: c.path
  }

  ghost predicate DistinctConflicts(conflicts: seq<ConflictRecord>) {
    forall i, j | 0 <= i < j < |conflicts| :: conflicts[i].path != conflicts[j].path
  }

  function UpCost(c: Cell, kind: OpKind): nat {
    if kind == Upload && c.file.Some? then |c.file.value| + TAG_SIZE else 0
  }

  function DownCost(c: Cell, kind: OpKind): nat {
    if kind == Download && c.obj.Some? && c.obj.value.plain.Some? then |c.obj.value.plain.value| else 0
  }

  ghost function UpCosts(cfg: Config, w: World): Op -> nat {
    (op: Op) => UpCost(ViewAt(cfg, w, op.path), op.kind)
  }

  ghost function DownCosts(cfg: Config, w: World): Op -> nat {
    (op: Op) => DownCost(ViewAt(cfg, w, op.path), op.kind)
  }

  ghost function Sum(cost: Op -> nat, ops: seq<Op>): nat {
    if ops == [] then 0 else cost(ops[0]) + Sum(cost, ops[1..])
  }

  lemma {:induction false} SumCongruence(f: Op -> nat, g: Op -> nat, ops: seq<Op>)
    requires forall op | op in ops :: f(op) == g(op)
    ensures Sum(f, ops) == Sum(g, ops)
    decreases |ops|
  {
    if ops != [] {
      assert forall op | op in ops[1..] :: op in ops;
      SumCongruence(f, g, ops[1..]);
    }
  }

  lemma {:induction false} SumRemove(f: Op -> nat, ops: seq<Op>, i: nat)
    requires i < |ops|
    ensures Sum(f, ops) == f(ops[i]) + Sum(f, ops[..i] + ops[i + 1..])
    decreases i
  {
    if i == 0 {
      assert ops[..0] + ops[1..] == ops[1..];
    } else {
      SumRemove(f, ops[1..], i - 1);
      var rest := ops[..i] + ops[i + 1..];
      assert rest[1..] == ops[1..][..i - 1] + ops[1..][i..];
    }
  }

  lemma {:induction false} SumAppend(f: Op -> nat, a: seq<Op>, b: seq<Op>)
    ensures Sum(f, a + b) == Sum(f, a) + Sum(f, b)
    decreases |a|
  {
    if a == [] {
      assert a + b == b;
    } else {
      assert (a + b)[1..] == a[1..] + b;
      SumAppend(f, a[1..], b);
    }
  }

  lemma SumSplit(f: Op -> nat, ops: seq<Op>, n: nat)
    requires n <= |ops|
    ensures Sum(f, ops) == Sum(f, ops[..n]) + Sum(f, ops[n..])
  {
    SumAppend(f, ops[..n], ops[n..]);
    assert ops == ops[..n] + ops[n..];
  }

  lemma {:induction false} SumOfZeros(f: Op -> nat, ops: seq<Op>)
    requires forall op | op in ops :: f(op) == 0
    ensures Sum(f, ops) == 0
    decreases |ops|
  {
    if ops != [] {
      assert ops[0] in ops && forall op | op in ops[1..] :: op in ops;
      SumOfZeros(f, ops[1..]);
    }
  }

  // Two lists of distinct operations that agree on every operation with a cost have the same total.
  lemma {:induction false} SumPermutation(f: Op -> nat, a: seq<Op>, b: seq<Op>)
    requires Distinct(a) && Distinct(b) && forall op | f(op) != 0 :: op in a <==> op in b
    ensures Sum(f, a) == Sum(f, b)
    decreases |a|
  {
    if a == [] {
      SumOfZeros(f, b);
    } else {
      TailFacts(a);
      if f(a[0]) == 0 {
        SumPermutation(f, a[1..], b);
      } else {
        assert a[0] in a;
        var i :| 0 <= i < |b| && b[i] == a[0];
        var rest := b[..i] + b[i + 1..];
        SumRemove(f, b, i);
        WithoutOne(b, i);
        SumPermutation(f, a[1..], rest);
      }
    }
  }

  lemma WithoutOne(ops: seq<Op>, i: nat)
    requires Distinct(ops) && i < |ops|
    ensures var rest := ops[..i] + ops[i + 1..];
            Distinct(rest) && forall op :: op in rest <==> op in ops && op != ops[i]
  {
    var rest := ops[..i] + ops[i + 1..];
    forall op | op in ops && op != ops[i]
      ensures op in rest
    {
      var j :| 0 <= j < |ops| && ops[j] == op;
      assert rest[if j < i then j else j - 1] == op;
    }
    assert forall op | op in rest :: op in ops && op.path != ops[i].path;
  }

  // What one whole operation does to the conflict list and the counters.
  lemma RunOpLedger(cfg: Config, w: World, op: Op, entry: LocalEntry, f: Fresh)
    requires ValidConfig(cfg) && Proper(cfg, op) && Tame(cfg, w) && Runnable(ViewAt(cfg, w, op.path), op.kind)
    ensures var w1 := RunOp(cfg, w, op, entry, f).0;
            && w1.conflicts == (if op.kind == Conflict then RecordConflict(w.conflicts, op.path, f.clock) else w.conflicts)
            && w1.up == w.up + UpCost(ViewAt(cfg, w, op.path), op.kind)
            && w1.down == w.down + DownCost(ViewAt(cfg, w, op.path), op.kind)
            && (op.kind == Conflict ==> w1 == w.(conflicts := w1.conflicts))
  {
    hide SealObject, OpenObject, RecordConflict, Tame;
    if op.kind == Upload {
      UploadEffect(cfg, w, op, entry, f);
    } else if op.kind == Download {
      DownloadEffect(cfg, w, op, entry, f);
    } else {
      var (w1, s1) := Step(cfg, w, op, entry, f, Todo);
      var (w2, s2) := Step(cfg, w1, op, entry, f, s1);
      assert Step(cfg, w2, op, entry, f, s2) == (w2, s2);
      assert Advance(cfg, w2, op, entry, f, s2, 0) == (w2, s2);
      assert Advance(cfg, w2, op, entry, f, s2, 1) == (w2, s2);
      assert Advance(cfg, w1, op, entry, f, s1, 2) == (w2, s2);
    }
  }

  ghost function ConflictOps(ops: seq<Op>): set<string> {
    set op | op in ops && op.kind == Conflict :: op.path
  }

  lemma RecordConflictPaths(w: World, path: string, id: string)
    ensures var w1 := w.(conflicts := RecordConflict(w.conflicts, path, id));
            && ConflictPaths(w1) == ConflictPaths(w) + {path}
            && (DistinctConflicts(w.conflicts) ==> DistinctConflicts(w1.conflicts))
  {
    var w1 := w.(conflicts := RecordConflict(w.conflicts, path, id));
    if forall c | c in w.conflicts :: c.path != path {
      assert w1.conflicts[|w.conflicts|] in w1.conflicts;
      assert forall c :: c in w1.conflicts <==> c in w.conflicts || c == ConflictRecord(id, path);
      assert forall i | 0 <= i < |w.conflicts| :: w1.conflicts[i] in w.conflicts;
    }
  }

  lemma ConflictOpsTail(ops: seq<Op>)
    requires ops != []
    ensures ConflictOps(ops) == (if ops[0].kind == Conflict then {ops[0].path} else {}) + ConflictOps(ops[1..])
  {
    assert forall op :: op in ops <==> op == ops[0] || op in ops[1..];
  }

  lemma RunOpConflicts(cfg: Config, w: World, op: Op, entry: LocalEntry, f: Fresh)
    requires ValidConfig(cfg) && Proper(cfg, op) && Tame(cfg, w) && Runnable(ViewAt(cfg, w, op.path), op.kind)
    ensures var w1 := RunOp(cfg, w, op, entry, f).0;
            && ConflictPaths(w1) == ConflictPaths(w) + (if op.kind == Conflict then {op.path} else {})
            && (DistinctConflicts(w.conflicts) ==> DistinctConflicts(w1.conflicts))
  {
    hide RunOp, RecordConflict;
    RunOpLedger(cfg, w, op, entry, f);
    RecordConflictPaths(w, op.path, f.clock);
  }

  lemma {:induction false} RunOpsConflicts(cfg: Config, w: World, local: LocalSnapshot, ops: seq<Op>, ent: Entropy)
    requires ValidConfig(cfg) && Tame(cfg, w) && CanRun(cfg, w, ops)
    ensures var w1 := RunOps(cfg, w, local, ops, ent).0;
            && ConflictPaths(w1) == ConflictPaths(w) + ConflictOps(ops)
            && (DistinctConflicts(w.conflicts) ==> DistinctConflicts(w1.conflicts))
    decreases |ops|
  {
    hide RunOp, Tame, ViewAt, ConflictPaths, DistinctConflicts;
    if ops == [] {
      assert ConflictOps(ops) == {};
    } else {
      var op0 := ops[0];
      var entry, f := EntryFor(local, op0.path), ent(op0.path);
      var w1 := RunOp(cfg, w, op0, entry, f).0;
      RunOpsFirst(cfg, w, local, ops, ent);
      RunOpConflicts(cfg, w, op0, entry, f);
      ConflictOpsTail(ops);
      RunOpsConflicts(cfg, w1, local, ops[1..], ent);
    }
  }

  // A record made by one of these operations, with the id drawn for it.
  ghost predicate RecordOf(c: ConflictRecord, ops: seq<Op>, ent: Entropy) {
    exists op | op in ops :: op.kind == Conflict && c == ConflictRecord(ent(op.path).clock, op.path)
  }

  ghost predicate NewRecords(before: seq<ConflictRecord>, after: seq<ConflictRecord>, ops: seq<Op>, ent: Entropy) {
    before <= after && forall i | |before| <= i < |after| :: RecordOf(after[i], ops, ent)
  }

  lemma NewRecordsChain(before: seq<ConflictRecord>, mid: seq<ConflictRecord>, after: seq<ConflictRecord>, ops: seq<Op>, ent: Entropy)
    requires ops != [] && NewRecords(mid, after, ops[1..], ent)
    requires mid == (if ops[0].kind == Conflict then RecordConflict(before, ops[0].path, ent(ops[0].path).clock) else before)
    ensures NewRecords(before, after, ops, ent)
  {
    forall i | |before| <= i < |after|
      ensures RecordOf(after[i], ops, ent)
    {
      if i < |mid| {
        assert after[i] == mid[i] && ops[0] in ops;
      } else {
        assert RecordOf(after[i], ops[1..], ent);
        var op :| op in ops[1..] && op.kind == Conflict && after[i] == ConflictRecord(ent(op.path).clock, op.path);
        assert op in ops;
      }
    }
  }

  // Records are only added, at the end, each for a conflicting operation of the list and with its id.
  lemma {:induction false} RunOpsRecords(cfg: Config, w: World, local: LocalSnapshot, ops: seq<Op>, ent: Entropy)
    requires ValidConfig(cfg) && Tame(cfg, w) && CanRun(cfg, w, ops)
    ensures NewRecords(w.conflicts, RunOps(cfg, w, local, ops, ent).0.conflicts, ops, ent)
    decreases |ops|
  {
    if ops != [] {
      hide RunOp, Tame, ViewAt, CanRun, RecordConflict, NewRecords;
      var entry, f := EntryFor(local, ops[0].path), ent(ops[0].path);
      var w1 := RunOp(cfg, w, ops[0], entry, f).0;
      RunOpsFirst(cfg, w, local, ops, ent);
      RunOpLedger(cfg, w, ops[0], entry, f);
      RunOpsRecords(cfg, w1, local, ops[1..], ent);
      NewRecordsChain(w.conflicts, w1.conflicts, RunOps(cfg, w, local, ops, ent).0.conflicts, ops, ent);
    }
  }

  /* ---- what rows and metadata say ---- */

  // After an upload of b to a path: the row and the object's metadata give its size and hash.
  ghost predicate RecordsUpload(cfg: Config, w1: World, p: string, b: Bytes) {
    var key := KeyFor(cfg.machine, p);
    && p in w1.rows && w1.rows[p] == Row(|b|, cfg.prim.hash(b), key)
    && key in w1.bucket && w1.bucket[key].meta.size == |b| && w1.bucket[key].meta.digest == cfg.prim.hash(b)
    && OpenObject(cfg.prim, cfg.master, w1.bucket[key]) == Some(b)
  }

  ghost predicate RecordsDownload(cfg: Config, w1: World, p: string, b: Bytes) {
    && p in w1.rows && w1.rows[p] == Row(|b|, cfg.prim.hash(b), KeyFor(cfg.machine, p))
    && p in w1.files && w1.files[p] == b
  }

  lemma KeptByRest(cfg: Config, w: World, local: LocalSnapshot, ops: seq<Op>, ent: Entropy, p: string)
    requires Absolute(p) && forall op | op in ops :: Proper(cfg, op) && op.path != p
    ensures var w1 := RunOps(cfg, w, local, ops, ent).0;
            && SameAt(w.files, w1.files, p) && SameAt(w.rows, w1.rows, p)
            && SameAt(w.bucket, w1.bucket, KeyFor(cfg.machine, p))
  {
    OtherPathsKept(cfg, w, local, ops, ent, p);
    forall op | op in ops
      ensures op.key != KeyFor(cfg.machine, p)
    {
      if op.key == KeyFor(cfg.machine, p) {
        KeyForInjective(cfg.machine, op.path, p);
      }
    }
    OtherKeysKept(cfg, w, local, ops, ent, KeyFor(cfg.machine, p));
  }

  // One operation, with the sizes and hashes of what it moves.
  lemma OpRecords(cfg: Config, w: World, op: Op, entry: LocalEntry, f: Fresh)
    requires ValidConfig(cfg) && Proper(cfg, op) && Runnable(ViewAt(cfg, w, op.path), op.kind)
    ensures var w1 := RunOp(cfg, w, op, entry, f).0;
            && (op.kind == Upload && entry == LocalEntry(|w.files[op.path]|, cfg.prim.hash(w.files[op.path])) ==>
                  RecordsUpload(cfg, w1, op.path, w.files[op.path]))
            && (op.kind == Download ==> RecordsDownload(cfg, w1, op.path, ObjBytes(ViewAt(cfg, w, op.path)).value))
  {
    hide RunOp, SealObject, OpenObject;
    if op.kind == Upload {
      UploadEffect(cfg, w, op, entry, f);
      SealedObjectOpens(cfg.prim, cfg.master, w.files[op.path], entry.hash, entry.size, f);
    } else if op.kind == Download {
      DownloadEffect(cfg, w, op, entry, f);
    }
  }

  lemma {:induction false} OpsRecord(cfg: Config, w: World, local: LocalSnapshot, ops: seq<Op>, ent: Entropy, op: Op)
    requires ValidConfig(cfg) && Tame(cfg, w) && CanRun(cfg, w, ops) && op in ops
    requires op.kind == Upload && op.path in w.files ==>
               EntryFor(local, op.path) == LocalEntry(|w.files[op.path]|, cfg.prim.hash(w.files[op.path]))
    ensures var w1 := RunOps(cfg, w, local, ops, ent).0;
            && (op.kind == Upload ==> op.path in w.files && RecordsUpload(cfg, w1, op.path, w.files[op.path]))
            && (op.kind == Download ==>
                  ObjBytes(ViewAt(cfg, w, op.path)).Some?
                  && RecordsDownload(cfg, w1, op.path, ObjBytes(ViewAt(cfg, w, op.path)).value))
    decreases |ops|
  {
    hide RunOp, RunOps, Tame, OpenObject;
    assert Proper(cfg, op) && Runnable(ViewAt(cfg, w, op.path), op.kind);
    var entry, f := EntryFor(local, ops[0].path), ent(ops[0].path);
    var w1 := RunOp(cfg, w, ops[0], entry, f).0;
    RunOpsFirst(cfg, w, local, ops, ent);
    if op == ops[0] {
      OpRecords(cfg, w, op, entry, f);
      KeptByRest(cfg, w1, local, ops[1..], ent, op.path);
    } else {
      assert op in ops[1..];
      RunOpFrame(cfg, w, ops[0], entry, f);
      OpsRecord(cfg, w1, local, ops[1..], ent, op);
    }
  }

  // After a pass, whatever it moved is on record as it is: size, hash and key in the row, and for an upload
  // size and hash in the object's metadata too.
  lemma PassRecords(cfg: Config, w: World, ops: seq<Op>, ent: Entropy, op: Op)
    requires ValidConfig(cfg) && Tame(cfg, w) && PlanOf(cfg, w, ops) && op in ops
    ensures var w1 := RunOps(cfg, w, LocalSnap(cfg, w), ops, ent).0;
            && (op.kind == Upload ==> op.path in w.files && RecordsUpload(cfg, w1, op.path, w.files[op.path]))
            && (op.kind == Download ==>
                  ObjBytes(ViewAt(cfg, w, op.path)).Some?
                  && RecordsDownload(cfg, w1, op.path, ObjBytes(ViewAt(cfg, w, op.path)).value))
    ensures NewRecords(w.conflicts, RunOps(cfg, w, LocalSnap(cfg, w), ops, ent).0.conflicts, ops, ent)
  {
    PlanCanRun(cfg, w, ops);
    RunOpsRecords(cfg, w, LocalSnap(cfg, w), ops, ent);
    assert Proper(cfg, op);
    hide RunOps, Tame, PlanOf, CanRun, RecordsUpload, RecordsDownload, NewRecords;
    OpsRecord(cfg, w, LocalSnap(cfg, w), ops, ent, op);
  }

  lemma {:induction false} RunOpsCounters(cfg: Config, w: World, local: LocalSnapshot, ops: seq<Op>, ent: Entropy)
    requires ValidConfig(cfg) && Tame(cfg, w) && CanRun(cfg, w, ops)
    ensures var w1 := RunOps(cfg, w, local, ops, ent).0;
            && w1.up == w.up + Sum(UpCosts(cfg, w), ops)
            && w1.down == w.down + Sum(DownCosts(cfg, w), ops)
    decreases |ops|
  {
    hide RunOp, Tame, ViewAt, CanRun;
    if ops != [] {
      var op0 := ops[0];
      var entry, f := EntryFor(local, op0.path), ent(op0.path);
      RunOpsFirst(cfg, w, local, ops, ent);
      RunOpLedger(cfg, w, op0, entry, f);
      var w1 := RunOp(cfg, w, op0, entry, f).0;
      RunOpsCounters(cfg, w1, local, ops[1..], ent);
      SumCongruence(UpCosts(cfg, w1), UpCosts(cfg, w), ops[1..]);
      SumCongruence(DownCosts(cfg, w1), DownCosts(cfg, w), ops[1..]);
    }
  }

  /* ---- order independence ---- */

  // Two passes from the same world may list their operations in different orders and draw different
  // keys and nonces; they agree on every path's files, decrypted objects and row hashes, on both
  // counters, and on the set of conflicting paths.
  lemma OrderIndependent(cfg: Config, w: World, a: seq<Op>, b: seq<Op>, entA: Entropy, entB: Entropy)
    requires ValidConfig(cfg) && Tame(cfg, w) && PlanOf(cfg, w, a) && PlanOf(cfg, w, b)
    ensures var (wa, okA) := RunOps(cfg, w, LocalSnap(cfg, w), a, entA);
            var (wb, okB) := RunOps(cfg, w, LocalSnap(cfg, w), b, entB);
            && okA && okB
            && (forall p :: ViewAt(cfg, wa, p) == ViewAt(cfg, wb, p))
            && wa.up == wb.up && wa.down == wb.down
            && ConflictPaths(wa) == ConflictPaths(wb)
  {
    hide RunOps, CanRun, LocalSnap, RemoteSnap, ViewAt, Tame, ConflictPaths, Sum;
    PassSettles(cfg, w, a, entA);
    PassSettles(cfg, w, b, entB);
    PlanCanRun(cfg, w, a);
    PlanCanRun(cfg, w, b);
    RunOpsConflicts(cfg, w, LocalSnap(cfg, w), a, entA);
    RunOpsConflicts(cfg, w, LocalSnap(cfg, w), b, entB);
    RunOpsCounters(cfg, w, LocalSnap(cfg, w), a, entA);
    RunOpsCounters(cfg, w, LocalSnap(cfg, w), b, entB);
    PlansArePermutations(a, b, LocalSnap(cfg, w), RemoteSnap(cfg, w), w.rows, cfg.machine);
    SumPermutation(UpCosts(cfg, w), a, b);
    SumPermutation(DownCosts(cfg, w), a, b);
    assert ConflictOps(a) == ConflictOps(b);
  }

  /* ---- idempotence ---- */

  lemma {:induction false} KnownConflictsChangeNothing(cfg: Config, w: World, local: LocalSnapshot, ops: seq<Op>, ent: Entropy)
    requires forall op | op in ops :: op.kind == Conflict && op.path in ConflictPaths(w)
    ensures RunOps(cfg, w, local, ops, ent) == (w, true)
    decreases |ops|
  {
    if ops != [] {
      var op := ops[0];
      assert op in ops;
      var c :| c in w.conflicts && c.path == op.path;
      var entry, f := EntryFor(local, op.path), ent(op.path);
      assert Step(cfg, w, op, entry, f, Todo) == (w, Finished);
      assert Step(cfg, w, op, entry, f, Finished) == (w, Finished);
      assert Advance(cfg, w, op, entry, f, Finished, 1) == Advance(cfg, w, op, entry, f, Finished, 0);
      assert Advance(cfg, w, op, entry, f, Finished, 2) == (w, Finished);
      assert RunOp(cfg, w, op, entry, f) == (w, Finished);
      assert forall o | o in ops[1..] :: o in ops;
      KnownConflictsChangeNothing(cfg, w, local, ops[1..], ent);
    }
  }

  // A second pass with nothing changed in between plans exactly the first pass's conflicts and leaves
  // the whole world as it is, conflict list and counters included.
  lemma PassIdempotent(cfg: Config, w: World, ops: seq<Op>, ent: Entropy, ops2: seq<Op>, ent2: Entropy)
    requires ValidConfig(cfg) && Ready(cfg, w) && PlanOf(cfg, w, ops)
    requires PlanOf(cfg, RunOps(cfg, w, LocalSnap(cfg, w), ops, ent).0, ops2)
    ensures forall op :: op in ops2 <==> op in ops && op.kind == Conflict
    ensures var w1 := RunOps(cfg, w, LocalSnap(cfg, w), ops, ent).0;
            RunOps(cfg, w1, LocalSnap(cfg, w1), ops2, ent2) == (w1, true)
  {
    PassSettles(cfg, w, ops, ent);
    var w1 := RunOps(cfg, w, LocalSnap(cfg, w), ops, ent).0;
    PlanCanRun(cfg, w, ops);
    RunOpsConflicts(cfg, w, LocalSnap(cfg, w), ops, ent);
    forall op
      ensures op in ops2 <==> op in ops && op.kind == Conflict
    {
      PlanMembers(cfg, w, ops, op.path);
      PlanMembers(cfg, w1, ops2, op.path);
      SettleIdempotent(cfg.prim.hash, ViewAt(cfg, w, op.path));
    }
    KnownConflictsChangeNothing(cfg, w1, LocalSnap(cfg, w1), ops2, ent2);
  }

  // ResolveConflict: drop the first record with this id.
  function Resolve(conflicts: seq<ConflictRecord>, id: string): seq<ConflictRecord> {
    if conflicts == [] then []
    else if conflicts[0].id == id then conflicts[1..]
    else [conflicts[0]] + Resolve(conflicts[1..], id)
  }

  lemma {:induction false} ResolveSkips(conflicts: seq<ConflictRecord>, id: string, k: nat)
    requires k <= |conflicts| && forall j | 0 <= j < k :: conflicts[j].id != id
    ensures Resolve(conflicts, id) == conflicts[..k] + Resolve(conflicts[k..], id)
    decreases k
  {
    if k == 0 {
      assert conflicts[..0] == [] && conflicts[0..] == conflicts;
    } else {
      var first, rest := conflicts[0], conflicts[1..];
      assert first.id != id && Resolve(conflicts, id) == [first] + Resolve(rest, id);
      hide Resolve;
      forall j | 0 <= j < k - 1
        ensures rest[j].id != id
      {
        assert rest[j] == conflicts[j + 1];
      }
      ResolveSkips(rest, id, k - 1);
      assert rest[k - 1..] == conflicts[k..];
      PrependSlice(conflicts, k, Resolve(conflicts[k..], id));
    }
  }

  lemma PrependSlice(conflicts: seq<ConflictRecord>, k: nat, tail: seq<ConflictRecord>)
    requires 0 < k <= |conflicts|
    ensures [conflicts[0]] + (conflicts[1..][..k - 1] + tail) == conflicts[..k] + tail
  {
  }

  // Which record goes: the first with this id, and nothing else moves.
  lemma ResolveDropsFirst(conflicts: seq<ConflictRecord>, id: string, k: nat)
    requires k <= |conflicts| && forall j | 0 <= j < k :: conflicts[j].id != id
    ensures k < |conflicts| && conflicts[k].id == id ==> Resolve(conflicts, id) == conflicts[..k] + conflicts[k + 1..]
    ensures k == |conflicts| ==> Resolve(conflicts, id) == conflicts
  {
    ResolveSkips(conflicts, id, k);
    assert conflicts[k..] == if k < |conflicts| then [conflicts[k]] + conflicts[k + 1..] else [];
  }

  lemma {:induction false} ResolveKeepsDistinct(conflicts: seq<ConflictRecord>, id: string)
    requires DistinctConflicts(conflicts)
    ensures DistinctConflicts(Resolve(conflicts, id))
    ensures forall c | c in Resolve(conflicts, id) :: c in conflicts
    ensures |Resolve(conflicts, id)| == if exists c | c in conflicts :: c.id == id then |conflicts| - 1 else |conflicts|
    decreases |conflicts|
  {
    if conflicts != [] {
      var rest := conflicts[1..];
      assert forall c :: c in conflicts <==> c == conflicts[0] || c in rest;
      assert DistinctConflicts(rest);
      ResolveKeepsDistinct(rest, id);
      if conflicts[0].id != id {
        forall c | c in Resolve(rest, id)
          ensures c.path != conflicts[0].path
        {
          assert c in rest;
        }
      }
    }
  }

  // Dropping a conflict resolves nothing by itself: while the two sides still differ, the next pass
  // records it again.
  lemma DroppedConflictReturns(cfg: Config, w: World, p: string, id: string, ops: seq<Op>, ent: Entropy)
    requires ValidConfig(cfg) && Tame(cfg, w) && CellDecide(cfg.prim.hash, ViewAt(cfg, w, p)) == Conflict
    requires PlanOf(cfg, w.(conflicts := Resolve(w.conflicts, id)), ops)
    ensures var w1 := w.(conflicts := Resolve(w.conflicts, id));
            p in ConflictPaths(RunOps(cfg, w1, LocalSnap(cfg, w1), ops, ent).0)
  {
    var w1 := w.(conflicts := Resolve(w.conflicts, id));
    assert forall q :: ViewAt(cfg, w1, q) == ViewAt(cfg, w, q);
    forall q
      ensures TameAt(cfg, w1, q)
    {
      assert TameAt(cfg, w, q);
    }
    PlanMembers(cfg, w1, ops, p);
    PlanCanRun(cfg, w1, ops);
    RunOpsConflicts(cfg, w1, LocalSnap(cfg, w1), ops, ent);
    assert Op(Conflict, p, KeyFor(cfg.machine, p)) in ops;
  }

  /* ---- interruption ---- */

  lemma SplitPlan(ops: seq<Op>, n: nat)
    requires Distinct(ops) && n <= |ops|
    ensures Distinct(ops[..n]) && Distinct(ops[n..])
    ensures forall op :: op in ops <==> op in ops[..n] || op in ops[n..]
    ensures forall o, op | o in ops[..n] && op in ops[n..] :: o.path != op.path
  {
    assert ops == ops[..n] + ops[n..];
    forall o, op | o in ops[..n] && op in ops[n..]
      ensures o.path != op.path
    {
      var i :| 0 <= i < n && ops[i] == o;
      var j :| 0 <= j < |ops| - n && ops[n..][j] == op;
      assert ops[i].path != ops[n + j].path;
    }
    forall i, j | 0 <= i < j < |ops| - n
      ensures ops[n..][i].path != ops[n..][j].path
    {
      assert ops[n + i].path != ops[n + j].path;
    }
  }

  ghost predicate Touched(ops: seq<Op>, p: string) {
    exists op | op in ops :: op.path == p
  }

  // After the first n operations, whole: their paths are settled, the others untouched.
  lemma WholePrefix(cfg: Config, w: World, ops: seq<Op>, ent: Entropy, n: nat, p: string)
    requires ValidConfig(cfg) && Tame(cfg, w) && PlanOf(cfg, w, ops) && n <= |ops|
    ensures var part := RunPart(cfg, w, LocalSnap(cfg, w), ops, ent, n, 0);
            && Tame(cfg, part)
            && ViewAt(cfg, part, p)
                 == if Touched(ops[..n], p) then Settle(cfg.prim.hash, ViewAt(cfg, w, p)) else ViewAt(cfg, w, p)
  {
    hide RunOps, ViewAt, Tame, LocalSnap, RemoteSnap;
    PlanCanRun(cfg, w, ops);
    SplitPlan(ops, n);
    RunOpsProjects(cfg, w, LocalSnap(cfg, w), ops[..n], ent);
    SnapshotsSeeCells(cfg, w, p);
    PlanMembers(cfg, w, ops, p);
  }

  // The next operation after n of them is the decision on a path not reached before.
  lemma NextOperation(cfg: Config, w: World, ops: seq<Op>, n: nat)
    requires Tame(cfg, w) && PlanOf(cfg, w, ops) && n < |ops|
    ensures var c := ViewAt(cfg, w, ops[n].path);
            && !Touched(ops[..n], ops[n].path) && Proper(cfg, ops[n])
            && ops[n].kind == CellDecide(cfg.prim.hash, c)
            && EntryFor(LocalSnap(cfg, w), ops[n].path).hash == ScanDigest(cfg.prim.hash, c)
  {
    hide ViewAt, Tame, LocalSnap, RemoteSnap;
    assert ops[n] in ops && ops[n..][0] == ops[n];
    SplitPlan(ops, n);
    PlanMembers(cfg, w, ops, ops[n].path);
    SnapshotsSeeCells(cfg, w, ops[n].path);
  }

  lemma PartialPass(cfg: Config, w: World, ops: seq<Op>, ent: Entropy, n: nat, k: nat)
    requires ValidConfig(cfg) && Tame(cfg, w) && PlanOf(cfg, w, ops)
    requires n <= |ops| && k <= STEPS && (n == |ops| ==> k == 0)
    ensures var part := RunPart(cfg, w, LocalSnap(cfg, w), ops, ent, n, k);
            && Tame(cfg, part)
            && forall p ::
                 var c := ViewAt(cfg, w, p);
                 ViewAt(cfg, part, p) ==
                   if n < |ops| && p == ops[n].path then
                     CellAdvance(cfg.prim.hash, c, CellDecide(cfg.prim.hash, c), ScanDigest(cfg.prim.hash, c), Todo, k).0
                   else if Touched(ops[..n], p) then Settle(cfg.prim.hash, c)
                   else c
  {
    hide RunOps, ViewAt, Tame, LocalSnap, PlanOf, Settle, CellAdvance, Touched;
    var local := LocalSnap(cfg, w);
    var w1 := RunPart(cfg, w, local, ops, ent, n, 0);
    forall p {
      WholePrefix(cfg, w, ops, ent, n, p);
    }
    WholePrefix(cfg, w, ops, ent, n, "");
    if n < |ops| {
      NextOperation(cfg, w, ops, n);
      AdvanceProjects(cfg, w1, ops[n], EntryFor(local, ops[n].path), ent(ops[n].path), Todo, k);
    }
  }

  lemma PartialCell(cfg: Config, w: World, ops: seq<Op>, ent: Entropy, n: nat, k: nat, p: string)
    requires ValidConfig(cfg) && Ready(cfg, w) && PlanOf(cfg, w, ops)
    requires n <= |ops| && k <= STEPS && (n == |ops| ==> k == 0)
    ensures var h, c := cfg.prim.hash, ViewAt(cfg, w, p);
            var part := ViewAt(cfg, RunPart(cfg, w, LocalSnap(cfg, w), ops, ent, n, k), p);
            && WellLabelled(h, part) && Recovered(h, c, part, Settle(h, part))
            && (n == |ops| || p != ops[n].path || k == 0 || k == STEPS ==> Settle(h, part) == Settle(h, c))
            && (CellDecide(h, part) == Conflict <==>
                  CellDecide(h, c) == Conflict || (n < |ops| && p == ops[n].path && CutShowsConflict(h, c, k)))
  {
    hide RunPart, ViewAt, PlanOf, LocalSnap, Tame, CellAdvance, CellDecide, Settle, Recovered, Touched;
    PartialPass(cfg, w, ops, ent, n, k);
    var h, c := cfg.prim.hash, ViewAt(cfg, w, p);
    var part := ViewAt(cfg, RunPart(cfg, w, LocalSnap(cfg, w), ops, ent, n, k), p);
    RecoveredCell(h, c, part, k);
    InterruptedConflict(h, c, k);
  }

  // What the next pass reports: the conflicts of the first, and the path that was cut between its data
  // and its row over a row for other bytes.
  lemma InterruptedPassConflicts(cfg: Config, w: World, ops: seq<Op>, ent: Entropy, n: nat, k: nat, ops2: seq<Op>, p: string)
    requires ValidConfig(cfg) && Ready(cfg, w) && PlanOf(cfg, w, ops)
    requires n <= |ops| && k <= STEPS && (n == |ops| ==> k == 0)
    requires PlanOf(cfg, RunPart(cfg, w, LocalSnap(cfg, w), ops, ent, n, k), ops2)
    ensures InConflict(ops2, p) <==>
              InConflict(ops, p)
              || (n < |ops| && p == ops[n].path && CutShowsConflict(cfg.prim.hash, ViewAt(cfg, w, p), k))
  {
    hide RunPart, Tame, ViewAt, PlanOf, LocalSnap;
    var part := RunPart(cfg, w, LocalSnap(cfg, w), ops, ent, n, k);
    PartialPass(cfg, w, ops, ent, n, k);
    PartialCell(cfg, w, ops, ent, n, k, p);
    PlanMembers(cfg, w, ops, p);
    PlanMembers(cfg, part, ops2, p);
  }

  // Stop a pass after any number of its store effects and run a full pass later: every file and every
  // object ends where one undisturbed pass puts it.  Only the row of the one operation that was cut in
  // half can differ, at worst as a reported conflict between two sides that hold the same bytes.
  lemma InterruptedPassRecovers(cfg: Config, w: World, ops: seq<Op>, ent: Entropy, n: nat, k: nat,
                                ops2: seq<Op>, ent2: Entropy)
    requires ValidConfig(cfg) && Ready(cfg, w) && PlanOf(cfg, w, ops)
    requires n <= |ops| && k <= STEPS && (n == |ops| ==> k == 0)
    requires PlanOf(cfg, RunPart(cfg, w, LocalSnap(cfg, w), ops, ent, n, k), ops2)
    ensures var part := RunPart(cfg, w, LocalSnap(cfg, w), ops, ent, n, k);
            var (healed, ok) := RunOps(cfg, part, LocalSnap(cfg, part), ops2, ent2);
            var whole := RunOps(cfg, w, LocalSnap(cfg, w), ops, ent).0;
            && ok && Ready(cfg, part)
            && forall p ::
                 && Recovered(cfg.prim.hash, ViewAt(cfg, w, p), ViewAt(cfg, part, p), ViewAt(cfg, healed, p))
                 && ViewAt(cfg, healed, p).file == ViewAt(cfg, whole, p).file
                 && ViewAt(cfg, healed, p).obj == ViewAt(cfg, whole, p).obj
                 && (n == |ops| || p != ops[n].path || k == 0 || k == STEPS ==>
                       ViewAt(cfg, healed, p) == ViewAt(cfg, whole, p))
  {
    var part := RunPart(cfg, w, LocalSnap(cfg, w), ops, ent, n, k);
    PartialPass(cfg, w, ops, ent, n, k);
    PassSettles(cfg, w, ops, ent);
    PassSettles(cfg, part, ops2, ent2);
    forall p {
      PartialCell(cfg, w, ops, ent, n, k, p);
    }
  }

  // What is left to do after the first n operations: the rest of the plan, and the conflicts again.
  lemma RemainingPlan(cfg: Config, w: World, ops: seq<Op>, ent: Entropy, n: nat, ops2: seq<Op>, op: Op)
    requires ValidConfig(cfg) && Ready(cfg, w) && PlanOf(cfg, w, ops) && n <= |ops|
    requires PlanOf(cfg, RunPart(cfg, w, LocalSnap(cfg, w), ops, ent, n, 0), ops2)
    ensures op in ops2 <==> op in ops[n..] || (op in ops[..n] && op.kind == Conflict)
    ensures op in ops[n..] ==>
              ViewAt(cfg, RunPart(cfg, w, LocalSnap(cfg, w), ops, ent, n, 0), op.path) == ViewAt(cfg, w, op.path)
  {
    WholePrefix(cfg, w, ops, ent, n, op.path);
    SplitPlan(ops, n);
    PlanMembers(cfg, w, ops, op.path);
    PlanMembers(cfg, RunPart(cfg, w, LocalSnap(cfg, w), ops, ent, n, 0), ops2, op.path);
    SettleIdempotent(cfg.prim.hash, ViewAt(cfg, w, op.path));
  }

  lemma RemainingCosts(cfg: Config, w: World, ops: seq<Op>, ent: Entropy, n: nat, ops2: seq<Op>)
    requires ValidConfig(cfg) && Ready(cfg, w) && PlanOf(cfg, w, ops) && n <= |ops|
    requires PlanOf(cfg, RunPart(cfg, w, LocalSnap(cfg, w), ops, ent, n, 0), ops2)
    ensures var part := RunPart(cfg, w, LocalSnap(cfg, w), ops, ent, n, 0);
            && Sum(UpCosts(cfg, part), ops2) == Sum(UpCosts(cfg, w), ops[n..])
            && Sum(DownCosts(cfg, part), ops2) == Sum(DownCosts(cfg, w), ops[n..])
            && ConflictOps(ops[..n]) + ConflictOps(ops2) == ConflictOps(ops)
  {
    hide RunPart, Tame, ViewAt, Sum, Ready, LocalSnap, RemoteSnap;
    var part := RunPart(cfg, w, LocalSnap(cfg, w), ops, ent, n, 0);
    SplitPlan(ops, n);
    forall op
      ensures op in ops2 <==> op in ops[n..] || (op in ops[..n] && op.kind == Conflict)
      ensures op in ops[n..] ==> ViewAt(cfg, part, op.path) == ViewAt(cfg, w, op.path)
    {
      RemainingPlan(cfg, w, ops, ent, n, ops2, op);
    }
    SumCongruence(UpCosts(cfg, part), UpCosts(cfg, w), ops[n..]);
    SumCongruence(DownCosts(cfg, part), DownCosts(cfg, w), ops[n..]);
    SumPermutation(UpCosts(cfg, part), ops2, ops[n..]);
    SumPermutation(DownCosts(cfg, part), ops2, ops[n..]);
  }

  // The books of a list of operations in one place.
  lemma RunOpsBooks(cfg: Config, w: World, local: LocalSnapshot, ops: seq<Op>, ent: Entropy)
    requires ValidConfig(cfg) && Tame(cfg, w) && CanRun(cfg, w, ops)
    ensures var w1 := RunOps(cfg, w, local, ops, ent).0;
            && ConflictPaths(w1) == ConflictPaths(w) + ConflictOps(ops)
            && w1.up == w.up + Sum(UpCosts(cfg, w), ops)
            && w1.down == w.down + Sum(DownCosts(cfg, w), ops)
  {
    RunOpsConflicts(cfg, w, local, ops, ent);
    RunOpsCounters(cfg, w, local, ops, ent);
  }

  lemma PrefixBooks(cfg: Config, w: World, ops: seq<Op>, ent: Entropy, n: nat)
    requires ValidConfig(cfg) && Tame(cfg, w) && PlanOf(cfg, w, ops) && n <= |ops|
    ensures var part := RunPart(cfg, w, LocalSnap(cfg, w), ops, ent, n, 0);
            && Tame(cfg, part)
            && ConflictPaths(part) == ConflictPaths(w) + ConflictOps(ops[..n])
            && part.up == w.up + Sum(UpCosts(cfg, w), ops[..n])
            && part.down == w.down + Sum(DownCosts(cfg, w), ops[..n])
  {
    WholePrefix(cfg, w, ops, ent, n, "");
    PlanCanRun(cfg, w, ops);
    SplitPlan(ops, n);
    RunOpsBooks(cfg, w, LocalSnap(cfg, w), ops[..n], ent);
  }

  lemma WholeBooks(cfg: Config, w: World, ops: seq<Op>, ent: Entropy, n: nat)
    requires ValidConfig(cfg) && Tame(cfg, w) && PlanOf(cfg, w, ops) && n <= |ops|
    ensures var whole := RunOps(cfg, w, LocalSnap(cfg, w), ops, ent).0;
            && ConflictPaths(whole) == ConflictPaths(w) + ConflictOps(ops)
            && whole.up == w.up + Sum(UpCosts(cfg, w), ops[..n]) + Sum(UpCosts(cfg, w), ops[n..])
            && whole.down == w.down + Sum(DownCosts(cfg, w), ops[..n]) + Sum(DownCosts(cfg, w), ops[n..])
  {
    hide RunOps, LocalSnap, PlanOf, CanRun, Tame, ValidConfig;
    PlanCanRun(cfg, w, ops);
    RunOpsBooks(cfg, w, LocalSnap(cfg, w), ops, ent);
    SumSplit(UpCosts(cfg, w), ops, n);
    SumSplit(DownCosts(cfg, w), ops, n);
  }

  // A pass that stopped between two operations also loses nothing from the books: after the next full
  // pass both byte counters and the set of conflicting paths are those of one undisturbed pass.
  lemma InterruptedBetweenOperations(cfg: Config, w: World, ops: seq<Op>, ent: Entropy, n: nat, ops2: seq<Op>, ent2: Entropy)
    requires ValidConfig(cfg) && Ready(cfg, w) && PlanOf(cfg, w, ops) && n <= |ops|
    requires PlanOf(cfg, RunPart(cfg, w, LocalSnap(cfg, w), ops, ent, n, 0), ops2)
    ensures var part := RunPart(cfg, w, LocalSnap(cfg, w), ops, ent, n, 0);
            var healed := RunOps(cfg, part, LocalSnap(cfg, part), ops2, ent2).0;
            var whole := RunOps(cfg, w, LocalSnap(cfg, w), ops, ent).0;
            healed.up == whole.up && healed.down == whole.down && ConflictPaths(healed) == ConflictPaths(whole)
  {
    hide RunPart, RunOps, PlanOf, ConflictOps, ConflictPaths, LocalSnap;
    var part := RunPart(cfg, w, LocalSnap(cfg, w), ops, ent, n, 0);
    PrefixBooks(cfg, w, ops, ent, n);
    WholeBooks(cfg, w, ops, ent, n);
    WholeBooks(cfg, part, ops2, ent2, |ops2|);
    assert ops2[..|ops2|] == ops2 && ops2[|ops2|..] == [];
    RemainingCosts(cfg, w, ops, ent, n, ops2);
  }

  /* ---- changes between the scan and the operations ---- */

  // Any files rewritten and any new ones added, where the scan would look for them.
  ghost predicate Edited(cfg: Config, w: World, w1: World) {
    && w1 == w.(files := w1.files) && w.files.Keys <= w1.files.Keys
    && forall p | p in w1.files && p !in w.files && cfg.watched(p) :: Absolute(p) && !Hidden(cfg, p)
  }

  lemma EditedTame(cfg: Config, w: World, w1: World)
    requires Tame(cfg, w) && Edited(cfg, w, w1)
    ensures Tame(cfg, w1)
    ensures forall p :: ViewAt(cfg, w1, p) == ViewAt(cfg, w, p).(file := ViewAt(cfg, w1, p).file)
                        && (ViewAt(cfg, w, p).file.Some? ==> ViewAt(cfg, w1, p).file.Some?)
  {
    assert forall p :: p in w.files ==> p in w.files.Keys && p in w1.files.Keys;
    forall p
      ensures TameAt(cfg, w1, p)
      ensures ViewAt(cfg, w1, p) == ViewAt(cfg, w, p).(file := ViewAt(cfg, w1, p).file)
      ensures ViewAt(cfg, w, p).file.Some? ==> ViewAt(cfg, w1, p).file.Some?
    {
      assert TameAt(cfg, w, p);
    }
  }

  // Files rewritten and added, and objects put, as long as the world stays tame.
  ghost predicate Disturbed(cfg: Config, w: World, w1: World) {
    && w1 == w.(files := w1.files, bucket := w1.bucket) && Tame(cfg, w1)
    && w.files.Keys <= w1.files.Keys && w.bucket.Keys <= w1.bucket.Keys
  }

  lemma EditsDisturb(cfg: Config, w: World, w1: World)
    requires Tame(cfg, w) && Edited(cfg, w, w1)
    ensures Disturbed(cfg, w, w1)
  {
    EditedTame(cfg, w, w1);
  }

  lemma DisturbedCell(cfg: Config, w: World, w1: World, p: string)
    requires Tame(cfg, w) && Disturbed(cfg, w, w1)
    ensures var c, d := ViewAt(cfg, w, p), ViewAt(cfg, w1, p);
            && d.row == c.row
            && (c.file.Some? ==> d.file.Some?)
            && (c.obj.Some? ==> d.obj.Some? && d.obj.value.plain.Some?)
  {
    assert TameAt(cfg, w1, p);
    assert p in w.files ==> p in w.files.Keys && p in w1.files.Keys;
    var key := KeyFor(cfg.machine, p);
    assert key in w.bucket ==> key in w.bucket.Keys && key in w1.bucket.Keys;
  }

  // A plan taken from w, executed after such changes: every path's cell, as it is then, gets the
  // operation decided on the cell as scanned.
  lemma RacedPass(cfg: Config, w: World, ops: seq<Op>, ent: Entropy, during: World, p: string)
    requires ValidConfig(cfg) && Tame(cfg, w) && PlanOf(cfg, w, ops) && Disturbed(cfg, w, during)
    ensures var h, c, d := cfg.prim.hash, ViewAt(cfg, w, p), ViewAt(cfg, during, p);
            var (w1, ok) := RunOps(cfg, during, LocalSnap(cfg, w), ops, ent);
            && ok && Tame(cfg, w1) && Runnable(d, CellDecide(h, c))
            && ViewAt(cfg, w1, p) == CellRun(h, d, CellDecide(h, c), ScanDigest(h, c)).0
  {
    hide RunOps, LocalSnap, RemoteSnap, ViewAt;
    PlanCanRun(cfg, w, ops);
    forall q {
      DisturbedCell(cfg, w, during, q);
    }
    assert Tame(cfg, during);
    hide Tame, Disturbed;
    assert CanRun(cfg, during, ops);
    RunOpsProjects(cfg, during, LocalSnap(cfg, w), ops, ent);
    PlanMembers(cfg, w, ops, p);
    SnapshotsSeeCells(cfg, w, p);
    var h, c := cfg.prim.hash, ViewAt(cfg, w, p);
    RunClosedForm(h, ViewAt(cfg, during, p), CellDecide(h, c), ScanDigest(h, c));
  }

  // Files may be rewritten and objects put in any way after the scan and before the uploads read them
  // (`during`), and files again before the next, quiet pass (`after`).  An uploaded path is a mirror after that pass exactly
  // unless its bytes have returned to the scanned version while others were sent.
  lemma UploadRaceHeals(cfg: Config, w: World, ops: seq<Op>, ent: Entropy, during: World, after: World,
                        ops2: seq<Op>, ent2: Entropy, p: string)
    requires ValidConfig(cfg) && Tame(cfg, w) && PlanOf(cfg, w, ops) && Disturbed(cfg, w, during)
    requires Edited(cfg, RunOps(cfg, during, LocalSnap(cfg, w), ops, ent).0, after)
    requires PlanOf(cfg, after, ops2)
    requires Op(Upload, p, KeyFor(cfg.machine, p)) in ops
    ensures var healed := RunOps(cfg, after, LocalSnap(cfg, after), ops2, ent2).0;
            var scanned, sent := ViewAt(cfg, w, p).file, ViewAt(cfg, during, p).file;
            var now := ViewAt(cfg, after, p).file;
            && now.Some? && ViewAt(cfg, healed, p).file == now
            && Digest(ViewAt(cfg, after, p)) == ViewAt(cfg, after, p).row
            && (Converged(cfg.prim.hash, ViewAt(cfg, healed, p)) <==> (now != scanned || sent == scanned))
  {
    hide RunOps, LocalSnap, RemoteSnap, Tame, ViewAt, Edited, Disturbed;
    var w1 := RunOps(cfg, during, LocalSnap(cfg, w), ops, ent).0;
    RacedPass(cfg, w, ops, ent, during, p);
    DisturbedCell(cfg, w, during, p);
    EditedTame(cfg, w1, after);
    PassSettles(cfg, after, ops2, ent2);
    PlanMembers(cfg, w, ops, p);
    var h, c := cfg.prim.hash, ViewAt(cfg, during, p);
    var scanned, sent := ViewAt(cfg, w, p).file.value, c.file.value;
    RunClosedForm(h, c, Upload, h(scanned));
    UploadRace(h, c, scanned, sent, ViewAt(cfg, after, p).file.value);
  }

  // An edit made between the scan and the operations survives the pass exactly unless the pass
  // downloads other bytes to its path.
  lemma EditSurvivesPass(cfg: Config, w: World, ops: seq<Op>, ent: Entropy, during: World, p: string)
    requires ValidConfig(cfg) && Tame(cfg, w) && PlanOf(cfg, w, ops) && Disturbed(cfg, w, during)
    requires ViewAt(cfg, during, p).file.Some?
    ensures var w1 := RunOps(cfg, during, LocalSnap(cfg, w), ops, ent).0;
            var d := ViewAt(cfg, during, p);
            ViewAt(cfg, w1, p).file == d.file <==> (Op(Download, p, KeyFor(cfg.machine, p)) !in ops || ObjBytes(d) == d.file)
  {
    hide RunOps, LocalSnap, RemoteSnap, Tame, ViewAt, Disturbed;
    RacedPass(cfg, w, ops, ent, during, p);
    PlanMembers(cfg, w, ops, p);
    ChangedAfterScan(cfg.prim.hash, ViewAt(cfg, w, p), ViewAt(cfg, during, p));
  }

  // An object put by someone else in that time is lost, on neither side, exactly when the pass uploads
  // to its path or deletes it, and the file does not hold the same bytes.
  lemma PutLostByPass(cfg: Config, w: World, ops: seq<Op>, ent: Entropy, during: World, p: string)
    requires ValidConfig(cfg) && Tame(cfg, w) && PlanOf(cfg, w, ops) && Disturbed(cfg, w, during)
    requires ObjBytes(ViewAt(cfg, during, p)).Some?
    ensures var r := ViewAt(cfg, RunOps(cfg, during, LocalSnap(cfg, w), ops, ent).0, p);
            var d, key := ViewAt(cfg, during, p), KeyFor(cfg.machine, p);
            (r.file != ObjBytes(d) && ObjBytes(r) != ObjBytes(d))
            <==> (d.file != ObjBytes(d) && (Op(Upload, p, key) in ops || Op(DeleteRemote, p, key) in ops))
  {
    hide RunOps, LocalSnap, RemoteSnap, Tame, ViewAt, Disturbed;
    RacedPass(cfg, w, ops, ent, during, p);
    PlanMembers(cfg, w, ops, p);
    ChangedAfterScan(cfg.prim.hash, ViewAt(cfg, w, p), ViewAt(cfg, during, p));
  }

  // In terms of whole passes: which remote bytes, other than the recorded ones, a pass loses.
  lemma PassLosesUnsynced(cfg: Config, w: World, ops: seq<Op>, ent: Entropy, p: string, digest: string, b: Bytes)
    requires ValidConfig(cfg) && Tame(cfg, w) && PlanOf(cfg, w, ops)
    requires ViewAt(cfg, w, p).obj == Some(RemoteView(digest, Some(b))) && ViewAt(cfg, w, p).row != Some(cfg.prim.hash(b))
    ensures var d := ViewAt(cfg, RunOps(cfg, w, LocalSnap(cfg, w), ops, ent).0, p);
            (d.file != Some(b) && ObjBytes(d) != Some(b))
            <==> LosesObject(cfg.prim.hash, ViewAt(cfg, w, p), digest, b)
  {
    hide RunOps, LocalSnap, Tame, ViewAt, PlanOf;
    PassSettles(cfg, w, ops, ent);
    UnsyncedRemoteIsLost(cfg.prim.hash, ViewAt(cfg, w, p), digest, b);
  }

  /* ---- namespaces ---- */

  // The keys of any plan, in any world: all under this machine's prefix, and nothing reserved is ever
  // fetched or deleted.
  lemma PlanStaysInNamespace(cfg: Config, w: World, ops: seq<Op>)
    requires PlanOf(cfg, w, ops)
    ensures forall op | op in ops ::
              && HasPrefix(op.key, KeyPrefix(cfg.machine))
              && (op.kind == Download || op.kind == DeleteRemote ==> !exists a, b :: op.key == a + "/.dropboy/" + b)
  {
    RemotePathsKeys(cfg, w);
    forall op | op in ops
      ensures HasPrefix(op.key, KeyPrefix(cfg.machine))
      ensures op.kind == Download || op.kind == DeleteRemote ==> !exists a, b :: op.key == a + "/.dropboy/" + b
    {
      assert Planned(op, LocalSnap(cfg, w), RemoteSnap(cfg, w), w.rows, cfg.machine);
      ContainsExactly(op.key, RESERVED);
      KeyRoundTrip(cfg.machine, op.path, "");
    }
  }

  // A pass, complete, failing, or cut short at any effect, changes no object outside its own prefix.
  lemma PassKeepsForeignKeys(cfg: Config, w: World, ops: seq<Op>, ent: Entropy, n: nat, k: nat, key: string)
    requires PlanOf(cfg, w, ops) && !HasPrefix(key, KeyPrefix(cfg.machine))
    requires n <= |ops| && (n == |ops| ==> k == 0)
    ensures SameAt(w.bucket, RunOps(cfg, w, LocalSnap(cfg, w), ops, ent).0.bucket, key)
    ensures SameAt(w.bucket, RunPart(cfg, w, LocalSnap(cfg, w), ops, ent, n, k).bucket, key)
  {
    hide RunOps, Advance, PlanOf;
    var local := LocalSnap(cfg, w);
    PlanStaysInNamespace(cfg, w, ops);
    OtherKeysKept(cfg, w, local, ops, ent, key);
    assert forall op | op in ops[..n] :: op in ops;
    OtherKeysKept(cfg, w, local, ops[..n], ent, key);
    if n < |ops| {
      assert ops[n] in ops;
      var w1 := RunOps(cfg, w, local, ops[..n], ent).0;
      AdvanceFrame(cfg, w1, ops[n], EntryFor(local, ops[n].path), ent(ops[n].path), Todo, k);
    }
  }

  // Hence none of another machine, unless the two names overlap.
  lemma PassIsolated(cfg: Config, w: World, ops: seq<Op>, ent: Entropy, n: nat, k: nat, other: string)
    requires PlanOf(cfg, w, ops) && !Overlapping(cfg.machine, other)
    requires n <= |ops| && (n == |ops| ==> k == 0)
    ensures var whole, part := RunOps(cfg, w, LocalSnap(cfg, w), ops, ent).0, RunPart(cfg, w, LocalSnap(cfg, w), ops, ent, n, k);
            forall key | HasPrefix(key, KeyPrefix(other)) :: SameAt(w.bucket, whole.bucket, key) && SameAt(w.bucket, part.bucket, key)
  {
    hide RunOps, RunPart, PlanOf, SameAt, KeyPrefix;
    KeySpacesOverlap(cfg.machine, other);
    forall key | HasPrefix(key, KeyPrefix(other))
      ensures SameAt(w.bucket, RunOps(cfg, w, LocalSnap(cfg, w), ops, ent).0.bucket, key)
      ensures SameAt(w.bucket, RunPart(cfg, w, LocalSnap(cfg, w), ops, ent, n, k).bucket, key)
    {
      PassKeepsForeignKeys(cfg, w, ops, ent, n, k, key);
    }
  }
}
