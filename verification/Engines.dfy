/**
 The engine itself (engine.go): an object whose methods update the stores, the conflict list and the
 counters in place.  Every store call may fail, at the environment's choice (`*`); a failing call
 ends the pass.  Each method is tied to the functions of `Worlds`, about which `Passes`, `Runs` and
 `Overlap` prove the rest.
*/
module Engines {
  import opened Wrappers
  import opened Envelope
  import opened Cells
  import opened Keys
  import opened Planner
  import opened Worlds
  import opened Passes
  import opened Runs

  lemma {:induction false} RunOpsSnoc(cfg: Config, w: World, local: LocalSnapshot, ops: seq<Op>, op: Op, ent: Entropy)
    ensures var (w1, ok) := RunOps(cfg, w, local, ops, ent);
            RunOps(cfg, w, local, ops + [op], ent) ==
              if !ok then (w1, false)
              else
                var (w2, s2) := RunOp(cfg, w1, op, EntryFor(local, op.path), ent(op.path));
                (w2, !s2.Failed?)
    decreases |ops|
  {
    if ops == [] {
      assert ([] + [op])[1..] == [];
      assert [] + [op] == [op];
    } else {
      var (w1, s1) := RunOp(cfg, w, ops[0], EntryFor(local, ops[0].path), ent(ops[0].path));
      assert (ops + [op])[1..] == ops[1..] + [op];
      RunOpsSnoc(cfg, w1, local, ops[1..], op, ent);
    }
  }

  // If the i-th operation fails, the list stops there.
  lemma {:induction false} RunOpsStopAt(cfg: Config, w: World, local: LocalSnapshot, ops: seq<Op>, i: nat, ent: Entropy)
    requires i < |ops| && RunOps(cfg, w, local, ops[..i], ent).1
    ensures var w1 := RunOps(cfg, w, local, ops[..i], ent).0;
            var (w2, s2) := RunOp(cfg, w1, ops[i], EntryFor(local, ops[i].path), ent(ops[i].path));
            s2.Failed? ==> RunOps(cfg, w, local, ops, ent) == (w2, false)
    decreases i
  {
    if i > 0 {
      var (w1, s1) := RunOp(cfg, w, ops[0], EntryFor(local, ops[0].path), ent(ops[0].path));
      assert ops[..i][1..] == ops[1..][..i - 1];
      assert ops[..i][0] == ops[0];
      RunOpsStopAt(cfg, w1, local, ops[1..], i - 1, ent);
    }
  }

  // A store call: it fails at the environment's choice, but never while the stores are `reliable`.
  method StoreFails(reliable: bool) returns (fails: bool)
    ensures reliable ==> !fails
  {
    fails := *;
    fails := fails && !reliable;
  }

  lemma FailedStays(cfg: Config, w: World, op: Op, entry: LocalEntry, f: Fresh, stage: Stage, k: nat)
    requires Step(cfg, w, op, entry, f, stage) == (w, Failed)
    ensures k > 0 ==> Advance(cfg, w, op, entry, f, stage, k) == (w, Failed)
    decreases k
  {
    if k > 1 {
      assert Step(cfg, w, op, entry, f, Failed) == (w, Failed);
      FailedStays(cfg, w, op, entry, f, Failed, k - 1);
    } else if k == 1 {
      assert Advance(cfg, w, op, entry, f, Failed, 0) == (w, Failed);
    }
  }

  lemma FinishedStays(cfg: Config, w: World, w1: World, op: Op, entry: LocalEntry, f: Fresh)
    requires Step(cfg, w, op, entry, f, Todo) == (w1, Finished)
    ensures Advance(cfg, w, op, entry, f, Todo, STEPS) == (w1, Finished)
  {
    assert Step(cfg, w1, op, entry, f, Finished) == (w1, Finished);
    assert Advance(cfg, w1, op, entry, f, Finished, 1) == Advance(cfg, w1, op, entry, f, Finished, 0);
    assert Advance(cfg, w1, op, entry, f, Finished, 2) == (w1, Finished);
  }

  class Engine {
    const cfg: Config
    var files: map<string, Bytes>
    var bucket: map<string, Obj>
    var rows: StateSnapshot
    var conflicts: seq<ConflictRecord>
    var bytesUp: nat
    var bytesDown: nat
    var upQ: nat
    var downQ: nat

    ghost function Now(): World
      reads this
    {
      World(files, bucket, rows, conflicts, bytesUp, bytesDown)
    }

    constructor (cfg: Config, files: map<string, Bytes>, bucket: map<string, Obj>, rows: StateSnapshot)
      ensures this.cfg == cfg && Now() == World(files, bucket, rows, [], 0, 0) && upQ == downQ == 0
    {
      this.cfg := cfg;
      this.files, this.bucket, this.rows := files, bucket, rows;
      conflicts, bytesUp, bytesDown, upQ, downQ := [], 0, 0, 0, 0;
    }

    /* ---- conflicts ---- */

    method RecordConflict(path: string, id: string)
      modifies `conflicts
      ensures conflicts == Worlds.RecordConflict(old(conflicts), path, id)
      ensures conflicts == old(conflicts) || conflicts == old(conflicts) + [ConflictRecord(id, path)]
      ensures conflicts == old(conflicts) <==> exists c | c in old(conflicts) :: c.path == path
    {
      for i := 0 to |conflicts|
        invariant forall j | 0 <= j < i :: conflicts[j].path != path
      {
        if conflicts[i].path == path {
          return;
        }
      }
      conflicts := conflicts + [ConflictRecord(id, path)];
    }

    method ResolveConflict(id: string) returns (found: bool)
      modifies `conflicts
      ensures conflicts == Resolve(old(conflicts), id)
      ensures found <==> exists c | c in old(conflicts) :: c.id == id
      ensures forall k: nat | k < |old(conflicts)| && old(conflicts)[k].id == id && (forall j | 0 <= j < k :: old(conflicts)[j].id != id) ::
                conflicts == old(conflicts)[..k] + old(conflicts)[k + 1..]
    {
      hide Resolve;
      for i := 0 to |conflicts|
        invariant forall j | 0 <= j < i :: conflicts[j].id != id
        invariant conflicts == old(conflicts)
      {
        if conflicts[i].id == id {
          ResolveDropsFirst(conflicts, id, i);
          conflicts := conflicts[..i] + conflicts[i + 1..];
          return true;
        }
      }
      ResolveDropsFirst(conflicts, id, |conflicts|);
      return false;
    }

    /* ---- snapshots ---- */

    method SnapshotLocal() returns (out: LocalSnapshot)
      ensures out == LocalSnap(cfg, Now())
    {
      out := map[];
      var todo := files.Keys;
      while todo != {}
        invariant todo <= files.Keys
        invariant out.Keys == set p | p in files.Keys - todo && cfg.watched(p)
        invariant forall p | p in out :: out[p] == LocalEntry(|files[p]|, cfg.prim.hash(files[p]))
      {
        var p :| p in todo;
        todo := todo - {p};
        if cfg.watched(p) {
          out := out[p := LocalEntry(|files[p]|, cfg.prim.hash(files[p]))];
        }
      }
    }

    method SnapshotRemote() returns (out: RemoteSnapshot)
      ensures out == RemoteSnap(cfg, Now())
    {
      out := map[];
      var todo := bucket.Keys;
      while todo != {}
        invariant todo <= bucket.Keys
        invariant forall p :: p in out <==> Absolute(p) && KeyFor(cfg.machine, p) in bucket.Keys - todo
                                            && Listed(cfg.machine, KeyFor(cfg.machine, p))
        invariant forall p | p in out ::
                    out[p] == RemoteEntry(KeyFor(cfg.machine, p), bucket[KeyFor(cfg.machine, p)].meta.digest)
      {
        var key :| key in todo;
        todo := todo - {key};
        KeyRoundTrip(cfg.machine, "", key);
        if Listed(cfg.machine, key) {
          ghost var was := out;
          var local := PathFromKey(cfg.machine, key);
          out := out[local := RemoteEntry(key, bucket[key].meta.digest)];
          forall p | Absolute(p) && KeyFor(cfg.machine, p) == key
            ensures p == local
          {
            KeyForInjective(cfg.machine, p, local);
          }
        }
      }
      RemotePathsKeys(cfg, Now());
    }

    /* ---- execution ---- */

    // `k` counts the steps that took effect before the operation ended or failed.
    method DoUpload(op: Op, entry: LocalEntry, f: Fresh, reliable: bool) returns (err: bool, ghost k: nat)
      requires op.kind == Upload
      modifies `bucket, `rows, `bytesUp
      ensures k <= STEPS && Now() == Advance(cfg, old(Now()), op, entry, f, Todo, k).0
      ensures !err ==> RunOp(cfg, old(Now()), op, entry, f) == (Now(), Finished)
      ensures err && reliable ==> RunOp(cfg, old(Now()), op, entry, f) == (Now(), Failed)
    {
      ghost var w0 := Now();
      if op.path !in files {
        FailedStays(cfg, w0, op, entry, f, Todo, STEPS);
        return true, 0;
      }
      var plain := files[op.path];
      var o := SealObject(cfg.prim, cfg.master, plain, entry.hash, entry.size, f);
      if o.None? {
        FailedStays(cfg, w0, op, entry, f, Read(plain), 2);
        return true, 0;
      }
      var fails := StoreFails(reliable);
      if fails {
        return true, 0;
      }
      bucket := bucket[op.key := o.value];
      bytesUp := bytesUp + |o.value.ct|;
      ghost var w2 := Now();
      assert Step(cfg, w0, op, entry, f, Todo) == (w0, Read(plain));
      assert Step(cfg, w0, op, entry, f, Read(plain)) == (w2, Stored);
      assert Advance(cfg, w2, op, entry, f, Stored, 0).0 == w2;
      assert Advance(cfg, w0, op, entry, f, Read(plain), 1).0 == w2;
      fails := StoreFails(reliable);
      if fails {
        return true, 2;
      }
      rows := rows[op.path := Row(entry.size, entry.hash, op.key)];
      assert Advance(cfg, Now(), op, entry, f, Finished, 0) == (Now(), Finished);
      assert Advance(cfg, w2, op, entry, f, Stored, 1) == (Now(), Finished);
      assert Advance(cfg, w0, op, entry, f, Read(plain), 2) == (Now(), Finished);
      return false, 3;
    }

    method DoDownload(op: Op, entry: LocalEntry, f: Fresh, reliable: bool) returns (err: bool, ghost k: nat)
      requires op.kind == Download
      modifies `files, `rows, `bytesDown
      ensures k <= STEPS && Now() == Advance(cfg, old(Now()), op, entry, f, Todo, k).0
      ensures !err ==> RunOp(cfg, old(Now()), op, entry, f) == (Now(), Finished)
      ensures err && reliable ==> RunOp(cfg, old(Now()), op, entry, f) == (Now(), Failed)
    {
      ghost var w0 := Now();
      var fails := StoreFails(reliable);
      if fails {
        return true, 0;
      }
      if op.key !in bucket {
        FailedStays(cfg, w0, op, entry, f, Todo, STEPS);
        return true, 0;
      }
      var o := bucket[op.key];
      var text := OpenObject(cfg.prim, cfg.master, o);
      if text.None? {
        FailedStays(cfg, w0, op, entry, f, Todo, STEPS);
        return true, 0;
      }
      var plain := text.value;
      files := files[op.path := plain];
      bytesDown := bytesDown + |plain|;
      ghost var w2 := Now();
      assert Step(cfg, w0, op, entry, f, Todo) == (w0, Fetched(plain));
      assert Step(cfg, w0, op, entry, f, Fetched(plain)) == (w2, Written(plain));
      assert Advance(cfg, w2, op, entry, f, Written(plain), 0).0 == w2;
      assert Advance(cfg, w0, op, entry, f, Fetched(plain), 1).0 == w2;
      fails := StoreFails(reliable);
      if fails {
        return true, 2;
      }
      rows := rows[op.path := Row(|plain|, cfg.prim.hash(plain), op.key)];
      assert Advance(cfg, Now(), op, entry, f, Finished, 0) == (Now(), Finished);
      assert Advance(cfg, w2, op, entry, f, Written(plain), 1) == (Now(), Finished);
      assert Advance(cfg, w0, op, entry, f, Fetched(plain), 2) == (Now(), Finished);
      return false, 3;
    }

    // DeleteRemote and DeleteLocal; the planner never emits the latter.
    method DoDelete(op: Op, entry: LocalEntry, f: Fresh, reliable: bool) returns (err: bool, ghost k: nat)
      requires op.kind == DeleteRemote || op.kind == DeleteLocal
      modifies `files, `bucket, `rows
      ensures k <= STEPS && Now() == Advance(cfg, old(Now()), op, entry, f, Todo, k).0
      ensures !err ==> RunOp(cfg, old(Now()), op, entry, f) == (Now(), Finished)
      ensures err && reliable ==> RunOp(cfg, old(Now()), op, entry, f) == (Now(), Failed)
    {
      ghost var w0 := Now();
      var fails := StoreFails(reliable);
      if fails {
        return true, 0;
      }
      if op.kind == DeleteRemote {
        bucket := bucket - {op.key};
      } else {
        files := files - {op.path};
      }
      ghost var w1 := Now();
      assert Step(cfg, w0, op, entry, f, Todo) == (w1, Removed);
      assert Advance(cfg, w1, op, entry, f, Removed, 0).0 == w1;
      fails := StoreFails(reliable);
      if fails {
        return true, 1;
      }
      rows := rows - {op.path};
      assert Advance(cfg, Now(), op, entry, f, Finished, 0) == (Now(), Finished);
      assert Advance(cfg, Now(), op, entry, f, Finished, 1) == (Now(), Finished);
      assert Advance(cfg, w1, op, entry, f, Removed, 2) == (Now(), Finished);
      return false, 3;
    }

    method Execute(op: Op, entry: LocalEntry, f: Fresh, reliable: bool) returns (err: bool, ghost k: nat)
      modifies this
      ensures k <= STEPS && Now() == Advance(cfg, old(Now()), op, entry, f, Todo, k).0
      ensures !err ==> RunOp(cfg, old(Now()), op, entry, f) == (Now(), Finished)
      ensures err && reliable ==> RunOp(cfg, old(Now()), op, entry, f) == (Now(), Failed)
      ensures upQ == old(upQ) && downQ == old(downQ)
    {
      ghost var w0 := Now();
      match op.kind
      case Upload =>
        err, k := DoUpload(op, entry, f, reliable);
      case Download =>
        err, k := DoDownload(op, entry, f, reliable);
      case DeleteRemote =>
        err, k := DoDelete(op, entry, f, reliable);
      case DeleteLocal =>
        err, k := DoDelete(op, entry, f, reliable);
      case Conflict =>
        RecordConflict(op.path, f.clock);
        FinishedStays(cfg, w0, Now(), op, entry, f);
        err, k := false, 3;
      case Noop =>
        FinishedStays(cfg, w0, Now(), op, entry, f);
        err, k := false, 3;
    }

    // The execution loop: it stops at the first operation that fails.
    method ExecuteAll(local: LocalSnapshot, ops: seq<Op>, ent: Entropy, reliable: bool)
      returns (err: bool, ghost n: nat, ghost k: nat)
      modifies this
      ensures !err || reliable ==> RunOps(cfg, old(Now()), local, ops, ent) == (Now(), !err)
      ensures err ==> n < |ops| && k <= STEPS && Now() == RunPart(cfg, old(Now()), local, ops, ent, n, k)
      ensures upQ == old(upQ) && downQ == old(downQ)
    {
      ghost var w0 := Now();
      n, k := 0, 0;
      for i := 0 to |ops|
        invariant RunOps(cfg, w0, local, ops[..i], ent) == (Now(), true)
        invariant upQ == old(upQ) && downQ == old(downQ)
      {
        err, k := Execute(ops[i], EntryFor(local, ops[i].path), ent(ops[i].path), reliable);
        if err {
          if reliable {
            RunOpsStopAt(cfg, w0, local, ops, i, ent);
          }
          return true, i, k;
        }
        assert ops[..i + 1] == ops[..i] + [ops[i]];
        RunOpsSnoc(cfg, w0, local, ops[..i], ops[i], ent);
      }
      assert ops[..|ops|] == ops;
      err := false;
    }

    // One pass.  If it completes, it ran a plan of the starting world from end to end; if a store call
    // or an operation failed, it ran that plan up to some effect and left the queue counters set.
    method ReconcileOnce(ent: Entropy, reliable: bool)
      returns (ops: seq<Op>, err: bool, ghost n: nat, ghost k: nat)
      modifies this
      ensures PlanOf(cfg, old(Now()), ops) || (err && !reliable && ops == [] && Now() == old(Now()))
      ensures !err || reliable ==>
                RunOps(cfg, old(Now()), LocalSnap(cfg, old(Now())), ops, ent) == (Now(), !err)
      ensures reliable && ValidConfig(cfg) && Ready(cfg, old(Now())) ==> !err && Reconciled(cfg, old(Now()), ops, Now())
      ensures PlanOf(cfg, old(Now()), ops) ==> PassStep(cfg, old(Now()), Now())
      ensures !err ==> upQ == 0 && downQ == 0
      ensures err && ops != [] ==>
                && n < |ops| && k <= STEPS
                && Now() == RunPart(cfg, old(Now()), LocalSnap(cfg, old(Now())), ops, ent, n, k)
                && upQ == Count(ops, Upload) && downQ == Count(ops, Download)
    {
      ghost var w0 := Now();
      var fails := StoreFails(reliable);
      if fails {
        if PlanOf(cfg, w0, []) {
          assert PassTo(cfg, w0, w0, [], ent, 0, 0);
        }
        return [], true, 0, 0;
      }
      var local := SnapshotLocal();
      var remote := SnapshotRemote();
      ops := Plan(local, remote, rows, cfg.machine);
      upQ := CountKind(ops, Upload);
      downQ := CountKind(ops, Download);
      err, n, k := ExecuteAll(local, ops, ent, reliable);
      assert ops[..|ops|] == ops;
      assert if err then PassTo(cfg, w0, Now(), ops, ent, n, k) else PassTo(cfg, w0, Now(), ops, ent, |ops|, 0);
      if ValidConfig(cfg) && Ready(cfg, old(Now())) {
        PassConverges(cfg, old(Now()), ops, ent);
      }
      if err {
        return;
      }
      upQ, downQ := 0, 0;
    }
  }
}
