/**
 Why the convergence theorems ask for what they ask: what the engine does to a path that is hidden,
 unwatched, or missing from an incomplete scan.
*/
module Hypotheses {
  import opened Wrappers
  import opened Envelope
  import opened Cells
  import opened Keys
  import opened Planner
  import opened Worlds

  // A watched file under a `.dropboy` directory is uploaded by every pass, whatever the bucket and the
  // rows hold, because the scan of the bucket skips its key.
  lemma HiddenFileIsUploadedEveryPass(cfg: Config, w: World, p: string, ops: seq<Op>)
    requires p in w.files && cfg.watched(p) && Absolute(p) && Hidden(cfg, p) && PlanOf(cfg, w, ops)
    ensures Op(Upload, p, KeyFor(cfg.machine, p)) in ops
  {
    RemotePathsKeys(cfg, w);
    assert DecideAt(LocalSnap(cfg, w), RemoteSnap(cfg, w), w.rows, p) == Upload;
  }

  // A whole pass that lists a download and runs to its end has replaced whatever file was at the path,
  // written the row, and left the object.
  lemma {:induction false} PassDownloads(cfg: Config, w: World, local: LocalSnapshot, ops: seq<Op>, ent: Entropy, down: Op)
    requires down in ops && down.kind == Download && Distinct(ops) && RunOps(cfg, w, local, ops, ent).1
    requires forall op | op in ops && op.key == down.key :: op.path == down.path
    requires down.key in w.bucket && OpenObject(cfg.prim, cfg.master, w.bucket[down.key]).Some?
    ensures var b := OpenObject(cfg.prim, cfg.master, w.bucket[down.key]).value;
            var w1 := RunOps(cfg, w, local, ops, ent).0;
            && down.path in w1.files && w1.files[down.path] == b
            && down.path in w1.rows && w1.rows[down.path].hash == cfg.prim.hash(b)
            && SameAt(w.bucket, w1.bucket, down.key)
    decreases |ops|
  {
    hide RunOp, OpenObject;
    var entry, f := EntryFor(local, ops[0].path), ent(ops[0].path);
    var w1 := RunOp(cfg, w, ops[0], entry, f).0;
    TailFacts(ops);
    if ops[0] == down {
      DownloadEffect(cfg, w, down, entry, f);
      OtherPathsKept(cfg, w1, local, ops[1..], ent, down.path);
      OtherKeysKept(cfg, w1, local, ops[1..], ent, down.key);
    } else {
      assert ops[0] in ops && ops[0].path != down.path;
      RunOpFrame(cfg, w, ops[0], entry, f);
      PassDownloads(cfg, w1, local, ops[1..], ent, down);
    }
  }

  // An object outside the watched folders is downloaded by one pass, over any unscanned file that is
  // there, and deleted from the bucket by the next: the file it became is not scanned, but its row is
  // there.
  lemma UnwatchedObjectIsDeleted(cfg: Config, w: World, p: string, ops: seq<Op>, ent: Entropy, ops2: seq<Op>)
    requires Absolute(p) && !Hidden(cfg, p) && !cfg.watched(p) && p !in w.rows
    requires KeyFor(cfg.machine, p) in w.bucket
    requires OpenObject(cfg.prim, cfg.master, w.bucket[KeyFor(cfg.machine, p)]).Some?
    requires forall q | q in w.files && cfg.watched(q) :: Absolute(q)
    requires PlanOf(cfg, w, ops) && RunOps(cfg, w, LocalSnap(cfg, w), ops, ent).1
    requires PlanOf(cfg, RunOps(cfg, w, LocalSnap(cfg, w), ops, ent).0, ops2)
    ensures var w1 := RunOps(cfg, w, LocalSnap(cfg, w), ops, ent).0;
            && p in w1.files && Some(w1.files[p]) == OpenObject(cfg.prim, cfg.master, w.bucket[KeyFor(cfg.machine, p)])
            && Op(Download, p, KeyFor(cfg.machine, p)) in ops
            && Op(DeleteRemote, p, KeyFor(cfg.machine, p)) in ops2
  {
    hide RunOps, OpenObject, RemotePaths;
    var key := KeyFor(cfg.machine, p);
    var down := Op(Download, p, key);
    var w1 := RunOps(cfg, w, LocalSnap(cfg, w), ops, ent).0;
    KeyRoundTrip(cfg.machine, p, key);
    RemotePathsKeys(cfg, w);
    assert DecideAt(LocalSnap(cfg, w), RemoteSnap(cfg, w), w.rows, p) == Download;
    PlanKeysAreOwn(cfg, w, ops, p);
    PassDownloads(cfg, w, LocalSnap(cfg, w), ops, ent, down);
    RemotePathsKeys(cfg, w1);
    assert DecideAt(LocalSnap(cfg, w1), RemoteSnap(cfg, w1), w1.rows, p) == DeleteRemote;
  }

  // In a plan over absolute paths no other path's operation has this path's key.
  lemma PlanKeysAreOwn(cfg: Config, w: World, ops: seq<Op>, p: string)
    requires PlanOf(cfg, w, ops) && Absolute(p)
    requires forall q | q in w.files && cfg.watched(q) :: Absolute(q)
    ensures forall op | op in ops && op.key == KeyFor(cfg.machine, p) :: op.path == p
  {
    RemotePathsKeys(cfg, w);
    forall op | op in ops && op.key == KeyFor(cfg.machine, p)
      ensures op.path == p
    {
      assert Planned(op, LocalSnap(cfg, w), RemoteSnap(cfg, w), w.rows, cfg.machine);
      assert op.path in LocalSnap(cfg, w) || op.path in RemotePaths(cfg, w);
      KeyForInjective(cfg.machine, op.path, p);
    }
  }

  // A file that cannot be hashed is left out of the scan, so its synced object is deleted.
  lemma UnreadableFileIsDeletedRemotely(cfg: Config, w: World, p: string, ops: seq<Op>)
    requires Tame(cfg, w) && ViewAt(cfg, w, p).obj.Some? && p in w.rows
    requires IsPlan(ops, LocalSnap(cfg, w) - {p}, RemoteSnap(cfg, w), w.rows, cfg.machine)
    ensures Op(DeleteRemote, p, KeyFor(cfg.machine, p)) in ops
  {
    SnapshotsSeeCells(cfg, w, p);
    assert DecideAt(LocalSnap(cfg, w) - {p}, RemoteSnap(cfg, w), w.rows, p) == DeleteRemote;
  }

  // An object whose metadata cannot be read is left out too, so the local file is put over it even when
  // only the object has changed.
  lemma UnreadableObjectIsOverwritten(cfg: Config, w: World, p: string, ops: seq<Op>)
    requires Tame(cfg, w) && ViewAt(cfg, w, p).file.Some?
    requires IsPlan(ops, LocalSnap(cfg, w), RemoteSnap(cfg, w) - {p}, w.rows, cfg.machine)
    ensures Op(Upload, p, KeyFor(cfg.machine, p)) in ops
  {
    SnapshotsSeeCells(cfg, w, p);
    assert DecideAt(LocalSnap(cfg, w), RemoteSnap(cfg, w) - {p}, w.rows, p) == Upload;
  }
}
