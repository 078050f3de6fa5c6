/**
 Overlapping passes: the daemon's loop and any number of `KickSync` calls run `ReconcileOnce` with no
 lock between them (daemon.go).  Each pass scans the files path by path, then the objects path by path,
 reads all rows at once, and then performs its operations one store effect at a time; the passes
 interleave freely at all of these points.  The order in which a pass scans and takes its operations is
 left open, as that of the source's walks and map iterations is.
*/
module Overlap {
  import opened Wrappers
  import opened Envelope
  import opened Cells
  import opened Keys
  import opened Planner
  import opened Worlds
  import opened Passes
  import opened OverlapCells

  // `done` holds the paths scanned so far, whether or not anything was there.
  datatype Proc =
    | ScanningFiles(done: set<string>, local: LocalSnapshot)
    | ScanningObjects(local: LocalSnapshot, done: set<string>, remote: RemoteSnapshot)
    | Scanned(local: LocalSnapshot, remote: RemoteSnapshot)
    | Running(local: LocalSnapshot, todo: set<Op>, cur: Option<(Op, Stage)>)
    | Stopped

  const START: Proc := ScanningFiles({}, map[])

  // Passes that have not begun yet are there from the beginning, at `START`.
  datatype System = System(w: World, procs: seq<Proc>)

  ghost function PlannedOps(local: LocalSnapshot, remote: RemoteSnapshot, state: StateSnapshot, machine: string): set<Op> {
    set p | p in local.Keys + remote.Keys && DecideAt(local, remote, state, p) != Noop ::
      OpFor(local, remote, state, machine, p)
  }

  // The same operations as in any list that `Plan` may return.
  lemma PlannedOpsArePlan(ops: seq<Op>, local: LocalSnapshot, remote: RemoteSnapshot, state: StateSnapshot, machine: string)
    requires IsPlan(ops, local, remote, state, machine)
    ensures forall op :: op in ops <==> op in PlannedOps(local, remote, state, machine)
  {
    forall op | op in ops
      ensures op in PlannedOps(local, remote, state, machine)
    {
      assert Planned(op, local, remote, state, machine);
      assert op.path in local.Keys + remote.Keys;
    }
  }

  // Copy what a snapshot says about one path.
  ghost function Copy<V>(into: map<string, V>, snap: map<string, V>, p: string): map<string, V> {
    if p in snap then into[p := snap[p]] else into
  }

  // A scan may end once it has covered everything that is there.
  ghost predicate ProcStep(cfg: Config, w: World, a: Proc, w1: World, a1: Proc) {
    match a
    case ScanningFiles(done, l) =>
      w1 == w && ((LocalSnap(cfg, w).Keys <= done && a1 == ScanningObjects(l, {}, map[]))
                  || exists p | p !in done :: a1 == ScanningFiles(done + {p}, Copy(l, LocalSnap(cfg, w), p)))
    case ScanningObjects(l, done, r) =>
      w1 == w && ((RemoteSnap(cfg, w).Keys <= done && a1 == Scanned(l, r))
                  || exists p | p !in done :: a1 == ScanningObjects(l, done + {p}, Copy(r, RemoteSnap(cfg, w), p)))
    case Scanned(l, r) => w1 == w && a1 == Running(l, PlannedOps(l, r, w.rows, cfg.machine), None)
    case Running(l, todo, None) =>
      w1 == w && if todo == {} then a1 == Stopped
                 else exists op | op in todo :: a1 == Running(l, todo - {op}, Some((op, Todo)))
    case Running(l, todo, Some((op, stage))) =>
      if stage.Finished? then w1 == w && a1 == Running(l, todo, None)
      else if stage.Failed? then w1 == w && a1 == Stopped
      else exists f: Fresh ::
        var (w2, s2) := Step(cfg, w, op, EntryFor(l, op.path), f, stage);
        w1 == w2 && a1 == Running(l, todo, Some((op, s2)))
    case Stopped => false
  }

  ghost predicate StepOf(cfg: Config, s: System, s1: System, i: nat)
    requires i < |s.procs|
  {
    |s1.procs| == |s.procs| && ProcStep(cfg, s.w, s.procs[i], s1.w, s1.procs[i]) && s1.procs == s.procs[i := s1.procs[i]]
  }

  ghost predicate SystemStep(cfg: Config, s: System, s1: System) {
    exists i | 0 <= i < |s.procs| :: StepOf(cfg, s, s1, i)
  }

  // Passes starting each at its own time and stopping anywhere, with nothing else touching the world.
  ghost predicate PassesOnly(cfg: Config, t: seq<System>) {
    && |t| > 0 && (forall i | 0 <= i < |t[0].procs| :: t[0].procs[i] == START)
    && forall i | 0 <= i < |t| - 1 :: SystemStep(cfg, t[i], t[i + 1])
  }

  // The same, from a ready world.
  ghost predicate Interleaving(cfg: Config, t: seq<System>) {
    PassesOnly(cfg, t) && Ready(cfg, t[0].w)
  }

  /* ---- one path of a pass ---- */

  ghost predicate Pending(todo: set<Op>, p: string) {
    exists op | op in todo :: op.path == p
  }

  ghost function PendingOp(todo: set<Op>, p: string): Op
    requires Pending(todo, p)
  {
    var op :| op in todo && op.path == p;
    op
  }

  function HashIn(l: LocalSnapshot, p: string): Option<string> {
    if p in l then Some(l[p].hash) else None
  }

  function DigestIn(r: RemoteSnapshot, p: string): Option<string> {
    if p in r then Some(r[p].hash) else None
  }

  ghost function PhaseAt(a: Proc, p: string): Phase {
    match a
    case ScanningFiles(done, l) => if p in done then SawFile(HashIn(l, p)) else Unseen
    case ScanningObjects(l, done, r) => if p in done then SawBoth(HashIn(l, p), DigestIn(r, p)) else SawFile(HashIn(l, p))
    case Scanned(l, r) => SawBoth(HashIn(l, p), DigestIn(r, p))
    case Running(l, todo, cur) =>
      if cur.Some? && cur.value.0.path == p then
        if Over(cur.value.1) then Idle else Acting(cur.value.0.kind, EntryFor(l, p).hash, cur.value.1)
      else if Pending(todo, p) then Acting(PendingOp(todo, p).kind, EntryFor(l, p).hash, Todo)
      else Idle
    case Stopped => Idle
  }

  // Operations are proper and on distinct paths; snapshots hold scanned paths where the planner may act.
  ghost predicate ProcOk(cfg: Config, a: Proc) {
    && (a.ScanningFiles? ==> a.local.Keys <= a.done)
    && (a.ScanningObjects? ==> a.remote.Keys <= a.done)
    && (a.ScanningFiles? || a.ScanningObjects? || a.Scanned? ==> forall p | p in a.local :: ProperPath(cfg, p))
    && (a.ScanningObjects? || a.Scanned? ==>
          forall p | p in a.remote :: ProperPath(cfg, p) && a.remote[p].key == KeyFor(cfg.machine, p))
    && (a.Running? ==>
          && (forall op | op in a.todo :: Proper(cfg, op))
          && (forall op, op2 | op in a.todo && op2 in a.todo && op.path == op2.path :: op == op2)
          && (a.cur.Some? ==> Proper(cfg, a.cur.value.0) && !Pending(a.todo, a.cur.value.0.path)))
  }

  ghost predicate ProperPath(cfg: Config, p: string) {
    Absolute(p) && !Hidden(cfg, p) && cfg.watched(p)
  }

  lemma SnapshotPathsProper(cfg: Config, w: World)
    requires Tame(cfg, w)
    ensures forall p | p in LocalSnap(cfg, w) :: ProperPath(cfg, p)
    ensures forall p | p in RemoteSnap(cfg, w) ::
              ProperPath(cfg, p) && RemoteSnap(cfg, w)[p].key == KeyFor(cfg.machine, p)
  {
    RemotePathsKeys(cfg, w);
    forall p | p in LocalSnap(cfg, w)
      ensures ProperPath(cfg, p)
    {
      assert TameAt(cfg, w, p);
    }
    forall p | p in RemoteSnap(cfg, w)
      ensures ProperPath(cfg, p) && RemoteSnap(cfg, w)[p].key == KeyFor(cfg.machine, p)
    {
      assert TameAt(cfg, w, p);
    }
  }

  lemma SnapshotViews(cfg: Config, w: World, p: string)
    ensures HashIn(LocalSnap(cfg, w), p) == FileHash(cfg.prim.hash, ViewAt(cfg, w, p))
    ensures DigestIn(RemoteSnap(cfg, w), p) == Digest(ViewAt(cfg, w, p))
  {
    RemotePathsKeys(cfg, w);
    KeyRoundTrip(cfg.machine, p, "");
  }

  lemma PlanningProjects(cfg: Config, w: World, l: LocalSnapshot, r: RemoteSnapshot, p: string)
    requires ProcOk(cfg, Scanned(l, r))
    ensures var a1 := Running(l, PlannedOps(l, r, w.rows, cfg.machine), None);
            && ProcOk(cfg, a1)
            && PhaseStep(cfg.prim.hash, ViewAt(cfg, w, p), PhaseAt(Scanned(l, r), p), ViewAt(cfg, w, p), PhaseAt(a1, p))
  {
    var todo := PlannedOps(l, r, w.rows, cfg.machine);
    if DecideAt(l, r, w.rows, p) != Noop {
      assert p in l.Keys + r.Keys;
      assert OpFor(l, r, w.rows, cfg.machine, p) in todo;
      assert PendingOp(todo, p) == OpFor(l, r, w.rows, cfg.machine, p);
    }
  }

  // The path's phases and cell move as `PhaseStep` allows, whatever the pass does.
  ghost predicate MovesAt(cfg: Config, w: World, a: Proc, w1: World, a1: Proc, p: string) {
    PhaseStep(cfg.prim.hash, ViewAt(cfg, w, p), PhaseAt(a, p), ViewAt(cfg, w1, p), PhaseAt(a1, p))
  }

  lemma FileScanProjects(cfg: Config, w: World, done: set<string>, l: LocalSnapshot, a1: Proc, p: string)
    requires Tame(cfg, w) && ProcOk(cfg, ScanningFiles(done, l)) && ProcStep(cfg, w, ScanningFiles(done, l), w, a1)
    ensures MovesAt(cfg, w, ScanningFiles(done, l), w, a1, p) && ProcOk(cfg, a1)
  {
    SnapshotPathsProper(cfg, w);
    SnapshotViews(cfg, w, p);
    var snap := LocalSnap(cfg, w);
    if LocalSnap(cfg, w).Keys <= done && a1 == ScanningObjects(l, {}, map[]) {
      assert p !in done ==> p !in l && p !in snap;
    } else {
      var q :| q !in done && a1 == ScanningFiles(done + {q}, Copy(l, snap, q));
      assert p == q ==> HashIn(a1.local, p) == HashIn(snap, p);
    }
  }

  lemma ObjectScanProjects(cfg: Config, w: World, l: LocalSnapshot, done: set<string>, r: RemoteSnapshot, a1: Proc, p: string)
    requires Tame(cfg, w) && ProcOk(cfg, ScanningObjects(l, done, r)) && ProcStep(cfg, w, ScanningObjects(l, done, r), w, a1)
    ensures MovesAt(cfg, w, ScanningObjects(l, done, r), w, a1, p) && ProcOk(cfg, a1)
  {
    hide RemoteSnap, ViewAt, Tame, Decide, CellStep, PlannedOps;
    SnapshotPathsProper(cfg, w);
    SnapshotViews(cfg, w, p);
    var snap := RemoteSnap(cfg, w);
    if RemoteSnap(cfg, w).Keys <= done && a1 == Scanned(l, r) {
      assert p !in done ==> p !in r && p !in snap;
    } else {
      var q :| q !in done && a1 == ScanningObjects(l, done + {q}, Copy(r, snap, q));
      assert p == q ==> DigestIn(a1.remote, p) == DigestIn(snap, p);
    }
  }

  lemma PickProjects(cfg: Config, w: World, l: LocalSnapshot, todo: set<Op>, op: Op, p: string)
    requires ProcOk(cfg, Running(l, todo, None)) && op in todo
    ensures ProcOk(cfg, Running(l, todo - {op}, Some((op, Todo))))
    ensures PhaseAt(Running(l, todo - {op}, Some((op, Todo))), p) == PhaseAt(Running(l, todo, None), p)
  {
    if p == op.path {
      assert Pending(todo, p) && PendingOp(todo, p) == op;
    } else if Pending(todo, p) {
      var o := PendingOp(todo, p);
      assert o in todo - {op};
      assert PendingOp(todo - {op}, p) == o;
    }
  }

  lemma StopProjects(cfg: Config, w: World, a: Proc, p: string)
    requires ProcOk(cfg, a) && a.Running?
    requires a.cur.Some? ==> Over(a.cur.value.1)
    ensures MovesAt(cfg, w, a, w, Stopped, p)
  {
  }

  lemma EffectProjects(cfg: Config, w: World, l: LocalSnapshot, todo: set<Op>, op: Op, stage: Stage, f: Fresh, p: string)
    requires ValidConfig(cfg) && ProcOk(cfg, Running(l, todo, Some((op, stage)))) && !Over(stage)
    ensures var (w1, s1) := Step(cfg, w, op, EntryFor(l, op.path), f, stage);
            MovesAt(cfg, w, Running(l, todo, Some((op, stage))), w1, Running(l, todo, Some((op, s1))), p)
  {
    StepProjects(cfg, w, op, EntryFor(l, op.path), f, stage);
  }

  lemma ProcStepProjects(cfg: Config, w: World, a: Proc, w1: World, a1: Proc, p: string)
    requires ValidConfig(cfg) && Tame(cfg, w) && ProcOk(cfg, a) && ProcStep(cfg, w, a, w1, a1)
    ensures MovesAt(cfg, w, a, w1, a1, p)
    ensures Tame(cfg, w1) && ProcOk(cfg, a1)
  {
    match a
    case ScanningFiles(done, l) => FileScanProjects(cfg, w, done, l, a1, p);
    case ScanningObjects(l, done, r) => ObjectScanProjects(cfg, w, l, done, r, a1, p);
    case Scanned(l, r) => PlanningProjects(cfg, w, l, r, p);
    case Running(l, todo, cur) =>
      if cur.None? {
        if todo == {} {
          StopProjects(cfg, w, a, p);
        } else {
          var op :| op in todo && a1 == Running(l, todo - {op}, Some((op, Todo)));
          PickProjects(cfg, w, l, todo, op, p);
        }
      } else if cur.value.1.Failed? {
        StopProjects(cfg, w, a, p);
      } else if !cur.value.1.Finished? {
        var (op, stage) := cur.value;
        var f: Fresh :| var (w2, s2) := Step(cfg, w, op, EntryFor(l, op.path), f, stage);
                        w1 == w2 && a1 == Running(l, todo, Some((op, s2)));
        StepProjects(cfg, w, op, EntryFor(l, op.path), f, stage);
        EffectProjects(cfg, w, l, todo, op, stage, f, p);
      }
    case Stopped =>
  }

  /* ---- the theorems ---- */

  ghost function PhasesAt(procs: seq<Proc>, p: string): seq<Phase> {
    seq(|procs|, i requires 0 <= i < |procs| => PhaseAt(procs[i], p))
  }

  ghost predicate AllOk(cfg: Config, s: System) {
    Tame(cfg, s.w) && forall i | 0 <= i < |s.procs| :: ProcOk(cfg, s.procs[i])
  }

  // One step of any pass keeps the invariant at p.
  lemma SystemStepKeeps(cfg: Config, c0: Cell, s: System, s1: System, p: string)
    requires ValidConfig(cfg) && SystemStep(cfg, s, s1) && WellLabelled(cfg.prim.hash, c0) && AllOk(cfg, s)
    requires Crowd(cfg.prim.hash, c0, ViewAt(cfg, s.w, p), PhasesAt(s.procs, p))
    ensures AllOk(cfg, s1) && |s1.procs| == |s.procs|
    ensures Crowd(cfg.prim.hash, c0, ViewAt(cfg, s1.w, p), PhasesAt(s1.procs, p))
  {
    hide ProcStep, ProcOk, PhaseAt, Tame, Crowd, ViewAt;
    var i :| 0 <= i < |s.procs| && StepOf(cfg, s, s1, i);
    ProcStepProjects(cfg, s.w, s.procs[i], s1.w, s1.procs[i], p);
    CrowdStep(cfg.prim.hash, c0, ViewAt(cfg, s.w, p), PhasesAt(s.procs, p), i, ViewAt(cfg, s1.w, p), PhaseAt(s1.procs[i], p));
    assert PhasesAt(s1.procs, p) == PhasesAt(s.procs, p)[i := PhaseAt(s1.procs[i], p)];
  }

  lemma {:induction false} InterleavingInvariant(cfg: Config, t: seq<System>, i: nat, p: string)
    requires ValidConfig(cfg) && Interleaving(cfg, t) && i < |t|
    ensures AllOk(cfg, t[i]) && |t[i].procs| == |t[0].procs|
    ensures Crowd(cfg.prim.hash, ViewAt(cfg, t[0].w, p), ViewAt(cfg, t[i].w, p), PhasesAt(t[i].procs, p))
    decreases i
  {
    hide Crowd, ViewAt, SystemStep, Tame;
    if i == 0 {
      CrowdInit(cfg.prim.hash, ViewAt(cfg, t[0].w, p), PhasesAt(t[0].procs, p));
    } else {
      InterleavingInvariant(cfg, t, i - 1, p);
      assert SystemStep(cfg, t[i - 1], t[i - 1 + 1]);
      SystemStepKeeps(cfg, ViewAt(cfg, t[0].w, p), t[i - 1], t[i], p);
    }
  }

  // At every moment of every interleaving of any number of passes, for every path: no local file has
  // gone, paths a solo pass would leave alone are untouched, and the content a solo pass would settle on
  // is on some side.
  lemma OverlapIsSafe(cfg: Config, t: seq<System>, i: nat)
    requires ValidConfig(cfg) && Interleaving(cfg, t) && i < |t|
    ensures forall p :: Safe(cfg.prim.hash, ViewAt(cfg, t[0].w, p), ViewAt(cfg, t[i].w, p))
  {
    forall p
      ensures Safe(cfg.prim.hash, ViewAt(cfg, t[0].w, p), ViewAt(cfg, t[i].w, p))
    {
      InterleavingInvariant(cfg, t, i, p);
      CrowdIsSafe(cfg.prim.hash, ViewAt(cfg, t[0].w, p), ViewAt(cfg, t[i].w, p), PhasesAt(t[i].procs, p));
    }
  }

  // One path at any moment, and after one more pass.
  lemma PathHeals(cfg: Config, t: seq<System>, i: nat, p: string)
    requires ValidConfig(cfg) && Interleaving(cfg, t) && i < |t|
    ensures var h := cfg.prim.hash;
            var c0, c := ViewAt(cfg, t[0].w, p), ViewAt(cfg, t[i].w, p);
            var d, solo := Settle(h, c), Settle(h, c0);
            && Tame(cfg, t[i].w)
            && d.file == solo.file && ObjBytes(d) == ObjBytes(solo)
            && (Converged(h, d) <==> CellDecide(h, c0) != Conflict && !AtOdds(c0, c))
            && (Converged(h, d) ==> d.obj == solo.obj)
            && (CellDecide(h, c0) == Conflict ==> d == c == c0)
            && (AtOdds(c0, c) ==> d == c && BothHold(c, c.file))
  {
    hide Crowd, ViewAt, Converged, CellDecide, Settle, AtOdds, BothHold;
    InterleavingInvariant(cfg, t, i, p);
    CrowdHeals(cfg.prim.hash, ViewAt(cfg, t[0].w, p), ViewAt(cfg, t[i].w, p), PhasesAt(t[i].procs, p));
  }

  // Stop any number of overlapping passes at any moment, each wherever it is: at its end, on an error, or
  // between an operation's effects when a store call fails or a deadline passes.  One more pass runs
  // through and leaves on both sides the content a single pass from the starting world would have left.
  // A path that was not in conflict is then a mirror, label and row included, unless the passes left its
  // row and label at odds, and then it stays as it is through every later pass.
  lemma CrowdedPassesHeal(cfg: Config, t: seq<System>, i: nat, ops: seq<Op>, ent: Entropy)
    requires ValidConfig(cfg) && Interleaving(cfg, t) && i < |t|
    requires PlanOf(cfg, t[i].w, ops)
    ensures var h := cfg.prim.hash;
            var (healed, ok) := RunOps(cfg, t[i].w, LocalSnap(cfg, t[i].w), ops, ent);
            && ok
            && forall p ::
                 var c0, c, d := ViewAt(cfg, t[0].w, p), ViewAt(cfg, t[i].w, p), ViewAt(cfg, healed, p);
                 && d.file == Settle(h, c0).file && ObjBytes(d) == ObjBytes(Settle(h, c0))
                 && (Converged(h, d) <==> CellDecide(h, c0) != Conflict && !AtOdds(c0, c))
                 && (AtOdds(c0, c) ==> d == c && Settle(h, d) == d && BothHold(d, d.file))
  {
    hide RunOps, ViewAt, Converged, CellDecide, Settle, AtOdds, Tame, LocalSnap, PlanOf, BothHold;
    PathHeals(cfg, t, i, "");
    PassSettles(cfg, t[i].w, ops, ent);
    forall p {
      PathHeals(cfg, t, i, p);
    }
  }

  // Every pass has run to its end, stopped on an impossible operation, or not begun.
  ghost predicate AllAtRest(s: System) {
    forall i | 0 <= i < |s.procs| :: s.procs[i].Stopped? || s.procs[i] == START
  }

  // With all passes at rest, only a path whose file was to be replaced can be left at odds, and with two
  // passes none can.
  lemma AtOddsAtRest(cfg: Config, t: seq<System>, i: nat, p: string)
    requires ValidConfig(cfg) && Interleaving(cfg, t) && i < |t| && AllAtRest(t[i])
    ensures var c0, c := ViewAt(cfg, t[0].w, p), ViewAt(cfg, t[i].w, p);
            AtOdds(c0, c) ==> Replacing(cfg.prim.hash, c0) && |t[0].procs| != 2
  {
    hide Crowd, ViewAt, AtOdds, Replacing;
    var c0, c, phases := ViewAt(cfg, t[0].w, p), ViewAt(cfg, t[i].w, p), PhasesAt(t[i].procs, p);
    InterleavingInvariant(cfg, t, i, p);
    assert forall j | 0 <= j < |phases| :: AtRest(phases[j]);
    OnlyReplacedAtOdds(cfg.prim.hash, c0, c, phases);
    if |phases| == 2 {
      PairLabelsAgree(cfg.prim.hash, c0, c, phases);
    }
  }

  // So after two passes that were not cut the healing is complete: one more pass leaves every file and
  // every object as a single pass from the starting world would have, mirrored unless the path was in
  // conflict from the start.
  lemma OverlapHeals(cfg: Config, t: seq<System>, i: nat, ops: seq<Op>, ent: Entropy)
    requires ValidConfig(cfg) && Interleaving(cfg, t) && i < |t| && AllAtRest(t[i]) && |t[0].procs| == 2
    requires PlanOf(cfg, t[i].w, ops)
    ensures var h := cfg.prim.hash;
            var (healed, ok) := RunOps(cfg, t[i].w, LocalSnap(cfg, t[i].w), ops, ent);
            && ok
            && forall p ::
                 && ViewAt(cfg, healed, p).file == Settle(h, ViewAt(cfg, t[0].w, p)).file
                 && ViewAt(cfg, healed, p).obj == Settle(h, ViewAt(cfg, t[0].w, p)).obj
                 && (CellDecide(h, ViewAt(cfg, t[0].w, p)) == Conflict || Converged(h, ViewAt(cfg, healed, p)))
  {
    hide RunOps, ViewAt, Converged, AtOdds, Tame, LocalSnap, PlanOf, CellDecide, Settle, AllAtRest, BothHold;
    var h := cfg.prim.hash;
    PathHeals(cfg, t, i, "");
    PassSettles(cfg, t[i].w, ops, ent);
    forall p
      ensures var c0, d := ViewAt(cfg, t[0].w, p), Settle(h, ViewAt(cfg, t[i].w, p));
              && d.file == Settle(h, c0).file && d.obj == Settle(h, c0).obj
              && (CellDecide(h, c0) == Conflict || Converged(h, d))
    {
      PathHeals(cfg, t, i, p);
      AtOddsAtRest(cfg, t, i, p);
      ConflictSettles(h, ViewAt(cfg, t[0].w, p));
    }
  }

  lemma ConflictSettles(h: Bytes -> string, c: Cell)
    ensures CellDecide(h, c) == Conflict ==> Settle(h, c) == c
  {
    RunClosedForm(h, c, CellDecide(h, c), ScanDigest(h, c));
  }

  /* ---- namespaces ---- */

  // Every key a pass has scanned or is going to touch is under the machine's prefix.
  ghost predicate OwnKeys(cfg: Config, a: Proc) {
    && (a.ScanningObjects? || a.Scanned? ==> forall p | p in a.remote :: HasPrefix(a.remote[p].key, KeyPrefix(cfg.machine)))
    && (a.Running? ==>
          && (forall op | op in a.todo :: HasPrefix(op.key, KeyPrefix(cfg.machine)))
          && (a.cur.Some? ==> HasPrefix(a.cur.value.0.key, KeyPrefix(cfg.machine))))
  }

  lemma PlannedKeysOwn(cfg: Config, w: World, l: LocalSnapshot, r: RemoteSnapshot)
    requires OwnKeys(cfg, Scanned(l, r))
    ensures OwnKeys(cfg, Running(l, PlannedOps(l, r, w.rows, cfg.machine), None))
  {
    hide KeyPrefix;
    forall op | op in PlannedOps(l, r, w.rows, cfg.machine)
      ensures HasPrefix(op.key, KeyPrefix(cfg.machine))
    {
      KeyRoundTrip(cfg.machine, op.path, "");
    }
  }

  lemma ProcStepOwnKeys(cfg: Config, w: World, a: Proc, w1: World, a1: Proc, key: string)
    requires OwnKeys(cfg, a) && ProcStep(cfg, w, a, w1, a1) && !HasPrefix(key, KeyPrefix(cfg.machine))
    ensures OwnKeys(cfg, a1) && SameAt(w.bucket, w1.bucket, key)
  {
    hide KeyPrefix, LocalSnap, RemoteSnap, PlannedOps, Step;
    match a
    case ScanningObjects(l, done, r) => ObjectScanOwnKeys(cfg, w, l, done, r, a1);
    case Scanned(l, r) => PlannedKeysOwn(cfg, w, l, r);
    case Running(l, todo, Some(cur)) =>
      if !Over(cur.1) {
        var f: Fresh :| var (w2, s2) := Step(cfg, w, cur.0, EntryFor(l, cur.0.path), f, cur.1);
                        w1 == w2 && a1 == Running(l, todo, Some((cur.0, s2)));
        StepFrame(cfg, w, cur.0, EntryFor(l, cur.0.path), f, cur.1);
      }
    case _ =>
  }

  lemma ObjectScanOwnKeys(cfg: Config, w: World, l: LocalSnapshot, done: set<string>, r: RemoteSnapshot, a1: Proc)
    requires OwnKeys(cfg, ScanningObjects(l, done, r)) && ProcStep(cfg, w, ScanningObjects(l, done, r), w, a1)
    ensures OwnKeys(cfg, a1)
  {
    forall p
      ensures HasPrefix(KeyFor(cfg.machine, p), KeyPrefix(cfg.machine))
    {
      KeyRoundTrip(cfg.machine, p, "");
    }
  }

  // Any number of overlapping passes, in any world, cut anywhere, change no object outside the prefix.
  lemma {:induction false} OverlapKeepsForeignKeys(cfg: Config, t: seq<System>, i: nat, key: string)
    requires PassesOnly(cfg, t) && i < |t| && !HasPrefix(key, KeyPrefix(cfg.machine))
    ensures forall j | 0 <= j < |t[i].procs| :: OwnKeys(cfg, t[i].procs[j])
    ensures SameAt(t[0].w.bucket, t[i].w.bucket, key)
    decreases i
  {
    hide OwnKeys, ProcStep, KeyPrefix;
    if i == 0 {
      assert OwnKeys(cfg, START) by {
        StartOwnsKeys(cfg);
      }
    } else {
      OverlapKeepsForeignKeys(cfg, t, i - 1, key);
      var s, s1 := t[i - 1], t[i];
      assert SystemStep(cfg, t[i - 1], t[i - 1 + 1]);
      var j :| 0 <= j < |s.procs| && StepOf(cfg, s, s1, j);
      ProcStepOwnKeys(cfg, s.w, s.procs[j], s1.w, s1.procs[j], key);
    }
  }

  lemma StartOwnsKeys(cfg: Config)
    ensures OwnKeys(cfg, START)
  {
  }

  /* ---- a pass on its own is one of these runs ---- */

  // One pass, alone: the last state of a run so far.
  ghost predicate RanTo(cfg: Config, t: seq<System>, start: World, w: World, a: Proc) {
    PassesOnly(cfg, t) && t[0] == System(start, [START]) && t[|t| - 1] == System(w, [a])
  }

  lemma RunOn(cfg: Config, t: seq<System>, start: World, w: World, a: Proc, w1: World, a1: Proc) returns (t1: seq<System>)
    requires RanTo(cfg, t, start, w, a) && ProcStep(cfg, w, a, w1, a1)
    ensures RanTo(cfg, t1, start, w1, a1)
  {
    hide ProcStep;
    var s, s1 := System(w, [a]), System(w1, [a1]);
    t1 := t + [s1];
    assert s1.procs == s.procs[0 := s1.procs[0]];
    assert StepOf(cfg, s, s1, 0);
    forall i | 0 <= i < |t1| - 1
      ensures SystemStep(cfg, t1[i], t1[i + 1])
    {
      if i == |t| - 1 {
        assert t1[i] == s && t1[i + 1] == s1;
      } else {
        assert t1[i] == t[i] && t1[i + 1] == t[i + 1];
      }
    }
  }

  // What a scan has copied once it has covered `done`.
  ghost function Restricted<V>(snap: map<string, V>, done: set<string>): map<string, V> {
    map p | p in snap && p in done :: snap[p]
  }

  lemma CopyRestricted<V>(snap: map<string, V>, done: set<string>, p: string)
    ensures Copy(Restricted(snap, done), snap, p) == Restricted(snap, done + {p})
  {
  }

  lemma ScanFiles(cfg: Config, w: World) returns (t: seq<System>)
    ensures RanTo(cfg, t, w, w, ScanningObjects(LocalSnap(cfg, w), {}, map[]))
  {
    hide LocalSnap, RanTo;
    var snap := LocalSnap(cfg, w);
    var done: set<string> := {};
    t := [System(w, [START])];
    assert RanTo(cfg, t, w, w, START) by {
      StandingStill(cfg, w);
    }
    assert Restricted(snap, done) == map[];
    while !(snap.Keys <= done)
      invariant done <= snap.Keys && RanTo(cfg, t, w, w, ScanningFiles(done, Restricted(snap, done)))
      decreases snap.Keys - done
    {
      var p :| p in snap.Keys && p !in done;
      CopyRestricted(snap, done, p);
      t := RunOn(cfg, t, w, w, ScanningFiles(done, Restricted(snap, done)), w, ScanningFiles(done + {p}, Restricted(snap, done + {p})));
      done := done + {p};
    }
    assert Restricted(snap, done) == snap;
    t := RunOn(cfg, t, w, w, ScanningFiles(done, snap), w, ScanningObjects(snap, {}, map[]));
  }

  lemma StandingStill(cfg: Config, w: World)
    ensures RanTo(cfg, [System(w, [START])], w, w, START)
  {
  }

  lemma ScanObjects(cfg: Config, w: World) returns (t: seq<System>)
    ensures RanTo(cfg, t, w, w, Scanned(LocalSnap(cfg, w), RemoteSnap(cfg, w)))
  {
    hide LocalSnap, RemoteSnap, RanTo;
    var l, snap := LocalSnap(cfg, w), RemoteSnap(cfg, w);
    var done: set<string> := {};
    t := ScanFiles(cfg, w);
    assert Restricted(snap, done) == map[];
    while !(snap.Keys <= done)
      invariant done <= snap.Keys && RanTo(cfg, t, w, w, ScanningObjects(l, done, Restricted(snap, done)))
      decreases snap.Keys - done
    {
      var p :| p in snap.Keys && p !in done;
      CopyRestricted(snap, done, p);
      t := RunOn(cfg, t, w, w, ScanningObjects(l, done, Restricted(snap, done)), w, ScanningObjects(l, done + {p}, Restricted(snap, done + {p})));
      done := done + {p};
    }
    assert Restricted(snap, done) == snap;
    t := RunOn(cfg, t, w, w, ScanningObjects(l, done, snap), w, Scanned(l, snap));
  }

  // An operation that ends well, effect by effect.
  lemma {:induction false} EffectsRun(cfg: Config, t: seq<System>, start: World, w: World, l: LocalSnapshot, todo: set<Op>, op: Op,
                                      stage: Stage, f: Fresh, k: nat)
    returns (t1: seq<System>)
    requires RanTo(cfg, t, start, w, Running(l, todo, Some((op, stage))))
    requires Advance(cfg, w, op, EntryFor(l, op.path), f, stage, k).1 == Finished
    ensures RanTo(cfg, t1, start, Advance(cfg, w, op, EntryFor(l, op.path), f, stage, k).0, Running(l, todo, None))
    decreases k
  {
    hide RanTo;
    var entry := EntryFor(l, op.path);
    if stage.Finished? {
      OverStays(cfg, w, op, entry, f, stage, k);
      t1 := RunOn(cfg, t, start, w, Running(l, todo, Some((op, stage))), w, Running(l, todo, None));
    } else {
      if stage.Failed? {
        OverStays(cfg, w, op, entry, f, stage, k);
      }
      var (w1, s1) := Step(cfg, w, op, entry, f, stage);
      hide Step;
      t1 := RunOn(cfg, t, start, w, Running(l, todo, Some((op, stage))), w1, Running(l, todo, Some((op, s1))));
      t1 := EffectsRun(cfg, t1, start, w1, l, todo, op, s1, f, k - 1);
    }
  }

  lemma {:induction false} OverStays(cfg: Config, w: World, op: Op, entry: LocalEntry, f: Fresh, stage: Stage, k: nat)
    requires Over(stage)
    ensures Advance(cfg, w, op, entry, f, stage, k) == (w, stage)
    decreases k
  {
    if k > 0 {
      assert Step(cfg, w, op, entry, f, stage) == (w, stage);
      OverStays(cfg, w, op, entry, f, stage, k - 1);
    }
  }

  lemma OpFinishes(cfg: Config, w: World, op: Op, entry: LocalEntry, f: Fresh)
    requires ValidConfig(cfg) && Proper(cfg, op) && Runnable(ViewAt(cfg, w, op.path), op.kind)
    ensures RunOp(cfg, w, op, entry, f).1 == Finished
  {
    AdvanceProjects(cfg, w, op, entry, f, Todo, STEPS);
    RunClosedForm(cfg.prim.hash, ViewAt(cfg, w, op.path), op.kind, entry.hash);
  }

  ghost function OpSet(ops: seq<Op>): set<Op> {
    set op | op in ops
  }

  lemma {:induction false} OpsRun(cfg: Config, t: seq<System>, start: World, w: World, l: LocalSnapshot, ops: seq<Op>, ent: Entropy)
    returns (t1: seq<System>)
    requires RanTo(cfg, t, start, w, Running(l, OpSet(ops), None))
    requires ValidConfig(cfg) && Tame(cfg, w) && CanRun(cfg, w, ops)
    ensures RanTo(cfg, t1, start, RunOps(cfg, w, l, ops, ent).0, Stopped)
    decreases |ops|
  {
    var todo := OpSet(ops);
    if ops == [] {
      assert todo == {};
      t1 := RunOn(cfg, t, start, w, Running(l, todo, None), w, Stopped);
    } else {
      hide RanTo, ViewAt, Tame;
      var op, entry, f := ops[0], EntryFor(l, ops[0].path), ent(ops[0].path);
      assert op in todo;
      RunOpsFirst(cfg, w, l, ops, ent);
      OpFinishes(cfg, w, op, entry, f);
      t1 := RunOn(cfg, t, start, w, Running(l, todo, None), w, Running(l, todo - {op}, Some((op, Todo))));
      t1 := EffectsRun(cfg, t1, start, w, l, todo - {op}, op, Todo, f, STEPS);
      assert todo - {op} == OpSet(ops[1..]) by {
        assert forall o :: o in ops <==> o == op || o in ops[1..];
        assert op !in ops[1..];
      }
      t1 := OpsRun(cfg, t1, start, RunOp(cfg, w, op, entry, f).0, l, ops[1..], ent);
    }
  }

  // So what is proved of interleavings is proved of plain passes: every whole pass, with its plan in any
  // order, is the run of one pass on its own.
  lemma SoloPassIsRun(cfg: Config, w: World, ops: seq<Op>, ent: Entropy) returns (t: seq<System>)
    requires ValidConfig(cfg) && Ready(cfg, w) && PlanOf(cfg, w, ops)
    ensures Interleaving(cfg, t) && t[0] == System(w, [START])
    ensures t[|t| - 1] == System(RunOps(cfg, w, LocalSnap(cfg, w), ops, ent).0, [Stopped])
  {
    var l, r := LocalSnap(cfg, w), RemoteSnap(cfg, w);
    t := ScanObjects(cfg, w);
    PlannedOpsArePlan(ops, l, r, w.rows, cfg.machine);
    assert PlannedOps(l, r, w.rows, cfg.machine) == OpSet(ops);
    t := RunOn(cfg, t, w, w, Scanned(l, r), w, Running(l, OpSet(ops), None));
    PlanCanRun(cfg, w, ops);
    t := OpsRun(cfg, t, w, w, l, ops, ent);
  }
}
