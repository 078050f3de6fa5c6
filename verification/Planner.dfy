/**
 The planner (`plan` in engine.go): two loops over maps, in whatever order the maps yield their keys.
 `IsPlan` says what such a list of operations is, by way of the per-path decision of `Cells`; any list
 meeting it is one that some iteration order produces.
*/
module Planner {
  import opened Wrappers
  import opened Cells
  import opened Keys

  datatype Op = Op(kind: OpKind, path: string, key: string)

  datatype LocalEntry = LocalEntry(size: nat, hash: string)
  datatype RemoteEntry = RemoteEntry(key: string, hash: string)
  datatype Row = Row(size: nat, hash: string, key: string)

  type LocalSnapshot = map<string, LocalEntry>
  type RemoteSnapshot = map<string, RemoteEntry>
  type StateSnapshot = map<string, Row>

  function DecideAt(local: LocalSnapshot, remote: RemoteSnapshot, state: StateSnapshot, p: string): OpKind {
    Decide(if p in local then Some(local[p].hash) else None,
           if p in remote then Some(remote[p].hash) else None,
           if p in state then Some(state[p].hash) else None)
  }

  function OpFor(local: LocalSnapshot, remote: RemoteSnapshot, state: StateSnapshot, machine: string, p: string): Op {
    var kind := DecideAt(local, remote, state, p);
    Op(kind, p, if kind != Upload && p in remote then remote[p].key else KeyFor(machine, p))
  }

  ghost predicate Distinct(ops: seq<Op>) {
    forall i, j | 0 <= i < j < |ops| :: ops[i].path != ops[j].path
  }

  lemma TailFacts(ops: seq<Op>)
    requires Distinct(ops) && ops != []
    ensures Distinct(ops[1..])
    ensures forall op | op in ops[1..] :: op in ops && op.path != ops[0].path
    ensures forall op | op in ops :: op == ops[0] || op in ops[1..]
  {
    forall op | op in ops[1..]
      ensures op in ops && op.path != ops[0].path
    {
      var i :| 0 <= i < |ops[1..]| && ops[1..][i] == op;
      assert ops[i + 1] == op;
    }
    forall i, j | 0 <= i < j < |ops[1..]|
      ensures ops[1..][i].path != ops[1..][j].path
    {
      assert ops[i + 1].path != ops[j + 1].path;
    }
  }

  ghost predicate Planned(op: Op, local: LocalSnapshot, remote: RemoteSnapshot, state: StateSnapshot, machine: string) {
    DecideAt(local, remote, state, op.path) != Noop && op == OpFor(local, remote, state, machine, op.path)
  }

  // Exactly one operation for each path whose decision is not a no-op, in any order.
  ghost predicate IsPlan(ops: seq<Op>, local: LocalSnapshot, remote: RemoteSnapshot, state: StateSnapshot,
                         machine: string)
  {
    && Distinct(ops)
    && (forall op | op in ops :: Planned(op, local, remote, state, machine))
    && (forall p | DecideAt(local, remote, state, p) != Noop :: OpFor(local, remote, state, machine, p) in ops)
  }

  // `ops` is the plan for the paths in `done`: the invariant both loops keep.
  ghost predicate Covers(ops: seq<Op>, done: set<string>, local: LocalSnapshot, remote: RemoteSnapshot,
                         state: StateSnapshot, machine: string)
  {
    && Distinct(ops)
    && (forall op | op in ops :: op.path in done && Planned(op, local, remote, state, machine))
    && (forall p | p in done && DecideAt(local, remote, state, p) != Noop ::
          OpFor(local, remote, state, machine, p) in ops)
  }

  lemma CoverOne(ops: seq<Op>, done: set<string>, p: string, local: LocalSnapshot, remote: RemoteSnapshot,
                 state: StateSnapshot, machine: string)
    requires Covers(ops, done, local, remote, state, machine)
    ensures DecideAt(local, remote, state, p) == Noop || p in done ==>
              Covers(ops, done + {p}, local, remote, state, machine)
    ensures DecideAt(local, remote, state, p) != Noop && p !in done ==>
              Covers(ops + [OpFor(local, remote, state, machine, p)], done + {p}, local, remote, state, machine)
  {
    if DecideAt(local, remote, state, p) != Noop && p !in done {
      var more := ops + [OpFor(local, remote, state, machine, p)];
      forall i, j | 0 <= i < j < |more|
        ensures more[i].path != more[j].path
      {
        assert more[i] in ops;
      }
    }
  }

  lemma CoversAll(ops: seq<Op>, done: set<string>, local: LocalSnapshot, remote: RemoteSnapshot,
                  state: StateSnapshot, machine: string)
    requires Covers(ops, done, local, remote, state, machine) && done == local.Keys + remote.Keys
    ensures IsPlan(ops, local, remote, state, machine)
    ensures forall op | op in ops :: op.kind != DeleteLocal && op.kind != Noop
  {
  }

  method Plan(local: LocalSnapshot, remote: RemoteSnapshot, state: StateSnapshot, machine: string)
    returns (ops: seq<Op>)
    ensures IsPlan(ops, local, remote, state, machine)
    ensures forall op | op in ops :: op.kind != DeleteLocal && op.kind != Noop
  {
    ops := [];
    var seen: set<string> := {};
    assert Covers(ops, seen, local, remote, state, machine);
    hide Covers, IsPlan, KeyFor;
    var todo := local.Keys;
    while todo != {}
      invariant todo <= local.Keys && seen == local.Keys - todo
      invariant Covers(ops, seen, local, remote, state, machine)
    {
      var p :| p in todo;
      todo := todo - {p};
      CoverOne(ops, seen, p, local, remote, state, machine);
      seen := seen + {p};
      var l := local[p];
      var hadState, hadRemote := p in state, p in remote;
      if !hadState && !hadRemote {
        ops := ops + [Op(Upload, p, KeyFor(machine, p))];
      } else if !hadState {
        var r := remote[p];
        if r.hash == l.hash {
          continue;
        }
        ops := ops + [Op(Conflict, p, r.key)];
      } else if !hadRemote {
        ops := ops + [Op(Upload, p, KeyFor(machine, p))];
      } else {
        var r, st := remote[p], state[p];
        var localChanged := l.hash != st.hash;
        var remoteChanged := r.hash != st.hash && r.hash != "";
        if localChanged && remoteChanged {
          ops := ops + [Op(Conflict, p, r.key)];
        } else if localChanged {
          ops := ops + [Op(Upload, p, KeyFor(machine, p))];
        } else if remoteChanged {
          ops := ops + [Op(Download, p, r.key)];
        }
      }
    }
    ghost var done := seen;
    todo := remote.Keys;
    while todo != {}
      invariant todo <= remote.Keys && seen == local.Keys && done == seen + (remote.Keys - todo)
      invariant Covers(ops, done, local, remote, state, machine)
    {
      var p :| p in todo;
      assert p in done ==> p in seen;
      todo := todo - {p};
      CoverOne(ops, done, p, local, remote, state, machine);
      done := done + {p};
      if p in seen {
        continue;
      }
      var r := remote[p];
      if p in state {
        ops := ops + [Op(DeleteRemote, p, r.key)];
      } else {
        ops := ops + [Op(Download, p, r.key)];
      }
    }
    CoversAll(ops, done, local, remote, state, machine);
  }

  function Count(ops: seq<Op>, kind: OpKind): nat {
    if ops == [] then 0 else Count(ops[..|ops| - 1], kind) + if ops[|ops| - 1].kind == kind then 1 else 0
  }

  method CountKind(ops: seq<Op>, kind: OpKind) returns (n: nat)
    ensures n == Count(ops, kind)
  {
    n := 0;
    for i := 0 to |ops|
      invariant n == Count(ops[..i], kind)
    {
      assert ops[..i + 1][..i] == ops[..i];
      if ops[i].kind == kind {
        n := n + 1;
      }
    }
    assert ops[..|ops|] == ops;
  }

  ghost function OfKind(ops: seq<Op>, kind: OpKind): set<nat> {
    set i: nat | i < |ops| && ops[i].kind == kind
  }

  lemma OfKindStep(ops: seq<Op>, kind: OpKind)
    requires ops != []
    ensures var n := |ops| - 1;
            && OfKind(ops, kind) == OfKind(ops[..n], kind) + (if ops[n].kind == kind then {n} else {})
            && n !in OfKind(ops[..n], kind)
  {
  }

  // It is the number of positions that hold an operation of the kind.
  lemma {:induction false} CountIsSize(ops: seq<Op>, kind: OpKind)
    ensures Count(ops, kind) == |OfKind(ops, kind)|
    decreases |ops|
  {
    if ops == [] {
      assert OfKind(ops, kind) == {};
    } else {
      CountIsSize(ops[..|ops| - 1], kind);
      OfKindStep(ops, kind);
      hide OfKind;
    }
  }

  // Two plans for the same snapshots hold the same operations; only the order can differ.
  lemma PlansArePermutations(a: seq<Op>, b: seq<Op>, local: LocalSnapshot, remote: RemoteSnapshot,
                             state: StateSnapshot, machine: string)
    requires IsPlan(a, local, remote, state, machine) && IsPlan(b, local, remote, state, machine)
    ensures forall op :: op in a <==> op in b
  {
    forall op | op in a
      ensures op in b
    {
      assert Planned(op, local, remote, state, machine);
    }
    forall op | op in b
      ensures op in a
    {
      assert Planned(op, local, remote, state, machine);
    }
  }
}
