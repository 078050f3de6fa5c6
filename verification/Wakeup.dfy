/**
 What triggers a pass (Watcher.Run in watcher.go, runReconcileLoop and KickSync in daemon.go).  File
 system events arm a debounce timer; when it fires, the watcher tries to put a tick into a channel of
 capacity one and drops it if the channel is full; the daemon loop takes ticks between passes and
 ignores them while paused.  A history is any interleaving of these.
*/
module Wakeup {
  const DEBOUNCE: int := 750   // milliseconds

  // `due` matters only while armed; `tick` is the channel; `busy` says the loop is inside a pass.
  datatype State = State(armed: bool, due: int, tick: bool, paused: bool, busy: bool)

  // LoopTimer is either of the loop's two polling tickers.
  datatype Input =
    | FsEvent(now: int)
    | TimerFires
    | LoopTakesTick
    | LoopTimer
    | PassEnds
    | SetPaused(value: bool)
    | KickSync

  // The loop runs one pass at startup before it looks at anything.
  const INIT: State := State(false, 0, false, false, true)

  predicate Enabled(s: State, i: Input) {
    match i
    case TimerFires => s.armed
    case LoopTakesTick => s.tick && !s.busy
    case LoopTimer => !s.busy
    case PassEnds => s.busy
    case _ => true
  }

  predicate StartsPass(s: State, i: Input) {
    i.KickSync? || ((i.LoopTakesTick? || i.LoopTimer?) && !s.paused)
  }

  function Next(s: State, i: Input): State {
    match i
    case FsEvent(now) => if s.armed then s else s.(armed := true, due := now + DEBOUNCE)
    case TimerFires => s.(armed := false, tick := true)
    case LoopTakesTick => s.(tick := false, busy := !s.paused)
    case LoopTimer => s.(busy := !s.paused)
    case PassEnds => s.(busy := false)
    case SetPaused(v) => s.(paused := v)
    case KickSync => s
  }

  class Scheduler {
    var armed: bool
    var due: int
    var ticks: seq<()>     // the channel, capacity one
    var paused: bool
    var busy: bool

    ghost predicate Valid()
      reads this
    {
      |ticks| <= 1
    }

    ghost function Now(): State
      reads this
    {
      State(armed, due, ticks != [], paused, busy)
    }

    constructor ()
      ensures Valid() && Now() == INIT
    {
      armed, due, ticks, paused, busy := false, 0, [], false, true;
    }

    // The branches of the two select loops, the pause switch and the API's kick.
    method Handle(i: Input) returns (started: bool)
      requires Valid() && Enabled(Now(), i)
      modifies this
      ensures Valid() && Now() == Next(old(Now()), i)
      ensures started == StartsPass(old(Now()), i)
    {
      started := false;
      match i
      case FsEvent(now) =>
        if !armed {
          armed := true;
          due := now + DEBOUNCE;
        }
      case TimerFires =>
        armed := false;
        if |ticks| < 1 {
          ticks := ticks + [()];
        }
      case LoopTakesTick =>
        ticks := ticks[1..];
        if !paused {
          busy, started := true, true;
        }
      case LoopTimer =>
        if !paused {
          busy, started := true, true;
        }
      case PassEnds =>
        busy := false;
      case SetPaused(v) =>
        paused := v;
      case KickSync =>
        started := true;
    }
  }

  /* ---- histories ---- */

  function After(inputs: seq<Input>): State {
    if inputs == [] then INIT else Next(After(inputs[..|inputs| - 1]), inputs[|inputs| - 1])
  }

  ghost predicate History(inputs: seq<Input>) {
    && (forall j | 0 <= j < |inputs| :: Enabled(After(inputs[..j]), inputs[j]))
    && Ordered(inputs)
  }

  // Events are stamped by a clock that does not run backwards.
  ghost predicate Ordered(inputs: seq<Input>) {
    forall j, k | 0 <= j < k < |inputs| && inputs[j].FsEvent? && inputs[k].FsEvent? :: inputs[j].now <= inputs[k].now
  }

  lemma AfterStep(inputs: seq<Input>, n: nat)
    requires n < |inputs|
    ensures After(inputs[..n + 1]) == Next(After(inputs[..n]), inputs[n])
  {
    assert inputs[..n + 1][..n] == inputs[..n];
  }

  lemma InputEnabled(inputs: seq<Input>, j: nat)
    requires History(inputs) && j < |inputs|
    ensures Enabled(After(inputs[..j]), inputs[j])
  {
    hide After;
  }

  /* ---- the state, as the history tells it ---- */

  // Some input before n switches a flag on, and none since switches it off.
  ghost predicate Since(inputs: seq<Input>, n: nat, on: nat -> bool, off: Input -> bool)
    requires n <= |inputs|
  {
    exists j: nat | j < n :: on(j) && OffAt(inputs, j, n, off)
  }

  ghost predicate OffAt(inputs: seq<Input>, j: nat, n: nat, off: Input -> bool)
    requires n <= |inputs|
  {
    forall m | j < m < n :: !off(inputs[m])
  }

  lemma SinceStep(inputs: seq<Input>, n: nat, on: nat -> bool, off: Input -> bool)
    requires n < |inputs|
    ensures Since(inputs, n + 1, on, off) <==> on(n) || (Since(inputs, n, on, off) && !off(inputs[n]))
  {
    if on(n) {
      assert OffAt(inputs, n, n + 1, off);
    } else if Since(inputs, n, on, off) && !off(inputs[n]) {
      var j: nat :| j < n && on(j) && OffAt(inputs, j, n, off);
      assert OffAt(inputs, j, n + 1, off);
    }
    if Since(inputs, n + 1, on, off) && !on(n) {
      var j: nat :| j < n + 1 && on(j) && OffAt(inputs, j, n + 1, off);
      assert j < n && OffAt(inputs, j, n, off) && !off(inputs[n]);
    }
  }

  lemma SinceNone(inputs: seq<Input>, on: nat -> bool, off: Input -> bool)
    ensures !Since(inputs, 0, on, off)
  {
  }

  // A turn of the loop that is not skipped.
  predicate LoopStarts(s: State, i: Input) {
    (i.LoopTakesTick? || i.LoopTimer?) && !s.paused
  }

  ghost function Events(inputs: seq<Input>): nat -> bool { (j: nat) => j < |inputs| && inputs[j].FsEvent? }
  ghost function Firings(inputs: seq<Input>): nat -> bool { (j: nat) => j < |inputs| && inputs[j].TimerFires? }
  ghost function Pauses(inputs: seq<Input>): nat -> bool { (j: nat) => j < |inputs| && inputs[j] == SetPaused(true) }
  ghost function Turns(inputs: seq<Input>): nat -> bool { (j: nat) => j < |inputs| && LoopStarts(After(inputs[..j]), inputs[j]) }

  ghost function Fires(): Input -> bool { (x: Input) => x.TimerFires? }
  ghost function Takes(): Input -> bool { (x: Input) => x.LoopTakesTick? }
  ghost function Resumes(): Input -> bool { (x: Input) => x == SetPaused(false) }
  ghost function Ends(): Input -> bool { (x: Input) => x.PassEnds? }

  ghost predicate NoPassEnded(inputs: seq<Input>, n: nat)
    requires n <= |inputs|
  {
    forall m | 0 <= m < n :: !inputs[m].PassEnds?
  }

  lemma NextFlags(s: State, x: Input)
    requires Enabled(s, x)
    ensures var s1 := Next(s, x);
            && (s1.armed <==> x.FsEvent? || (s.armed && !x.TimerFires?))
            && (s1.tick <==> x.TimerFires? || (s.tick && !x.LoopTakesTick?))
            && (s1.paused <==> x == SetPaused(true) || (s.paused && x != SetPaused(false)))
            && (s1.busy <==> LoopStarts(s, x) || (s.busy && !x.PassEnds?))
  {
  }

  // Armed: an event and no firing since.  Ticking: a firing and no tick taken since.
  lemma {:induction false} WatcherExactly(inputs: seq<Input>, n: nat)
    requires History(inputs) && n <= |inputs|
    ensures After(inputs[..n]).armed <==> Since(inputs, n, Events(inputs), Fires())
    ensures After(inputs[..n]).tick <==> Since(inputs, n, Firings(inputs), Takes())
    decreases n
  {
    if n == 0 {
      assert inputs[..0] == [];
      SinceNone(inputs, Events(inputs), Fires());
      SinceNone(inputs, Firings(inputs), Takes());
    } else {
      hide After, History, Since, Next, Enabled;
      WatcherExactly(inputs, n - 1);
      InputEnabled(inputs, n - 1);
      AfterStep(inputs, n - 1);
      NextFlags(After(inputs[..n - 1]), inputs[n - 1]);
      SinceStep(inputs, n - 1, Events(inputs), Fires());
      SinceStep(inputs, n - 1, Firings(inputs), Takes());
    }
  }

  // Paused: paused and not resumed since.
  lemma {:induction false} PausedExactly(inputs: seq<Input>, n: nat)
    requires History(inputs) && n <= |inputs|
    ensures After(inputs[..n]).paused <==> Since(inputs, n, Pauses(inputs), Resumes())
    decreases n
  {
    if n == 0 {
      assert inputs[..0] == [];
      SinceNone(inputs, Pauses(inputs), Resumes());
    } else {
      hide After, History, Since, Next, Enabled;
      PausedExactly(inputs, n - 1);
      InputEnabled(inputs, n - 1);
      AfterStep(inputs, n - 1);
      NextFlags(After(inputs[..n - 1]), inputs[n - 1]);
      SinceStep(inputs, n - 1, Pauses(inputs), Resumes());
    }
  }

  // Busy: a turn of the loop, or the start of the daemon, and no end of a pass since.
  lemma {:induction false} BusyExactly(inputs: seq<Input>, n: nat)
    requires History(inputs) && n <= |inputs|
    ensures After(inputs[..n]).busy <==> NoPassEnded(inputs, n) || Since(inputs, n, Turns(inputs), Ends())
    decreases n
  {
    if n == 0 {
      assert inputs[..0] == [];
    } else {
      hide After, History, Since, Next, Enabled, LoopStarts;
      BusyExactly(inputs, n - 1);
      InputEnabled(inputs, n - 1);
      AfterStep(inputs, n - 1);
      NextFlags(After(inputs[..n - 1]), inputs[n - 1]);
      SinceStep(inputs, n - 1, Turns(inputs), Ends());
      assert NoPassEnded(inputs, n) <==> NoPassEnded(inputs, n - 1) && !inputs[n - 1].PassEnds?;
    }
  }

  // Paused and not resumed, the daemon starts no pass, on a tick or on a polling ticker; only the API's
  // kick still does.
  lemma PausedStartsNothing(inputs: seq<Input>, i: nat, n: nat)
    requires History(inputs) && i < n < |inputs| && inputs[i] == SetPaused(true)
    requires forall m | i < m < n :: inputs[m] != SetPaused(false)
    ensures StartsPass(After(inputs[..n]), inputs[n]) <==> inputs[n].KickSync?
  {
    hide After, History;
    PausedExactly(inputs, n);
    assert Pauses(inputs)(i) && OffAt(inputs, i, n, Resumes());
  }

  // Otherwise an idle loop starts one at every tick and every turn of a ticker, and is then busy; a kick
  // starts one whatever the loop is doing, and leaves the schedule alone.
  lemma TurnsStartPasses(s: State, i: Input)
    requires i.LoopTakesTick? || i.LoopTimer? || i.KickSync?
    ensures !s.paused ==> StartsPass(s, i) && (!i.KickSync? ==> Next(s, i).busy)
    ensures i.LoopTimer? && !s.busy ==> Enabled(s, i) && Next(s, i) == s.(busy := !s.paused)
    ensures i.KickSync? ==> Enabled(s, i) && StartsPass(s, i) && Next(s, i) == s
  {
  }

  // The loop never overlaps itself: between two of its passes, one has ended.
  lemma LoopPassesDisjoint(inputs: seq<Input>, j: nat, n: nat)
    requires History(inputs) && j < n < |inputs|
    requires LoopStarts(After(inputs[..j]), inputs[j]) && LoopStarts(After(inputs[..n]), inputs[n])
    ensures exists m | j < m < n :: inputs[m].PassEnds?
  {
    hide After, History;
    BusyExactly(inputs, n);
    InputEnabled(inputs, n);
    assert Turns(inputs)(j);
    assert !OffAt(inputs, j, n, Ends());
  }

  // A tick taken at step j and thrown away because the daemon was paused.
  ghost predicate Discarded(inputs: seq<Input>, j: nat)
    requires j < |inputs|
  {
    inputs[j].LoopTakesTick? && After(inputs[..j]).paused
  }

  // The tick taken at step j was the last trace of all events before n.
  ghost predicate LostAt(inputs: seq<Input>, j: nat, n: nat)
    requires j < n <= |inputs|
  {
    Discarded(inputs, j) && !After(inputs[..j]).armed && forall m | j < m < n :: !inputs[m].FsEvent?
  }

  ghost predicate Lost(inputs: seq<Input>, i: nat, n: nat)
    requires n <= |inputs|
  {
    exists j | i < j < n :: LostAt(inputs, j, n)
  }

  // After an event, as long as no pass has started, nothing is armed or pending exactly when a tick was
  // taken and discarded while paused, with the timer not armed again by then and no event since.  So no
  // wakeup is lost in any other way; dropping a tick on a full channel, in particular, loses nothing.
  lemma {:induction false} WakeupLostExactly(inputs: seq<Input>, i: nat, n: nat)
    requires History(inputs) && i < n <= |inputs| && inputs[i].FsEvent?
    requires forall j | i < j < n :: !StartsPass(After(inputs[..j]), inputs[j])
    ensures Quiet(After(inputs[..n])) <==> Lost(inputs, i, n)
    decreases n
  {
    hide After, History, Lost, Next, StartsPass, Enabled, Quiet;
    InputEnabled(inputs, n - 1);
    AfterStep(inputs, n - 1);
    QuietStep(After(inputs[..n - 1]), inputs[n - 1]);
    if i == n - 1 {
      NothingLostYet(inputs, i);
    } else {
      WakeupLostExactly(inputs, i, n - 1);
      LostStep(inputs, i, n - 1);
    }
  }

  // Neither the timer nor the channel will start a pass.
  predicate Quiet(s: State) {
    !s.armed && !s.tick
  }

  lemma QuietStep(s: State, x: Input)
    requires Enabled(s, x)
    ensures !StartsPass(s, x) ==>
              (Quiet(Next(s, x)) <==> (x.LoopTakesTick? && s.paused && !s.armed) || (!x.FsEvent? && Quiet(s)))
    ensures x.FsEvent? ==> !Quiet(Next(s, x))
  {
  }

  lemma NothingLostYet(inputs: seq<Input>, i: nat)
    requires i < |inputs|
    ensures !Lost(inputs, i, i + 1)
  {
  }

  // How the condition changes with one more input.
  lemma LostStep(inputs: seq<Input>, i: nat, n: nat)
    requires i < n < |inputs|
    ensures Lost(inputs, i, n + 1)
            <==> (Discarded(inputs, n) && !After(inputs[..n]).armed) || (!inputs[n].FsEvent? && Lost(inputs, i, n))
  {
    hide After, Discarded;
    if Discarded(inputs, n) && !After(inputs[..n]).armed {
      assert LostAt(inputs, n, n + 1);
    } else if !inputs[n].FsEvent? && Lost(inputs, i, n) {
      var j :| i < j < n && LostAt(inputs, j, n);
      assert LostAt(inputs, j, n + 1);
    }
    if Lost(inputs, i, n + 1) {
      var j :| i < j < n + 1 && LostAt(inputs, j, n + 1);
      assert j < n ==> LostAt(inputs, j, n);
    }
  }

  // No lost wakeup: after an event, as long as no pass has started, the timer is armed, a tick is in
  // the channel, or a tick was taken and discarded while paused.
  lemma NoLostWakeup(inputs: seq<Input>, i: nat, n: nat)
    requires History(inputs) && i < n <= |inputs| && inputs[i].FsEvent?
    requires forall j | i < j < n :: !StartsPass(After(inputs[..j]), inputs[j])
    ensures var s := After(inputs[..n]);
            s.armed || s.tick || exists j | i < j < n :: Discarded(inputs, j)
  {
    hide After, History;
    WakeupLostExactly(inputs, i, n);
    if Lost(inputs, i, n) {
      var j :| i < j < n && LostAt(inputs, j, n);
      assert Discarded(inputs, j);
    }
  }

  // So when nothing is armed or pending and no tick was discarded since, every event has been followed
  // by the start of a pass.
  lemma QuietMeansServed(inputs: seq<Input>, i: nat)
    requires History(inputs) && i < |inputs| && inputs[i].FsEvent?
    requires !After(inputs).armed && !After(inputs).tick
    requires forall j | i < j < |inputs| :: !Discarded(inputs, j)
    ensures exists j | i < j < |inputs| :: StartsPass(After(inputs[..j]), inputs[j])
  {
    assert inputs[..|inputs|] == inputs;
    if forall j | i < j < |inputs| :: !StartsPass(After(inputs[..j]), inputs[j]) {
      NoLostWakeup(inputs, i, |inputs|);
    }
  }

  // Later events never postpone the tick: until the timer fires, its deadline is at most one debounce
  // after the event.
  lemma {:induction false} DebounceIsNotExtended(inputs: seq<Input>, i: nat, n: nat)
    requires History(inputs) && i < n <= |inputs| && inputs[i].FsEvent?
    requires forall j | i < j < n :: !inputs[j].TimerFires?
    ensures After(inputs[..n]).armed && After(inputs[..n]).due <= inputs[i].now + 750
    decreases n
  {
    assert Ordered(inputs);
    hide History, After, Next;
    if i < n - 1 {
      DebounceIsNotExtended(inputs, i, n - 1);
      AfterStep(inputs, n - 1);
      StillDue(After(inputs[..n - 1]), inputs[n - 1]);
    } else {
      EventArms(inputs, i);
    }
  }

  lemma StillDue(s: State, x: Input)
    requires s.armed && !x.TimerFires?
    ensures Next(s, x).armed && Next(s, x).due == s.due
  {
  }

  lemma EventArms(inputs: seq<Input>, i: nat)
    requires Ordered(inputs) && i < |inputs| && inputs[i].FsEvent?
    ensures After(inputs[..i + 1]).armed && After(inputs[..i + 1]).due <= inputs[i].now + DEBOUNCE
  {
    AfterStep(inputs, i);
    hide After;
    if After(inputs[..i]).armed {
      var j := ArmedByEarlierEvent(inputs, i);
    }
  }

  // An armed timer was armed by some earlier event.
  lemma {:induction false} ArmedByEarlierEvent(inputs: seq<Input>, n: nat) returns (j: nat)
    requires n <= |inputs| && After(inputs[..n]).armed
    ensures j < n && inputs[j].FsEvent? && After(inputs[..n]).due == inputs[j].now + DEBOUNCE
    decreases n
  {
    j := n - 1;
    AfterStep(inputs, j);
    if After(inputs[..j]).armed {
      j := ArmedByEarlierEvent(inputs, j);
    }
  }

  // Nor can a wakeup get stuck: while unpaused, an armed timer or a pending tick leads to a pass by the
  // watcher's and the loop's own steps.
  lemma WakeupLeadsToPass(s: State)
    requires !s.paused && (s.armed || s.tick)
    ensures var s1 := if s.tick then s else Next(s, TimerFires);
            var s2 := if s1.busy then Next(s1, PassEnds) else s1;
            && (s.tick || Enabled(s, TimerFires)) && (!s1.busy || Enabled(s1, PassEnds))
            && Enabled(s2, LoopTakesTick) && StartsPass(s2, LoopTakesTick)
  {
  }

  // The exception is real: pause, let the tick be taken, resume; the event is left to the polling tickers.
  lemma PauseDiscardsWakeup()
    ensures var inputs := [PassEnds, FsEvent(0), SetPaused(true), TimerFires, LoopTakesTick, SetPaused(false)];
            && History(inputs)
            && (forall j | 1 < j < |inputs| :: !StartsPass(After(inputs[..j]), inputs[j]))
            && var s := After(inputs); !s.armed && !s.tick && !s.paused && !s.busy
  {
    var inputs := [PassEnds, FsEvent(0), SetPaused(true), TimerFires, LoopTakesTick, SetPaused(false)];
    assert inputs[..0] == [] && After([]) == INIT;
    assert inputs[..6] == inputs;
    hide After;
    AfterStep(inputs, 0);
    AfterStep(inputs, 1);
    AfterStep(inputs, 2);
    AfterStep(inputs, 3);
    AfterStep(inputs, 4);
    AfterStep(inputs, 5);
  }

  // A discarded tick alone loses nothing: here the timer has been armed again by then.
  lemma DiscardNeedNotLose()
    ensures var inputs := [PassEnds, FsEvent(0), TimerFires, FsEvent(1), SetPaused(true), LoopTakesTick, SetPaused(false)];
            && History(inputs) && Discarded(inputs, 5)
            && (forall j | 1 < j < |inputs| :: !StartsPass(After(inputs[..j]), inputs[j]))
            && After(inputs).armed && !After(inputs).paused
  {
    var inputs := [PassEnds, FsEvent(0), TimerFires, FsEvent(1), SetPaused(true), LoopTakesTick, SetPaused(false)];
    assert inputs[..0] == [] && After([]) == INIT;
    assert inputs[..7] == inputs;
    hide After;
    AfterStep(inputs, 0);
    AfterStep(inputs, 1);
    AfterStep(inputs, 2);
    AfterStep(inputs, 3);
    AfterStep(inputs, 4);
    AfterStep(inputs, 5);
    AfterStep(inputs, 6);
  }
}
