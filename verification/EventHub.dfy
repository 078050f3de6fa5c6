/**
 The server's event hub (events.go): publishers put events into a bounded queue, and one goroutine
 takes them out and offers each to every subscriber's bounded channel.  The hub's lock covers the
 client set; closing a channel happens outside it.  `Step` lists the points at which publishers,
 subscribers and the run loop can interleave.
*/
module EventHub {
  import opened Wrappers

  const IN_CAPACITY: nat := 64
  const CLIENT_CAPACITY: nat := 16

  type Event = int
  datatype ChanId = ChanId(n: nat)

  // `buf` is what waits in the channel, `received` what its reader has taken out; `since` is the number
  // of fan-outs begun before the subscription.
  datatype Chan = Chan(buf: seq<Event>, closed: bool, received: seq<Event>, since: nat) {
    // Everything ever put into the channel.
    function Got(): seq<Event> { received + buf }
  }

  // Between events; with an event taken but the lock not yet held; or holding the lock with some
  // clients still to be offered the event.
  datatype Runner = Waiting | Taken(e: Event) | Offering(e: Event, left: set<ChanId>)

  // `accepted` and `offered` are histories: every event that entered the queue, and every event whose
  // fan-out has begun.
  datatype State = State(
    queue: seq<Event>,
    clients: set<ChanId>,
    leaving: set<ChanId>,
    chans: map<ChanId, Chan>,
    runner: Runner,
    accepted: seq<Event>,
    offered: seq<Event>)

  datatype Step =
    | Publish(e: Event)
    | Subscribe(ch: ChanId)
    | Unregister(ch: ChanId)    // the locked half of unsubscribe
    | Close(ch: ChanId)         // the unlocked half
    | TakeEvent
    | LockForEvent
    | Offer(ch: ChanId)
    | Unlock
    | Receive(ch: ChanId)

  const INIT: State := State([], {}, {}, map[], Waiting, [], [])

  // Who can move: the lock excludes Subscribe and Unregister while an event is being offered, and each
  // subscriber unsubscribes once.
  predicate Enabled(s: State, x: Step) {
    match x
    case Publish(_) => true
    case Subscribe(ch) => !s.runner.Offering? && ch !in s.chans
    case Unregister(ch) => !s.runner.Offering? && ch in s.clients
    case Close(ch) => ch in s.leaving && ch in s.chans
    case TakeEvent => s.runner.Waiting? && s.queue != []
    case LockForEvent => s.runner.Taken?
    case Offer(ch) => s.runner.Offering? && ch in s.runner.left && ch in s.chans
    case Unlock => s.runner.Offering? && s.runner.left == {}
    case Receive(ch) => ch in s.chans && s.chans[ch].buf != []
  }

  function Next(s: State, x: Step): State
    requires Enabled(s, x)
  {
    match x
    case Publish(e) =>
      if |s.queue| < IN_CAPACITY then s.(queue := s.queue + [e], accepted := s.accepted + [e]) else s
    case Subscribe(ch) =>
      s.(clients := s.clients + {ch}, chans := s.chans[ch := Chan([], false, [], |s.offered|)])
    case Unregister(ch) => s.(clients := s.clients - {ch}, leaving := s.leaving + {ch})
    case Close(ch) => s.(leaving := s.leaving - {ch}, chans := s.chans[ch := s.chans[ch].(closed := true)])
    case TakeEvent => s.(queue := s.queue[1..], runner := Taken(s.queue[0]))
    case LockForEvent => s.(runner := Offering(s.runner.e, s.clients), offered := s.offered + [s.runner.e])
    case Offer(ch) =>
      var c := s.chans[ch];
      var c1 := if |c.buf| < CLIENT_CAPACITY then c.(buf := c.buf + [s.runner.e]) else c;
      s.(runner := Offering(s.runner.e, s.runner.left - {ch}), chans := s.chans[ch := c1])
    case Unlock => s.(runner := Waiting)
    case Receive(ch) =>
      var c := s.chans[ch];
      s.(chans := s.chans[ch := c.(buf := c.buf[1..], received := c.received + [c.buf[0]])])
  }

  /* ---- the hub object ---- */

  class Hub {
    var queue: seq<Event>
    var clients: set<ChanId>
    var leaving: set<ChanId>
    var chans: map<ChanId, Chan>
    var runner: Runner
    var accepted: seq<Event>   // history only, as is `offered`
    var offered: seq<Event>

    ghost function Now(): State
      reads this
    {
      State(queue, clients, leaving, chans, runner, accepted, offered)
    }

    constructor ()
      ensures Now() == INIT
    {
      queue, clients, leaving, chans, runner := [], {}, {}, map[], Waiting;
      accepted, offered := [], [];
    }

    method Publish(e: Event)
      modifies this
      ensures Now() == Next(old(Now()), Step.Publish(e))
    {
      if |queue| < IN_CAPACITY {
        queue := queue + [e];
        accepted := accepted + [e];
      }
    }

    // `ch` is the identity of the channel that `make` returns.
    method Subscribe(ch: ChanId)
      requires Enabled(Now(), Step.Subscribe(ch))
      modifies this
      ensures Now() == Next(old(Now()), Step.Subscribe(ch))
    {
      chans := chans[ch := Chan([], false, [], |offered|)];
      clients := clients + {ch};
    }

    // The locked half of unsubscribe; `CloseChannel` is the rest of it.
    method Unregister(ch: ChanId)
      requires Enabled(Now(), Step.Unregister(ch))
      modifies this
      ensures Now() == Next(old(Now()), Step.Unregister(ch))
    {
      clients := clients - {ch};
      leaving := leaving + {ch};
    }

    method CloseChannel(ch: ChanId)
      requires Enabled(Now(), Close(ch))
      modifies this
      ensures Now() == Next(old(Now()), Close(ch))
    {
      chans := chans[ch := chans[ch].(closed := true)];
      leaving := leaving - {ch};
    }

    // One round of the run loop with nobody interfering.
    method Broadcast()
      requires runner.Waiting? && queue != [] && clients <= chans.Keys
      modifies this
      ensures Now() == Broadcasted(old(Now()))
    {
      var e := queue[0];
      queue := queue[1..];
      offered := offered + [e];
      ghost var was := chans;
      var left := clients;
      assert chans == Served(was, clients - left, e);
      hide Served;
      while left != {}
        invariant left <= clients == old(clients) && chans == Served(was, clients - left, e)
        invariant leaving == old(leaving) && accepted == old(accepted) && runner.Waiting?
        invariant queue == old(queue)[1..] && offered == old(offered) + [e]
      {
        var ch :| ch in left;
        ServedOne(was, clients - left, ch, e);
        assert clients - (left - {ch}) == clients - left + {ch};
        left := left - {ch};
        var c := chans[ch];
        if |c.buf| < CLIENT_CAPACITY {
          chans := chans[ch := c.(buf := c.buf + [e])];
        }
      }
      assert clients - left == clients;
    }
  }

  /* ---- a round as a run of steps ---- */

  // The channels after the clients in `done` have been offered the event.
  ghost function Served(chans: map<ChanId, Chan>, done: set<ChanId>, e: Event): map<ChanId, Chan> {
    map ch | ch in chans ::
      if ch in done && |chans[ch].buf| < CLIENT_CAPACITY then chans[ch].(buf := chans[ch].buf + [e]) else chans[ch]
  }

  // The event at the head of the queue goes to every client with room, and nothing else changes.
  ghost function Broadcasted(s: State): State
    requires s.queue != []
  {
    s.(queue := s.queue[1..], offered := s.offered + [s.queue[0]], chans := Served(s.chans, s.clients, s.queue[0]))
  }

  lemma ServedOne(chans: map<ChanId, Chan>, done: set<ChanId>, ch: ChanId, e: Event)
    requires ch in chans && ch !in done
    ensures var now, c := Served(chans, done, e), chans[ch];
            && ch in now && now[ch] == c
            && Served(chans, done + {ch}, e)
               == if |c.buf| < CLIENT_CAPACITY then now[ch := c.(buf := c.buf + [e])] else now
  {
  }

  // Where these steps lead, if each is enabled in its turn.
  ghost function RunFrom(s: State, steps: seq<Step>): Option<State> {
    if steps == [] then Some(s)
    else
      var m, x := RunFrom(s, steps[..|steps| - 1]), steps[|steps| - 1];
      if m.Some? && Enabled(m.value, x) then Some(Next(m.value, x)) else None
  }

  ghost predicate Leads(s: State, steps: seq<Step>, s1: State) {
    RunFrom(s, steps) == Some(s1)
  }

  lemma LeadsOn(s: State, steps: seq<Step>, m: State, x: Step) returns (more: seq<Step>)
    requires Leads(s, steps, m) && Enabled(m, x)
    ensures more == steps + [x] && Leads(s, more, Next(m, x))
  {
    more := steps + [x];
    assert more[..|steps|] == steps;
  }

  // Offering the event to the clients that are left, one by one.
  lemma {:induction false} OffersLead(start: State, steps: seq<Step>, s: State, was: map<ChanId, Chan>)
    returns (more: seq<Step>, s1: State)
    requires Leads(start, steps, s) && s.runner.Offering? && s.runner.left <= s.clients <= was.Keys
    requires s.chans == Served(was, s.clients - s.runner.left, s.runner.e)
    ensures Leads(start, more, s1)
    ensures s1 == s.(runner := Offering(s.runner.e, {}), chans := Served(was, s.clients, s.runner.e))
    decreases s.runner.left
  {
    hide Leads, Served;
    var left, e := s.runner.left, s.runner.e;
    if left == {} {
      assert s.clients - left == s.clients;
      more, s1 := steps, s;
    } else {
      var ch :| ch in left;
      ServedOne(was, s.clients - left, ch, e);
      assert s.clients - (left - {ch}) == s.clients - left + {ch};
      assert s.chans[ch := s.chans[ch]] == s.chans;
      more := LeadsOn(start, steps, s, Offer(ch));
      more, s1 := OffersLead(start, more, Next(s, Offer(ch)), was);
    }
  }

  // A round of the loop is a run of the state machine.
  lemma BroadcastIsRun(s: State) returns (steps: seq<Step>)
    requires s.runner.Waiting? && s.queue != [] && s.clients <= s.chans.Keys
    ensures Leads(s, steps, Broadcasted(s))
  {
    var taken := Next(s, TakeEvent);
    var locked := Next(taken, LockForEvent);
    steps := LeadsOn(s, [], s, TakeEvent);
    steps := LeadsOn(s, steps, taken, LockForEvent);
    assert locked.chans == Served(s.chans, {}, s.queue[0]);
    hide Leads, Served;
    var offeredAll: State;
    assert s.clients - locked.runner.left == {};
    steps, offeredAll := OffersLead(s, steps, locked, s.chans);
    steps := LeadsOn(s, steps, offeredAll, Unlock);
  }

  /* ---- histories ---- */

  // t starts empty and takes one enabled step at a time.
  ghost predicate History(t: seq<State>, steps: seq<Step>) {
    && |t| == |steps| + 1 && t[0] == INIT
    && forall i | 0 <= i < |steps| :: Enabled(t[i], steps[i]) && t[i + 1] == Next(t[i], steps[i])
  }

  // a can be read off b by leaving elements out.
  ghost predicate Subsequence(a: seq<Event>, b: seq<Event>)
    decreases |b|
  {
    a == [] || (b != [] && ((a[|a| - 1] == b[|b| - 1] && Subsequence(a[..|a| - 1], b[..|b| - 1]))
                            || Subsequence(a, b[..|b| - 1])))
  }

  lemma SubsequenceGrows(a: seq<Event>, b: seq<Event>, e: Event)
    requires Subsequence(a, b)
    ensures Subsequence(a, b + [e]) && Subsequence(a + [e], b + [e])
  {
    assert (b + [e])[..|b|] == b;
    assert (a + [e])[..|a|] == a;
  }

  // What has been offered to a channel so far: an event being offered does not count before its turn.
  ghost function OfferedTo(s: State, ch: ChanId): nat {
    if s.runner.Offering? && ch in s.runner.left && |s.offered| > 0 then |s.offered| - 1 else |s.offered|
  }

  ghost predicate ChanOk(s: State, ch: ChanId)
    requires ch in s.chans
  {
    var c := s.chans[ch];
    && (c.closed ==> ch !in s.clients && ch !in s.leaving)
    && c.since <= OfferedTo(s, ch) <= |s.offered|
    && Subsequence(c.Got(), s.offered[c.since..OfferedTo(s, ch)])
  }

  ghost predicate Inv(s: State) {
    && s.clients <= s.chans.Keys && s.leaving <= s.chans.Keys && s.clients !! s.leaving
    && (s.runner.Offering? ==> s.runner.left <= s.clients && s.offered != [] && s.offered[|s.offered| - 1] == s.runner.e)
    && s.accepted == s.offered + (if s.runner.Taken? then [s.runner.e] else []) + s.queue
    && forall ch | ch in s.chans :: ChanOk(s, ch)
  }

  // A channel that a step leaves alone stays in order.
  lemma ChanFrame(s: State, s1: State, ch: ChanId)
    requires ch in s.chans && ch in s1.chans && s1.chans[ch] == s.chans[ch] && ChanOk(s, ch)
    requires s1.offered == s.offered && OfferedTo(s1, ch) == OfferedTo(s, ch)
    requires s.chans[ch].closed ==> ch !in s1.clients && ch !in s1.leaving
    ensures ChanOk(s1, ch)
  {
  }

  lemma OfferedChan(s: State, ch: ChanId)
    requires Inv(s) && Enabled(s, Offer(ch))
    ensures ChanOk(Next(s, Offer(ch)), ch)
  {
    hide Subsequence;
    var c := s.chans[ch];
    var n := |s.offered|;
    var before := s.offered[c.since..n - 1];
    assert ChanOk(s, ch);
    assert s.offered[c.since..n] == before + [s.runner.e];
    SubsequenceGrows(c.Got(), before, s.runner.e);
    assert c.received + (c.buf + [s.runner.e]) == c.Got() + [s.runner.e];
  }

  lemma OfferKeeps(s: State, ch: ChanId)
    requires Inv(s) && Enabled(s, Offer(ch))
    ensures Inv(Next(s, Offer(ch)))
  {
    hide Subsequence;
    var s1 := Next(s, Offer(ch));
    forall x | x in s1.chans
      ensures ChanOk(s1, x)
    {
      if x == ch {
        OfferedChan(s, ch);
      } else {
        ChanFrame(s, s1, x);
      }
    }
  }

  lemma LockedChan(s: State, ch: ChanId)
    requires Inv(s) && Enabled(s, LockForEvent) && ch in s.chans
    ensures ChanOk(Next(s, LockForEvent), ch)
  {
    hide Subsequence;
    var s1, c, n := Next(s, LockForEvent), s.chans[ch], |s.offered|;
    assert ChanOk(s, ch);
    assert s1.offered[c.since..n] == s.offered[c.since..n];
    assert s1.offered[c.since..n + 1] == s.offered[c.since..n] + [s.runner.e];
    SubsequenceGrows(c.Got(), s.offered[c.since..n], s.runner.e);
  }

  lemma LockKeeps(s: State)
    requires Inv(s) && Enabled(s, LockForEvent)
    ensures Inv(Next(s, LockForEvent))
  {
    hide ChanOk;
    forall ch | ch in s.chans
      ensures ChanOk(Next(s, LockForEvent), ch)
    {
      LockedChan(s, ch);
    }
  }

  lemma ReceivedChan(s: State, ch: ChanId)
    requires Inv(s) && Enabled(s, Receive(ch))
    ensures ChanOk(Next(s, Receive(ch)), ch)
  {
    hide Subsequence;
    assert ChanOk(s, ch);
    var c, c1 := s.chans[ch], Next(s, Receive(ch)).chans[ch];
    assert c1.Got() == c.Got();
  }

  lemma SubscribedChan(s: State, ch: ChanId)
    requires Inv(s) && Enabled(s, Subscribe(ch))
    ensures ChanOk(Next(s, Subscribe(ch)), ch)
  {
    assert s.offered[|s.offered|..] == [];
  }

  lemma ClosedChan(s: State, ch: ChanId)
    requires Inv(s) && Enabled(s, Close(ch))
    ensures ChanOk(Next(s, Close(ch)), ch)
  {
    hide Subsequence;
    assert ChanOk(s, ch);
    var c, c1 := s.chans[ch], Next(s, Close(ch)).chans[ch];
    assert c1.Got() == c.Got();
  }

  lemma ChannelStepKeeps(s: State, x: Step)
    requires Inv(s) && Enabled(s, x) && (x.Subscribe? || x.Close? || x.Receive?)
    ensures Inv(Next(s, x))
  {
    var s1 := Next(s, x);
    forall ch | ch in s1.chans
      ensures ChanOk(s1, ch)
    {
      if ch != x.ch {
        ChanFrame(s, s1, ch);
      } else if x.Receive? {
        ReceivedChan(s, ch);
      } else if x.Subscribe? {
        SubscribedChan(s, ch);
      } else {
        ClosedChan(s, ch);
      }
    }
    hide ChanOk;
  }

  lemma StepKeeps(s: State, x: Step)
    requires Inv(s) && Enabled(s, x)
    ensures Inv(Next(s, x))
  {
    match x
    case Offer(ch) => OfferKeeps(s, ch);
    case LockForEvent => LockKeeps(s);
    case Subscribe(_) => ChannelStepKeeps(s, x);
    case Close(_) => ChannelStepKeeps(s, x);
    case Receive(_) => ChannelStepKeeps(s, x);
    case _ =>
      var s1 := Next(s, x);
      forall ch | ch in s1.chans
        ensures ChanOk(s1, ch)
      {
        ChanFrame(s, s1, ch);
      }
  }

  lemma {:induction false} Invariant(t: seq<State>, steps: seq<Step>, i: nat)
    requires History(t, steps) && i < |t|
    ensures Inv(t[i])
    decreases i
  {
    if i > 0 {
      Invariant(t, steps, i - 1);
      StepKeeps(t[i - 1], steps[i - 1]);
      assert t[i - 1 + 1] == Next(t[i - 1], steps[i - 1]);
    }
  }

  // A run of the state machine, such as a whole `Broadcast`, keeps the invariant too.
  lemma {:induction false} RunKeeps(s: State, steps: seq<Step>, s1: State)
    requires Inv(s) && Leads(s, steps, s1)
    ensures Inv(s1)
    decreases |steps|
  {
    if steps != [] {
      var front, x := steps[..|steps| - 1], steps[|steps| - 1];
      var m := RunFrom(s, front).value;
      hide Inv;
      RunKeeps(s, front, m);
      StepKeeps(m, x);
    }
  }

  // In every interleaving: nothing is ever offered to a closed channel, no channel is closed twice, and
  // the clients the loop still has to serve stay registered.
  lemma NoSendOnClosed(t: seq<State>, steps: seq<Step>, i: nat)
    requires History(t, steps) && i < |steps|
    ensures steps[i].Offer? ==> !t[i].chans[steps[i].ch].closed && steps[i].ch in t[i].clients
    ensures steps[i].Close? ==> !t[i].chans[steps[i].ch].closed
  {
    Invariant(t, steps, i);
    assert Enabled(t[i], steps[i]);
    if steps[i].Offer? || steps[i].Close? {
      assert ChanOk(t[i], steps[i].ch);
    }
  }

  // What a subscriber has been given is, in order and without repetition, a subsequence of the accepted
  // events whose fan-out began after it subscribed; what it has received is a prefix of that.
  lemma DeliveredInOrder(t: seq<State>, steps: seq<Step>, i: nat, ch: ChanId)
    requires History(t, steps) && i < |t| && ch in t[i].chans
    ensures var s, c := t[i], t[i].chans[ch];
            && c.since <= |s.offered| <= |s.accepted| && s.offered == s.accepted[..|s.offered|]
            && (exists n | c.since <= n <= |s.offered| :: Subsequence(c.Got(), s.accepted[c.since..n]))
            && c.received <= c.Got()
  {
    Invariant(t, steps, i);
    var s, c := t[i], t[i].chans[ch];
    assert ChanOk(s, ch);
    var n := OfferedTo(s, ch);
    assert s.accepted[c.since..n] == s.offered[c.since..n];
  }

  // "Dequeued after it subscribed" would be too strong: an event taken out of the queue before the
  // subscription still reaches the new subscriber if the loop has not taken the lock yet.
  lemma TakenEventReachesLateSubscriber(e: Event, ch: ChanId)
    ensures var s1 := Next(INIT, Publish(e));
            var s2 := Next(s1, TakeEvent);
            var s3 := Next(s2, Subscribe(ch));
            var s4 := Next(s3, LockForEvent);
            && Enabled(s4, Offer(ch))
            && s2.runner == Taken(e) && ch !in s2.chans
            && Next(s4, Offer(ch)).chans[ch].Got() == [e]
  {
    var s4 := Next(Next(Next(Next(INIT, Publish(e)), TakeEvent), Subscribe(ch)), LockForEvent);
    assert s4.runner.left == {ch};
  }

  // That one event is the only exception: `since` is the number of events dequeued before the
  // subscription, less one exactly when the loop was holding such an event.
  lemma SinceCountsDequeued(t: seq<State>, steps: seq<Step>, i: nat, ch: ChanId)
    requires History(t, steps) && i < |steps| && steps[i] == Subscribe(ch)
    ensures var dequeued := |t[i].accepted| - |t[i].queue|;
            t[i + 1].chans[ch].since == dequeued - (if t[i].runner.Taken? then 1 else 0)
  {
    Invariant(t, steps, i);
    assert Enabled(t[i], steps[i]) && t[i + 1] == Next(t[i], steps[i]);
  }

  /* ---- what each step does to what can be seen ---- */

  // A channel is given an event only when it is offered one with fewer than 16 waiting, and its reader takes
  // the oldest waiting; a publisher's event is accepted only with fewer than 64 in the queue.
  lemma StepEffects(s: State, x: Step, ch: ChanId)
    requires Enabled(s, x) && ch in s.chans
    ensures var s1, c := Next(s, x), s.chans[ch];
            && ch in s1.chans
            && s1.chans[ch].Got() == (if x == Offer(ch) && |c.buf| < 16 then c.Got() + [s.runner.e] else c.Got())
            && s1.chans[ch].received == (if x == Receive(ch) then c.received + [c.buf[0]] else c.received)
            && s1.accepted == (if x.Publish? && |s.queue| < 64 then s.accepted + [x.e] else s.accepted)
            && s1.offered == (if x.LockForEvent? then s.offered + [s.runner.e] else s.offered)
  {
    var c := s.chans[ch];
    if x == Receive(ch) {
      assert c.received + [c.buf[0]] + c.buf[1..] == c.received + c.buf;
    } else if x == Offer(ch) {
      assert c.received + (c.buf + [s.runner.e]) == c.received + c.buf + [s.runner.e];
    }
  }

  // The queue and the channels never hold more.
  lemma {:induction false} WithinCapacity(t: seq<State>, steps: seq<Step>, i: nat)
    requires History(t, steps) && i < |t|
    ensures |t[i].queue| <= 64 && forall ch | ch in t[i].chans :: |t[i].chans[ch].buf| <= 16
    decreases i
  {
    if i > 0 {
      WithinCapacity(t, steps, i - 1);
      assert t[i - 1 + 1] == Next(t[i - 1], steps[i - 1]);
    }
  }

  ghost predicate Did(steps: seq<Step>, i: nat, x: Step)
    requires i <= |steps|
  {
    exists j | 0 <= j < i :: steps[j] == x
  }

  lemma DidStep(steps: seq<Step>, i: nat, x: Step)
    requires i < |steps|
    ensures Did(steps, i + 1, x) <==> Did(steps, i, x) || steps[i] == x
  {
    if steps[i] == x {
      assert Did(steps, i + 1, x);
    }
  }

  lemma NextMembership(s: State, x: Step, ch: ChanId)
    requires Enabled(s, x)
    ensures var s1 := Next(s, x);
            && (ch in s1.chans <==> ch in s.chans || x == Subscribe(ch))
            && (ch in s1.clients <==> (ch in s.clients && x != Unregister(ch)) || x == Subscribe(ch))
            && (ch in s1.leaving <==> (ch in s.leaving && x != Close(ch)) || x == Unregister(ch))
            && (ch in s1.chans && s1.chans[ch].closed <==> (ch in s.chans && s.chans[ch].closed) || x == Close(ch))
    ensures x == Subscribe(ch) ==> ch !in s.chans
    ensures x == Unregister(ch) ==> ch in s.clients
    ensures x == Close(ch) ==> ch in s.leaving
  {
  }

  // Who is registered, who is on the way out and what is closed, as the history tells it.
  lemma {:induction false} MembershipExactly(t: seq<State>, steps: seq<Step>, i: nat, ch: ChanId)
    requires History(t, steps) && i < |t|
    ensures var s := t[i];
            && (ch in s.chans <==> Did(steps, i, Subscribe(ch)))
            && (ch in s.clients <==> Did(steps, i, Subscribe(ch)) && !Did(steps, i, Unregister(ch)))
            && (ch in s.leaving <==> Did(steps, i, Unregister(ch)) && !Did(steps, i, Close(ch)))
            && (ch in s.chans && s.chans[ch].closed <==> Did(steps, i, Close(ch)))
            && (Did(steps, i, Close(ch)) ==> Did(steps, i, Unregister(ch)))
            && (Did(steps, i, Unregister(ch)) ==> Did(steps, i, Subscribe(ch)))
    decreases i
  {
    if i > 0 {
      assert Enabled(t[i - 1], steps[i - 1]) && t[i - 1 + 1] == Next(t[i - 1], steps[i - 1]);
      hide Did, Next, Enabled, History;
      MembershipExactly(t, steps, i - 1, ch);
      NextMembership(t[i - 1], steps[i - 1], ch);
      DidStep(steps, i - 1, Subscribe(ch));
      DidStep(steps, i - 1, Unregister(ch));
      DidStep(steps, i - 1, Close(ch));
    }
  }

  function Alone(ch: ChanId, c: Chan): map<ChanId, Chan> {
    map[ch := c]
  }

  lemma AloneUpdated(ch: ChanId, c: Chan, c1: Chan)
    ensures Alone(ch, c)[ch := c1] == Alone(ch, c1)
  {
  }

  // A subscriber's whole life is a run: it subscribes, is given an event, receives it and leaves.
  lemma WholeLife(ch: ChanId, e: Event) returns (steps: seq<Step>)
    ensures Leads(INIT, steps, State([], {}, {}, Alone(ch, Chan([], true, [e], 0)), Waiting, [e], [e]))
  {
    var given := State([], {ch}, {}, Alone(ch, Chan([e], false, [], 0)), Waiting, [e], [e]);
    steps := GivenEvent(ch, e);
    hide Leads;
    AloneUpdated(ch, Chan([e], false, [], 0), Chan([], false, [e], 0));
    AloneUpdated(ch, Chan([], false, [e], 0), Chan([], true, [e], 0));
    var received := given.(chans := Alone(ch, Chan([], false, [e], 0)));
    var c := given.chans[ch];
    assert c.buf[1..] == [] && c.received + [c.buf[0]] == [e];
    assert Next(given, Receive(ch)) == received;
    steps := LeadsOn(INIT, steps, given, Receive(ch));
    var gone := received.(clients := {}, leaving := {ch});
    assert {ch} - {ch} == {} && {} + {ch} == {ch};
    assert Next(received, Unregister(ch)) == gone;
    steps := LeadsOn(INIT, steps, received, Unregister(ch));
    assert Next(gone, Close(ch)) == gone.(leaving := {}, chans := Alone(ch, Chan([], true, [e], 0)));
    steps := LeadsOn(INIT, steps, gone, Close(ch));
  }

  lemma GivenEvent(ch: ChanId, e: Event) returns (steps: seq<Step>)
    ensures Leads(INIT, steps, State([], {ch}, {}, Alone(ch, Chan([e], false, [], 0)), Waiting, [e], [e]))
  {
    var taken := State([], {ch}, {}, Alone(ch, Chan([], false, [], 0)), Taken(e), [e], []);
    steps := EventTaken(ch, e);
    hide Leads;
    AloneUpdated(ch, Chan([], false, [], 0), Chan([e], false, [], 0));
    var locked := taken.(runner := Offering(e, {ch}), offered := [e]);
    assert Next(taken, LockForEvent) == locked;
    steps := LeadsOn(INIT, steps, taken, LockForEvent);
    OfferEffect(locked, ch);
    var served := locked.(runner := Offering(e, {}), chans := Alone(ch, Chan([e], false, [], 0)));
    assert locked.chans[ch].buf + [e] == [e] && {ch} - {ch} == {};
    assert Next(locked, Offer(ch)) == served;
    steps := LeadsOn(INIT, steps, locked, Offer(ch));
    assert Next(served, Unlock) == served.(runner := Waiting);
    steps := LeadsOn(INIT, steps, served, Unlock);
  }

  lemma OfferEffect(s: State, ch: ChanId)
    requires Enabled(s, Offer(ch)) && |s.chans[ch].buf| < CLIENT_CAPACITY
    ensures Next(s, Offer(ch))
            == s.(runner := Offering(s.runner.e, s.runner.left - {ch}),
                  chans := s.chans[ch := s.chans[ch].(buf := s.chans[ch].buf + [s.runner.e])])
  {
  }

  lemma EventTaken(ch: ChanId, e: Event) returns (steps: seq<Step>)
    ensures Leads(INIT, steps, State([], {ch}, {}, Alone(ch, Chan([], false, [], 0)), Taken(e), [e], []))
  {
    var joined := State([], {ch}, {}, Alone(ch, Chan([], false, [], 0)), Waiting, [], []);
    assert Next(INIT, Subscribe(ch)) == joined;
    steps := LeadsOn(INIT, [], INIT, Subscribe(ch));
    hide Leads;
    var queued := joined.(queue := [e], accepted := [e]);
    assert Next(joined, Publish(e)) == queued;
    steps := LeadsOn(INIT, steps, joined, Publish(e));
    assert Next(queued, TakeEvent) == queued.(queue := [], runner := Taken(e));
    steps := LeadsOn(INIT, steps, queued, TakeEvent);
  }

  /* ---- "only events dequeued after it subscribed", exactly ---- */

  // What the channel has been given is, in order, among the events whose fan-out began after the first
  // `dequeued` had been taken out of the queue.
  ghost predicate OnlyLater(s: State, ch: ChanId, dequeued: nat) {
    ch in s.chans && Subsequence(s.chans[ch].Got(), if dequeued <= |s.offered| then s.offered[dequeued..] else [])
  }

  // An open channel keeps its mark, and the fan-outs only grow in number.
  lemma {:induction false} MarkKept(s: State, steps: seq<Step>, s1: State, ch: ChanId)
    requires ch in s.chans && Leads(s, steps, s1)
    ensures ch in s1.chans && s1.chans[ch].since == s.chans[ch].since && |s.offered| <= |s1.offered|
    decreases |steps|
  {
    if steps != [] {
      var front, x := steps[..|steps| - 1], steps[|steps| - 1];
      var m := RunFrom(s, front).value;
      MarkKept(s, front, m, ch);
    }
  }

  // An event being fanned out that has not reached the channel yet may be counted as well.
  lemma GotSinceMark(s: State, ch: ChanId)
    requires Inv(s) && ch in s.chans
    ensures OnlyLater(s, ch, s.chans[ch].since)
  {
    hide Subsequence;
    assert ChanOk(s, ch);
    var c, n := s.chans[ch], OfferedTo(s, ch);
    if n == |s.offered| {
      assert s.offered[c.since..n] == s.offered[c.since..];
    } else {
      assert s.offered[c.since..] == s.offered[c.since..n] + [s.offered[n]];
      SubsequenceGrows(c.Got(), s.offered[c.since..n], s.offered[n]);
    }
  }

  // A subscriber gets only events dequeued after it subscribed, in every run that follows, exactly if the
  // loop held no event at that moment: a held event can always still reach it.
  lemma LateEventsExactly(s: State, ch: ChanId)
    requires Inv(s) && Enabled(s, Subscribe(ch))
    ensures var dequeued := |s.accepted| - |s.queue|;
            dequeued >= 0
            && ((forall steps, s1 | Leads(Next(s, Subscribe(ch)), steps, s1) :: OnlyLater(s1, ch, dequeued))
                <==> !s.runner.Taken?)
  {
    hide OnlyLater, Leads, Inv;
    var subscribed, dequeued := Next(s, Subscribe(ch)), |s.accepted| - |s.queue|;
    DequeuedCount(s);
    StepKeeps(s, Subscribe(ch));
    if s.runner.Taken? {
      var steps, s1 := HeldEventReaches(s, ch);
    } else {
      forall steps, s1 | Leads(subscribed, steps, s1)
        ensures OnlyLater(s1, ch, dequeued)
      {
        RunKeeps(subscribed, steps, s1);
        MarkKept(subscribed, steps, s1, ch);
        GotSinceMark(s1, ch);
      }
    }
  }

  lemma DequeuedCount(s: State)
    requires Inv(s)
    ensures |s.accepted| - |s.queue| == |s.offered| + if s.runner.Taken? then 1 else 0
  {
    hide ChanOk;
  }

  // Take the lock and offer the held event to the new channel: nothing dequeued later has been fanned out
  // yet, but the channel holds an event.
  lemma HeldEventReaches(s: State, ch: ChanId) returns (steps: seq<Step>, s1: State)
    requires Inv(s) && Enabled(s, Subscribe(ch)) && s.runner.Taken?
    ensures Leads(Next(s, Subscribe(ch)), steps, s1) && !OnlyLater(s1, ch, |s.accepted| - |s.queue|)
  {
    DequeuedCount(s);
    hide Inv;
    var start := Next(s, Subscribe(ch));
    var locked := Next(start, LockForEvent);
    steps := LeadsOn(start, [], start, LockForEvent);
    steps := LeadsOn(start, steps, locked, Offer(ch));
    s1 := Next(locked, Offer(ch));
    assert s1.chans[ch].Got() == [s.runner.e];
    assert s1.offered[|s1.offered|..] == [];
  }
}
