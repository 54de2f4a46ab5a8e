// src/kademlia/simulated_network.go: in-process endpoints with bounded inboxes and delivery
// timers, all under one lock. `State` is the value of the whole network; the classes update their
// fields in place and are proved against the functions on `State`.
module SimulatedNetwork {
  import opened Wrappers

  const INBOX_SIZE := 256
  const MAX_DATAGRAM_SIZE := 65507

  datatype Packet = Packet(from: string, data: seq<bv8>)

  datatype SendResult = Accepted | TooLarge | Closed

  class Transport {
    const address: string
    var inbox: seq<Packet>
    var timers: set<nat>
    var closed: bool
    ghost var addressed: seq<Packet> // every packet accepted for this endpoint

    constructor (address: string)
      ensures this.address == address && View() == End([], {}, false, [])
    {
      this.address, inbox, timers, closed, addressed := address, [], {}, false, [];
    }

    ghost function View(): End
      reads this
    {
      End(inbox, timers, closed, addressed)
    }
  }

  // A packet under way: the endpoint chosen when it was sent.
  datatype Delivery = Delivery(receiver: Transport, packet: Packet)

  // addressed: a record of all packets accepted for the endpoint, whatever has become of them.
  datatype End = End(inbox: seq<Packet>, timers: set<nat>, closed: bool, addressed: seq<Packet>)

  // armed holds every timer whose callback has not run, stopped timers included: a callback may
  // already be waiting for the lock when its timer is stopped.
  datatype State = State(
    endpoints: map<string, Transport>, armed: map<nat, Delivery>, nextTimer: nat, ends: map<Transport, End>)

  // ------------------------------------------------------------------ invariant

  // The registered endpoints are exactly those that are not closed.
  ghost predicate Registered(s: State) {
    && (forall a :: a in s.endpoints ==>
      s.endpoints[a] in s.ends && s.endpoints[a].address == a && !s.ends[s.endpoints[a]].closed)
    && (forall t :: t in s.ends && !s.ends[t].closed ==> t.address in s.endpoints && s.endpoints[t.address] == t)
  }

  // What has arrived and what is under way to an endpoint fit into its inbox together.
  ghost predicate Bounded(s: State) {
    forall t :: t in s.ends ==> |s.ends[t].inbox| + |s.ends[t].timers| <= INBOX_SIZE
  }

  // An endpoint's timers are the armed ones for it; a closed endpoint has none left.
  ghost predicate Timed(s: State) {
    && (forall t :: t in s.ends && s.ends[t].closed ==> s.ends[t].timers == {})
    && (forall t, k :: t in s.ends && k in s.ends[t].timers ==> k in s.armed && s.armed[k].receiver == t)
    && (forall k :: k in s.armed ==> k < s.nextTimer && s.armed[k].receiver in s.ends)
    && (forall k :: k in s.armed && !s.ends[s.armed[k].receiver].closed ==> k in s.ends[s.armed[k].receiver].timers)
  }

  // What has arrived at an endpoint, and what is under way to it, was sent to that endpoint.
  ghost predicate Recorded(s: State) {
    && (forall t, p :: t in s.ends && p in s.ends[t].inbox ==> p in s.ends[t].addressed)
    && (forall k :: k in s.armed && s.armed[k].receiver in s.ends ==>
      s.armed[k].packet in s.ends[s.armed[k].receiver].addressed)
  }

  ghost predicate Inv(s: State) {
    Registered(s) && Bounded(s) && Timed(s) && Recorded(s)
  }

  // ------------------------------------------------------------------ operations on values

  ghost function WithEnd(s: State, t: Transport, e: End): State {
    s.(ends := s.ends[t := e])
  }

  ghost function Opened(s: State, t: Transport): State {
    WithEnd(s, t, End([], {}, false, [])).(endpoints := s.endpoints[t.address := t])
  }

  // A packet is accepted for an endpoint: recorded, and put into the inbox or under a timer.
  ghost function Arrived(s: State, t: Transport, p: Packet): State
    requires t in s.ends
  {
    var e := s.ends[t];
    WithEnd(s, t, e.(inbox := e.inbox + [p], addressed := e.addressed + [p]))
  }

  ghost function Scheduled(s: State, t: Transport, p: Packet): State
    requires t in s.ends
  {
    var e := s.ends[t];
    WithEnd(s, t, e.(timers := e.timers + {s.nextTimer}, addressed := e.addressed + [p]))
      .(armed := s.armed[s.nextTimer := Delivery(t, p)], nextTimer := s.nextTimer + 1)
  }

  // Send: nothing happens for a lost, unroutable or overflowing packet.
  ghost function Sent(s: State, from: string, to: string, data: seq<bv8>, lost: bool, latency: nat): State
    requires Registered(s)
  {
    if lost || to !in s.endpoints then s
    else
      var t := s.endpoints[to];
      if |s.ends[t].inbox| + |s.ends[t].timers| >= INBOX_SIZE then s
      else if latency == 0 then Arrived(s, t, Packet(from, data))
      else Scheduled(s, t, Packet(from, data))
  }

  // The timer callback: deliver to the endpoint chosen at sending time, unless it has closed.
  ghost function Fired(s: State, k: nat): State
    requires k in s.armed && s.armed[k].receiver in s.ends
  {
    var d := s.armed[k];
    var e := s.ends[d.receiver];
    WithEnd(s, d.receiver, e.(timers := e.timers - {k}, inbox := if e.closed then e.inbox else e.inbox + [d.packet]))
      .(armed := s.armed - {k})
  }

  // Receive takes the oldest packet.
  ghost function Taken(s: State, t: Transport): State
    requires t in s.ends && s.ends[t].inbox != []
  {
    WithEnd(s, t, s.ends[t].(inbox := s.ends[t].inbox[1..]))
  }

  // Close: unregister and stop the incoming timers. Any of their callbacks may still be waiting
  // for the lock; the others never run.
  ghost function Shut(s: State, t: Transport, waiting: set<nat>): State
    requires t in s.ends
  {
    var e := s.ends[t];
    if e.closed then s
    else
      WithEnd(s, t, e.(closed := true, timers := {}))
        .(endpoints := s.endpoints - {t.address}, armed := s.armed - (e.timers - waiting))
  }

  // ------------------------------------------------------------------ what the operations keep

  // Four facts about replacing the value of one endpoint.
  lemma RegisteredWith(s: State, t: Transport, u: State)
    requires Registered(s) && t in s.ends && u.endpoints == s.endpoints && u.ends.Keys == s.ends.Keys
    requires forall x :: x in s.ends ==> u.ends[x].closed == s.ends[x].closed
    ensures Registered(u)
  {
  }

  lemma BoundedWith(s: State, t: Transport, e: End, u: State)
    requires Bounded(s) && u.ends == s.ends[t := e] && |e.inbox| + |e.timers| <= INBOX_SIZE
    ensures Bounded(u)
  {
  }

  lemma TimedWith(s: State, t: Transport, e: End, u: State)
    requires Timed(s) && t in s.ends && u.ends == s.ends[t := e]
    requires e.timers == s.ends[t].timers && e.closed == s.ends[t].closed && u.armed == s.armed && u.nextTimer == s.nextTimer
    ensures Timed(u)
  {
  }

  lemma RecordedWith(s: State, t: Transport, e: End, u: State)
    requires Recorded(s) && u.ends == s.ends[t := e]
    requires forall p :: p in e.inbox ==> p in e.addressed
    requires t in s.ends ==> forall p :: p in s.ends[t].addressed ==> p in e.addressed
    requires forall k :: k in u.armed ==>
      || (k in s.armed && u.armed[k] == s.armed[k] && u.armed[k].receiver in s.ends)
      || (u.armed[k].receiver == t && u.armed[k].packet in e.addressed)
    ensures Recorded(u)
  {
  }

  lemma OpenedKeeps(s: State, t: Transport)
    requires Inv(s) && t !in s.ends && t.address !in s.endpoints
    ensures Inv(Opened(s, t))
  {
    OpenedRegistered(s, t);
    OpenedTimed(s, t);
    AllArmedKnown(s);
    hide Registered, Timed;
    BoundedWith(s, t, End([], {}, false, []), Opened(s, t));
    hide Bounded;
    RecordedWith(s, t, End([], {}, false, []), Opened(s, t));
  }

  lemma OpenedRegistered(s: State, t: Transport)
    requires Registered(s) && t !in s.ends && t.address !in s.endpoints
    ensures Registered(Opened(s, t))
  {
  }

  lemma OpenedTimed(s: State, t: Transport)
    requires Timed(s) && t !in s.ends
    ensures Timed(Opened(s, t))
  {
  }

  lemma AllArmedKnown(s: State)
    requires Timed(s)
    ensures forall k :: k in s.armed ==> s.armed[k].receiver in s.ends
  {
  }

  lemma ArrivedKeeps(s: State, t: Transport, p: Packet)
    requires Inv(s) && t in s.ends && |s.ends[t].inbox| + |s.ends[t].timers| < INBOX_SIZE
    ensures Inv(Arrived(s, t, p))
  {
    var u := Arrived(s, t, p);
    AllArmedKnown(s);
    InboxRecorded(s, t);
    hide Registered, Bounded, Timed, Recorded;
    RegisteredWith(s, t, u);
    BoundedWith(s, t, u.ends[t], u);
    TimedWith(s, t, u.ends[t], u);
    RecordedWith(s, t, u.ends[t], u);
  }

  lemma InboxRecorded(s: State, t: Transport)
    requires Recorded(s) && t in s.ends
    ensures forall p :: p in s.ends[t].inbox ==> p in s.ends[t].addressed
  {
  }

  lemma ScheduledTimed(s: State, t: Transport, p: Packet)
    requires Timed(s) && t in s.ends && !s.ends[t].closed
    ensures Timed(Scheduled(s, t, p)) && s.nextTimer !in s.ends[t].timers
  {
    var u := Scheduled(s, t, p);
    assert s.nextTimer !in s.armed;
    forall x, k | x in u.ends && k in u.ends[x].timers ensures k in u.armed && u.armed[k].receiver == x {
      assert (x == t && k == s.nextTimer) || k in s.ends[x].timers;
    }
  }

  lemma ScheduledKeeps(s: State, t: Transport, p: Packet)
    requires Inv(s) && t in s.ends && !s.ends[t].closed && |s.ends[t].inbox| + |s.ends[t].timers| < INBOX_SIZE
    ensures Inv(Scheduled(s, t, p))
  {
    var u := Scheduled(s, t, p);
    ScheduledTimed(s, t, p);
    AllArmedKnown(s);
    InboxRecorded(s, t);
    hide Registered, Bounded, Timed, Recorded;
    RegisteredWith(s, t, u);
    BoundedWith(s, t, u.ends[t], u);
    RecordedWith(s, t, u.ends[t], u);
  }

  lemma SentKeeps(s: State, from: string, to: string, data: seq<bv8>, lost: bool, latency: nat)
    requires Inv(s)
    ensures Inv(Sent(s, from, to, data, lost, latency))
  {
    hide Bounded, Timed, Recorded;
    if !lost && to in s.endpoints {
      var t := s.endpoints[to];
      if |s.ends[t].inbox| + |s.ends[t].timers| < INBOX_SIZE {
        ArrivedKeeps(s, t, Packet(from, data));
        ScheduledKeeps(s, t, Packet(from, data));
      }
    }
  }

  lemma FreshTimer(s: State)
    requires Inv(s)
    ensures s.nextTimer !in s.armed
  {
  }

  // A callback that runs for an open endpoint gives its timer's room to the inbox.
  lemma FiredRoom(s: State, k: nat)
    requires Bounded(s) && Timed(s) && k in s.armed
    ensures var e, f := s.ends[s.armed[k].receiver], Fired(s, k).ends[s.armed[k].receiver];
      |f.inbox| + |f.timers| <= INBOX_SIZE && (!e.closed ==> |e.inbox| < INBOX_SIZE)
  {
    var e := s.ends[s.armed[k].receiver];
    if e.closed {
      assert e.timers - {k} == {};
    } else {
      assert e.timers == (e.timers - {k}) + {k};
    }
  }

  lemma FiredTimed(s: State, k: nat)
    requires Timed(s) && k in s.armed
    ensures Timed(Fired(s, k))
  {
    var u := Fired(s, k);
    forall t, j | t in u.ends && j in u.ends[t].timers ensures j in u.armed && u.armed[j].receiver == t {
      assert j in s.ends[t].timers;
    }
  }

  lemma DeliveryRecorded(s: State, k: nat)
    requires Recorded(s) && k in s.armed && s.armed[k].receiver in s.ends
    ensures s.armed[k].packet in s.ends[s.armed[k].receiver].addressed
  {
  }

  lemma FiredKeeps(s: State, k: nat)
    requires Inv(s) && k in s.armed
    ensures Inv(Fired(s, k))
  {
    AllArmedKnown(s);
    var t, u := s.armed[k].receiver, Fired(s, k);
    FiredRoom(s, k);
    FiredTimed(s, k);
    FiredRecorded(s, k);
    hide Registered, Bounded, Timed, Recorded;
    RegisteredWith(s, t, u);
    BoundedWith(s, t, u.ends[t], u);
  }

  lemma FiredRecorded(s: State, k: nat)
    requires Timed(s) && Recorded(s) && k in s.armed
    ensures Recorded(Fired(s, k))
  {
    AllArmedKnown(s);
    var t, u := s.armed[k].receiver, Fired(s, k);
    InboxRecorded(s, t);
    DeliveryRecorded(s, k);
    hide Timed, Recorded;
    RecordedWith(s, t, u.ends[t], u);
  }

  lemma TakenKeeps(s: State, t: Transport)
    requires Inv(s) && t in s.ends && s.ends[t].inbox != []
    ensures Inv(Taken(s, t)) && s.ends[t].inbox[0] in s.ends[t].addressed
  {
    var u := Taken(s, t);
    AllArmedKnown(s);
    InboxRecorded(s, t);
    hide Registered, Bounded, Timed, Recorded;
    RegisteredWith(s, t, u);
    TakenRoom(s, t);
    BoundedWith(s, t, u.ends[t], u);
    TimedWith(s, t, u.ends[t], u);
    RecordedWith(s, t, u.ends[t], u);
  }

  lemma TakenRoom(s: State, t: Transport)
    requires Bounded(s) && t in s.ends && s.ends[t].inbox != []
    ensures |Taken(s, t).ends[t].inbox| + |Taken(s, t).ends[t].timers| <= INBOX_SIZE
  {
  }

  lemma ShutRegistered(s: State, t: Transport, waiting: set<nat>)
    requires Registered(s) && t in s.ends && !s.ends[t].closed
    ensures Registered(Shut(s, t, waiting))
  {
  }

  lemma ShutTimed(s: State, t: Transport, waiting: set<nat>)
    requires Timed(s) && t in s.ends && !s.ends[t].closed
    ensures Timed(Shut(s, t, waiting))
  {
    var u := Shut(s, t, waiting);
    forall x, k | x in u.ends && k in u.ends[x].timers ensures k in u.armed && u.armed[k].receiver == x {
      assert x != t && k in s.ends[x].timers && s.armed[k].receiver == x;
    }
  }

  lemma ShutKeeps(s: State, t: Transport, waiting: set<nat>)
    requires Inv(s) && t in s.ends
    ensures Inv(Shut(s, t, waiting))
  {
    var u := Shut(s, t, waiting);
    if !s.ends[t].closed {
      ShutRegistered(s, t, waiting);
      ShutTimed(s, t, waiting);
      AllArmedKnown(s);
      InboxRecorded(s, t);
      ShutRoom(s, t);
      hide Registered, Bounded, Timed, Recorded;
      BoundedWith(s, t, u.ends[t], u);
      RecordedWith(s, t, u.ends[t], u);
    }
  }

  lemma ShutRoom(s: State, t: Transport)
    requires Bounded(s) && t in s.ends
    ensures |s.ends[t].inbox| <= INBOX_SIZE
  {
  }

  // ------------------------------------------------------------------ the class

  class Network {
    var endpoints: map<string, Transport>
    var armed: map<nat, Delivery>
    var nextTimer: nat
    ghost var all: set<Transport>

    ghost function View(): State
      reads this, all
    {
      State(endpoints, armed, nextTimer, map t | t in all :: t.View())
    }

    ghost predicate Valid()
      reads this, all
    {
      Inv(View())
    }

    // Only the endpoint t has changed.
    lemma Updated(before: State, t: Transport)
      requires t in all && before.ends.Keys == all
      requires forall u :: u in all && u != t ==> u.View() == before.ends[u]
      ensures View() == State(endpoints, armed, nextTimer, before.ends[t := t.View()])
    {
      assert View().ends == before.ends[t := t.View()];
    }

    constructor ()
      ensures Valid() && View() == State(map[], map[], 0, map[])
    {
      endpoints, armed, nextTimer, all := map[], map[], 0, {};
    }

    // Listen: an address in use is refused; a closed one may be reused by a new endpoint.
    method Listen(address: string) returns (r: Option<Transport>)
      requires Valid()
      modifies this
      ensures Valid()
      ensures r.None? <==> address in old(endpoints)
      ensures r.None? ==> View() == old(View()) && all == old(all)
      ensures r.Some? ==> fresh(r.value) && r.value.address == address && all == old(all) + {r.value}
      ensures r.Some? ==> View() == Opened(old(View()), r.value)
      ensures armed == old(armed) && nextTimer == old(nextTimer)
      ensures r.None? ==> endpoints == old(endpoints)
      ensures r.Some? ==>
        && endpoints == old(endpoints)[address := r.value]
        && r.value.inbox == [] && r.value.timers == {} && !r.value.closed && r.value.addressed == []
    {
      hide Inv, Registered;
      if address in endpoints {
        return None;
      }
      var t := new Transport(address);
      OpenedKeeps(View(), t);
      endpoints := endpoints[address := t];
      all := all + {t};
      assert View() == Opened(old(View()), t);
      return Some(t);
    }

    // Channel send: the sender would wait while the inbox is full, so it must not be.
    method Deliver(t: Transport, packet: Packet)
      requires Valid() && t in all && |t.inbox| + |t.timers| < INBOX_SIZE
      modifies t`inbox, t`addressed
      ensures Valid() && View() == Arrived(old(View()), t, packet)
      ensures t.inbox == old(t.inbox) + [packet] && t.addressed == old(t.addressed) + [packet]
    {
      hide Inv;
      ghost var before := View();
      assert before.ends[t] == t.View();
      ArrivedKeeps(before, t, packet);
      t.inbox := t.inbox + [packet];
      t.addressed := t.addressed + [packet];
      Updated(before, t);
    }

    // AfterFunc: the timer counts against the receiver's room until its callback has run.
    method Schedule(t: Transport, packet: Packet)
      requires Valid() && t in all && !t.closed && |t.inbox| + |t.timers| < INBOX_SIZE
      modifies this`armed, this`nextTimer, t`timers, t`addressed
      ensures Valid() && View() == Scheduled(old(View()), t, packet)
      ensures old(nextTimer) !in old(armed) && armed == old(armed)[old(nextTimer) := Delivery(t, packet)]
      ensures t.timers == old(t.timers) + {old(nextTimer)} && t.addressed == old(t.addressed) + [packet]
    {
      hide Inv;
      ghost var before := View();
      assert before.ends[t] == t.View();
      ScheduledKeeps(before, t, packet);
      FreshTimer(before);
      armed := armed[nextTimer := Delivery(t, packet)];
      t.timers := t.timers + {nextTimer};
      nextTimer := nextTimer + 1;
      t.addressed := t.addressed + [packet];
      Updated(before, t);
    }

    // Send: `lost` is the random draw.
    method Send(sender: Transport, to: string, data: seq<bv8>, lost: bool, latency: nat) returns (r: SendResult)
      requires Valid() && sender in all
      modifies this`armed, this`nextTimer, all`inbox, all`timers, all`addressed
      ensures Valid()
      ensures r == if |data| > MAX_DATAGRAM_SIZE then TooLarge else if old(sender.closed) then Closed else Accepted
      ensures View() ==
        if r.Accepted? then Sent(old(View()), sender.address, to, data, lost, latency) else old(View())
      ensures |data| <= 65507 && !old(sender.closed) && !lost ==>
        to in old(endpoints) && |old(endpoints[to].inbox)| + |old(endpoints[to].timers)| < 256 ==>
          var receiver, packet := old(endpoints)[to], Packet(sender.address, data);
          && receiver in all && receiver.addressed == old(endpoints[to].addressed) + [packet]
          && (forall t :: t in all && t != receiver ==>
            t.inbox == old(t.inbox) && t.timers == old(t.timers) && t.addressed == old(t.addressed))
          && if latency == 0 then
               && receiver.inbox == old(endpoints[to].inbox) + [packet]
               && receiver.timers == old(endpoints[to].timers) && armed == old(armed)
             else
               && receiver.inbox == old(endpoints[to].inbox)
               && exists k :: k !in old(armed) && armed == old(armed)[k := Delivery(receiver, packet)]
                              && receiver.timers == old(endpoints[to].timers) + {k}
      ensures
        |data| > 65507 || old(sender.closed) || lost || to !in old(endpoints)
        || |old(endpoints[to].inbox)| + |old(endpoints[to].timers)| >= 256 ==>
          && armed == old(armed) && forall t :: t in all ==>
            t.inbox == old(t.inbox) && t.timers == old(t.timers) && t.addressed == old(t.addressed)
    {
      hide Bounded, Timed, Recorded, Arrived, Scheduled;
      if |data| > MAX_DATAGRAM_SIZE {
        return TooLarge;
      }
      if sender.closed {
        return Closed;
      }
      if lost || to !in endpoints {
        return Accepted;
      }
      var receiver := endpoints[to];
      assert View().ends[receiver] == receiver.View();
      if |receiver.inbox| + |receiver.timers| >= INBOX_SIZE {
        return Accepted;
      }
      var packet := Packet(sender.address, data);
      if latency == 0 {
        Deliver(receiver, packet);
        return Accepted;
      }
      Schedule(receiver, packet);
      return Accepted;
    }

    // AfterFunc's callback.
    method Fire(timer: nat)
      requires Valid() && timer in armed
      modifies this`armed, armed[timer].receiver`inbox, armed[timer].receiver`timers
      ensures Valid()
      ensures View() == Fired(old(View()), timer)
      ensures var receiver := old(armed[timer].receiver);
        && armed == old(armed) - {timer} && receiver.timers == old(armed[timer].receiver.timers) - {timer}
        && receiver.inbox == if receiver.closed then old(armed[timer].receiver.inbox)
                             else old(armed[timer].receiver.inbox) + [old(armed[timer].packet)]
    {
      ghost var before := View();
      FiredKeeps(before, timer);
      FiredRoom(before, timer);
      AllArmedKnown(before);
      hide Inv, Bounded, Timed;
      var d := armed[timer];
      assert before.ends[d.receiver] == d.receiver.View();
      hide Registered, Recorded;
      armed := armed - {timer};
      RunCallback(d, timer);
      Updated(before, d.receiver);
    }

    // The callback's part at the receiver.
    method RunCallback(d: Delivery, timer: nat)
      requires !d.receiver.closed ==> |d.receiver.inbox| < INBOX_SIZE
      modifies d.receiver`inbox, d.receiver`timers
      ensures d.receiver.timers == old(d.receiver.timers) - {timer}
      ensures d.receiver.inbox == if d.receiver.closed then old(d.receiver.inbox) else old(d.receiver.inbox) + [d.packet]
    {
      d.receiver.timers := d.receiver.timers - {timer};
      if d.receiver.closed {
        return;
      }
      assert |d.receiver.inbox| < INBOX_SIZE;
      d.receiver.inbox := d.receiver.inbox + [d.packet];
    }

    method Receive(t: Transport) returns (p: Packet)
      requires Valid() && t in all && t.inbox != []
      modifies t`inbox
      ensures Valid() && p == old(t.inbox)[0] && p in t.addressed
      ensures View() == Taken(old(View()), t)
      ensures old(t.inbox) == [p] + t.inbox
    {
      hide Inv;
      ghost var before := View();
      TakenKeeps(before, t);
      assert before.ends[t] == t.View();
      p := t.inbox[0];
      t.inbox := t.inbox[1..];
      Updated(before, t);
    }

    method Close(t: Transport, waiting: set<nat>)
      requires Valid() && t in all
      modifies this`endpoints, this`armed, t`closed, t`timers
      ensures Valid() && t.closed
      ensures View() == Shut(old(View()), t, waiting)
      ensures old(t.closed) ==> endpoints == old(endpoints) && armed == old(armed) && t.timers == old(t.timers)
      ensures !old(t.closed) ==>
        && endpoints == old(endpoints) - {t.address} && t.timers == {}
        && armed == old(armed) - (old(t.timers) - waiting)
    {
      hide Inv;
      ghost var before := View();
      ShutKeeps(before, t, waiting);
      assert before.ends[t] == t.View();
      if t.closed {
        return;
      }
      t.closed := true;
      endpoints := endpoints - {t.address};
      armed := armed - (t.timers - waiting);
      t.timers := {};
      Updated(before, t);
    }
  }

  // A datagram that is not lost gets through: at once, or when its timer's callback has run.
  method SendAndReceive(n: Network, sender: Transport, receiver: Transport, data: seq<bv8>, latency: nat)
    returns (p: Packet)
    requires n.Valid() && sender in n.all && receiver in n.all && !sender.closed && !receiver.closed
    requires |data| <= 65507 && receiver.inbox == [] && |receiver.timers| < 256
    modifies n, n.all
    ensures n.Valid() && p == Packet(sender.address, data) && receiver.inbox == []
    ensures latency == 0 ==> receiver.timers == old(receiver.timers)
  {
    hide Registered, Bounded, Timed, Recorded, Sent, Fired, Taken;
    OpenIsRegistered(n.View(), receiver);
    assert n.View().ends[receiver] == receiver.View();
    ghost var before := n.armed;
    var r := n.Send(sender, receiver.address, data, false, latency);
    if latency > 0 {
      ghost var j :| j !in before && n.armed == before[j := Delivery(receiver, Packet(sender.address, data))];
      assert j in n.armed;
      var k :| k in n.armed && n.armed[k].receiver == receiver && n.armed[k].packet == Packet(sender.address, data);
      AllArmedKnown(n.View());
      n.Fire(k);
    }
    p := n.Receive(receiver);
  }

  lemma OpenIsRegistered(s: State, t: Transport)
    requires Registered(s) && t in s.ends && !s.ends[t].closed
    ensures t.address in s.endpoints && s.endpoints[t.address] == t
  {
  }

  // ------------------------------------------------------------------ whole runs

  // What happened to the network between two moments.
  ghost predicate Continues(s: State, t: State) {
    forall e :: e in s.ends ==> e in t.ends && EndContinues(s.ends[e], t.ends[e])
  }

  // A closed endpoint stays closed and gets nothing more; no record is ever forgotten.
  ghost predicate EndContinues(a: End, b: End) {
    && (a.closed ==> b.closed && b.addressed == a.addressed)
    && |a.addressed| <= |b.addressed| && b.addressed[..|a.addressed|] == a.addressed
  }

  lemma OthersContinue(s: State, k: nat, t: Transport, waiting: set<nat>)
    requires Inv(s)
    ensures Continues(s, s)
    ensures k in s.armed ==> Continues(s, Fired(s, k))
    ensures t !in s.ends ==> Continues(s, Opened(s, t))
    ensures t in s.ends ==> Continues(s, Shut(s, t, waiting)) && (s.ends[t].inbox != [] ==> Continues(s, Taken(s, t)))
  {
    hide Registered, Bounded, Recorded;
  }

  lemma SentContinues(s: State, from: string, to: string, data: seq<bv8>, lost: bool, latency: nat)
    requires Inv(s)
    ensures Continues(s, Sent(s, from, to, data, lost, latency))
  {
    hide Bounded, Timed, Recorded;
  }

  lemma ContinuesTrans(s: State, t: State, u: State)
    requires Continues(s, t) && Continues(t, u)
    ensures Continues(s, u)
  {
    forall e | e in s.ends ensures e in u.ends && EndContinues(s.ends[e], u.ends[e]) {
      assert EndContinues(s.ends[e], t.ends[e]) && EndContinues(t.ends[e], u.ends[e]);
      assert u.ends[e].addressed[..|s.ends[e].addressed|] ==
        u.ends[e].addressed[..|t.ends[e].addressed|][..|s.ends[e].addressed|];
    }
  }

  method AnyListen(n: Network, known: seq<Transport>, address: string) returns (more: seq<Transport>)
    requires n.Valid() && forall t :: t in known ==> t in n.all
    modifies n
    ensures n.Valid() && old(n.all) <= n.all && fresh(n.all - old(n.all))
    ensures forall t :: t in more ==> t in n.all
    ensures Continues(old(n.View()), n.View())
  {
    hide Continues, Opened, Inv;
    ghost var before := n.View();
    var r := n.Listen(address);
    if r.None? {
      Unmoved(before);
      return known;
    }
    OthersContinue(before, 0, r.value, {});
    return known + [r.value];
  }

  lemma Unmoved(s: State)
    ensures Continues(s, s)
  {
  }

  // Any one operation on any of the known endpoints, with any arguments.
  method AnyStep(n: Network, known: seq<Transport>) returns (more: seq<Transport>)
    requires n.Valid() && forall t :: t in known ==> t in n.all
    modifies n, n.all
    ensures n.Valid() && old(n.all) <= n.all && fresh(n.all - old(n.all))
    ensures forall t :: t in more ==> t in n.all
    ensures Continues(old(n.View()), n.View())
  {
    hide Continues, Opened, Fired, Shut, Taken, Sent, Registered, Bounded, Recorded, Timed;
    ghost var before := n.View();
    more := known;
    var address: string, data: seq<bv8>, lost: bool, latency: nat, waiting: set<nat> := *, *, *, *, *;
    if known == [] {
      more := AnyListen(n, known, address);
      return;
    }
    var i :| 0 <= i < |known|;
    var t := known[i];
    assert t in known;
    if {
      case true =>
        more := AnyListen(n, known, address);
      case true =>
        Unmoved(before);
        SentContinues(before, t.address, address, data, lost, latency);
        var r := n.Send(t, address, data, lost, latency);
      case t.inbox != [] =>
        OthersContinue(before, 0, t, waiting);
        assert before.ends[t] == t.View();
        var p := n.Receive(t);
      case true =>
        OthersContinue(before, 0, t, waiting);
        n.Close(t, waiting);
      case n.armed.Keys != {} =>
        var k :| k in n.armed.Keys;
        OthersContinue(before, k, t, waiting);
        AllArmedKnown(before);
        n.Fire(k);
    }
  }

  // No packet reaches an endpoint that replaced a closed one. Over every run, whatever is opened,
  // sent, delivered, received and closed in it, each inbox holds only packets that were accepted for
  // that very endpoint. A closed endpoint is sent nothing more, and one opened on its address starts
  // with an empty record.
  method NoCrossDelivery(n: Network, known: seq<Transport>, length: nat) returns (more: seq<Transport>)
    requires n.Valid() && forall t :: t in known ==> t in n.all
    modifies n, n.all
    ensures n.Valid() && old(n.all) <= n.all && fresh(n.all - old(n.all))
    ensures forall t, p :: t in n.all && p in t.inbox ==> p in t.addressed
    ensures Continues(old(n.View()), n.View())
  {
    hide Registered, Bounded, Timed;
    more := known;
    for i := 0 to length
      invariant n.Valid() && old(n.all) <= n.all && fresh(n.all - old(n.all))
      invariant forall t :: t in more ==> t in n.all
      invariant Continues(old(n.View()), n.View())
    {
      ghost var before := n.View();
      more := AnyStep(n, more);
      ContinuesTrans(old(n.View()), before, n.View());
    }
    forall t, p | t in n.all && p in t.inbox ensures p in t.addressed {
      assert n.View().ends[t] == t.View();
    }
  }
}
