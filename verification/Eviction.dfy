// Eviction probes as a protocol: src/kademlia/routing_maintenance.go, maintenance.go
// (observeContact, evictionLoop) and network.go (call). Every lock acquisition and channel
// operation is one atomic step, and the steps of all goroutines interleave freely.
module Eviction {
  import opened Wrappers
  import opened Ids
  import opened Nearest
  import opened Contacts
  import opened Buckets
  import opened Routing

  const QUEUE_SIZE := 256

  // The eviction worker between its lock acquisitions.
  datatype Worker = Idle | Taken(probe: Probe) | Stale(probe: Probe) | Pinging(probe: Probe)

  // An RPC in flight and the stamp it captured before its first request.
  datatype Call = Call(id: Id, version: nat)

  // held: probes returned by `observe` whose channel send has not happened yet.
  datatype Node = Node(
    table: Table, held: multiset<Probe>, queue: seq<Probe>, worker: Worker, calls: map<nat, Call>, closed: bool)

  datatype Step =
    | Observe(contact: Peer)
    | Seed(contact: Peer)
    | Send(probe: Probe)
    | GiveUp(probe: Probe)
    | Take
    | Check
    | FinishStale
    | FinishPing(timedOut: bool)
    | BeginCall(call: nat, id: Id)
    | EndCall(call: nat)
    | CallTimeout(call: nat)
    | Close

  function WorkerProbes(w: Worker): multiset<Probe> {
    if w.Idle? then multiset{} else multiset{w.probe}
  }

  lemma WorkerCounts(n: Node)
    requires !n.worker.Idle?
    ensures n.worker.probe in Outstanding(n)
  {
  }

  // Every probe not yet finished: held by an observer, queued, or with the worker.
  function Outstanding(n: Node): multiset<Probe> {
    n.held + multiset(n.queue) + WorkerProbes(n.worker)
  }

  ghost predicate Init(n: Node) {
    && TableInv(n.table)
    && (forall i :: 0 <= i < ID_BITS ==> !n.table.buckets[i].probing)
    && n.held == multiset{} && n.queue == [] && n.worker == Idle && n.calls == map[] && !n.closed
  }

  ghost predicate EachFlagged(t: Table, ps: multiset<Probe>)
    requires TableInv(t)
  {
    forall p :: p in ps ==> ps[p] == 1 && ProbeInv(t.me, p) && t.buckets[p.bucket].probing
  }

  ghost predicate OnePerBucket(ps: multiset<Probe>) {
    forall p, q :: p in ps && q in ps && p.bucket == q.bucket ==> p == q
  }

  ghost predicate FlagsExplained(t: Table, ps: multiset<Probe>)
    requires TableInv(t)
  {
    forall b :: 0 <= b < ID_BITS && t.buckets[b].probing ==> exists p :: p in ps && p.bucket == b
  }

  // At most one probe is outstanding per bucket, and the bucket's flag says exactly whether.
  ghost predicate ProbesInv(t: Table, ps: multiset<Probe>)
    requires TableInv(t)
  {
    EachFlagged(t, ps) && OnePerBucket(ps) && FlagsExplained(t, ps)
  }

  ghost predicate Safe(n: Node) {
    TableInv(n.table) && ProbesInv(n.table, Outstanding(n))
  }

  ghost predicate Next(n: Node, step: Step, m: Node)
    requires Safe(n)
  {
    match step
    case Observe(c) =>
      var (t, probe) := Observed(n.table, c);
      m == n.(table := t, held := if probe.Some? then n.held + multiset{probe.value} else n.held)
    case Seed(c) =>
      m == n.(table := Inserted(n.table, c))
    case Send(p) =>
      && p in n.held && |n.queue| < QUEUE_SIZE
      && m == n.(held := n.held - multiset{p}, queue := n.queue + [p])
    case GiveUp(p) =>
      && n.closed && p in n.held && p in Outstanding(n)
      && m == n.(held := n.held - multiset{p}, table := Finished(n.table, p, false))
    case Take =>
      && n.worker.Idle? && n.queue != []
      && m == n.(queue := n.queue[1..], worker := Taken(n.queue[0]))
    case Check =>
      && n.worker.Taken? && n.worker.probe in Outstanding(n)
      && m == n.(worker := if Current(n.table, n.worker.probe) then Pinging(n.worker.probe) else Stale(n.worker.probe))
    case FinishStale =>
      && n.worker.Stale? && n.worker.probe in Outstanding(n)
      && m == n.(worker := Idle, table := Finished(n.table, n.worker.probe, false))
    case FinishPing(timedOut) =>
      && n.worker.Pinging? && n.worker.probe in Outstanding(n)
      && m == n.(worker := Idle, table := Finished(n.table, n.worker.probe, timedOut))
    case BeginCall(k, id) =>
      && k !in n.calls
      && m == n.(calls := n.calls[k := Call(id, Stamp(BucketFor(n.table, id), id))])
    case EndCall(k) =>
      && k in n.calls && m == n.(calls := n.calls - {k})
    case CallTimeout(k) =>
      && k in n.calls
      && m == n.(calls := n.calls - {k}, table := Unresponsive(n.table, n.calls[k].id, n.calls[k].version))
    case Close =>
      m == n.(closed := true)
  }

  // ------------------------------------------------------------------ one probe per bucket

  lemma {:induction false} Pigeonhole(ps: multiset<Probe>, n: nat)
    requires forall p :: p in ps ==> ps[p] == 1 && p.bucket < n
    requires forall p, q :: p in ps && q in ps && p.bucket == q.bucket ==> p == q
    ensures |ps| <= n
  {
    if p :| p in ps && p.bucket == n - 1 {
      Pigeonhole(ps - multiset{p}, n - 1);
    } else if ps != multiset{} {
      var q :| q in ps;
      assert q.bucket < n - 1;
      Pigeonhole(ps, n - 1);
    }
  }

  // Probes held, queued and in the worker never number more than the buckets.
  lemma OutstandingBounded(n: Node)
    requires Safe(n)
    ensures |n.held| + |n.queue| + (if n.worker.Idle? then 0 else 1) <= ID_BITS
  {
    Pigeonhole(Outstanding(n), ID_BITS);
  }

  // Whoever holds a probe finds room in the eviction channel.
  lemma SendNeverBlocks(n: Node, p: Probe)
    requires Safe(n) && p in n.held
    ensures |n.queue| < QUEUE_SIZE
    ensures exists m :: Next(n, Send(p), m)
  {
    OutstandingBounded(n);
    assert Next(n, Send(p), n.(held := n.held - multiset{p}, queue := n.queue + [p]));
  }

  // ------------------------------------------------------------------ the invariant is kept

  lemma ProbeEnded(t: Table, ps: multiset<Probe>, p: Probe, timedOut: bool)
    requires TableInv(t) && ProbesInv(t, ps) && p in ps
    ensures TableInv(Finished(t, p, timedOut))
    ensures ProbesInv(Finished(t, p, timedOut), ps - multiset{p})
    ensures Finished(t, p, timedOut).me == t.me
  {
    FinishedKeeps(t, p, timedOut);
    ProbeRemoved(t, Finished(t, p, timedOut), ps, p);
  }

  // The tables around a finished or a started probe.
  ghost predicate FlagCleared(t: Table, u: Table, bucket: nat) {
    && TableInv(t) && TableInv(u) && u.me == t.me && |t.buckets| == |u.buckets| == ID_BITS
    && forall b :: 0 <= b < ID_BITS ==> u.buckets[b].probing == (t.buckets[b].probing && b != bucket)
  }

  lemma OthersFlagged(t: Table, u: Table, ps: multiset<Probe>, probe: Probe)
    requires FlagCleared(t, u, probe.bucket) && probe in ps && EachFlagged(t, ps) && OnePerBucket(ps)
    ensures EachFlagged(u, ps - multiset{probe}) && OnePerBucket(ps - multiset{probe})
  {
    hide TableInv, BucketOf;
    var qs := ps - multiset{probe};
    forall q | q in qs ensures q in ps && qs[q] == 1 && q.bucket != probe.bucket {
      assert q != probe;
    }
  }

  lemma FlagsLeft(t: Table, u: Table, ps: multiset<Probe>, probe: Probe)
    requires FlagCleared(t, u, probe.bucket) && probe in ps && FlagsExplained(t, ps)
    ensures FlagsExplained(u, ps - multiset{probe})
  {
    hide TableInv, BucketOf;
    var qs := ps - multiset{probe};
    forall b | 0 <= b < ID_BITS && u.buckets[b].probing ensures exists q :: q in qs && q.bucket == b {
      var q :| q in ps && q.bucket == b;
      assert q in qs;
    }
  }

  lemma ProbeRemoved(t: Table, u: Table, ps: multiset<Probe>, probe: Probe)
    requires FlagCleared(t, u, probe.bucket) && ProbesInv(t, ps) && probe in ps
    ensures ProbesInv(u, ps - multiset{probe})
  {
    hide TableInv, EachFlagged, OnePerBucket, FlagsExplained;
    OthersFlagged(t, u, ps, probe);
    FlagsLeft(t, u, ps, probe);
  }

  lemma ProbeStarted(t: Table, ps: multiset<Probe>, c: Peer)
    requires TableInv(t) && ProbesInv(t, ps)
    ensures var (u, probe) := Observed(t, c);
      TableInv(u) && u.me == t.me && ProbesInv(u, if probe.Some? then ps + multiset{probe.value} else ps)
  {
    hide Inv, Placed, Observed;
    ObservedKeeps(t, c);
    var (u, probe) := Observed(t, c);
    if probe.Some? {
      ProbeAdded(t, u, ps, probe.value);
    }
  }

  lemma NewFlagged(t: Table, u: Table, ps: multiset<Probe>, probe: Probe)
    requires TableInv(t) && TableInv(u) && u.me == t.me && EachFlagged(t, ps) && OnePerBucket(ps)
    requires ProbeInv(u.me, probe) && !t.buckets[probe.bucket].probing && u.buckets[probe.bucket].probing
    requires forall b :: 0 <= b < ID_BITS && t.buckets[b].probing ==> u.buckets[b].probing
    ensures EachFlagged(u, ps + multiset{probe}) && OnePerBucket(ps + multiset{probe})
  {
    hide TableInv, BucketOf;
    assert probe !in ps;
  }

  lemma FlagsAdded(t: Table, u: Table, ps: multiset<Probe>, probe: Probe)
    requires TableInv(t) && TableInv(u) && FlagsExplained(t, ps) && |t.buckets| == |u.buckets| == ID_BITS
    requires forall b :: 0 <= b < ID_BITS ==> u.buckets[b].probing == (t.buckets[b].probing || b == probe.bucket)
    ensures FlagsExplained(u, ps + multiset{probe})
  {
    hide TableInv, BucketOf;
    var qs := ps + multiset{probe};
    forall b | 0 <= b < ID_BITS && u.buckets[b].probing ensures exists q :: q in qs && q.bucket == b {
      if b == probe.bucket {
        assert probe in qs;
      } else {
        var q :| q in ps && q.bucket == b;
        assert q in qs;
      }
    }
  }

  lemma ProbeAdded(t: Table, u: Table, ps: multiset<Probe>, probe: Probe)
    requires TableInv(t) && ProbesInv(t, ps) && TableInv(u) && u.me == t.me
    requires ProbeInv(u.me, probe) && !t.buckets[probe.bucket].probing
    requires |t.buckets| == |u.buckets| == ID_BITS
    requires forall b :: 0 <= b < ID_BITS ==>
      u.buckets[b].probing == (t.buckets[b].probing || b == probe.bucket)
    ensures ProbesInv(u, ps + multiset{probe})
  {
    hide TableInv, BucketOf, EachFlagged, OnePerBucket, FlagsExplained;
    NewFlagged(t, u, ps, probe);
    FlagsAdded(t, u, ps, probe);
  }

  lemma InitInv(n: Node)
    requires Init(n)
    ensures Safe(n)
  {
  }

  lemma SendMoves(n: Node, p: Probe, m: Node)
    requires Safe(n) && Next(n, Send(p), m)
    ensures m.table == n.table && Outstanding(m) == Outstanding(n)
  {
    hide Safe;
    ProbeQueued(n.held, n.queue, p);
  }

  lemma TakeMoves(n: Node, m: Node)
    requires Safe(n) && Next(n, Take, m)
    ensures m.table == n.table && Outstanding(m) == Outstanding(n)
  {
    hide Safe;
    ProbeTaken(n.queue);
  }

  lemma CheckMoves(n: Node, m: Node)
    requires Safe(n) && Next(n, Check, m)
    ensures m.table == n.table && Outstanding(m) == Outstanding(n)
  {
    hide Safe, Current, BucketFor, Stamp, Outstanding;
    assert m.worker.probe == n.worker.probe && !m.worker.Idle?;
    SameProbe(n, m);
  }

  lemma SameProbe(n: Node, m: Node)
    requires m.held == n.held && m.queue == n.queue
    requires !n.worker.Idle? && !m.worker.Idle? && m.worker.probe == n.worker.probe
    ensures Outstanding(m) == Outstanding(n)
  {
  }

  lemma MoveInv(n: Node, step: Step, m: Node)
    requires Safe(n) && Next(n, step, m)
    requires step.Send? || step.Take? || step.Check? || step.BeginCall? || step.EndCall? || step.Close?
    ensures m.table == n.table && Outstanding(m) == Outstanding(n)
  {
    hide Safe, Stamp, Current, Observed, Finished, Inserted, Unresponsive, BucketFor;
    match step
    case Send(p) => SendMoves(n, p, m);
    case Take => TakeMoves(n, m);
    case Check => CheckMoves(n, m);
    case _ =>
  }

  lemma ProbeQueued(held: multiset<Probe>, queue: seq<Probe>, p: Probe)
    requires p in held
    ensures held - multiset{p} + multiset(queue + [p]) == held + multiset(queue)
  {
  }

  lemma ProbeTaken(queue: seq<Probe>)
    requires queue != []
    ensures multiset(queue) == multiset(queue[1..]) + multiset{queue[0]}
  {
    assert queue == [queue[0]] + queue[1..];
  }

  lemma FinishInv(n: Node, step: Step, m: Node)
    requires Safe(n) && Next(n, step, m)
    requires step.GiveUp? || step.FinishStale? || step.FinishPing?
    ensures Safe(m) && m.table.me == n.table.me
  {
    hide TableInv, ProbesInv, Observed, Finished, Inserted, Unresponsive, BucketFor, Stamp, Current;
    var p := if step.GiveUp? then step.probe else n.worker.probe;
    ProbeEnded(n.table, Outstanding(n), p, step.FinishPing? && step.timedOut);
    assert Outstanding(m) == Outstanding(n) - multiset{p};
  }

  lemma ObserveInv(n: Node, c: Peer, m: Node)
    requires Safe(n) && Next(n, Observe(c), m)
    ensures Safe(m) && m.table.me == n.table.me
  {
    hide TableInv, ProbesInv, Observed, Finished, Inserted, Unresponsive, BucketFor, Stamp, Current;
    ProbeStarted(n.table, Outstanding(n), c);
    var probe := Observed(n.table, c).1;
    assert Outstanding(m) == if probe.Some? then Outstanding(n) + multiset{probe.value} else Outstanding(n);
  }

  lemma FlagsKeepProbes(t: Table, u: Table, ps: multiset<Probe>)
    requires TableInv(t) && TableInv(u) && SameFlags(t, u) && ProbesInv(t, ps)
    ensures ProbesInv(u, ps)
  {
  }

  lemma NextInv(n: Node, step: Step, m: Node)
    requires Safe(n) && Next(n, step, m)
    ensures Safe(m)
    ensures m.table.me == n.table.me
  {
    hide TableInv, ProbesInv, Observed, Finished, Inserted, Unresponsive, BucketFor, Stamp, Current;
    match step
    case Observe(c) => ObserveInv(n, c, m);
    case GiveUp(_) => FinishInv(n, step, m);
    case FinishStale => FinishInv(n, step, m);
    case FinishPing(_) => FinishInv(n, step, m);
    case Seed(c) =>
      InsertedKeeps(n.table, c);
      FlagsKeepProbes(n.table, m.table, Outstanding(n));
    case CallTimeout(k) =>
      UnresponsiveKeeps(n.table, n.calls[k].id, n.calls[k].version);
      FlagsKeepProbes(n.table, m.table, Outstanding(n));
    case _ => MoveInv(n, step, m);
  }

  // ------------------------------------------------------------------ whole runs

  // A run: states joined by steps. A step is constrained in every state the run can be in.
  ghost predicate Run(states: seq<Node>, steps: seq<Step>) {
    && |states| == |steps| + 1
    && Init(states[0])
    && forall i :: 0 <= i < |steps| && Safe(states[i]) ==> Next(states[i], steps[i], states[i + 1])
  }

  lemma {:induction false} RunSafe(states: seq<Node>, steps: seq<Step>, n: nat)
    requires Run(states, steps) && n <= |steps|
    ensures Safe(states[n]) && states[n].table.me == states[0].table.me
  {
    if n == 0 {
      InitInv(states[0]);
    } else {
      RunSafe(states, steps, n - 1);
      NextInv(states[n - 1], steps[n - 1], states[n]);
    }
  }

  ghost function StampOf(n: Node, id: Id): nat
    requires Safe(n)
  {
    Stamp(BucketFor(n.table, id), id)
  }

  ghost function Counter(n: Node, id: Id): nat
    requires Safe(n)
  {
    BucketFor(n.table, id).version
  }

  ghost predicate HeardFrom(step: Step, id: Id) {
    (step.Observe? || step.Seed?) && step.contact.id == id
  }

  lemma StampBelowCounter(n: Node, id: Id)
    requires Safe(n)
    ensures StampOf(n, id) <= Counter(n, id)
  {
  }

  lemma AddStamps(t: Table, u: Table, c: Peer, id: Id)
    requires TableInv(t) && TableInv(u) && c.id != t.me
    requires u == Put(t, BucketOf(t.me, c.id), Added(BucketFor(t, c.id), c))
    ensures BucketFor(u, id).version >= BucketFor(t, id).version
    ensures Stamp(BucketFor(u, id), id) == Stamp(BucketFor(t, id), id)
      || Stamp(BucketFor(u, id), id) > BucketFor(t, id).version
    ensures c.id == id && Stamp(BucketFor(t, id), id) > 0 ==>
      Stamp(BucketFor(u, id), id) > BucketFor(t, id).version
  {
    AddedStamps(BucketFor(t, c.id), c);
  }

  lemma FinishStamps(t: Table, p: Probe, timedOut: bool, id: Id)
    requires TableInv(t) && ProbeInv(t.me, p) && TableInv(Finished(t, p, timedOut))
    ensures var u := Finished(t, p, timedOut);
      && BucketFor(u, id).version >= BucketFor(t, id).version
      && (Stamp(BucketFor(u, id), id) == Stamp(BucketFor(t, id), id)
          || Stamp(BucketFor(u, id), id) > BucketFor(t, id).version
          || (Stamp(BucketFor(u, id), id) == 0 && timedOut && id == p.oldPeer.id
              && Stamp(BucketFor(t, id), id) == p.version))
  {
    var b := t.buckets[p.bucket].(probing := false);
    FlagKeepsInv(t.buckets[p.bucket], false, b.lastLookup);
    RemovedKeepsInv(b, p.oldPeer.id);
    RemovedStamps(b, p.oldPeer.id);
    AddedStamps(b, p.replacement);
    AddedStamps(Removed(b, p.oldPeer.id), p.replacement);
  }

  // A probe that ends never unlinks any contact but the one it was sent to.
  lemma OnlyOldEvicted(t: Table, p: Probe, timedOut: bool, id: Id)
    requires TableInv(t) && ProbeInv(t.me, p) && id != p.oldPeer.id
    requires Stamp(BucketFor(t, id), id) > 0
    ensures TableInv(Finished(t, p, timedOut))
    ensures Stamp(BucketFor(Finished(t, p, timedOut), id), id) > 0
  {
    FinishedKeeps(t, p, timedOut);
    FinishStamps(t, p, timedOut, id);
  }

  lemma DropStamps(t: Table, id: Id, version: nat, x: Id)
    requires TableInv(t) && TableInv(Unresponsive(t, id, version))
    ensures var u := Unresponsive(t, id, version);
      && BucketFor(u, x).version == BucketFor(t, x).version
      && (Stamp(BucketFor(u, x), x) == Stamp(BucketFor(t, x), x)
          || (Stamp(BucketFor(u, x), x) == 0 && x == id && Stamp(BucketFor(t, x), x) == version))
  {
    RemovedStamps(BucketFor(t, id), id);
  }

  // The two steps that can unlink `id`: a timeout of a call or of a probe whose stamp is current.
  ghost predicate Evicts(n: Node, step: Step, id: Id)
    requires Safe(n)
  {
    || (step.CallTimeout? && step.call in n.calls && n.calls[step.call] == Call(id, StampOf(n, id)))
    || (step == FinishPing(true) && n.worker.Pinging? && n.worker.probe.oldPeer.id == id
        && n.worker.probe.version == StampOf(n, id))
  }

  // One step leaves a stamp alone, replaces it by one above the counter, or evicts.
  lemma StepStamps(n: Node, step: Step, m: Node, id: Id)
    requires Safe(n) && Safe(m) && Next(n, step, m)
    ensures Counter(m, id) >= Counter(n, id)
    ensures StampOf(m, id) == StampOf(n, id) || StampOf(m, id) > Counter(n, id)
      || (StampOf(m, id) == 0 && Evicts(n, step, id))
    ensures HeardFrom(step, id) && StampOf(n, id) > 0 ==> StampOf(m, id) > Counter(n, id)
  {
    hide TableInv, ProbesInv, Finished, Unresponsive, BucketOf;
    match step
    case Observe(c) =>
      if c.id != n.table.me && Fits(BucketFor(n.table, c.id), c.id) {
        AddStamps(n.table, m.table, c, id);
      } else {
        ObserveFull(n.table, c, id);
      }
    case Seed(c) =>
      if c.id != n.table.me {
        AddStamps(n.table, m.table, c, id);
      } else {
        SelfUnstamped(n.table);
      }
    case GiveUp(p) => ProbeValid(n, p); FinishStamps(n.table, p, false, id);
    case FinishStale => ProbeValid(n, n.worker.probe); FinishStamps(n.table, n.worker.probe, false, id);
    case FinishPing(timedOut) =>
      ProbeValid(n, n.worker.probe);
      FinishStamps(n.table, n.worker.probe, timedOut, id);
    case CallTimeout(k) => DropStamps(n.table, n.calls[k].id, n.calls[k].version, id);
    case _ =>
  }

  lemma ProbeValid(n: Node, p: Probe)
    requires Safe(n) && p in Outstanding(n)
    ensures ProbeInv(n.table.me, p)
  {
  }

  lemma SelfUnstamped(t: Table)
    requires TableInv(t)
    ensures Stamp(BucketFor(t, t.me), t.me) == 0
  {
    if Stamp(BucketFor(t, t.me), t.me) > 0 {
      StampedKnown(t, t.me);
      KnownIsStamped(t, t.me);
    }
  }

  // An observation that finds self or a full bucket changes no stamp.
  lemma ObserveFull(t: Table, c: Peer, id: Id)
    requires TableInv(t) && (c.id == t.me || !Fits(BucketFor(t, c.id), c.id))
    ensures TableInv(Observed(t, c).0)
    ensures BucketFor(Observed(t, c).0, id).version == BucketFor(t, id).version
    ensures Stamp(BucketFor(Observed(t, c).0, id), id) == Stamp(BucketFor(t, id), id)
    ensures Stamp(BucketFor(t, c.id), c.id) == 0
  {
    ObservedKeeps(t, c);
    if c.id == t.me {
      SelfUnstamped(t);
    }
  }

  // Once a stamp has been replaced or dropped it never comes back, so comparing stamps
  // detects every communication in between.
  lemma {:induction false} NoReturn(states: seq<Node>, steps: seq<Step>, l: nat, n: nat, id: Id, v: nat)
    requires Run(states, steps) && l <= n <= |steps| && v > 0
    requires Safe(states[l]) && Counter(states[l], id) >= v && StampOf(states[l], id) != v
    ensures Safe(states[n]) && Counter(states[n], id) >= v && StampOf(states[n], id) != v
    decreases n - l
  {
    hide Next, Init, Safe, StampOf, Counter, HeardFrom, Evicts;
    if l < n {
      RunSafe(states, steps, l + 1);
      StepStamps(states[l], steps[l], states[l + 1], id);
      NoReturn(states, steps, l + 1, n, id, v);
    }
  }

  lemma {:induction false} CounterGrows(states: seq<Node>, steps: seq<Step>, m: nat, l: nat, id: Id)
    requires Run(states, steps) && m <= l <= |steps|
    ensures Safe(states[m]) && Safe(states[l])
    ensures Counter(states[m], id) <= Counter(states[l], id)
  {
    hide Next, Init, Safe, StampOf, Counter, HeardFrom, Evicts;
    RunSafe(states, steps, m);
    RunSafe(states, steps, l);
    if m < l {
      CounterGrows(states, steps, m, l - 1, id);
      StepStamps(states[l - 1], steps[l - 1], states[l], id);
    }
  }

  // Equal stamps at two moments of a run mean no accepted communication between them.
  lemma EqualStampsMeanSilence(states: seq<Node>, steps: seq<Step>, m: nat, l: nat, n: nat, id: Id)
    requires Run(states, steps) && m <= l <= n <= |steps|
    requires Safe(states[m]) && Safe(states[l]) && Safe(states[n])
    requires StampOf(states[m], id) == StampOf(states[n], id) > 0
    ensures StampOf(states[l], id) == StampOf(states[m], id)
    ensures l < n ==> !HeardFrom(steps[l], id)
  {
    var v := StampOf(states[m], id);
    CounterGrows(states, steps, m, l, id);
    StampBelowCounter(states[m], id);
    if StampOf(states[l], id) != v {
      NoReturn(states, steps, l, n, id, v);
    } else if l < n && HeardFrom(steps[l], id) {
      RunSafe(states, steps, l + 1);
      StepStamps(states[l], steps[l], states[l + 1], id);
      CounterGrows(states, steps, m, l + 1, id);
      NoReturn(states, steps, l + 1, n, id, v);
    }
  }

  // ------------------------------------------------------------------ where stamps were captured

  ghost predicate CallBegan(states: seq<Node>, steps: seq<Step>, m: nat, k: nat, call: Call) {
    && m < |steps| < |states| && Safe(states[m])
    && steps[m] == BeginCall(k, call.id) && call.version == StampOf(states[m], call.id)
  }

  ghost predicate ProbeBegan(states: seq<Node>, steps: seq<Step>, m: nat, p: Probe) {
    && m < |steps| < |states| && Safe(states[m])
    && steps[m].Observe? && Observed(states[m].table, steps[m].contact).1 == Some(p)
  }

  // A call in flight was in flight before, or has just begun.
  lemma StepCalls(n: Node, step: Step, m: Node, k: nat)
    requires Safe(n) && Next(n, step, m) && k in m.calls
    ensures (k in n.calls && m.calls[k] == n.calls[k])
      || (step == BeginCall(k, m.calls[k].id) && m.calls[k].version == StampOf(n, m.calls[k].id))
  {
    hide TableInv, ProbesInv, Observed, Finished, Inserted, Unresponsive, Current, Outstanding;
  }

  lemma {:induction false} CallCaptured(states: seq<Node>, steps: seq<Step>, n: nat, k: nat)
    requires Run(states, steps) && n <= |steps| && k in states[n].calls
    ensures exists m :: 0 <= m < n && CallBegan(states, steps, m, k, states[n].calls[k])
    decreases n
  {
    hide Safe, TableInv, ProbesInv, Observed, Finished, Inserted, Unresponsive, BucketFor, Stamp, Current, Outstanding;
    if n > 0 {
      RunSafe(states, steps, n - 1);
      var before, after := states[n - 1], states[n];
      StepCalls(before, steps[n - 1], after, k);
      hide Next;
      if k in before.calls && after.calls[k] == before.calls[k] {
        CallCaptured(states, steps, n - 1, k);
        var m :| 0 <= m < n - 1 && CallBegan(states, steps, m, k, before.calls[k]);
      } else {
        assert CallBegan(states, steps, n - 1, k, after.calls[k]);
      }
    }
  }

  lemma StepProbes(n: Node, step: Step, m: Node, p: Probe)
    requires Safe(n) && Next(n, step, m) && p in Outstanding(m) && p !in Outstanding(n)
    ensures step.Observe? && Observed(n.table, step.contact).1 == Some(p)
  {
    hide TableInv, ProbesInv, Observed, Finished, Inserted, Unresponsive, BucketFor, Stamp, Current;
    if step.Send? || step.Take? || step.Check? || step.BeginCall? || step.EndCall? || step.Close? {
      MoveInv(n, step, m);
    }
  }

  lemma NothingOutstanding(n: Node)
    requires Init(n)
    ensures Outstanding(n) == multiset{}
  {
  }

  lemma {:induction false} ProbeCaptured(states: seq<Node>, steps: seq<Step>, n: nat, p: Probe)
    requires Run(states, steps) && n <= |steps| && p in Outstanding(states[n])
    ensures exists m :: 0 <= m < n && ProbeBegan(states, steps, m, p)
    decreases n
  {
    hide Next, Outstanding, TableInv, ProbesInv;
    if n == 0 {
      NothingOutstanding(states[0]);
    } else {
      RunSafe(states, steps, n - 1);
      if p in Outstanding(states[n - 1]) {
        ProbeCaptured(states, steps, n - 1, p);
        var m :| 0 <= m < n - 1 && ProbeBegan(states, steps, m, p);
      } else {
        StepProbes(states[n - 1], steps[n - 1], states[n], p);
        assert ProbeBegan(states, steps, n - 1, p);
      }
    }
  }

  // The timeout at step n was started at step m, for `id`.
  ghost predicate AskedAt(states: seq<Node>, steps: seq<Step>, m: nat, n: nat, id: Id) {
    && m < n < |steps| < |states|
    && ((steps[n].CallTimeout? && steps[m] == BeginCall(steps[n].call, id))
        || (steps[n] == FinishPing(true) && states[n].worker.Pinging?
            && states[n].worker.probe.oldPeer.id == id && ProbeBegan(states, steps, m, states[n].worker.probe)))
  }

  ghost predicate SilentFrom(steps: seq<Step>, m: nat, n: nat, id: Id) {
    forall l :: m <= l < n && l < |steps| ==> !HeardFrom(steps[l], id)
  }

  // Over any run, a contact leaves the table only by a timeout that was started at some earlier
  // step m, and from m on nothing was heard from that contact.
  lemma EvictedOnlyAfterSilence(states: seq<Node>, steps: seq<Step>, n: nat, id: Id)
    requires Run(states, steps) && n < |steps|
    requires Safe(states[n]) && Safe(states[n + 1])
    requires StampOf(states[n], id) > 0 && StampOf(states[n + 1], id) == 0
    ensures exists m :: AskedAt(states, steps, m, n, id) && SilentFrom(steps, m, n, id)
  {
    hide Safe, Next, Init, StampOf, Counter, HeardFrom, Observed, Outstanding;
    StepStamps(states[n], steps[n], states[n + 1], id);
    StampBelowCounter(states[n], id);
    var m: nat;
    if steps[n].CallTimeout? {
      CallCaptured(states, steps, n, steps[n].call);
      m :| 0 <= m < n && CallBegan(states, steps, m, steps[n].call, states[n].calls[steps[n].call]);
    } else {
      var p := states[n].worker.probe;
      assert p in Outstanding(states[n]) by {
        WorkerCounts(states[n]);
      }
      ProbeCaptured(states, steps, n, p);
      m :| 0 <= m < n && ProbeBegan(states, steps, m, p);
      ProbeStampCaptured(states[m], steps[m].contact, p);
    }
    assert AskedAt(states, steps, m, n, id);
    forall l | m <= l < n ensures !HeardFrom(steps[l], id) {
      RunSafe(states, steps, l);
      EqualStampsMeanSilence(states, steps, m, l, n, id);
    }
  }

  lemma ProbeStampCaptured(n: Node, c: Peer, p: Probe)
    requires Safe(n) && Observed(n.table, c).1 == Some(p)
    ensures p.version == StampOf(n, p.oldPeer.id)
  {
    ObservedKeeps(n.table, c);
  }
}
