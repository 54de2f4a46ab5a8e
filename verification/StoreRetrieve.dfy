// src/kademlia/store.go and lookup_data.go: publishing a value on the nodes nearest to its hash
// and finding it again from anywhere.
module StoreRetrieve {
  import opened Wrappers
  import opened Ids
  import opened Nearest
  import opened Contacts
  import opened FindRpc
  import opened Handlers
  import opened Lookup
  import opened ExactLookup

  // The local values of every node.
  type Stores = map<Id, map<Id, Bytes>>

  datatype StoreOutcome = Stored | RejectedSize | StoppedEarly | Partial(acknowledged: nat, targets: nat)

  // What becomes of one STORE request and its acknowledgment.
  datatype Delivery = Lost | Unacknowledged | Acknowledged

  // A write to this target succeeds: here, or at a node that gets and acknowledges it.
  predicate Writable(nodes: set<Id>, self: Id, target: Id, deliver: Id -> Delivery) {
    target == self || (target in nodes && deliver(target).Acknowledged?)
  }

  function Reached(nodes: set<Id>, self: Id, targets: seq<Peer>, deliver: Id -> Delivery): nat {
    if targets == [] then 0
    else
      Reached(nodes, self, targets[..|targets| - 1], deliver) +
      if Writable(nodes, self, targets[|targets| - 1].id, deliver) then 1 else 0
  }

  // Workers that find the node stopped do not write.
  predicate Counted(mayStop: bool, acknowledged: nat, reached: nat) {
    acknowledged <= reached && (!mayStop ==> acknowledged == reached)
  }

  ghost predicate AllWritable(nodes: set<Id>, self: Id, peers: seq<Peer>, deliver: Id -> Delivery) {
    forall id :: id in Elems(PeerIds(peers)) ==> Writable(nodes, self, id, deliver)
  }

  predicate Storable(q: Query, data: Bytes) {
    |data| <= q.env.cfg.maxValueSize && q.env.digest(data) == q.target
  }

  datatype Retrieval = Retrieved(data: Bytes, source: Peer) | LocalMismatch | Unsuccessful(result: LookupResult)

  ghost predicate Holds(stores: Stores, id: Id, key: Id, data: Bytes) {
    id in stores && key in stores[id] && stores[id][key] == data
  }

  ghost predicate GoodStores(stores: Stores, env: Env) {
    forall id :: id in stores ==> ContentAddressed(env.digest, env.cfg.maxValueSize, stores[id])
  }

  function With(values: map<Id, Bytes>, key: Id, data: Bytes): map<Id, Bytes> {
    values[key := data]
  }

  // Every store is as before, or has gained this one value.
  ghost predicate Grown(before: Stores, after: Stores, key: Id, data: Bytes) {
    && after.Keys == before.Keys
    && forall id :: id in before ==> after[id] == before[id] || after[id] == With(before[id], key, data)
  }

  // Nodes outside these are not written to.
  ghost predicate OthersKept(before: Stores, after: Stores, ids: set<Id>) {
    forall id :: id in before && id !in ids ==> id in after && after[id] == before[id]
  }

  lemma KeptTwice(a: Stores, b: Stores, c: Stores, ids: set<Id>)
    requires OthersKept(a, b, ids) && OthersKept(b, c, ids)
    ensures OthersKept(a, c, ids)
  {
  }

  lemma KeptNone(a: Stores, ids: set<Id>)
    ensures OthersKept(a, a, ids)
  {
  }

  lemma KeptBut(a: Stores, b: Stores, targets: seq<Peer>, n: nat)
    requires n < |targets| && forall id :: id in a && id != targets[n].id ==> id in b && b[id] == a[id]
    ensures OthersKept(a, b, Elems(PeerIds(targets)))
  {
    assert PeerIds(targets)[n] == targets[n].id;
  }

  // Every other node answers from its store and a well-filled table.
  ghost predicate Answers(q: Query, w: World, stores: Stores) {
    forall x :: x in w.nodes - {q.env.me} ==> x in stores && exists list :: AnswersWith(q, w, stores, x, list)
  }

  ghost predicate AnswersWith(q: Query, w: World, stores: Stores, x: Id, list: seq<Peer>)
    requires x in stores
  {
    && GoodList(w, list, x, q.env.me, q.target, q.env.cfg.k)
    && if q.findValue then q.env.valueReply(PeerOf(w, x)) == Some(ValueAnswer(stores[x], q.target, list))
       else q.env.nodeReply(PeerOf(w, x)) == Some(NodeResponse(Some(WireList(list))))
  }

  // The setting of the end-to-end theorem for one node's query.
  ghost predicate Healthy(q: Query, w: World, stores: Stores) {
    && Proper(q) && ValidWorld(w, q.env.net) && q.env.me in w.nodes
    && SeededFrom(q, w) && GoodStores(stores, q.env) && Answers(q, w, stores)
  }

  // ------------------------------------------------------------------ honest answers

  lemma GoodListDecodes(w: World, q: Query, list: seq<Peer>, x: Id)
    requires ValidWorld(w, q.env.net) && GoodList(w, list, x, q.env.me, q.target, q.env.cfg.k)
    ensures Distinct(list) && |list| <= q.env.cfg.k
    ensures forall i :: 0 <= i < |list| ==> Valid(q.env.net, list[i]) && list[i].id != q.env.me
  {
    GoodListNodes(w, list, x, q.env.me, q.target, q.env.cfg.k);
    var known :| WellFilled(w.nodes, known, x, q.env.me, q.env.cfg.k)
      && IsNearestList(PeerIds(list), known - {q.env.me}, q.target, q.env.cfg.k);
    NearestListSize(PeerIds(list), known - {q.env.me}, q.target, q.env.cfg.k);
    ListDistinct(list, q.target);
    forall i | 0 <= i < |list| ensures Valid(q.env.net, list[i]) && list[i].id != q.env.me {
      assert list[i] in list;
    }
  }

  // A node that holds the value answers with it; the others name good contacts.
  lemma AnswerOutcome(q: Query, w: World, stores: Stores, x: Id)
    requires ValidWorld(w, q.env.net) && GoodStores(stores, q.env) && Answers(q, w, stores)
    requires x in w.nodes - {q.env.me}
    ensures HonestAt(q, w, x)
    ensures q.findValue && q.target in stores[x] ==> OutcomeOf(q, PeerOf(w, x)) == Found(stores[x][q.target])
    ensures !(q.findValue && q.target in stores[x]) ==> OutcomeOf(q, PeerOf(w, x)).Reported?
  {
    var list :| AnswersWith(q, w, stores, x, list);
    GoodListDecodes(w, q, list, x);
    hide Dist, ValidWorld, FirstSeen;
    if q.findValue {
      ValueRoundTrip(q.env, stores[x], q.target, list);
    } else {
      NodeRoundTrip(q.env, list);
    }
  }

  lemma AnswersAreHonest(q: Query, w: World, stores: Stores)
    requires ValidWorld(w, q.env.net) && GoodStores(stores, q.env) && Answers(q, w, stores)
    ensures HonestNetwork(q, w)
  {
    forall x | x in w.nodes - {q.env.me} ensures HonestAt(q, w, x) {
      AnswerOutcome(q, w, stores, x);
    }
  }

  // ------------------------------------------------------------------ the end-to-end argument

  // The nearest nodes of the whole network hold the value after a completed store.
  ghost predicate Published(w: World, stores: Stores, key: Id, data: Bytes, k: nat) {
    forall id :: id in Top(w.nodes, key, k) ==> Holds(stores, id, key, data)
  }

  // Writing to the k nearest among the lookup's result and the writer reaches the k nearest nodes.
  lemma TargetsAreNearest(q: Query, w: World, stores: Stores, r: LookupResult, log: seq<Peer>, contacts: seq<Peer>)
    requires Healthy(q, w, stores) && !q.findValue
    requires Concluded(q, r, log) && (r == Closest(contacts) || (r.NoReachableContacts? && contacts == []))
    ensures r == Closest(contacts)
    ensures Top(Elems(PeerIds(contacts)) + {q.env.me}, q.target, q.env.cfg.k) == Top(w.nodes, q.target, q.env.cfg.k)
  {
    AnswersAreHonest(q, w, stores);
    LookupIsExact(q, w, r, log);
    TopRestored(w.nodes, q.target, q.env.cfg.k, q.env.me);
  }

  // A reader without the value cannot miss it: were every probed node without it, the result would
  // be the k nearest other nodes, which are the k nearest of all nodes and hold it.
  lemma ReaderFinds(q: Query, w: World, stores: Stores, data: Bytes, r: LookupResult, log: seq<Peer>)
    requires Healthy(q, w, stores) && q.findValue
    requires Published(w, stores, q.target, data, q.env.cfg.k)
    requires q.env.me !in stores || q.target !in stores[q.env.me]
    requires Concluded(q, r, log) && r != Stopped
    ensures r.Value? && q.env.digest(r.data) == q.target
  {
    AnswersAreHonest(q, w, stores);
    hide Dist, Traced, ValidWorld, Answers, HonestAt;
    if r.NoReachableContacts? {
      LiveIsPool(q, w, log);
    } else if r.ValueNotFound? {
      var cs: seq<Peer> :| Fixpoint(q, cs, log);
      LiveIsNearest(q, w, cs, log);
      assert q.env.me !in Top(w.nodes, q.target, q.env.cfg.k);
      TopWithout(w.nodes, q.target, q.env.cfg.k, q.env.me);
      var p: Peer := cs[0];
      assert p in cs && PeerIds(cs)[0] == p.id && p.id in Elems(PeerIds(cs));
      assert Holds(stores, p.id, q.target, data);
      AnswerOutcome(q, w, stores, p.id);
    }
  }

  lemma StillHeld(before: Stores, after: Stores, key: Id, data: Bytes)
    requires Grown(before, after, key, data)
    ensures forall id :: Holds(before, id, key, data) ==> Holds(after, id, key, data)
  {
  }

  lemma GrownNone(stores: Stores, key: Id, data: Bytes)
    ensures Grown(stores, stores, key, data)
  {
  }

  lemma GrownKeys(before: Stores, after: Stores, key: Id, data: Bytes)
    requires Grown(before, after, key, data)
    ensures after.Keys == before.Keys
  {
  }

  lemma GrownTwice(a: Stores, b: Stores, c: Stores, key: Id, data: Bytes)
    requires Grown(a, b, key, data) && Grown(b, c, key, data)
    ensures Grown(a, c, key, data)
  {
  }

  // ------------------------------------------------------------------ the operations

  class Cluster {
    var stores: Stores

    constructor (stores: Stores)
      ensures this.stores == stores
    {
      this.stores := stores;
    }

    // datastore.go, put, at one node.
    method Put(env: Env, node: Id, key: Id, data: Bytes) returns (e: Option<StoreError>)
      requires node in stores && GoodStores(stores, env)
      modifies this
      ensures GoodStores(stores, env) && Grown(old(stores), stores, key, data)
      ensures e == PutError(env.digest, env.cfg.maxValueSize, key, data)
      ensures stores == if e.None? then old(stores)[node := With(old(stores)[node], key, data)] else old(stores)
    {
      e := PutError(env.digest, env.cfg.maxValueSize, key, data);
      if e.None? {
        stores := stores[node := With(stores[node], key, data)];
      }
    }

    // One STORE call. A positive acknowledgment means the receiver's put succeeded.
    method SendStore(env: Env, target: Id, key: Id, data: Bytes, delivery: Delivery) returns (acknowledged: bool)
      requires GoodStores(stores, env)
      modifies this
      ensures GoodStores(stores, env) && Grown(old(stores), stores, key, data)
      ensures forall id :: id in stores && id != target ==> stores[id] == old(stores)[id]
      ensures acknowledged ==> Holds(stores, target, key, data)
      ensures acknowledged <==>
        target in stores && delivery.Acknowledged? && PutError(env.digest, env.cfg.maxValueSize, key, data).None?
      ensures delivery.Lost? ==> stores == old(stores)
    {
      acknowledged := false;
      if target in stores && !delivery.Lost? {
        var e := Put(env, target, key, data);
        acknowledged := e.None? && delivery.Acknowledged?;
      }
    }

    // One worker of a batch: the local store or a STORE call.
    method WriteOne(q: Query, self: Id, target: Id, data: Bytes, deliver: Id -> Delivery) returns (ok: bool)
      requires GoodStores(stores, q.env) && self in stores && Storable(q, data)
      modifies this
      ensures GoodStores(stores, q.env) && Grown(old(stores), stores, q.target, data)
      ensures ok ==> Holds(stores, target, q.target, data) && Writable(stores.Keys, self, target, deliver)
      ensures !q.mayStop ==> (ok <==> Writable(stores.Keys, self, target, deliver))
      ensures forall id :: id in old(stores) && id != target ==> id in stores && stores[id] == old(stores)[id]
    {
      if q.mayStop {
        if * {
          return false;
        }
      }
      if target == self {
        var e := Put(q.env, self, q.target, data);
        ok := e.None?;
      } else {
        ok := SendStore(q.env, target, q.target, data, deliver(target));
      }
    }

    ghost predicate Written(targets: seq<Peer>, n: nat, key: Id, data: Bytes)
      requires n <= |targets|
      reads this
    {
      forall i :: 0 <= i < n ==> Holds(stores, targets[i].id, key, data)
    }

    // store.go: batches of at most alpha targets until one batch finds the node stopped. Without
    // interruption the counts are those of the targets that acknowledge and of the others.
    method WriteTargets(q: Query, self: Id, targets: seq<Peer>, data: Bytes, deliver: Id -> Delivery)
      returns (acknowledged: nat, failures: nat)
      requires q.env.cfg.alpha >= 1 && GoodStores(stores, q.env)
      requires self in stores && Storable(q, data)
      modifies this
      ensures GoodStores(stores, q.env) && Grown(old(stores), stores, q.target, data)
      ensures OthersKept(old(stores), stores, Elems(PeerIds(targets)))
      ensures failures == 0 ==> Written(targets, |targets|, q.target, data)
      ensures failures == 0 <==> acknowledged == |targets|
      ensures Counted(q.mayStop, acknowledged, Reached(stores.Keys, self, targets, deliver))
      ensures !q.mayStop ==> acknowledged + failures == |targets|
    {
      hide Dist, GoodStores, Writable, Grown, OthersKept;
      KeptNone(stores, Elems(PeerIds(targets)));
      acknowledged, failures := 0, 0;
      var start := 0;
      assert targets[..0] == [];
      GrownNone(stores, q.target, data);
      while start < |targets|
        invariant GoodStores(stores, q.env) && Grown(old(stores), stores, q.target, data)
        invariant start <= |targets| && acknowledged + failures == start
        invariant failures == 0 ==> Written(targets, start, q.target, data)
        invariant Counted(q.mayStop, acknowledged, Reached(stores.Keys, self, targets[..start], deliver))
        invariant stores.Keys == old(stores.Keys) && OthersKept(old(stores), stores, Elems(PeerIds(targets)))
      {
        if q.mayStop {
          if * {
            failures := failures + 1;
            ReachedGrows(stores.Keys, self, targets, start, deliver);
            return;
          }
        }
        var end := Min(start + q.env.cfg.alpha, |targets|);
        ghost var before := stores;
        acknowledged, failures := WriteBatch(q, self, targets, start, end, data, deliver, acknowledged, failures);
        GrownTwice(old(stores), before, stores, q.target, data);
        KeptTwice(old(stores), before, stores, Elems(PeerIds(targets)));
        start := end;
      }
      assert targets[..|targets|] == targets;
    }

    // One batch of workers.
    method WriteBatch(
      q: Query, self: Id, targets: seq<Peer>, start: nat, end: nat, data: Bytes, deliver: Id -> Delivery, done: nat, missed: nat)
      returns (acknowledged: nat, failures: nat)
      requires GoodStores(stores, q.env) && self in stores && Storable(q, data)
      requires start <= end <= |targets| && done + missed == start
      requires missed == 0 ==> Written(targets, start, q.target, data)
      requires Counted(q.mayStop, done, Reached(stores.Keys, self, targets[..start], deliver))
      modifies this
      ensures GoodStores(stores, q.env) && Grown(old(stores), stores, q.target, data) && stores.Keys == old(stores.Keys)
      ensures OthersKept(old(stores), stores, Elems(PeerIds(targets)))
      ensures acknowledged + failures == end
      ensures failures == 0 ==> Written(targets, end, q.target, data)
      ensures Counted(q.mayStop, acknowledged, Reached(stores.Keys, self, targets[..end], deliver))
    {
      hide Dist, GoodStores, Writable, Grown, Storable, Reached, PutError, OthersKept, PeerIds, Elems;
      KeptNone(stores, Elems(PeerIds(targets)));
      acknowledged, failures := done, missed;
      ghost var nodes := stores.Keys;
      GrownNone(stores, q.target, data);
      for n := start to end
        invariant GoodStores(stores, q.env) && Grown(old(stores), stores, q.target, data) && stores.Keys == nodes
        invariant OthersKept(old(stores), stores, Elems(PeerIds(targets)))
        invariant acknowledged + failures == n
        invariant failures == 0 ==> Written(targets, n, q.target, data)
        invariant Counted(q.mayStop, acknowledged, Reached(nodes, self, targets[..n], deliver))
      {
        ghost var before := stores;
        var ok := WriteOne(q, self, targets[n].id, data, deliver);
        KeptBut(before, stores, targets, n);
        KeptTwice(old(stores), before, stores, Elems(PeerIds(targets)));
        StillHeld(before, stores, q.target, data);
        GrownTwice(old(stores), before, stores, q.target, data);
        GrownKeys(before, stores, q.target, data);
        ReachedStep(nodes, self, targets, n, deliver);
        if ok {
          acknowledged := acknowledged + 1;
        } else {
          failures := failures + 1;
        }
      }
    }

    // store.go, Store. q is the node lookup for the hash of the data.
    method Store(q: Query, self: Peer, data: Bytes, deliver: Id -> Delivery)
      returns (r: StoreOutcome, ghost found: LookupResult, ghost log: seq<Peer>, ghost contacts: seq<Peer>)
      requires Proper(q) && !q.findValue && q.target == q.env.digest(data) && q.env.me == self.id
      requires GoodStores(stores, q.env) && self.id in stores
      modifies this
      ensures GoodStores(stores, q.env) && Grown(old(stores), stores, q.target, data)
      ensures r.RejectedSize? ==> |data| > q.env.cfg.maxValueSize && stores == old(stores)
      ensures r.StoppedEarly? ==> q.mayStop && stores == old(stores)
      ensures |data| > q.env.cfg.maxValueSize && !q.mayStop ==> r.RejectedSize?
      ensures r.Stored? || r.Partial? ==>
        && |data| <= q.env.cfg.maxValueSize && Concluded(q, found, log)
        && (found == Closest(contacts) || (found.NoReachableContacts? && contacts == []))
      ensures r.Stored? ==> forall id :: id in Top(Elems(PeerIds(contacts)) + {self.id}, q.target, q.env.cfg.k) ==>
        Holds(stores, id, q.target, data)
      ensures r.Stored? || r.Partial? ==>
        OthersKept(old(stores), stores, Top(Elems(PeerIds(contacts)) + {self.id}, q.target, q.env.cfg.k))
      ensures r.Partial? ==> r.acknowledged < r.targets == Min(q.env.cfg.k, |contacts| + 1)
      ensures r.Partial? && !q.mayStop ==>
        var targets := Top(Elems(PeerIds(contacts)) + {self.id}, q.target, q.env.cfg.k);
        r.acknowledged == |set id | id in targets && (id == self.id || (id in stores && deliver(id).Acknowledged?))|
      ensures !q.mayStop && |data| <= q.env.cfg.maxValueSize && AllWritable(stores.Keys, self.id, contacts, deliver) ==> r.Stored?
    {
      hide Dist, GoodStores, Concluded, Top, ContentAddressed, Writable, OthersKept;
      found, log, contacts := Stopped, [], [];
      if q.mayStop {
        if * {
          return StoppedEarly, found, log, contacts;
        }
      }
      if |data| > q.env.cfg.maxValueSize {
        return RejectedSize, found, log, contacts;
      }
      var result, trace, asked, rounds := Run(q);
      found, log := result, trace;
      var peers: seq<Peer> := [];
      if result.Closest? {
        peers := result.contacts;
        contacts := peers;
        ClosestApart(q, peers, log);
      } else if !result.NoReachableContacts? {
        OnlyStopped(q, result, log);
        return StoppedEarly, found, log, contacts;
      }
      var targets := NearestWithSelf(peers, self, q.target, q.env.cfg.k);
      TargetCount(targets, peers, self, q.target, q.env.cfg.k);
      var acknowledged, failures := WriteTargets(q, self.id, targets, data, deliver);
      if failures > 0 {
        ReachedAll(stores.Keys, self.id, targets, peers, self, deliver);
        ReachedBound(stores.Keys, self.id, targets, deliver);
        CountAcknowledged(
          stores.Keys, self.id, targets, Elems(PeerIds(peers)) + {self.id}, q.target, q.env.cfg.k, deliver);
        return Partial(acknowledged, |targets|), found, log, contacts;
      }
      AllWritten(targets, Top(Elems(PeerIds(peers)) + {self.id}, q.target, q.env.cfg.k), q.target, data);
      return Stored, found, log, contacts;
    }

    lemma AllWritten(targets: seq<Peer>, ids: set<Id>, key: Id, data: Bytes)
      requires Written(targets, |targets|, key, data) && Elems(PeerIds(targets)) == ids
      ensures forall id :: id in ids ==> Holds(stores, id, key, data)
    {
      forall id | id in ids ensures Holds(stores, id, key, data) {
        assert id in PeerIds(targets);
        var i :| 0 <= i < |targets| && PeerIds(targets)[i] == id;
        assert targets[i].id == id;
      }
    }

    // lookup_data.go, LookupData: the local value, checked, or a value lookup. A stopped node or a
    // cancelled call returns before it looks anywhere.
    method LookupData(q: Query, self: Peer) returns (r: Retrieval, ghost log: seq<Peer>)
      requires Proper(q) && q.findValue && self.id in stores
      ensures r.Retrieved? ==> q.env.digest(r.data) == q.target
      ensures r == Unsuccessful(Stopped) ==> q.mayStop
      ensures q.target in stores[self.id] && r != Unsuccessful(Stopped) ==>
        r == if q.env.digest(stores[self.id][q.target]) == q.target then Retrieved(stores[self.id][q.target], self) else LocalMismatch
      ensures q.target !in stores[self.id] ==> !r.LocalMismatch? && Concluded(
        q, if r.Retrieved? then Value(r.data, r.source) else if r.Unsuccessful? then r.result else Stopped, log)
      ensures r.Unsuccessful? ==> !r.result.Value?
    {
      log := [];
      if q.mayStop {
        if * {
          return Unsuccessful(Stopped), log;
        }
      }
      if q.target in stores[self.id] {
        var data := stores[self.id][q.target];
        if q.env.digest(data) != q.target {
          return LocalMismatch, log;
        }
        return Retrieved(data, self), log;
      }
      var result, trace, asked, rounds := Run(q);
      log := trace;
      return if result.Value? then Retrieved(result.data, result.source) else Unsuccessful(result), log;
    }
  }

  lemma OnlyStopped(q: Query, r: LookupResult, log: seq<Peer>)
    requires Concluded(q, r, log) && !q.findValue && !r.Closest? && !r.NoReachableContacts?
    ensures q.mayStop
  {
  }

  lemma ReachedStep(nodes: set<Id>, self: Id, targets: seq<Peer>, n: nat, deliver: Id -> Delivery)
    requires n < |targets|
    ensures Reached(nodes, self, targets[..n + 1], deliver) ==
      Reached(nodes, self, targets[..n], deliver) + if Writable(nodes, self, targets[n].id, deliver) then 1 else 0
  {
    assert targets[..n + 1][..n] == targets[..n];
  }

  lemma {:induction false} ReachedBound(nodes: set<Id>, self: Id, targets: seq<Peer>, deliver: Id -> Delivery)
    ensures Reached(nodes, self, targets, deliver) <= |targets|
  {
    if targets != [] {
      ReachedBound(nodes, self, targets[..|targets| - 1], deliver);
    }
  }

  lemma {:induction false} ReachedGrows(nodes: set<Id>, self: Id, targets: seq<Peer>, n: nat, deliver: Id -> Delivery)
    requires n <= |targets|
    ensures Reached(nodes, self, targets[..n], deliver) <= Reached(nodes, self, targets, deliver)
  {
    if n < |targets| {
      ReachedGrows(nodes, self, targets[..|targets| - 1], n, deliver);
      assert targets[..|targets| - 1][..n] == targets[..n];
    } else {
      assert targets[..n] == targets;
    }
  }

  ghost function WritableOf(nodes: set<Id>, self: Id, ids: set<Id>, deliver: Id -> Delivery): set<Id> {
    set id | id in ids && Writable(nodes, self, id, deliver)
  }

  lemma WritableMore(nodes: set<Id>, self: Id, ids: set<Id>, x: Id, deliver: Id -> Delivery)
    requires x !in ids
    ensures |WritableOf(nodes, self, ids + {x}, deliver)| ==
      |WritableOf(nodes, self, ids, deliver)| + if Writable(nodes, self, x, deliver) then 1 else 0
  {
    var before := WritableOf(nodes, self, ids, deliver);
    assert WritableOf(nodes, self, ids + {x}, deliver) ==
      if Writable(nodes, self, x, deliver) then before + {x} else before;
  }

  // The targets that can be written are counted once each.
  lemma {:induction false} ReachedCount(nodes: set<Id>, self: Id, targets: seq<Peer>, deliver: Id -> Delivery)
    requires Distinct(targets)
    ensures Reached(nodes, self, targets, deliver) == |WritableOf(nodes, self, Elems(PeerIds(targets)), deliver)|
  {
    hide Writable;
    if targets == [] {
      assert PeerIds(targets) == [];
    } else {
      var n := |targets| - 1;
      var front := targets[..n];
      ReachedCount(nodes, self, front, deliver);
      assert targets == front + [targets[n]];
      IdsMore(front, targets[n]);
      assert targets[n].id !in PeerIds(front);
      hide WritableOf;
      WritableMore(nodes, self, Elems(PeerIds(front)), targets[n].id, deliver);
    }
  }

  lemma CountAcknowledged(
    nodes: set<Id>, self: Id, targets: seq<Peer>, ids: set<Id>, key: Id, k: nat, deliver: Id -> Delivery)
    requires IsNearestList(PeerIds(targets), ids, key, k)
    ensures Reached(nodes, self, targets, deliver) ==
      |set id | id in Top(ids, key, k) && (id == self || (id in nodes && deliver(id).Acknowledged?))|
  {
    hide Dist, Reached, Top;
    ListDistinct(targets, key);
    ReachedCount(nodes, self, targets, deliver);
    assert (set id | id in Top(ids, key, k) && (id == self || (id in nodes && deliver(id).Acknowledged?))) ==
      WritableOf(nodes, self, Elems(PeerIds(targets)), deliver);
  }

  // When every contact can be written, so can every target.
  lemma {:induction false} ReachedAll(
    nodes: set<Id>, self: Id, targets: seq<Peer>, peers: seq<Peer>, me: Peer, deliver: Id -> Delivery)
    requires me.id == self && forall p :: p in targets ==> p == me || p in peers
    ensures AllWritable(nodes, self, peers, deliver) ==> Reached(nodes, self, targets, deliver) == |targets|
  {
    if targets != [] {
      var last := targets[|targets| - 1];
      ReachedAll(nodes, self, targets[..|targets| - 1], peers, me, deliver);
      assert last in targets;
      if last in peers {
        var i :| 0 <= i < |peers| && peers[i] == last;
        assert PeerIds(peers)[i] == last.id;
      }
    }
  }

  lemma TargetCount(targets: seq<Peer>, peers: seq<Peer>, self: Peer, key: Id, k: nat)
    requires Distinct(peers) && forall i :: 0 <= i < |peers| ==> peers[i].id != self.id
    requires IsNearestList(PeerIds(targets), Elems(PeerIds(peers)) + {self.id}, key, k)
    ensures |targets| == Min(k, |peers| + 1)
  {
    hide Dist;
    NearestListSize(PeerIds(targets), Elems(PeerIds(peers)) + {self.id}, key, k);
    DistinctCard(peers);
    assert self.id !in PeerIds(peers);
  }

  // store.go and registry_rpc.go: append self to the lookup's result, sort, keep min(k, n).
  method NearestWithSelf(peers: seq<Peer>, self: Peer, key: Id, k: nat) returns (targets: seq<Peer>)
    requires Distinct(peers) && forall i :: 0 <= i < |peers| ==> peers[i].id != self.id
    ensures IsNearestList(PeerIds(targets), Elems(PeerIds(peers)) + {self.id}, key, k)
    ensures forall p :: p in targets ==> p == self || p in peers
  {
    hide Dist;
    assert PeerIds(peers + [self]) == PeerIds(peers) + [self.id];
    assert Elems(PeerIds(peers) + [self.id]) == Elems(PeerIds(peers)) + {self.id};
    targets := ClosestPrefix(peers + [self], key, Min(k, |peers| + 1));
    DistinctCard(peers + [self]);
    SmallerPrefix(PeerIds(targets), Elems(PeerIds(peers + [self])), key, k, |peers| + 1);
  }

  lemma SelfApart(q: Query, peers: seq<Peer>, log: seq<Peer>)
    requires Traced(q, log) && Fixpoint(q, peers, log)
    ensures Distinct(peers) && forall i :: 0 <= i < |peers| ==> peers[i].id != q.env.me
  {
    hide Dist, Traced;
    ListDistinct(peers, q.target);
    PoolFacts(q, log);
    forall i | 0 <= i < |peers| ensures peers[i].id != q.env.me {
      assert PeerIds(peers)[i] in Elems(PeerIds(peers));
    }
  }

  lemma ClosestApart(q: Query, peers: seq<Peer>, log: seq<Peer>)
    requires Concluded(q, Closest(peers), log)
    ensures Distinct(peers) && forall i :: 0 <= i < |peers| ==> peers[i].id != q.env.me
  {
    SelfApart(q, peers, log);
  }

  // Asking for min(k, n) of n contacts is asking for k of them.
  lemma SmallerPrefix(r: seq<Id>, s: set<Id>, target: Id, k: nat, n: nat)
    requires IsNearestList(r, s, target, Min(k, n)) && |s| <= n
    ensures IsNearestList(r, s, target, k)
  {
    if n < k {
      WholeList(r, s, target, n);
      forall x | x in s ensures x in Top(s, target, k) {
        SubsetCard(Nearer(s, x, target), s);
      }
    }
  }

  // ------------------------------------------------------------------ store, then retrieve

  // The value of a lookup came out of the store of one of the nodes.
  lemma FoundIsStored(q: Query, w: World, stores: Stores, r: LookupResult, log: seq<Peer>)
    requires Healthy(q, w, stores) && r.Value? && Concluded(q, r, log)
    ensures r.source.id in w.nodes && Holds(stores, r.source.id, q.target, r.data)
  {
    AnswersAreHonest(q, w, stores);
    Discovered(q, w, log);
    AnswerOutcome(q, w, stores, r.source.id);
  }

  ghost predicate ReadsAs(q: Query, writing: Query, reader: Peer) {
    && q.findValue && q.target == writing.target && q.env.me == reader.id
    && q.env.digest == writing.env.digest && q.env.cfg == writing.env.cfg
  }

  // After a completed store at one node, an uninterrupted lookup at any other node returns those
  // bytes. `reading` is the reader's query against whatever the stores then contain. When nothing
  // is interrupted and every acknowledgment arrives, the store of an allowed value is completed.
  method StoreThenRetrieve(
    c: Cluster, w: World, writer: Peer, reader: Peer, data: Bytes, writing: Query, reading: Stores -> Query,
    deliver: Id -> Delivery)
    returns (stored: bool, r: Retrieval)
    requires writer.id in w.nodes && reader.id in w.nodes && writer.id != reader.id
    requires w.nodes <= c.stores.Keys && writing.env.me == writer.id
    requires !writing.findValue && writing.target == writing.env.digest(data) && Healthy(writing, w, c.stores)
    requires forall s: Stores :: w.nodes <= s.Keys && GoodStores(s, writing.env) ==>
      ReadsAs(reading(s), writing, reader) && Healthy(reading(s), w, s)
    requires forall id :: id in c.stores && writing.target in c.stores[id] ==> c.stores[id][writing.target] == data
    modifies c
    ensures stored ==> (r.Retrieved? && r.data == data) || (r == Unsuccessful(Stopped) && reading(c.stores).mayStop)
    ensures |data| <= writing.env.cfg.maxValueSize && !writing.mayStop && Acknowledges(w, deliver) ==> stored
  {
    hide OthersKept, WritableOf, Traced, ContentAddressed, HonestAt;
    var outcome, found, log, contacts := c.Store(writing, writer, data, deliver);
    stored := outcome.Stored?;
    ghost var before := old(c.stores);
    var q := reading(c.stores);
    ghost var readLog;
    r, readLog := c.LookupData(q, reader);
    if outcome.Stored? || outcome.Partial? {
      TargetsAreNearest(writing, w, before, found, log, contacts);
      ContactsAreNodes(writing, w, before, found, log, contacts);
    }
    if stored {
      assert Published(w, c.stores, q.target, data, q.env.cfg.k);
      if q.target !in c.stores[reader.id] && r != Unsuccessful(Stopped) {
        var result := if r.Retrieved? then Value(r.data, r.source) else r.result;
        ReaderFinds(q, w, c.stores, data, result, readLog);
        FoundIsStored(q, w, c.stores, result, readLog);
      }
    }
  }

  ghost predicate Acknowledges(w: World, deliver: Id -> Delivery) {
    forall id :: id in w.nodes ==> deliver(id).Acknowledged?
  }

  lemma ContactsAreNodes(q: Query, w: World, stores: Stores, r: LookupResult, log: seq<Peer>, contacts: seq<Peer>)
    requires Healthy(q, w, stores) && !q.findValue && Concluded(q, r, log) && r == Closest(contacts)
    ensures Elems(PeerIds(contacts)) <= w.nodes
  {
    AnswersAreHonest(q, w, stores);
    LookupIsExact(q, w, r, log);
  }
}
