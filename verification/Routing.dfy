// src/kademlia/routingtable.go and routing_maintenance.go: 256 buckets around one node.
// The functions on `Table` say what each locked operation does to the whole table; the class
// performs it in place on one bucket.
module Routing {
  import opened Wrappers
  import opened Ids
  import opened Nearest
  import opened Contacts
  import opened Buckets

  datatype Table = Table(me: Id, buckets: seq<State>)

  // routing_maintenance.go, evictionProbe.
  datatype Probe = Probe(bucket: nat, oldPeer: Peer, replacement: Peer, version: nat)

  ghost predicate TableInv(t: Table) {
    && |t.buckets| == ID_BITS
    && forall i :: 0 <= i < ID_BITS ==>
      Inv(t.buckets[i]) && Placed(t.buckets[i], t.me, i) && t.buckets[i].capacity > 0
  }

  ghost function BucketFor(t: Table, id: Id): State
    requires TableInv(t)
  {
    t.buckets[BucketOf(t.me, id)]
  }

  ghost function Put(t: Table, index: nat, b: State): Table
    requires TableInv(t) && index < ID_BITS
  {
    t.(buckets := t.buckets[index := b])
  }

  // A table insertion that may be refused by a full bucket; self is ignored.
  ghost function Inserted(t: Table, c: Peer): Table
    requires TableInv(t)
  {
    if c.id == t.me then t
    else Put(t, BucketOf(t.me, c.id), Added(BucketFor(t, c.id), c))
  }

  // Communication from a contact: refresh it, admit it, or ask for a probe of the stalest one.
  ghost function Observed(t: Table, c: Peer): (Table, Option<Probe>)
    requires TableInv(t)
  {
    if c.id == t.me then (t, None)
    else
      var index := BucketOf(t.me, c.id);
      var b := t.buckets[index];
      if Fits(b, c.id) then (Put(t, index, Added(b, c)), None)
      else if b.probing then (t, None)
      else
        var oldPeer := b.list[|b.list| - 1];
        (Put(t, index, b.(probing := true)), Some(Probe(index, oldPeer, c, Stamp(b, oldPeer.id))))
  }

  ghost predicate Current(t: Table, p: Probe)
    requires TableInv(t) && p.bucket < ID_BITS
  {
    Stamp(t.buckets[p.bucket], p.oldPeer.id) == p.version
  }

  // The end of a probe. Only a timeout whose stamp is current unlinks the old contact; the
  // replacement takes a free slot, if there is one.
  ghost function Finished(t: Table, p: Probe, timedOut: bool): Table
    requires TableInv(t) && p.bucket < ID_BITS
  {
    var b := t.buckets[p.bucket].(probing := false);
    var stamp := Stamp(b, p.oldPeer.id);
    Put(t, p.bucket,
        if !timedOut || (stamp != 0 && stamp != p.version) then b
        else Added(if stamp != 0 then Removed(b, p.oldPeer.id) else b, p.replacement))
  }

  ghost function Unresponsive(t: Table, id: Id, version: nat): Table
    requires TableInv(t)
  {
    if version != 0 && Stamp(BucketFor(t, id), id) == version then
      Put(t, BucketOf(t.me, id), Removed(BucketFor(t, id), id))
    else t
  }

  ghost function Marked(t: Table, target: Id, now: int): Table
    requires TableInv(t)
  {
    Put(t, BucketOf(t.me, target), BucketFor(t, target).(lastLookup := now))
  }

  // A probe belongs to the bucket it names and carries a real stamp.
  ghost predicate ProbeInv(me: Id, p: Probe) {
    && p.bucket < ID_BITS && p.version > 0
    && p.oldPeer.id != me && BucketOf(me, p.oldPeer.id) == p.bucket
    && p.replacement.id != me && BucketOf(me, p.replacement.id) == p.bucket
  }

  // ------------------------------------------------------------------ what the operations keep

  ghost predicate SameFlags(t: Table, u: Table)
    requires |t.buckets| == |u.buckets| == ID_BITS
  {
    u.me == t.me && forall b :: 0 <= b < ID_BITS ==> u.buckets[b].probing == t.buckets[b].probing
  }

  lemma FlagKeepsInv(b: State, probing: bool, lastLookup: int)
    requires Inv(b)
    ensures Inv(b.(probing := probing, lastLookup := lastLookup))
  {
    hide Dist;
    var r := b.(probing := probing, lastLookup := lastLookup);
    forall i, j | 0 <= i < j < |r.list| ensures Stamp(r, r.list[i].id) > Stamp(r, r.list[j].id) {
      assert Stamp(b, b.list[i].id) > Stamp(b, b.list[j].id);
    }
  }

  lemma ListedStamp(b: State, i: nat)
    requires Inv(b) && i < |b.list|
    ensures 0 < Stamp(b, b.list[i].id) <= b.version
  {
    assert PeerIds(b.list)[i] == b.list[i].id;
  }

  lemma InsertedKeeps(t: Table, c: Peer)
    requires TableInv(t)
    ensures TableInv(Inserted(t, c)) && SameFlags(t, Inserted(t, c))
  {
    if c.id != t.me {
      AddedKeepsInv(BucketFor(t, c.id), c, t.me, BucketOf(t.me, c.id));
    }
  }

  lemma ObservedKeeps(t: Table, c: Peer)
    requires TableInv(t)
    ensures TableInv(Observed(t, c).0)
    ensures var p := Observed(t, c).1; p.Some? ==>
      ProbeInv(t.me, p.value) && Current(Observed(t, c).0, p.value) && !t.buckets[p.value.bucket].probing
    ensures var (u, p) := Observed(t, c); u.me == t.me && forall b :: 0 <= b < ID_BITS ==>
      u.buckets[b].probing == (t.buckets[b].probing || (p.Some? && b == p.value.bucket))
  {
    hide Dist, InBucket, Distinct, StampsDecrease, Without;
    if c.id != t.me {
      var index := BucketOf(t.me, c.id);
      var b := t.buckets[index];
      AddedKeepsInv(b, c, t.me, index);
      FlagKeepsInv(b, true, b.lastLookup);
      if !Fits(b, c.id) {
        ListedStamp(b, |b.list| - 1);
      }
    }
  }

  lemma FinishedKeeps(t: Table, p: Probe, timedOut: bool)
    requires TableInv(t) && ProbeInv(t.me, p)
    ensures TableInv(Finished(t, p, timedOut))
    ensures var u := Finished(t, p, timedOut); u.me == t.me && forall b :: 0 <= b < ID_BITS ==>
      u.buckets[b].probing == (t.buckets[b].probing && b != p.bucket)
  {
    var b := t.buckets[p.bucket].(probing := false);
    FlagKeepsInv(t.buckets[p.bucket], false, b.lastLookup);
    RemovedKeepsInv(b, p.oldPeer.id);
    RemovedKeepsPlace(b, p.oldPeer.id, t.me, p.bucket);
    AddedKeepsInv(b, p.replacement, t.me, p.bucket);
    AddedKeepsInv(Removed(b, p.oldPeer.id), p.replacement, t.me, p.bucket);
  }

  lemma UnresponsiveKeeps(t: Table, id: Id, version: nat)
    requires TableInv(t)
    ensures TableInv(Unresponsive(t, id, version)) && SameFlags(t, Unresponsive(t, id, version))
  {
    RemovedKeepsInv(BucketFor(t, id), id);
    RemovedKeepsPlace(BucketFor(t, id), id, t.me, BucketOf(t.me, id));
  }

  // ------------------------------------------------------------------ the operations, field by field

  // Nothing but one bucket differs.
  ghost predicate OnlyBucket(t: Table, u: Table, index: nat) {
    && u.me == t.me && |u.buckets| == |t.buckets| == ID_BITS
    && forall i :: 0 <= i < ID_BITS && i != index ==> u.buckets[i] == t.buckets[i]
  }

  // Inserting a contact: a known one, or one for which there is room, enters at the front.
  ghost predicate Offered(t: Table, c: Peer, u: Table)
    requires TableInv(t)
  {
    if c.id == t.me then u == t
    else
      var index := BucketOf(t.me, c.id);
      var b := t.buckets[index];
      OnlyBucket(t, u, index) &&
      if c.id in b.versions || |b.list| < b.capacity then Entered(b, c, u.buckets[index]) else u.buckets[index] == b
  }

  // Hearing from a contact: a known one, or one for which there is room, enters at the front. For
  // another a probe is asked, unless one is running, of the listed contact with the least stamp.
  ghost predicate Heard(t: Table, c: Peer, u: Table, probe: Option<Probe>)
    requires TableInv(t)
  {
    if c.id == t.me then u == t && probe == None
    else
      var index := BucketOf(t.me, c.id);
      var b := t.buckets[index];
      OnlyBucket(t, u, index) &&
      if c.id in b.versions || |b.list| < b.capacity then probe == None && Entered(b, c, u.buckets[index])
      else if b.probing then probe == None && u.buckets[index] == b
      else
        && probe.Some? && probe.value.bucket == index && probe.value.replacement == c
        && LeastRecent(b, probe.value.oldPeer, probe.value.version) && u.buckets[index] == b.(probing := true)
  }

  // A listed contact with its stamp, which every other listed one exceeds.
  ghost predicate LeastRecent(b: State, p: Peer, stamp: nat) {
    && p in b.list && p.id in b.versions && b.versions[p.id] == stamp
    && forall q :: q in b.list && q != p ==> q.id in b.versions && b.versions[q.id] > stamp
  }

  // The end of a probe: its flag is cleared, and only a timeout does more. With the captured stamp
  // the old contact goes and the replacement enters; with another stamp both are left alone; when
  // the old contact is gone already, the replacement enters if it is known or there is room.
  ghost predicate Ended(t: Table, p: Probe, timedOut: bool, u: Table)
    requires TableInv(t) && p.bucket < ID_BITS
  {
    var b := t.buckets[p.bucket].(probing := false);
    OnlyBucket(t, u, p.bucket) &&
    if timedOut && p.oldPeer.id in b.versions && b.versions[p.oldPeer.id] == p.version then
      exists m :: Dropped(b, p.oldPeer.id, m) && Entered(m, p.replacement, u.buckets[p.bucket])
    else if timedOut && p.oldPeer.id !in b.versions && (p.replacement.id in b.versions || |b.list| < b.capacity) then
      Entered(b, p.replacement, u.buckets[p.bucket])
    else u.buckets[p.bucket] == b
  }

  // A contact that does not answer goes when it still has the stamp that was read before the call.
  ghost predicate Silenced(t: Table, id: Id, version: nat, u: Table)
    requires TableInv(t)
  {
    var index := BucketOf(t.me, id);
    var b := t.buckets[index];
    if version != 0 && id in b.versions && b.versions[id] == version then
      OnlyBucket(t, u, index) && Dropped(b, id, u.buckets[index])
    else u == t
  }

  lemma BackIsLeastRecent(b: State)
    requires Inv(b) && b.list != []
    ensures LeastRecent(b, b.list[|b.list| - 1], Stamp(b, b.list[|b.list| - 1].id))
  {
    hide Dist, Distinct;
    forall i | 0 <= i < |b.list| ensures b.list[i].id in b.versions {
      ListedStamp(b, i);
    }
    forall q | q in b.list && q != b.list[|b.list| - 1]
      ensures q.id in b.versions && b.versions[q.id] > Stamp(b, b.list[|b.list| - 1].id)
    {
      var i :| 0 <= i < |b.list| && b.list[i] == q;
      assert Stamp(b, b.list[i].id) > Stamp(b, b.list[|b.list| - 1].id);
    }
  }

  lemma InsertedEnters(t: Table, c: Peer)
    requires TableInv(t)
    ensures Offered(t, c, Inserted(t, c))
  {
    hide Dist, InBucket, Distinct, StampsDecrease, Without, Entered, Added, Placed;
    if c.id != t.me {
      AddedEnters(BucketFor(t, c.id), c);
    }
  }

  lemma ObservedProbes(t: Table, c: Peer)
    requires TableInv(t)
    ensures Heard(t, c, Observed(t, c).0, Observed(t, c).1)
  {
    hide Dist, InBucket, Distinct, StampsDecrease, Without, Entered, LeastRecent, Added, Placed;
    if c.id != t.me {
      var b := BucketFor(t, c.id);
      AddedEnters(b, c);
      if !Fits(b, c.id) {
        BackIsLeastRecent(b);
      }
    }
  }

  lemma FinishedEnds(t: Table, p: Probe, timedOut: bool)
    requires TableInv(t) && ProbeInv(t.me, p)
    ensures Ended(t, p, timedOut, Finished(t, p, timedOut))
  {
    hide Dist, InBucket, Distinct, StampsDecrease, Without, Entered, Dropped, Added, Removed, Placed;
    var b := t.buckets[p.bucket].(probing := false);
    FlagKeepsInv(t.buckets[p.bucket], false, b.lastLookup);
    StampListed(b, p.oldPeer.id);
    AddedEnters(b, p.replacement);
    RemovedDrops(b, p.oldPeer.id);
    RemovedKeepsInv(b, p.oldPeer.id);
    RemovedCapacity(b, p.oldPeer.id);
    AddedEnters(Removed(b, p.oldPeer.id), p.replacement);
  }

  lemma StampListed(b: State, id: Id)
    requires Inv(b)
    ensures id in b.versions <==> Stamp(b, id) > 0
  {
  }

  lemma RemovedCapacity(b: State, id: Id)
    ensures Removed(b, id).capacity == b.capacity
  {
  }

  lemma UnresponsiveSilences(t: Table, id: Id, version: nat)
    requires TableInv(t)
    ensures Silenced(t, id, version, Unresponsive(t, id, version))
  {
    hide Dist, InBucket, Distinct, StampsDecrease, Without, Dropped, Removed, Placed;
    RemovedDrops(BucketFor(t, id), id);
  }

  // ------------------------------------------------------------------ all contacts of a table

  // The contacts of the first n buckets, in scan order.
  ghost function Scan(buckets: seq<State>, n: nat): seq<Peer>
    requires n <= |buckets|
  {
    if n == 0 then [] else Scan(buckets, n - 1) + buckets[n - 1].list
  }

  ghost function Known(t: Table): set<Id>
    requires |t.buckets| == ID_BITS
  {
    Elems(PeerIds(Scan(t.buckets, ID_BITS)))
  }

  lemma {:induction false} ScanPlaced(t: Table, n: nat)
    requires TableInv(t) && n <= ID_BITS
    ensures forall i :: 0 <= i < |Scan(t.buckets, n)| ==>
      Scan(t.buckets, n)[i].id != t.me && BucketOf(t.me, Scan(t.buckets, n)[i].id) < n
  {
    if n > 0 {
      hide Dist;
      ScanPlaced(t, n - 1);
      var front, back := Scan(t.buckets, n - 1), t.buckets[n - 1].list;
      assert Placed(t.buckets[n - 1], t.me, n - 1);
      var all := Scan(t.buckets, n);
      forall i | 0 <= i < |all| ensures all[i].id != t.me && BucketOf(t.me, all[i].id) < n {
        assert all[i] == if i < |front| then front[i] else back[i - |front|];
      }
    }
  }

  lemma {:induction false} ScanDistinct(t: Table, n: nat)
    requires TableInv(t) && n <= ID_BITS
    ensures Distinct(Scan(t.buckets, n))
  {
    if n > 0 {
      hide Dist;
      ScanDistinct(t, n - 1);
      ScanPlaced(t, n - 1);
      var front, back := Scan(t.buckets, n - 1), t.buckets[n - 1].list;
      assert Placed(t.buckets[n - 1], t.me, n - 1) && Distinct(back);
      JoinDistinct(front, back);
    }
  }

  lemma JoinDistinct(front: seq<Peer>, back: seq<Peer>)
    requires Distinct(front) && Distinct(back)
    requires forall i, j :: 0 <= i < |front| && 0 <= j < |back| ==> front[i].id != back[j].id
    ensures Distinct(front + back)
  {
    var all := front + back;
    forall i, j | 0 <= i < j < |all| ensures all[i].id != all[j].id {
      assert all[i] == if i < |front| then front[i] else back[i - |front|];
      assert all[j] == if j < |front| then front[j] else back[j - |front|];
    }
  }

  lemma {:induction false} ScanHas(buckets: seq<State>, n: nat, i: nat, j: nat)
    requires i < n <= |buckets| && j < |buckets[i].list|
    ensures buckets[i].list[j] in Scan(buckets, n)
  {
    if i < n - 1 {
      ScanHas(buckets, n - 1, i, j);
    }
  }

  lemma {:induction false} ScanFrom(buckets: seq<State>, n: nat, p: Peer)
    requires n <= |buckets| && p in Scan(buckets, n)
    ensures exists i :: 0 <= i < n && p in buckets[i].list
  {
    if p in Scan(buckets, n - 1) {
      ScanFrom(buckets, n - 1, p);
    }
  }

  // An identifier is known exactly when its own bucket holds a stamp for it.
  lemma KnownIsStamped(t: Table, id: Id)
    requires TableInv(t)
    ensures id in Known(t) <==> id != t.me && Stamp(BucketFor(t, id), id) > 0
  {
    if id in Known(t) {
      KnownStamped(t, id);
    }
    if id != t.me && Stamp(BucketFor(t, id), id) > 0 {
      StampedKnown(t, id);
    }
  }

  lemma KnownStamped(t: Table, id: Id)
    requires TableInv(t) && id in Known(t)
    ensures id != t.me && Stamp(BucketFor(t, id), id) > 0
  {
    hide Dist;
    var all := Scan(t.buckets, ID_BITS);
    var k := IndexOf(all, id);
    ScanFrom(t.buckets, ID_BITS, all[k]);
    var i :| 0 <= i < ID_BITS && all[k] in t.buckets[i].list;
    var j :| 0 <= j < |t.buckets[i].list| && t.buckets[i].list[j] == all[k];
    assert Placed(t.buckets[i], t.me, i);
    ListedStamp(t.buckets[i], j);
  }

  lemma StampedKnown(t: Table, id: Id)
    requires TableInv(t) && Stamp(BucketFor(t, id), id) > 0
    ensures id in Known(t)
  {
    hide Dist;
    var b := BucketFor(t, id);
    var j := IndexOf(b.list, id);
    ScanHas(t.buckets, ID_BITS, BucketOf(t.me, id), j);
    var all := Scan(t.buckets, ID_BITS);
    var k :| 0 <= k < |all| && all[k] == b.list[j];
    assert PeerIds(all)[k] == id;
  }

  // The selection depends on the set of known contacts only, not on their bucket layout.
  lemma LayoutIrrelevant(t: Table, u: Table, target: Id, count: nat, a: seq<Id>, b: seq<Id>)
    requires TableInv(t) && TableInv(u)
    requires forall id ::
      (id != t.me && Stamp(BucketFor(t, id), id) > 0) <==> (id != u.me && Stamp(BucketFor(u, id), id) > 0)
    requires IsNearestList(a, Known(t), target, count) && IsNearestList(b, Known(u), target, count)
    ensures a == b
  {
    forall id ensures id in Known(t) <==> id in Known(u) {
      KnownIsStamped(t, id);
      KnownIsStamped(u, id);
    }
    assert Known(t) == Known(u);
    NearestListUnique(a, b, Known(t), target, count);
  }

  // ------------------------------------------------------------------ the class

  class RoutingTable {
    const me: Peer
    const buckets: seq<Bucket>

    ghost predicate Separate() {
      |buckets| == ID_BITS && forall i, j :: 0 <= i < j < ID_BITS ==> buckets[i] != buckets[j]
    }

    ghost function View(): Table
      requires Separate()
      reads buckets
    {
      Table(me.id, seq(ID_BITS, i requires 0 <= i < ID_BITS reads buckets => buckets[i].View()))
    }

    ghost predicate Good()
      reads buckets
    {
      Separate() && TableInv(View())
    }

    // newRoutingTable: 256 empty buckets of the configured capacity.
    constructor (me: Peer, capacity: nat, now: int)
      requires capacity > 0
      ensures Good() && fresh(buckets) && this.me == me
      ensures View().buckets == seq(ID_BITS, i => State([], map[], 0, false, now, capacity))
    {
      this.me := me;
      var made: seq<Bucket> := [];
      for i := 0 to ID_BITS
        invariant |made| == i
        invariant forall k :: 0 <= k < i ==> fresh(made[k]) && made[k].View() == State([], map[], 0, false, now, capacity)
        invariant forall k, l :: 0 <= k < l < i ==> made[k] != made[l]
      {
        var b := new Bucket(capacity, now);
        made := made + [b];
      }
      this.buckets := made;
    }

    lemma Replaced(before: Table, index: nat, b: State)
      requires Separate() && index < ID_BITS && |before.buckets| == ID_BITS && before.me == me.id
      requires buckets[index].View() == b
      requires forall i :: 0 <= i < ID_BITS && i != index ==> buckets[i].View() == before.buckets[i]
      ensures View() == before.(buckets := before.buckets[index := b])
    {
      assert View().buckets == before.buckets[index := b];
    }

    // routingtable.go, AddContact.
    method AddContact(contact: Contact)
      requires Good()
      modifies buckets
      ensures Good()
      ensures View() == if contact.id.None? then old(View())
                        else Inserted(old(View()), Peer(contact.id.value, contact.address))
      ensures contact.id.Some? ==> Offered(old(View()), Peer(contact.id.value, contact.address), View())
    {
      if contact.id.None? {
        return;
      }
      InsertedEnters(View(), Peer(contact.id.value, contact.address));
      hide Dist, Added, Offered;
      var equal := Equals(contact.id.value, me.id);
      if equal {
        return;
      }
      ghost var before := View();
      var c := Peer(contact.id.value, contact.address);
      var index := GetBucketIndex(me.id, c.id);
      assert buckets[index].View() == before.buckets[index];
      buckets[index].AddContact(c);
      Replaced(before, index, Added(before.buckets[index], c));
      InsertedKeeps(before, c);
    }

    // routing_maintenance.go, observe.
    method Observe(contact: Contact) returns (probe: Option<Probe>)
      requires Good()
      modifies buckets
      ensures Good()
      ensures contact.id.None? ==> View() == old(View()) && probe == None
      ensures contact.id.Some? ==>
        (View(), probe) == Observed(old(View()), Peer(contact.id.value, contact.address))
      ensures contact.id.Some? ==> Heard(old(View()), Peer(contact.id.value, contact.address), View(), probe)
    {
      if contact.id.None? {
        return None;
      }
      hide Dist;
      var c := Peer(contact.id.value, contact.address);
      ObservedProbes(View(), c);
      hide Observed, Heard;
      var equal := Equals(contact.id.value, me.id);
      if equal {
        SelfObserved(View(), c);
        return None;
      }
      probe := ObservePeer(c);
    }

    lemma SelfObserved(t: Table, c: Peer)
      requires TableInv(t) && c.id == t.me
      ensures Observed(t, c) == (t, None)
    {
    }

    method ObservePeer(c: Peer) returns (probe: Option<Probe>)
      requires Good() && c.id != me.id
      modifies buckets
      ensures Good()
      ensures (View(), probe) == Observed(old(View()), c)
    {
      hide Dist, Distinct, StampsDecrease, Without, Placed;
      ghost var before := View();
      ObservedKeeps(before, c);
      var index := GetBucketIndex(me.id, c.id);
      var bucket := buckets[index];
      ghost var b := before.buckets[index];
      assert bucket.View() == b == BucketFor(before, c.id);
      if c.id in bucket.versions || |bucket.list| < bucket.capacity {
        bucket.AddContact(c);
        Replaced(before, index, Added(b, c));
        return None;
      }
      if bucket.probing {
        return None;
      }
      var oldest := bucket.list[|bucket.list| - 1];
      ListedStamp(b, |bucket.list| - 1);
      bucket.probing := true;
      Replaced(before, index, b.(probing := true));
      return Some(Probe(index, oldest, c, bucket.versions[oldest.id]));
    }

    // routing_maintenance.go, probeCurrent.
    method ProbeCurrent(probe: Probe) returns (current: bool)
      requires Good() && ProbeInv(me.id, probe)
      ensures var versions := View().buckets[probe.bucket].versions;
        current <==> probe.oldPeer.id in versions && versions[probe.oldPeer.id] == probe.version
      ensures current <==> Current(View(), probe)
    {
      var bucket := buckets[probe.bucket];
      var stamp := if probe.oldPeer.id in bucket.versions then bucket.versions[probe.oldPeer.id] else 0;
      return stamp == probe.version;
    }

    // routing_maintenance.go, finishProbe.
    method FinishProbe(probe: Probe, timedOut: bool)
      requires Good() && ProbeInv(me.id, probe)
      modifies buckets
      ensures Good()
      ensures View() == Finished(old(View()), probe, timedOut)
      ensures Ended(old(View()), probe, timedOut, View())
    {
      hide Dist, Distinct, StampsDecrease, Without, Placed, Entered, Dropped;
      ghost var before := View();
      FinishedEnds(before, probe, timedOut);
      hide Ended;
      FinishedKeeps(before, probe, timedOut);
      var bucket := buckets[probe.bucket];
      ghost var b := bucket.View().(probing := false);
      FlagKeepsInv(bucket.View(), false, bucket.lastLookup);
      bucket.probing := false;
      if !timedOut {
        Replaced(before, probe.bucket, b);
        return;
      }
      var current := if probe.oldPeer.id in bucket.versions then bucket.versions[probe.oldPeer.id] else 0;
      if current != 0 && current != probe.version {
        Replaced(before, probe.bucket, b);
        return;
      }
      if current != 0 {
        bucket.Remove(probe.oldPeer.id);
        RemovedKeepsInv(b, probe.oldPeer.id);
      }
      bucket.AddContact(probe.replacement);
      Replaced(before, probe.bucket,
               Added(if current != 0 then Removed(b, probe.oldPeer.id) else b, probe.replacement));
    }

    // routing_maintenance.go, contactVersion.
    method ContactVersion(id: Id) returns (version: nat)
      requires Good()
      ensures version == Stamp(BucketFor(View(), id), id)
      ensures var versions := View().buckets[BucketOf(me.id, id)].versions;
        if id in versions then version == versions[id] && version > 0 else version == 0
    {
      var index := GetBucketIndex(me.id, id);
      return if id in buckets[index].versions then buckets[index].versions[id] else 0;
    }

    // routing_maintenance.go, removeUnresponsive.
    method RemoveUnresponsive(id: Id, version: nat)
      requires Good()
      modifies buckets
      ensures Good()
      ensures View() == Unresponsive(old(View()), id, version)
      ensures Silenced(old(View()), id, version, View())
    {
      UnresponsiveSilences(View(), id, version);
      hide Silenced, Entered, Dropped;
      if version == 0 {
        return;
      }
      ghost var before := View();
      UnresponsiveKeeps(before, id, version);
      var index := GetBucketIndex(me.id, id);
      var bucket := buckets[index];
      var current := if id in bucket.versions then bucket.versions[id] else 0;
      if current == version {
        bucket.Remove(id);
        Replaced(before, index, Removed(before.buckets[index], id));
      }
    }

    // routing_maintenance.go, markLookup.
    method MarkLookup(target: Id, now: int)
      requires Good()
      modifies buckets
      ensures Good()
      ensures View() == Marked(old(View()), target, now)
      ensures var index := BucketOf(me.id, target);
        OnlyBucket(old(View()), View(), index)
        && View().buckets[index] == old(View()).buckets[index].(lastLookup := now)
    {
      ghost var before := View();
      var index := GetBucketIndex(me.id, target);
      ghost var b := before.buckets[index];
      FlagKeepsInv(b, b.probing, now);
      buckets[index].lastLookup := now;
      Replaced(before, index, b.(lastLookup := now));
    }

    // routing_maintenance.go, staleBuckets.
    method StaleBuckets(now: int, period: int) returns (indices: seq<nat>)
      requires Good()
      ensures forall i, j :: 0 <= i < j < |indices| ==> indices[i] < indices[j]
      ensures forall i :: i in indices <==> 0 <= i < ID_BITS && now - View().buckets[i].lastLookup >= period
    {
      indices := [];
      ghost var t := View();
      for index := 0 to ID_BITS
        invariant forall i :: 0 <= i < |indices| ==> indices[i] < index
        invariant forall i, j :: 0 <= i < j < |indices| ==> indices[i] < indices[j]
        invariant forall i :: i in indices <==> 0 <= i < index && now - t.buckets[i].lastLookup >= period
      {
        if now - buckets[index].lastLookup >= period {
          indices := indices + [index];
        }
      }
    }

    // routingtable.go, FindClosestContacts: scan every bucket, sort, keep the first `count`.
    method FindClosestContacts(target: Option<Id>, count: int) returns (r: seq<Peer>)
      requires Good()
      ensures target.None? || count <= 0 ==> r == []
      ensures target.Some? && count > 0 ==> IsNearestList(PeerIds(r), Known(View()), target.value, count)
      ensures forall p :: p in r ==> p in Scan(View().buckets, ID_BITS)
    {
      if target.None? || count <= 0 {
        return [];
      }
      var candidates: seq<Peer> := [];
      ghost var t := View();
      for i := 0 to ID_BITS
        invariant candidates == Scan(t.buckets, i)
      {
        candidates := candidates + buckets[i].list;
      }
      ScanDistinct(t, ID_BITS);
      r := ClosestPrefix(candidates, target.value, count);
    }
  }
}
