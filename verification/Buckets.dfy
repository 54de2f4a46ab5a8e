// src/kademlia/bucket.go: one k-bucket, a recency list with a stamp per contact.
// `State` is the value of a bucket; the class updates its fields in place and is proved
// against the functions on `State`.
module Buckets {
  import opened Wrappers
  import opened Ids
  import opened Nearest
  import opened Contacts

  // list: most recently seen first. versions: the stamp of every listed contact.
  datatype State = State(
    list: seq<Peer>, versions: map<Id, nat>, version: nat, probing: bool, lastLookup: int, capacity: nat)

  // The stamp of an identifier, 0 when it is absent, as a map read in Go.
  function Stamp(b: State, id: Id): nat {
    if id in b.versions then b.versions[id] else 0
  }

  function Without(ps: seq<Peer>, id: Id): seq<Peer> {
    if ps == [] then []
    else if ps[0].id == id then Without(ps[1..], id)
    else [ps[0]] + Without(ps[1..], id)
  }

  // Refresh or insert a contact at the front; a full bucket ignores a newcomer.
  function Added(b: State, c: Peer): State {
    if c.id in PeerIds(b.list) || |b.list| < b.capacity then
      b.(list := [c] + Without(b.list, c.id),
         version := b.version + 1,
         versions := b.versions[c.id := b.version + 1])
    else b
  }

  function Removed(b: State, id: Id): State {
    if id in PeerIds(b.list) then
      b.(list := Without(b.list, id), versions := b.versions - {id})
    else b
  }

  // Stamps strictly decrease from front to back, so the last contact is the least recently stamped.
  ghost predicate StampsDecrease(b: State) {
    forall i, j :: 0 <= i < j < |b.list| ==> Stamp(b, b.list[i].id) > Stamp(b, b.list[j].id)
  }

  ghost predicate Inv(b: State) {
    && Distinct(b.list)
    && b.versions.Keys == Elems(PeerIds(b.list))
    && StampsDecrease(b)
    && (forall id :: id in b.versions ==> 0 < b.versions[id] <= b.version)
    && |b.list| <= b.capacity
  }

  // The bucket at `index` in the table of `me` holds only contacts of its own range.
  ghost predicate Placed(b: State, me: Id, index: nat) {
    forall i :: 0 <= i < |b.list| ==> b.list[i].id != me && BucketOf(me, b.list[i].id) == index
  }

  // ------------------------------------------------------------------ list lemmas

  lemma {:induction false} WithoutAbsent(ps: seq<Peer>, id: Id)
    requires id !in PeerIds(ps)
    ensures Without(ps, id) == ps
  {
    if ps != [] {
      assert PeerIds(ps)[0] == ps[0].id;
      assert forall i :: 0 <= i < |ps| - 1 ==> PeerIds(ps[1..])[i] == PeerIds(ps)[i + 1];
      WithoutAbsent(ps[1..], id);
    }
  }

  // In a list of distinct contacts, dropping an identifier cuts out its one position.
  lemma {:induction false} WithoutAt(ps: seq<Peer>, i: nat)
    requires Distinct(ps) && i < |ps|
    ensures Without(ps, ps[i].id) == ps[..i] + ps[i + 1..]
  {
    if i == 0 {
      assert forall j :: 0 <= j < |ps| - 1 ==> PeerIds(ps[1..])[j] == ps[j + 1].id != ps[0].id;
      WithoutAbsent(ps[1..], ps[0].id);
    } else {
      WithoutAt(ps[1..], i - 1);
      assert ps[..i] == [ps[0]] + ps[1..][..i - 1];
    }
  }

  lemma IndexOf(ps: seq<Peer>, id: Id) returns (i: nat)
    requires id in PeerIds(ps)
    ensures i < |ps| && ps[i].id == id
  {
    i :| 0 <= i < |ps| && PeerIds(ps)[i] == id;
  }

  function Skip(k: nat, i: nat): nat {
    if i < k then i else i + 1
  }

  // Dropping an identifier keeps the others in their order: position i comes from Skip(k, i).
  lemma WithoutShape(ps: seq<Peer>, id: Id) returns (k: nat)
    requires Distinct(ps)
    ensures id in PeerIds(ps) ==> k < |ps| && ps[k].id == id && |Without(ps, id)| == |ps| - 1
    ensures id !in PeerIds(ps) ==> k == |ps| && |Without(ps, id)| == |ps|
    ensures forall i :: 0 <= i < |Without(ps, id)| ==>
      Skip(k, i) < |ps| && Without(ps, id)[i] == ps[Skip(k, i)] && ps[Skip(k, i)].id != id
  {
    if id in PeerIds(ps) {
      k := IndexOf(ps, id);
      WithoutAt(ps, k);
    } else {
      k := |ps|;
      WithoutAbsent(ps, id);
      assert forall i :: 0 <= i < |ps| ==> ps[i].id == PeerIds(ps)[i];
    }
  }

  lemma WithoutIds(ps: seq<Peer>, id: Id)
    requires Distinct(ps)
    ensures Elems(PeerIds(Without(ps, id))) == Elems(PeerIds(ps)) - {id}
  {
    var k := WithoutShape(ps, id);
    var w := Without(ps, id);
    forall x | x in PeerIds(w) ensures x in Elems(PeerIds(ps)) - {id} {
      var i := IndexOf(w, x);
      assert PeerIds(ps)[Skip(k, i)] == x;
    }
    forall x | x in PeerIds(ps) && x != id ensures x in PeerIds(w) {
      var i := IndexOf(ps, x);
      var j := if i < k then i else i - 1;
      assert Skip(k, j) == i && PeerIds(w)[j] == x;
    }
  }

  // ------------------------------------------------------------------ what the operations keep

  ghost predicate Fits(b: State, id: Id) {
    id in b.versions || |b.list| < b.capacity
  }

  lemma WithoutDistinct(ps: seq<Peer>, id: Id)
    requires Distinct(ps)
    ensures Distinct(Without(ps, id)) && forall i :: 0 <= i < |Without(ps, id)| ==> Without(ps, id)[i].id != id
    ensures |Without(ps, id)| == |ps| - if id in PeerIds(ps) then 1 else 0
  {
    var k := WithoutShape(ps, id);
  }

  lemma FrontDistinct(c: Peer, w: seq<Peer>)
    requires Distinct(w) && forall i :: 0 <= i < |w| ==> w[i].id != c.id
    ensures Distinct([c] + w)
    ensures Elems(PeerIds([c] + w)) == {c.id} + Elems(PeerIds(w))
  {
    assert PeerIds([c] + w) == [c.id] + PeerIds(w);
    assert Elems([c.id] + PeerIds(w)) == {c.id} + Elems(PeerIds(w));
  }

  lemma AddedKeepsList(b: State, c: Peer)
    requires Inv(b) && Fits(b, c.id)
    ensures Distinct(Added(b, c).list)
    ensures Added(b, c).versions.Keys == Elems(PeerIds(Added(b, c).list))
    ensures |Added(b, c).list| <= b.capacity
  {
    hide Dist, StampsDecrease, Distinct;
    WithoutDistinct(b.list, c.id);
    WithoutIds(b.list, c.id);
    FrontDistinct(c, Without(b.list, c.id));
    hide Without;
    assert c.id in PeerIds(b.list) <==> c.id in b.versions;
  }

  lemma WithoutStamps(b: State, id: Id)
    requires Inv(b)
    ensures forall i, j :: 0 <= i < j < |Without(b.list, id)| ==>
      Stamp(b, Without(b.list, id)[i].id) > Stamp(b, Without(b.list, id)[j].id)
    ensures forall i :: 0 <= i < |Without(b.list, id)| ==>
      Without(b.list, id)[i].id != id && Stamp(b, Without(b.list, id)[i].id) <= b.version
  {
    hide Dist;
    var k := WithoutShape(b.list, id);
  }

  lemma AddedKeepsStamps(b: State, c: Peer)
    requires Inv(b) && Fits(b, c.id)
    ensures StampsDecrease(Added(b, c))
  {
    hide Dist;
    var w, r := Without(b.list, c.id), Added(b, c);
    WithoutStamps(b, c.id);
    forall i, j | 0 <= i < j < |r.list| ensures Stamp(r, r.list[i].id) > Stamp(r, r.list[j].id) {
      assert r.list[j] == w[j - 1];
      assert i > 0 ==> r.list[i] == w[i - 1];
    }
  }

  lemma AddedKeepsPlace(b: State, c: Peer, me: Id, index: nat)
    requires Inv(b) && Placed(b, me, index)
    requires c.id != me && BucketOf(me, c.id) == index
    ensures Placed(Added(b, c), me, index)
  {
    hide Dist, StampsDecrease;
    var w := Without(b.list, c.id);
    var k := WithoutShape(b.list, c.id);
    forall i | 0 <= i < |w| ensures w[i].id != me && BucketOf(me, w[i].id) == index {
      assert w[i] == b.list[Skip(k, i)];
    }
  }

  lemma AddedKeepsInv(b: State, c: Peer, me: Id, index: nat)
    requires Inv(b) && Placed(b, me, index)
    requires c.id != me && BucketOf(me, c.id) == index
    ensures Inv(Added(b, c)) && Placed(Added(b, c), me, index)
  {
    AddedKeepsPlace(b, c, me, index);
    hide Dist, Without, Placed;
    if Fits(b, c.id) {
      AddedKeepsList(b, c);
      AddedKeepsStamps(b, c);
      hide Distinct, StampsDecrease;
      assert Inv(Added(b, c));
    }
  }

  // An accepted contact gets a stamp above every earlier one; other stamps stay.
  lemma AddedStamps(b: State, c: Peer)
    requires Inv(b)
    ensures Added(b, c).version >= b.version
    ensures Stamp(Added(b, c), c.id) == if Fits(b, c.id) then b.version + 1 else 0
    ensures forall id :: id != c.id ==> Stamp(Added(b, c), id) == Stamp(b, id)
  {
  }

  lemma RemovedKeepsStamps(b: State, id: Id)
    requires Inv(b)
    ensures StampsDecrease(Removed(b, id))
  {
    hide Dist, Distinct;
    var w := Without(b.list, id);
    WithoutStamps(b, id);
    hide Without;
    forall i, j | 0 <= i < j < |w|
      ensures Stamp(Removed(b, id), w[i].id) > Stamp(Removed(b, id), w[j].id) || Removed(b, id) == b
    {
      assert w[i].id != id && w[j].id != id;
    }
  }

  lemma RemovedKeepsInv(b: State, id: Id)
    requires Inv(b)
    ensures Inv(Removed(b, id))
    ensures id in b.versions ==> |Removed(b, id).list| < b.capacity
  {
    RemovedKeepsStamps(b, id);
    hide Dist, StampsDecrease, Distinct;
    if id in PeerIds(b.list) {
      WithoutDistinct(b.list, id);
      WithoutIds(b.list, id);
    }
    hide Without;
  }

  lemma RemovedKeepsPlace(b: State, id: Id, me: Id, index: nat)
    requires Inv(b) && Placed(b, me, index)
    ensures Placed(Removed(b, id), me, index)
  {
    hide Dist;
    var k := WithoutShape(b.list, id);
  }

  lemma RemovedStamps(b: State, id: Id)
    requires Inv(b)
    ensures Removed(b, id).version == b.version
    ensures Stamp(Removed(b, id), id) == 0
    ensures forall x :: x != id ==> Stamp(Removed(b, id), x) == Stamp(b, x)
  {
  }

  // ------------------------------------------------------------------ the operations, field by field

  // c stands in front with the next stamp, and the others follow in their order.
  ghost predicate Entered(b: State, c: Peer, r: State) {
    && r.probing == b.probing && r.lastLookup == b.lastLookup && r.capacity == b.capacity
    && r.version == b.version + 1 && r.versions == b.versions[c.id := b.version + 1]
    && if c.id !in b.versions then r.list == [c] + b.list
       else exists i :: 0 <= i < |b.list| && b.list[i].id == c.id && r.list == [c] + b.list[..i] + b.list[i + 1..]
  }

  // The contact and its stamp are gone, and the others stay in their order.
  ghost predicate Dropped(b: State, id: Id, r: State) {
    && r.probing == b.probing && r.lastLookup == b.lastLookup && r.capacity == b.capacity && r.version == b.version
    && r.versions == b.versions - {id}
    && exists i :: 0 <= i < |b.list| && b.list[i].id == id && r.list == b.list[..i] + b.list[i + 1..]
  }

  lemma AddedEnters(b: State, c: Peer)
    requires Inv(b)
    ensures if c.id in b.versions || |b.list| < b.capacity then Entered(b, c, Added(b, c)) else Added(b, c) == b
  {
    hide StampsDecrease, Without;
    if c.id in b.versions {
      var i := IndexOf(b.list, c.id);
      WithoutAt(b.list, i);
      MoveToFront(b.list, i, c);
    } else {
      WithoutAbsent(b.list, c.id);
    }
  }

  lemma RemovedDrops(b: State, id: Id)
    requires Inv(b)
    ensures if id in b.versions then Dropped(b, id, Removed(b, id)) else Removed(b, id) == b
  {
    hide StampsDecrease, Without;
    if id in b.versions {
      var i := IndexOf(b.list, id);
      WithoutAt(b.list, i);
    }
  }

  // The scan of AddContact: the whole list is searched, -1 means not found.
  method LastPosition(list: seq<Peer>, id: Id) returns (element: int)
    ensures -1 <= element < |list|
    ensures element >= 0 ==> list[element].id == id
    ensures element < 0 ==> id !in PeerIds(list)
  {
    element := -1;
    for e := 0 to |list|
      invariant -1 <= element < e
      invariant element >= 0 ==> list[element].id == id
      invariant element < 0 ==> forall i :: 0 <= i < e ==> list[i].id != id
    {
      var equal := Equals(id, list[e].id);
      if equal {
        element := e;
      }
    }
  }

  lemma MoveToFront(list: seq<Peer>, e: nat, c: Peer)
    requires e < |list|
    ensures [c] + list[..e] + list[e + 1..] == [c] + (list[..e] + list[e + 1..])
  {
  }

  // ------------------------------------------------------------------ the class

  class Bucket {
    var list: seq<Peer>
    var versions: map<Id, nat>
    var version: nat
    var probing: bool
    var lastLookup: int
    var capacity: nat

    function View(): State
      reads this
    {
      State(list, versions, version, probing, lastLookup, capacity)
    }

    // bucket.go, newBucket, with the capacity newRoutingTable assigns to it.
    constructor (capacity: nat, now: int)
      ensures View() == State([], map[], 0, false, now, capacity)
      ensures Inv(View())
    {
      this.list, this.versions, this.version := [], map[], 0;
      this.probing, this.lastLookup, this.capacity := false, now, capacity;
    }

    // bucket.go, AddContact: scan for the contact, then push or move it to the front.
    method AddContact(contact: Peer)
      requires Inv(View())
      modifies this
      ensures View() == Added(old(View()), contact)
    {
      hide Without, StampsDecrease;
      var element := LastPosition(list, contact.id);
      if element < 0 {
        WithoutAbsent(list, contact.id);
        if |list| < capacity {
          list := [contact] + list;
        } else {
          return;
        }
      } else {
        WithoutAt(list, element);
        assert contact.id == PeerIds(list)[element];
        MoveToFront(list, element, contact);
        list := [contact] + list[..element] + list[element + 1..];
      }
      version := version + 1;
      versions := versions[contact.id := version];
    }

    // bucket.go, remove: unlink the first match and forget its stamp.
    method Remove(id: Id)
      requires Inv(View())
      modifies this
      ensures View() == Removed(old(View()), id)
    {
      for e := 0 to |list|
        invariant View() == old(View())
        invariant forall i :: 0 <= i < e ==> list[i].id != id
      {
        var equal := Equals(list[e].id, id);
        if equal {
          WithoutAt(list, e);
          assert id == PeerIds(list)[e];
          list := list[..e] + list[e + 1..];
          versions := versions - {id};
          return;
        }
      }
    }
  }
}
