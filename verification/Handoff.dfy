// src/kademlia/handoff.go: which holder sends a value to a newly seen peer, and the bounded
// queue of peers awaiting a transfer.
module Handoff {
  import opened Wrappers
  import opened Ids
  import opened Nearest
  import opened Contacts

  // ------------------------------------------------------------------ sender election

  // Nobody known is nearer to the key than self, apart from the joiner.
  ghost predicate IsClosestHolder(self: Id, joiner: Id, known: set<Id>, key: Id) {
    forall x :: x in known - {joiner} ==> Dist(self, key) <= Dist(x, key)
  }

  ghost predicate Eligible(self: Id, joiner: Id, known: set<Id>, key: Id, k: nat) {
    IsClosestHolder(self, joiner, known, key) && joiner in Top(known + {self, joiner}, key, k)
  }

  // handoff.go, handoffEligible. Contacts may repeat and may include self or the joiner.
  method HandoffEligible(self: Peer, peer: Peer, key: Id, contacts: seq<Peer>, k: nat) returns (r: bool)
    ensures r <==> Eligible(self.id, peer.id, Elems(PeerIds(contacts)), key, k)
  {
    var selfDistance := CalcDistance(self.id, key);
    var peerDistance := CalcDistance(peer.id, key);
    var closer := 0;
    var less := Less(selfDistance, peerDistance);
    if less {
      closer := closer + 1;
    }
    var seen := {self.id, peer.id};
    ghost var ids := PeerIds(contacts);
    ghost var nearer := Nearer({self.id, peer.id}, peer.id, key);
    StartCount(self.id, peer.id, key);
    for i := 0 to |contacts|
      invariant seen == {self.id, peer.id} + Elems(ids[..i])
      invariant nearer == Nearer(seen, peer.id, key) && closer == |nearer|
      invariant IsClosestHolder(self.id, peer.id, Elems(ids[..i]), key)
    {
      var contact := contacts[i];
      assert ids[..i + 1] == ids[..i] + [contact.id];
      assert Elems(ids[..i + 1]) == Elems(ids[..i]) + {contact.id};
      if contact.id in seen {
        SeenIsChecked(self.id, peer.id, Elems(ids[..i]), contact.id, key);
        assert {self.id, peer.id} + Elems(ids[..i + 1]) == seen;
        continue;
      }
      var distance := CalcDistance(contact.id, key);
      var beatsSelf := Less(distance, selfDistance);
      if beatsSelf {
        assert contact.id in Elems(ids) - {peer.id};
        return false;
      }
      var beatsPeer := Less(distance, peerDistance);
      CountOne(seen, contact.id, peer.id, key);
      seen := seen + {contact.id};
      nearer := Nearer(seen, peer.id, key);
      if beatsPeer {
        closer := closer + 1;
      }
    }
    assert ids[..|contacts|] == ids;
    assert {self.id, peer.id} + Elems(ids) == Elems(ids) + {self.id, peer.id};
    return closer < k;
  }

  lemma StartCount(self: Id, peer: Id, key: Id)
    ensures |Nearer({self, peer}, peer, key)| == if Dist(self, key) < Dist(peer, key) then 1 else 0
  {
    if Dist(self, key) < Dist(peer, key) {
      assert Nearer({self, peer}, peer, key) == {self};
    } else {
      assert Nearer({self, peer}, peer, key) == {};
    }
  }

  lemma CountOne(seen: set<Id>, x: Id, peer: Id, key: Id)
    requires x !in seen
    ensures |Nearer(seen + {x}, peer, key)| ==
      |Nearer(seen, peer, key)| + if Dist(x, key) < Dist(peer, key) then 1 else 0
  {
    if Dist(x, key) < Dist(peer, key) {
      assert Nearer(seen + {x}, peer, key) == Nearer(seen, peer, key) + {x};
    } else {
      assert Nearer(seen + {x}, peer, key) == Nearer(seen, peer, key);
    }
  }

  lemma SeenIsChecked(self: Id, peer: Id, checked: set<Id>, x: Id, key: Id)
    requires IsClosestHolder(self, peer, checked, key) && x in checked + {self, peer}
    ensures IsClosestHolder(self, peer, checked + {x}, key)
  {
  }

  // All existing nodes share one view of each other; whether the joiner is already in a node's
  // contacts makes no difference.
  ghost predicate SharedView(existing: set<Id>, joiner: Id, known: map<Id, set<Id>>) {
    && joiner !in existing
    && forall e :: e in existing ==> e in known && known[e] + {e, joiner} == existing + {joiner}
  }

  // Exactly one existing node is elected when the joiner is among the k nearest, none otherwise.
  lemma ExactlyOneSender(existing: set<Id>, joiner: Id, known: map<Id, set<Id>>, key: Id, k: nat)
    requires SharedView(existing, joiner, known) && existing != {}
    ensures joiner in Top(existing + {joiner}, key, k) ==>
      exists e :: e in existing && Eligible(e, joiner, known[e], key, k)
        && forall f :: f in existing && Eligible(f, joiner, known[f], key, k) ==> f == e
    ensures joiner !in Top(existing + {joiner}, key, k) ==>
      forall e :: e in existing ==> !Eligible(e, joiner, known[e], key, k)
  {
    forall e | e in existing ensures known[e] + {e, joiner} == existing + {joiner} {
    }
    if joiner in Top(existing + {joiner}, key, k) {
      var r := SortedExists(existing, key);
      var e := r[0];
      assert e in Elems(r);
      forall x | x in existing ensures Dist(e, key) <= Dist(x, key) {
        assert x in Elems(r);
        var i :| 0 <= i < |r| && r[i] == x;
      }
      forall x | x in known[e] - {joiner} ensures x in existing {
        assert x in existing + {joiner};
      }
      assert Eligible(e, joiner, known[e], key, k);
      forall f | f in existing && Eligible(f, joiner, known[f], key, k) ensures f == e {
        if f != e {
          assert e in known[f] + {f, joiner};
          DistInjective(e, f, key);
        }
      }
    }
  }

  // ------------------------------------------------------------------ the transfer queue

  const QUEUE_SIZE := 256
  const HISTORY_SIZE := 4096

  // An element of the recency list, identified by its handle.
  datatype Entry = Entry(handle: nat, id: Id)

  // transferring: the peer the worker has taken and not yet finished.
  datatype State = State(
    inbox: seq<Peer>, transferring: Option<Peer>, pending: set<Id>,
    recent: map<Id, nat>, order: seq<Entry>, nextHandle: nat)

  function Transferring(s: State): set<Id> {
    if s.transferring.Some? then {s.transferring.value.id} else {}
  }

  ghost predicate Inv(s: State) {
    && Distinct(s.inbox) && |s.inbox| <= QUEUE_SIZE
    && s.pending == Elems(PeerIds(s.inbox)) + Transferring(s)
    && Elems(PeerIds(s.inbox)) !! Transferring(s)
    && |s.order| <= HISTORY_SIZE
    && Indexed(s.recent, s.order)
    && (forall e :: e in s.order ==> e.handle < s.nextHandle)
  }

  ghost predicate Apart(order: seq<Entry>) {
    forall i, j :: 0 <= i < j < |order| ==> order[i].handle != order[j].handle && order[i].id != order[j].id
  }

  // `recent` maps exactly the listed identifiers, each to its own element.
  ghost predicate Indexed(recent: map<Id, nat>, order: seq<Entry>) {
    && Apart(order)
    && (forall e :: e in order ==> e.id in recent && recent[e.id] == e.handle)
    && (forall id :: id in recent ==> Entry(recent[id], id) in order)
  }

  ghost function Moved(order: seq<Entry>, i: nat): seq<Entry>
    requires i < |order|
  {
    [order[i]] + order[..i] + order[i + 1..]
  }

  // The oldest entry falls out of a list that has grown too long.
  function Trimmed(order: seq<Entry>): seq<Entry> {
    if |order| > HISTORY_SIZE then order[..|order| - 1] else order
  }

  // A peer enters the recency list at the front; the oldest entry may fall out.
  ghost predicate Pushed(s: State, t: State, peer: Peer) {
    var order := [Entry(s.nextHandle, peer.id)] + s.order;
    var recent := s.recent[peer.id := s.nextHandle];
    && t.nextHandle == s.nextHandle + 1
    && t.order == Trimmed(order)
    && t.recent == if |order| > HISTORY_SIZE then recent - {order[|order| - 1].id} else recent
  }

  // The effect of one observation on the whole queue.
  ghost predicate ObservedAs(s: State, t: State, peer: Peer, self: Id) {
    if peer.id == self then t == s
    else if peer.id in s.recent then
      exists i :: 0 <= i < |s.order| && s.order[i].id == peer.id && t == s.(order := Moved(s.order, i))
    else if peer.id in s.pending || |s.inbox| == QUEUE_SIZE then t == s
    else
      && t.inbox == s.inbox + [peer] && t.pending == s.pending + {peer.id}
      && t.transferring == s.transferring && Pushed(s, t, peer)
  }

  lemma MovedSame(order: seq<Entry>, i: nat)
    requires i < |order|
    ensures forall e :: e in Moved(order, i) <==> e in order
  {
    assert order == order[..i] + [order[i]] + order[i + 1..];
    assert multiset(Moved(order, i)) == multiset(order);
    forall e ensures e in Moved(order, i) <==> e in order {
      assert e in Moved(order, i) <==> e in multiset(Moved(order, i));
    }
  }

  function Source(i: nat, k: nat): nat {
    if k == 0 then i else if k <= i then k - 1 else k
  }

  lemma MovedAt(order: seq<Entry>, i: nat, k: nat)
    requires i < |order| && k < |order|
    ensures Source(i, k) < |order| && Moved(order, i)[k] == order[Source(i, k)]
  {
  }

  lemma MovedApart(order: seq<Entry>, i: nat)
    requires Apart(order) && i < |order|
    ensures Apart(Moved(order, i))
  {
    var m := Moved(order, i);
    assert |m| == |order|;
    hide Moved;
    forall a, b | 0 <= a < b < |m| ensures m[a].handle != m[b].handle && m[a].id != m[b].id {
      MovedAt(order, i, a);
      MovedAt(order, i, b);
    }
  }

  lemma MovedIndexed(recent: map<Id, nat>, order: seq<Entry>, i: nat)
    requires Indexed(recent, order) && i < |order|
    ensures Indexed(recent, Moved(order, i)) && |Moved(order, i)| == |order|
  {
    MovedSame(order, i);
    MovedApart(order, i);
    hide Apart;
  }

  lemma PushedIndexed(recent: map<Id, nat>, order: seq<Entry>, e: Entry)
    requires Indexed(recent, order) && e.id !in recent
    requires forall x :: x in order ==> x.handle < e.handle
    ensures Indexed(recent[e.id := e.handle], [e] + order)
  {
    var m, r := [e] + order, recent[e.id := e.handle];
    assert forall x :: x in m <==> x == e || x in order;
    assert forall i :: 0 <= i < |order| ==> order[i] in order;
  }

  lemma DroppedIndexed(recent: map<Id, nat>, order: seq<Entry>)
    requires Indexed(recent, order) && order != []
    ensures Indexed(recent - {order[|order| - 1].id}, order[..|order| - 1])
  {
    var n := |order| - 1;
    assert order == order[..n] + [order[n]];
    assert forall x :: x in order <==> x == order[n] || x in order[..n];
  }

  lemma ObservedKeepsInv(s: State, t: State, peer: Peer, self: Id)
    requires Inv(s) && ObservedAs(s, t, peer, self)
    ensures Inv(t)
  {
    hide Dist, Indexed, Moved, Distinct, Elems, Pushed;
    if peer.id != self && peer.id in s.recent {
      var i :| 0 <= i < |s.order| && s.order[i].id == peer.id && t == s.(order := Moved(s.order, i));
      MovedIndexed(s.recent, s.order, i);
      MovedSame(s.order, i);
    } else if t != s {
      AdmittedKeepsInv(s, t, peer);
    }
  }

  lemma AdmittedKeepsInv(s: State, t: State, peer: Peer)
    requires Inv(s) && peer.id !in s.recent && peer.id !in s.pending && |s.inbox| < QUEUE_SIZE && Pushed(s, t, peer)
    requires t.inbox == s.inbox + [peer] && t.pending == s.pending + {peer.id} && t.transferring == s.transferring
    ensures Inv(t)
  {
    hide Dist, Apart;
    AdmittedOrder(s, t, peer);
    AdmittedInbox(s, peer);
    hide Indexed, Pushed, Distinct;
  }

  // An observation, field by field: a recent peer moves to the front and nothing else happens; a
  // full inbox leaves a new one unmarked; otherwise it is queued, pending and the newest entry.
  ghost predicate Noted(s: State, t: State, peer: Peer, self: Id) {
    if peer.id == self then t == s
    else if peer.id in s.recent then
      && t.inbox == s.inbox && t.pending == s.pending && t.recent == s.recent && t.transferring == s.transferring
      && multiset(t.order) == multiset(s.order) && t.order != [] && t.order[0] == Entry(t.recent[peer.id], peer.id)
    else if peer.id in s.pending || |s.inbox| == 256 then t == s
    else
      && t.inbox == s.inbox + [peer] && t.pending == s.pending + {peer.id} && t.transferring == s.transferring
      && peer.id in t.recent && t.order != [] && t.order[0] == Entry(t.recent[peer.id], peer.id)
      && t.order[1..] == if |s.order| < 4096 then s.order else s.order[..4095]
  }

  lemma ObservedNotes(s: State, t: State, peer: Peer, self: Id)
    requires Inv(s) && ObservedAs(s, t, peer, self)
    ensures Noted(s, t, peer, self)
  {
    hide Dist, Distinct, Transferring, Elems, Pushed, Moved;
    if peer.id != self && peer.id in s.recent {
      var i :| 0 <= i < |s.order| && s.order[i].id == peer.id && t == s.(order := Moved(s.order, i));
      MovedFront(s.order, i);
      assert s.order[i] in s.order;
    } else if t != s {
      AdmittedFront(s, t, peer);
    }
  }

  lemma MovedFront(order: seq<Entry>, i: nat)
    requires i < |order|
    ensures Moved(order, i) != [] && Moved(order, i)[0] == order[i] && multiset(Moved(order, i)) == multiset(order)
  {
    assert order == order[..i] + [order[i]] + order[i + 1..];
  }

  lemma AdmittedOrder(s: State, t: State, peer: Peer)
    requires Inv(s) && peer.id !in s.recent && Pushed(s, t, peer)
    ensures Indexed(t.recent, t.order) && |t.order| <= HISTORY_SIZE
    ensures forall e :: e in t.order ==> e.handle < t.nextHandle
  {
    hide Dist, Distinct, Apart, Transferring;
    var e := Entry(s.nextHandle, peer.id);
    PushedIndexed(s.recent, s.order, e);
    if |[e] + s.order| > HISTORY_SIZE {
      DroppedIndexed(s.recent[peer.id := s.nextHandle], [e] + s.order);
    }
  }

  // A peer that enters is the newest entry, in front of as many of the others as there is room for.
  lemma AdmittedFront(s: State, t: State, peer: Peer)
    requires Inv(s) && peer.id !in s.recent && Pushed(s, t, peer)
    ensures peer.id in t.recent && t.order != [] && t.order[0] == Entry(t.recent[peer.id], peer.id)
    ensures t.order[1..] == if |s.order| < 4096 then s.order else s.order[..4095]
  {
    hide Dist, Distinct, Transferring;
    var order := [Entry(s.nextHandle, peer.id)] + s.order;
    assert order[1..] == s.order;
    if |order| > HISTORY_SIZE {
      assert order[|order| - 1] == s.order[|s.order| - 1] && order[|order| - 1] in s.order;
      assert t.order[1..] == s.order[..4095];
    }
  }

  lemma AdmittedInbox(s: State, peer: Peer)
    requires Inv(s) && peer.id !in s.pending
    ensures Distinct(s.inbox + [peer])
    ensures Elems(PeerIds(s.inbox + [peer])) == Elems(PeerIds(s.inbox)) + {peer.id}
  {
    hide Dist, Indexed;
    assert PeerIds(s.inbox + [peer]) == PeerIds(s.inbox) + [peer.id];
    assert Elems(PeerIds(s.inbox) + [peer.id]) == Elems(PeerIds(s.inbox)) + {peer.id};
    forall i | 0 <= i < |s.inbox| ensures s.inbox[i].id != peer.id {
      assert PeerIds(s.inbox)[i] in Elems(PeerIds(s.inbox));
    }
  }

  // Follow a handle to its list element.
  method PositionOf(order: seq<Entry>, handle: nat, id: Id) returns (i: nat)
    requires Apart(order) && Entry(handle, id) in order
    ensures i < |order| && order[i] == Entry(handle, id)
  {
    ghost var j :| 0 <= j < |order| && order[j] == Entry(handle, id);
    i := 0;
    while order[i].handle != handle
      invariant i <= j
      decreases j - i
    {
      i := i + 1;
    }
  }

  lemma FirstApart(ps: seq<Peer>)
    requires ps != [] && Distinct(ps)
    ensures Distinct(ps[1..]) && Elems(PeerIds(ps)) == {ps[0].id} + Elems(PeerIds(ps[1..]))
    ensures {ps[0].id} !! Elems(PeerIds(ps[1..]))
  {
    assert PeerIds(ps) == [ps[0].id] + PeerIds(ps[1..]);
    assert Elems([ps[0].id] + PeerIds(ps[1..])) == {ps[0].id} + Elems(PeerIds(ps[1..]));
    forall id | id in PeerIds(ps[1..]) ensures id != ps[0].id {
      var i :| 0 <= i < |ps| - 1 && PeerIds(ps[1..])[i] == id;
      assert ps[i + 1].id == id;
    }
  }

  class HandoffQueue {
    var inbox: seq<Peer>
    var transferring: Option<Peer>
    var pending: set<Id>
    var recent: map<Id, nat>
    var order: seq<Entry>
    var nextHandle: nat

    function View(): State
      reads this
    {
      State(inbox, transferring, pending, recent, order, nextHandle)
    }

    constructor ()
      ensures View() == State([], None, {}, map[], [], 0) && Inv(View())
    {
      inbox, transferring, pending, recent, order, nextHandle := [], None, {}, map[], [], 0;
    }

    // The element the `recent` entry of an identifier points to.
    method Locate(id: Id) returns (i: nat)
      requires Inv(View()) && id in recent
      ensures i < |order| && order[i] == Entry(recent[id], id)
    {
      assert Entry(recent[id], id) in order;
      i := PositionOf(order, recent[id], id);
    }

    // handoff.go, observe: never waits; a full inbox leaves the peer unmarked.
    method Observe(peer: Peer, self: Id)
      requires Inv(View())
      modifies this
      ensures Inv(View())
      ensures ObservedAs(old(View()), View(), peer, self)
      ensures Noted(old(View()), View(), peer, self)
    {
      hide Inv, Indexed, Apart, Dist, Noted;
      ghost var before := View();
      var equal := Equals(peer.id, self);
      if equal {
        ObservedNotes(before, before, peer, self);
        return;
      }
      if peer.id in recent {
        var i := Locate(peer.id);
        order := [order[i]] + order[..i] + order[i + 1..];
        assert View() == before.(order := Moved(before.order, i));
      } else if !(peer.id in pending || |inbox| == QUEUE_SIZE) {
        inbox := inbox + [peer];
        pending := pending + {peer.id};
        order := [Entry(nextHandle, peer.id)] + order;
        recent := recent[peer.id := nextHandle];
        nextHandle := nextHandle + 1;
        if |order| > HISTORY_SIZE {
          var oldest := order[|order| - 1];
          recent := recent - {oldest.id};
          order := order[..|order| - 1];
        }
      }
      ObservedKeepsInv(before, View(), peer, self);
      ObservedNotes(before, View(), peer, self);
    }

    // handoff.go, handoffLoop: the worker takes the next peer ...
    method Take() returns (peer: Peer)
      requires Inv(View()) && transferring.None? && inbox != []
      modifies this
      ensures Inv(View())
      ensures peer == old(inbox)[0]
      ensures View() == old(View()).(inbox := old(inbox)[1..], transferring := Some(peer))
    {
      FirstApart(inbox);
      hide Dist, Indexed, Apart, Distinct, Elems;
      peer := inbox[0];
      inbox := inbox[1..];
      transferring := Some(peer);
    }

    // ... and forgets it after the transfer.
    method Finish()
      requires Inv(View()) && transferring.Some?
      modifies this
      ensures Inv(View())
      ensures View() == old(View()).(transferring := None, pending := Elems(PeerIds(inbox)))
    {
      pending := pending - {transferring.value.id};
      transferring := None;
    }
  }
}
