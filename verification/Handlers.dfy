// The serving side of FIND_NODE and FIND_VALUE (find_node.go, find_value.go) and the local value
// store behind it (datastore.go).
module Handlers {
  import opened Wrappers
  import opened Ids
  import opened Nearest
  import opened Contacts
  import opened Routing
  import opened FindRpc

  const MAX_INT := 0x7fff_ffff_ffff_ffff

  datatype StoreError = TooLarge | HashMismatch

  // datastore.go, put: the decision for one write.
  function PutError(digest: Bytes -> Id, maxValueSize: nat, key: Id, data: Bytes): Option<StoreError> {
    if |data| > maxValueSize then Some(TooLarge)
    else if digest(data) != key then Some(HashMismatch)
    else None
  }

  ghost predicate ContentAddressed(digest: Bytes -> Id, maxValueSize: nat, values: map<Id, Bytes>) {
    forall key :: key in values ==> digest(values[key]) == key && |values[key]| <= maxValueSize
  }

  // datastore.go, valueStore.
  class ValueStore {
    var values: map<Id, Bytes>
    const digest: Bytes -> Id
    const maxValueSize: nat

    ghost predicate Good()
      reads this
    {
      ContentAddressed(digest, maxValueSize, values)
    }

    constructor (digest: Bytes -> Id, maxValueSize: nat)
      ensures Good() && values == map[]
      ensures this.digest == digest && this.maxValueSize == maxValueSize
    {
      this.values, this.digest, this.maxValueSize := map[], digest, maxValueSize;
    }

    method Put(key: Id, data: Bytes) returns (e: Option<StoreError>)
      requires Good()
      modifies this
      ensures Good()
      ensures e == PutError(digest, maxValueSize, key, data)
      ensures e == Some(TooLarge) <==> |data| > maxValueSize
      ensures e.None? <==> |data| <= maxValueSize && digest(data) == key
      ensures values == if e.None? then old(values)[key := data] else old(values)
    {
      if |data| > maxValueSize {
        return Some(TooLarge);
      }
      if digest(data) != key {
        return Some(HashMismatch);
      }
      values := values[key := data];
      return None;
    }

    method Get(key: Id) returns (r: Option<Bytes>)
      requires Good()
      ensures r.Some? <==> key in values
      ensures r.Some? ==> r.value == values[key] && digest(r.value) == key
    {
      return if key in values then Some(values[key]) else None;
    }
  }

  // find_node.go, findNodePayload: walk the sorted contacts, skip the requester, stop at K.
  method FindNodePayload(table: RoutingTable, target: Id, requester: Id, k: nat) returns (contacts: seq<Peer>)
    requires table.Good() && k >= 1
    requires |Known(table.View())| <= MAX_INT
    ensures IsNearestList(PeerIds(contacts), Known(table.View()) - {requester}, target, k)
    ensures forall p :: p in contacts ==> p in Scan(table.View().buckets, ID_BITS)
  {
    var all := table.FindClosestContacts(Some(target), MAX_INT);
    WholeList(PeerIds(all), Known(table.View()), target, MAX_INT);
    contacts := SkipRequester(all, target, requester, k);
  }

  method SkipRequester(all: seq<Peer>, target: Id, requester: Id, k: nat) returns (contacts: seq<Peer>)
    requires Ordered(PeerIds(all), target) && k >= 1
    ensures IsNearestList(PeerIds(contacts), Elems(PeerIds(all)) - {requester}, target, k)
    ensures forall p :: p in contacts ==> p in all
  {
    hide Dist;
    ghost var ids := PeerIds(all);
    contacts := [];
    for i := 0 to |all|
      invariant |contacts| < k
      invariant forall p :: p in contacts ==> p in all
      invariant Kept(ids[..i], PeerIds(contacts), requester, target)
    {
      assert ids[..i + 1] == ids[..i] + [all[i].id];
      OrderedPrefix(ids, target, i + 1);
      var equal := Equals(all[i].id, requester);
      KeepStep(ids[..i], PeerIds(contacts), all[i].id, requester, target);
      if equal {
        continue;
      }
      assert PeerIds(contacts + [all[i]]) == PeerIds(contacts) + [all[i].id];
      contacts := contacts + [all[i]];
      if |contacts| == k {
        KeptIsNearest(ids, i + 1, PeerIds(contacts), Elems(ids), requester, target, k);
        return;
      }
    }
    KeptIsNearest(ids, |all|, PeerIds(contacts), Elems(ids), requester, target, k);
  }

  // The prefix of an ordered list without the requester, in the same order.
  ghost predicate Kept(prefix: seq<Id>, kept: seq<Id>, requester: Id, target: Id) {
    Ordered(kept, target) && Elems(kept) == Elems(prefix) - {requester}
  }

  lemma WholeList(r: seq<Id>, s: set<Id>, target: Id, k: nat)
    requires IsNearestList(r, s, target, k) && |s| <= k
    ensures Elems(r) == s
  {
    TopSize(s, target, k);
    SubsetCard(Top(s, target, k), s);
  }

  lemma OrderedPrefix(r: seq<Id>, target: Id, n: nat)
    requires Ordered(r, target) && n <= |r|
    ensures Ordered(r[..n], target)
  {
    hide Dist;
  }

  lemma KeepStep(prefix: seq<Id>, kept: seq<Id>, x: Id, requester: Id, target: Id)
    requires Kept(prefix, kept, requester, target) && Ordered(prefix + [x], target)
    ensures x == requester ==> Kept(prefix + [x], kept, requester, target)
    ensures x != requester ==> Kept(prefix + [x], kept + [x], requester, target)
  {
    hide Dist;
    assert Elems(prefix + [x]) == Elems(prefix) + {x};
    assert Elems(kept + [x]) == Elems(kept) + {x};
    forall y | y in Elems(kept) ensures Dist(y, target) < Dist(x, target) {
      assert y in prefix;
      var i :| 0 <= i < |prefix| && prefix[i] == y;
      assert (prefix + [x])[i] == y && (prefix + [x])[|prefix|] == x;
    }
    AppendFarther(kept, x, target);
  }

  lemma KeptIsNearest(all: seq<Id>, n: nat, kept: seq<Id>, known: set<Id>, requester: Id, target: Id, k: nat)
    requires Ordered(all, target) && Elems(all) == known && n <= |all|
    requires Kept(all[..n], kept, requester, target)
    requires |kept| == k || (|kept| < k && n == |all|)
    ensures IsNearestList(kept, known - {requester}, target, k)
  {
    hide Dist;
    var c := Elems(kept);
    OrderedCard(kept, target);
    forall x, y | x in c && y in known - {requester} && Dist(y, target) < Dist(x, target) ensures y in c {
      assert x in all[..n] && y in all;
      var i :| 0 <= i < n && all[..n][i] == x;
      var j :| 0 <= j < |all| && all[j] == y;
      assert j < n;
      assert all[..n][j] == y;
    }
    if n == |all| {
      assert all[..n] == all;
    }
    ClosedIsTop(c, known - {requester}, target, k);
  }

  // find_value.go, findValuePayload: the value when it is stored here, otherwise contacts.
  method FindValuePayload(table: RoutingTable, store: ValueStore, key: Id, requester: Id, k: nat)
    returns (r: ValueResponse, ghost list: seq<Peer>)
    requires table.Good() && store.Good() && k >= 1
    requires |Known(table.View())| <= MAX_INT
    ensures r == ValueAnswer(store.values, key, list)
    ensures key !in store.values ==> IsNearestList(PeerIds(list), Known(table.View()) - {requester}, key, k)
  {
    list := [];
    var data := store.Get(key);
    if data.Some? {
      return ValueResponse(Some(true), data, None), list;
    }
    var nearest := FindNodePayload(table, key, requester, k);
    list := nearest;
    r := ValueResponse(Some(false), None, Some(WireList(nearest)));
  }

  // ------------------------------------------------------------------ what the caller decodes

  function WireList(ps: seq<Peer>): seq<Contact> {
    seq(|ps|, i requires 0 <= i < |ps| => Wire(ps[i]))
  }

  function ValueAnswer(values: map<Id, Bytes>, key: Id, list: seq<Peer>): ValueResponse {
    if key in values then ValueResponse(Some(true), Some(values[key]), None)
    else ValueResponse(Some(false), None, Some(WireList(list)))
  }

  // Encoding a list of valid, distinct contacts and filtering it on arrival gives the list back.
  lemma {:induction false} WireRoundTrip(net: Addressing, ps: seq<Peer>, seen: set<Id>)
    requires Distinct(ps)
    requires forall i :: 0 <= i < |ps| ==> Valid(net, ps[i]) && ps[i].id !in seen
    ensures AllValid(net, WireList(ps)) && FirstSeen(net, WireList(ps), seen) == ps
  {
    forall i | 0 <= i < |ps| ensures Validated(net, WireList(ps)[i]) == Some(ps[i]) {
      assert Valid(net, ps[i]) && WireList(ps)[i] == Wire(ps[i]);
    }
    if ps != [] {
      assert WireList(ps)[1..] == WireList(ps[1..]);
      WireRoundTrip(net, ps[1..], seen + {ps[0].id});
    }
  }

  lemma NodeRoundTrip(env: Env, list: seq<Peer>)
    requires Distinct(list) && |list| <= env.cfg.k
    requires forall i :: 0 <= i < |list| ==> Valid(env.net, list[i]) && list[i].id != env.me
    ensures NodeOutcome(env, Some(NodeResponse(Some(WireList(list))))) == Reported(list)
  {
    WireRoundTrip(env.net, list, {env.me});
  }

  lemma ValueRoundTrip(env: Env, values: map<Id, Bytes>, key: Id, list: seq<Peer>)
    requires ContentAddressed(env.digest, env.cfg.maxValueSize, values)
    requires Distinct(list) && |list| <= env.cfg.k
    requires forall i :: 0 <= i < |list| ==> Valid(env.net, list[i]) && list[i].id != env.me
    ensures ValueOutcome(env, key, Some(ValueAnswer(values, key, list))) ==
      if key in values then Found(values[key]) else Reported(list)
  {
    WireRoundTrip(env.net, list, {env.me});
  }
}
