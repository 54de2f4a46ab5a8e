// src/kademlia/contact.go: contacts, the identity rule, and sorting by distance.
module Contacts {
  import opened Wrappers
  import opened Ids
  import opened Nearest

  // Address parsing and SHA-256 of an address, both outside the model.
  datatype Addressing = Addressing(canonical: string -> Option<string>, hash: string -> Id)

  // A contact as it arrives: the identifier may be missing.
  datatype Contact = Contact(id: Option<Id>, address: string)

  // A contact whose identifier is present.
  datatype Peer = Peer(id: Id, address: string)

  function Wire(p: Peer): Contact {
    Contact(Some(p.id), p.address)
  }

  ghost predicate Valid(net: Addressing, p: Peer) {
    net.canonical(p.address) == Some(p.address) && net.hash(p.address) == p.id
  }

  // contact.go, validatedContact: the identifier must be the hash of the canonical address.
  function Validated(net: Addressing, c: Contact): (r: Option<Peer>)
    ensures r.Some? ==> c.id == Some(r.value.id) && r.value.id == net.hash(r.value.address)
    ensures r.Some? ==> net.canonical(c.address) == Some(r.value.address)
    ensures r.None? ==> c.id.None? || net.canonical(c.address).None? || c.id.value != net.hash(net.canonical(c.address).value)
    ensures forall p :: Valid(net, p) && c == Wire(p) ==> r == Some(p)
  {
    if c.id.None? then None
    else
      match net.canonical(c.address)
      case None => None
      case Some(address) =>
        if c.id.value == net.hash(address) then Some(Peer(net.hash(address), address)) else None
  }

  function PeerIds(ps: seq<Peer>): (r: seq<Id>)
    ensures |r| == |ps|
    ensures forall i :: 0 <= i < |ps| ==> r[i] == ps[i].id
  {
    seq(|ps|, i requires 0 <= i < |ps| => ps[i].id)
  }

  ghost predicate Distinct(ps: seq<Peer>) {
    forall i, j :: 0 <= i < j < |ps| ==> ps[i].id != ps[j].id
  }

  ghost predicate Ascending(ps: seq<Peer>, target: Id) {
    forall i, j :: 0 <= i < j < |ps| ==> Dist(ps[i].id, target) <= Dist(ps[j].id, target)
  }

  // contact.go, ContactCandidates.Sort with ContactCandidates.Less as its order.
  method SortByDistance(ps: seq<Peer>, target: Id) returns (r: seq<Peer>)
    ensures multiset(r) == multiset(ps)
    ensures Ascending(r, target)
  {
    r := [];
    for n := 0 to |ps|
      invariant multiset(r) == multiset(ps[..n])
      invariant Ascending(r, target)
    {
      r := Insert(r, ps[n], target);
      assert ps[..n + 1] == ps[..n] + [ps[n]];
    }
    assert ps[..|ps|] == ps;
  }

  method InsertPosition(ps: seq<Peer>, p: Peer, target: Id) returns (i: nat)
    requires Ascending(ps, target)
    ensures i <= |ps|
    ensures i > 0 ==> Dist(ps[i - 1].id, target) <= Dist(p.id, target)
    ensures forall j :: i <= j < |ps| ==> Dist(p.id, target) < Dist(ps[j].id, target)
  {
    var distance := CalcDistance(p.id, target);
    i := |ps|;
    while i > 0
      invariant i <= |ps|
      invariant forall j :: i <= j < |ps| ==> Dist(p.id, target) < Dist(ps[j].id, target)
    {
      var other := CalcDistance(ps[i - 1].id, target);
      var less := Less(distance, other);
      if !less {
        return;
      }
      i := i - 1;
    }
  }

  method Insert(ps: seq<Peer>, p: Peer, target: Id) returns (r: seq<Peer>)
    requires Ascending(ps, target)
    ensures multiset(r) == multiset(ps) + multiset{p}
    ensures Ascending(r, target)
  {
    hide Dist, Ascending;
    var i := InsertPosition(ps, p, target);
    InsertKeepsOrder(ps, p, i, target);
    InsertAddsOne(ps, p, i);
    r := ps[..i] + [p] + ps[i..];
  }

  lemma InsertAddsOne(ps: seq<Peer>, p: Peer, i: nat)
    requires i <= |ps|
    ensures multiset(ps[..i] + [p] + ps[i..]) == multiset(ps) + multiset{p}
  {
    var front, back := ps[..i], ps[i..];
    assert ps == front + back;
    assert multiset(front + [p]) == multiset(front) + multiset{p};
  }

  lemma InsertKeepsOrder(ps: seq<Peer>, p: Peer, i: nat, target: Id)
    requires Ascending(ps, target) && i <= |ps|
    requires i > 0 ==> Dist(ps[i - 1].id, target) <= Dist(p.id, target)
    requires forall j :: i <= j < |ps| ==> Dist(p.id, target) < Dist(ps[j].id, target)
    ensures Ascending(ps[..i] + [p] + ps[i..], target)
  {
    var r := ps[..i] + [p] + ps[i..];
    forall a, b | 0 <= a < b < |r| ensures Dist(r[a].id, target) <= Dist(r[b].id, target) {
      assert r[a] == if a < i then ps[a] else if a == i then p else ps[a - 1];
      assert r[b] == if b < i then ps[b] else if b == i then p else ps[b - 1];
      if b == i && a < i - 1 {
        assert Dist(ps[a].id, target) <= Dist(ps[i - 1].id, target);
      }
    }
  }

  lemma TwoCopies(ps: seq<Peer>, i: int, j: int)
    requires 0 <= i < j < |ps| && ps[i] == ps[j]
    ensures multiset(ps)[ps[i]] >= 2
  {
    assert ps == ps[..j] + [ps[j]] + ps[j + 1..];
    assert ps[i] in ps[..j];
  }

  lemma {:induction false} CopiesTwo(ps: seq<Peer>, p: Peer)
    requires multiset(ps)[p] >= 2
    ensures exists i, j :: 0 <= i < j < |ps| && ps[i] == p && ps[j] == p
  {
    var last := |ps| - 1;
    assert ps == ps[..last] + [ps[last]];
    if ps[last] == p {
      assert p in multiset(ps[..last]);
      var i :| 0 <= i < last && ps[i] == p;
    } else {
      CopiesTwo(ps[..last], p);
    }
  }

  // A permutation of contacts with distinct identifiers has distinct identifiers.
  lemma PermutedDistinct(ps: seq<Peer>, qs: seq<Peer>)
    requires multiset(ps) == multiset(qs) && Distinct(ps)
    ensures Distinct(qs)
    ensures Elems(PeerIds(ps)) == Elems(PeerIds(qs))
  {
    forall i, j | 0 <= i < j < |qs| ensures qs[i].id != qs[j].id {
      if qs[i].id == qs[j].id {
        assert qs[i] in multiset(ps) && qs[j] in multiset(ps);
        if qs[i] == qs[j] {
          TwoCopies(qs, i, j);
          CopiesTwo(ps, qs[i]);
        }
      }
    }
    SameIds(ps, qs);
    SameIds(qs, ps);
  }

  lemma SameIds(ps: seq<Peer>, qs: seq<Peer>)
    requires multiset(ps) == multiset(qs)
    ensures Elems(PeerIds(ps)) <= Elems(PeerIds(qs))
  {
    forall x | x in PeerIds(ps) ensures x in PeerIds(qs) {
      var i :| 0 <= i < |ps| && ps[i].id == x;
      assert ps[i] in multiset(qs);
      var j :| 0 <= j < |qs| && qs[j] == ps[i];
      assert PeerIds(qs)[j] == x;
    }
  }

  // Sorted contacts with distinct identifiers are strictly ordered.
  lemma AscendingDistinct(ps: seq<Peer>, target: Id)
    requires Ascending(ps, target) && Distinct(ps)
    ensures Ordered(PeerIds(ps), target)
  {
    var r := PeerIds(ps);
    forall i, j | 0 <= i < j < |r| ensures Dist(r[i], target) < Dist(r[j], target) {
      if Dist(r[i], target) == Dist(r[j], target) {
        DistInjective(r[i], r[j], target);
      }
    }
  }

  // Sort, then keep the first `count`: the selection used throughout the source.
  method ClosestPrefix(ps: seq<Peer>, target: Id, count: nat) returns (r: seq<Peer>)
    requires Distinct(ps)
    ensures IsNearestList(PeerIds(r), Elems(PeerIds(ps)), target, count)
    ensures |r| == Min(count, |ps|)
    ensures forall p :: p in r ==> p in ps
  {
    var sorted := SortByDistance(ps, target);
    PermutedDistinct(ps, sorted);
    AscendingDistinct(sorted, target);
    PrefixIsNearest(PeerIds(sorted), target, count);
    assert |multiset(ps)| == |multiset(sorted)|;
    var n := Min(count, |sorted|);
    r := sorted[..n];
    assert PeerIds(r) == PeerIds(sorted)[..n];
    forall p | p in r ensures p in ps {
      assert p in multiset(sorted);
    }
  }
}
