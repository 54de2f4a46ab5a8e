// The global meaning of the local stopping rule: with well-filled buckets everywhere, a lookup
// returns exactly the K nearest nodes of the whole network (experiments/runner.go, nearest).
module ExactLookup {
  import opened Wrappers
  import opened Ids
  import opened Nearest
  import opened Contacts
  import opened FindRpc
  import opened Lookup

  // All nodes of a network and the address each of them listens on.
  datatype World = World(nodes: set<Id>, address: Id -> string)

  function PeerOf(w: World, id: Id): Peer {
    Peer(id, w.address(id))
  }

  ghost predicate ValidWorld(w: World, net: Addressing) {
    forall id :: id in w.nodes ==> Valid(net, PeerOf(w, id))
  }

  // Contacts of x in one bucket of its table, apart from the node that runs the lookup.
  ghost function BucketKnown(known: set<Id>, x: Id, index: nat, origin: Id): set<Id> {
    set y | y in known && y != origin && BucketOf(x, y) == index
  }

  // Every bucket of x knows all nodes of its range, or at least k of them, not counting the
  // origin: a reply skips the requester.
  ghost predicate WellFilled(nodes: set<Id>, known: set<Id>, x: Id, origin: Id, k: nat) {
    && known <= nodes - {x}
    && forall index :: 0 <= index < ID_BITS ==>
      || (forall y :: y in nodes - {x, origin} && BucketOf(x, y) == index ==> y in known)
      || |BucketKnown(known, x, index, origin)| >= k
  }

  // A reply of x: the k contacts nearest to the target in some well-filled table of x, without
  // the requester. The table may differ from reply to reply.
  ghost predicate GoodList(w: World, list: seq<Peer>, x: Id, origin: Id, target: Id, k: nat) {
    && (forall p :: p in list ==> p == PeerOf(w, p.id))
    && exists known :: (
      WellFilled(w.nodes, known, x, origin, k) && IsNearestList(PeerIds(list), known - {origin}, target, k))
  }

  // Every other node answers, with its value or with a good list.
  ghost predicate HonestNetwork(q: Query, w: World) {
    forall x :: x in w.nodes - {q.env.me} ==> HonestAt(q, w, x)
  }

  ghost predicate HonestAt(q: Query, w: World, x: Id) {
    var o := OutcomeOf(q, PeerOf(w, x));
    o.Found? || (o.Reported? && GoodList(w, o.contacts, x, q.env.me, q.target, q.env.cfg.k))
  }

  ghost predicate SeededFrom(q: Query, w: World) {
    q.seeds != [] && forall p :: p in q.seeds ==> p.id in w.nodes - {q.env.me} && p == PeerOf(w, p.id)
  }

  // ------------------------------------------------------------------ only nodes are discovered

  ghost predicate Genuine(w: World, me: Id, pool: map<Id, Peer>) {
    forall id :: id in pool ==> id in w.nodes - {me} && pool[id] == PeerOf(w, id)
  }

  lemma {:induction false} AdoptGenuine(w: World, net: Addressing, me: Id, pool: map<Id, Peer>, cs: seq<Peer>)
    requires ValidWorld(w, net) && Genuine(w, me, pool)
    requires forall c :: c in cs ==> c.id in w.nodes && c == PeerOf(w, c.id)
    ensures Genuine(w, me, AdoptAll(net, me, pool, cs))
    ensures forall c :: c in cs && c.id != me ==> c.id in AdoptAll(net, me, pool, cs)
  {
    if cs != [] {
      var n := |cs| - 1;
      AdoptGenuine(w, net, me, pool, cs[..n]);
      assert cs[n] in cs;
      assert Validated(net, Wire(cs[n])) == Some(cs[n]);
      assert forall c :: c in cs ==> c in cs[..n] || c == cs[n];
    }
  }

  lemma GoodListNodes(w: World, list: seq<Peer>, x: Id, origin: Id, target: Id, k: nat)
    requires GoodList(w, list, x, origin, target, k)
    ensures forall c :: c in list ==> c.id in w.nodes && c.id != x && c.id != origin && c == PeerOf(w, c.id)
  {
    hide Dist;
    var known :| WellFilled(w.nodes, known, x, origin, k) && IsNearestList(PeerIds(list), known - {origin}, target, k);
    forall c | c in list ensures c.id in known - {origin} {
      var i :| 0 <= i < |list| && list[i] == c;
      assert PeerIds(list)[i] in Elems(PeerIds(list));
    }
  }

  // Only nodes are discovered, none fails, and every reply is absorbed.
  lemma {:induction false} Discovered(q: Query, w: World, log: seq<Peer>)
    requires ValidWorld(w, q.env.net) && HonestNetwork(q, w) && SeededFrom(q, w)
    requires Traced(q, log) && NothingFound(q, log)
    ensures Genuine(w, q.env.me, Pool(q, log)) && Pool(q, log) != map[]
    ensures forall p :: p in log ==> p.id in w.nodes - {q.env.me} && p == PeerOf(w, p.id) && OutcomeOf(q, p).Reported?
    ensures forall p, c :: p in log && c in OutcomeOf(q, p).contacts ==> c.id in Pool(q, log)
    decreases |log|
  {
    if log == [] {
      AdoptGenuine(w, q.env.net, q.env.me, map[], q.seeds);
      assert q.seeds[0] in q.seeds && q.seeds[0].id in Pool(q, log);
    } else {
      var n := |log| - 1;
      var front, p := log[..n], log[n];
      assert log == front + [p];
      TracedPrefix(q, log, n);
      Discovered(q, w, front);
      assert p.id in Pool(q, front) && Pool(q, front)[p.id] == p;
      assert p in log && HonestAt(q, w, p.id);
      var o := OutcomeOf(q, p);
      GoodListNodes(w, o.contacts, p.id, q.env.me, q.target, q.env.cfg.k);
      AdoptGenuine(w, q.env.net, q.env.me, Pool(q, front), o.contacts);
      AdoptAllKeeps(q.env.net, q.env.me, Pool(q, front), o.contacts);
    }
  }

  lemma TracedPrefix(q: Query, log: seq<Peer>, n: nat)
    requires Traced(q, log) && n <= |log|
    ensures Traced(q, log[..n])
  {
    hide Dist, Pool;
    forall i | 0 <= i < n
      ensures log[..n][i].id in Pool(q, log[..n][..i]) && Pool(q, log[..n][..i])[log[..n][i].id] == log[..n][i]
    {
      assert log[..n][..i] == log[..i];
    }
  }

  // ------------------------------------------------------------------ one reply says enough

  // If g is a node nearer than x, or x's reply leaves room, the reply of x either names g or
  // names k contacts; and in the first case these are all nearer than x.
  lemma ReplyNamesOrFills(nodes: set<Id>, known: set<Id>, list: set<Id>, x: Id, g: Id, origin: Id, target: Id, k: nat)
    requires WellFilled(nodes, known, x, origin, k) && list == Top(known - {origin}, target, k)
    requires g in nodes - {x, origin}
    ensures g in list || |list| == k
    ensures Dist(g, target) < Dist(x, target) && g !in list ==> list <= Nearer(list, x, target)
  {
    var others := known - {origin};
    var index := BucketOf(x, g);
    TopSize(others, target, k);
    if g in known {
      if g !in list {
        LeftOut(others, target, k, g);
      }
    } else {
      var b := BucketKnown(known, x, index, origin);
      assert |b| >= k;
      SubsetCard(b, others);
      if Dist(g, target) < Dist(x, target) {
        BucketFullNearer(others, b, x, g, target, k);
      }
    }
  }

  lemma BucketFullNearer(others: set<Id>, b: set<Id>, x: Id, g: Id, target: Id, k: nat)
    requires b <= others && x !in others && |b| >= k
    requires forall y :: y in b ==> BucketOf(x, y) == BucketOf(x, g)
    requires Dist(g, target) < Dist(x, target)
    ensures forall l :: l in Top(others, target, k) ==> Dist(l, target) < Dist(x, target)
  {
    forall y | y in b ensures Dist(y, target) < Dist(x, target) {
      BucketNearer(x, g, y, target);
    }
    hide Dist;
    forall l | l in Top(others, target, k) ensures Dist(l, target) < Dist(x, target) {
      if Dist(l, target) >= Dist(x, target) {
        SubsetCard(b, Nearer(others, l, target));
      }
    }
  }

  // ------------------------------------------------------------------ the theorem on sets

  // c: everything discovered, all of which answered. Every answer of a member of the k nearest of
  // c was absorbed into c. Then these are the k nearest of all nodes.
  ghost predicate Absorbed(nodes: set<Id>, c: set<Id>, x: Id, origin: Id, target: Id, k: nat) {
    exists known :: WellFilled(nodes, known, x, origin, k) && Top(known - {origin}, target, k) <= c
  }

  lemma NearerIsFound(nodes: set<Id>, c: set<Id>, x: Id, g: Id, origin: Id, target: Id, k: nat)
    requires x in Top(c, target, k) && Absorbed(nodes, c, x, origin, target, k)
    requires g in nodes - {origin} && Dist(g, target) < Dist(x, target)
    ensures g in Top(c, target, k)
  {
    var known :| WellFilled(nodes, known, x, origin, k) && Top(known - {origin}, target, k) <= c;
    var list := Top(known - {origin}, target, k);
    ReplyNamesOrFills(nodes, known, list, x, g, origin, target, k);
    if g in list {
      TopClosed(c, target, k, x, g);
    } else {
      SubsetCard(list, Nearer(c, x, target));
    }
  }

  lemma NobodyElse(nodes: set<Id>, c: set<Id>, x: Id, g: Id, origin: Id, target: Id, k: nat)
    requires |c| < k && Absorbed(nodes, c, x, origin, target, k)
    requires g in nodes - {origin} && g != x
    ensures g in c
  {
    var known :| WellFilled(nodes, known, x, origin, k) && Top(known - {origin}, target, k) <= c;
    var list := Top(known - {origin}, target, k);
    ReplyNamesOrFills(nodes, known, list, x, g, origin, target, k);
    SubsetCard(list, c);
  }

  lemma StoppingRuleIsGlobal(nodes: set<Id>, c: set<Id>, origin: Id, target: Id, k: nat)
    requires c <= nodes - {origin} && c != {} && k >= 1
    requires forall x :: x in Top(c, target, k) ==> Absorbed(nodes, c, x, origin, target, k)
    ensures Top(c, target, k) == Top(nodes - {origin}, target, k)
  {
    var t, others := Top(c, target, k), nodes - {origin};
    TopSize(c, target, k);
    forall x, g | x in t && g in others && Dist(g, target) < Dist(x, target) ensures g in t {
      NearerIsFound(nodes, c, x, g, origin, target, k);
    }
    if |t| < k {
      SubsetCard(t, c);
      var x :| x in t;
      forall g | g in others ensures g in t {
        if g != x {
          NobodyElse(nodes, c, x, g, origin, target, k);
        }
      }
      assert t == others;
    }
    ClosedIsTop(t, others, target, k);
  }

  // ------------------------------------------------------------------ the theorem on lookups

  lemma PoolAbsorbs(q: Query, w: World, log: seq<Peer>, p: Peer)
    requires ValidWorld(w, q.env.net) && HonestNetwork(q, w) && SeededFrom(q, w)
    requires Traced(q, log) && NothingFound(q, log) && p in log
    ensures Absorbed(w.nodes, Pool(q, log).Keys, p.id, q.env.me, q.target, q.env.cfg.k)
  {
    hide Dist, Traced, ValidWorld, SeededFrom, Top, Pool;
    Discovered(q, w, log);
    assert HonestAt(q, w, p.id);
    var list := OutcomeOf(q, p).contacts;
    var known :| WellFilled(w.nodes, known, p.id, q.env.me, q.env.cfg.k)
      && IsNearestList(PeerIds(list), known - {q.env.me}, q.target, q.env.cfg.k);
    forall id | id in Top(known - {q.env.me}, q.target, q.env.cfg.k) ensures id in Pool(q, log) {
      assert id in Elems(PeerIds(list));
      var i :| 0 <= i < |list| && PeerIds(list)[i] == id;
      assert list[i] in list;
    }
  }

  lemma LiveIsPool(q: Query, w: World, log: seq<Peer>)
    requires ValidWorld(w, q.env.net) && HonestNetwork(q, w) && SeededFrom(q, w)
    requires Traced(q, log) && NothingFound(q, log)
    ensures Live(q, log) == Pool(q, log).Keys != {}
  {
    hide Dist, Traced, HonestAt, ValidWorld;
    Discovered(q, w, log);
    assert FailedIds(q, log) == {} by {
      assert forall i :: 0 <= i < |log| ==> log[i] in log;
    }
    var id :| id in Pool(q, log);
  }

  // Whatever a lookup concludes about the live contacts, it has found the k nearest nodes.
  lemma LiveIsNearest(q: Query, w: World, cs: seq<Peer>, log: seq<Peer>)
    requires Proper(q) && ValidWorld(w, q.env.net) && HonestNetwork(q, w) && SeededFrom(q, w)
    requires Traced(q, log) && NothingFound(q, log) && Fixpoint(q, cs, log)
    ensures IsNearestList(PeerIds(cs), w.nodes - {q.env.me}, q.target, q.env.cfg.k)
    ensures forall p :: p in cs ==> p == PeerOf(w, p.id)
  {
    hide Dist, Traced, HonestAt, ValidWorld;
    Discovered(q, w, log);
    var c := Pool(q, log).Keys;
    LiveIsPool(q, w, log);
    forall x | x in Top(c, q.target, q.env.cfg.k)
      ensures Absorbed(w.nodes, c, x, q.env.me, q.target, q.env.cfg.k)
    {
      assert x in Elems(PeerIds(cs));
      var i :| 0 <= i < |cs| && PeerIds(cs)[i] == x;
      assert cs[i] in cs;
      PoolAbsorbs(q, w, log, cs[i]);
    }
    StoppingRuleIsGlobal(w.nodes, c, q.env.me, q.target, q.env.cfg.k);
  }

  // With well-filled buckets and responsive peers, a node lookup that is not stopped returns
  // exactly the k nearest nodes other than the origin, nearest first.
  lemma LookupIsExact(q: Query, w: World, r: LookupResult, log: seq<Peer>)
    requires Proper(q) && !q.findValue
    requires ValidWorld(w, q.env.net) && HonestNetwork(q, w) && SeededFrom(q, w)
    requires Concluded(q, r, log) && r != Stopped
    ensures r.Closest?
    ensures IsNearestList(PeerIds(r.contacts), w.nodes - {q.env.me}, q.target, q.env.cfg.k)
    ensures forall p :: p in r.contacts ==> p == PeerOf(w, p.id)
  {
    hide Dist, Traced, ValidWorld;
    NodeNeverFinds(q, log);
    LiveIsPool(q, w, log);
    if r.Closest? {
      LiveIsNearest(q, w, r.contacts, log);
    }
  }

  lemma NodeNeverFinds(q: Query, log: seq<Peer>)
    requires !q.findValue
    ensures NothingFound(q, log)
  {
  }

  // ------------------------------------------------------------------ the exhaustive oracle

  // experiments/runner.go, nearest: sort all nodes but the source, keep the first k.
  method NearestNodes(nodes: seq<Peer>, source: nat, target: Id, k: nat) returns (r: seq<Peer>)
    requires Distinct(nodes) && source < |nodes|
    ensures IsNearestList(PeerIds(r), Elems(PeerIds(nodes)) - {nodes[source].id}, target, k)
    ensures forall p :: p in r ==> p in nodes
  {
    hide Dist;
    var contacts: seq<Peer> := [];
    for i := 0 to |nodes|
      invariant Distinct(contacts)
      invariant forall p :: p in contacts ==> p in nodes[..i]
      invariant Elems(PeerIds(contacts)) == Elems(PeerIds(nodes[..i])) - {nodes[source].id}
    {
      assert nodes[..i + 1] == nodes[..i] + [nodes[i]];
      assert PeerIds(nodes[..i + 1]) == PeerIds(nodes[..i]) + [nodes[i].id];
      assert Elems(PeerIds(nodes[..i]) + [nodes[i].id]) == Elems(PeerIds(nodes[..i])) + {nodes[i].id};
      if i != source {
        forall j | 0 <= j < |contacts| ensures contacts[j].id != nodes[i].id {
          assert contacts[j] in nodes[..i];
        }
        assert PeerIds(contacts + [nodes[i]]) == PeerIds(contacts) + [nodes[i].id];
        assert Elems(PeerIds(contacts) + [nodes[i].id]) == Elems(PeerIds(contacts)) + {nodes[i].id};
        contacts := contacts + [nodes[i]];
      }
    }
    assert nodes[..|nodes|] == nodes;
    r := ClosestPrefix(contacts, target, k);
  }

  // The lookup's answer is the oracle's answer.
  lemma LookupMatchesOracle(
    q: Query, w: World, r: LookupResult, log: seq<Peer>, nodes: seq<Peer>, source: nat, oracle: seq<Peer>)
    requires Proper(q) && !q.findValue
    requires ValidWorld(w, q.env.net) && HonestNetwork(q, w) && SeededFrom(q, w)
    requires Concluded(q, r, log) && r != Stopped
    requires source < |nodes| && nodes[source].id == q.env.me
    requires Elems(PeerIds(nodes)) == w.nodes && forall p :: p in nodes ==> p == PeerOf(w, p.id)
    requires IsNearestList(PeerIds(oracle), w.nodes - {q.env.me}, q.target, q.env.cfg.k)
    requires forall p :: p in oracle ==> p in nodes
    ensures r == Closest(oracle)
  {
    LookupIsExact(q, w, r, log);
    NearestListUnique(PeerIds(r.contacts), PeerIds(oracle), w.nodes - {q.env.me}, q.target, q.env.cfg.k);
    forall i | 0 <= i < |oracle| ensures r.contacts[i] == oracle[i] {
      assert PeerIds(r.contacts)[i] == PeerIds(oracle)[i];
      assert r.contacts[i] in r.contacts && oracle[i] in oracle;
    }
    assert |PeerIds(r.contacts)| == |PeerIds(oracle)|;
  }
}
