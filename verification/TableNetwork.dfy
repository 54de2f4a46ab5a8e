// The setting of the global theorems, from the routing tables up: src/kademlia/routingtable.go,
// find_node.go and find_value.go at every node, src/kademlia/lookup.go at the origin.
module TableNetwork {
  import opened Wrappers
  import opened Ids
  import opened Nearest
  import opened Contacts
  import opened Buckets
  import opened Routing
  import opened FindRpc
  import opened Handlers
  import opened Lookup
  import opened ExactLookup
  import StoreRetrieve

  // A node's table knows only nodes of the network, under their addresses.
  ghost predicate GenuineTable(w: World, t: Table, x: Id) {
    && TableInv(t) && t.me == x && Known(t) <= w.nodes
    && forall p :: p in Scan(t.buckets, ID_BITS) ==> p == PeerOf(w, p.id)
  }

  // Every table is genuine, every table but the origin's is well-filled, the origin's not empty.
  ghost predicate WellFilledTables(w: World, tables: map<Id, Table>, origin: Id, k: nat) {
    && origin in w.nodes && w.nodes <= tables.Keys
    && (forall x :: x in w.nodes ==> GenuineTable(w, tables[x], x))
    && (forall x :: x in w.nodes - {origin} ==> WellFilled(w.nodes, Known(tables[x]), x, origin, k))
    && Known(tables[origin]) != {}
  }

  // A list as findNodePayload makes it, and a lookup's start as FindClosestContacts makes it.
  ghost predicate Listed(t: Table, list: seq<Peer>, target: Id, without: set<Id>, k: nat)
    requires TableInv(t)
  {
    && IsNearestList(PeerIds(list), Known(t) - without, target, k)
    && forall p :: p in list ==> p in Scan(t.buckets, ID_BITS)
  }

  // The reply of one node: its value if a value is asked for and it has one, otherwise such a list.
  ghost predicate Replies(q: Query, t: Table, values: map<Id, Bytes>, peer: Peer)
    requires TableInv(t)
  {
    if q.findValue && q.target in values then q.env.valueReply(peer) == Some(ValueAnswer(values, q.target, []))
    else exists list :: Listed(t, list, q.target, {q.env.me}, q.env.cfg.k) && RepliesWith(q, values, peer, list)
  }

  ghost predicate RepliesWith(q: Query, values: map<Id, Bytes>, peer: Peer, list: seq<Peer>) {
    if q.findValue then q.env.valueReply(peer) == Some(ValueAnswer(values, q.target, list))
    else q.env.nodeReply(peer) == Some(NodeResponse(Some(WireList(list))))
  }

  // A query over tables that stay as they are while everyone responds.
  ghost predicate Responsive(q: Query, w: World, stores: StoreRetrieve.Stores, tables: map<Id, Table>) {
    && Lookup.Proper(q) && ValidWorld(w, q.env.net)
    && WellFilledTables(w, tables, q.env.me, q.env.cfg.k)
    && |Known(tables[q.env.me])| <= MAX_INT && Listed(tables[q.env.me], q.seeds, q.target, {}, MAX_INT)
    && StoreRetrieve.GoodStores(stores, q.env)
    && forall x :: x in w.nodes - {q.env.me} ==> x in stores && Replies(q, tables[x], stores[x], PeerOf(w, x))
  }

  lemma ListedIsGood(q: Query, w: World, tables: map<Id, Table>, x: Id, list: seq<Peer>)
    requires WellFilledTables(w, tables, q.env.me, q.env.cfg.k) && x in w.nodes - {q.env.me}
    requires Listed(tables[x], list, q.target, {q.env.me}, q.env.cfg.k)
    ensures GoodList(w, list, x, q.env.me, q.target, q.env.cfg.k)
  {
    hide TableInv, Known, Scan, WellFilled, IsNearestList;
    assert GenuineTable(w, tables[x], x);
  }

  // Some list always exists, so a node that answers with its value could have answered with one.
  lemma SomeGoodList(q: Query, w: World, tables: map<Id, Table>, x: Id) returns (list: seq<Peer>)
    requires WellFilledTables(w, tables, q.env.me, q.env.cfg.k) && x in w.nodes - {q.env.me}
    ensures GoodList(w, list, x, q.env.me, q.target, q.env.cfg.k)
  {
    GenuineAt(w, tables, q.env.me, q.env.cfg.k, x);
    hide Inv, Placed, Known, Scan, WellFilled, Dist;
    var known := Known(tables[x]);
    var sorted := SortedExists(known - {q.env.me}, q.target);
    PrefixIsNearest(sorted, q.target, q.env.cfg.k);
    var ids := sorted[..Min(q.env.cfg.k, |sorted|)];
    list := seq(|ids|, i requires 0 <= i < |ids| => PeerOf(w, ids[i]));
    assert PeerIds(list) == ids;
  }

  lemma Answers(q: Query, w: World, stores: StoreRetrieve.Stores, tables: map<Id, Table>, x: Id)
    requires Responsive(q, w, stores, tables) && x in w.nodes - {q.env.me}
    ensures x in stores && exists list :: StoreRetrieve.AnswersWith(q, w, stores, x, list)
  {
    hide WellFilledTables, ValidWorld, Listed, GoodList, StoreRetrieve.GoodStores;
    var list: seq<Peer>;
    if q.findValue && q.target in stores[x] {
      list := SomeGoodList(q, w, tables, x);
    } else {
      GenuineAt(w, tables, q.env.me, q.env.cfg.k, x);
      list :| Listed(tables[x], list, q.target, {q.env.me}, q.env.cfg.k) && RepliesWith(q, stores[x], PeerOf(w, x), list);
      ListedIsGood(q, w, tables, x, list);
    }
    assert StoreRetrieve.AnswersWith(q, w, stores, x, list);
  }

  lemma GenuineAt(w: World, tables: map<Id, Table>, origin: Id, k: nat, x: Id)
    requires WellFilledTables(w, tables, origin, k) && x in w.nodes
    ensures x in tables && GenuineTable(w, tables[x], x)
  {
  }

  // The start of the lookup: the whole table of the origin, which is not empty.
  lemma Seeds(q: Query, w: World, tables: map<Id, Table>)
    requires WellFilledTables(w, tables, q.env.me, q.env.cfg.k)
    requires |Known(tables[q.env.me])| <= MAX_INT && Listed(tables[q.env.me], q.seeds, q.target, {}, MAX_INT)
    ensures SeededFrom(q, w)
  {
    hide Inv, Placed, Scan, WellFilled, Dist;
    var t := tables[q.env.me];
    assert GenuineTable(w, t, q.env.me);
    assert Known(t) - {} == Known(t);
    WholeList(PeerIds(q.seeds), Known(t), q.target, MAX_INT);
    forall p | p in q.seeds ensures p.id in w.nodes - {q.env.me} && p == PeerOf(w, p.id) {
      var i :| 0 <= i < |q.seeds| && q.seeds[i] == p;
      assert PeerIds(q.seeds)[i] in Elems(PeerIds(q.seeds));
      KnownIsStamped(t, p.id);
    }
  }

  // The hypotheses of the global theorems follow from the tables, the handlers and the stores.
  lemma TablesAreHealthy(q: Query, w: World, stores: StoreRetrieve.Stores, tables: map<Id, Table>)
    requires Responsive(q, w, stores, tables)
    ensures StoreRetrieve.Healthy(q, w, stores)
  {
    hide WellFilledTables, ValidWorld, Listed, Replies, StoreRetrieve.GoodStores, StoreRetrieve.AnswersWith, SeededFrom;
    Seeds(q, w, tables);
    OriginIsNode(w, tables, q.env.me, q.env.cfg.k);
    forall x | x in w.nodes - {q.env.me} ensures x in stores && exists list :: StoreRetrieve.AnswersWith(q, w, stores, x, list) {
      Answers(q, w, stores, tables, x);
    }
  }

  lemma OriginIsNode(w: World, tables: map<Id, Table>, origin: Id, k: nat)
    requires WellFilledTables(w, tables, origin, k)
    ensures origin in w.nodes
  {
  }

  // The exact-lookup theorem over routing tables: whatever an undisturbed node lookup returns is
  // the list of exactly the k nodes nearest to the target in the whole network but the origin.
  lemma LookupOverTables(
    q: Query, w: World, stores: StoreRetrieve.Stores, tables: map<Id, Table>, r: LookupResult, log: seq<Peer>)
    requires Responsive(q, w, stores, tables) && !q.findValue && !q.mayStop && Concluded(q, r, log)
    ensures r.Closest? && IsNearestList(PeerIds(r.contacts), w.nodes - {q.env.me}, q.target, q.env.cfg.k)
    ensures forall p :: p in r.contacts ==> p == PeerOf(w, p.id)
  {
    hide Dist, ValidWorld, SeededFrom, IsNearestList;
    TablesAreHealthy(q, w, stores, tables);
    StoreRetrieve.AnswersAreHonest(q, w, stores);
    LookupIsExact(q, w, r, log);
  }
}
