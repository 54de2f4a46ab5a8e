// src/kademlia/registry.go and registry_rpc.go: one node's registry. Lookups of records and replies
// of peers are parameters; the interleaving of several nodes is in RegistryProtocol.
module PackageRegistry {
  import opened Wrappers
  import opened Ids
  import opened Nearest
  import opened Contacts
  import opened FindRpc
  import opened Handlers
  import opened Records
  import opened Chain
  import opened Histories

  datatype AcceptError = NotAChain(error: ChainError) | ForkOrRollback

  // Every head is filed under its own key and its whole history is in the local store.
  ghost predicate HeadsServed(rules: Rules, heads: map<Id, Record>, values: map<Id, Bytes>) {
    forall key :: key in heads ==> Served(rules, key, heads[key], values)
  }

  ghost predicate Served(rules: Rules, key: Id, head: Record, values: map<Id, Bytes>) {
    key == HeadKey(rules, head) && ChainOf(rules, Stored(values), head).Some?
  }

  // Every package known before is still known, and its history has only been appended to.
  ghost predicate Grew(
    rules: Rules, before: map<Id, Record>, valuesBefore: map<Id, Bytes>, after: map<Id, Record>, values: map<Id, Bytes>)
  {
    && Extended(valuesBefore, values)
    && forall key :: key in before ==> key in after && Appended(rules, before[key], valuesBefore, after[key], values)
  }

  ghost predicate Appended(
    rules: Rules, before: Record, valuesBefore: map<Id, Bytes>, after: Record, values: map<Id, Bytes>)
  {
    var x, y := ChainOf(rules, Stored(valuesBefore), before), ChainOf(rules, Stored(values), after);
    x.Some? && y.Some? && SamePackage(before, after) && IsSuffix(x.value, y.value)
  }

  // ------------------------------------------------------------------ lemmas about one registry

  lemma StillServed(rules: Rules, head: Record, values: map<Id, Bytes>, more: map<Id, Bytes>)
    requires Extended(values, more) && ChainOf(rules, Stored(values), head).Some?
    ensures ChainOf(rules, Stored(more), head) == ChainOf(rules, Stored(values), head)
  {
    assert Agrees(Stored(values), Stored(more));
    ChainAgrees(rules, Stored(values), Stored(more), head);
  }

  lemma StoreGrew(rules: Rules, heads: map<Id, Record>, values: map<Id, Bytes>, more: map<Id, Bytes>)
    requires HeadsServed(rules, heads, values) && Extended(values, more)
    ensures HeadsServed(rules, heads, more) && Grew(rules, heads, values, heads, more)
  {
    hide Verified, Walk;
    forall key | key in heads
      ensures Served(rules, key, heads[key], more) && Appended(rules, heads[key], values, heads[key], more)
    {
      assert Served(rules, key, heads[key], values);
      StillServed(rules, heads[key], values, more);
    }
  }

  lemma GrewTrans(
    rules: Rules, a: map<Id, Record>, x: map<Id, Bytes>, b: map<Id, Record>, y: map<Id, Bytes>, c: map<Id, Record>,
    z: map<Id, Bytes>)
    requires Grew(rules, a, x, b, y) && Grew(rules, b, y, c, z)
    ensures Grew(rules, a, x, c, z)
  {
    hide ChainOf;
    forall key | key in a ensures key in c && Appended(rules, a[key], x, c[key], z) {
      assert Appended(rules, a[key], x, b[key], y) && Appended(rules, b[key], y, c[key], z);
      SuffixTrans(
        ChainOf(rules, Stored(x), a[key]).value, ChainOf(rules, Stored(y), b[key]).value,
        ChainOf(rules, Stored(z), c[key]).value);
    }
  }

  lemma GrewStores(
    rules: Rules, a: map<Id, Record>, x: map<Id, Bytes>, b: map<Id, Record>, y: map<Id, Bytes>, head: Record)
    requires Grew(rules, a, x, b, y) && ChainOf(rules, Stored(x), head).Some?
    ensures ChainOf(rules, Stored(y), head) == ChainOf(rules, Stored(x), head)
  {
    StillServed(rules, head, x, y);
  }

  // The locked part of accept keeps every history and files the head under its own key.
  lemma CommitGrew(rules: Rules, heads: map<Id, Record>, values: map<Id, Bytes>, head: Record, links: seq<Link>)
    requires HeadsServed(rules, heads, values) && ChainOf(rules, Stored(values), head) == Some(links)
    ensures var after := AfterCommit(rules, heads, head, links);
      HeadsServed(rules, after, values) && Grew(rules, heads, values, after, values)
  {
    hide ChainOf, Decide;
    var after := AfterCommit(rules, heads, head, links);
    StoreGrew(rules, heads, values, values);
    var key := HeadKey(rules, head);
    if key in heads && Decide(Some(heads[key]), head, links) == Committed {
      assert Served(rules, key, heads[key], values);
      DecideIsSuffix(rules, Stored(values), heads[key], head);
      assert Appended(rules, heads[key], values, after[key], values);
    }
    forall other | other in heads ensures other in after && Appended(rules, heads[other], values, after[other], values) {
      assert Appended(rules, heads[other], values, heads[other], values);
    }
    forall other | other in after ensures Served(rules, other, after[other], values) {
      assert other in heads ==> Served(rules, other, heads[other], values);
    }
  }

  lemma HeadUnderKey(rules: Rules, heads: map<Id, Record>, values: map<Id, Bytes>, key: Id)
    requires HeadsServed(rules, heads, values) && key in heads
    ensures HeadKey(rules, heads[key]) == key && ChainOf(rules, Stored(values), heads[key]).Some?
  {
    assert Served(rules, key, heads[key], values);
  }

  // What Latest establishes about its observations: their histories are suffixes of the returned
  // one. So two that conflict, by version or by ancestry, make it fail whatever it returned.
  lemma ReconciledAgree(
    rules: Rules, values: map<Id, Bytes>, r: Record, heads: map<Id, Record>, key: Id, peers: seq<Peer>,
    answer: Peer -> GetReply, a: Record, b: Record)
    requires Reconciled(rules, values, r, heads, key, peers, answer)
    requires Observed(heads, key, peers, answer, a) && Observed(heads, key, peers, answer, b)
    requires SamePackage(a, r) && SamePackage(b, r)
    ensures var x, y, z := ChainOf(rules, Stored(values), a), ChainOf(rules, Stored(values), b), ChainOf(rules, Stored(values), r);
      && x.Some? && y.Some? && IsSuffix(x.value, z.value) && IsSuffix(y.value, z.value) && Comparable(x.value, y.value)
    ensures a.version == b.version ==> a.recordHash == b.recordHash
  {
    hide Verified, ChainOf, OnChain, Linked;
    OnChainIffSuffix(rules, Stored(values), r, a);
    OnChainIffSuffix(rules, Stored(values), r, b);
    var z := ChainOf(rules, Stored(values), r).value;
    SuffixesOfOne(ChainOf(rules, Stored(values), a).value, ChainOf(rules, Stored(values), b).value, z);
    ChainShape(rules, Stored(values), r);
    if a.version == b.version {
      LinkedDecreases(rules, z, r.domain, r.package);
      OneHashPerVersion(z, a, b);
    }
  }

  lemma LinkedDecreases(rules: Rules, links: seq<Link>, domain: string, package: string)
    requires Linked(rules, links, domain, package)
    ensures Decreasing(links)
  {
  }

  // ------------------------------------------------------------------ replies of peers

  // The outcome of a REGISTRY_UPDATE call; a failed one may still carry the receiver's head.
  datatype UpdateReply = Acknowledged(head: Record) | Rejected(current: Option<Record>)

  // The outcome of a REGISTRY_GET call.
  datatype GetReply = CallFailed | NoHead | Head(head: Record)

  ghost predicate AllChecked(rules: Rules, net: nat -> Source) {
    forall i: nat :: Checked(rules, net(i).find)
  }

  // A head that Latest compares: the local one, or one that a peer answered.
  ghost predicate Observed(
    heads: map<Id, Record>, key: Id, peers: seq<Peer>, answer: Peer -> GetReply, h: Record)
  {
    (key in heads && heads[key] == h) || exists i :: 0 <= i < |peers| && answer(peers[i]) == Head(h)
  }

  datatype LatestError =
    | BadNames | LookupFailed | WrongPackage | CallsFailed | PackageNotFound
    | Unwalkable(error: ChainError) | BadHead | Fork | NotAccepted(reason: AcceptError)

  // All heads lie in the history of r.
  ghost predicate Reconciled(
    rules: Rules, values: map<Id, Bytes>, r: Record, heads: map<Id, Record>, key: Id, peers: seq<Peer>,
    answer: Peer -> GetReply)
  {
    && ChainOf(rules, Stored(values), r).Some?
    && forall h :: Observed(heads, key, peers, answer, h) ==>
      Verified(rules, h, LatestPointer) && OnChain(ChainOf(rules, Stored(values), r).value, h)
  }

  // The heads that one call of Latest compares.
  ghost predicate SeenAll(
    heads: map<Id, Record>, key: Id, peers: seq<Peer>, answer: Peer -> GetReply, observed: seq<Record>)
  {
    forall h :: h in observed <==> Observed(heads, key, peers, answer, h)
  }

  ghost predicate IsNewest(observed: seq<Record>, n: Record) {
    n in observed && forall h :: h in observed ==> h.version <= n.version
  }

  // Why Latest may fail once it has observed heads: a newest one cannot be walked, one does not
  // verify, one is not in the history of a newest one, or the final accept is cancelled.
  ghost predicate Explained(
    rules: Rules, before: map<Id, Bytes>, observed: seq<Record>, source: Source, again: Source, error: LatestError)
  {
    match error
    case Unwalkable(e) => exists n :: IsNewest(observed, n) && Unwalked(rules, before, source, n, e)
    case BadHead => exists h :: h in observed && !Verified(rules, h, LatestPointer)
    case Fork => exists a, n :: a in observed && IsNewest(observed, n) && Forked(rules, before, source, a, n)
    case NotAccepted(_) => again.mayStop
    case _ => false
  }

  ghost predicate Unwalked(rules: Rules, before: map<Id, Bytes>, source: Source, n: Record, e: ChainError) {
    if e == Cancelled then source.mayStop else ChainOf(rules, LocalFirst(before, source.find), n).None?
  }

  // A head that is not in the history of a newer one, as this node finds that history.
  ghost predicate Forked(rules: Rules, before: map<Id, Bytes>, source: Source, older: Record, newer: Record) {
    var chain := ChainOf(rules, LocalFirst(before, source.find), newer);
    Verified(rules, older, LatestPointer) && chain.Some? && !OnChain(chain.value, older)
  }

  // What a result of Latest says about the heads it compared, case by case.
  ghost predicate LatestMeans(
    rules: Rules, heads: map<Id, Record>, before: map<Id, Bytes>, values: map<Id, Bytes>, domain: string,
    package: string, peers: Option<seq<Peer>>, answer: Peer -> GetReply, source: Source, again: Source,
    r: Result<Record, LatestError>, observed: seq<Record>)
  {
    var key := LatestKey(rules, domain, package);
    match r
    case Ok(h) =>
      && peers.Some? && Observed(heads, key, peers.value, answer, h)
      && Reconciled(rules, values, h, heads, key, peers.value, answer) && HeadKey(rules, h) == key
    case Err(BadNames) => !ValidName(domain) || !ValidName(package)
    case Err(LookupFailed) => peers.None?
    case Err(WrongPackage) => peers.Some? && SomeOther(peers.value, answer, domain, package)
    case Err(PackageNotFound) =>
      peers.Some? && key !in heads && forall i :: 0 <= i < |peers.value| ==> answer(peers.value[i]) == NoHead
    case Err(CallsFailed) =>
      && peers.Some? && key !in heads
      && (forall i :: 0 <= i < |peers.value| ==> !answer(peers.value[i]).Head?)
      && exists i :: 0 <= i < |peers.value| && answer(peers.value[i]) == CallFailed
    case Err(error) =>
      && peers.Some? && SeenAll(heads, key, peers.value, answer, observed)
      && Explained(rules, before, observed, source, again, error)
  }

  // The heads that can be seen agree: there is one, all are of the package, and each verifies and
  // lies in the history of every newest one. Nothing is cancelled.
  ghost predicate Agreeing(
    rules: Rules, heads: map<Id, Record>, before: map<Id, Bytes>, domain: string, package: string,
    peers: Option<seq<Peer>>, answer: Peer -> GetReply, source: Source, again: Source)
  {
    var key := LatestKey(rules, domain, package);
    && ValidName(domain) && ValidName(package) && peers.Some? && !source.mayStop && !again.mayStop
    && (forall i :: 0 <= i < |peers.value| && answer(peers.value[i]).Head? ==>
      answer(peers.value[i]).head.domain == domain && answer(peers.value[i]).head.package == package)
    && (exists h :: Observed(heads, key, peers.value, answer, h))
    && (forall h :: Observed(heads, key, peers.value, answer, h) ==> Verified(rules, h, LatestPointer))
    && (forall n :: Foremost(heads, key, peers.value, answer, n) ==>
      InHistory(rules, heads, before, key, peers.value, answer, source, n))
  }

  // A head of the greatest version that can be seen.
  ghost predicate Foremost(heads: map<Id, Record>, key: Id, peers: seq<Peer>, answer: Peer -> GetReply, n: Record) {
    && Observed(heads, key, peers, answer, n)
    && forall h :: Observed(heads, key, peers, answer, h) ==> h.version <= n.version
  }

  ghost predicate InHistory(
    rules: Rules, heads: map<Id, Record>, before: map<Id, Bytes>, key: Id, peers: seq<Peer>, answer: Peer -> GetReply,
    source: Source, n: Record)
  {
    var chain := ChainOf(rules, LocalFirst(before, source.find), n);
    chain.Some? && forall h :: Observed(heads, key, peers, answer, h) ==> OnChain(chain.value, h)
  }

  // When the heads agree, Latest has no error left to return.
  lemma LatestSucceeds(
    rules: Rules, heads: map<Id, Record>, before: map<Id, Bytes>, values: map<Id, Bytes>, domain: string,
    package: string, peers: Option<seq<Peer>>, answer: Peer -> GetReply, source: Source, again: Source,
    r: Result<Record, LatestError>, observed: seq<Record>)
    requires LatestMeans(rules, heads, before, values, domain, package, peers, answer, source, again, r, observed)
    requires Agreeing(rules, heads, before, domain, package, peers, answer, source, again)
    ensures r.Ok?
  {
    hide ChainOf, Verified, OnChain, ValidName, LocalFirst, Observed, Reconciled;
    if r.Err? {
      var key := LatestKey(rules, domain, package);
      var h :| Observed(heads, key, peers.value, answer, h);
      ObservedCases(heads, key, peers.value, answer, h);
      if Late(r.error) {
        AgreeingExplains(rules, heads, before, domain, package, peers, answer, source, again, r.error, observed);
      }
    }
  }

  lemma ObservedCases(heads: map<Id, Record>, key: Id, peers: seq<Peer>, answer: Peer -> GetReply, h: Record)
    requires Observed(heads, key, peers, answer, h)
    ensures key in heads || exists i :: 0 <= i < |peers| && answer(peers[i]).Head?
  {
  }

  lemma AgreeingExplains(
    rules: Rules, heads: map<Id, Record>, before: map<Id, Bytes>, domain: string, package: string,
    peers: Option<seq<Peer>>, answer: Peer -> GetReply, source: Source, again: Source, error: LatestError,
    observed: seq<Record>)
    requires Agreeing(rules, heads, before, domain, package, peers, answer, source, again)
    requires SeenAll(heads, LatestKey(rules, domain, package), peers.value, answer, observed)
    ensures !Explained(rules, before, observed, source, again, error)
  {
    hide ChainOf, Verified, OnChain, ValidName, LocalFirst, Observed;
    var key := LatestKey(rules, domain, package);
    forall n | IsNewest(observed, n) ensures InHistory(rules, heads, before, key, peers.value, answer, source, n) {
      assert Foremost(heads, key, peers.value, answer, n);
    }
  }

  // The current head is this one, or a retransmission of it.
  predicate Holds(heads: map<Id, Record>, key: Id, head: Record) {
    key in heads && heads[key].recordHash == head.recordHash && heads[key].version == head.version
  }

  // A head that has been found on a walked chain does not make the ancestry check refuse it.
  lemma OnChainNotRefused(rules: Rules, u: Fetch, current: Record, head: Record)
    requires ChainOf(rules, u, head).Some? && OnChain(ChainOf(rules, u, head).value, current)
    ensures Decide(Some(current), head, ChainOf(rules, u, head).value) != Refused
  {
    hide ChainOf, Linked, AllFound;
    ChainShape(rules, u, head);
    var links := ChainOf(rules, u, head).value;
    LinkedDecreases(rules, links, head.domain, head.package);
    var i :| LinkOf(links, i, current);
    assert i > 0 ==> links[0].record.version > links[i].record.version;
  }

  // The second walk of Latest finds everything in the local store.
  lemma WalkedBefore(rules: Rules, values: map<Id, Bytes>, remote: Fetch, head: Record)
    requires ChainOf(rules, Stored(values), head).Some?
    ensures ChainOf(rules, LocalFirst(values, remote), head) == ChainOf(rules, Stored(values), head)
  {
    assert Agrees(Stored(values), LocalFirst(values, remote));
    ChainAgrees(rules, Stored(values), LocalFirst(values, remote), head);
  }

  // What an uncancelled accept of this head meets: it can be walked and continues the current one.
  ghost predicate Adoptable(rules: Rules, heads: map<Id, Record>, values: map<Id, Bytes>, source: Source, head: Record) {
    var chain := ChainOf(rules, LocalFirst(values, source.find), head);
    chain.Some? && Decide(Current(heads, HeadKey(rules, head)), head, chain.value) != Refused
  }

  lemma CommitHolds(rules: Rules, heads: map<Id, Record>, head: Record, links: seq<Link>)
    requires Decide(Current(heads, HeadKey(rules, head)), head, links) != Refused
    ensures Holds(AfterCommit(rules, heads, head, links), HeadKey(rules, head), head)
  {
  }

  // ------------------------------------------------------------------ the registry

  class Registry {
    const rules: Rules
    const store: ValueStore
    var heads: map<Id, Record>

    ghost predicate Good()
      reads this, store
    {
      && store.Good() && store.digest == rules.digest && store.maxValueSize == rules.maxValueSize
      && HeadsServed(rules, heads, store.values)
    }

    constructor (rules: Rules)
      ensures Good() && heads == map[] && this.rules == rules && fresh(store)
    {
      this.rules := rules;
      this.heads := map[];
      this.store := new ValueStore(rules.digest, rules.maxValueSize);
    }

    // registry.go, accept, between Lock and Unlock.
    method Commit(head: Record, links: seq<Link>) returns (ok: bool)
      modifies this`heads
      ensures heads == AfterCommit(rules, old(heads), head, links)
      ensures ok <==> Decide(Current(old(heads), HeadKey(rules, head)), head, links) != Refused
      ensures var key := LatestKey(rules, head.domain, head.package);
        if key !in old(heads) then ok && heads == old(heads)[key := head]
        else
          var c := old(heads)[key];
          var same := c.recordHash == head.recordHash && c.version == head.version;
          var longer := head.version > c.version && exists i :: 0 <= i < |links| && Canonical(links[i].hash) == c.recordHash;
          (ok <==> same || longer) && heads == if same || !longer then old(heads) else old(heads)[key := head]
    {
      var key := HeadKey(rules, head);
      if key in heads {
        var c := heads[key];
        if c.recordHash == head.recordHash && c.version == head.version {
          return true;
        }
        if head.version <= c.version {
          return false;
        }
        var found := false;
        for i := 0 to |links|
          invariant found <==> exists j :: 0 <= j < i && Canonical(links[j].hash) == c.recordHash
        {
          if Canonical(links[i].hash) == c.recordHash {
            found := true;
          }
        }
        if !found {
          return false;
        }
      }
      heads := heads[key := head];
      return true;
    }

    // registry.go, accept.
    method Accept(source: Source, head: Record) returns (e: Option<AcceptError>)
      requires Good() && Checked(rules, source.find)
      modifies this`heads, store
      ensures Good() && Grew(rules, old(heads), old(store.values), heads, store.values)
      ensures e.Some? ==> heads == old(heads)
      ensures Agrees(Stored(store.values), LocalFirst(old(store.values), source.find))
      ensures e.None? ==> Adoptable(rules, old(heads), old(store.values), source, head)
      ensures e.None? ==> Holds(heads, HeadKey(rules, head), head)
      ensures e.None? ==> head.domain in rules.owners && |rules.owners[head.domain]| == 32
      ensures e.None? ==> rules.signed(
        rules.owners[head.domain], rules.digest(rules.encode(head.(signature := []))), head.signature)
      ensures !source.mayStop && Adoptable(rules, old(heads), old(store.values), source, head) ==> e.None?
      ensures var chain := ChainOf(rules, LocalFirst(old(store.values), source.find), head);
        match e
        case None =>
          && chain.Some? && Decide(Current(old(heads), HeadKey(rules, head)), head, chain.value) != Refused
          && heads == AfterCommit(rules, old(heads), head, chain.value)
          && ChainOf(rules, Stored(store.values), head) == chain
        case Some(ForkOrRollback) =>
          chain.Some? && Decide(Current(old(heads), HeadKey(rules, head)), head, chain.value) == Refused
        case Some(NotAChain(error)) => if error == Cancelled then source.mayStop else chain.None?
    {
      hide ChainOf, Decide, Gained, Agrees;
      var r := FollowChain(rules, store, source, head);
      StoreGrew(rules, heads, old(store.values), store.values);
      if r.Err? {
        return Some(NotAChain(r.error));
      }
      CommitGrew(rules, heads, store.values, head, r.value);
      var ok := Commit(head, r.value);
      if ok {
        ChainSigned(rules, Stored(store.values), head);
        CommitHolds(rules, old(heads), head, r.value);
      }
      GrewTrans(rules, old(heads), old(store.values), old(heads), store.values, heads, store.values);
      return if ok then None else Some(ForkOrRollback);
    }

    // registry.go, snapshot, filtered by key as its callers do: at most one head remains.
    method HeadAt(key: Id) returns (r: Option<Record>)
      requires Good()
      ensures r == Current(heads, key)
      ensures (r.Some? <==> key in heads) && (r.Some? ==> r.value == heads[key])
    {
      var keys := heads.Keys;
      while keys != {}
        invariant keys <= heads.Keys && (key in heads ==> key in keys)
        decreases |keys|
      {
        var k :| k in keys;
        keys := keys - {k};
        assert Served(rules, k, heads[k], store.values);
        if HeadKey(rules, heads[k]) == key {
          return Some(heads[k]);
        }
      }
      return None;
    }

    // registry_rpc.go, registryPayload, REGISTRY_UPDATE.
    method HandleUpdate(key: Id, head: Option<Record>, source: Source) returns (reply: UpdateReply)
      requires Good() && Checked(rules, source.find)
      modifies this`heads, store
      ensures Good() && Grew(rules, old(heads), old(store.values), heads, store.values)
      ensures reply.Rejected? ==> heads == old(heads) && reply.current == Current(heads, key)
      ensures reply.Rejected? && head.Some? && HeadKey(rules, head.value) == key ==>
        source.mayStop || !Adoptable(rules, old(heads), old(store.values), source, head.value)
      ensures reply.Acknowledged? ==> head == Some(reply.head) && Holds(heads, key, reply.head)
      ensures reply.Acknowledged? ==>
        && LatestKey(rules, reply.head.domain, reply.head.package) == key
        && Adoptable(rules, old(heads), old(store.values), source, reply.head)
      ensures head.None? || LatestKey(rules, head.value.domain, head.value.package) != key ==>
        reply.Rejected? && store.values == old(store.values)
    {
      hide ChainOf, Decide, AfterCommit, HeadsServed, Grew, Adoptable;
      StoreGrew(rules, heads, store.values, store.values);
      if head.Some? && HeadKey(rules, head.value) == key {
        var e := Accept(source, head.value);
        if e.None? {
          return Acknowledged(head.value);
        }
      }
      var current := HeadAt(key);
      return Rejected(current);
    }

    // registry_rpc.go, send: a rejection that carries a newer head of the package is caught up with.
    method Send(head: Record, reply: UpdateReply, source: Source) returns (ok: bool)
      requires Good() && Checked(rules, source.find)
      modifies this`heads, store
      ensures Good() && Grew(rules, old(heads), old(store.values), heads, store.values)
      ensures ok <==> reply.Acknowledged? && rules.encode(reply.head) == rules.encode(head)
      ensures heads != old(heads) ==> reply.Rejected? && reply.current.Some? && NewerHead(reply.current.value, head)
      ensures reply.Acknowledged? ==> heads == old(heads) && store.values == old(store.values)
      ensures reply.Rejected? && reply.current.Some? ==>
        var c := reply.current.value;
        var newer := c.domain == head.domain && c.package == head.package && c.version > head.version;
        if !newer then heads == old(heads)
        else
          || source.mayStop || !Adoptable(rules, old(heads), old(store.values), source, c)
          || Holds(heads, HeadKey(rules, head), c)
      ensures heads != old(heads) ==> heads == old(heads)[HeadKey(rules, head) := reply.current.value]
    {
      hide ChainOf;
      StoreGrew(rules, heads, store.values, store.values);
      if reply.Rejected? {
        if reply.current.Some? && NewerHead(reply.current.value, head) {
          var e := Accept(source, reply.current.value);
        }
        return false;
      }
      return rules.encode(reply.head) == rules.encode(head);
    }

    // registry.go, Latest: every reachable replica of the package must agree on one history, and
    // when they do it succeeds.
    method Latest(
      domain: string, package: string, peers: Option<seq<Peer>>, answer: Peer -> GetReply, source: Source, again: Source)
      returns (r: Result<Record, LatestError>, ghost observed: seq<Record>)
      requires Good() && Checked(rules, source.find) && Checked(rules, again.find)
      modifies this`heads, store
      ensures Good() && Grew(rules, old(heads), old(store.values), heads, store.values)
      ensures LatestMeans(
        rules, old(heads), old(store.values), store.values, domain, package, peers, answer, source, again, r, observed)
      ensures Agreeing(rules, old(heads), old(store.values), domain, package, peers, answer, source, again) ==> r.Ok?
      ensures Gained(old(store.values), store.values, source.find, again.find)
      ensures r == Err(BadNames) <==> !ValidName(domain) || !ValidName(package)
      ensures r == Err(LookupFailed) <==> ValidName(domain) && ValidName(package) && peers.None?
      ensures r == Err(WrongPackage) <==>
        && ValidName(domain) && ValidName(package) && peers.Some?
        && exists i :: 0 <= i < |peers.value| && answer(peers.value[i]).Head? && (
            answer(peers.value[i]).head.domain != domain || answer(peers.value[i]).head.package != package)
      ensures var key := LatestKey(rules, domain, package);
        && (r.Ok? ==> Holds(heads, key, r.value) && key in heads && heads[key].recordHash == r.value.recordHash)
        && (r.Err? ==> heads == old(heads))
    {
      hide HeadsServed, Grew, ValidName, LatestMeans, Agreeing, Gained;
      ghost var heads0, values0 := heads, store.values;
      r, observed := Compare(domain, package, peers, answer, source, again);
      if Agreeing(rules, heads0, values0, domain, package, peers, answer, source, again) {
        LatestSucceeds(
          rules, heads0, values0, store.values, domain, package, peers, answer, source, again, r, observed);
      }
    }

    // Latest, up to the sort.
    method Compare(
      domain: string, package: string, peers: Option<seq<Peer>>, answer: Peer -> GetReply, source: Source, again: Source)
      returns (r: Result<Record, LatestError>, ghost observed: seq<Record>)
      requires Good() && Checked(rules, source.find) && Checked(rules, again.find)
      modifies this`heads, store
      ensures Good() && Grew(rules, old(heads), old(store.values), heads, store.values)
      ensures LatestMeans(
        rules, old(heads), old(store.values), store.values, domain, package, peers, answer, source, again, r, observed)
      ensures r == Err(BadNames) <==> !ValidName(domain) || !ValidName(package)
      ensures r == Err(LookupFailed) <==> ValidName(domain) && ValidName(package) && peers.None?
      ensures Gained(old(store.values), store.values, source.find, again.find)
      ensures r == Err(WrongPackage) <==>
        ValidName(domain) && ValidName(package) && peers.Some? && SomeOther(peers.value, answer, domain, package)
      ensures var key := LatestKey(rules, domain, package);
        (r.Ok? ==> Holds(heads, key, r.value)) && (r.Err? ==> heads == old(heads))
    {
      hide ChainOf, Verified, HeadsServed, Grew, OnChain, ValidName, Explained, Holds;
      observed := [];
      StoreGrew(rules, heads, store.values, store.values);
      var domainOk := CheckName(domain);
      var packageOk := CheckName(package);
      if !domainOk || !packageOk {
        return Err(BadNames), observed;
      }
      var key := LatestKey(rules, domain, package);
      if peers.None? {
        return Err(LookupFailed), observed;
      }
      var mine := HeadAt(key);
      var collected := Collect(domain, package, peers.value, answer, if mine.Some? then [mine.value] else []);
      if collected.None? {
        return Err(WrongPackage), observed;
      }
      var (found, failures) := collected.value;
      observed := found;
      if mine.Some? {
        HeadUnderKey(rules, heads, store.values, key);
        assert observed[0] == mine.value;
      }
      if |found| == 0 {
        return if failures > 0 then Err(CallsFailed) else Err(PackageNotFound), observed;
      }
      assert SeenAll(old(heads), key, peers.value, answer, observed);
      assert forall h :: h in observed ==> HeadKey(rules, h) == key;
      r := Reconcile(found, source, again, key);
    }

    // Latest, from the sort on.
    method Reconcile(observed: seq<Record>, source: Source, again: Source, ghost key: Id)
      returns (r: Result<Record, LatestError>)
      requires Good() && Checked(rules, source.find) && Checked(rules, again.find) && observed != []
      requires (forall h :: h in observed ==> HeadKey(rules, h) == key) && (key in heads ==> heads[key] in observed)
      modifies this`heads, store
      ensures Good() && Grew(rules, old(heads), old(store.values), heads, store.values)
      ensures r.Ok? ==>
        && r.value in observed && ChainOf(rules, Stored(store.values), r.value).Some?
        && (forall h :: h in observed ==>
          Verified(rules, h, LatestPointer) && OnChain(ChainOf(rules, Stored(store.values), r.value).value, h))
        && Holds(heads, HeadKey(rules, r.value), r.value)
      ensures r.Err? ==> Late(r.error) && heads == old(heads)
      ensures Gained(old(store.values), store.values, source.find, again.find)
      ensures r.Err? ==> Explained(rules, old(store.values), observed, source, again, r.error)
    {
      hide ChainOf, Verified, Decide, AfterCommit, OnChain, HeadsServed, Grew, Gained, Agrees;
      var newest := Newest(observed);
      var walked := FollowChain(rules, store, source, newest);
      GainedByWalk(old(store.values), store.values, source.find, again.find);
      StoreGrew(rules, heads, old(store.values), store.values);
      if walked.Err? {
        assert IsNewest(observed, newest) && Unwalked(rules, old(store.values), source, newest, walked.error);
        return Err(Unwalkable(walked.error));
      }
      var bad := CheckObserved(rules, walked.value, observed);
      if bad == Some(Fork) {
        ghost var a :| a in observed && Verified(rules, a, LatestPointer) && !OnChain(walked.value, a);
        assert IsNewest(observed, newest) && Forked(rules, old(store.values), source, a, newest);
      }
      if bad.Some? {
        return Err(bad.value);
      }
      ghost var values := store.values;
      WalkedBefore(rules, values, again.find, newest);
      if key in heads {
        OnChainNotRefused(rules, Stored(values), heads[key], newest);
      }
      var e := Accept(again, newest);
      GainedByWalk(values, store.values, again.find, again.find);
      GainedBoth(old(store.values), values, store.values, source.find, again.find);
      GrewStores(rules, old(heads), values, heads, store.values, newest);
      GrewTrans(rules, old(heads), old(store.values), old(heads), values, heads, store.values);
      if e.Some? {
        CurrentNotRefused(old(heads), key, newest, walked.value);
        return Err(NotAccepted(e.value));
      }
      CommitHolds(rules, old(heads), newest, walked.value);
      return Ok(newest);
    }
  }

  lemma GainedBoth(x: map<Id, Bytes>, y: map<Id, Bytes>, z: map<Id, Bytes>, a: Fetch, b: Fetch)
    requires Gained(x, y, a, b) && Gained(y, z, b, b)
    ensures Gained(x, z, a, b)
  {
  }

  lemma CurrentNotRefused(heads: map<Id, Record>, key: Id, head: Record, links: seq<Link>)
    requires key in heads ==> Decide(Some(heads[key]), head, links) != Refused
    ensures Decide(Current(heads, key), head, links) != Refused
  {
  }

  predicate Late(e: LatestError) {
    e.Unwalkable? || e.BadHead? || e.Fork? || e.NotAccepted?
  }

  ghost predicate SomeOther(peers: seq<Peer>, answer: Peer -> GetReply, domain: string, package: string) {
    exists i :: 0 <= i < |peers| && OtherPackage(answer(peers[i]), domain, package)
  }

  predicate NewerHead(current: Record, head: Record) {
    current.domain == head.domain && current.package == head.package && current.version > head.version
  }

  predicate OtherPackage(reply: GetReply, domain: string, package: string) {
    reply.Head? && (reply.head.domain != domain || reply.head.package != package)
  }

  // Latest: the answered heads in order, unless one names another package.
  method Collect(domain: string, package: string, peers: seq<Peer>, answer: Peer -> GetReply, mine: seq<Record>)
    returns (r: Option<(seq<Record>, nat)>)
    ensures r.Some? ==>
      && (forall h :: h in r.value.0 <==> h in mine || exists i :: 0 <= i < |peers| && answer(peers[i]) == Head(h))
      && mine <= r.value.0
      && (forall i :: 0 <= i < |peers| && answer(peers[i]).Head? ==> answer(peers[i]).head in r.value.0)
      && (r.value.1 > 0 <==> exists i :: 0 <= i < |peers| && answer(peers[i]) == CallFailed)
      && (forall h :: h in r.value.0 && h !in mine ==> h.domain == domain && h.package == package)
    ensures r.None? <==> SomeOther(peers, answer, domain, package)
  {
    var heads, failures := mine, 0;
    for n := 0 to |peers|
      invariant mine <= heads
      invariant forall i :: 0 <= i < n && answer(peers[i]).Head? ==> answer(peers[i]).head in heads
      invariant forall h :: h in heads <==> h in mine || exists i :: 0 <= i < n && answer(peers[i]) == Head(h)
      invariant failures > 0 <==> exists i :: 0 <= i < n && answer(peers[i]) == CallFailed
      invariant forall i :: 0 <= i < n ==> !OtherPackage(answer(peers[i]), domain, package)
    {
      match answer(peers[n]) {
        case CallFailed => failures := failures + 1;
        case NoHead =>
        case Head(h) =>
          if h.domain != domain || h.package != package {
            return None;
          }
          heads := heads + [h];
      }
    }
    return Some((heads, failures));
  }

  // Latest takes the last head after an unstable sort by version: of the heads with the greatest
  // version, any may be the one.
  method Newest(heads: seq<Record>) returns (newest: Record)
    requires heads != []
    ensures newest in heads && forall h :: h in heads ==> h.version <= newest.version
  {
    newest := heads[0];
    for n := 1 to |heads|
      invariant newest in heads && forall i :: 0 <= i < n ==> heads[i].version <= newest.version
    {
      if heads[n].version > newest.version {
        newest := heads[n];
      } else if heads[n].version == newest.version {
        if * {
          newest := heads[n];
        }
      }
    }
  }

  // Latest: every head verifies and is found on the newest chain at its own version.
  method CheckObserved(rules: Rules, links: seq<Link>, heads: seq<Record>) returns (e: Option<LatestError>)
    ensures e.None? <==> forall h :: h in heads ==> Verified(rules, h, LatestPointer) && OnChain(links, h)
    ensures e == Some(BadHead) ==> exists h :: h in heads && !Verified(rules, h, LatestPointer)
    ensures e == Some(Fork) ==> exists h :: h in heads && Verified(rules, h, LatestPointer) && !OnChain(links, h)
    ensures e.Some? ==> e.value == Fork || e.value == BadHead
  {
    hide Verified;
    for n := 0 to |heads|
      invariant forall i :: 0 <= i < n ==> Verified(rules, heads[i], LatestPointer) && OnChain(links, heads[i])
    {
      var bad := Verify(rules, heads[n], LatestPointer);
      if bad.Some? {
        return Some(BadHead);
      }
      var found := false;
      for i := 0 to |links|
        invariant !found && forall j :: 0 <= j < i ==> !LinkOf(links, j, heads[n])
      {
        if Canonical(links[i].hash) == heads[n].recordHash && links[i].record.version == heads[n].version {
          assert LinkOf(links, i, heads[n]);
          found := true;
          break;
        }
      }
      if !found {
        return Some(Fork);
      }
    }
    return None;
  }
}
