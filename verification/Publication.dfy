// src/kademlia/registry.go: a head built by Publish without force is accepted by the replicas.
module Publication {
  import opened Wrappers
  import opened Ids
  import opened Contacts
  import opened FindRpc
  import opened Records
  import opened Chain
  import opened Histories
  import opened PackageRegistry
  import opened Packages
  import Forks

  // What is assumed of the libraries for one publication: a signature verifies under the public
  // key of its signer (RFC 8032), the new record reads back from its encoding, its hash is not
  // the zero hash, and the pointer is within the size limit, which Publish does not check for it.
  ghost predicate Sound(rules: Rules, key: SigningKey, v: Record) {
    && |key.public| == PUBLIC_KEY_SIZE
    && (forall d :: rules.signed(key.public, d, key.sign(d)))
    && rules.decode(rules.encode(v)) == Some(v)
    && rules.digest(rules.encode(v)) != ZERO
    && |rules.encode(NewPointer(rules, key, v))| <= rules.maxValueSize
  }

  // A record as Publish signs it.
  ghost predicate Issued(rules: Rules, key: SigningKey, v: Record) {
    && v.tag == VersionRecord && v.blobHash.Canonical? && v.previous.Canonical? && v.recordHash == Absent
    && v.signature == key.sign(rules.digest(rules.encode(v.(signature := []))))
  }

  // What a publication may build on: the head that Latest returned, or nothing at all.
  ghost predicate Continues(rules: Rules, s: Surroundings, key: SigningKey, base: Option<Record>, head: Record, v: Record) {
    && ValidName(v.domain) && ValidName(v.package) && v.version > 0
    && |rules.encode(v)| <= rules.maxValueSize && s.stored(rules.encode(v))
    && head == NewPointer(rules, key, v) && v.domain in rules.owners && rules.owners[v.domain] == key.public
    && match base
       case None => v.previous == ZERO_HASH
       case Some(b) => v.version > b.version && v.previous == b.recordHash
  }

  // The fields that a publication signs leave nothing open.
  lemma HeadIsPointer(rules: Rules, key: SigningKey, v: Record, head: Record)
    requires NewHead(rules, key, v, head)
    ensures head == NewPointer(rules, key, v)
  {
    var empty := Record(
      LatestPointer, v.domain, v.package, v.version, Absent, Absent, Canonical(rules.digest(rules.encode(v))), []);
    assert head.(signature := []) == empty && empty.(signature := []) == empty;
  }

  ghost function BaseHistory(rules: Rules, u: Fetch, base: Option<Record>): Option<seq<Link>> {
    if base.None? then Some([]) else ChainOf(rules, u, base.value)
  }

  function NewLink(rules: Rules, v: Record): Link {
    Link(rules.digest(rules.encode(v)), v)
  }

  // The setting: v was made by a non-forced Publish on `base`, a head of the same package, and
  // its bytes can be found.
  ghost predicate Made(rules: Rules, u: Fetch, s: Surroundings, key: SigningKey, base: Option<Record>, v: Record) {
    && Issued(rules, key, v) && Sound(rules, key, v)
    && Continues(rules, s, key, base, NewPointer(rules, key, v), v)
    && BaseHistory(rules, u, base).Some? && (base.Some? ==> SamePackage(base.value, v))
    && u(rules.digest(rules.encode(v))) == Some(rules.encode(v))
  }

  ghost function NewHistory(rules: Rules, u: Fetch, base: Option<Record>, v: Record): seq<Link>
    requires BaseHistory(rules, u, base).Some?
  {
    [NewLink(rules, v)] + BaseHistory(rules, u, base).value
  }

  lemma RecordsVerify(rules: Rules, u: Fetch, s: Surroundings, key: SigningKey, base: Option<Record>, v: Record)
    requires Made(rules, u, s, key, base, v)
    ensures Verified(rules, v, VersionRecord) && Verified(rules, NewPointer(rules, key, v), LatestPointer)
  {
    hide ValidName, ChainOf;
    var bare := Record(
      LatestPointer, v.domain, v.package, v.version, Absent, Absent, Canonical(rules.digest(rules.encode(v))), []);
    assert Sign(rules, key, bare).(signature := []) == bare.(signature := []);
  }

  // A walk that meets its first bound exactly also meets any larger bound.
  lemma LooserBound(rules: Rules, u: Fetch, domain: string, package: string, hash: Id, version: nat, bound: nat)
    requires version < bound
    requires Walk(rules, u, domain, package, hash, version, true).Some?
    ensures Walk(rules, u, domain, package, hash, bound, false) == Walk(rules, u, domain, package, hash, version, true)
  {
    hide Verified;
    if hash != ZERO {
      var v := Step(rules, u, domain, package, hash, version, true).value;
      assert Step(rules, u, domain, package, hash, bound, false) == Some(v);
    }
  }

  // The published history is the base's history with the new record in front.
  lemma PublishedHistory(rules: Rules, u: Fetch, s: Surroundings, key: SigningKey, base: Option<Record>, v: Record)
    requires Made(rules, u, s, key, base, v)
    ensures ChainOf(rules, u, NewPointer(rules, key, v)) == Some(NewHistory(rules, u, base, v))
  {
    hide Verified, ValidName;
    RecordsVerify(rules, u, s, key, base, v);
    var head := NewPointer(rules, key, v);
    assert head.domain == v.domain && head.package == v.package && head.version == v.version;
    assert Step(rules, u, v.domain, v.package, head.recordHash.id, v.version, true) == Some(v);
    if base.Some? {
      LooserBound(rules, u, v.domain, v.package, v.previous.id, base.value.version, v.version);
    }
    assert Walk(rules, u, v.domain, v.package, v.previous.id, v.version, false) == BaseHistory(rules, u, base);
    assert Walk(rules, u, v.domain, v.package, head.recordHash.id, v.version, true) == Some(NewHistory(rules, u, base, v));
  }

  // A replica refuses the publication exactly when it holds a head whose history is not part of
  // the published one; without a head, or with one in the base's history, it commits.
  lemma PublicationAcceptable(
    rules: Rules, u: Fetch, s: Surroundings, key: SigningKey, base: Option<Record>, v: Record, current: Option<Record>)
    requires Made(rules, u, s, key, base, v)
    requires current.Some? ==> ChainOf(rules, u, current.value).Some?
    ensures var verdict := Decide(current, NewPointer(rules, key, v), NewHistory(rules, u, base, v));
      && (current.None? ==> verdict == Committed)
      && (current.Some? && IsSuffix(ChainOf(rules, u, current.value).value, BaseHistory(rules, u, base).value) ==>
        verdict == Committed)
      && (current.Some? ==>
        (verdict == Refused <==> !IsSuffix(ChainOf(rules, u, current.value).value, NewHistory(rules, u, base, v))))
  {
    assert Decide(None, NewPointer(rules, key, v), NewHistory(rules, u, base, v)) == Committed;
    hide ChainOf, Verified, Sound, Continues, Decide, IsSuffix, NewPointer;
    PublishedHistory(rules, u, s, key, base, v);
    if current.Some? {
      var c, before := ChainOf(rules, u, current.value).value, BaseHistory(rules, u, base).value;
      DecideIsSuffix(rules, u, current.value, NewPointer(rules, key, v));
      if IsSuffix(c, before) {
        SuffixCons(c, NewLink(rules, v), before);
      }
    }
  }

  // What Publish signs names records by their own encoding, if the base it continues does.
  lemma PublishNamesOwnSpelling(
    rules: Rules, u: Fetch, s: Surroundings, key: SigningKey, base: Option<Record>, v: Record)
    requires Made(rules, u, s, key, base, v)
    requires base.Some? ==> Forks.OwnSpelling(rules, u, base.value.recordHash)
    ensures Forks.OwnSpelling(rules, u, NewPointer(rules, key, v).recordHash) && Forks.OwnSpelling(rules, u, v.previous)
  {
    hide ChainOf, ValidName;
  }

  // A replica that can find the records and holds no head, or one in the base's history.
  ghost predicate Ready(
    rules: Rules, u: Fetch, base: Option<Record>, v: Record, heads: map<Id, Record>, values: map<Id, Bytes>, remote: Fetch)
  {
    var current := Current(heads, LatestKey(rules, v.domain, v.package));
    && BaseHistory(rules, u, base).Some? && Agrees(LocalFirst(values, remote), u)
    && (forall i :: 0 <= i < |NewHistory(rules, u, base, v)| ==>
      LocalFirst(values, remote)(NewHistory(rules, u, base, v)[i].hash).Some?)
    && (current.Some? ==> ChainOf(rules, Stored(values), current.value).Some?)
    && (current.Some? ==> IsSuffix(ChainOf(rules, Stored(values), current.value).value, BaseHistory(rules, u, base).value))
  }

  lemma ReadyCommits(
    rules: Rules, u: Fetch, s: Surroundings, key: SigningKey, base: Option<Record>, v: Record, heads: map<Id, Record>,
    values: map<Id, Bytes>, remote: Fetch)
    requires Made(rules, u, s, key, base, v) && Ready(rules, u, base, v, heads, values, remote)
    ensures var head, links := NewPointer(rules, key, v), NewHistory(rules, u, base, v);
      && ChainOf(rules, LocalFirst(values, remote), head) == Some(links)
      && AfterCommit(rules, heads, head, links) == heads[HeadKey(rules, head) := head]
      && Decide(Current(heads, HeadKey(rules, head)), head, links) == Committed
  {
    hide ChainOf, Verified, Sound, Continues, Decide;
    var head, links := NewPointer(rules, key, v), NewHistory(rules, u, base, v);
    PublishedHistory(rules, u, s, key, base, v);
    ServedBy(rules, u, LocalFirst(values, remote), head, links);
    var current := Current(heads, HeadKey(rules, head));
    if current.Some? {
      assert Agrees(Stored(values), u) by {
        forall h | Stored(values)(h).Some? ensures u(h) == Stored(values)(h) {
          assert LocalFirst(values, remote)(h) == Stored(values)(h);
        }
      }
      ChainAgrees(rules, Stored(values), u, current.value);
    }
    PublicationAcceptable(rules, u, s, key, base, v, current);
  }

  // Delivering the publication to such a replica makes it the replica's head, unless the walk is cancelled.
  method Deliver(
    replica: Registry, source: Source, head: Record, ghost u: Fetch, ghost s: Surroundings, ghost key: SigningKey,
    ghost base: Option<Record>, ghost v: Record)
    returns (e: Option<AcceptError>)
    requires replica.Good() && Checked(replica.rules, source.find)
    requires Made(replica.rules, u, s, key, base, v) && head == NewPointer(replica.rules, key, v)
    requires Ready(replica.rules, u, base, v, replica.heads, replica.store.values, source.find)
    modifies replica`heads, replica.store
    ensures replica.Good()
    ensures e.None? || (e == Some(NotAChain(Cancelled)) && source.mayStop)
    ensures e.None? ==> HeadKey(replica.rules, head) in replica.heads && replica.heads[HeadKey(replica.rules, head)] == head
    ensures e.None? ==> ChainOf(replica.rules, Stored(replica.store.values), head) == Some(NewHistory(replica.rules, u, base, v))
  {
    hide ChainOf, Made, Ready, Decide, Grew, HeadsServed, Checked, NewPointer, NewHistory;
    ReadyCommits(replica.rules, u, s, key, base, v, replica.heads, replica.store.values, source.find);
    e := replica.Accept(source, head);
  }

  // ------------------------------------------------------------------ from Publish to its replicas

  // The head that this node holds under the key was not filed there by a collision of two texts.
  ghost predicate NoCollision(rules: Rules, heads: map<Id, Record>, domain: string, package: string) {
    var key := LatestKey(rules, domain, package);
    key in heads ==>
      var mine, asked := heads[key].domain + ":" + heads[key].package + ":latest", domain + ":" + package + ":latest";
      rules.keyHash(mine) == rules.keyHash(asked) ==> mine == asked
  }

  // The head that Latest returned names the package it was asked for.
  lemma BaseNamesPackage(
    rules: Rules, values: map<Id, Bytes>, heads: map<Id, Record>, peers: seq<Peer>, answer: Peer -> GetReply, base: Record,
    domain: string, package: string)
    requires ValidName(domain) && ValidName(package) && NoCollision(rules, heads, domain, package)
    requires Observed(heads, LatestKey(rules, domain, package), peers, answer, base)
    requires !SomeOther(peers, answer, domain, package) && HeadKey(rules, base) == LatestKey(rules, domain, package)
    requires ChainOf(rules, Stored(values), base).Some?
    ensures base.domain == domain && base.package == package
  {
    hide ValidName, ChainOf;
    var key := LatestKey(rules, domain, package);
    if key in heads && heads[key] == base {
      VerifiedNames(rules, base);
      KeyNamesPackage(rules, base.domain, base.package, domain, package);
    } else {
      var i :| 0 <= i < |peers| && answer(peers[i]) == Head(base);
      assert !OtherPackage(answer(peers[i]), domain, package);
    }
  }

  lemma VerifiedNames(rules: Rules, head: Record)
    requires Verified(rules, head, LatestPointer)
    ensures ValidName(head.domain) && ValidName(head.package)
  {
  }

  // What a publication rests on beside the code: the libraries, and that the bytes that have been
  // stored belong to one universe in which the new record can be found.
  ghost predicate Founded(rules: Rules, u: Fetch, key: SigningKey, v: Record, values: map<Id, Bytes>) {
    && Sound(rules, key, v) && Agrees(Stored(values), u)
    && u(rules.digest(rules.encode(v))) == Some(rules.encode(v))
  }

  // A non-forced Publish meets the setting of the theorems above.
  lemma PublishMakes(
    rules: Rules, u: Fetch, s: Surroundings, key: SigningKey, base: Option<Record>, v: Record, domain: string,
    package: string, version: nat, data: Bytes, values: map<Id, Bytes>, heads: map<Id, Record>)
    requires NewVersion(rules, key, domain, package, version, data, v)
    requires Continues(rules, s, key, base, NewPointer(rules, key, v), v) && Founded(rules, u, key, v, values)
    requires BaseFound(rules, heads, values, domain, package, s, base)
    requires NoCollision(rules, heads, domain, package)
    ensures Made(rules, u, s, key, base, v)
  {
    hide ChainOf, Sound, Verified, ValidName, NewPointer, Observed, SomeOther, NoCollision;
    if base.Some? {
      BaseNamesPackage(rules, values, heads, s.peers.value, s.answer, base.value, domain, package);
      ChainAgrees(rules, Stored(values), u, base.value);
    }
  }

  // Publishing without force, then handing the head to a replica. What is sent out continues the
  // history of the head that Latest returned by the new record; a replica that holds no head, or
  // one in that history, and can find the records, then holds the new head.
  method PublishAndDeliver(
    r: Registry, replica: Registry, domain: string, package: string, version: nat, data: Bytes, key: SigningKey,
    previous: Option<nat>, s: Surroundings, source: Source, ghost u: Fetch)
    returns (head: Option<Record>, held: bool, base: Option<Record>, v: Record)
    requires r.Good() && Packages.Proper(r.rules, s) && NoCollision(r.rules, r.heads, domain, package)
    requires replica.Good() && Checked(r.rules, source.find) && replica.rules == r.rules
    requires replica != r && replica.store != r.store
    modifies r`heads, r.store, replica`heads, replica.store
    ensures r.Good() && replica.Good()
    ensures BaseFound(r.rules, old(r.heads), r.store.values, domain, package, s, base)
    ensures head.Some? ==>
      NewVersion(r.rules, key, domain, package, version, data, v) && NewHead(r.rules, key, v, head.value)
    ensures head.Some? && Founded(r.rules, u, key, v, r.store.values) ==>
      && Made(r.rules, u, s, key, base, v) && ChainOf(r.rules, u, head.value) == Some(NewHistory(r.rules, u, base, v))
      && (Ready(r.rules, u, base, v, old(replica.heads), old(replica.store.values), source.find) ==> held || source.mayStop)
    ensures held ==> head.Some? && Holds(replica.heads, LatestKey(r.rules, domain, package), head.value)
    ensures Extended(old(replica.store.values), replica.store.values)
    ensures Agrees(Stored(replica.store.values), LocalFirst(old(replica.store.values), source.find))
    ensures held && Founded(r.rules, u, key, v, r.store.values) ==>
      Ready(r.rules, u, base, v, old(replica.heads), old(replica.store.values), source.find) ==>
        && LatestKey(r.rules, domain, package) in replica.heads
        && replica.heads[LatestKey(r.rules, domain, package)] == head.value
        && ChainOf(r.rules, Stored(replica.store.values), head.value) == Some(NewHistory(r.rules, u, base, v))
  {
    hide ChainOf, Grew, HeadsServed, Checked, Made, Ready, Continues, Decide, AfterCommit, Reconciled, Observed, SomeOther;
    hide NewHistory, NewVersion, NewHead, NewPointer, Founded, Selected, AllChecked, BaseHistory, NoCollision, Holds;
    hide BaseFound, Unpublished, ValidName, Undelivered, ChoiceFails, Unanimous, Delivered, Agrees, Extended, LocalFirst;
    ghost var heads, oldHeads, oldValues := r.heads, replica.heads, replica.store.values;
    var error;
    ghost var observed, chosen;
    error, head, base, v, observed, chosen := Publish(r, domain, package, version, data, key, PublishOptions(false, previous), s);
    held := false;
    AgreesLocally(replica.store.values, source.find);
    if head.Some? {
      HeadIsPointer(r.rules, key, v, head.value);
      PointerFields(r.rules, key, domain, package, version, data, v, head.value);
      ghost var known := r.store.values;
      var e := replica.Accept(source, head.value);
      GrewExtends(r.rules, oldHeads, oldValues, replica.heads, replica.store.values);
      held := e.None?;
      if Founded(r.rules, u, key, v, known) {
        PublishContinues(r.rules, s, key, base, v, domain, package, version, data, head.value);
        PublishMakes(r.rules, u, s, key, base, v, domain, package, version, data, known, heads);
        PublishedHistory(r.rules, u, s, key, base, v);
        if Ready(r.rules, u, base, v, oldHeads, oldValues, source.find) {
          ReadyCommits(r.rules, u, s, key, base, v, oldHeads, oldValues, source.find);
        }
      }
    }
  }

  lemma PublishContinues(
    rules: Rules, s: Surroundings, key: SigningKey, base: Option<Record>, v: Record, domain: string, package: string,
    version: nat, data: Bytes, head: Record)
    requires NewVersion(rules, key, domain, package, version, data, v) && head == NewPointer(rules, key, v)
    requires ValidName(domain) && ValidName(package) && version > 0
    requires domain in rules.owners && rules.owners[domain] == key.public
    requires |rules.encode(v)| <= rules.maxValueSize && s.stored(rules.encode(v))
    requires if base.None? then v.previous == ZERO_HASH
             else version > base.value.version && v.previous == base.value.recordHash
    ensures Continues(rules, s, key, base, NewPointer(rules, key, v), v)
  {
    hide ValidName;
  }

  lemma PointerFields(
    rules: Rules, key: SigningKey, domain: string, package: string, version: nat, data: Bytes, v: Record, head: Record)
    requires NewVersion(rules, key, domain, package, version, data, v) && NewHead(rules, key, v, head)
    ensures v.domain == domain && v.package == package && v.version == version
    ensures v.blobHash == Canonical(rules.digest(data))
    ensures head.domain == domain && head.package == package
  {
  }

  lemma AgreesLocally(values: map<Id, Bytes>, remote: Fetch)
    ensures Agrees(Stored(values), LocalFirst(values, remote)) && Extended(values, values)
  {
  }

  // ------------------------------------------------------------------ from Publish to Install

  // A head that someone answers or holds belongs to the published history.
  ghost predicate OfHistory(rules: Rules, links: seq<Link>, v: Record, h: Record) {
    SamePackage(h, v) && Verified(rules, h, LatestPointer) && OnChain(links, h)
  }

  // What a later reader meets: it sees the published head, and every head it sees belongs to the
  // published history; its lookups find that history, and nothing is cancelled.
  ghost predicate Legible(
    rules: Rules, u: Fetch, key: SigningKey, base: Option<Record>, v: Record, heads: map<Id, Record>,
    values: map<Id, Bytes>, t: Surroundings)
    requires BaseHistory(rules, u, base).Some?
  {
    var links, at := NewHistory(rules, u, base, v), LatestKey(rules, v.domain, v.package);
    && t.peers.Some? && !t.net(0).mayStop && !t.net(1).mayStop && !t.net(2).mayStop
    && Observed(heads, at, t.peers.value, t.answer, NewPointer(rules, key, v))
    && (forall h :: Observed(heads, at, t.peers.value, t.answer, h) ==> OfHistory(rules, links, v, h))
    && Agrees(Stored(values), u) && (forall i: nat :: Agrees(t.net(i).find, u))
    && forall i :: 0 <= i < |links| ==> LocalFirst(values, t.net(0).find)(links[i].hash).Some?
  }

  // The published head is the only one of its history with its version or a greater one.
  lemma GreatestIsHead(
    rules: Rules, u: Fetch, s: Surroundings, key: SigningKey, base: Option<Record>, v: Record, h: Record)
    requires Made(rules, u, s, key, base, v) && h.version >= v.version
    requires OfHistory(rules, NewHistory(rules, u, base, v), v, h)
    ensures h.version == v.version && h.recordHash == NewPointer(rules, key, v).recordHash
    ensures ChainOf(rules, u, h) == Some(NewHistory(rules, u, base, v))
  {
    hide Verified, Sound, Continues, ValidName, Walk, Linked;
    var head, links := NewPointer(rules, key, v), NewHistory(rules, u, base, v);
    PublishedHistory(rules, u, s, key, base, v);
    ChainShape(rules, u, head);
    LinkedDecreases(rules, links, head.domain, head.package);
    var i :| LinkOf(links, i, h);
    FirstIsGreatest(links, i);
  }

  lemma FirstIsGreatest(links: seq<Link>, i: nat)
    requires Decreasing(links) && i < |links|
    ensures i == 0 || links[0].record.version > links[i].record.version
  {
  }

  lemma LegibleAgrees(
    rules: Rules, u: Fetch, s: Surroundings, key: SigningKey, base: Option<Record>, v: Record, heads: map<Id, Record>,
    values: map<Id, Bytes>, t: Surroundings)
    requires Made(rules, u, s, key, base, v) && Legible(rules, u, key, base, v, heads, values, t)
    ensures Unanimous(rules, heads, values, v.domain, v.package, t)
  {
    hide Verified, Made, ChainOf, OnChain, Observed, NewHistory, NewPointer, LocalFirst, ValidName;
    MadeNames(rules, u, s, key, base, v);
    var at, links := LatestKey(rules, v.domain, v.package), NewHistory(rules, u, base, v);
    forall i | 0 <= i < |t.peers.value| && t.answer(t.peers.value[i]).Head?
      ensures SamePackage(t.answer(t.peers.value[i]).head, v)
    {
      AnsweredIsObserved(heads, at, t.peers.value, t.answer, i);
    }
    var local := LocalFirst(values, t.net(0).find);
    LocalAgrees(values, t.net(0).find, u);
    forall n | Foremost(heads, at, t.peers.value, t.answer, n)
      ensures InHistory(rules, heads, values, at, t.peers.value, t.answer, t.net(0), n)
    {
      GreatestIsHead(rules, u, s, key, base, v, n);
      ServedBy(rules, u, local, n, links);
    }
  }

  lemma MadeNames(rules: Rules, u: Fetch, s: Surroundings, key: SigningKey, base: Option<Record>, v: Record)
    requires Made(rules, u, s, key, base, v)
    ensures ValidName(v.domain) && ValidName(v.package) && BaseHistory(rules, u, base).Some?
    ensures NewPointer(rules, key, v).version == v.version
  {
    hide ValidName;
  }

  lemma AnsweredIsObserved(heads: map<Id, Record>, at: Id, peers: seq<Peer>, answer: Peer -> GetReply, i: nat)
    requires i < |peers| && answer(peers[i]).Head?
    ensures Observed(heads, at, peers, answer, answer(peers[i]).head)
  {
  }

  lemma LocalAgrees(values: map<Id, Bytes>, remote: Fetch, u: Fetch)
    requires Agrees(Stored(values), u) && Agrees(remote, u)
    ensures Agrees(LocalFirst(values, remote), u)
  {
    forall h | LocalFirst(values, remote)(h).Some? ensures u(h) == LocalFirst(values, remote)(h) {
      assert h in values ==> Stored(values)(h).Some?;
    }
  }

  // Whichever head a reader's Latest returned, its history is the published one.
  lemma ReadHistory(
    rules: Rules, u: Fetch, s: Surroundings, key: SigningKey, base: Option<Record>, v: Record, heads: map<Id, Record>,
    before: map<Id, Bytes>, values: map<Id, Bytes>, t: Surroundings, h: Record)
    requires Made(rules, u, s, key, base, v) && Legible(rules, u, key, base, v, heads, before, t)
    requires Agrees(Stored(values), u) && Observed(heads, LatestKey(rules, v.domain, v.package), t.peers.value, t.answer, h)
    requires Reconciled(rules, values, h, heads, LatestKey(rules, v.domain, v.package), t.peers.value, t.answer)
    ensures ChainOf(rules, Stored(values), h) == Some(NewHistory(rules, u, base, v))
  {
    hide Verified, Made, ChainOf, Observed, NewHistory, NewPointer, LocalFirst, Linked, AllFound, Agrees;
    MadeNames(rules, u, s, key, base, v);
    var links := ChainOf(rules, Stored(values), h).value;
    ChainShape(rules, Stored(values), h);
    LinkedDecreases(rules, links, h.domain, h.package);
    var i :| LinkOf(links, i, NewPointer(rules, key, v));
    FirstIsGreatest(links, i);
    GreatestIsHead(rules, u, s, key, base, v, h);
    ChainAgrees(rules, Stored(values), u, h);
  }

  // The newest record, and the one with its number, is the published one.
  lemma WantedIsNew(rules: Rules, u: Fetch, s: Surroundings, key: SigningKey, base: Option<Record>, v: Record, wanted: Wanted)
    requires Made(rules, u, s, key, base, v) && (wanted == TheLatest || wanted == Numbered(v.version))
    ensures forall l :: IsWanted(NewHistory(rules, u, base, v), wanted, l) ==> l.record == v
    ensures exists l :: l in NewHistory(rules, u, base, v) && l.record.version == v.version
  {
    hide Made;
    MadeNames(rules, u, s, key, base, v);
    var links := NewHistory(rules, u, base, v);
    assert links[0] == NewLink(rules, v) && links[0] in links;
  }

  // A reader asks for the published version, meets its history and can find its data.
  ghost predicate Sought(
    rules: Rules, u: Fetch, s: Surroundings, key: SigningKey, base: Option<Record>, v: Record, data: Bytes,
    heads: map<Id, Record>, values: map<Id, Bytes>, wanted: Wanted, t: Surroundings, blobs: Source)
  {
    && Made(rules, u, s, key, base, v) && v.blobHash == Canonical(rules.digest(data))
    && Legible(rules, u, key, base, v, heads, values, t) && (wanted == TheLatest || wanted == Numbered(v.version))
    && !blobs.mayStop && (rules.digest(data) in values || blobs.find(rules.digest(data)).Some?)
  }

  // Such a reader installs the data that was published, unless other data has the same hash.
  method InstallPublished(
    reader: Registry, domain: string, package: string, wanted: Wanted, t: Surroundings, blobs: Source, ghost u: Fetch,
    ghost s: Surroundings, ghost key: SigningKey, ghost base: Option<Record>, ghost v: Record, ghost data: Bytes)
    returns (got: Result<Bytes, InstallError>)
    requires reader.Good() && Packages.Proper(reader.rules, t) && Checked(reader.rules, blobs.find)
    requires v.domain == domain && v.package == package
    modifies reader`heads, reader.store
    ensures reader.Good()
    ensures Sought(
      reader.rules, u, s, key, base, v, data, old(reader.heads), old(reader.store.values), wanted, t, blobs) ==>
        && got.Ok? && reader.rules.digest(got.value) == reader.rules.digest(data)
        && (u(reader.rules.digest(data)) == Some(data) && Agrees(blobs.find, u) ==> got == Ok(data))
  {
    hide Verified, Made, ChainOf, Observed, NewHistory, NewPointer, LocalFirst, Agrees, Legible, Grew, HeadsServed, Checked;
    hide LatestMeans, Agreeing, AllChecked, Reconciled, Gathered, IsWanted;
    ghost var rules, heads, values := reader.rules, reader.heads, reader.store.values;
    ghost var history, head, observed;
    got, history, head, observed := Install(reader, domain, package, wanted, t, blobs);
    if Sought(rules, u, s, key, base, v, data, heads, values, wanted, t, blobs) {
      MadeNames(rules, u, s, key, base, v);
      LegibleAgrees(rules, u, s, key, base, v, heads, values, t);
      LegibleReach(rules, u, key, base, v, heads, values, t);
      GatheredAgrees(values, reader.store.values, t, u);
      ReadHistory(rules, u, s, key, base, v, heads, values, reader.store.values, t, head);
      WantedIsNew(rules, u, s, key, base, v, wanted);
      GrewExtends(rules, heads, values, reader.heads, reader.store.values);
      if u(rules.digest(data)) == Some(data) && Agrees(blobs.find, u) && got.Ok? {
        SameBlob(reader.store.values, blobs.find, u, rules.digest(data), got.value);
      }
    }
  }

  lemma LegibleReach(
    rules: Rules, u: Fetch, key: SigningKey, base: Option<Record>, v: Record, heads: map<Id, Record>,
    values: map<Id, Bytes>, t: Surroundings)
    requires BaseHistory(rules, u, base).Some? && Legible(rules, u, key, base, v, heads, values, t)
    ensures !t.net(2).mayStop && t.peers.Some? && Agrees(Stored(values), u) && forall i: nat :: Agrees(t.net(i).find, u)
  {
  }

  lemma GatheredAgrees(before: map<Id, Bytes>, after: map<Id, Bytes>, t: Surroundings, u: Fetch)
    requires Gathered(before, after, t) && Agrees(Stored(before), u) && forall i: nat :: Agrees(t.net(i).find, u)
    ensures Agrees(Stored(after), u)
  {
    hide Agrees, Stored, Gained;
    var middle :|
      Gained(before, middle, t.net(0).find, t.net(1).find) && Gained(middle, after, t.net(2).find, t.net(2).find);
    GainedAgrees(before, middle, t.net(0).find, t.net(1).find, u);
    GainedAgrees(middle, after, t.net(2).find, t.net(2).find, u);
  }

  lemma SameBlob(values: map<Id, Bytes>, blobs: Fetch, u: Fetch, hash: Id, data: Bytes)
    requires Agrees(Stored(values), u) && Agrees(blobs, u)
    requires if hash in values then values[hash] == data else blobs(hash) == Some(data)
    ensures u(hash) == Some(data)
  {
    assert hash in values ==> Stored(values)(hash).Some?;
  }

  // What is answered to a holder of the published head belongs to its history, and nothing is cancelled.
  ghost predicate Undisputed(rules: Rules, u: Fetch, base: Option<Record>, v: Record, t: Surroundings) {
    && BaseHistory(rules, u, base).Some? && t.peers.Some?
    && !t.net(0).mayStop && !t.net(1).mayStop && !t.net(2).mayStop
    && (forall i :: 0 <= i < |t.peers.value| && t.answer(t.peers.value[i]).Head? ==>
      OfHistory(rules, NewHistory(rules, u, base, v), v, t.answer(t.peers.value[i]).head))
    && forall i: nat :: Agrees(t.net(i).find, u)
  }

  lemma HolderReads(
    rules: Rules, u: Fetch, s: Surroundings, key: SigningKey, base: Option<Record>, v: Record, heads: map<Id, Record>,
    values: map<Id, Bytes>, t: Surroundings)
    requires Made(rules, u, s, key, base, v) && Undisputed(rules, u, base, v, t)
    requires var at := LatestKey(rules, v.domain, v.package); at in heads && heads[at] == NewPointer(rules, key, v)
    requires ChainOf(rules, Stored(values), NewPointer(rules, key, v)) == Some(NewHistory(rules, u, base, v))
    requires Agrees(Stored(values), u)
    ensures Legible(rules, u, key, base, v, heads, values, t)
  {
    hide Verified, Made, ChainOf, NewHistory, OnChain, Agrees, Linked;
    MadeNames(rules, u, s, key, base, v);
    var head, links := NewPointer(rules, key, v), NewHistory(rules, u, base, v);
    var at := LatestKey(rules, v.domain, v.package);
    HeadOfHistory(rules, u, s, key, base, v);
    forall h | Observed(heads, at, t.peers.value, t.answer, h) ensures OfHistory(rules, links, v, h) {
      assert heads[at] == h || exists i :: 0 <= i < |t.peers.value| && t.answer(t.peers.value[i]) == Head(h);
    }
    ChainShape(rules, Stored(values), head);
    forall i | 0 <= i < |links| ensures LocalFirst(values, t.net(0).find)(links[i].hash).Some? {
      assert RecordAt(rules, Stored(values), links[i].hash).Some?;
    }
  }

  lemma HeadOfHistory(rules: Rules, u: Fetch, s: Surroundings, key: SigningKey, base: Option<Record>, v: Record)
    requires Made(rules, u, s, key, base, v)
    ensures OfHistory(rules, NewHistory(rules, u, base, v), v, NewPointer(rules, key, v))
  {
    hide Verified, Sound, Continues, ValidName, Walk, Issued;
    RecordsVerify(rules, u, s, key, base, v);
    assert LinkOf(NewHistory(rules, u, base, v), 0, NewPointer(rules, key, v));
  }

  predicate Obtains(rules: Rules, got: Option<Result<Bytes, InstallError>>, data: Bytes) {
    got.Some? && got.value.Ok? && rules.digest(got.value.value) == rules.digest(data)
  }

  // The whole way of a package: published without force, accepted by a replica, installed there.
  // When the replica was ready, no answer disputes the history and the blob can be found, the
  // installation gives the data that was published.
  method PublishThenInstall(
    r: Registry, replica: Registry, domain: string, package: string, version: nat, data: Bytes, key: SigningKey,
    previous: Option<nat>, s: Surroundings, source: Source, wanted: Wanted, t: Surroundings, blobs: Source, ghost u: Fetch)
    returns (head: Option<Record>, held: bool, got: Option<Result<Bytes, InstallError>>, base: Option<Record>, v: Record)
    requires r.Good() && Packages.Proper(r.rules, s) && NoCollision(r.rules, r.heads, domain, package)
    requires replica.Good() && Checked(r.rules, source.find) && replica.rules == r.rules
    requires replica != r && replica.store != r.store
    requires Packages.Proper(r.rules, t) && Checked(r.rules, blobs.find)
    requires wanted == TheLatest || wanted == Numbered(version)
    modifies r`heads, r.store, replica`heads, replica.store
    ensures r.Good() && replica.Good()
    ensures head.Some? && Founded(r.rules, u, key, v, r.store.values) ==>
      Ready(r.rules, u, base, v, old(replica.heads), old(replica.store.values), source.find) ==>
        held || source.mayStop
    ensures held ==> head.Some? && got.Some?
    ensures held && Founded(r.rules, u, key, v, r.store.values) ==>
      Ready(r.rules, u, base, v, old(replica.heads), old(replica.store.values), source.find) ==>
        Undisputed(r.rules, u, base, v, t) && !blobs.mayStop ==>
          r.rules.digest(data) in old(replica.store.values) || blobs.find(r.rules.digest(data)).Some? ==>
            && Obtains(r.rules, got, data)
            && (u(r.rules.digest(data)) == Some(data) && Agrees(blobs.find, u) ==> got == Some(Ok(data)))
  {
    hide ChainOf, Grew, HeadsServed, Checked, Made, Ready, Undisputed, Reconciled, Observed, LatestMeans, Agreeing;
    hide NewHistory, NewVersion, NewHead, NewPointer, Founded, AllChecked, BaseHistory, NoCollision, Holds, BaseFound;
    hide Agrees, LocalFirst, Legible, IsWanted, Gathered;
    got := None;
    ghost var heads, values := replica.heads, replica.store.values;
    head, held, base, v := PublishAndDeliver(r, replica, domain, package, version, data, key, previous, s, source, u);
    if held {
      PointerFields(r.rules, key, domain, package, version, data, v, head.value);
      HeadIsPointer(r.rules, key, v, head.value);
      ghost var now := replica.store.values;
      if Founded(r.rules, u, key, v, r.store.values) && Ready(r.rules, u, base, v, heads, values, source.find) {
        ReadyUniverse(r.rules, u, base, v, heads, values, source.find, now);
        if Undisputed(r.rules, u, base, v, t) {
          HolderReads(r.rules, u, s, key, base, v, replica.heads, now, t);
        }
      }
      var data' := InstallPublished(replica, domain, package, wanted, t, blobs, u, s, key, base, v, data);
      got := Some(data');
    }
  }

  lemma ReadyUniverse(
    rules: Rules, u: Fetch, base: Option<Record>, v: Record, heads: map<Id, Record>, before: map<Id, Bytes>,
    remote: Fetch, after: map<Id, Bytes>)
    requires Ready(rules, u, base, v, heads, before, remote) && Agrees(Stored(after), LocalFirst(before, remote))
    requires Extended(before, after)
    ensures Agrees(Stored(after), u)
  {
    hide ChainOf, LocalFirst, Stored, NewHistory;
    assert Agrees(LocalFirst(before, remote), u);
  }
}
