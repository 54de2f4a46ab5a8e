// src/kademlia/registry.go and registry_rpc.go: publishing, distributing and installing packages.
module Packages {
  import opened Wrappers
  import opened Ids
  import opened Nearest
  import opened Contacts
  import opened FindRpc
  import opened Handlers
  import StoreRetrieve
  import opened Records
  import opened Chain
  import opened Histories
  import opened PackageRegistry

  datatype SigningKey = SigningKey(wellSized: bool, public: Bytes, sign: Id -> Bytes)

  datatype PublishOptions = PublishOptions(force: bool, previous: Option<nat>)

  // One node's view of the network during one call: the replicas a lookup finds and their
  // replies, the k-th walk's record lookups, and the values whose Store succeeds.
  datatype Surroundings = Surroundings(
    peers: Option<seq<Peer>>, answer: Peer -> GetReply, targets: Option<seq<Peer>>, reply: Peer -> UpdateReply,
    net: nat -> Source, stored: Bytes -> bool, self: Peer, k: nat)

  // LookupContact returns distinct contacts without this node.
  ghost predicate Proper(rules: Rules, s: Surroundings) {
    && AllChecked(rules, s.net)
    && (s.targets.Some? ==> Distinct(s.targets.value))
    && (s.targets.Some? ==> forall i :: 0 <= i < |s.targets.value| ==> s.targets.value[i].id != s.self.id)
  }

  datatype PublishError =
    | BadKey | NoLatest(error: LatestError) | PreviousUnwalkable | PreviousMissing | HistoryRejected | NotOwner
    | NotStored | NotDistributed

  // ------------------------------------------------------------------ signed records

  function Sign(rules: Rules, key: SigningKey, v: Record): Record {
    v.(signature := key.sign(RecordDigest(rules, v)))
  }

  function NewRecord(
    rules: Rules, key: SigningKey, domain: string, package: string, version: nat, data: Bytes, previous: Id): Record
  {
    Sign(rules, key, Record(
      VersionRecord, domain, package, version, Canonical(rules.digest(data)), Canonical(previous), Absent, []))
  }

  function NewPointer(rules: Rules, key: SigningKey, v: Record): Record {
    Sign(rules, key, Record(
      LatestPointer, v.domain, v.package, v.version, Absent, Absent, Canonical(rules.digest(rules.encode(v))), []))
  }

  // The record that a publication signs, field by field.
  ghost predicate NewVersion(
    rules: Rules, key: SigningKey, domain: string, package: string, version: nat, data: Bytes, v: Record)
  {
    && v.tag == VersionRecord && v.domain == domain && v.package == package && v.version == version
    && v.blobHash == Canonical(rules.digest(data)) && v.previous.Canonical? && v.recordHash == Absent
    && v.signature == key.sign(rules.digest(rules.encode(v.(signature := []))))
  }

  // The head that a publication signs for it, field by field.
  ghost predicate NewHead(rules: Rules, key: SigningKey, v: Record, head: Record) {
    && head.tag == LatestPointer && head.domain == v.domain && head.package == v.package && head.version == v.version
    && head.blobHash == Absent && head.previous == Absent && head.recordHash == Canonical(rules.digest(rules.encode(v)))
    && head.signature == key.sign(rules.digest(rules.encode(head.(signature := []))))
  }

  lemma NewRecordsFields(
    rules: Rules, key: SigningKey, domain: string, package: string, version: nat, data: Bytes, previous: Id)
    ensures var v := NewRecord(rules, key, domain, package, version, data, previous);
      && NewVersion(rules, key, domain, package, version, data, v) && NewHead(rules, key, v, NewPointer(rules, key, v))
      && v.previous == Canonical(previous)
  {
    var bare := Record(
      VersionRecord, domain, package, version, Canonical(rules.digest(data)), Canonical(previous), Absent, []);
    var v := Sign(rules, key, bare);
    var empty := Record(
      LatestPointer, domain, package, version, Absent, Absent, Canonical(rules.digest(rules.encode(v))), []);
    assert v.(signature := []) == bare && Sign(rules, key, empty).(signature := []) == empty;
  }

  // ------------------------------------------------------------------ distribution

  // A target has the head: this node holds it, or the peer acknowledged the same bytes.
  ghost predicate Delivered(rules: Rules, heads: map<Id, Record>, s: Surroundings, head: Record, p: Peer) {
    if p.id == s.self.id then Holds(heads, HeadKey(rules, head), head) else SameBytes(rules, s.reply(p), head)
  }

  ghost predicate SameBytes(rules: Rules, reply: UpdateReply, head: Record) {
    reply.Acknowledged? && rules.encode(reply.head) == rules.encode(head)
  }

  // The i-th target meets its part: a peer acknowledges the same bytes, and this node can adopt
  // the head by what it held before.
  ghost predicate Meets(
    rules: Rules, heads: map<Id, Record>, values: map<Id, Bytes>, s: Surroundings, head: Record, p: Peer, i: nat)
  {
    if p.id == s.self.id then Adoptable(rules, heads, values, s.net(3 + i), head)
    else s.reply(p).Acknowledged? && rules.encode(s.reply(p).head) == rules.encode(head)
  }

  ghost predicate Missed(
    rules: Rules, heads: map<Id, Record>, values: map<Id, Bytes>, s: Surroundings, head: Record, p: Peer, i: nat)
  {
    !Meets(rules, heads, values, s, head, p, i) || (p.id == s.self.id && s.net(3 + i).mayStop)
  }

  // registry_rpc.go, distribute: this node and the nearest replicas, k of them in all. It succeeds
  // when every target meets its part, and only then; a cancellation may stop this node's own.
  method Distribute(r: Registry, head: Record, s: Surroundings) returns (ok: bool, ghost chosen: seq<Peer>)
    requires r.Good() && Proper(r.rules, s)
    modifies r`heads, r.store
    ensures r.Good() && Grew(r.rules, old(r.heads), old(r.store.values), r.heads, r.store.values)
    ensures s.targets.Some? ==>
      IsNearestList(PeerIds(chosen), Elems(PeerIds(s.targets.value)) + {s.self.id}, HeadKey(r.rules, head), s.k)
    ensures ok ==> s.targets.Some? && forall i :: 0 <= i < |chosen| ==>
      && Meets(r.rules, old(r.heads), old(r.store.values), s, head, chosen[i], i)
      && Delivered(r.rules, r.heads, s, head, chosen[i])
    ensures !ok && s.targets.Some? ==> exists i ::
      0 <= i < |chosen| && Missed(r.rules, old(r.heads), old(r.store.values), s, head, chosen[i], i)
  {
    hide Dist, Grew, HeadsServed, Checked, Distinct, IsNearestList, Elems, Delivered, Meets, Missed;
    StoreGrew(r.rules, r.heads, r.store.values, r.store.values);
    chosen := [];
    if s.targets.None? {
      return false, chosen;
    }
    var targets := StoreRetrieve.NearestWithSelf(s.targets.value, s.self, HeadKey(r.rules, head), s.k);
    chosen := targets;
    OncePerList(targets, Elems(PeerIds(s.targets.value)) + {s.self.id}, HeadKey(r.rules, head), s.k);
    ghost var heads0, values0 := r.heads, r.store.values;
    ok := true;
    for i := 0 to |targets|
      invariant r.Good() && Grew(r.rules, heads0, values0, r.heads, r.store.values)
      invariant ok ==> forall j :: 0 <= j < i ==>
        Meets(r.rules, heads0, values0, s, head, targets[j], j) && Delivered(r.rules, r.heads, s, head, targets[j])
      invariant !ok ==> exists j :: 0 <= j < i && Missed(r.rules, heads0, values0, s, head, targets[j], j)
      invariant ok && (forall j :: 0 <= j < i ==> targets[j].id != s.self.id) ==>
        r.heads == heads0 && r.store.values == values0
    {
      ghost var heads, values := r.heads, r.store.values;
      var sent := DeliverTo(r, head, s, targets[i], 3 + i);
      if ok && targets[i].id == s.self.id {
        assert heads == heads0 && values == values0;
      }
      MeetsPart(r.rules, heads, values, heads0, values0, s, head, targets[i], i, sent);
      ok := ok && sent;
      GrewTrans(r.rules, heads0, values0, heads, values, r.heads, r.store.values);
    }
  }

  lemma OncePerList(targets: seq<Peer>, ids: set<Id>, key: Id, k: nat)
    requires IsNearestList(PeerIds(targets), ids, key, k)
    ensures forall i, j :: 0 <= i < j < |targets| ==> targets[i].id != targets[j].id
  {
    hide Dist;
    forall i, j | 0 <= i < j < |targets| ensures targets[i].id != targets[j].id {
      assert PeerIds(targets)[i] == targets[i].id && PeerIds(targets)[j] == targets[j].id;
    }
  }

  lemma MeetsPart(
    rules: Rules, heads: map<Id, Record>, values: map<Id, Bytes>, heads0: map<Id, Record>, values0: map<Id, Bytes>,
    s: Surroundings, head: Record, p: Peer, i: nat, sent: bool)
    requires p.id != s.self.id ==> (sent <==> SameBytes(rules, s.reply(p), head))
    requires p.id == s.self.id && sent ==> Adoptable(rules, heads, values, s.net(3 + i), head)
    requires p.id == s.self.id && !sent ==>
      s.net(3 + i).mayStop || !Adoptable(rules, heads, values, s.net(3 + i), head)
    ensures p.id != s.self.id || (heads == heads0 && values == values0) ==>
      if sent then Meets(rules, heads0, values0, s, head, p, i) else Missed(rules, heads0, values0, s, head, p, i)
  {
    hide Adoptable;
  }

  // One target's part of a distribution, with what it may leave as it was.
  method DeliverTo(r: Registry, head: Record, s: Surroundings, p: Peer, walk: nat) returns (sent: bool)
    requires r.Good() && AllChecked(r.rules, s.net)
    modifies r`heads, r.store
    ensures r.Good() && Grew(r.rules, old(r.heads), old(r.store.values), r.heads, r.store.values)
    ensures sent ==> Delivered(r.rules, r.heads, s, head, p)
    ensures p.id != s.self.id ==> (sent <==> SameBytes(r.rules, s.reply(p), head))
    ensures p.id != s.self.id && sent ==> r.heads == old(r.heads) && r.store.values == old(r.store.values)
    ensures p.id == s.self.id && sent ==> Adoptable(r.rules, old(r.heads), old(r.store.values), s.net(walk), head)
    ensures p.id == s.self.id && !sent ==>
      s.net(walk).mayStop || !Adoptable(r.rules, old(r.heads), old(r.store.values), s.net(walk), head)
    ensures sent ==> forall q :: Delivered(r.rules, old(r.heads), s, head, q) ==> Delivered(r.rules, r.heads, s, head, q)
  {
    hide Dist, Grew, HeadsServed, ChainOf, Decide, AfterCommit, Checked, Adoptable;
    assert Checked(r.rules, s.net(walk).find);
    if p.id == s.self.id {
      var e := r.Accept(s.net(walk), head);
      sent := e.None?;
    } else {
      sent := r.Send(head, s.reply(p), s.net(walk));
    }
  }

  // ------------------------------------------------------------------ publication

  // store.go: an oversized value is refused, another is stored or not.
  predicate Kept(rules: Rules, s: Surroundings, data: Bytes) {
    |data| <= rules.maxValueSize && s.stored(data)
  }

  // The predecessor that the options select, among the records of the base.
  ghost predicate Selected(rules: Rules, values: map<Id, Bytes>, base: Option<Record>, opts: PublishOptions, previous: Id) {
    match opts.previous
    case None => Canonical(previous) == if base.None? then ZERO_HASH else base.value.recordHash
    case Some(n) =>
      if n == 0 then previous == ZERO
      else
        && base.Some? && ChainOf(rules, Stored(values), base.value).Some?
        && exists l :: l in ChainOf(rules, Stored(values), base.value).value && l.hash == previous && l.record.version == n
  }

  // Without force a publication extends the base by a greater version.
  predicate Advances(base: Option<Record>, version: nat, previous: Id) {
    version > 0 && (base.Some? ==> version > base.value.version && Canonical(previous) == base.value.recordHash)
  }

  // Whether Publish without force must refuse this link.
  ghost predicate Breaks(base: Option<Record>, version: nat, previous: Id) {
    version == 0 || (base.Some? && (version <= base.value.version || Canonical(previous) != base.value.recordHash))
  }

  // Why Publish finds no predecessor for a new record, error by error.
  ghost predicate ChoiceFails(
    rules: Rules, heads: map<Id, Record>, before: map<Id, Bytes>, values: map<Id, Bytes>, domain: string,
    package: string, version: nat, key: SigningKey, opts: PublishOptions, s: Surroundings, base: Option<Record>,
    observed: seq<Record>, error: PublishError)
  {
    match error
    case BadKey => !key.wellSized
    case NoLatest(why) => why != PackageNotFound && LatestMeans(
      rules, heads, before, values, domain, package, s.peers, s.answer, s.net(0), s.net(1), Err(why), observed)
    case PreviousUnwalkable => opts.previous.Some? && opts.previous.value != 0 && (base.None? || s.net(2).mayStop)
    case PreviousMissing =>
      && opts.previous.Some? && opts.previous.value != 0
      && base.Some? && ChainOf(rules, Stored(values), base.value).Some?
      && forall l :: l in ChainOf(rules, Stored(values), base.value).value ==> l.record.version != opts.previous.value
    case HistoryRejected =>
      !opts.force && exists previous :: Selected(rules, values, base, opts, previous) && Breaks(base, version, previous)
    case NotOwner => !opts.force && (domain in rules.owners ==> rules.owners[domain] != key.public)
    case _ => false
  }

  // The head that Latest returned to Publish, if the package has one.
  ghost predicate BaseFound(
    rules: Rules, heads: map<Id, Record>, values: map<Id, Bytes>, domain: string, package: string, s: Surroundings,
    base: Option<Record>)
  {
    var key := LatestKey(rules, domain, package);
    base.Some? ==>
      && s.peers.Some? && Reconciled(rules, values, base.value, heads, key, s.peers.value, s.answer)
      && HeadKey(rules, base.value) == key && Observed(heads, key, s.peers.value, s.answer, base.value)
      && !SomeOther(s.peers.value, s.answer, domain, package)
  }

  // A package is new when neither this node nor any peer has a head for it.
  ghost predicate Unpublished(
    rules: Rules, heads: map<Id, Record>, domain: string, package: string, s: Surroundings)
  {
    && LatestKey(rules, domain, package) !in heads && s.peers.Some?
    && forall i :: 0 <= i < |s.peers.value| ==> s.answer(s.peers.value[i]) == NoHead
  }

  // Publish, before anything is stored.
  method ChoosePrevious(
    r: Registry, domain: string, package: string, version: nat, key: SigningKey, opts: PublishOptions, s: Surroundings)
    returns (previous: Result<Id, PublishError>, base: Option<Record>, ghost observed: seq<Record>)
    requires r.Good() && Proper(r.rules, s)
    modifies r`heads, r.store
    ensures r.Good() && Grew(r.rules, old(r.heads), old(r.store.values), r.heads, r.store.values)
    ensures BaseFound(r.rules, old(r.heads), r.store.values, domain, package, s, base)
    ensures previous.Ok? && base.None? ==> Unpublished(r.rules, old(r.heads), domain, package, s)
    ensures previous.Ok? ==>
      && key.wellSized && ValidName(domain) && ValidName(package)
      && Selected(r.rules, r.store.values, base, opts, previous.value)
    ensures previous.Ok? && !opts.force ==>
      && !Breaks(base, version, previous.value)
      && domain in r.rules.owners && r.rules.owners[domain] == key.public
    ensures previous.Err? ==> ChoiceFails(
      r.rules, old(r.heads), old(r.store.values), r.store.values, domain, package, version, key, opts, s, base, observed,
      previous.error)
    ensures previous.Err? ==> previous.error != NotStored && previous.error != NotDistributed
    ensures previous == Err(BadKey) <==> !key.wellSized
    ensures key.wellSized && Unanimous(r.rules, old(r.heads), old(r.store.values), domain, package, s) ==> base.Some?
  {
    hide Dist, Grew, HeadsServed, ChainOf, Checked, Reconciled, Observed, LatestMeans, Agreeing;
    hide Selected, Extended, OtherPackage, OnChain, Verified, Distinct, ValidName, Breaks, Unpublished;
    hide Gained, Holds;
    base, observed := None, [];
    NothingLost(r.rules, r.heads, r.store.values);
    if !key.wellSized {
      return Err(BadKey), base, observed;
    }
    assert Checked(r.rules, s.net(0).find) && Checked(r.rules, s.net(1).find);
    var latest;
    latest, observed := r.Latest(domain, package, s.peers, s.answer, s.net(0), s.net(1));
    if latest.Err? && latest.error != PackageNotFound {
      return Err(NoLatest(latest.error)), base, observed;
    }
    ghost var heads, values := r.heads, r.store.values;
    base := if latest.Ok? then Some(latest.value) else None;
    LatestBase(r.rules, old(r.heads), old(r.store.values), values, domain, package, s, latest, observed);
    previous := SelectPrevious(r, base, opts, s);
    GrewTrans(r.rules, old(r.heads), old(r.store.values), heads, values, r.heads, r.store.values);
    BaseStill(r.rules, old(r.heads), heads, values, r.heads, r.store.values, domain, package, s, base);
    if previous.Err? {
      return previous, base, observed;
    }
    if !opts.force {
      BreaksRule(base, version, previous.value);
      if !Advances(base, version, previous.value) {
        return Err(HistoryRejected), base, observed;
      }
      if domain !in r.rules.owners || r.rules.owners[domain] != key.public {
        return Err(NotOwner), base, observed;
      }
    }
  }

  lemma BreaksRule(base: Option<Record>, version: nat, previous: Id)
    ensures Breaks(base, version, previous) <==> !Advances(base, version, previous)
  {
  }

  lemma LatestBase(
    rules: Rules, heads: map<Id, Record>, before: map<Id, Bytes>, values: map<Id, Bytes>, domain: string,
    package: string, s: Surroundings, latest: Result<Record, LatestError>, observed: seq<Record>)
    requires LatestMeans(
      rules, heads, before, values, domain, package, s.peers, s.answer, s.net(0), s.net(1), latest, observed)
    requires latest.Ok? ==> s.peers.Some? && !exists i ::
      && 0 <= i < |s.peers.value| && s.answer(s.peers.value[i]).Head?
      && (s.answer(s.peers.value[i]).head.domain != domain || s.answer(s.peers.value[i]).head.package != package)
    ensures BaseFound(rules, heads, values, domain, package, s, if latest.Ok? then Some(latest.value) else None)
    ensures latest.Ok? ==> latest.value.recordHash.Canonical? && ChainOf(rules, Stored(values), latest.value).Some?
    ensures latest == Err(PackageNotFound) ==> Unpublished(rules, heads, domain, package, s)
  {
    hide ChainOf, OnChain, Verified, Observed;
  }

  lemma BaseStill(
    rules: Rules, heads0: map<Id, Record>, heads: map<Id, Record>, values: map<Id, Bytes>, after: map<Id, Record>,
    more: map<Id, Bytes>, domain: string, package: string, s: Surroundings, base: Option<Record>)
    requires BaseFound(rules, heads0, values, domain, package, s, base) && Grew(rules, heads, values, after, more)
    ensures BaseFound(rules, heads0, more, domain, package, s, base)
  {
    hide ChainOf, OnChain, Verified, Observed, Reconciled, SomeOther;
    if base.Some? {
      ReconciledStill(
        rules, values, more, base.value, heads0, LatestKey(rules, domain, package), s.peers.value, s.answer);
    }
  }

  // A target that did not get the head, in the state that the distribution found.
  ghost predicate Undelivered(
    rules: Rules, heads: map<Id, Record>, before: map<Id, Bytes>, after: map<Id, Record>, values: map<Id, Bytes>,
    s: Surroundings, head: Record, chosen: seq<Peer>)
  {
    s.targets.None? || exists i, hs, vs ::
      && 0 <= i < |chosen| && Missed(rules, hs, vs, s, head, chosen[i], i)
      && Grew(rules, heads, before, hs, vs) && Grew(rules, hs, vs, after, values)
  }

  lemma MissedUndelivered(
    rules: Rules, heads: map<Id, Record>, before: map<Id, Bytes>, hs: map<Id, Record>, vs: map<Id, Bytes>,
    after: map<Id, Record>, values: map<Id, Bytes>, s: Surroundings, head: Record, chosen: seq<Peer>, i: nat)
    requires i < |chosen| && Missed(rules, hs, vs, s, head, chosen[i], i)
    requires Grew(rules, heads, before, hs, vs) && Grew(rules, hs, vs, after, values)
    ensures Undelivered(rules, heads, before, after, values, s, head, chosen)
  {
    hide Grew, Missed;
  }

  lemma NoTargets(
    rules: Rules, heads: map<Id, Record>, before: map<Id, Bytes>, after: map<Id, Record>, values: map<Id, Bytes>,
    s: Surroundings, head: Record, chosen: seq<Peer>)
    requires s.targets.None?
    ensures Undelivered(rules, heads, before, after, values, s, head, chosen)
  {
  }

  // registry.go, Publish. `base` is the head that Latest returned, `v` the new record and `head`
  // the pointer that was sent out, to the targets `chosen`.
  method Publish(
    r: Registry, domain: string, package: string, version: nat, data: Bytes, key: SigningKey, opts: PublishOptions,
    s: Surroundings)
    returns (
      e: Option<PublishError>, head: Option<Record>, base: Option<Record>, v: Record, ghost observed: seq<Record>,
      ghost chosen: seq<Peer>)
    requires r.Good() && Proper(r.rules, s)
    modifies r`heads, r.store
    ensures r.Good() && Grew(r.rules, old(r.heads), old(r.store.values), r.heads, r.store.values)
    ensures BaseFound(r.rules, old(r.heads), r.store.values, domain, package, s, base)
    ensures head.Some? && base.None? ==> Unpublished(r.rules, old(r.heads), domain, package, s)
    ensures head.Some? ==>
      && NewVersion(r.rules, key, domain, package, version, data, v) && NewHead(r.rules, key, v, head.value)
      && Selected(r.rules, r.store.values, base, opts, v.previous.id)
    ensures head.Some? && !opts.force ==>
      && version > 0 && domain in r.rules.owners && r.rules.owners[domain] == key.public
      && if base.None? then v.previous == ZERO_HASH else version > base.value.version && v.previous == base.value.recordHash
    ensures head.Some? ==>
      && key.wellSized && ValidName(domain) && ValidName(package)
      && |data| <= r.rules.maxValueSize && s.stored(data)
      && |r.rules.encode(v)| <= r.rules.maxValueSize && s.stored(r.rules.encode(v))
    ensures head.Some? && s.targets.Some? ==>
      IsNearestList(PeerIds(chosen), Elems(PeerIds(s.targets.value)) + {s.self.id}, LatestKey(r.rules, domain, package), s.k)
    ensures e.None? ==> head.Some? && s.targets.Some? && forall i :: 0 <= i < |chosen| ==>
      Delivered(r.rules, r.heads, s, head.value, chosen[i])
    ensures e.Some? ==>
      match e.value
      case NotStored => NewVersion(r.rules, key, domain, package, version, data, v) && (
        || |data| > r.rules.maxValueSize || !s.stored(data)
        || |r.rules.encode(v)| > r.rules.maxValueSize || !s.stored(r.rules.encode(v)))
      case NotDistributed => head.Some? && Undelivered(
        r.rules, old(r.heads), old(r.store.values), r.heads, r.store.values, s, head.value, chosen)
      case error => head.None? && ChoiceFails(
        r.rules, old(r.heads), old(r.store.values), r.store.values, domain, package, version, key, opts, s, base,
        observed, error)
    ensures e == Some(BadKey) <==> !key.wellSized
    ensures e == Some(NotDistributed) <==> head.Some? && e.Some?
    ensures key.wellSized && Unanimous(r.rules, old(r.heads), old(r.store.values), domain, package, s) ==> base.Some?
  {
    hide Dist, Grew, HeadsServed, ChainOf, Checked, Reconciled, Observed, Agreeing, LatestMeans, BaseFound, Unpublished;
    hide Selected, Extended, NewRecord, NewPointer, NewVersion, NewHead, Distinct, ValidName, Missed, Delivered;
    hide ChoiceFails, Undelivered, IsNearestList, Elems, AllChecked;
    head, v, chosen := None, NewRecord(r.rules, key, domain, package, version, data, ZERO), [];
    var previous;
    previous, base, observed := ChoosePrevious(r, domain, package, version, key, opts, s);
    if previous.Err? {
      return Some(previous.error), head, base, v, observed, chosen;
    }
    NewRecordsFields(r.rules, key, domain, package, version, data, previous.value);
    if base.None? {
      SelectedFirst(r.rules, r.store.values, opts, previous.value);
    }
    v := NewRecord(r.rules, key, domain, package, version, data, previous.value);
    if !Kept(r.rules, s, data) {
      return Some(NotStored), head, base, v, observed, chosen;
    }
    if !Kept(r.rules, s, r.rules.encode(v)) {
      return Some(NotStored), head, base, v, observed, chosen;
    }
    var pointer := NewPointer(r.rules, key, v);
    var ok;
    ok, chosen := SendOut(
      r, pointer, s, old(r.heads), old(r.store.values), domain, package, base, opts, previous.value);
    head := Some(pointer);
    e := if ok then None else Some(NotDistributed);
  }

  // Publish's last step, in a run that began with `heads` and `before`.
  method SendOut(
    r: Registry, head: Record, s: Surroundings, ghost heads: map<Id, Record>, ghost before: map<Id, Bytes>, ghost domain: string,
    ghost package: string, ghost base: Option<Record>, ghost opts: PublishOptions, ghost previous: Id)
    returns (ok: bool, ghost chosen: seq<Peer>)
    requires r.Good() && Proper(r.rules, s) && Grew(r.rules, heads, before, r.heads, r.store.values)
    requires BaseFound(r.rules, heads, r.store.values, domain, package, s, base)
    requires Selected(r.rules, r.store.values, base, opts, previous)
    modifies r`heads, r.store
    ensures r.Good() && Grew(r.rules, heads, before, r.heads, r.store.values)
    ensures BaseFound(r.rules, heads, r.store.values, domain, package, s, base)
    ensures Selected(r.rules, r.store.values, base, opts, previous)
    ensures s.targets.Some? ==>
      IsNearestList(PeerIds(chosen), Elems(PeerIds(s.targets.value)) + {s.self.id}, HeadKey(r.rules, head), s.k)
    ensures ok ==> s.targets.Some? && forall i :: 0 <= i < |chosen| ==> Delivered(r.rules, r.heads, s, head, chosen[i])
    ensures !ok ==> Undelivered(r.rules, heads, before, r.heads, r.store.values, s, head, chosen)
  {
    hide Grew, HeadsServed, ChainOf, BaseFound, Selected, Extended, Distinct, Missed, Meets, Delivered, Undelivered;
    hide IsNearestList, Elems, AllChecked;
    ghost var mine, values := r.heads, r.store.values;
    ok, chosen := Distribute(r, head, s);
    if !ok {
      if s.targets.Some? {
        ghost var i :| 0 <= i < |chosen| && Missed(r.rules, mine, values, s, head, chosen[i], i);
        MissedUndelivered(r.rules, heads, before, mine, values, r.heads, r.store.values, s, head, chosen, i);
      } else {
        NoTargets(r.rules, heads, before, r.heads, r.store.values, s, head, chosen);
      }
    }
    GrewExtends(r.rules, mine, values, r.heads, r.store.values);
    GrewTrans(r.rules, heads, before, mine, values, r.heads, r.store.values);
    BaseStill(r.rules, heads, mine, values, r.heads, r.store.values, domain, package, s, base);
    SelectedStill(r.rules, values, r.store.values, base, opts, previous);
  }

  // Publish: the zero hash for a first version, the base, or the record of the wanted version.
  method SelectPrevious(r: Registry, base: Option<Record>, opts: PublishOptions, s: Surroundings)
    returns (previous: Result<Id, PublishError>)
    requires r.Good() && Proper(r.rules, s)
    requires base.Some? ==> ChainOf(r.rules, Stored(r.store.values), base.value).Some?
    modifies r.store
    ensures r.Good() && Grew(r.rules, old(r.heads), old(r.store.values), r.heads, r.store.values)
    ensures previous.Ok? ==> Selected(r.rules, r.store.values, base, opts, previous.value)
    ensures previous.Err? ==> opts.previous.Some? && opts.previous.value != 0
    ensures previous.Err? ==> previous.error == PreviousUnwalkable || previous.error == PreviousMissing
    ensures previous == Err(PreviousUnwalkable) ==> base.None? || s.net(2).mayStop
    ensures previous == Err(PreviousMissing) ==>
      && base.Some? && ChainOf(r.rules, Stored(r.store.values), base.value).Some?
      && forall l :: l in ChainOf(r.rules, Stored(r.store.values), base.value).value ==> l.record.version != opts.previous.value
  {
    hide HeadsServed, Grew, ChainOf, Checked;
    StoreGrew(r.rules, r.heads, r.store.values, r.store.values);
    if opts.previous.None? {
      return Ok(if base.Some? then base.value.recordHash.id else ZERO);
    }
    if opts.previous.value == 0 {
      return Ok(ZERO);
    }
    if base.None? {
      return Err(PreviousUnwalkable);
    }
    assert Checked(r.rules, s.net(2).find);
    WalkedBefore(r.rules, r.store.values, s.net(2).find, base.value);
    var walked := FollowChain(r.rules, r.store, s.net(2), base.value);
    StoreGrew(r.rules, r.heads, old(r.store.values), r.store.values);
    if walked.Err? {
      return Err(PreviousUnwalkable);
    }
    var at := FindVersion(walked.value, Numbered(opts.previous.value));
    return if at.None? then Err(PreviousMissing) else Ok(at.value.hash);
  }

  lemma NothingLost(rules: Rules, heads: map<Id, Record>, values: map<Id, Bytes>)
    requires HeadsServed(rules, heads, values)
    ensures Grew(rules, heads, values, heads, values)
  {
    StoreGrew(rules, heads, values, values);
  }

  lemma ReconciledHead(
    rules: Rules, values: map<Id, Bytes>, r: Record, heads: map<Id, Record>, key: Id, peers: seq<Peer>, answer: Peer -> GetReply)
    requires Reconciled(rules, values, r, heads, key, peers, answer)
    ensures r.recordHash.Canonical?
  {
    assert ChainOf(rules, Stored(values), r).Some?;
  }

  lemma SelectedFirst(rules: Rules, values: map<Id, Bytes>, opts: PublishOptions, previous: Id)
    requires Selected(rules, values, None, opts, previous)
    ensures previous == ZERO
  {
  }

  lemma GrewExtends(
    rules: Rules, before: map<Id, Record>, values: map<Id, Bytes>, after: map<Id, Record>, more: map<Id, Bytes>)
    requires Grew(rules, before, values, after, more)
    ensures Extended(values, more)
  {
  }

  lemma ReconciledStill(
    rules: Rules, values: map<Id, Bytes>, more: map<Id, Bytes>, r: Record, heads: map<Id, Record>, key: Id, peers: seq<Peer>,
    answer: Peer -> GetReply)
    requires Reconciled(rules, values, r, heads, key, peers, answer) && Extended(values, more)
    ensures Reconciled(rules, more, r, heads, key, peers, answer)
  {
    hide ChainOf, Observed, OnChain, Verified;
    StillServed(rules, r, values, more);
  }

  lemma SelectedStill(
    rules: Rules, values: map<Id, Bytes>, more: map<Id, Bytes>, base: Option<Record>, opts: PublishOptions, previous: Id)
    requires Selected(rules, values, base, opts, previous) && Extended(values, more)
    ensures Selected(rules, more, base, opts, previous)
  {
    hide ChainOf;
    if base.Some? && ChainOf(rules, Stored(values), base.value).Some? {
      StillServed(rules, base.value, values, more);
    }
  }

  // ------------------------------------------------------------------ history and installation

  datatype Wanted = TheLatest | Numbered(version: nat)

  predicate Matches(wanted: Wanted, l: Link) {
    wanted.TheLatest? || l.record.version == wanted.version
  }

  // The first match. A number matches at most one record, because versions strictly decrease.
  method FindVersion(links: seq<Link>, wanted: Wanted) returns (found: Option<Link>)
    ensures found.None? <==> forall l :: l in links ==> wanted.Numbered? && l.record.version != wanted.version
    ensures found.Some? ==> found.value in links && (wanted.Numbered? ==> found.value.record.version == wanted.version)
    ensures found.Some? && wanted.TheLatest? ==> found.value == links[0]
    ensures found.Some? && wanted.Numbered? && Decreasing(links) ==>
      forall l :: l in links && Matches(wanted, l) ==> l == found.value
  {
    for i := 0 to |links|
      invariant forall j :: 0 <= j < i ==> !Matches(wanted, links[j])
    {
      if Matches(wanted, links[i]) {
        assert links[i] in links;
        return Some(links[i]);
      }
    }
    return None;
  }

  datatype HistoryError = NoLatestHead(latest: LatestError) | NoWalk(walk: ChainError)

  // registry.go, History. It fails as Latest does. After Latest has succeeded the records are
  // local, so that only a cancellation can still make it fail.
  method History(r: Registry, domain: string, package: string, s: Surroundings)
    returns (links: Result<seq<Link>, HistoryError>, ghost head: Record, ghost observed: seq<Record>)
    requires r.Good() && Proper(r.rules, s)
    modifies r`heads, r.store
    ensures r.Good() && Grew(r.rules, old(r.heads), old(r.store.values), r.heads, r.store.values)
    ensures links.Ok? ==> s.peers.Some? && ChainOf(r.rules, Stored(r.store.values), head) == Some(links.value)
    ensures links.Ok? ==> Reconciled(
      r.rules, r.store.values, head, old(r.heads), LatestKey(r.rules, domain, package), s.peers.value, s.answer)
    ensures links.Ok? ==> Observed(old(r.heads), LatestKey(r.rules, domain, package), s.peers.value, s.answer, head)
    ensures links.Err? && links.error.NoLatestHead? ==> r.heads == old(r.heads) && LatestMeans(
      r.rules, old(r.heads), old(r.store.values), r.store.values, domain, package, s.peers, s.answer, s.net(0),
      s.net(1), Err(links.error.latest), observed)
    ensures links.Err? && links.error.NoWalk? ==> links.error.walk == Cancelled && s.net(2).mayStop
    ensures Unanimous(r.rules, old(r.heads), old(r.store.values), domain, package, s) && !s.net(2).mayStop ==> links.Ok?
    ensures Gathered(old(r.store.values), r.store.values, s)
  {
    hide Dist, Grew, HeadsServed, ChainOf, Checked, Reconciled, Observed;
    hide LatestMeans, Agreeing, OtherPackage, OnChain, Verified, Distinct, Gained, Gathered, Agrees;
    head := Record(OtherTag(""), "", "", 0, Absent, Absent, Absent, []);
    assert Checked(r.rules, s.net(0).find) && Checked(r.rules, s.net(1).find) && Checked(r.rules, s.net(2).find);
    var latest;
    latest, observed := r.Latest(domain, package, s.peers, s.answer, s.net(0), s.net(1));
    if latest.Err? {
      GatheredIn(old(r.store.values), r.store.values, r.store.values, s);
      return Err(NoLatestHead(latest.error)), head, observed;
    }
    ghost var heads, values := r.heads, r.store.values;
    head := latest.value;
    ReportedHead(
      r.rules, old(r.heads), old(r.store.values), values, domain, package, s, head, observed);
    ReconciledWalk(
      r.rules, values, head, old(r.heads), LatestKey(r.rules, domain, package), s.peers.value, s.answer, s.net(2).find);
    var walked := FollowChain(r.rules, r.store, s.net(2), latest.value);
    StoreGrew(r.rules, heads, values, r.store.values);
    GainedByWalk(values, r.store.values, s.net(2).find, s.net(2).find);
    GatheredIn(old(r.store.values), values, r.store.values, s);
    GrewTrans(r.rules, old(r.heads), old(r.store.values), heads, values, r.heads, r.store.values);
    ReconciledStill(
      r.rules, values, r.store.values, head, old(r.heads), LatestKey(r.rules, domain, package), s.peers.value, s.answer);
    return if walked.Ok? then Ok(walked.value) else Err(NoWalk(walked.error)), head, observed;
  }

  // Nothing enters the store but what the three walks of the call found.
  ghost predicate Gathered(before: map<Id, Bytes>, after: map<Id, Bytes>, s: Surroundings) {
    exists middle :: Gained(before, middle, s.net(0).find, s.net(1).find) && Gained(middle, after, s.net(2).find, s.net(2).find)
  }

  lemma GatheredIn(before: map<Id, Bytes>, middle: map<Id, Bytes>, after: map<Id, Bytes>, s: Surroundings)
    requires Gained(before, middle, s.net(0).find, s.net(1).find)
    requires middle == after || Gained(middle, after, s.net(2).find, s.net(2).find)
    ensures Gathered(before, after, s)
  {
    assert Gained(after, after, s.net(2).find, s.net(2).find);
  }

  // The heads that Latest compares in these surroundings agree.
  ghost predicate Unanimous(
    rules: Rules, heads: map<Id, Record>, values: map<Id, Bytes>, domain: string, package: string, s: Surroundings)
  {
    Agreeing(rules, heads, values, domain, package, s.peers, s.answer, s.net(0), s.net(1))
  }

  lemma ReportedHead(
    rules: Rules, heads: map<Id, Record>, before: map<Id, Bytes>, values: map<Id, Bytes>, domain: string,
    package: string, s: Surroundings, head: Record, observed: seq<Record>)
    requires LatestMeans(
      rules, heads, before, values, domain, package, s.peers, s.answer, s.net(0), s.net(1), Ok(head), observed)
    ensures var key := LatestKey(rules, domain, package);
      && s.peers.Some? && Reconciled(rules, values, head, heads, key, s.peers.value, s.answer)
      && Observed(heads, key, s.peers.value, s.answer, head) && HeadKey(rules, head) == key
  {
  }

  lemma ReconciledWalk(
    rules: Rules, values: map<Id, Bytes>, r: Record, heads: map<Id, Record>, key: Id, peers: seq<Peer>,
    answer: Peer -> GetReply, remote: Fetch)
    requires Reconciled(rules, values, r, heads, key, peers, answer)
    ensures ChainOf(rules, LocalFirst(values, remote), r).Some?
  {
    WalkedBefore(rules, values, remote, r);
  }

  // The newest record, or the only one with the wanted number.
  ghost predicate IsWanted(links: seq<Link>, wanted: Wanted, l: Link) {
    && l in links
    && match wanted
       case TheLatest => l == links[0]
       case Numbered(n) => l.record.version == n && forall other :: other in links && other.record.version == n ==> other == l
  }

  // The blob of a record, from the local store or from the network.
  ghost predicate BlobIs(values: map<Id, Bytes>, blobs: Fetch, l: Link, data: Bytes) {
    && l.record.blobHash.Canonical?
    && if l.record.blobHash.id in values then values[l.record.blobHash.id] == data
       else blobs(l.record.blobHash.id) == Some(data)
  }

  ghost predicate NoBlob(values: map<Id, Bytes>, blobs: Fetch, l: Link) {
    l.record.blobHash.Canonical? && l.record.blobHash.id !in values && blobs(l.record.blobHash.id).None?
  }

  datatype InstallError = NoHistory(error: HistoryError) | NoVersion | NoData

  // registry.go, Install: the blob of the wanted version, of which there is only one.
  method Install(r: Registry, domain: string, package: string, wanted: Wanted, s: Surroundings, blobs: Source)
    returns (
      data: Result<Bytes, InstallError>, ghost history: Result<seq<Link>, HistoryError>, ghost head: Record,
      ghost observed: seq<Record>)
    requires r.Good() && Proper(r.rules, s) && Checked(r.rules, blobs.find)
    modifies r`heads, r.store
    ensures r.Good() && Grew(r.rules, old(r.heads), old(r.store.values), r.heads, r.store.values)
    ensures history.Ok? ==> s.peers.Some? && ChainOf(r.rules, Stored(r.store.values), head) == Some(history.value)
    ensures history.Ok? ==> Reconciled(
      r.rules, r.store.values, head, old(r.heads), LatestKey(r.rules, domain, package), s.peers.value, s.answer)
    ensures history.Ok? ==> Observed(old(r.heads), LatestKey(r.rules, domain, package), s.peers.value, s.answer, head)
    ensures history.Err? && history.error.NoLatestHead? ==> r.heads == old(r.heads) && LatestMeans(
      r.rules, old(r.heads), old(r.store.values), r.store.values, domain, package, s.peers, s.answer, s.net(0),
      s.net(1), Err(history.error.latest), observed)
    ensures history.Err? && history.error.NoWalk? ==> history.error.walk == Cancelled && s.net(2).mayStop
    ensures Unanimous(r.rules, old(r.heads), old(r.store.values), domain, package, s) && !s.net(2).mayStop ==> history.Ok?
    ensures Gathered(old(r.store.values), r.store.values, s)
    ensures data.Ok? ==> history.Ok? && exists l ::
      && IsWanted(history.value, wanted, l) && BlobIs(r.store.values, blobs.find, l, data.value)
      && l.record.blobHash == Canonical(r.rules.digest(data.value))
    ensures match data
      case Ok(_) => true
      case Err(NoHistory(why)) => history == Err(why)
      case Err(NoVersion) =>
        history.Ok? && forall l :: l in history.value ==> wanted.Numbered? && l.record.version != wanted.version
      case Err(NoData) =>
        && history.Ok?
        && (blobs.mayStop || exists l :: IsWanted(history.value, wanted, l) && NoBlob(r.store.values, blobs.find, l))
  {
    hide Dist, Grew, HeadsServed, Checked, Reconciled, Walk, Verified, Linked, LatestMeans, Agreeing, Observed, Gathered;
    var links;
    links, head, observed := History(r, domain, package, s);
    history := links;
    if links.Err? {
      return Err(NoHistory(links.error)), history, head, observed;
    }
    var at := FindVersion(links.value, wanted);
    if at.None? {
      return Err(NoVersion), history, head, observed;
    }
    ChainBlobs(r.rules, Stored(r.store.values), head, at.value);
    var hash := at.value.record.blobHash.id;
    CheckedThere(r.rules, blobs.find, hash);
    if blobs.mayStop {
      if * {
        return Err(NoData), history, head, observed;
      }
    }
    assert IsWanted(links.value, wanted, at.value);
    var found := if hash in r.store.values then Some(r.store.values[hash]) else blobs.find(hash);
    return if found.Some? then Ok(found.value) else Err(NoData), history, head, observed;
  }

  lemma ChainBlobs(rules: Rules, u: Fetch, head: Record, l: Link)
    requires ChainOf(rules, u, head).Some? && l in ChainOf(rules, u, head).value
    ensures l.record.blobHash.Canonical? && Decreasing(ChainOf(rules, u, head).value)
  {
    hide ChainOf;
    ChainShape(rules, u, head);
    var links := ChainOf(rules, u, head).value;
    var i :| 0 <= i < |links| && links[i] == l;
    assert Fits(rules, links[i], NextHash(links, i), head.domain, head.package);
  }
}
