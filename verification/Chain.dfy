// src/kademlia/registry.go, chain: walking a package's history from its head to its first version.
module Chain {
  import opened Wrappers
  import opened Ids
  import opened Nearest
  import opened FindRpc
  import opened Handlers
  import opened Records

  // One step of a walk: a record and the hash it was found under.
  datatype Link = Link(hash: Id, record: Record)

  // What LookupData returns for a hash, if it succeeds. A walk asks for a hash at most once.
  type Fetch = Id -> Option<Bytes>

  // LookupData checks every value against its hash and the size limit.
  ghost predicate Checked(rules: Rules, fetch: Fetch) {
    forall h :: CheckedAt(rules, fetch, h)
  }

  ghost predicate CheckedAt(rules: Rules, fetch: Fetch, h: Id) {
    fetch(h).Some? ==> rules.digest(fetch(h).value) == h && |fetch(h).value| <= rules.maxValueSize
  }

  // The record stored under a hash.
  function RecordAt(rules: Rules, fetch: Fetch, h: Id): Option<Record> {
    if fetch(h).None? then None else rules.decode(fetch(h).value)
  }

  // The version rule: the first record has the head's version, later ones strictly less.
  predicate InOrder(version: nat, bound: nat, first: bool) {
    if first then version == bound else version < bound
  }

  // The record under a hash, when it verifies and continues the history of (domain, package).
  ghost function Step(
    rules: Rules, fetch: Fetch, domain: string, package: string, hash: Id, bound: nat, first: bool): (r: Option<Record>)
    ensures r.Some? ==> r == RecordAt(rules, fetch, hash) && Verified(rules, r.value, VersionRecord)
    ensures r.Some? ==> r.value.domain == domain && r.value.package == package
    ensures r.Some? ==> r.value.version > 0 && InOrder(r.value.version, bound, first) && r.value.previous.Canonical?
  {
    var v := RecordAt(rules, fetch, hash);
    if v.Some? && Verified(rules, v.value, VersionRecord) && v.value.domain == domain && v.value.package == package
       && InOrder(v.value.version, bound, first)
    then v else None
  }

  // The walk as a function: the links from `hash` down to the zero hash, or None on any failure.
  ghost function Walk(
    rules: Rules, fetch: Fetch, domain: string, package: string, hash: Id, bound: nat, first: bool): Option<seq<Link>>
    decreases bound + if first then 1 else 0
  {
    if hash == ZERO then Some([])
    else
      var v := Step(rules, fetch, domain, package, hash, bound, first);
      if v.None? then None
      else
        var rest := Walk(rules, fetch, domain, package, v.value.previous.id, v.value.version, false);
        if rest.None? then None else Some([Link(hash, v.value)] + rest.value)
  }

  // The history of a head: its pointer verifies and its walk succeeds with at least one record.
  ghost function ChainOf(rules: Rules, fetch: Fetch, head: Record): (r: Option<seq<Link>>)
    ensures r.Some? ==> Verified(rules, head, LatestPointer) && head.recordHash.Canonical?
  {
    if !Verified(rules, head, LatestPointer) || head.recordHash == Canonical(ZERO) then None
    else Walk(rules, fetch, head.domain, head.package, head.recordHash.id, head.version, true)
  }

  // The hash the record at position i must name as its predecessor.
  function NextHash(links: seq<Link>, i: nat): Id {
    if i + 1 < |links| then links[i + 1].hash else ZERO
  }

  ghost predicate Fits(rules: Rules, l: Link, next: Id, domain: string, package: string) {
    && l.hash != ZERO
    && Verified(rules, l.record, VersionRecord) && l.record.version > 0
    && l.record.domain == domain && l.record.package == package
    && l.record.previous == Canonical(next)
  }

  ghost predicate Decreasing(links: seq<Link>) {
    forall i, j :: 0 <= i < j < |links| ==> links[i].record.version > links[j].record.version
  }

  // A list of links that could have come out of a walk.
  ghost predicate Linked(rules: Rules, links: seq<Link>, domain: string, package: string) {
    && (forall i :: 0 <= i < |links| ==> Fits(rules, links[i], NextHash(links, i), domain, package))
    && Decreasing(links)
  }

  // Every link was decoded from the bytes found under its hash.
  ghost predicate AllFound(rules: Rules, fetch: Fetch, links: seq<Link>) {
    forall i :: 0 <= i < |links| ==> RecordAt(rules, fetch, links[i].hash) == Some(links[i].record)
  }

  // ------------------------------------------------------------------ shape of a chain

  lemma {:induction false} WalkShape(
    rules: Rules, fetch: Fetch, domain: string, package: string, hash: Id, bound: nat, first: bool)
    requires Walk(rules, fetch, domain, package, hash, bound, first).Some?
    ensures var links := Walk(rules, fetch, domain, package, hash, bound, first).value;
      && Linked(rules, links, domain, package) && AllFound(rules, fetch, links)
      && (links == [] <==> hash == ZERO)
      && (links != [] ==> links[0].hash == hash && InOrder(links[0].record.version, bound, first))
    decreases bound + if first then 1 else 0
  {
    hide Verified, Step, RecordAt;
    if hash != ZERO {
      var v := Step(rules, fetch, domain, package, hash, bound, first).value;
      WalkShape(rules, fetch, domain, package, v.previous.id, v.version, false);
      var rest := Walk(rules, fetch, domain, package, v.previous.id, v.version, false).value;
      LinkedCons(rules, Link(hash, v), rest, domain, package);
    }
  }

  lemma LinkedCons(rules: Rules, l: Link, rest: seq<Link>, domain: string, package: string)
    requires Linked(rules, rest, domain, package)
    requires Fits(rules, l, NextHash([l] + rest, 0), domain, package)
    requires rest != [] ==> rest[0].record.version < l.record.version
    ensures Linked(rules, [l] + rest, domain, package)
  {
    hide Fits, NextHash;
    var links := [l] + rest;
    DecreasingCons(l, rest);
    hide Decreasing;
    forall i | 0 <= i < |links| ensures Fits(rules, links[i], NextHash(links, i), domain, package) {
      if i > 0 {
        NextHashCons(l, rest, i);
        assert Fits(rules, rest[i - 1], NextHash(rest, i - 1), domain, package);
      }
    }
  }

  lemma NextHashCons(l: Link, rest: seq<Link>, i: nat)
    requires 0 < i <= |rest|
    ensures ([l] + rest)[i] == rest[i - 1] && NextHash([l] + rest, i) == NextHash(rest, i - 1)
  {
  }

  lemma DecreasingCons(l: Link, rest: seq<Link>)
    requires Decreasing(rest) && (rest != [] ==> rest[0].record.version < l.record.version)
    ensures Decreasing([l] + rest)
  {
    forall j | 0 <= j < |rest| ensures rest[j].record.version < l.record.version {
    }
  }

  lemma {:induction false} StepsBelowVersion(links: seq<Link>)
    requires Decreasing(links) && forall i :: 0 <= i < |links| ==> links[i].record.version > 0
    ensures links != [] ==> |links| <= links[0].record.version
  {
    if |links| > 1 {
      StepsBelowVersion(links[1..]);
      assert links[1..][0] == links[1];
    }
  }

  // A successful chain starts at the head's record and version, is linked down to the zero hash,
  // stays in one package, strictly decreases and so has at most `version` steps, none repeated.
  lemma ChainShape(rules: Rules, fetch: Fetch, head: Record)
    requires ChainOf(rules, fetch, head).Some?
    ensures var links := ChainOf(rules, fetch, head).value;
      && links != [] && Linked(rules, links, head.domain, head.package) && AllFound(rules, fetch, links)
      && Canonical(links[0].hash) == head.recordHash && links[0].record.version == head.version
      && |links| <= head.version
      && (forall i, j :: 0 <= i < j < |links| ==> links[i].hash != links[j].hash)
  {
    hide Verified, Walk;
    WalkShape(rules, fetch, head.domain, head.package, head.recordHash.id, head.version, true);
    var links := ChainOf(rules, fetch, head).value;
    forall i | 0 <= i < |links| ensures links[i].record.version > 0 {
      assert Fits(rules, links[i], NextHash(links, i), head.domain, head.package);
    }
    StepsBelowVersion(links);
  }

  // A list with this shape is what the walk finds, so that a walk fails for no other reason.
  lemma {:induction false} ShapeIsWalked(
    rules: Rules, fetch: Fetch, domain: string, package: string, hash: Id, bound: nat, first: bool, links: seq<Link>)
    requires Linked(rules, links, domain, package) && AllFound(rules, fetch, links)
    requires if links == [] then hash == ZERO
             else links[0].hash == hash && InOrder(links[0].record.version, bound, first)
    ensures Walk(rules, fetch, domain, package, hash, bound, first) == Some(links)
    decreases |links|
  {
    hide Verified, Linked, AllFound, Step, InOrder, RecordAt;
    if links != [] {
      ShapeFirst(rules, fetch, domain, package, bound, first, links);
      ShapeRest(rules, fetch, domain, package, links);
      ShapeIsWalked(rules, fetch, domain, package, links[0].record.previous.id, links[0].record.version, false, links[1..]);
      assert [links[0]] + links[1..] == links;
    }
  }

  lemma ShapeFirst(
    rules: Rules, fetch: Fetch, domain: string, package: string, bound: nat, first: bool, links: seq<Link>)
    requires links != [] && Linked(rules, links, domain, package) && AllFound(rules, fetch, links)
    requires InOrder(links[0].record.version, bound, first)
    ensures links[0].hash != ZERO && links[0].record.previous == Canonical(NextHash(links, 0))
    ensures Step(rules, fetch, domain, package, links[0].hash, bound, first) == Some(links[0].record)
  {
    hide Verified;
    assert Fits(rules, links[0], NextHash(links, 0), domain, package);
  }

  lemma ShapeRest(rules: Rules, fetch: Fetch, domain: string, package: string, links: seq<Link>)
    requires links != [] && Linked(rules, links, domain, package) && AllFound(rules, fetch, links)
    ensures Linked(rules, links[1..], domain, package) && AllFound(rules, fetch, links[1..])
    ensures if |links| == 1 then NextHash(links, 0) == ZERO
            else NextHash(links, 0) == links[1..][0].hash && InOrder(links[1..][0].record.version, links[0].record.version, false)
  {
    hide Verified, Fits, RecordAt;
    var rest := links[1..];
    forall i | 0 <= i < |rest| ensures Fits(rules, rest[i], NextHash(rest, i), domain, package) {
      assert Fits(rules, links[i + 1], NextHash(links, i + 1), domain, package);
    }
  }

  // The history of a head is the list of the records that are linked by their hashes from the
  // one it names, at its version, down to the zero hash. There is one exactly when all of them can
  // be found, each is signed, of the head's package and of a lower version than the one before.
  lemma ChainIff(rules: Rules, fetch: Fetch, head: Record, links: seq<Link>)
    ensures ChainOf(rules, fetch, head) == Some(links) <==> HistoryShape(rules, fetch, head, links)
  {
    hide Verified, Walk, Linked, AllFound, HistoryShape;
    if ChainOf(rules, fetch, head) == Some(links) {
      ChainShape(rules, fetch, head);
      LinkedIsShape(rules, fetch, head, links);
    }
    if HistoryShape(rules, fetch, head, links) {
      ShapeIsLinked(rules, fetch, head, links);
      ShapeIsWalked(rules, fetch, head.domain, head.package, head.recordHash.id, head.version, true, links);
    }
  }

  lemma LinkedIsShape(rules: Rules, fetch: Fetch, head: Record, links: seq<Link>)
    requires Verified(rules, head, LatestPointer) && links != [] && head.recordHash == Canonical(links[0].hash)
    requires Linked(rules, links, head.domain, head.package) && AllFound(rules, fetch, links)
    requires links[0].record.version == head.version
    ensures HistoryShape(rules, fetch, head, links)
  {
    hide Verified, Linked, AllFound;
    forall i | 0 <= i < |links| ensures LinkShape(rules, fetch, head, links, i) {
      LinkedAt(rules, fetch, head, links, i);
    }
  }

  lemma LinkedAt(rules: Rules, fetch: Fetch, head: Record, links: seq<Link>, i: nat)
    requires Linked(rules, links, head.domain, head.package) && AllFound(rules, fetch, links) && i < |links|
    ensures LinkShape(rules, fetch, head, links, i)
  {
    hide Verified;
    assert Fits(rules, links[i], NextHash(links, i), head.domain, head.package);
    assert RecordAt(rules, fetch, links[i].hash) == Some(links[i].record);
    assert i > 0 ==> links[i - 1].record.version > links[i].record.version;
  }

  lemma ShapeIsLinked(rules: Rules, fetch: Fetch, head: Record, links: seq<Link>)
    requires HistoryShape(rules, fetch, head, links)
    ensures Verified(rules, head, LatestPointer) && links != [] && head.recordHash == Canonical(links[0].hash)
    ensures links[0].hash != ZERO && links[0].record.version == head.version
    ensures Linked(rules, links, head.domain, head.package) && AllFound(rules, fetch, links)
  {
    hide Verified, LinkShape, Fits, RecordAt;
    forall i | 0 <= i < |links|
      ensures Fits(rules, links[i], NextHash(links, i), head.domain, head.package) && links[i].hash != ZERO
      ensures RecordAt(rules, fetch, links[i].hash) == Some(links[i].record)
      ensures i > 0 ==> links[i].record.version < links[i - 1].record.version
    {
      LinkedThere(rules, fetch, head, links, i);
    }
    ShapeDecreases(links);
  }

  lemma LinkedThere(rules: Rules, fetch: Fetch, head: Record, links: seq<Link>, i: nat)
    requires i < |links| && LinkShape(rules, fetch, head, links, i)
    ensures Fits(rules, links[i], NextHash(links, i), head.domain, head.package) && links[i].hash != ZERO
    ensures RecordAt(rules, fetch, links[i].hash) == Some(links[i].record)
    ensures i > 0 ==> links[i].record.version < links[i - 1].record.version
  {
    hide Verified;
    VersionIsPositive(rules, links[i].record);
  }

  ghost predicate HistoryShape(rules: Rules, fetch: Fetch, head: Record, links: seq<Link>) {
    && Verified(rules, head, LatestPointer) && links != []
    && Canonical(links[0].hash) == head.recordHash && links[0].record.version == head.version
    && forall i :: 0 <= i < |links| ==> LinkShape(rules, fetch, head, links, i)
  }

  ghost predicate LinkShape(rules: Rules, fetch: Fetch, head: Record, links: seq<Link>, i: nat)
    requires i < |links|
  {
    && fetch(links[i].hash).Some? && rules.decode(fetch(links[i].hash).value) == Some(links[i].record)
    && links[i].hash != ZERO && Verified(rules, links[i].record, VersionRecord)
    && links[i].record.domain == head.domain && links[i].record.package == head.package
    && links[i].record.previous == Canonical(if i + 1 < |links| then links[i + 1].hash else ZERO)
    && (i > 0 ==> links[i].record.version < links[i - 1].record.version)
  }

  lemma VersionIsPositive(rules: Rules, v: Record)
    requires Verified(rules, v, VersionRecord)
    ensures v.version > 0
  {
  }

  lemma {:induction false} ShapeDecreases(links: seq<Link>)
    requires forall i :: 0 < i < |links| ==> links[i].record.version < links[i - 1].record.version
    ensures Decreasing(links)
  {
    if |links| > 1 {
      var rest := links[1..];
      forall i | 0 < i < |rest| ensures rest[i].record.version < rest[i - 1].record.version {
        assert links[i + 1].record.version < links[i].record.version;
      }
      ShapeDecreases(rest);
      DecreasingCons(links[0], rest);
      assert [links[0]] + rest == links;
    }
  }

  // Nothing in a history is unsigned: the head and all its records carry the owner's signature.
  lemma ChainSigned(rules: Rules, u: Fetch, head: Record)
    requires ChainOf(rules, u, head).Some?
    ensures head.domain in rules.owners && |rules.owners[head.domain]| == 32
    ensures rules.signed(
      rules.owners[head.domain], rules.digest(rules.encode(head.(signature := []))), head.signature)
    ensures forall l :: l in ChainOf(rules, u, head).value ==> l.record.domain == head.domain && rules.signed(
      rules.owners[head.domain], rules.digest(rules.encode(l.record.(signature := []))), l.record.signature)
  {
    hide Walk, AllFound;
    VerifiedIsSigned(rules, head, LatestPointer);
    ChainShape(rules, u, head);
    var links := ChainOf(rules, u, head).value;
    forall l | l in links ensures l.record.domain == head.domain && OwnerSigned(rules, l.record) {
      var i :| 0 <= i < |links| && links[i] == l;
      assert Fits(rules, links[i], NextHash(links, i), head.domain, head.package);
      VerifiedIsSigned(rules, l.record, VersionRecord);
    }
  }

  // The history of any record in a chain is the rest of that chain.
  lemma {:induction false} WalkSuffix(
    rules: Rules, fetch: Fetch, domain: string, package: string, hash: Id, bound: nat, first: bool, i: nat)
    requires Walk(rules, fetch, domain, package, hash, bound, first).Some?
    requires i < |Walk(rules, fetch, domain, package, hash, bound, first).value|
    ensures var links := Walk(rules, fetch, domain, package, hash, bound, first).value;
      Walk(rules, fetch, domain, package, links[i].hash, links[i].record.version, true) == Some(links[i..])
    decreases bound + if first then 1 else 0
  {
    hide Verified;
    var links := Walk(rules, fetch, domain, package, hash, bound, first).value;
    var v := Step(rules, fetch, domain, package, hash, bound, first).value;
    if i > 0 {
      WalkSuffix(rules, fetch, domain, package, v.previous.id, v.version, false, i - 1);
      assert links[i..] == links[1..][i - 1..];
    }
  }

  // ------------------------------------------------------------------ one universe of content

  // u holds every content that is ever stored; each lookup finds what u holds, or nothing.
  ghost predicate Agrees(fetch: Fetch, u: Fetch) {
    forall h :: fetch(h).Some? ==> u(h) == fetch(h)
  }

  // Contents without hash collisions form such a universe.
  lemma CollisionFreeContents(rules: Rules, contents: set<Bytes>, u: Fetch, fetch: Fetch)
    requires forall x, y :: x in contents && y in contents && rules.digest(x) == rules.digest(y) ==> x == y
    requires forall x :: x in contents ==> u(rules.digest(x)).Some? && u(rules.digest(x)).value in contents
    requires Checked(rules, u) && Checked(rules, fetch)
    requires forall h :: fetch(h).Some? ==> fetch(h).value in contents
    ensures Agrees(fetch, u)
  {
    forall h | fetch(h).Some? ensures u(h) == fetch(h) {
      var x := fetch(h).value;
      assert CheckedAt(rules, fetch, h) && CheckedAt(rules, u, h);
      assert u(rules.digest(x)).value in contents;
    }
  }

  // Whoever walks a history, and whenever, a success is always the same history.
  lemma {:induction false} WalkAgrees(
    rules: Rules, fetch: Fetch, u: Fetch, domain: string, package: string, hash: Id, bound: nat, first: bool)
    requires Agrees(fetch, u) && Walk(rules, fetch, domain, package, hash, bound, first).Some?
    ensures Walk(rules, u, domain, package, hash, bound, first) == Walk(rules, fetch, domain, package, hash, bound, first)
    decreases bound + if first then 1 else 0
  {
    hide Verified;
    if hash != ZERO {
      var v := Step(rules, fetch, domain, package, hash, bound, first).value;
      assert Step(rules, u, domain, package, hash, bound, first) == Some(v);
      WalkAgrees(rules, fetch, u, domain, package, v.previous.id, v.version, false);
    }
  }

  lemma ChainAgrees(rules: Rules, fetch: Fetch, u: Fetch, head: Record)
    requires Agrees(fetch, u) && ChainOf(rules, fetch, head).Some?
    ensures ChainOf(rules, u, head) == ChainOf(rules, fetch, head)
  {
    hide Verified;
    WalkAgrees(rules, fetch, u, head.domain, head.package, head.recordHash.id, head.version, true);
  }

  // ------------------------------------------------------------------ the loop

  datatype ChainError = BadPointer | Cancelled | History | Unavailable | Undecodable | BadRecord | Unstorable

  // lookup_data.go: the local value if there is one, otherwise what the network gives.
  ghost function LocalFirst(values: map<Id, Bytes>, remote: Fetch): Fetch {
    (h: Id) => if h in values then Some(values[h]) else remote(h)
  }

  // What a node can serve from its own store.
  ghost function Stored(values: map<Id, Bytes>): Fetch {
    (h: Id) => if h in values then Some(values[h]) else None
  }

  ghost predicate Extended(before: map<Id, Bytes>, after: map<Id, Bytes>) {
    forall h :: h in before ==> h in after && after[h] == before[h]
  }

  // Nothing enters a store but what the lookups of a call found.
  ghost predicate Gained(before: map<Id, Bytes>, after: map<Id, Bytes>, a: Fetch, b: Fetch) {
    forall h :: h in after ==> (h in before && after[h] == before[h]) || a(h) == Some(after[h]) || b(h) == Some(after[h])
  }

  lemma GainedTrans(x: map<Id, Bytes>, y: map<Id, Bytes>, z: map<Id, Bytes>, a: Fetch, b: Fetch)
    requires Gained(x, y, a, b) && Gained(y, z, a, b)
    ensures Gained(x, z, a, b)
  {
  }

  lemma GainedByWalk(before: map<Id, Bytes>, after: map<Id, Bytes>, a: Fetch, b: Fetch)
    requires Agrees(Stored(after), LocalFirst(before, a))
    ensures Gained(before, after, a, b) && Gained(before, after, b, a)
  {
    forall h | h in after
      ensures (h in before && after[h] == before[h]) || a(h) == Some(after[h])
    {
      assert Stored(after)(h).Some?;
    }
  }

  // A store of one universe stays in it when the lookups find what the universe holds.
  lemma GainedAgrees(before: map<Id, Bytes>, after: map<Id, Bytes>, a: Fetch, b: Fetch, u: Fetch)
    requires Gained(before, after, a, b) && Agrees(Stored(before), u) && Agrees(a, u) && Agrees(b, u)
    ensures Agrees(Stored(after), u)
  {
    forall h | Stored(after)(h).Some? ensures u(h) == Stored(after)(h) {
      assert h in before ==> Stored(before)(h).Some?;
    }
  }

  lemma LocalFirstChecked(rules: Rules, values: map<Id, Bytes>, remote: Fetch)
    requires ContentAddressed(rules.digest, rules.maxValueSize, values) && Checked(rules, remote)
    ensures Checked(rules, LocalFirst(values, remote)) && Agrees(Stored(values), LocalFirst(values, remote))
  {
    forall h ensures CheckedAt(rules, LocalFirst(values, remote), h) {
      assert CheckedAt(rules, remote, h);
    }
  }

  // The network during one walk; mayStop: the walk's context may be cancelled meanwhile.
  datatype Source = Source(find: Fetch, mayStop: bool)

  // registry.go, chain. It succeeds exactly with ChainOf, unless it is cancelled. A success
  // leaves the whole history in the store, so this node can serve it without any other.
  method FollowChain(rules: Rules, store: ValueStore, source: Source, head: Record)
    returns (r: Result<seq<Link>, ChainError>)
    requires store.Good() && store.digest == rules.digest && store.maxValueSize == rules.maxValueSize
    requires Checked(rules, source.find)
    modifies store
    ensures store.Good() && Extended(old(store.values), store.values)
    ensures r.Ok? ==> ChainOf(rules, LocalFirst(old(store.values), source.find), head) == Some(r.value)
    ensures r.Ok? ==> ChainOf(rules, Stored(store.values), head) == Some(r.value)
    ensures r.Err? && r.error != Cancelled ==> ChainOf(rules, LocalFirst(old(store.values), source.find), head) == None
    ensures r == Err(Cancelled) ==> source.mayStop
    ensures r == Err(BadPointer) <==> !Verified(rules, head, LatestPointer)
    ensures Agrees(Stored(store.values), LocalFirst(old(store.values), source.find))
  {
    hide Verified, Walk, Remaining, Step, RecordAt, Passed, LocalFirst, Stored, Agrees, Checked;
    hide ContentAddressed, NextHash;
    ghost var fetch := LocalFirst(store.values, source.find);
    LocalFirstChecked(rules, store.values, source.find);
    var e := Verify(rules, head, LatestPointer);
    if e.Some? {
      return Err(BadPointer);
    }
    PointerHash(rules, head);
    var hash, bound, first := head.recordHash.id, head.version, true;
    var links: seq<Link> := [];
    var seen: set<Id> := {};
    WalkEnd(rules, fetch, head, links, hash, bound, first);
    while hash != ZERO
      invariant store.Good() && (first <==> links == []) && (first ==> hash == head.recordHash.id)
      invariant Remaining(rules, fetch, head, links, hash, bound, first)
      invariant forall h :: h in seen ==> Passed(rules, fetch, h, bound)
      invariant first ==> seen == {}
      invariant Extended(old(store.values), store.values) && Agrees(Stored(store.values), fetch)
      invariant forall i :: 0 <= i < |links| ==> links[i].hash in store.values
      decreases bound + if first then 1 else 0
    {
      if source.mayStop {
        if * {
          return Err(Cancelled);
        }
      }
      WalkOn(rules, fetch, head, links, hash, bound, first);
      if hash in seen {
        PassedBlocks(rules, fetch, head.domain, head.package, hash, bound);
        return Err(History);
      }
      var data := if hash in store.values then Some(store.values[hash]) else source.find(hash);
      FoundThere(old(store.values), store.values, source.find, hash);
      var next := CheckRecord(rules, data, head, bound, first, fetch, hash);
      if next.Err? {
        return Err(next.error);
      }
      var kept := Retain(rules, store, hash, data.value, fetch);
      if !kept {
        return Err(Unstorable);
      }
      PassedOn(rules, fetch, head.domain, head.package, hash, bound, first, seen);
      seen := seen + {hash};
      links := links + [Link(hash, next.value)];
      hash, bound, first := next.value.previous.id, next.value.version, false;
    }
    WalkEnd(rules, fetch, head, links, hash, bound, first);
    if |links| == 0 {
      return Err(History);
    }
    ServedLocally(rules, fetch, store.values, head, links);
    return Ok(links);
  }

  // The write of one iteration, which cannot fail for what a checked lookup found.
  method Retain(rules: Rules, store: ValueStore, hash: Id, data: Bytes, ghost fetch: Fetch) returns (kept: bool)
    requires store.Good() && store.digest == rules.digest && store.maxValueSize == rules.maxValueSize
    requires Checked(rules, fetch) && fetch(hash) == Some(data) && Agrees(Stored(store.values), fetch)
    modifies store
    ensures kept && store.Good() && hash in store.values
    ensures Extended(old(store.values), store.values) && Agrees(Stored(store.values), fetch)
  {
    hide Agrees, Stored;
    CheckedThere(rules, fetch, hash);
    StoredMore(store.values, hash, data, fetch);
    var putError := store.Put(hash, data);
    kept := putError.None?;
  }

  lemma ServedLocally(rules: Rules, fetch: Fetch, values: map<Id, Bytes>, head: Record, links: seq<Link>)
    requires ChainOf(rules, fetch, head) == Some(links) && Agrees(Stored(values), fetch)
    requires forall i :: 0 <= i < |links| ==> links[i].hash in values
    ensures ChainOf(rules, Stored(values), head) == Some(links)
  {
    ServedBy(rules, fetch, Stored(values), head, links);
  }

  // The checks of one iteration: exactly the records that continue the walk pass.
  method CheckRecord(
    rules: Rules, data: Option<Bytes>, head: Record, bound: nat, first: bool, ghost fetch: Fetch, ghost hash: Id)
    returns (r: Result<Record, ChainError>)
    requires data == fetch(hash)
    ensures r.Ok? <==> Step(rules, fetch, head.domain, head.package, hash, bound, first).Some?
    ensures r.Ok? ==> data.Some? && Step(rules, fetch, head.domain, head.package, hash, bound, first) == Some(r.value)
    ensures r.Err? ==> r.error != Cancelled && r.error != BadPointer
  {
    hide Verified;
    if data.None? {
      return Err(Unavailable);
    }
    var decoded := rules.decode(data.value);
    if decoded.None? {
      return Err(Undecodable);
    }
    var v := decoded.value;
    var bad := Verify(rules, v, VersionRecord);
    if bad.Some? {
      return Err(BadRecord);
    }
    if v.domain != head.domain || v.package != head.package || (first && v.version != bound) || (!first && v.version >= bound) {
      return Err(History);
    }
    return Ok(v);
  }

  // A hash already passed names a record of at least the current bound, so meeting it again
  // fails the version check: the cycle check can only anticipate that failure.
  ghost predicate Passed(rules: Rules, fetch: Fetch, h: Id, bound: nat) {
    var v := RecordAt(rules, fetch, h);
    v.Some? && v.value.version >= bound
  }

  lemma PassedBlocks(rules: Rules, fetch: Fetch, domain: string, package: string, h: Id, bound: nat)
    requires Passed(rules, fetch, h, bound)
    ensures Step(rules, fetch, domain, package, h, bound, false).None?
  {
  }

  lemma PassedOn(
    rules: Rules, fetch: Fetch, domain: string, package: string, hash: Id, bound: nat, first: bool, seen: set<Id>)
    requires Step(rules, fetch, domain, package, hash, bound, first).Some?
    requires forall h :: h in seen ==> Passed(rules, fetch, h, bound)
    ensures var v := Step(rules, fetch, domain, package, hash, bound, first).value;
      forall h :: h in seen + {hash} ==> Passed(rules, fetch, h, v.version)
  {
    hide Verified;
  }

  lemma FoundThere(before: map<Id, Bytes>, values: map<Id, Bytes>, remote: Fetch, hash: Id)
    requires Extended(before, values) && Agrees(Stored(values), LocalFirst(before, remote))
    ensures LocalFirst(before, remote)(hash) == if hash in values then Some(values[hash]) else remote(hash)
  {
    assert hash in values ==> Stored(values)(hash).Some?;
  }

  lemma CheckedThere(rules: Rules, fetch: Fetch, h: Id)
    requires Checked(rules, fetch)
    ensures CheckedAt(rules, fetch, h)
  {
  }

  lemma StoredMore(values: map<Id, Bytes>, hash: Id, data: Bytes, fetch: Fetch)
    requires Agrees(Stored(values), fetch) && fetch(hash) == Some(data)
    ensures Agrees(Stored(values[hash := data]), fetch)
    ensures Extended(values, values[hash := data])
  {
    forall h | Stored(values[hash := data])(h).Some? ensures fetch(h) == Stored(values[hash := data])(h) {
      assert h != hash ==> Stored(values)(h) == Stored(values[hash := data])(h);
    }
    forall h | h in values ensures values[hash := data][h] == values[h] {
      assert Stored(values)(h).Some?;
    }
  }

  // Whoever can find every record of a history walks that history.
  lemma ServedBy(rules: Rules, fetch: Fetch, some: Fetch, head: Record, links: seq<Link>)
    requires ChainOf(rules, fetch, head) == Some(links) && Agrees(some, fetch)
    requires forall i :: 0 <= i < |links| ==> some(links[i].hash).Some?
    ensures ChainOf(rules, some, head) == Some(links)
  {
    WalkServed(rules, fetch, some, head.domain, head.package, head.recordHash.id, head.version, true, links);
  }

  lemma {:induction false} WalkServed(
    rules: Rules, fetch: Fetch, some: Fetch, domain: string, package: string, hash: Id, bound: nat, first: bool, links: seq<Link>)
    requires Walk(rules, fetch, domain, package, hash, bound, first) == Some(links) && Agrees(some, fetch)
    requires forall i :: 0 <= i < |links| ==> some(links[i].hash).Some?
    ensures Walk(rules, some, domain, package, hash, bound, first) == Some(links)
    decreases bound + if first then 1 else 0
  {
    hide Verified;
    if hash != ZERO {
      var v := Step(rules, fetch, domain, package, hash, bound, first).value;
      assert links[0].hash == hash;
      assert some(hash) == fetch(hash);
      assert Step(rules, some, domain, package, hash, bound, first) == Some(v);
      WalkServed(rules, fetch, some, domain, package, v.previous.id, v.version, false, links[1..]);
    }
  }

  lemma PointerHash(rules: Rules, head: Record)
    requires Verified(rules, head, LatestPointer)
    ensures head.recordHash.Canonical? && head.version > 0
  {
  }

  // What is left to walk decides the whole.
  ghost predicate Remaining(
    rules: Rules, fetch: Fetch, head: Record, links: seq<Link>, hash: Id, bound: nat, first: bool)
    requires head.recordHash.Canonical?
  {
    var whole := Walk(rules, fetch, head.domain, head.package, head.recordHash.id, head.version, true);
    var rest := Walk(rules, fetch, head.domain, head.package, hash, bound, first);
    whole == if rest.None? then None else Some(links + rest.value)
  }

  // The two unfoldings of Remaining: at the start and the end, and one step further.
  lemma WalkEnd(rules: Rules, fetch: Fetch, head: Record, links: seq<Link>, hash: Id, bound: nat, first: bool)
    requires head.recordHash.Canonical?
    ensures (links == [] && hash == head.recordHash.id && bound == head.version && first) ==>
      Remaining(rules, fetch, head, links, hash, bound, first)
    ensures hash == ZERO && Remaining(rules, fetch, head, links, hash, bound, first) ==>
      Walk(rules, fetch, head.domain, head.package, head.recordHash.id, head.version, true) == Some(links)
  {
    hide Step;
    assert links + [] == links;
    var whole := Walk(rules, fetch, head.domain, head.package, head.recordHash.id, head.version, true);
    assert whole.Some? ==> [] + whole.value == whole.value;
  }

  lemma WalkOn(rules: Rules, fetch: Fetch, head: Record, links: seq<Link>, hash: Id, bound: nat, first: bool)
    requires head.recordHash.Canonical? && hash != ZERO
    requires Remaining(rules, fetch, head, links, hash, bound, first)
    ensures var v := Step(rules, fetch, head.domain, head.package, hash, bound, first);
      if v.None? then Walk(rules, fetch, head.domain, head.package, head.recordHash.id, head.version, true) == None
      else Remaining(rules, fetch, head, links + [Link(hash, v.value)], v.value.previous.id, v.value.version, false)
  {
    hide Step;
    var v := Step(rules, fetch, head.domain, head.package, hash, bound, first);
    if v.Some? {
      var rest := Walk(rules, fetch, head.domain, head.package, v.value.previous.id, v.value.version, false);
      if rest.Some? {
        assert links + ([Link(hash, v.value)] + rest.value) == links + [Link(hash, v.value)] + rest.value;
      }
    }
  }
}
