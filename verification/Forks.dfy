// src/kademlia/registry.go: what a fork proves about the owner of a package.
module Forks {
  import opened Wrappers
  import opened Ids
  import opened FindRpc
  import opened Records
  import opened Chain
  import opened Histories
  import opened RegistryProtocol

  // Two distinct records, both signed by the owner, that claim the same predecessor.
  ghost predicate Evidence(rules: Rules, a: seq<Link>, b: seq<Link>) {
    exists i, j :: 0 <= i < |a| && 0 <= j < |b| && Equivocal(rules, a[i].record, b[j].record)
  }

  ghost predicate Equivocal(rules: Rules, v: Record, w: Record) {
    && v != w && v.previous == w.previous && SamePackage(v, w)
    && Verified(rules, v, VersionRecord) && Verified(rules, w, VersionRecord)
  }

  // One record stored as two different byte strings, hence under two hashes.
  ghost predicate Restated(a: seq<Link>, b: seq<Link>) {
    exists i, j :: 0 <= i < |a| && 0 <= j < |b| && a[i].record == b[j].record && a[i].hash != b[j].hash
  }

  // The histories part here: different links in front of a common rest.
  ghost predicate Parting(a: seq<Link>, b: seq<Link>, i: int, j: int) {
    0 <= i < |a| && 0 <= j < |b| && a[i] != b[j] && a[i + 1..] == b[j + 1..]
  }

  // ------------------------------------------------------------------ lists

  lemma SameLast(a: seq<Link>, b: seq<Link>)
    requires a != [] && b != [] && a[|a| - 1] == b[|b| - 1]
    ensures IsSuffix(a, b) <==> IsSuffix(a[..|a| - 1], b[..|b| - 1])
  {
    var x, y := a[..|a| - 1], b[..|b| - 1];
    assert a == x + [a[|a| - 1]] && b == y + [b[|b| - 1]];
    if |a| <= |b| {
      assert b[|b| - |a|..] == y[|y| - |x|..] + [b[|b| - 1]];
      assert b[|b| - |a|..][..|x|] == y[|y| - |x|..];
    }
  }

  lemma {:induction false} Parts(a: seq<Link>, b: seq<Link>) returns (i: nat, j: nat)
    requires !Comparable(a, b)
    ensures Parting(a, b, i, j)
  {
    assert a != [] && b != [] by {
      assert b[|b|..] == [] && a[|a|..] == [];
    }
    i, j := |a| - 1, |b| - 1;
    if a[i] == b[j] {
      SameLast(a, b);
      SameLast(b, a);
      var last := a[i];
      assert a == a[..i] + [last] && b == b[..j] + [last];
      var k, l := Parts(a[..i], b[..j]);
      assert a[k + 1..] == a[..i][k + 1..] + [last] && b[l + 1..] == b[..j][l + 1..] + [last];
      i, j := k, l;
    }
  }

  lemma EqualBehind(a: seq<Link>, b: seq<Link>, i: nat, j: nat, k: nat, l: nat)
    requires Parting(a, b, i, j) && i < k < |a| && l < |b| && |a| - k == |b| - l
    ensures a[k] == b[l]
  {
    assert |a[i + 1..]| == |b[j + 1..]|;
    assert a[k] == a[i + 1..][k - i - 1] == b[j + 1..][l - j - 1] == b[l];
  }

  lemma OnePartingPoint(a: seq<Link>, b: seq<Link>, i: nat, j: nat, k: nat, l: nat)
    requires Parting(a, b, i, j) && Parting(a, b, k, l)
    ensures i == k && j == l
  {
    assert |a[i + 1..]| == |b[j + 1..]| && |a[k + 1..]| == |b[l + 1..]|;
    if k > i {
      EqualBehind(a, b, i, j, k, l);
    } else if i > k {
      EqualBehind(a, b, k, l, i, j);
    }
  }

  // ------------------------------------------------------------------ two histories of a package

  ghost predicate TwoHistories(rules: Rules, u: Fetch, p: Record, q: Record) {
    ChainOf(rules, u, p).Some? && ChainOf(rules, u, q).Some? && SamePackage(p, q)
  }

  // Records with the same predecessor have the same history behind them.
  lemma SamePreviousSameRest(rules: Rules, u: Fetch, p: Record, q: Record, i: nat, j: nat)
    requires TwoHistories(rules, u, p, q)
    requires i < |ChainOf(rules, u, p).value| && j < |ChainOf(rules, u, q).value|
    requires ChainOf(rules, u, p).value[i].record.previous == ChainOf(rules, u, q).value[j].record.previous
    ensures ChainOf(rules, u, p).value[i + 1..] == ChainOf(rules, u, q).value[j + 1..]
  {
    hide Verified;
    var a, b := ChainOf(rules, u, p).value, ChainOf(rules, u, q).value;
    NextOf(rules, u, p, i);
    NextOf(rules, u, q, j);
    if i + 1 < |a| && j + 1 < |b| {
      WalkSuffix(rules, u, p.domain, p.package, p.recordHash.id, p.version, true, i + 1);
      WalkSuffix(rules, u, q.domain, q.package, q.recordHash.id, q.version, true, j + 1);
    }
  }

  // Position i names its successor, whose record is the one stored under that hash.
  lemma NextOf(rules: Rules, u: Fetch, p: Record, i: nat)
    requires ChainOf(rules, u, p).Some? && i < |ChainOf(rules, u, p).value|
    ensures var a := ChainOf(rules, u, p).value;
      && Verified(rules, a[i].record, VersionRecord) && a[i].record.domain == p.domain && a[i].record.package == p.package
      && RecordAt(rules, u, a[i].hash) == Some(a[i].record)
      && a[i].record.previous == Canonical(NextHash(a, i))
      && (i + 1 < |a| ==> a[i + 1].hash != ZERO && RecordAt(rules, u, a[i + 1].hash) == Some(a[i + 1].record))
  {
    hide ChainOf, Verified;
    ChainShape(rules, u, p);
    var a := ChainOf(rules, u, p).value;
    assert Fits(rules, a[i], NextHash(a, i), p.domain, p.package);
    if i + 1 < |a| {
      assert Fits(rules, a[i + 1], NextHash(a, i + 1), p.domain, p.package);
    }
  }

  // At the parting point both links name the same predecessor, under different hashes.
  lemma PartingNames(rules: Rules, u: Fetch, p: Record, q: Record, i: nat, j: nat)
    requires TwoHistories(rules, u, p, q)
    requires Parting(ChainOf(rules, u, p).value, ChainOf(rules, u, q).value, i, j)
    ensures var a, b := ChainOf(rules, u, p).value, ChainOf(rules, u, q).value;
      && a[i].record.previous == b[j].record.previous && a[i].hash != b[j].hash
      && (a[i].record != b[j].record ==> Equivocal(rules, a[i].record, b[j].record))
  {
    hide ChainOf, Verified, RecordAt;
    NextOf(rules, u, p, i);
    NextOf(rules, u, q, j);
    var a, b := ChainOf(rules, u, p).value, ChainOf(rules, u, q).value;
    assert |a[i + 1..]| == |b[j + 1..]|;
    assert i + 1 < |a| ==> a[i + 1] == a[i + 1..][0] && b[j + 1] == b[j + 1..][0];
  }

  // A pair with one predecessor that differs in hash or in record stands at the parting point.
  lemma PairParts(rules: Rules, u: Fetch, p: Record, q: Record, i: nat, j: nat)
    requires TwoHistories(rules, u, p, q)
    requires i < |ChainOf(rules, u, p).value| && j < |ChainOf(rules, u, q).value|
    requires ChainOf(rules, u, p).value[i].record.previous == ChainOf(rules, u, q).value[j].record.previous
    requires ChainOf(rules, u, p).value[i] != ChainOf(rules, u, q).value[j]
    ensures Parting(ChainOf(rules, u, p).value, ChainOf(rules, u, q).value, i, j)
  {
    hide ChainOf;
    SamePreviousSameRest(rules, u, p, q, i, j);
  }

  // Fork accountability: of any two histories of a package exactly one holds. They are comparable;
  // or the owner signed two distinct records with one predecessor; or one record is stored under
  // two hashes. Histories that are not comparable part at a point where both name one predecessor.
  lemma ForkAccountability(rules: Rules, u: Fetch, p: Record, q: Record)
    requires TwoHistories(rules, u, p, q)
    ensures var a, b := ChainOf(rules, u, p).value, ChainOf(rules, u, q).value;
      && (Comparable(a, b) <==> !Evidence(rules, a, b) && !Restated(a, b))
      && !(Evidence(rules, a, b) && Restated(a, b))
      && (!Comparable(a, b) ==> exists i: nat, j: nat :: Parting(a, b, i, j) && a[i].record.previous == b[j].record.previous)
  {
    hide ChainOf, Verified, Comparable;
    var a, b := ChainOf(rules, u, p).value, ChainOf(rules, u, q).value;
    if !Comparable(a, b) {
      var i, j := Parts(a, b);
      PartingNames(rules, u, p, q, i, j);
    }
    if Evidence(rules, a, b) {
      var i: nat, j: nat :| i < |a| && j < |b| && Equivocal(rules, a[i].record, b[j].record);
      PairParts(rules, u, p, q, i, j);
      PartingIncomparable(a, b, i, j);
      if Restated(a, b) {
        var k: nat, l: nat :| k < |a| && l < |b| && a[k].record == b[l].record && a[k].hash != b[l].hash;
        PairParts(rules, u, p, q, k, l);
        OnePartingPoint(a, b, i, j, k, l);
      }
    } else if Restated(a, b) {
      var k: nat, l: nat :| k < |a| && l < |b| && a[k].record == b[l].record && a[k].hash != b[l].hash;
      PairParts(rules, u, p, q, k, l);
      PartingIncomparable(a, b, k, l);
    }
  }

  lemma PartingIncomparable(a: seq<Link>, b: seq<Link>, i: nat, j: nat)
    requires Parting(a, b, i, j)
    ensures !Comparable(a, b)
  {
    assert |a[i + 1..]| == |b[j + 1..]|;
    if |a| <= |b| {
      assert b[|b| - |a|..][i] == b[j];
    }
    if |b| <= |a| {
      assert a[|a| - |b|..][j] == a[i];
    }
  }

  // ------------------------------------------------------------------ what the owner has signed

  // The statement of the owner that names link i of the history of p: p itself names the
  // first link, every other is named by the record in front of it.
  ghost predicate OwnerNamed(rules: Rules, p: Record, links: seq<Link>, i: nat)
    requires i < |links|
  {
    if i == 0 then Verified(rules, p, LatestPointer) && p.recordHash == Canonical(links[0].hash)
    else Verified(rules, links[i - 1].record, VersionRecord) && links[i - 1].record.previous == Canonical(links[i].hash)
  }

  lemma EveryLinkNamed(rules: Rules, u: Fetch, p: Record, i: nat)
    requires ChainOf(rules, u, p).Some? && i < |ChainOf(rules, u, p).value|
    ensures OwnerNamed(rules, p, ChainOf(rules, u, p).value, i) && ChainOf(rules, u, p).value[i].hash != ZERO
    ensures RecordAt(rules, u, ChainOf(rules, u, p).value[i].hash) == Some(ChainOf(rules, u, p).value[i].record)
  {
    hide ChainOf, Verified;
    ChainShape(rules, u, p);
    NextOf(rules, u, p, i);
    var links := ChainOf(rules, u, p).value;
    assert Fits(rules, links[i], NextHash(links, i), p.domain, p.package);
    if i > 0 {
      NextOf(rules, u, p, i - 1);
    }
  }

  // A link whose hash the owner named although it is not the hash of the record's own encoding.
  ghost predicate NamedOtherSpelling(rules: Rules, p: Record, links: seq<Link>) {
    exists i: nat :: i < |links| && OtherSpelling(rules, links[i]) && OwnerNamed(rules, p, links, i)
  }

  predicate OtherSpelling(rules: Rules, l: Link) {
    l.hash != rules.digest(rules.encode(l.record))
  }

  // Every fork leaves something the owner signed: two distinct records with one predecessor, or a
  // pointer or record that names a spelling of a record other than the record's own encoding.
  lemma ForkConvicts(rules: Rules, u: Fetch, p: Record, q: Record)
    requires TwoHistories(rules, u, p, q)
    requires !Comparable(ChainOf(rules, u, p).value, ChainOf(rules, u, q).value)
    ensures var a, b := ChainOf(rules, u, p).value, ChainOf(rules, u, q).value;
      Evidence(rules, a, b) || NamedOtherSpelling(rules, p, a) || NamedOtherSpelling(rules, q, b)
  {
    hide ChainOf, Verified, Comparable, Evidence, OwnerNamed;
    var a, b := ChainOf(rules, u, p).value, ChainOf(rules, u, q).value;
    ForkAccountability(rules, u, p, q);
    if !Evidence(rules, a, b) {
      var i: nat, j: nat :| i < |a| && j < |b| && a[i].record == b[j].record && a[i].hash != b[j].hash;
      EveryLinkNamed(rules, u, p, i);
      EveryLinkNamed(rules, u, q, j);
      assert OtherSpelling(rules, a[i]) || OtherSpelling(rules, b[j]);
    }
  }

  // ------------------------------------------------------------------ a fork without evidence

  const SHARED: Record := Record(VersionRecord, "d", "p", 1, Canonical(Repeated(1)), ZERO_HASH, Absent, [])
  const LEFT: Record := Record(LatestPointer, "d", "p", 1, Absent, Absent, Canonical(Repeated(2)), [])
  const RIGHT: Record := Record(LatestPointer, "d", "p", 1, Absent, Absent, Canonical(Repeated(3)), [])

  // A codec that reads a record back from its own encoding, and also from one with a blank.
  function Blanks(): Rules {
    Rules(
      map["d" := Repeated(9)], (x: Bytes) => if x == [0] then Repeated(2) else if x == [0, 32] then Repeated(3) else Repeated(4),
      (k: string) => Repeated(5), (v: Record) => if v == SHARED then [0] else [1],
      (x: Bytes) => if x == [0] || x == [0, 32] then Some(SHARED) else None,
      (k: Bytes, d: Id, s: Bytes) => true, 1024)
  }

  function TwoSpellings(): Fetch {
    (h: Id) => if h == Repeated(2) then Some([0]) else if h == Repeated(3) then Some([0, 32]) else None
  }

  // The claim that every fork leaves two distinct signed records with one predecessor is false
  // of the code: chain hashes the bytes it finds but verifies the record it decodes from them.
  lemma ForkWithoutEvidence()
    ensures var rules, u := Blanks(), TwoSpellings();
      && rules.decode(rules.encode(SHARED)) == Some(SHARED) && Checked(rules, u)
      && TwoHistories(rules, u, LEFT, RIGHT)
      && !Comparable(ChainOf(rules, u, LEFT).value, ChainOf(rules, u, RIGHT).value)
      && !Evidence(rules, ChainOf(rules, u, LEFT).value, ChainOf(rules, u, RIGHT).value)
  {
    var rules, u := Blanks(), TwoSpellings();
    hide ChainOf;
    Spelling(LEFT, 2);
    Spelling(RIGHT, 3);
    hide TwoSpellings, Blanks;
    assert ChainOf(rules, u, LEFT).value[0].hash != ChainOf(rules, u, RIGHT).value[0].hash by {
      assert Repeated(2)[0] != Repeated(3)[0];
    }
    CheckedSpellings();
  }

  lemma CheckedSpellings()
    ensures Checked(Blanks(), TwoSpellings())
    ensures Blanks().decode(Blanks().encode(SHARED)) == Some(SHARED)
  {
    assert Repeated(2)[0] != Repeated(3)[0];
    forall h ensures CheckedAt(Blanks(), TwoSpellings(), h) {
    }
  }

  lemma Spelling(p: Record, b: Byte)
    requires b == 2 || b == 3
    requires p == if b == 2 then LEFT else RIGHT
    ensures ChainOf(Blanks(), TwoSpellings(), p) == Some([Link(Repeated(b), SHARED)])
  {
    hide ChainOf;
    assert Repeated(b)[0] != ZERO[0];
    assert Repeated(2)[0] != Repeated(3)[0];
    assert ValidName("d") && ValidName("p");
    SingleLink(Blanks(), TwoSpellings(), p);
  }

  lemma SingleLink(rules: Rules, u: Fetch, p: Record)
    requires Verified(rules, p, LatestPointer) && p.recordHash.Canonical? && p.recordHash.id != ZERO
    requires RecordAt(rules, u, p.recordHash.id).Some?
    requires var v := RecordAt(rules, u, p.recordHash.id).value;
      Verified(rules, v, VersionRecord) && SamePackage(v, p) && v.version == p.version && v.previous == ZERO_HASH
    ensures ChainOf(rules, u, p) == Some([Link(p.recordHash.id, RecordAt(rules, u, p.recordHash.id).value)])
  {
    hide Verified;
    var v := RecordAt(rules, u, p.recordHash.id).value;
    assert Walk(rules, u, p.domain, p.package, v.previous.id, v.version, false) == Some([]);
    assert Chain.Step(rules, u, p.domain, p.package, p.recordHash.id, p.version, true) == Some(v);
    assert [Link(p.recordHash.id, v)] + [] == [Link(p.recordHash.id, v)];
    assert Walk(rules, u, p.domain, p.package, p.recordHash.id, p.version, true) == Some([Link(p.recordHash.id, v)]);
  }

  // ------------------------------------------------------------------ owners that never fork

  // The owner signs one record per predecessor in each package.
  ghost predicate SignsOnce(rules: Rules, u: Fetch) {
    forall g, h :: RecordAt(rules, u, g).Some? && RecordAt(rules, u, h).Some? ==>
      !Equivocal(rules, RecordAt(rules, u, g).value, RecordAt(rules, u, h).value)
  }

  // A hash under which a record is found is the hash of the record's own encoding.
  ghost predicate OwnSpelling(rules: Rules, u: Fetch, named: HashText) {
    named.Canonical? && named.id != ZERO && RecordAt(rules, u, named.id).Some? ==>
      named.id == rules.digest(rules.encode(RecordAt(rules, u, named.id).value))
  }

  // The owner names records by the hash of their own encoding, as Publish does, in every pointer
  // of `issued` and in every record it has signed. What others store does not matter.
  ghost predicate NamesOwnSpelling(rules: Rules, u: Fetch, issued: iset<Record>) {
    && (forall p :: p in issued ==> OwnSpelling(rules, u, p.recordHash))
    && (forall h :: RecordAt(rules, u, h).Some? && Verified(rules, RecordAt(rules, u, h).value, VersionRecord) ==>
      OwnSpelling(rules, u, RecordAt(rules, u, h).value.previous))
  }

  lemma NamedOwnSpelling(rules: Rules, u: Fetch, issued: iset<Record>, p: Record, i: nat)
    requires ChainOf(rules, u, p).Some? && i < |ChainOf(rules, u, p).value|
    requires NamesOwnSpelling(rules, u, issued) && p in issued
    ensures !OtherSpelling(rules, ChainOf(rules, u, p).value[i])
  {
    hide ChainOf, Verified, RecordAt;
    EveryLinkNamed(rules, u, p, i);
    var links := ChainOf(rules, u, p).value;
    if i > 0 {
      EveryLinkNamed(rules, u, p, i - 1);
    }
    assert OwnSpelling(rules, u, if i == 0 then p.recordHash else links[i - 1].record.previous);
  }

  lemma SignedOnce(rules: Rules, u: Fetch, g: Id, h: Id)
    requires SignsOnce(rules, u) && RecordAt(rules, u, g).Some? && RecordAt(rules, u, h).Some?
    ensures !Equivocal(rules, RecordAt(rules, u, g).value, RecordAt(rules, u, h).value)
  {
  }

  // An owner who signs one record per predecessor, and names records by their own encoding, never
  // has incomparable histories.
  lemma NeverApart(rules: Rules, u: Fetch, issued: iset<Record>, p: Record, q: Record)
    requires TwoHistories(rules, u, p, q) && p in issued && q in issued
    requires SignsOnce(rules, u) && NamesOwnSpelling(rules, u, issued)
    ensures Comparable(ChainOf(rules, u, p).value, ChainOf(rules, u, q).value)
  {
    hide ChainOf, Verified, RecordAt, Equivocal, Comparable, SignsOnce, NamesOwnSpelling, OwnerNamed;
    var a, b := ChainOf(rules, u, p).value, ChainOf(rules, u, q).value;
    forall i: nat | i < |a| ensures !OtherSpelling(rules, a[i]) {
      NamedOwnSpelling(rules, u, issued, p, i);
    }
    forall j: nat | j < |b| ensures !OtherSpelling(rules, b[j]) {
      NamedOwnSpelling(rules, u, issued, q, j);
    }
    forall i, j | 0 <= i < |a| && 0 <= j < |b| ensures !Equivocal(rules, a[i].record, b[j].record) {
      EveryLinkNamed(rules, u, p, i);
      EveryLinkNamed(rules, u, q, j);
      SignedOnce(rules, u, a[i].hash, b[j].hash);
    }
    if !Comparable(a, b) {
      ForkConvicts(rules, u, p, q);
    }
  }

  // Nobody else can sign: every pointer that verifies and is ever sent is one the owner issued.
  ghost predicate Unforged(rules: Rules, states: seq<State>, issued: iset<Record>) {
    forall i, m :: 0 <= i < |states| && m in states[i].sent && Verified(rules, m.head, LatestPointer) ==> m.head in issued
  }

  lemma HeldIsIssued(
    rules: Rules, u: Fetch, states: seq<State>, steps: seq<Step>, issued: iset<Record>, i: nat, n: Id, key: Id)
    requires Run(rules, u, states, steps) && i < |states| && Unforged(rules, states, issued)
    requires n in states[i].nodes && key in states[i].nodes[n].heads
    ensures ChainOf(rules, u, states[i].nodes[n].heads[key]).Some? && states[i].nodes[n].heads[key] in issued
  {
    hide NextBy, Verified;
    RunGood(rules, u, states, steps, i);
    HeadsWereSent(rules, u, states, steps, i);
    var head := states[i].nodes[n].heads[key];
    assert GoodReplica(rules, u, states[i].nodes[n]) && GoodHead(rules, u, key, head);
    assert AllSent(states[i], states[i].nodes[n]) && WasSent(states[i], head);
  }

  // Whatever heads two replicas hold at two moments of any run, their histories of a package are
  // comparable when the owner never signs two records with one predecessor and names every record
  // by its own encoding, whatever anybody else has stored or sent.
  lemma ReplicasComparable(
    rules: Rules, u: Fetch, states: seq<State>, steps: seq<Step>, issued: iset<Record>, i: nat, j: nat, m: Id, n: Id,
    key: Id, other: Id)
    requires Run(rules, u, states, steps) && i < |states| && j < |states|
    requires m in states[i].nodes && key in states[i].nodes[m].heads
    requires n in states[j].nodes && other in states[j].nodes[n].heads
    requires SamePackage(states[i].nodes[m].heads[key], states[j].nodes[n].heads[other])
    requires Unforged(rules, states, issued) && SignsOnce(rules, u) && NamesOwnSpelling(rules, u, issued)
    ensures var a, b := ChainOf(rules, u, states[i].nodes[m].heads[key]), ChainOf(rules, u, states[j].nodes[n].heads[other]);
      a.Some? && b.Some? && Comparable(a.value, b.value)
  {
    hide ChainOf, NextBy, Comparable, SignsOnce, NamesOwnSpelling, Unforged;
    HeldIsIssued(rules, u, states, steps, issued, i, m, key);
    HeldIsIssued(rules, u, states, steps, issued, j, n, other);
    NeverApart(rules, u, issued, states[i].nodes[m].heads[key], states[j].nodes[n].heads[other]);
  }
}
