// src/kademlia/registry.go: how two histories of a package compare, and the ancestry check that
// accept makes under its lock.
module Histories {
  import opened Wrappers
  import opened Ids
  import opened FindRpc
  import opened Records
  import opened Chain

  ghost predicate IsSuffix(a: seq<Link>, b: seq<Link>) {
    |a| <= |b| && b[|b| - |a|..] == a
  }

  ghost predicate Comparable(a: seq<Link>, b: seq<Link>) {
    IsSuffix(a, b) || IsSuffix(b, a)
  }

  // The record a head points to occurs on the chain at the head's own version.
  ghost predicate OnChain(links: seq<Link>, head: Record) {
    exists i :: LinkOf(links, i, head)
  }

  ghost predicate LinkOf(links: seq<Link>, i: int, head: Record) {
    0 <= i < |links| && Canonical(links[i].hash) == head.recordHash && links[i].record.version == head.version
  }

  ghost predicate SamePackage(a: Record, b: Record) {
    a.domain == b.domain && a.package == b.package
  }

  datatype Verdict = Retransmission | Refused | Committed

  // accept, under the lock: compare a walked head with the current one.
  function Decide(current: Option<Record>, head: Record, links: seq<Link>): Verdict {
    match current
    case None => Committed
    case Some(c) =>
      if c.recordHash == head.recordHash && c.version == head.version then Retransmission
      else if head.version <= c.version then Refused
      else if exists i :: 0 <= i < |links| && Canonical(links[i].hash) == c.recordHash then Committed
      else Refused
  }

  function HeadKey(rules: Rules, head: Record): Id {
    LatestKey(rules, head.domain, head.package)
  }

  function Current(heads: map<Id, Record>, key: Id): Option<Record> {
    if key in heads then Some(heads[key]) else None
  }

  function AfterCommit(rules: Rules, heads: map<Id, Record>, head: Record, links: seq<Link>): map<Id, Record> {
    if Decide(Current(heads, HeadKey(rules, head)), head, links) == Committed then heads[HeadKey(rules, head) := head]
    else heads
  }

  // ------------------------------------------------------------------ suffixes

  lemma SuffixTrans(a: seq<Link>, b: seq<Link>, c: seq<Link>)
    requires IsSuffix(a, b) && IsSuffix(b, c)
    ensures IsSuffix(a, c)
  {
    assert c[|c| - |a|..] == c[|c| - |b|..][|b| - |a|..];
  }

  lemma SuffixRefl(a: seq<Link>)
    ensures IsSuffix(a, a)
  {
  }

  lemma SuffixFirst(a: seq<Link>, b: seq<Link>)
    requires IsSuffix(a, b) && a != []
    ensures |a| <= |b| && b[|b| - |a|] == a[0]
  {
  }

  lemma SuffixCons(a: seq<Link>, l: Link, b: seq<Link>)
    requires IsSuffix(a, b)
    ensures IsSuffix(a, [l] + b) && a != [l] + b
  {
    assert ([l] + b)[|b| + 1 - |a|..] == b[|b| - |a|..];
  }

  // Two histories ending in the same history are comparable.
  lemma SuffixesOfOne(a: seq<Link>, b: seq<Link>, c: seq<Link>)
    requires IsSuffix(a, c) && IsSuffix(b, c)
    ensures Comparable(a, b)
  {
    if |a| <= |b| {
      assert c[|c| - |a|..] == c[|c| - |b|..][|b| - |a|..];
    } else {
      assert c[|c| - |b|..] == c[|c| - |a|..][|a| - |b|..];
    }
  }

  // A verified head on a chain has the rest of that chain as its own history, and no other head
  // has a suffix of a chain as its history.
  lemma OnChainIffSuffix(rules: Rules, u: Fetch, newer: Record, older: Record)
    requires ChainOf(rules, u, newer).Some? && SamePackage(older, newer)
    ensures var links := ChainOf(rules, u, newer).value;
      Verified(rules, older, LatestPointer) && OnChain(links, older)
      <==> ChainOf(rules, u, older).Some? && IsSuffix(ChainOf(rules, u, older).value, links)
  {
    hide Verified, Walk, Linked, AllFound;
    var links := ChainOf(rules, u, newer).value;
    ChainShape(rules, u, newer);
    if Verified(rules, older, LatestPointer) && OnChain(links, older) {
      var i :| LinkOf(links, i, older);
      SuffixAt(rules, u, newer, older, i);
    }
    if ChainOf(rules, u, older).Some? && IsSuffix(ChainOf(rules, u, older).value, links) {
      ChainShape(rules, u, older);
      var a := ChainOf(rules, u, older).value;
      assert links[|links| - |a|] == a[0];
      assert LinkOf(links, |links| - |a|, older);
    }
  }

  lemma SuffixAt(rules: Rules, u: Fetch, newer: Record, older: Record, i: nat)
    requires ChainOf(rules, u, newer).Some? && SamePackage(older, newer) && Verified(rules, older, LatestPointer)
    requires LinkOf(ChainOf(rules, u, newer).value, i, older)
    ensures ChainOf(rules, u, older) == Some(ChainOf(rules, u, newer).value[i..])
    ensures IsSuffix(ChainOf(rules, u, newer).value[i..], ChainOf(rules, u, newer).value)
  {
    hide Verified;
    var links := ChainOf(rules, u, newer).value;
    WalkSuffix(rules, u, newer.domain, newer.package, newer.recordHash.id, newer.version, true, i);
    WalkShape(rules, u, newer.domain, newer.package, newer.recordHash.id, newer.version, true);
    assert Fits(rules, links[i], NextHash(links, i), newer.domain, newer.package);
  }

  // Heads on one chain at the same version point to the same record.
  lemma OneHashPerVersion(links: seq<Link>, a: Record, b: Record)
    requires Decreasing(links) && OnChain(links, a) && OnChain(links, b) && a.version == b.version
    ensures a.recordHash == b.recordHash
  {
    var i :| LinkOf(links, i, a);
    var j :| LinkOf(links, j, b);
  }

  // ------------------------------------------------------------------ the ancestry check

  // Chains that meet in a record stay in one package: its fields say which.
  lemma SharedLinkSamePackage(rules: Rules, u: Fetch, a: Record, b: Record, i: nat)
    requires ChainOf(rules, u, a).Some? && ChainOf(rules, u, b).Some?
    requires i < |ChainOf(rules, u, b).value| && Canonical(ChainOf(rules, u, b).value[i].hash) == a.recordHash
    ensures SamePackage(a, b) && ChainOf(rules, u, b).value[i].record.version == a.version
  {
    hide Verified, Walk;
    ChainShape(rules, u, a);
    ChainShape(rules, u, b);
    var x, y := ChainOf(rules, u, a).value, ChainOf(rules, u, b).value;
    assert Fits(rules, x[0], NextHash(x, 0), a.domain, a.package);
    assert Fits(rules, y[i], NextHash(y, i), b.domain, b.package);
    assert RecordAt(rules, u, x[0].hash) == Some(x[0].record) && RecordAt(rules, u, y[i].hash) == Some(y[i].record);
  }

  // The comparison of hashes and versions decides exactly whether the current history is a
  // suffix of the new one, whichever package the current head belongs to.
  lemma DecideIsSuffix(rules: Rules, u: Fetch, current: Record, head: Record)
    requires ChainOf(rules, u, current).Some? && ChainOf(rules, u, head).Some?
    ensures var before, after := ChainOf(rules, u, current).value, ChainOf(rules, u, head).value;
      && (Decide(Some(current), head, after) != Refused <==> IsSuffix(before, after))
      && (Decide(Some(current), head, after) == Retransmission <==> before == after)
      && (IsSuffix(before, after) ==> SamePackage(current, head))
  {
    hide ChainOf, Decide, IsSuffix, Linked, AllFound;
    var before, after := ChainOf(rules, u, current).value, ChainOf(rules, u, head).value;
    ChainShape(rules, u, current);
    SuffixRefl(after);
    if Decide(Some(current), head, after) != Refused {
      DecideSound(rules, u, current, head);
    }
    if IsSuffix(before, after) {
      SuffixFirst(before, after);
      SharedLinkSamePackage(rules, u, current, head, |after| - |before|);
      DecideComplete(rules, u, current, head);
    }
  }

  lemma DecideSound(rules: Rules, u: Fetch, current: Record, head: Record)
    requires ChainOf(rules, u, current).Some? && ChainOf(rules, u, head).Some?
    requires Decide(Some(current), head, ChainOf(rules, u, head).value) != Refused
    ensures IsSuffix(ChainOf(rules, u, current).value, ChainOf(rules, u, head).value)
    ensures Decide(Some(current), head, ChainOf(rules, u, head).value) == Retransmission ==>
      ChainOf(rules, u, current) == ChainOf(rules, u, head)
  {
    hide Verified, Walk, Linked, AllFound;
    var after := ChainOf(rules, u, head).value;
    ChainShape(rules, u, head);
    var i: nat := 0;
    if Decide(Some(current), head, after) == Committed {
      i :| 0 <= i < |after| && Canonical(after[i].hash) == current.recordHash;
    }
    SharedLinkSamePackage(rules, u, current, head, i);
    assert LinkOf(after, i, current);
    SuffixAt(rules, u, head, current, i);
  }

  lemma DecideComplete(rules: Rules, u: Fetch, current: Record, head: Record)
    requires ChainOf(rules, u, current).Some? && ChainOf(rules, u, head).Some?
    requires IsSuffix(ChainOf(rules, u, current).value, ChainOf(rules, u, head).value)
    ensures var verdict := Decide(Some(current), head, ChainOf(rules, u, head).value);
      verdict == if ChainOf(rules, u, current) == ChainOf(rules, u, head) then Retransmission else Committed
  {
    hide Verified, Walk, AllFound;
    var before, after := ChainOf(rules, u, current).value, ChainOf(rules, u, head).value;
    ChainShape(rules, u, current);
    ChainShape(rules, u, head);
    var i := |after| - |before|;
    assert after[i] == before[0] && Canonical(after[i].hash) == current.recordHash;
    if i > 0 {
      assert after[0].record.version > after[i].record.version;
    } else {
      assert before == after;
    }
  }
}
