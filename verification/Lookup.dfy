// src/kademlia/lookup.go: the iterative lookup as a loop over a candidate map.
//
// A peer is probed at most once in a lookup, so a function from peers to replies covers every
// behaviour of the network. The order in which replies of a batch arrive is left open, and
// cancellation may strike between any two events.
module Lookup {
  import opened Wrappers
  import opened Ids
  import opened Nearest
  import opened Contacts
  import opened FindRpc

  datatype CandidateState = Unqueried | Pending | Responded | Dropped

  datatype Candidate = Candidate(contact: Peer, state: CandidateState)

  datatype LookupResult =
    | Closest(contacts: seq<Peer>)
    | Value(data: Bytes, source: Peer)
    | NoReachableContacts
    | ValueNotFound
    | Stopped

  // One lookup: the surroundings, the kind, the target and the contacts it starts from.
  // mayStop: during this lookup somebody cancels its context or closes the node.
  datatype Query = Query(env: Env, findValue: bool, target: Id, seeds: seq<Peer>, mayStop: bool)

  ghost predicate Proper(q: Query) {
    q.env.cfg.k >= 1 && q.env.cfg.alpha >= 1
  }

  ghost function OutcomeOf(q: Query, p: Peer): Outcome {
    if q.findValue then ValueOutcome(q.env, q.target, q.env.valueReply(p))
    else NodeOutcome(q.env, q.env.nodeReply(p))
  }

  // ------------------------------------------------------------------ what a lookup has seen

  // Adopt a reported contact unless it is invalid, self, or already a candidate.
  function Adopt(net: Addressing, me: Id, pool: map<Id, Peer>, c: Peer): map<Id, Peer> {
    match Validated(net, Wire(c))
    case None => pool
    case Some(p) => if p.id == me || p.id in pool then pool else pool[p.id := p]
  }

  function AdoptAll(net: Addressing, me: Id, pool: map<Id, Peer>, cs: seq<Peer>): map<Id, Peer> {
    if cs == [] then pool
    else Adopt(net, me, AdoptAll(net, me, pool, cs[..|cs| - 1]), cs[|cs| - 1])
  }

  // The contacts discovered from the seeds and from the replies to `log`, in this order.
  ghost function Pool(q: Query, log: seq<Peer>): map<Id, Peer> {
    if log == [] then AdoptAll(q.env.net, q.env.me, map[], q.seeds)
    else
      var pool := Pool(q, log[..|log| - 1]);
      var o := OutcomeOf(q, log[|log| - 1]);
      if o.Reported? then AdoptAll(q.env.net, q.env.me, pool, o.contacts) else pool
  }

  ghost function Probed(log: seq<Peer>): set<Id> {
    Elems(PeerIds(log))
  }

  ghost function FailedIds(q: Query, log: seq<Peer>): set<Id> {
    set i | 0 <= i < |log| && OutcomeOf(q, log[i]).Failed? :: log[i].id
  }

  // Discovered and not failed: the contacts the shortlist is drawn from.
  ghost function Live(q: Query, log: seq<Peer>): set<Id> {
    Pool(q, log).Keys - FailedIds(q, log)
  }

  // ------------------------------------------------------------------ finitely many identifiers

  ghost function ByteStrings(n: nat): set<seq<Byte>> {
    if n == 0 then {[]} else Extended(ByteStrings(n - 1))
  }

  ghost function Extended(shorter: set<seq<Byte>>): set<seq<Byte>> {
    var bytes := BytesBelow(256);
    set s, b | s in shorter && b in bytes :: s + [b]
  }

  ghost function BytesBelow(n: nat): (r: set<Byte>)
    requires n <= 256
    ensures forall b: Byte :: (b as nat) < n ==> b in r
  {
    if n == 0 then {} else BytesBelow(n - 1) + {(n - 1) as Byte}
  }

  lemma ExtendedHas(shorter: set<seq<Byte>>, s: seq<Byte>, b: Byte)
    requires s in shorter
    ensures s + [b] in Extended(shorter)
  {
    assert b in BytesBelow(256);
  }

  lemma {:induction false} ByteStringsComplete(s: seq<Byte>, n: nat)
    requires |s| == n
    ensures s in ByteStrings(n)
  {
    hide Extended, BytesBelow;
    if n > 0 {
      var t, b := s[..n - 1], s[n - 1];
      ByteStringsComplete(t, n - 1);
      var shorter := ByteStrings(n - 1);
      ExtendedHas(shorter, t, b);
      assert s == t + [b];
      assert ByteStrings(n) == Extended(shorter);
    } else {
      assert s == [];
    }
  }

  ghost function Unsettled(candidates: map<Id, Candidate>): set<seq<Byte>> {
    ByteStrings(ID_LENGTH) - (set id | id in candidates && (candidates[id].state.Responded? || candidates[id].state.Dropped?))
  }

  // ------------------------------------------------------------------ the loop's parts

  ghost function Contacted(candidates: map<Id, Candidate>): map<Id, Peer> {
    map id | id in candidates :: candidates[id].contact
  }

  ghost predicate Keyed(candidates: map<Id, Candidate>) {
    forall id :: id in candidates ==> candidates[id].contact.id == id
  }

  method Add(net: Addressing, me: Id, candidates: map<Id, Candidate>, c: Peer) returns (r: map<Id, Candidate>)
    requires Keyed(candidates)
    ensures Keyed(r)
    ensures Contacted(r) == Adopt(net, me, Contacted(candidates), c)
    ensures forall id :: id in candidates ==> id in r && r[id] == candidates[id]
    ensures forall id :: id in r && id !in candidates ==> r[id].state == Unqueried
  {
    var contact := Validated(net, Wire(c));
    if contact.None? {
      return candidates;
    }
    var self := Equals(contact.value.id, me);
    if self || contact.value.id in candidates {
      return candidates;
    }
    r := candidates[contact.value.id := Candidate(contact.value, Unqueried)];
  }

  method AddEach(net: Addressing, me: Id, candidates: map<Id, Candidate>, cs: seq<Peer>) returns (r: map<Id, Candidate>)
    requires Keyed(candidates)
    ensures Keyed(r)
    ensures Contacted(r) == AdoptAll(net, me, Contacted(candidates), cs)
    ensures forall id :: id in candidates ==> id in r && r[id] == candidates[id]
    ensures forall id :: id in r && id !in candidates ==> r[id].state == Unqueried
  {
    r := candidates;
    for i := 0 to |cs|
      invariant Keyed(r)
      invariant Contacted(r) == AdoptAll(net, me, Contacted(candidates), cs[..i])
      invariant forall id :: id in candidates ==> id in r && r[id] == candidates[id]
      invariant forall id :: id in r && id !in candidates ==> r[id].state == Unqueried
    {
      r := Add(net, me, r, cs[i]);
      assert cs[..i + 1][..i] == cs[..i];
    }
    assert cs[..|cs|] == cs;
  }

  ghost function Standing(candidates: map<Id, Candidate>): set<Id> {
    set id | id in candidates && !candidates[id].state.Dropped?
  }

  // The K closest candidates that have not failed.
  method Shortlist(candidates: map<Id, Candidate>, target: Id, k: nat) returns (r: seq<Peer>)
    requires Keyed(candidates)
    ensures IsNearestList(PeerIds(r), Standing(candidates), target, k)
    ensures Distinct(r)
    ensures forall p :: p in r ==> p.id in candidates && candidates[p.id].contact == p && !candidates[p.id].state.Dropped?
  {
    var remaining := candidates.Keys;
    var standing: seq<Peer> := [];
    while remaining != {}
      invariant remaining <= candidates.Keys
      invariant Distinct(standing)
      invariant Elems(PeerIds(standing)) == Standing(candidates) - remaining
      invariant forall p :: p in standing ==> p.id in candidates && candidates[p.id].contact == p && p.id !in remaining
    {
      var id :| id in remaining;
      if !candidates[id].state.Dropped? {
        assert PeerIds(standing + [candidates[id].contact]) == PeerIds(standing) + [id];
        assert forall i :: 0 <= i < |standing| ==> standing[i] in standing;
        assert Elems(PeerIds(standing) + [id]) == Elems(PeerIds(standing)) + {id};
        standing := standing + [candidates[id].contact];
      }
      assert Standing(candidates) - (remaining - {id}) ==
        Standing(candidates) - remaining + (if candidates[id].state.Dropped? then {} else {id});
      remaining := remaining - {id};
    }
    assert Standing(candidates) - remaining == Standing(candidates);
    r := ClosestPrefix(standing, target, k);
    forall p | p in r ensures !candidates[p.id].state.Dropped? {
      var i :| 0 <= i < |standing| && standing[i] == p;
      assert PeerIds(standing)[i] == p.id;
      assert p.id in Elems(PeerIds(standing));
    }
    ListDistinct(r, target);
  }

  lemma ListDistinct(r: seq<Peer>, target: Id)
    requires Ordered(PeerIds(r), target)
    ensures Distinct(r)
  {
    forall i, j | 0 <= i < j < |r| ensures r[i].id != r[j].id {
      assert Dist(PeerIds(r)[i], target) < Dist(PeerIds(r)[j], target);
    }
  }

  function WithPending(candidates: map<Id, Candidate>, batch: seq<Peer>): map<Id, Candidate> {
    map id | id in candidates :: if id in PeerIds(batch) then candidates[id].(state := Pending) else candidates[id]
  }

  lemma MarkOne(candidates: map<Id, Candidate>, batch: seq<Peer>, p: Peer)
    requires p.id in candidates
    ensures WithPending(candidates, batch)[p.id := candidates[p.id].(state := Pending)] == WithPending(candidates, batch + [p])
    ensures p.id !in PeerIds(batch) ==> WithPending(candidates, batch)[p.id] == candidates[p.id]
  {
    assert PeerIds(batch + [p]) == PeerIds(batch) + [p.id];
  }

  // Mark up to alpha unqueried members of the shortlist as pending, nearest first.
  method TakeBatch(candidates: map<Id, Candidate>, shortlist: seq<Peer>, alpha: nat)
    returns (r: map<Id, Candidate>, batch: seq<Peer>)
    requires Keyed(candidates) && Distinct(shortlist) && alpha >= 1
    requires forall p :: p in shortlist ==> p.id in candidates && candidates[p.id].contact == p
    ensures Distinct(batch) && |batch| <= alpha
    ensures forall p :: p in batch ==> p in shortlist && candidates[p.id].state.Unqueried?
    ensures |batch| < alpha ==> forall p :: p in shortlist && candidates[p.id].state.Unqueried? ==> p in batch
    ensures forall i, j :: 0 <= i < j < |shortlist| && shortlist[j] in batch && candidates[shortlist[i].id].state.Unqueried? ==>
      shortlist[i] in batch
    ensures r == WithPending(candidates, batch)
  {
    hide Dist;
    r, batch := candidates, [];
    assert WithPending(candidates, batch) == candidates;
    hide WithPending;
    for i := 0 to |shortlist|
      invariant Distinct(batch) && |batch| < alpha
      invariant forall p :: p in batch ==> p in shortlist[..i] && candidates[p.id].state.Unqueried?
      invariant forall p :: p in shortlist[..i] && candidates[p.id].state.Unqueried? ==> p in batch
      invariant r == WithPending(candidates, batch)
    {
      var p := shortlist[i];
      assert shortlist[..i + 1] == shortlist[..i] + [p];
      forall j | 0 <= j < |batch| ensures batch[j].id != p.id {
        assert batch[j] in shortlist[..i];
      }
      MarkOne(candidates, batch, p);
      if r[p.id].state.Unqueried? {
        r := r[p.id := r[p.id].(state := Pending)];
        batch := batch + [p];
        if |batch| == alpha {
          FirstTaken(candidates, shortlist, i + 1, batch);
          return;
        }
      }
    }
    assert shortlist[..|shortlist|] == shortlist;
  }

  lemma FirstTaken(candidates: map<Id, Candidate>, shortlist: seq<Peer>, n: nat, batch: seq<Peer>)
    requires n <= |shortlist| && Distinct(shortlist) && forall p :: p in shortlist ==> p.id in candidates
    requires forall p :: p in batch ==> p in shortlist[..n]
    requires forall p :: p in shortlist[..n] && candidates[p.id].state.Unqueried? ==> p in batch
    ensures forall i, j :: 0 <= i < j < |shortlist| && shortlist[j] in batch && candidates[shortlist[i].id].state.Unqueried? ==>
      shortlist[i] in batch
  {
    forall i, j | 0 <= i < j < |shortlist| && shortlist[j] in batch && candidates[shortlist[i].id].state.Unqueried?
      ensures shortlist[i] in batch
    {
      var m :| 0 <= m < n && shortlist[m] == shortlist[j];
      assert shortlist[i] in shortlist[..n];
    }
  }

  // The unqueried members of a shortlist.
  ghost function Untried(candidates: map<Id, Candidate>, shortlist: seq<Peer>): set<Id> {
    set id | id in PeerIds(shortlist) && id in candidates && candidates[id].state.Unqueried?
  }

  // A batch is the alpha nearest of them.
  lemma BatchIsNearest(candidates: map<Id, Candidate>, shortlist: seq<Peer>, batch: seq<Peer>, target: Id, alpha: nat)
    requires Ordered(PeerIds(shortlist), target) && Distinct(batch) && |batch| <= alpha
    requires forall p :: p in shortlist ==> p.id in candidates
    requires forall p :: p in batch ==> p in shortlist && candidates[p.id].state.Unqueried?
    requires |batch| < alpha ==> forall p :: p in shortlist && candidates[p.id].state.Unqueried? ==> p in batch
    requires forall i, j :: 0 <= i < j < |shortlist| && shortlist[j] in batch && candidates[shortlist[i].id].state.Unqueried? ==>
      shortlist[i] in batch
    ensures Elems(PeerIds(batch)) == Top(Untried(candidates, shortlist), target, alpha)
  {
    hide Dist, Top;
    var taken, untried := Elems(PeerIds(batch)), Untried(candidates, shortlist);
    DistinctCard(batch);
    forall id | id in taken ensures id in untried {
      var i := IndexIn(batch, id);
      assert batch[i] in batch && batch[i] in shortlist;
      var j :| 0 <= j < |shortlist| && shortlist[j] == batch[i];
      assert PeerIds(shortlist)[j] == id;
    }
    forall x | x in untried && |batch| < alpha ensures x in taken {
      var j := IndexIn(shortlist, x);
      assert shortlist[j] in shortlist;
      var i :| 0 <= i < |batch| && batch[i] == shortlist[j];
      assert PeerIds(batch)[i] == x;
    }
    forall x, y | x in taken && y in untried - taken ensures Dist(x, target) < Dist(y, target) {
      TakenIsNearer(candidates, shortlist, batch, target, x, y);
    }
    NearestPart(taken, untried, target, alpha);
  }

  lemma IndexIn(ps: seq<Peer>, id: Id) returns (i: nat)
    requires id in PeerIds(ps)
    ensures i < |ps| && ps[i].id == id
  {
    i :| 0 <= i < |ps| && PeerIds(ps)[i] == id;
  }

  lemma TakenIsNearer(
    candidates: map<Id, Candidate>, shortlist: seq<Peer>, batch: seq<Peer>, target: Id, x: Id, y: Id)
    requires Ordered(PeerIds(shortlist), target)
    requires forall p :: p in shortlist ==> p.id in candidates
    requires forall p :: p in batch ==> p in shortlist
    requires forall i, j :: 0 <= i < j < |shortlist| && shortlist[j] in batch && candidates[shortlist[i].id].state.Unqueried? ==>
      shortlist[i] in batch
    requires x in PeerIds(batch) && y in Untried(candidates, shortlist) && y !in PeerIds(batch)
    ensures Dist(x, target) < Dist(y, target)
  {
    hide Dist;
    var b := IndexIn(batch, x);
    assert batch[b] in batch;
    var i :| 0 <= i < |shortlist| && shortlist[i] == batch[b];
    var j := IndexIn(shortlist, y);
    assert shortlist[j] in shortlist;
    forall m | 0 <= m < |batch| ensures batch[m] != shortlist[j] {
      assert PeerIds(batch)[m] == batch[m].id;
    }
    assert PeerIds(shortlist)[i] == x && PeerIds(shortlist)[j] == y;
  }

  // ------------------------------------------------------------------ the candidate map as a record of the log

  // Every probed contact was a candidate when it was probed.
  ghost predicate Traced(q: Query, log: seq<Peer>) {
    && Distinct(log)
    && forall i :: 0 <= i < |log| ==>
      log[i].id in Pool(q, log[..i]) && Pool(q, log[..i])[log[i].id] == log[i]
  }

  // The candidates are the pool of the log; their states say who is outstanding, failed and answered.
  ghost predicate Consistent(q: Query, candidates: map<Id, Candidate>, log: seq<Peer>, outstanding: set<Id>) {
    && Keyed(candidates)
    && Contacted(candidates) == Pool(q, log)
    && Traced(q, log)
    && Probed(log) <= candidates.Keys
    && outstanding <= candidates.Keys - Probed(log)
    && forall id :: id in candidates ==>
      candidates[id].state == if id in outstanding then Pending
                              else if id in FailedIds(q, log) then Dropped
                              else if id in Probed(log) then Responded
                              else Unqueried
  }

  lemma {:induction false} AdoptAllKeeps(net: Addressing, me: Id, pool: map<Id, Peer>, cs: seq<Peer>)
    ensures forall id :: id in pool ==> id in AdoptAll(net, me, pool, cs) && AdoptAll(net, me, pool, cs)[id] == pool[id]
  {
    if cs != [] {
      AdoptAllKeeps(net, me, pool, cs[..|cs| - 1]);
    }
  }

  lemma FailedIdsStep(q: Query, log: seq<Peer>, p: Peer)
    ensures FailedIds(q, log + [p]) == FailedIds(q, log) + (if OutcomeOf(q, p).Failed? then {p.id} else {})
    ensures Probed(log + [p]) == Probed(log) + {p.id}
  {
    var more := log + [p];
    assert PeerIds(more) == PeerIds(log) + [p.id];
    forall id | id in FailedIds(q, log) ensures id in FailedIds(q, more) {
      var i :| 0 <= i < |log| && OutcomeOf(q, log[i]).Failed? && log[i].id == id;
      assert more[i] == log[i];
    }
    if OutcomeOf(q, p).Failed? {
      assert more[|log|] == p;
    }
  }

  lemma TracedStep(q: Query, log: seq<Peer>, p: Peer)
    requires Traced(q, log) && p.id !in Probed(log)
    requires p.id in Pool(q, log) && Pool(q, log)[p.id] == p
    ensures Traced(q, log + [p])
  {
    hide Dist, Pool;
    var more := log + [p];
    forall i, j | 0 <= i < j < |more| ensures more[i].id != more[j].id {
      assert PeerIds(log)[i] == log[i].id;
    }
    forall i | 0 <= i < |more|
      ensures more[i].id in Pool(q, more[..i]) && Pool(q, more[..i])[more[i].id] == more[i]
    {
      assert more[..i] == log[..i];
      if i == |log| {
        assert log[..i] == log;
      }
    }
  }

  // One reply moves one candidate from outstanding to settled and appends it to the log.
  lemma Settled(
    q: Query, before: map<Id, Candidate>, after: map<Id, Candidate>, log: seq<Peer>, outstanding: set<Id>, p: Peer)
    requires Consistent(q, before, log, outstanding) && p.id in outstanding && before[p.id].contact == p
    requires Keyed(after) && before.Keys <= after.Keys
    requires Contacted(after) == if OutcomeOf(q, p).Reported?
      then AdoptAll(q.env.net, q.env.me, Contacted(before), OutcomeOf(q, p).contacts) else Contacted(before)
    requires after[p.id].state == if OutcomeOf(q, p).Failed? then Dropped else Responded
    requires forall id :: id in before && id != p.id ==> after[id].state == before[id].state
    requires forall id :: id in after && id !in before ==> after[id].state == Unqueried
    ensures Consistent(q, after, log + [p], outstanding - {p.id})
  {
    hide Dist, Traced, OutcomeOf;
    FailedIdsStep(q, log, p);
    assert Contacted(before)[p.id] == p;
    TracedStep(q, log, p);
    assert (log + [p])[..|log|] == log;
  }

  // ------------------------------------------------------------------ results

  // The K closest discovered contacts that did not fail, all of which have answered.
  ghost predicate Fixpoint(q: Query, cs: seq<Peer>, log: seq<Peer>) {
    && cs != []
    && IsNearestList(PeerIds(cs), Live(q, log), q.target, q.env.cfg.k)
    && forall p :: p in cs ==> p in log && OutcomeOf(q, p).Reported?
  }

  ghost predicate NothingFound(q: Query, log: seq<Peer>) {
    forall p :: p in log ==> !OutcomeOf(q, p).Found?
  }

  ghost predicate Concluded(q: Query, r: LookupResult, log: seq<Peer>) {
    match r
    case Closest(cs) => !q.findValue && Traced(q, log) && Fixpoint(q, cs, log)
    case NoReachableContacts => Traced(q, log) && Live(q, log) == {} && NothingFound(q, log)
    case ValueNotFound =>
      q.findValue && Traced(q, log) && NothingFound(q, log) && exists cs :: Fixpoint(q, cs, log)
    case Value(data, source) =>
      && q.findValue && OutcomeOf(q, source) == Found(data)
      && Traced(q, log) && NothingFound(q, log)
      && source.id in Pool(q, log) && Pool(q, log)[source.id] == source
    case Stopped => q.mayStop
  }

  // Rounds are batches of 1 to alpha probes. Each asks the alpha nearest contacts not yet asked
  // among the K closest live ones known when it began, and no other.
  ghost predicate Paced(q: Query, log: seq<Peer>, rounds: seq<nat>) {
    && |rounds| >= 1 && rounds[0] == 0 && rounds[|rounds| - 1] == |log|
    && (forall i :: 0 <= i < |rounds| ==> rounds[i] <= |log|)
    && (forall i :: 0 <= i < |rounds| - 1 ==> rounds[i] < rounds[i + 1] <= rounds[i] + q.env.cfg.alpha)
    && (forall i :: 0 <= i < |rounds| - 1 ==> Chosen(q, log[..rounds[i]], log[rounds[i]..rounds[i + 1]]))
  }

  ghost predicate Chosen(q: Query, before: seq<Peer>, batch: seq<Peer>) {
    Elems(PeerIds(batch)) == Top(Top(Live(q, before), q.target, q.env.cfg.k) - Probed(before), q.target, q.env.cfg.alpha)
  }

  lemma PacedStep(q: Query, log: seq<Peer>, rounds: seq<nat>, more: seq<Peer>)
    requires Paced(q, log, rounds)
    requires |log| < |more| <= |log| + q.env.cfg.alpha && more[..|log|] == log
    requires Chosen(q, log, more[|log|..])
    ensures Paced(q, more, rounds + [|more|])
  {
    hide Chosen;
    var next := rounds + [|more|];
    assert log[..|log|] == log;
    forall i | 0 <= i < |next| - 1 ensures Chosen(q, more[..next[i]], more[next[i]..next[i + 1]]) {
      if i < |rounds| - 1 {
        SlicesOfPrefix(more, |log|, rounds[i], rounds[i + 1]);
      } else {
        SlicesOfPrefix(more, |log|, |log|, |log|);
      }
    }
  }

  lemma SlicesOfPrefix(more: seq<Peer>, n: nat, a: nat, b: nat)
    requires a <= b <= n <= |more|
    ensures more[..a] == more[..n][..a] && more[a..b] == more[..n][a..b] && more[n..|more|] == more[n..]
  {
  }

  ghost predicate Answered(candidates: map<Id, Candidate>, p: Peer) {
    p.id in candidates && candidates[p.id] == Candidate(p, Responded)
  }

  // At the head of the loop nothing is pending, and the states tell the live contacts.
  lemma HeadFacts(q: Query, candidates: map<Id, Candidate>, log: seq<Peer>)
    requires Consistent(q, candidates, log, {})
    ensures Standing(candidates) == Live(q, log)
    ensures forall p :: Answered(candidates, p) ==> p in log && !OutcomeOf(q, p).Failed?
  {
    hide Dist, OutcomeOf;
    assert Contacted(candidates).Keys == candidates.Keys;
    forall p | Answered(candidates, p) ensures p in log && !OutcomeOf(q, p).Failed? {
      assert p.id in Probed(log);
      var i :| 0 <= i < |log| && PeerIds(log)[i] == p.id;
      LogIsPool(q, log, i);
    }
  }

  lemma {:induction false} PoolGrows(q: Query, log: seq<Peer>, i: nat)
    requires i <= |log|
    ensures forall id :: id in Pool(q, log[..i]) ==> id in Pool(q, log) && Pool(q, log)[id] == Pool(q, log[..i])[id]
    decreases |log|
  {
    if i == |log| {
      assert log[..i] == log;
    } else {
      var n := |log| - 1;
      PoolGrows(q, log[..n], i);
      assert log[..n][..i] == log[..i];
      var o := OutcomeOf(q, log[n]);
      if o.Reported? {
        AdoptAllKeeps(q.env.net, q.env.me, Pool(q, log[..n]), o.contacts);
      }
    }
  }

  // A probed contact is the pool's contact of that identifier.
  lemma LogIsPool(q: Query, log: seq<Peer>, i: nat)
    requires Traced(q, log) && i < |log|
    ensures log[i].id in Pool(q, log) && Pool(q, log)[log[i].id] == log[i]
  {
    PoolGrows(q, log, i);
  }

  lemma {:induction false} AdoptAllFacts(net: Addressing, me: Id, pool: map<Id, Peer>, cs: seq<Peer>)
    requires me !in pool
    ensures me !in AdoptAll(net, me, pool, cs)
    ensures forall c :: c in cs && Validated(net, Wire(c)).Some? && c.id != me ==> c.id in AdoptAll(net, me, pool, cs)
  {
    if cs != [] {
      var n := |cs| - 1;
      AdoptAllFacts(net, me, pool, cs[..n]);
      assert forall c :: c in cs ==> c in cs[..n] || c == cs[n];
    }
  }

  // Self is never discovered; every other contact a responder reports is.
  lemma {:induction false} PoolFacts(q: Query, log: seq<Peer>)
    ensures q.env.me !in Pool(q, log)
    ensures forall p, c :: p in log && Reports(q, p, c) ==> c.id in Pool(q, log)
    ensures forall c :: c in q.seeds && Validated(q.env.net, Wire(c)).Some? && c.id != q.env.me ==> c.id in Pool(q, log)
    decreases |log|
  {
    if log == [] {
      AdoptAllFacts(q.env.net, q.env.me, map[], q.seeds);
    } else {
      var n := |log| - 1;
      PoolFacts(q, log[..n]);
      PoolGrows(q, log, n);
      assert log == log[..n] + [log[n]];
      var o := OutcomeOf(q, log[n]);
      if o.Reported? {
        AdoptAllFacts(q.env.net, q.env.me, Pool(q, log[..n]), o.contacts);
      }
    }
  }

  ghost predicate Reports(q: Query, p: Peer, c: Peer) {
    && OutcomeOf(q, p).Reported? && c in OutcomeOf(q, p).contacts
    && Validated(q.env.net, Wire(c)).Some? && c.id != q.env.me
  }

  // For arbitrary replies and failures: the result is a list of distinct responders without self,
  // nearest first, and every contact any responder reported is in it, has failed, or is farther
  // than all of its K members.
  lemma ResultCovers(q: Query, cs: seq<Peer>, log: seq<Peer>, p: Peer, c: Peer)
    requires Traced(q, log) && Fixpoint(q, cs, log)
    requires p in log && Reports(q, p, c)
    ensures Distinct(cs) && q.env.me !in PeerIds(cs)
    ensures |cs| == Min(q.env.cfg.k, |Live(q, log)|)
    ensures c.id in PeerIds(cs) || c.id in FailedIds(q, log)
      || (|cs| == q.env.cfg.k && forall x :: x in PeerIds(cs) ==> Dist(x, q.target) < Dist(c.id, q.target))
  {
    hide Dist, Traced, OutcomeOf, FailedIds;
    ListDistinct(cs, q.target);
    PoolFacts(q, log);
    assert c.id in Pool(q, log) && q.env.me !in Pool(q, log);
    hide Pool, Reports;
    NearestListSize(PeerIds(cs), Live(q, log), q.target, q.env.cfg.k);
    assert q.env.me !in Elems(PeerIds(cs));
    if c.id in Live(q, log) && c.id !in PeerIds(cs) {
      LeftOut(Live(q, log), q.target, q.env.cfg.k, c.id);
      OrderedCard(PeerIds(cs), q.target);
      assert forall x :: x in PeerIds(cs) ==> x in Elems(PeerIds(cs));
    }
  }

  // ------------------------------------------------------------------ the loop

  lemma Begin(q: Query, candidates: map<Id, Candidate>)
    requires Keyed(candidates) && Contacted(candidates) == AdoptAll(q.env.net, q.env.me, map[], q.seeds)
    requires forall id :: id in candidates ==> candidates[id].state.Unqueried?
    ensures Consistent(q, candidates, [], {})
    ensures Paced(q, [], [0]) && NothingFound(q, []) && Distinct([])
  {
    assert FailedIds(q, []) == {};
  }

  lemma StoppedConcludes(q: Query, log: seq<Peer>)
    requires q.mayStop
    ensures Concluded(q, Stopped, log)
  {
  }

  lemma NothingLive(q: Query, candidates: map<Id, Candidate>, shortlist: seq<Peer>, log: seq<Peer>)
    requires q.env.cfg.k >= 1 && shortlist == []
    requires IsNearestList(PeerIds(shortlist), Standing(candidates), q.target, q.env.cfg.k)
    requires Consistent(q, candidates, log, {}) && NothingFound(q, log)
    ensures Concluded(q, NoReachableContacts, log)
  {
    HeadFacts(q, candidates, log);
    assert Elems(PeerIds(shortlist)) == {};
    TopSize(Live(q, log), q.target, q.env.cfg.k);
  }

  // A shortlist without unqueried members has answered completely.
  lemma AllAnswered(q: Query, candidates: map<Id, Candidate>, shortlist: seq<Peer>, log: seq<Peer>)
    requires Consistent(q, candidates, log, {}) && shortlist != [] && NothingFound(q, log)
    requires IsNearestList(PeerIds(shortlist), Standing(candidates), q.target, q.env.cfg.k)
    requires forall p :: p in shortlist ==> p.id in candidates && candidates[p.id].contact == p
    requires forall p :: p in shortlist ==> !candidates[p.id].state.Dropped? && !candidates[p.id].state.Unqueried?
    ensures Concluded(q, if q.findValue then ValueNotFound else Closest(shortlist), log)
  {
    HeadFacts(q, candidates, log);
    forall p | p in shortlist ensures Answered(candidates, p) {
    }
    assert Fixpoint(q, shortlist, log);
  }

  lemma BatchPending(
    q: Query, candidates: map<Id, Candidate>, pending: map<Id, Candidate>, batch: seq<Peer>, log: seq<Peer>)
    requires Consistent(q, candidates, log, {})
    requires forall p :: p in batch ==> p.id in candidates && candidates[p.id].state.Unqueried?
    requires pending == WithPending(candidates, batch)
    ensures Keyed(pending) && Consistent(q, pending, log, Elems(PeerIds(batch)))
  {
    hide Dist, Pool, FailedIds, Traced;
    assert Contacted(pending) == Contacted(candidates);
    forall id | id in PeerIds(batch) ensures id in candidates && candidates[id].state.Unqueried? {
      var i :| 0 <= i < |batch| && PeerIds(batch)[i] == id;
      assert batch[i] in batch;
    }
  }

  // A round settles its whole batch and unsettles nobody.
  lemma RoundSettles(
    round: map<Id, Candidate>, pending: map<Id, Candidate>, after: map<Id, Candidate>, batch: seq<Peer>)
    requires batch != []
    requires forall p :: p in batch ==> p.id in round && round[p.id].state.Unqueried?
    requires pending == WithPending(round, batch)
    requires pending.Keys <= after.Keys
    requires forall id :: id in pending && id !in PeerIds(batch) ==> after[id].state == pending[id].state
    requires forall id :: id in PeerIds(batch) && id in after ==> IsSettled(after[id].state)
    ensures Unsettled(after) < Unsettled(round)
  {
    hide Dist, ByteStrings;
    var id := batch[0].id;
    assert batch[0] in batch && PeerIds(batch)[0] == id;
    ByteStringsComplete(id, ID_LENGTH);
    forall x | x in round && (round[x].state.Responded? || round[x].state.Dropped?)
      ensures x in after && (after[x].state.Responded? || after[x].state.Dropped?)
    {
      assert x in pending;
      if x !in PeerIds(batch) {
        assert pending[x] == round[x];
      }
    }
    assert id in Unsettled(round) && id !in Unsettled(after);
  }

  lemma PacedRound(
    q: Query, candidates: map<Id, Candidate>, log: seq<Peer>, rounds: seq<nat>, more: seq<Peer>, shortlist: seq<Peer>,
    batch: seq<Peer>)
    requires Paced(q, log, rounds) && AskedSome(log, batch, {}, more) && Consistent(q, candidates, log, {})
    requires IsNearestList(PeerIds(shortlist), Live(q, log), q.target, q.env.cfg.k)
    requires Distinct(batch) && 0 < |batch| <= q.env.cfg.alpha
    requires Elems(PeerIds(batch)) == Top(Untried(candidates, shortlist), q.target, q.env.cfg.alpha)
    ensures Paced(q, more, rounds + [|more|]) && Distinct(more) && log <= more
    ensures |rounds| >= 1 && rounds[|rounds| - 1] == |log| && more[..|log|] == log
  {
    hide Dist, Top, Live, Untried, Consistent;
    AskedWhole(log, batch, more);
    UntriedIsUnprobed(q, candidates, log, shortlist);
    PacedStep(q, log, rounds, more);
  }

  // A drained batch has been asked completely.
  lemma AskedWhole(before: seq<Peer>, batch: seq<Peer>, asked: seq<Peer>)
    requires AskedSome(before, batch, {}, asked) && Distinct(batch)
    ensures |before| <= |asked| && Elems(PeerIds(asked[|before|..])) == Elems(PeerIds(batch))
  {
    var part := asked[|before|..];
    assert Distinct(part);
    DistinctCard(part);
    DistinctCard(batch);
    forall id | id in PeerIds(part) ensures id in PeerIds(batch) {
      var i := IndexIn(part, id);
      assert part[i] == asked[|before| + i];
      var j :| 0 <= j < |batch| && batch[j] == part[i];
      assert PeerIds(batch)[j] == id;
    }
    SubsetFull(Elems(PeerIds(part)), Elems(PeerIds(batch)));
  }

  lemma SubsetFull<T>(a: set<T>, b: set<T>)
    requires a <= b && |a| == |b|
    ensures a == b
  {
    if x :| x in b && x !in a {
      SubsetCard(a, b - {x});
      assert false;
    }
  }

  // At the head of the loop the unqueried candidates of a shortlist are those not yet probed.
  lemma UntriedIsUnprobed(q: Query, candidates: map<Id, Candidate>, log: seq<Peer>, shortlist: seq<Peer>)
    requires Consistent(q, candidates, log, {})
    requires IsNearestList(PeerIds(shortlist), Live(q, log), q.target, q.env.cfg.k)
    ensures Untried(candidates, shortlist) == Top(Live(q, log), q.target, q.env.cfg.k) - Probed(log)
  {
    hide Dist, Pool, Traced;
    FailedAreProbed(q, log);
    assert Contacted(candidates).Keys == candidates.Keys;
    forall id ensures id in Untried(candidates, shortlist) <==>
      id in Top(Live(q, log), q.target, q.env.cfg.k) - Probed(log)
    {
      assert id in PeerIds(shortlist) <==> id in Elems(PeerIds(shortlist));
    }
  }

  lemma FailedAreProbed(q: Query, log: seq<Peer>)
    ensures FailedIds(q, log) <= Probed(log)
  {
    forall id | id in FailedIds(q, log) ensures id in Probed(log) {
      var i :| 0 <= i < |log| && OutcomeOf(q, log[i]).Failed? && log[i].id == id;
      assert PeerIds(log)[i] == id;
    }
  }

  method Ask(q: Query, p: Peer, ghost asked: seq<Peer>) returns (o: Outcome, ghost more: seq<Peer>)
    ensures o == OutcomeOf(q, p) && more == asked + [p]
    ensures o.Found? ==> q.findValue
  {
    more := asked + [p];
    if q.findValue {
      o := SendFindDataMessage(q.env, p, q.target);
    } else {
      o := SendFindContactMessage(q.env, p);
    }
  }

  // One reply: a failure drops the candidate, anything else settles it and adopts its contacts.
  method Settle(q: Query, candidates: map<Id, Candidate>, id: Id, o: Outcome) returns (r: map<Id, Candidate>)
    requires Keyed(candidates) && id in candidates
    ensures Keyed(r) && candidates.Keys <= r.Keys
    ensures Contacted(r) == if o.Reported?
      then AdoptAll(q.env.net, q.env.me, Contacted(candidates), o.contacts) else Contacted(candidates)
    ensures r[id].state == if o.Failed? then Dropped else Responded
    ensures forall x :: x in candidates && x != id ==> r[x].state == candidates[x].state
    ensures forall x :: x in candidates ==> r[x].contact == candidates[x].contact
    ensures forall x :: x in r && x !in candidates ==> r[x].state == Unqueried
  {
    if o.Failed? {
      r := candidates[id := candidates[id].(state := Dropped)];
      assert Contacted(r) == Contacted(candidates);
      return;
    }
    r := candidates[id := candidates[id].(state := Responded)];
    assert Contacted(r) == Contacted(candidates);
    if o.Reported? {
      r := AddEach(q.env.net, q.env.me, r, o.contacts);
    }
  }

  // The log has grown from `before` by the members of the batch that are no longer outstanding.
  ghost predicate Draining(
    q: Query, candidates: map<Id, Candidate>, batch: seq<Peer>, outstanding: set<Id>, before: seq<Peer>, log: seq<Peer>)
  {
    && Consistent(q, candidates, log, outstanding)
    && NothingFound(q, log)
    && |log| + |outstanding| == |before| + |batch|
    && |before| <= |log| && log[..|before|] == before
    && forall j :: |before| <= j < |log| ==> log[j] in batch
  }

  lemma DrainStart(q: Query, start: map<Id, Candidate>, batch: seq<Peer>, before: seq<Peer>)
    requires Distinct(batch) && Consistent(q, start, before, Elems(PeerIds(batch))) && NothingFound(q, before)
    ensures Draining(q, start, batch, Elems(PeerIds(batch)), before, before)
  {
    hide Consistent, NothingFound, Distinct;
    assert before[..|before|] == before;
    DistinctCard(batch);
  }

  lemma DrainStep(
    q: Query, candidates: map<Id, Candidate>, after: map<Id, Candidate>, batch: seq<Peer>, outstanding: set<Id>,
    before: seq<Peer>, log: seq<Peer>, p: Peer)
    requires Draining(q, candidates, batch, outstanding, before, log)
    requires p in batch && p.id in outstanding && p.id in candidates && candidates[p.id].contact == p
    requires !OutcomeOf(q, p).Found?
    requires Keyed(after) && candidates.Keys <= after.Keys
    requires Contacted(after) == if OutcomeOf(q, p).Reported?
      then AdoptAll(q.env.net, q.env.me, Contacted(candidates), OutcomeOf(q, p).contacts) else Contacted(candidates)
    requires after[p.id].state == if OutcomeOf(q, p).Failed? then Dropped else Responded
    requires forall id :: id in candidates && id != p.id ==> after[id].state == candidates[id].state
    requires forall id :: id in after && id !in candidates ==> after[id].state == Unqueried
    ensures Draining(q, after, batch, outstanding - {p.id}, before, log + [p])
  {
    hide Dist, Consistent, Traced, OutcomeOf, Contacted;
    Settled(q, candidates, after, log, outstanding, p);
    assert (log + [p])[..|before|] == log[..|before|];
  }

  // Part of the batch is settled; nothing else has changed its state, no contact is replaced.
  ghost predicate Drained(
    start: map<Id, Candidate>, candidates: map<Id, Candidate>, batch: seq<Peer>, outstanding: set<Id>)
  {
    && Keyed(candidates) && start.Keys <= candidates.Keys && outstanding <= Elems(PeerIds(batch))
    && (forall id :: id in start ==> candidates[id].contact == start[id].contact)
    && (forall id :: id in start && (id !in PeerIds(batch) || id in outstanding) ==> candidates[id].state == start[id].state)
    && (forall id :: id in PeerIds(batch) && id !in outstanding ==> id in candidates && IsSettled(candidates[id].state))
  }

  predicate IsSettled(state: CandidateState) {
    state.Responded? || state.Dropped?
  }

  lemma DrainedStep(
    start: map<Id, Candidate>, candidates: map<Id, Candidate>, after: map<Id, Candidate>, batch: seq<Peer>,
    outstanding: set<Id>, id: Id)
    requires Drained(start, candidates, batch, outstanding) && id in outstanding && id in candidates
    requires Keyed(after) && candidates.Keys <= after.Keys && IsSettled(after[id].state)
    requires forall x :: x in candidates && x != id ==> after[x].state == candidates[x].state
    requires forall x :: x in candidates ==> after[x].contact == candidates[x].contact
    ensures Drained(start, after, batch, outstanding - {id})
  {
  }

  // The peers asked so far: those before the round, then members of the batch, each once.
  ghost predicate AskedSome(before: seq<Peer>, batch: seq<Peer>, outstanding: set<Id>, asked: seq<Peer>) {
    && Distinct(asked) && |asked| + |outstanding| == |before| + |batch|
    && |before| <= |asked| && asked[..|before|] == before
    && (forall j :: 0 <= j < |before| ==> asked[j].id !in outstanding)
    && (forall j :: |before| <= j < |asked| ==> asked[j] in batch && asked[j].id !in outstanding)
  }

  lemma AskedNone(q: Query, start: map<Id, Candidate>, batch: seq<Peer>, before: seq<Peer>)
    requires Distinct(batch) && Consistent(q, start, before, Elems(PeerIds(batch)))
    ensures AskedSome(before, batch, Elems(PeerIds(batch)), before)
  {
    hide Dist, Pool, Contacted, FailedIds;
    assert before[..|before|] == before;
    DistinctCard(batch);
    forall j | 0 <= j < |before| ensures before[j].id in Probed(before) {
      assert PeerIds(before)[j] == before[j].id;
    }
  }

  lemma AskedOne(before: seq<Peer>, batch: seq<Peer>, outstanding: set<Id>, asked: seq<Peer>, p: Peer)
    requires AskedSome(before, batch, outstanding, asked) && p in batch && p.id in outstanding
    ensures AskedSome(before, batch, outstanding - {p.id}, asked + [p])
    ensures |before| <= |asked| && (asked + [p])[|before|..] == asked[|before|..] + [p]
  {
    assert (asked + [p])[..|before|] == asked[..|before|];
  }

  lemma Outstanding(start: map<Id, Candidate>, candidates: map<Id, Candidate>, batch: seq<Peer>, outstanding: set<Id>, id: Id)
    returns (i: nat)
    requires Drained(start, candidates, batch, outstanding) && id in outstanding
    requires forall p :: p in batch ==> p.id in start && start[p.id].contact == p
    ensures i < |batch| && batch[i].id == id && id in start && id in candidates && candidates[id].contact == batch[i]
  {
    i :| 0 <= i < |batch| && PeerIds(batch)[i] == id;
    assert batch[i] in batch;
  }

  // Probe a batch and drain its replies in any order. Cancellation may come from outside at any
  // moment, and comes from the first value found; from then on calls may fail spuriously.
  method Drain(q: Query, start: map<Id, Candidate>, batch: seq<Peer>, ghost before: seq<Peer>)
    returns (candidates: map<Id, Candidate>, value: Option<LookupResult>, stopped: bool, ghost log: seq<Peer>, ghost asked: seq<Peer>)
    requires Distinct(batch) && Keyed(start) && Consistent(q, start, before, Elems(PeerIds(batch)))
    requires forall p :: p in batch ==> p.id in start && start[p.id].contact == p
    requires NothingFound(q, before)
    ensures Keyed(candidates) && start.Keys <= candidates.Keys
    ensures forall id :: id in start && id !in PeerIds(batch) ==> candidates[id].state == start[id].state
    ensures forall id :: id in PeerIds(batch) ==> id in candidates && IsSettled(candidates[id].state)
    ensures value.Some? ==> value.value.Value? && Concluded(q, value.value, log)
    ensures value.None? && !stopped ==> Draining(q, candidates, batch, {}, before, log)
    ensures stopped ==> q.mayStop
    ensures AskedSome(before, batch, {}, asked) && (value.None? && !stopped ==> log == asked)
    ensures value.Some? ==> log == before && value.value.source in asked[|before|..]
  {
    hide Dist, Consistent, Traced, NothingFound, OutcomeOf, Contacted;
    candidates, value, stopped, log, asked := start, None, false, before, before;
    AskedNone(q, start, batch, before);
    var outstanding := Elems(PeerIds(batch));
    DrainStart(q, start, batch, before);
    hide Draining, Concluded, AdoptAll, Distinct, AskedSome;
    assert Drained(start, candidates, batch, outstanding);
    while outstanding != {}
      invariant Drained(start, candidates, batch, outstanding)
      invariant value.Some? ==> value.value.Value? && Concluded(q, value.value, before)
      invariant value.None? && !stopped ==> Draining(q, candidates, batch, outstanding, before, log)
      invariant stopped ==> q.mayStop
      invariant value.Some? ==> |before| <= |asked| && value.value.source in asked[|before|..]
      invariant AskedSome(before, batch, outstanding, asked) && (value.None? && !stopped ==> log == asked)
    {
      var id :| id in outstanding;
      ghost var i := Outstanding(start, candidates, batch, outstanding, id);
      var p := candidates[id].contact;
      hide Drained;
      if q.mayStop {
        if * {
          stopped := true;
        }
      }
      var o, more := Ask(q, p, asked);
      AskedOne(before, batch, outstanding, asked, p);
      asked := more;
      if stopped || value.Some? {
        if * {
          o := Failed;
        }
      }
      if o.Found? && value.None? {
        value := Some(Value(o.data, p));
        ValueReported(q, start, before, p, o.data, Elems(PeerIds(batch)));
      }
      ghost var unsettled := candidates;
      candidates := Settle(q, candidates, id, o);
      DrainedStep(start, unsettled, candidates, batch, outstanding, id);
      if value.None? && !stopped {
        DrainStep(q, unsettled, candidates, batch, outstanding, before, log, p);
        log := log + [p];
      }
      outstanding := outstanding - {id};
    }
    if value.Some? {
      log := before;
    }
  }

  lemma ValueReported(
    q: Query, start: map<Id, Candidate>, before: seq<Peer>, p: Peer, data: Bytes, outstanding: set<Id>)
    requires Consistent(q, start, before, outstanding) && NothingFound(q, before)
    requires p.id in start && start[p.id].contact == p
    requires q.findValue && OutcomeOf(q, p) == Found(data)
    ensures Concluded(q, Value(data, p), before)
  {
    assert Contacted(start)[p.id] == p;
  }

  lemma DistinctCard(ps: seq<Peer>)
    requires Distinct(ps)
    ensures |Elems(PeerIds(ps))| == |ps|
  {
    var ids := PeerIds(ps);
    SeqCard(ids);
  }

  lemma {:induction false} SeqCard(ids: seq<Id>)
    requires forall i, j :: 0 <= i < j < |ids| ==> ids[i] != ids[j]
    ensures |Elems(ids)| == |ids|
  {
    if ids != [] {
      var n := |ids| - 1;
      SeqCard(ids[..n]);
      assert Elems(ids) == Elems(ids[..n]) + {ids[n]};
      assert ids[n] !in ids[..n];
    }
  }

  // lookup.go, lookup: rounds of at most alpha probes until the K closest live candidates have
  // all answered, a value arrives, nobody is left, or the lookup is stopped.
  // `log` are the peers whose outcome the result rests on, `asked` all that were probed.
  method Run(q: Query)
    returns (r: LookupResult, ghost log: seq<Peer>, ghost asked: seq<Peer>, ghost rounds: seq<nat>)
    requires Proper(q)
    ensures Concluded(q, r, log)
    ensures Distinct(asked) && Paced(q, asked, rounds) && log <= asked
    ensures r.Closest? || r.NoReachableContacts? || r.ValueNotFound? ==> log == asked
    ensures r.Value? ==> |rounds| >= 2 && log == asked[..rounds[|rounds| - 2]] && r.source in asked[|log|..]
  {
    hide Dist, Consistent, Concluded, NothingFound, Paced, Live, Standing, Unsettled, Pool, AskedSome, Distinct;
    hide IsSettled, Top, Untried;
    var candidates := AddEach(q.env.net, q.env.me, map[], q.seeds);
    log, asked, rounds := [], [], [0];
    Begin(q, candidates);
    while true
      invariant Keyed(candidates)
      invariant Consistent(q, candidates, log, {})
      invariant NothingFound(q, log)
      invariant Distinct(asked) && Paced(q, asked, rounds) && log == asked
      invariant |rounds| >= 1 && rounds[|rounds| - 1] == |log|
      decreases Unsettled(candidates)
    {
      if q.mayStop {
        if * {
          StoppedConcludes(q, log);
          return Stopped, log, asked, rounds;
        }
      }
      var shortlist := Shortlist(candidates, q.target, q.env.cfg.k);
      var pending, batch := TakeBatch(candidates, shortlist, q.env.cfg.alpha);
      if |batch| == 0 {
        if |shortlist| == 0 {
          NothingLive(q, candidates, shortlist, log);
          return NoReachableContacts, log, asked, rounds;
        }
        AllAnswered(q, candidates, shortlist, log);
        if q.findValue {
          return ValueNotFound, log, asked, rounds;
        }
        return Closest(shortlist), log, asked, rounds;
      }
      BatchPending(q, candidates, pending, batch, log);
      var value, stopped;
      ghost var more;
      ghost var round := candidates;
      candidates, value, stopped, more, asked := Drain(q, pending, batch, log);
      RoundSettles(round, pending, candidates, batch);
      HeadFacts(q, round, log);
      BatchIsNearest(round, shortlist, batch, q.target, q.env.cfg.alpha);
      PacedRound(q, round, log, rounds, asked, shortlist, batch);
      rounds := rounds + [|asked|];
      if value.Some? {
        return value.value, log, asked, rounds;
      }
      if stopped {
        StoppedConcludes(q, log);
        return Stopped, log, asked, rounds;
      }
      log := more;
    }
  }
}
