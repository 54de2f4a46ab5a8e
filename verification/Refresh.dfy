// Bucket refresh: randomBucketTarget of routing_maintenance.go, Join and Refresh of maintenance.go.
module Refresh {
  import opened Wrappers
  import opened Ids
  import opened Nearest
  import opened Contacts
  import opened Routing

  // Random bytes with the bits before `index` cleared and bit `index` set. For bit 7 the mask
  // shifts the one out of the byte and subtracts with wrap-around, which keeps every bit.
  function Mask(bit: nat): Byte
    requires bit < 8
  {
    ((1 as Byte) << (bit + 1)) - 1
  }

  function MaskedByte(b: Byte, bit: nat): Byte
    requires bit < 8
  {
    (b & Mask(bit)) | ((1 as Byte) << bit)
  }

  function Masked(random: Id, index: nat): Id
    requires index < ID_BITS
  {
    seq(index / 8, _ => 0) + [MaskedByte(random[index / 8], 7 - index % 8)] + random[index / 8 + 1..]
  }

  lemma MaskedByteBit(b: Byte, bit: nat, j: nat)
    requires bit < 8 && j < 8
    ensures ByteBit(MaskedByte(b, bit), j) <==> j == 7 - bit || (j > 7 - bit && ByteBit(b, j))
  {
    match bit { case 0 => case 1 => case 2 => case 3 => case 4 => case 5 => case 6 => case 7 => }
    match j { case 0 => case 1 => case 2 => case 3 => case 4 => case 5 => case 6 => case 7 => }
  }

  lemma MaskedBit(random: Id, index: nat, p: nat)
    requires index < ID_BITS && p < ID_BITS
    ensures Bit(Masked(random, index), p) <==> p == index || (p > index && Bit(random, p))
  {
    var at := index / 8;
    if p / 8 == at {
      MaskedByteBit(random[at], 7 - index % 8, p % 8);
    } else if p / 8 < at {
      assert !ByteBit(0, p % 8);
    }
  }

  // The target of a refresh lies in the bucket it was made for.
  lemma TargetInBucket(self: Id, index: nat, random: Id)
    requires index < ID_BITS
    ensures Xor(self, Masked(random, index)) != self
    ensures BucketOf(self, Xor(self, Masked(random, index))) == index
  {
    var d := Masked(random, index);
    var target := Xor(self, d);
    forall p: nat | p < ID_BITS ensures Bit(target, p) == (Bit(self, p) != Bit(d, p)) {
      XorBit(self, d, p);
    }
    forall p: nat | p <= index ensures Bit(d, p) <==> p == index {
      MaskedBit(random, index, p);
    }
    assert FirstDiff(self, target, index);
    FirstDiffUnique(self, target, index, BucketOf(self, target));
  }

  // Every identifier of a bucket is the target for some random bytes: its own distance.
  lemma TargetsCoverBucket(self: Id, id: Id)
    requires id != self
    ensures Xor(self, Masked(Xor(self, id), BucketOf(self, id))) == id
  {
    var index, d := BucketOf(self, id), Xor(self, id);
    forall p: nat | p < ID_BITS ensures Bit(Masked(d, index), p) == Bit(d, p) {
      MaskedBit(d, index, p);
      XorBit(self, id, p);
    }
    SameBits(Masked(d, index), d);
    XorSelfInverse(self, id);
  }

  // The two masking operations on one byte.
  method MaskByte(b: Byte, bit: nat) returns (r: Byte)
    requires bit < 8
    ensures r == MaskedByte(b, bit)
  {
    r := b & (((1 as Byte) << (bit + 1)) - 1);
    r := r | ((1 as Byte) << bit);
  }

  // The masking of randomBucketTarget, in place in the array of random bytes.
  method MaskInPlace(distance: array<Byte>, index: nat, ghost random: Id)
    requires distance.Length == ID_LENGTH && index < ID_BITS && distance[..] == random
    modifies distance
    ensures distance[..] == Masked(random, index)
  {
    hide MaskedByte;
    var byteIndex, bit := index / 8, 7 - index % 8;
    for i := 0 to byteIndex
      invariant forall k :: 0 <= k < i ==> distance[k] == 0
      invariant forall k :: i <= k < ID_LENGTH ==> distance[k] == random[k]
    {
      distance[i] := 0;
    }
    var masked := MaskByte(distance[byteIndex], bit);
    distance[byteIndex] := masked;
    assert distance[..byteIndex] == seq(index / 8, _ => 0);
    assert distance[byteIndex + 1..] == random[byteIndex + 1..];
    assert distance[..] == distance[..byteIndex] + [masked] + distance[byteIndex + 1..];
  }

  // routing_maintenance.go, randomBucketTarget, on the bytes the random source delivered.
  method RandomBucketTarget(self: Id, index: int, random: Option<Id>) returns (r: Option<Id>)
    ensures r.Some? <==> 0 <= index < ID_BITS && random.Some?
    ensures r.Some? ==> r.value != self && BucketOf(self, r.value) == index
    ensures r.Some? ==> r.value == Xor(self, Masked(random.value, index))
  {
    hide Masked, InBucket, Dist;
    if index < 0 || index >= ID_BITS || random.None? {
      return None;
    }
    var distance := new Byte[ID_LENGTH](i requires 0 <= i < ID_LENGTH => random.value[i]);
    assert distance[..] == random.value;
    MaskInPlace(distance, index, random.value);
    var target := CalcDistance(self, distance[..]);
    TargetInBucket(self, index, random.value);
    return Some(target);
  }

  // ------------------------------------------------------------------ refresh passes

  // Time passes by any amount.
  method Clock(now: int) returns (later: int)
    ensures later >= now
  {
    later :| later >= now;
  }

  // Only lookup times differ, and none went back.
  ghost predicate OnlyLookedUp(t: Table, u: Table) {
    && u.me == t.me && |u.buckets| == |t.buckets|
    && forall i :: 0 <= i < |t.buckets| ==>
      u.buckets[i] == t.buckets[i].(lastLookup := u.buckets[i].lastLookup)
      && u.buckets[i].lastLookup >= t.buckets[i].lastLookup
  }

  ghost predicate NotLater(t: Table, now: int) {
    forall i :: 0 <= i < |t.buckets| ==> t.buckets[i].lastLookup <= now
  }

  // What becomes of one refresh: the node is stopped, randomness fails, or its lookup is done.
  datatype Attempt = Halted | NoRandomness | LookedUp(random: Id, ok: bool)

  predicate Succeeds(a: Attempt) {
    a.LookedUp? && a.ok
  }

  // The lookup times at or after `now` of exactly these buckets have been reset.
  ghost predicate ResetOnly(t: Table, u: Table, indices: set<nat>, now: int) {
    && OnlyLookedUp(t, u)
    && forall i :: 0 <= i < |t.buckets| ==>
      if i in indices then u.buckets[i].lastLookup >= now else u.buckets[i] == t.buckets[i]
  }

  // maintenance.go, refreshBucket: the lookup resets its bucket's timer, then succeeds or fails.
  method RefreshBucket(table: RoutingTable, index: nat, now: int, attempt: Attempt) returns (ok: bool, later: int)
    requires table.Good() && index < ID_BITS && NotLater(table.View(), now)
    modifies table.buckets
    ensures table.Good() && later >= now && NotLater(table.View(), later)
    ensures ok <==> Succeeds(attempt)
    ensures ResetOnly(old(table.View()), table.View(), if attempt.LookedUp? then {index} else {}, now)
  {
    hide Masked, Dist, Xor;
    later := now;
    if attempt.Halted? {
      return false, later;
    }
    var target := RandomBucketTarget(table.me.id, index, if attempt.LookedUp? then Some(attempt.random) else None);
    if target.None? {
      return false, later;
    }
    later := Clock(now);
    table.MarkLookup(target.value, later);
    ok := attempt.ok;
  }

  lemma ResetTwice(t: Table, u: Table, v: Table, a: set<nat>, b: set<nat>, now: int, later: int)
    requires ResetOnly(t, u, a, now) && ResetOnly(u, v, b, later) && now <= later
    ensures ResetOnly(t, v, a + b, now)
  {
  }

  // The buckets a descending pass over [0, bound) reaches: all above it succeed.
  ghost predicate ReachedDown(attempt: nat -> Attempt, bound: nat, i: nat) {
    i < bound && forall j: nat :: i < j < bound ==> Succeeds(attempt(j))
  }

  ghost function DownTo(attempt: nat -> Attempt, bound: nat): set<nat> {
    set i: nat | i < bound && ReachedDown(attempt, bound, i) && attempt(i).LookedUp?
  }

  lemma ResetNone(t: Table, now: int)
    ensures ResetOnly(t, t, {}, now)
  {
  }

  lemma ResetMeans(t: Table, u: Table, indices: set<nat>, now: int)
    requires ResetOnly(t, u, indices, now)
    ensures |u.buckets| == |t.buckets|
    ensures forall i :: i in indices && i < |t.buckets| ==> u.buckets[i].lastLookup >= now
  {
  }

  lemma Succeeded(a: Attempt)
    ensures Succeeds(a) ==> a.LookedUp?
  {
  }

  lemma ReachedTo(attempt: nat -> Attempt, bound: nat, index: nat, above: set<nat>, done: set<nat>)
    requires index < bound && !Succeeds(attempt(index))
    requires forall i: nat :: index < i < bound ==> Succeeds(attempt(i))
    requires forall i: nat :: i in above <==> index < i < bound
    requires done == if attempt(index).LookedUp? then {index} else {}
    ensures above + done == DownTo(attempt, bound)
  {
  }

  lemma ReachedEnd(attempt: nat -> Attempt, bound: nat, above: set<nat>)
    requires forall i: nat :: i < bound ==> Succeeds(attempt(i))
    requires forall i: nat :: i in above <==> i < bound
    ensures above == DownTo(attempt, bound)
  {
  }

  // maintenance.go, Join, after the bootstrap answered: `closest` heads the list found for self.
  // Every bucket farther than the closest contact is refreshed, farther ones later, up to the
  // first failure, whose own timer is reset when its lookup was begun.
  method JoinRefresh(table: RoutingTable, closest: Peer, now: int, attempt: nat -> Attempt) returns (ok: bool, later: int)
    requires table.Good() && NotLater(table.View(), now)
    modifies table.buckets
    ensures table.Good()
    ensures ok <==> forall i: nat :: i < BucketOf(table.me.id, closest.id) ==> Succeeds(attempt(i))
    ensures ResetOnly(old(table.View()), table.View(), DownTo(attempt, BucketOf(table.me.id, closest.id)), now)
    ensures ok ==> forall i: nat :: i < BucketOf(table.me.id, closest.id) ==> table.View().buckets[i].lastLookup >= now
  {
    hide ResetOnly, NotLater, Succeeds, DownTo;
    later := now;
    ResetNone(table.View(), now);
    var closestBucket := GetBucketIndex(table.me.id, closest.id);
    var index := closestBucket - 1;
    ghost var reset: set<nat> := {};
    while index >= 0
      invariant -1 <= index < closestBucket <= ID_BITS
      invariant table.Good() && later >= now && NotLater(table.View(), later)
      invariant forall i: nat :: index < i < closestBucket ==> Succeeds(attempt(i))
      invariant forall i: nat :: i in reset <==> index < i < closestBucket
      invariant ResetOnly(old(table.View()), table.View(), reset, now)
    {
      ghost var before, earlier := table.View(), later;
      ghost var done: set<nat> := if attempt(index).LookedUp? then {index} else {};
      ok, later := RefreshBucket(table, index, later, attempt(index));
      ResetTwice(old(table.View()), before, table.View(), reset, done, now, earlier);
      if !ok {
        ReachedTo(attempt, closestBucket, index, reset, done);
        return;
      }
      Succeeded(attempt(index));
      reset := reset + done;
      index := index - 1;
    }
    ReachedEnd(attempt, closestBucket, reset);
    ResetMeans(old(table.View()), table.View(), reset, now);
    ok := true;
  }

  ghost predicate Stale(t: Table, now: int, period: int, i: nat)
    requires |t.buckets| == ID_BITS
  {
    i < ID_BITS && now - t.buckets[i].lastLookup >= period
  }

  // The stale buckets an ascending pass reaches: all stale ones below succeed.
  ghost function UpFrom(t: Table, now: int, period: int, attempt: nat -> Attempt): set<nat>
    requires |t.buckets| == ID_BITS
  {
    set i: nat | i < ID_BITS && Stale(t, now, period, i) && attempt(i).LookedUp?
      && forall j: nat :: j < i && Stale(t, now, period, j) ==> Succeeds(attempt(j))
  }

  // maintenance.go, Refresh: look up in every stale range, unless nobody is known.
  method RefreshStale(table: RoutingTable, now: int, period: int, attempt: nat -> Attempt) returns (ok: bool, later: int)
    requires table.Good() && NotLater(table.View(), now)
    modifies table.buckets
    ensures table.Good()
    ensures Known(old(table.View())) == {} ==> ok && table.View() == old(table.View())
    ensures Known(old(table.View())) != {} ==>
      && (ok <==> forall i: nat :: Stale(old(table.View()), now, period, i) ==> Succeeds(attempt(i)))
      && ResetOnly(old(table.View()), table.View(), UpFrom(old(table.View()), now, period, attempt), now)
      && (ok ==> forall i: nat :: Stale(old(table.View()), now, period, i) ==> table.View().buckets[i].lastLookup >= now)
  {
    hide ResetOnly, NotLater, Succeeds, UpFrom, Dist, Known, TableInv;
    later := now;
    var nearest := table.FindClosestContacts(Some(table.me.id), 1);
    NearestListSize(PeerIds(nearest), Known(table.View()), table.me.id, 1);
    if |nearest| == 0 {
      return true, later;
    }
    ghost var start := table.View();
    var stale := table.StaleBuckets(now, period);
    ghost var reset: set<nat> := {};
    ResetNone(start, now);
    for n := 0 to |stale|
      invariant table.Good() && later >= now && NotLater(table.View(), later)
      invariant forall i :: 0 <= i < n ==> Succeeds(attempt(stale[i]))
      invariant forall i :: i in reset <==> i in stale[..n]
      invariant ResetOnly(start, table.View(), reset, now)
    {
      ghost var before, earlier := table.View(), later;
      assert stale[n] in stale;
      ghost var done: set<nat> := if attempt(stale[n]).LookedUp? then {stale[n]} else {};
      ok, later := RefreshBucket(table, stale[n], later, attempt(stale[n]));
      ResetTwice(start, before, table.View(), reset, done, now, earlier);
      if !ok {
        StaleReached(start, stale, now, period, attempt, n);
        assert reset == set i | i in stale[..n];
        assert reset + done == UpFrom(start, now, period, attempt);
        return;
      }
      Succeeded(attempt(stale[n]));
      assert stale[..n + 1] == stale[..n] + [stale[n]];
      reset := reset + done;
    }
    StaleAll(start, stale, now, period, attempt);
    assert stale[..|stale|] == stale;
    assert reset == set i | i in stale;
    ResetMeans(start, table.View(), reset, now);
    ok := true;
  }

  ghost predicate ListsStale(t: Table, stale: seq<nat>, now: int, period: int)
    requires |t.buckets| == ID_BITS
  {
    && (forall i, j :: 0 <= i < j < |stale| ==> stale[i] < stale[j])
    && (forall i: nat :: i in stale <==> Stale(t, now, period, i))
  }

  // The first failure ends the pass: only the stale buckets up to it have been reached.
  lemma StaleReached(t: Table, stale: seq<nat>, now: int, period: int, attempt: nat -> Attempt, n: nat)
    requires |t.buckets| == ID_BITS && ListsStale(t, stale, now, period) && n < |stale|
    requires !Succeeds(attempt(stale[n])) && forall i :: 0 <= i < n ==> Succeeds(attempt(stale[i]))
    ensures Stale(t, now, period, stale[n])
    ensures (set i | i in stale[..n]) + (if attempt(stale[n]).LookedUp? then {stale[n]} else {}) ==
      UpFrom(t, now, period, attempt)
  {
    assert stale[n] in stale;
    forall i: nat | i in UpFrom(t, now, period, attempt)
      ensures i in stale[..n] || (i == stale[n] && attempt(i).LookedUp?)
    {
      var k :| 0 <= k < |stale| && stale[k] == i;
    }
    forall i | i in stale[..n] ensures i in UpFrom(t, now, period, attempt) {
      var k :| 0 <= k < n && stale[k] == i;
      assert i in stale;
      BelowSucceeds(t, stale, now, period, attempt, k);
    }
    BelowSucceeds(t, stale, now, period, attempt, n);
  }

  lemma BelowSucceeds(t: Table, stale: seq<nat>, now: int, period: int, attempt: nat -> Attempt, n: nat)
    requires |t.buckets| == ID_BITS && ListsStale(t, stale, now, period) && n < |stale|
    requires forall i :: 0 <= i < n ==> Succeeds(attempt(stale[i]))
    ensures forall j: nat :: j < stale[n] && Stale(t, now, period, j) ==> Succeeds(attempt(j))
  {
    forall j: nat | j < stale[n] && Stale(t, now, period, j) ensures Succeeds(attempt(j)) {
      assert j in stale;
      var k :| 0 <= k < |stale| && stale[k] == j;
    }
  }

  lemma StaleAll(t: Table, stale: seq<nat>, now: int, period: int, attempt: nat -> Attempt)
    requires |t.buckets| == ID_BITS && ListsStale(t, stale, now, period)
    requires forall i :: 0 <= i < |stale| ==> Succeeds(attempt(stale[i]))
    ensures forall i: nat :: Stale(t, now, period, i) ==> Succeeds(attempt(i))
    ensures (set i | i in stale) == UpFrom(t, now, period, attempt)
  {
    forall i: nat | Stale(t, now, period, i) ensures Succeeds(attempt(i)) {
      assert i in stale;
      var k :| 0 <= k < |stale| && stale[k] == i;
    }
  }
}
