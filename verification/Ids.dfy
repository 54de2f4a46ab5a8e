// Identifiers of src/kademlia/kademliaid.go: 32 bytes, compared as big-endian numbers
// and measured with XOR. Every other module sees them through `Dist`.
module Ids {
  type Byte = bv8

  const ID_LENGTH := 32
  const ID_BITS := 256

  type Id = s: seq<Byte> | |s| == ID_LENGTH witness seq(ID_LENGTH, _ => 0)

  const ZERO: Id := Repeated(0)

  function Repeated(b: Byte): (r: Id)
    ensures forall i :: 0 <= i < ID_LENGTH ==> r[i] == b
  {
    seq(ID_LENGTH, _ => b)
  }

  function Pow2(n: nat): (r: nat)
    ensures r >= 1
  {
    if n == 0 then 1 else 2 * Pow2(n - 1)
  }

  // The big-endian number written by a string of bytes.
  function Value(s: seq<Byte>): nat {
    if s == [] then 0 else 256 * Value(s[..|s| - 1]) + s[|s| - 1] as nat
  }

  function Xor(a: Id, b: Id): Id {
    seq(ID_LENGTH, i requires 0 <= i < ID_LENGTH => a[i] ^ b[i])
  }

  // XOR distance as a number.
  function Dist(a: Id, b: Id): nat {
    Value(Xor(a, b))
  }

  // Bit j of a byte, counted from the most significant one.
  predicate ByteBit(b: Byte, j: nat)
    requires j < 8
  {
    (b >> (7 - j)) & 1 != 0
  }

  predicate Bit(id: Id, p: nat)
    requires p < ID_BITS
  {
    ByteBit(id[p / 8], p % 8)
  }

  // p is the first bit on which a and b differ.
  ghost predicate FirstDiff(a: Id, b: Id, p: nat) {
    && p < ID_BITS
    && Bit(a, p) != Bit(b, p)
    && forall q: nat :: q < p ==> Bit(a, q) == Bit(b, q)
  }

  // The bucket of `id` in the table of `me`: the shared prefix length, with self in the last one.
  ghost predicate InBucket(me: Id, id: Id, index: nat) {
    if id == me then index == ID_BITS - 1 else FirstDiff(me, id, index)
  }

  ghost function BucketOf(me: Id, id: Id): (index: nat)
    ensures InBucket(me, id, index)
    ensures index < ID_BITS
  {
    if id == me then ID_BITS - 1
    else
      FirstDiffExists(me, id);
      var p :| FirstDiff(me, id, p);
      p
  }

  // ------------------------------------------------------------------ bytes and bits

  lemma ByteXorBit(a: Byte, b: Byte, j: nat)
    requires j < 8
    ensures ByteBit(a ^ b, j) == (ByteBit(a, j) != ByteBit(b, j))
  {
    match j { case 0 => case 1 => case 2 => case 3 => case 4 => case 5 => case 6 => case 7 => }
  }

  lemma ByteBitsEqual(a: Byte, b: Byte)
    requires forall j :: 0 <= j < 8 ==> ByteBit(a, j) == ByteBit(b, j)
    ensures a == b
  {
    assert ByteBit(a, 0) == ByteBit(b, 0) && ByteBit(a, 1) == ByteBit(b, 1);
    assert ByteBit(a, 2) == ByteBit(b, 2) && ByteBit(a, 3) == ByteBit(b, 3);
    assert ByteBit(a, 4) == ByteBit(b, 4) && ByteBit(a, 5) == ByteBit(b, 5);
    assert ByteBit(a, 6) == ByteBit(b, 6) && ByteBit(a, 7) == ByteBit(b, 7);
  }

  lemma ByteBitOrder(a: Byte, b: Byte, j: nat)
    requires j < 8
    requires forall i: nat :: i < j ==> ByteBit(a, i) == ByteBit(b, i)
    requires !ByteBit(a, j) && ByteBit(b, j)
    ensures a < b
  {
    assert j > 0 ==> ByteBit(a, 0) == ByteBit(b, 0);
    assert j > 1 ==> ByteBit(a, 1) == ByteBit(b, 1);
    assert j > 2 ==> ByteBit(a, 2) == ByteBit(b, 2);
    assert j > 3 ==> ByteBit(a, 3) == ByteBit(b, 3);
    assert j > 4 ==> ByteBit(a, 4) == ByteBit(b, 4);
    assert j > 5 ==> ByteBit(a, 5) == ByteBit(b, 5);
    assert j > 6 ==> ByteBit(a, 6) == ByteBit(b, 6);
    match j { case 0 => case 1 => case 2 => case 3 => case 4 => case 5 => case 6 => case 7 => }
  }

  // Equal bits on whole bytes make equal bytes.
  lemma PrefixBytes(a: Id, b: Id, n: nat)
    requires n <= ID_BITS
    requires forall q: nat :: q < n ==> Bit(a, q) == Bit(b, q)
    ensures forall i :: 0 <= i < n / 8 ==> a[i] == b[i]
  {
    forall i | 0 <= i < n / 8 ensures a[i] == b[i] {
      forall j | 0 <= j < 8 ensures ByteBit(a[i], j) == ByteBit(b[i], j) {
        assert Bit(a, 8 * i + j) == Bit(b, 8 * i + j);
      }
      ByteBitsEqual(a[i], b[i]);
    }
  }

  lemma SameBits(a: Id, b: Id)
    requires forall q: nat :: q < ID_BITS ==> Bit(a, q) == Bit(b, q)
    ensures a == b
  {
    PrefixBytes(a, b, ID_BITS);
  }

  lemma XorBit(a: Id, b: Id, p: nat)
    requires p < ID_BITS
    ensures Bit(Xor(a, b), p) == (Bit(a, p) != Bit(b, p))
  {
    ByteXorBit(a[p / 8], b[p / 8], p % 8);
  }

  lemma FirstDiffExists(a: Id, b: Id)
    requires a != b
    ensures exists p :: FirstDiff(a, b, p)
  {
    if forall q: nat :: q < ID_BITS ==> Bit(a, q) == Bit(b, q) {
      SameBits(a, b);
    } else {
      var q: nat :| q < ID_BITS && Bit(a, q) != Bit(b, q);
      LeastDiff(a, b, q);
    }
  }

  lemma {:induction false} LeastDiff(a: Id, b: Id, q: nat)
    requires q < ID_BITS && Bit(a, q) != Bit(b, q)
    ensures exists p :: FirstDiff(a, b, p)
    decreases q
  {
    if r: nat :| r < q && Bit(a, r) != Bit(b, r) {
      LeastDiff(a, b, r);
    } else {
      assert FirstDiff(a, b, q);
    }
  }

  lemma FirstDiffUnique(a: Id, b: Id, p: nat, q: nat)
    requires FirstDiff(a, b, p) && FirstDiff(a, b, q)
    ensures p == q
  {
  }

  // ------------------------------------------------------------------ values

  // The first differing byte decides the order of two big-endian numbers.
  lemma {:induction false} ValueOrder(a: seq<Byte>, b: seq<Byte>, i: nat)
    requires i < |a| == |b|
    requires a[..i] == b[..i] && a[i] < b[i]
    ensures Value(a) < Value(b)
  {
    var last := |a| - 1;
    if i < last {
      assert a[..last][..i] == a[..i] && b[..last][..i] == b[..i];
      ValueOrder(a[..last], b[..last], i);
    }
  }

  lemma FullPrefix(a: Id, b: Id)
    requires a[..ID_LENGTH] == b[..ID_LENGTH]
    ensures a == b
  {
    assert a == a[..ID_LENGTH];
    assert b == b[..ID_LENGTH];
  }

  lemma {:induction false} FirstByte(a: Id, b: Id, i: nat)
    requires i <= ID_LENGTH && a[..i] == b[..i] && a != b
    ensures exists k :: i <= k < ID_LENGTH && a[..k] == b[..k] && a[k] != b[k]
    decreases ID_LENGTH - i
  {
    if i == ID_LENGTH {
      assert false by {
        FullPrefix(a, b);
      }
    } else if a[i] == b[i] {
      assert a[..i + 1] == a[..i] + [a[i]] == b[..i + 1];
      FirstByte(a, b, i + 1);
    }
  }

  lemma ValueInjective(a: Id, b: Id)
    requires Value(a) == Value(b)
    ensures a == b
  {
    if a != b {
      FirstByte(a, b, 0);
      var k :| 0 <= k < ID_LENGTH && a[..k] == b[..k] && a[k] != b[k];
      if a[k] < b[k] {
        ValueOrder(a, b, k);
      } else {
        ValueOrder(b, a, k);
      }
    }
  }

  // ------------------------------------------------------------------ distances

  lemma XorSelfInverse(a: Id, b: Id)
    ensures Xor(Xor(a, b), b) == a
    ensures Xor(a, b) == Xor(b, a)
    ensures Xor(a, Xor(a, b)) == b
  {
  }

  // For a fixed target distinct identifiers lie at distinct distances.
  lemma DistInjective(a: Id, b: Id, target: Id)
    requires Dist(a, target) == Dist(b, target)
    ensures a == b
  {
    ValueInjective(Xor(a, target), Xor(b, target));
    XorSelfInverse(a, target);
    XorSelfInverse(b, target);
  }

  // The first bit on which x and y differ decides which of them is nearer to the target.
  lemma FirstDiffDecides(x: Id, y: Id, target: Id, p: nat)
    requires FirstDiff(x, y, p)
    ensures Dist(y, target) < Dist(x, target) <==> Bit(y, p) == Bit(target, p)
  {
    var dx, dy := Xor(x, target), Xor(y, target);
    forall q: nat | q < ID_BITS
      ensures Bit(dx, q) == (Bit(x, q) != Bit(target, q)) && Bit(dy, q) == (Bit(y, q) != Bit(target, q))
    {
      XorBit(x, target, q);
      XorBit(y, target, q);
    }
    if Bit(y, p) == Bit(target, p) {
      BitOrder(dy, dx, p);
    } else {
      BitOrder(dx, dy, p);
    }
  }

  lemma BitOrder(a: Id, b: Id, p: nat)
    requires FirstDiff(a, b, p) && Bit(b, p)
    ensures Value(a) < Value(b)
  {
    hide Value, ByteBit;
    var i := p / 8;
    PrefixBytes(a, b, 8 * i);
    assert a[..i] == b[..i];
    forall j: nat | j < p % 8 ensures ByteBit(a[i], j) == ByteBit(b[i], j) {
      assert Bit(a, 8 * i + j) == Bit(b, 8 * i + j);
    }
    hide FirstDiff;
    ByteBitOrder(a[i], b[i], p % 8);
    ValueOrder(a, b, i);
  }

  // Kademlia's geometric fact: when g is nearer to the target than x, so is every
  // identifier in the bucket of x that g falls into.
  lemma BucketNearer(x: Id, g: Id, y: Id, target: Id)
    requires Dist(g, target) < Dist(x, target)
    requires y != x && BucketOf(x, y) == BucketOf(x, g)
    ensures Dist(y, target) < Dist(x, target)
  {
    var p := BucketOf(x, g);
    FirstDiffDecides(x, g, target, p);
    FirstDiffDecides(x, y, target, p);
  }

  // ------------------------------------------------------------------ bucket ranges

  lemma Pow2Byte(n: nat)
    ensures Pow2(n + 8) == 256 * Pow2(n)
  {
    assert Pow2(n + 8) == 4 * Pow2(n + 6);
    assert Pow2(n + 6) == 4 * Pow2(n + 4);
    assert Pow2(n + 4) == 4 * Pow2(n + 2);
  }

  lemma {:induction false} ValueOfZeros(s: seq<Byte>)
    requires forall k :: 0 <= k < |s| ==> s[k] == 0
    ensures Value(s) == 0
  {
    if s != [] {
      ValueOfZeros(s[..|s| - 1]);
    }
  }

  lemma ByteTopBit(b: Byte, j: nat)
    requires j < 8 && ByteBit(b, j)
    requires forall i: nat :: i < j ==> !ByteBit(b, i)
    ensures Pow2(7 - j) <= b as nat < Pow2(8 - j)
  {
    assert j > 0 ==> !ByteBit(b, 0);
    assert j > 1 ==> !ByteBit(b, 1);
    assert j > 2 ==> !ByteBit(b, 2);
    assert j > 3 ==> !ByteBit(b, 3);
    assert j > 4 ==> !ByteBit(b, 4);
    assert j > 5 ==> !ByteBit(b, 5);
    assert j > 6 ==> !ByteBit(b, 6);
    assert Pow2(1) == 2 && Pow2(2) == 4 && Pow2(3) == 8 && Pow2(4) == 16;
    assert Pow2(5) == 32 && Pow2(6) == 64 && Pow2(7) == 128 && Pow2(8) == 256;
    match j { case 0 => case 1 => case 2 => case 3 => case 4 => case 5 => case 6 => case 7 => }
  }

  // A number whose first set bit is bit p has exactly 256 - p significant bits.
  lemma TopBitRange(d: Id, p: nat)
    requires p < ID_BITS && Bit(d, p) && forall q: nat :: q < p ==> !Bit(d, q)
    ensures Pow2(255 - p) <= Value(d) < Pow2(256 - p)
  {
    var i, j := p / 8, p % 8;
    forall q: nat | q < 8 * i ensures Bit(d, q) == Bit(ZERO, q) {
      assert !ByteBit(0, q % 8);
    }
    PrefixBytes(d, ZERO, 8 * i);
    forall k: nat | k < j ensures !ByteBit(d[i], k) {
      assert !Bit(d, 8 * i + k);
    }
    LeadingByteRange(d, i, j);
  }

  lemma {:induction false} LeadingByteRange(s: seq<Byte>, i: nat, j: nat)
    requires i < |s| && j < 8 && forall k :: 0 <= k < i ==> s[k] == 0
    requires ByteBit(s[i], j) && forall k: nat :: k < j ==> !ByteBit(s[i], k)
    ensures Pow2(7 - j + 8 * (|s| - 1 - i)) <= Value(s) < Pow2(8 - j + 8 * (|s| - 1 - i))
  {
    var last := |s| - 1;
    if i == last {
      ByteTopBit(s[i], j);
      ValueOfZeros(s[..last]);
    } else {
      LeadingByteRange(s[..last], i, j);
      Pow2Byte(7 - j + 8 * (last - 1 - i));
      Pow2Byte(8 - j + 8 * (last - 1 - i));
    }
  }

  lemma {:induction false} Pow2Monotone(m: nat, n: nat)
    requires m <= n
    ensures Pow2(m) <= Pow2(n)
    decreases n
  {
    if m < n {
      Pow2Monotone(m, n - 1);
    }
  }

  // Bucket i holds exactly the distances in [2^(255-i), 2^(256-i)).
  lemma BucketRange(me: Id, id: Id, index: nat)
    requires id != me && index < ID_BITS
    ensures BucketOf(me, id) == index <==> Pow2(255 - index) <= Dist(id, me) < Pow2(256 - index)
  {
    var p := BucketOf(me, id);
    var d := Xor(id, me);
    forall q: nat | q < ID_BITS ensures Bit(d, q) == (Bit(id, q) != Bit(me, q)) {
      XorBit(id, me, q);
    }
    TopBitRange(d, p);
    if p < index {
      Pow2Monotone(256 - index, 255 - p);
    } else if index < p {
      Pow2Monotone(256 - p, 255 - index);
    }
  }

  // ------------------------------------------------------------------ the source's loops

  // kademliaid.go, Less: numeric order of the two big-endian identifiers.
  method Less(a: Id, b: Id) returns (r: bool)
    ensures r <==> Value(a) < Value(b)
  {
    for i := 0 to ID_LENGTH
      invariant a[..i] == b[..i]
    {
      if a[i] != b[i] {
        if a[i] < b[i] {
          ValueOrder(a, b, i);
        } else {
          ValueOrder(b, a, i);
        }
        return a[i] < b[i];
      }
      assert a[..i + 1] == a[..i] + [a[i]];
      assert b[..i + 1] == b[..i] + [b[i]];
    }
    FullPrefix(a, b);
    return false;
  }

  // kademliaid.go, Equals.
  method Equals(a: Id, b: Id) returns (r: bool)
    ensures r <==> Value(a) == Value(b)
    ensures r <==> a == b
  {
    for i := 0 to ID_LENGTH
      invariant a[..i] == b[..i]
    {
      if a[i] != b[i] {
        if Value(a) == Value(b) {
          ValueInjective(a, b);
        }
        return false;
      }
      assert a[..i + 1] == a[..i] + [a[i]];
      assert b[..i + 1] == b[..i] + [b[i]];
    }
    FullPrefix(a, b);
    return true;
  }

  // kademliaid.go, CalcDistance: the result array is filled byte by byte.
  method CalcDistance(a: Id, target: Id) returns (d: Id)
    ensures d == Xor(a, target)
    ensures Value(d) == Dist(a, target)
  {
    var result := new Byte[ID_LENGTH];
    for i := 0 to ID_LENGTH
      invariant forall k :: 0 <= k < i ==> result[k] == a[k] ^ target[k]
    {
      result[i] := a[i] ^ target[i];
    }
    d := result[..];
    assert d == Xor(a, target);
  }

  // routingtable.go, getBucketIndex: scan the distance for its first set bit.
  method GetBucketIndex(me: Id, id: Id) returns (index: nat)
    ensures index == BucketOf(me, id)
    ensures id != me ==> Pow2(255 - index) <= Dist(id, me) < Pow2(256 - index)
  {
    hide Value, Dist, Pow2;
    var distance := CalcDistance(id, me);
    forall q: nat | q < ID_BITS ensures Bit(distance, q) == (Bit(id, q) != Bit(me, q)) {
      XorBit(id, me, q);
    }
    hide Xor;
    for i := 0 to ID_LENGTH
      invariant forall q: nat :: q < 8 * i ==> !Bit(distance, q)
    {
      for j := 0 to 8
        invariant forall q: nat :: q < 8 * i + j ==> !Bit(distance, q)
      {
        assert Bit(distance, 8 * i + j) == ByteBit(distance[i], j);
        if (distance[i] >> (7 - j)) & 1 != 0 {
          index := i * 8 + j;
          assert FirstDiff(me, id, index);
          FirstDiffUnique(me, id, index, BucketOf(me, id));
          BucketRange(me, id, index);
          return;
        }
      }
    }
    index := ID_LENGTH * 8 - 1;
    SameBits(id, me);
  }
}
