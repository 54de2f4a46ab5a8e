// "The k nearest of a set" as ranks: an identifier belongs to it when fewer than k members
// are nearer to the target. Selections computed by sorting are proved equal to it.
module Nearest {
  import opened Ids

  function Min(a: nat, b: nat): nat {
    if a < b then a else b
  }

  function Elems<T>(r: seq<T>): set<T> {
    set x | x in r
  }

  ghost predicate Ordered(r: seq<Id>, target: Id) {
    forall i, j :: 0 <= i < j < |r| ==> Dist(r[i], target) < Dist(r[j], target)
  }

  ghost function Nearer(s: set<Id>, x: Id, target: Id): set<Id> {
    set y | y in s && Dist(y, target) < Dist(x, target)
  }

  ghost function Top(s: set<Id>, target: Id, k: nat): set<Id> {
    set x | x in s && |Nearer(s, x, target)| < k
  }

  // The list of the k nearest members of s, nearest first.
  ghost predicate IsNearestList(r: seq<Id>, s: set<Id>, target: Id, k: nat) {
    Ordered(r, target) && Elems(r) == Top(s, target, k)
  }

  // ------------------------------------------------------------------ ordered lists

  lemma SubsetCard<T>(a: set<T>, b: set<T>)
    requires a <= b
    ensures |a| <= |b|
    ensures |a| == |b| ==> a == b
  {
    assert b == a + (b - a);
  }

  lemma {:induction false} OrderedCard(r: seq<Id>, target: Id)
    requires Ordered(r, target)
    ensures |Elems(r)| == |r|
  {
    if r != [] {
      var last := |r| - 1;
      OrderedCard(r[..last], target);
      assert Elems(r) == Elems(r[..last]) + {r[last]};
      assert r[last] !in r[..last];
    }
  }

  lemma {:induction false} OrderedUnique(a: seq<Id>, b: seq<Id>, target: Id)
    requires Ordered(a, target) && Ordered(b, target) && Elems(a) == Elems(b)
    ensures a == b
  {
    OrderedCard(a, target);
    OrderedCard(b, target);
    if a != [] {
      var last := |a| - 1;
      assert a[last] in Elems(b) && b[last] in Elems(a);
      DistInjective(a[last], b[last], target);
      assert Elems(a[..last]) == Elems(a) - {a[last]} by {
        assert a[last] !in a[..last];
      }
      assert Elems(b[..last]) == Elems(b) - {b[last]} by {
        assert b[last] !in b[..last];
      }
      OrderedUnique(a[..last], b[..last], target);
      assert a == a[..last] + [a[last]] && b == b[..last] + [b[last]];
    } else {
      assert b == [];
    }
  }

  lemma NearestListUnique(a: seq<Id>, b: seq<Id>, s: set<Id>, target: Id, k: nat)
    requires IsNearestList(a, s, target, k) && IsNearestList(b, s, target, k)
    ensures a == b
  {
    OrderedUnique(a, b, target);
  }

  // Position i of an ordered enumeration has exactly i nearer members.
  lemma RankIsIndex(r: seq<Id>, target: Id, i: nat)
    requires Ordered(r, target) && i < |r|
    ensures |Nearer(Elems(r), r[i], target)| == i
  {
    assert Nearer(Elems(r), r[i], target) == Elems(r[..i]);
    OrderedCard(r[..i], target);
  }

  // Sorting everything and keeping a prefix yields the k nearest.
  lemma PrefixIsNearest(r: seq<Id>, target: Id, k: nat)
    requires Ordered(r, target)
    ensures IsNearestList(r[..Min(k, |r|)], Elems(r), target, k)
  {
    var p := r[..Min(k, |r|)];
    forall x ensures x in Elems(p) <==> x in Top(Elems(r), target, k) {
      if x in Elems(r) {
        var i :| 0 <= i < |r| && r[i] == x;
        RankIsIndex(r, target, i);
        assert x in p <==> i < |p|;
      }
    }
  }

  // At most k members, all of them if fewer, and nearer than every other one: the k nearest.
  lemma NearestPart(b: set<Id>, s: set<Id>, target: Id, k: nat)
    requires b <= s && |b| <= k && (|b| < k ==> b == s)
    requires forall x, y :: x in b && y in s - b ==> Dist(x, target) < Dist(y, target)
    ensures b == Top(s, target, k)
  {
    forall x | x in s ensures x in b <==> |Nearer(s, x, target)| < k {
      if x in b {
        SubsetCard(Nearer(s, x, target), b - {x});
      } else {
        SubsetCard(b, Nearer(s, x, target));
      }
    }
  }

  ghost function Farthest(s: set<Id>, target: Id): (x: Id)
    requires s != {}
    ensures x in s && forall y :: y in s ==> Dist(y, target) <= Dist(x, target)
    decreases |s|
  {
    var x :| x in s;
    if s == {x} then x
    else
      assert s == s - {x} + {x};
      var y := Farthest(s - {x}, target);
      if Dist(y, target) <= Dist(x, target) then x else y
  }

  lemma FarthestStrict(s: set<Id>, target: Id, x: Id)
    requires x in s && forall y :: y in s ==> Dist(y, target) <= Dist(x, target)
    ensures forall y :: y in s - {x} ==> Dist(y, target) < Dist(x, target)
  {
    forall y | y in s - {x} ensures Dist(y, target) < Dist(x, target) {
      if Dist(y, target) == Dist(x, target) {
        DistInjective(y, x, target);
      }
    }
  }

  lemma AppendFarther(r: seq<Id>, x: Id, target: Id)
    requires Ordered(r, target)
    requires forall y :: y in Elems(r) ==> Dist(y, target) < Dist(x, target)
    ensures Ordered(r + [x], target) && Elems(r + [x]) == Elems(r) + {x}
  {
    assert forall i :: 0 <= i < |r| ==> r[i] in Elems(r);
    assert (r + [x])[|r|] == x;
  }

  lemma {:induction false} SortedExists(s: set<Id>, target: Id) returns (r: seq<Id>)
    ensures Ordered(r, target) && Elems(r) == s
    decreases |s|
  {
    if s == {} {
      r := [];
    } else {
      var x := Farthest(s, target);
      FarthestStrict(s, target, x);
      var rest := SortedExists(s - {x}, target);
      AppendFarther(rest, x, target);
      r := rest + [x];
    }
  }

  // ------------------------------------------------------------------ the set of the k nearest

  lemma TopSize(s: set<Id>, target: Id, k: nat)
    ensures |Top(s, target, k)| == Min(k, |s|)
  {
    var r := SortedExists(s, target);
    OrderedCard(r, target);
    PrefixIsNearest(r, target, k);
    OrderedCard(r[..Min(k, |r|)], target);
  }

  lemma NearestListSize(r: seq<Id>, s: set<Id>, target: Id, k: nat)
    requires IsNearestList(r, s, target, k)
    ensures |r| == Min(k, |s|)
  {
    OrderedCard(r, target);
    TopSize(s, target, k);
  }

  lemma TopClosed(s: set<Id>, target: Id, k: nat, x: Id, y: Id)
    requires x in Top(s, target, k) && y in s && Dist(y, target) < Dist(x, target)
    ensures y in Top(s, target, k)
  {
    SubsetCard(Nearer(s, y, target), Nearer(s, x, target));
  }

  // A member left out of the k nearest is farther than all of them, and they number k.
  lemma LeftOut(s: set<Id>, target: Id, k: nat, y: Id)
    requires y in s && y !in Top(s, target, k)
    ensures forall x :: x in Top(s, target, k) ==> Dist(x, target) < Dist(y, target)
    ensures |Top(s, target, k)| == k
  {
    TopSize(s, target, k);
    SubsetCard(Nearer(s, y, target), s);
    forall x | x in Top(s, target, k) ensures Dist(x, target) < Dist(y, target) {
      if Dist(x, target) == Dist(y, target) {
        DistInjective(x, y, target);
      } else if Dist(y, target) < Dist(x, target) {
        TopClosed(s, target, k, x, y);
      }
    }
  }

  // A set that is closed under "nearer member of s" and is either of size k or all of s
  // is the set of the k nearest.
  lemma ClosedIsTop(c: set<Id>, s: set<Id>, target: Id, k: nat)
    requires c <= s && |c| <= k
    requires forall x, y :: x in c && y in s && Dist(y, target) < Dist(x, target) ==> y in c
    requires |c| == k || c == s
    ensures c == Top(s, target, k)
  {
    TopSize(s, target, k);
    forall x | x in c ensures x in Top(s, target, k) {
      assert Nearer(s, x, target) <= c - {x};
      SubsetCard(Nearer(s, x, target), c - {x});
    }
    SubsetCard(c, s);
    SubsetCard(c, Top(s, target, k));
  }

  // Dropping a member outside the k nearest does not change them.
  lemma TopWithout(s: set<Id>, target: Id, k: nat, x: Id)
    requires x !in Top(s, target, k)
    ensures Top(s - {x}, target, k) == Top(s, target, k)
  {
    if x in s {
      LeftOut(s, target, k, x);
      var c := Top(s, target, k);
      forall y, z | y in c && z in s && Dist(z, target) < Dist(y, target) ensures z in c {
        TopClosed(s, target, k, y, z);
      }
      ClosedIsTop(c, s - {x}, target, k);
    } else {
      assert s - {x} == s;
    }
  }

  // The k nearest of s, found from the k nearest of the others plus x itself.
  lemma TopRestored(s: set<Id>, target: Id, k: nat, x: Id)
    requires x in s
    ensures Top(Top(s - {x}, target, k) + {x}, target, k) == Top(s, target, k)
  {
    var others := s - {x};
    var pool := Top(others, target, k) + {x};
    var c := Top(s, target, k);
    TopSize(s, target, k);
    forall y | y in c ensures y in pool {
      if y != x {
        SubsetCard(Nearer(others, y, target), Nearer(s, y, target));
      }
    }
    forall y, z | y in c && z in pool && Dist(z, target) < Dist(y, target) ensures z in c {
      TopClosed(s, target, k, y, z);
    }
    if |c| < k {
      assert c == s by { SubsetCard(c, s); }
    }
    ClosedIsTop(c, pool, target, k);
  }
}
