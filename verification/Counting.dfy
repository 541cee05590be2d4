/** Sums over finite sets of keys, for conservation arguments. */
module Counting {
  /** The sum of `weight` over the keys. */
  ghost function Sum<K>(keys: set<K>, weight: K -> nat): nat {
    if keys == {} then 0 else
      var k :| k in keys;
      weight(k) + Sum(keys - {k}, weight)
  }

  /** The order in which keys are summed does not matter. */
  lemma {:induction false} SumSplit<K>(keys: set<K>, k: K, weight: K -> nat)
    requires k in keys
    ensures Sum(keys, weight) == weight(k) + Sum(keys - {k}, weight)
    decreases |keys|
  {
    var first :| first in keys && Sum(keys, weight) == weight(first) + Sum(keys - {first}, weight);
    if first != k {
      SumSplit(keys - {first}, k, weight);
      SumSplit(keys - {k}, first, weight);
      assert keys - {first} - {k} == keys - {k} - {first};
    }
  }

  /** Only the values at the summed keys matter. */
  lemma {:induction false} SumAgree<K>(keys: set<K>, f: K -> nat, g: K -> nat)
    requires forall k | k in keys :: f(k) == g(k)
    ensures Sum(keys, f) == Sum(keys, g)
    decreases |keys|
  {
    if keys != {} {
      var k :| k in keys;
      SumSplit(keys, k, f);
      SumSplit(keys, k, g);
      SumAgree(keys - {k}, f, g);
    }
  }

  /** If every key of positive weight has its own heavier image, the images outweigh the keys. */
  lemma {:induction false} SumInjection<A, B>(keys: set<A>, f: A -> nat, images: set<B>, g: B -> nat, image: A -> B)
    requires forall a | a in keys && f(a) > 0 :: image(a) in images && f(a) <= g(image(a))
    requires forall a, b | a in keys && b in keys && f(a) > 0 && f(b) > 0 && image(a) == image(b) :: a == b
    ensures Sum(keys, f) <= Sum(images, g)
    decreases |keys|
  {
    if keys != {} {
      var a :| a in keys;
      SumSplit(keys, a, f);
      if f(a) > 0 {
        SumSplit(images, image(a), g);
        SumInjection(keys - {a}, f, images - {image(a)}, g, image);
      } else {
        SumInjection(keys - {a}, f, images, g, image);
      }
    }
  }

  /** A set that is part of another and as large as it is that other set. */
  lemma {:induction false} SubsetOfSameSize<T>(part: set<T>, whole: set<T>)
    requires part <= whole && |part| == |whole|
    ensures part == whole
    decreases |part|
  {
    if part != {} {
      var x :| x in part;
      SubsetOfSameSize(part - {x}, whole - {x});
      assert part == part - {x} + {x} == whole - {x} + {x} == whole;
    }
  }

  lemma {:induction false} SubsetSize<T>(part: set<T>, whole: set<T>)
    requires part <= whole
    ensures |part| <= |whole|
    decreases |part|
  {
    if part != {} {
      var x :| x in part;
      SubsetSize(part - {x}, whole - {x});
    }
  }

  // ---- Lists without repetition ----

  predicate Distinct<T(==)>(s: seq<T>) { forall i, j | 0 <= i < j < |s| :: s[i] != s[j] }

  function Members<T>(s: seq<T>): set<T> { set x | x in s }

  /** A list is as long as it has members exactly if nothing is repeated. */
  lemma {:induction false} MembersSize<T>(s: seq<T>)
    ensures |Members(s)| <= |s|
    ensures |Members(s)| == |s| <==> Distinct(s)
  {
    if s != [] {
      var n := |s| - 1;
      MembersSize(s[..n]);
      assert s == s[..n] + [s[n]];
      assert Members(s) == Members(s[..n]) + {s[n]};
      if s[n] in Members(s[..n]) {
        var i :| 0 <= i < n && s[i] == s[n];
        assert Members(s) == Members(s[..n]);
      } else {
        assert forall i | 0 <= i < n :: s[i] in Members(s[..n]);
        assert Distinct(s[..n]) ==> Distinct(s);
      }
    }
  }

  // ---- New identifiers ----

  /** Some number is larger than all of these. */
  lemma {:induction false} Unused(ids: set<nat>) returns (k: nat)
    ensures k !in ids && forall x | x in ids :: x < k
    decreases |ids|
  {
    k := 0;
    if ids != {} {
      var x :| x in ids;
      var y := Unused(ids - {x});
      assert ids == ids - {x} + {x};
      k := if x < y then y else x + 1;
    }
  }
}
