/** Sums of naturals over a finite set. */
module Sums {

  ghost function Sum<K(!new)>(keys: set<K>, f: K -> nat): nat {
    if keys == {} then 0
    else
      var k :| k in keys;
      f(k) + Sum(keys - {k}, f)
  }

  lemma {:induction false} SumSplit<K(!new)>(keys: set<K>, f: K -> nat, k: K)
    requires k in keys
    ensures Sum(keys, f) == f(k) + Sum(keys - {k}, f)
    decreases |keys|
  {
    var l :| l in keys && Sum(keys, f) == f(l) + Sum(keys - {l}, f);
    if l != k {
      SumSplit(keys - {l}, f, k);
      SumSplit(keys - {k}, f, l);
      assert keys - {l} - {k} == keys - {k} - {l};
    }
  }

  lemma {:induction false} SumAtMost<K(!new)>(keys: set<K>, f: K -> nat, g: K -> nat)
    requires forall k | k in keys :: f(k) <= g(k)
    ensures Sum(keys, f) <= Sum(keys, g)
    decreases |keys|
  {
    if k :| k in keys {
      SumSplit(keys, f, k);
      SumSplit(keys, g, k);
      SumAtMost(keys - {k}, f, g);
    }
  }

  // Changing one summand.
  lemma SumChanges<K(!new)>(keys: set<K>, f: K -> nat, g: K -> nat, k: K)
    requires k in keys && forall l | l in keys && l != k :: f(l) == g(l)
    ensures Sum(keys, g) == Sum(keys, f) - f(k) + g(k)
  {
    SumSplit(keys, f, k);
    SumSplit(keys, g, k);
    SumAtMost(keys - {k}, f, g);
    SumAtMost(keys - {k}, g, f);
  }

  lemma {:induction false} SumOfMore<K(!new)>(keys: set<K>, more: set<K>, f: K -> nat)
    requires keys <= more
    ensures Sum(keys, f) <= Sum(more, f)
    decreases |more|
  {
    if k :| k in more && k !in keys {
      SumSplit(more, f, k);
      SumOfMore(keys, more - {k}, f);
    } else {
      assert keys == more;
    }
  }
}
