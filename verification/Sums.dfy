/** Sums over a finite set of keys. */
module Sums {

  ghost function Sum(keys: set<nat>, f: nat -> nat): nat
    decreases |keys|
  {
    if keys == {} then 0
    else
      var k :| k in keys;
      f(k) + Sum(keys - {k}, f)
  }

  lemma {:induction false} SumWithout(keys: set<nat>, f: nat -> nat, k: nat)
    requires k in keys
    ensures Sum(keys, f) == f(k) + Sum(keys - {k}, f)
    decreases |keys|
  {
    var j :| j in keys && Sum(keys, f) == f(j) + Sum(keys - {j}, f);
    if j != k {
      SumWithout(keys - {j}, f, k);
      SumWithout(keys - {k}, f, j);
      assert keys - {j} - {k} == keys - {k} - {j};
    }
  }

  lemma {:induction false} SumSame(keys: set<nat>, f: nat -> nat, g: nat -> nat)
    requires forall k | k in keys :: f(k) == g(k)
    ensures Sum(keys, f) == Sum(keys, g)
    decreases |keys|
  {
    if keys != {} {
      var k :| k in keys;
      SumWithout(keys, f, k);
      SumWithout(keys, g, k);
      SumSame(keys - {k}, f, g);
    }
  }

  /** Keys that weigh nothing may be left out. */
  lemma {:induction false} SumWithoutFree(keys: set<nat>, free: set<nat>, f: nat -> nat)
    requires free <= keys && forall k | k in free :: f(k) == 0
    ensures Sum(keys - free, f) == Sum(keys, f)
    decreases |free|
  {
    if free == {} {
      assert keys - free == keys;
    } else {
      var k :| k in free;
      SumWithout(keys, f, k);
      SumWithoutFree(keys - {k}, free - {k}, f);
      assert keys - {k} - (free - {k}) == keys - free;
    }
  }

  /** A part weighs no more than the whole. */
  lemma {:induction false} SumOfPart(part: set<nat>, keys: set<nat>, f: nat -> nat)
    requires part <= keys
    ensures Sum(part, f) <= Sum(keys, f)
    decreases |part|
  {
    if part != {} {
      var k :| k in part;
      SumWithout(part, f, k);
      SumWithout(keys, f, k);
      SumOfPart(part - {k}, keys - {k}, f);
    }
  }
}
