/**
  Sums of natural-number weights over a finite set, used to state that the
  corpus record is the sum of the class records and that a record's running
  total is the sum of its table.
 */
module Sums {

  /** Some element of a non-empty set, chosen once and for all. */
  ghost function Pick<K>(s: set<K>): (x: K)
    requires s != {}
    ensures x in s
  {
    var x :| x in s; x
  }

  /** The sum of f(x) over the elements x of s. */
  ghost function SumSet<K>(s: set<K>, f: K -> nat): nat
    decreases |s|
  {
    if s == {} then 0 else f(Pick(s)) + SumSet(s - {Pick(s)}, f)
  }

  /** Any element may be taken out first, not only the one Pick chooses. */
  lemma {:induction false} SumSetRemove<K>(s: set<K>, f: K -> nat, y: K)
    requires y in s
    ensures SumSet(s, f) == f(y) + SumSet(s - {y}, f)
    decreases |s|
  {
    var x := Pick(s);
    if x != y {
      SumSetRemove(s - {x}, f, y);
      SumSetRemove(s - {y}, f, x);
      assert s - {x} - {y} == s - {y} - {x};
    }
  }

  /** The sum only depends on the weights of the elements of s. */
  lemma {:induction false} SumSetExt<K>(s: set<K>, f: K -> nat, g: K -> nat)
    requires forall x :: x in s ==> f(x) == g(x)
    ensures SumSet(s, f) == SumSet(s, g)
    decreases |s|
  {
    if s != {} {
      SumSetExt(s - {Pick(s)}, f, g);
    }
  }

  /** Adding a new element adds its weight. */
  lemma SumSetInsert<K>(s: set<K>, f: K -> nat, y: K)
    requires y !in s
    ensures SumSet(s + {y}, f) == f(y) + SumSet(s, f)
  {
    SumSetRemove(s + {y}, f, y);
    assert s + {y} - {y} == s;
  }

  /** Raising the weight of one element by d raises the sum by d. */
  lemma SumSetBump<K>(s: set<K>, f: K -> nat, g: K -> nat, y: K, d: nat)
    requires y in s && g(y) == f(y) + d
    requires forall x :: x in s && x != y ==> g(x) == f(x)
    ensures SumSet(s, g) == SumSet(s, f) + d
  {
    SumSetRemove(s, f, y);
    SumSetRemove(s, g, y);
    SumSetExt(s - {y}, f, g);
  }

  /** Each weight is at most the sum. */
  lemma SumSetAtLeast<K>(s: set<K>, f: K -> nat, y: K)
    requires y in s
    ensures f(y) <= SumSet(s, f)
  {
    SumSetRemove(s, f, y);
  }
}
