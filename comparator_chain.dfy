/**
 * The multi-field comparator chain of the second pass. Each sort field has a
 * field comparator and a direction flag (+1 or -1); the chain returns the
 * first non-zero direction-adjusted field comparison and, when every field
 * compares equal, the difference of the two global document ids.
 */
module ComparatorChain {

  /** Field comparator i applied to two captured values of field i. */
  type FieldCmp<!V> = (nat, V, V) -> int

  function Sign(x: int): int {
    if x < 0 then -1 else if x > 0 then 1 else 0
  }

  /** Swapping the arguments of field comparator i flips the sign. */
  ghost predicate AntisymmetricAt<V>(cmp: FieldCmp<V>, i: nat, x: V, y: V) {
    Sign(cmp(i, x, y)) == -Sign(cmp(i, y, x))
  }

  /** "Compares at most" is transitive for field comparator i. */
  ghost predicate TransitiveAt<V>(cmp: FieldCmp<V>, i: nat, x: V, y: V, z: V) {
    cmp(i, x, y) <= 0 && cmp(i, y, z) <= 0 ==> cmp(i, x, z) <= 0
  }

  /**
   * The contract of a Java comparator, for every field comparator: swapping
   * the arguments flips the sign, and "compares at most" is transitive.
   */
  ghost predicate ConsistentComparator<V(!new)>(cmp: FieldCmp<V>) {
    && (forall i, x, y :: AntisymmetricAt(cmp, i, x, y))
    && (forall i, x, y, z :: TransitiveAt(cmp, i, x, y, z))
  }

  /** The comparator array and the `reversed` array of the second pass. */
  datatype ChainOrder<!V> = ChainOrder(reversed: seq<int>, fieldCmp: FieldCmp<V>) {
    predicate Valid() {
      && |reversed| > 0
      && forall i :: 0 <= i < |reversed| ==> reversed[i] == 1 || reversed[i] == -1
    }

    function FieldCount(): nat {
      |reversed|
    }
  }

  /** What the chain looks at for one collected group: its slot's values and its global doc id. */
  datatype SortKey<V> = SortKey(values: seq<V>, topDoc: int)

  predicate Fits<V>(o: ChainOrder<V>, a: SortKey<V>) {
    |a.values| == |o.reversed|
  }

  /** `reversed[i] * comparators[i].compare(...)`. */
  function Directed<V>(o: ChainOrder<V>, i: nat, a: SortKey<V>, b: SortKey<V>): int
    requires Fits(o, a) && Fits(o, b) && i < |o.reversed|
  {
    o.reversed[i] * o.fieldCmp(i, a.values[i], b.values[i])
  }

  /** The loop of the comparator lambda, started at field i. */
  function ChainFrom<V>(o: ChainOrder<V>, a: SortKey<V>, b: SortKey<V>, i: nat): int
    requires Fits(o, a) && Fits(o, b) && i < |o.reversed|
    decreases |o.reversed| - i
  {
    var c := Directed(o, i, a, b);
    if c != 0 then c
    else if i == |o.reversed| - 1 then a.topDoc - b.topDoc
    else ChainFrom(o, a, b, i + 1)
  }

  /** The comparator the ordered set of the second pass is built with. */
  function Chain<V>(o: ChainOrder<V>, a: SortKey<V>, b: SortKey<V>): int
    requires o.Valid() && Fits(o, a) && Fits(o, b)
  {
    ChainFrom(o, a, b, 0)
  }

  /** a sorts strictly before b under the chain. */
  predicate Before<V>(o: ChainOrder<V>, a: SortKey<V>, b: SortKey<V>)
    requires o.Valid()
  {
    Fits(o, a) && Fits(o, b) && Chain(o, a, b) < 0
  }

  lemma {:induction false} ChainFromFirstDifference<V>(o: ChainOrder<V>, a: SortKey<V>, b: SortKey<V>, i: nat, k: nat)
    requires Fits(o, a) && Fits(o, b) && i <= k < |o.reversed|
    requires forall j :: i <= j < k ==> Directed(o, j, a, b) == 0
    requires Directed(o, k, a, b) != 0
    ensures ChainFrom(o, a, b, i) == Directed(o, k, a, b)
    decreases k - i
  {
    if i < k {
      ChainFromFirstDifference(o, a, b, i + 1, k);
    }
  }

  /** The chain returns the first non-zero direction-adjusted field comparison. */
  lemma ChainFirstDifference<V>(o: ChainOrder<V>, a: SortKey<V>, b: SortKey<V>, k: nat)
    requires o.Valid() && Fits(o, a) && Fits(o, b) && k < o.FieldCount()
    requires forall j :: 0 <= j < k ==> o.fieldCmp(j, a.values[j], b.values[j]) == 0
    requires o.fieldCmp(k, a.values[k], b.values[k]) != 0
    ensures Chain(o, a, b) == Directed(o, k, a, b)
    ensures Sign(Chain(o, a, b)) == o.reversed[k] * Sign(o.fieldCmp(k, a.values[k], b.values[k]))
  {
    ChainFromFirstDifference(o, a, b, 0, k);
  }

  lemma {:induction false} ChainFromTie<V>(o: ChainOrder<V>, a: SortKey<V>, b: SortKey<V>, i: nat)
    requires Fits(o, a) && Fits(o, b) && i < |o.reversed|
    requires forall j :: i <= j < |o.reversed| ==> Directed(o, j, a, b) == 0
    ensures ChainFrom(o, a, b, i) == a.topDoc - b.topDoc
    decreases |o.reversed| - i
  {
    if i < |o.reversed| - 1 {
      ChainFromTie(o, a, b, i + 1);
    }
  }

  /** When every field compares equal, the lower global doc id sorts first. */
  lemma ChainTieBreak<V>(o: ChainOrder<V>, a: SortKey<V>, b: SortKey<V>)
    requires o.Valid() && Fits(o, a) && Fits(o, b)
    requires forall j :: 0 <= j < o.FieldCount() ==> o.fieldCmp(j, a.values[j], b.values[j]) == 0
    ensures Chain(o, a, b) == a.topDoc - b.topDoc
    ensures Chain(o, a, b) < 0 <==> a.topDoc < b.topDoc
  {
    ChainFromTie(o, a, b, 0);
  }

  /** Every field compares equal on a and b, from field i on. */
  ghost predicate FieldsEqualFrom<V>(o: ChainOrder<V>, a: SortKey<V>, b: SortKey<V>, i: nat)
    requires Fits(o, a) && Fits(o, b)
  {
    forall j :: i <= j < |o.reversed| ==> o.fieldCmp(j, a.values[j], b.values[j]) == 0
  }

  lemma {:induction false} ChainFromZero<V>(o: ChainOrder<V>, a: SortKey<V>, b: SortKey<V>, i: nat)
    requires o.Valid() && Fits(o, a) && Fits(o, b) && i < |o.reversed|
    ensures ChainFrom(o, a, b, i) == 0 <==> a.topDoc == b.topDoc && FieldsEqualFrom(o, a, b, i)
    decreases |o.reversed| - i
  {
    if i < |o.reversed| - 1 {
      ChainFromZero(o, a, b, i + 1);
    }
  }

  /**
   * The chain returns 0 only for the same global doc id with every field
   * equal: distinct documents never tie.
   */
  lemma ChainZero<V>(o: ChainOrder<V>, a: SortKey<V>, b: SortKey<V>)
    requires o.Valid() && Fits(o, a) && Fits(o, b)
    ensures Chain(o, a, b) == 0 <==> a.topDoc == b.topDoc && FieldsEqualFrom(o, a, b, 0)
    ensures a.topDoc != b.topDoc ==> Chain(o, a, b) != 0
  {
    ChainFromZero(o, a, b, 0);
  }

  /** The facts about one direction-adjusted field comparison that a consistent comparator gives. */
  lemma DirectedConsistent<V(!new)>(o: ChainOrder<V>, i: nat, a: SortKey<V>, b: SortKey<V>, c: SortKey<V>)
    requires o.Valid() && ConsistentComparator(o.fieldCmp)
    requires Fits(o, a) && Fits(o, b) && Fits(o, c) && i < |o.reversed|
    ensures Sign(Directed(o, i, a, b)) == -Sign(Directed(o, i, b, a))
    ensures Directed(o, i, a, b) <= 0 && Directed(o, i, b, c) <= 0 ==> Directed(o, i, a, c) <= 0
    ensures Directed(o, i, a, b) < 0 && Directed(o, i, b, c) <= 0 ==> Directed(o, i, a, c) < 0
    ensures Directed(o, i, a, b) <= 0 && Directed(o, i, b, c) < 0 ==> Directed(o, i, a, c) < 0
  {
    var cmp := o.fieldCmp;
    var x, y, z := a.values[i], b.values[i], c.values[i];
    assert AntisymmetricAt(cmp, i, x, y) && AntisymmetricAt(cmp, i, y, z) && AntisymmetricAt(cmp, i, x, z);
    assert TransitiveAt(cmp, i, x, y, z) && TransitiveAt(cmp, i, z, y, x) && TransitiveAt(cmp, i, y, z, x);
    assert TransitiveAt(cmp, i, z, x, y) && TransitiveAt(cmp, i, y, x, z) && TransitiveAt(cmp, i, x, z, y);
  }

  lemma {:induction false} ChainFromAntisymmetric<V(!new)>(o: ChainOrder<V>, a: SortKey<V>, b: SortKey<V>, i: nat)
    requires o.Valid() && ConsistentComparator(o.fieldCmp)
    requires Fits(o, a) && Fits(o, b) && i < |o.reversed|
    ensures Sign(ChainFrom(o, a, b, i)) == -Sign(ChainFrom(o, b, a, i))
    decreases |o.reversed| - i
  {
    DirectedConsistent(o, i, a, b, a);
    if i < |o.reversed| - 1 {
      ChainFromAntisymmetric(o, a, b, i + 1);
    }
  }

  /** Swapping the two groups flips the sign of the chain. */
  lemma ChainAntisymmetric<V(!new)>(o: ChainOrder<V>, a: SortKey<V>, b: SortKey<V>)
    requires o.Valid() && ConsistentComparator(o.fieldCmp) && Fits(o, a) && Fits(o, b)
    ensures Sign(Chain(o, a, b)) == -Sign(Chain(o, b, a))
  {
    ChainFromAntisymmetric(o, a, b, 0);
  }

  lemma {:induction false} ChainFromTransitive<V(!new)>(o: ChainOrder<V>, a: SortKey<V>, b: SortKey<V>, c: SortKey<V>, i: nat)
    requires o.Valid() && ConsistentComparator(o.fieldCmp)
    requires Fits(o, a) && Fits(o, b) && Fits(o, c) && i < |o.reversed|
    requires ChainFrom(o, a, b, i) < 0 && ChainFrom(o, b, c, i) < 0
    ensures ChainFrom(o, a, c, i) < 0
    decreases |o.reversed| - i
  {
    DirectedConsistent(o, i, a, b, c);
    DirectedConsistent(o, i, b, c, a);
    DirectedConsistent(o, i, c, a, b);
    if Directed(o, i, a, b) == 0 && Directed(o, i, b, c) == 0 && i < |o.reversed| - 1 {
      ChainFromTransitive(o, a, b, c, i + 1);
    }
  }

  /** The chain is transitive: with antisymmetry and ChainZero, a strict total order on distinct docs. */
  lemma ChainTransitive<V(!new)>(o: ChainOrder<V>, a: SortKey<V>, b: SortKey<V>, c: SortKey<V>)
    requires o.Valid() && ConsistentComparator(o.fieldCmp)
    requires Fits(o, a) && Fits(o, b) && Fits(o, c)
    requires Chain(o, a, b) < 0 && Chain(o, b, c) < 0
    ensures Chain(o, a, c) < 0
  {
    ChainFromTransitive(o, a, b, c, 0);
  }
}
