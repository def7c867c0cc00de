/**
 * The ordered set of collected groups (a TreeSet in the source), kept as a
 * strictly sorted sequence under the comparator chain. A group names a slot
 * of the field comparators' storage; `store[slot]` holds the values the
 * comparators captured for it.
 */
module OrderedGroups {
  import opened ComparatorChain

  /** A collected group: its collapse key, its comparator slot and its global doc id. */
  datatype CollectedGroup<K> = CollectedGroup(groupValue: K, slot: nat, topDoc: int)

  /** A group as reported: its collapse key and one sort value per sort field. */
  datatype SearchGroup<K, V> = SearchGroup(groupValue: K, sortValues: seq<V>)

  /** The group's slot is allocated and holds one value per sort field. */
  predicate SlotReady<K, V>(o: ChainOrder<V>, store: seq<seq<V>>, g: CollectedGroup<K>) {
    g.slot < |store| && |store[g.slot]| == |o.reversed|
  }

  predicate AllReady<K, V>(o: ChainOrder<V>, store: seq<seq<V>>, s: seq<CollectedGroup<K>>) {
    forall j :: 0 <= j < |s| ==> SlotReady(o, store, s[j])
  }

  function KeyOf<K, V>(store: seq<seq<V>>, g: CollectedGroup<K>): SortKey<V>
    requires g.slot < |store|
  {
    SortKey(store[g.slot], g.topDoc)
  }

  /** The set's comparator: the chain applied to the two groups' slots and doc ids. */
  function Compare<K, V>(o: ChainOrder<V>, store: seq<seq<V>>, a: CollectedGroup<K>, b: CollectedGroup<K>): int
    requires o.Valid() && SlotReady(o, store, a) && SlotReady(o, store, b)
  {
    Chain(o, KeyOf(store, a), KeyOf(store, b))
  }

  /** Strictly increasing under the chain: the iteration order of the set. */
  ghost predicate Sorted<K, V>(o: ChainOrder<V>, store: seq<seq<V>>, s: seq<CollectedGroup<K>>)
    requires o.Valid() && AllReady(o, store, s)
  {
    forall i, j {:trigger Compare(o, store, s[i], s[j])} :: 0 <= i < j < |s| ==> Compare(o, store, s[i], s[j]) < 0
  }

  /** Some element of the set compares equal to g. */
  ghost predicate HasTie<K, V>(o: ChainOrder<V>, store: seq<seq<V>>, s: seq<CollectedGroup<K>>, g: CollectedGroup<K>)
    requires o.Valid() && AllReady(o, store, s) && SlotReady(o, store, g)
  {
    exists k :: 0 <= k < |s| && Compare(o, store, g, s[k]) == 0
  }

  /**
   * TreeSet.add: walk the set in order, place g before the first element it
   * sorts below, and leave the set alone when an element compares equal.
   */
  function Insert<K, V>(o: ChainOrder<V>, store: seq<seq<V>>, s: seq<CollectedGroup<K>>, g: CollectedGroup<K>): (r: seq<CollectedGroup<K>>)
    requires o.Valid() && AllReady(o, store, s) && SlotReady(o, store, g)
    ensures AllReady(o, store, r)
    ensures forall j :: 0 <= j < |r| ==> r[j] == g || r[j] in s
    ensures |s| <= |r| <= |s| + 1 && |r| > 0
  {
    if s == [] then [g]
    else
      var c := Compare(o, store, g, s[0]);
      if c < 0 then [g] + s
      else if c == 0 then s
      else [s[0]] + Insert(o, store, s[1..], g)
  }

  /** Insertion keeps the set strictly sorted. */
  lemma {:induction false} InsertSorted<K, V(!new)>(o: ChainOrder<V>, store: seq<seq<V>>, s: seq<CollectedGroup<K>>, g: CollectedGroup<K>)
    requires o.Valid() && ConsistentComparator(o.fieldCmp)
    requires AllReady(o, store, s) && SlotReady(o, store, g)
    requires Sorted(o, store, s)
    ensures Sorted(o, store, Insert(o, store, s, g))
  {
    if s == [] {
    } else {
      var c := Compare(o, store, g, s[0]);
      if c < 0 {
        forall j | 0 <= j < |s|
          ensures Compare(o, store, g, s[j]) < 0
        {
          if j > 0 {
            assert Compare(o, store, s[0], s[j]) < 0;
            ChainTransitive(o, KeyOf(store, g), KeyOf(store, s[0]), KeyOf(store, s[j]));
          }
        }
        PrependSorted(o, store, g, s);
      } else if c > 0 {
        var t := Insert(o, store, s[1..], g);
        SortedTail(o, store, s);
        InsertSorted(o, store, s[1..], g);
        ChainAntisymmetric(o, KeyOf(store, g), KeyOf(store, s[0]));
        forall j | 0 <= j < |t|
          ensures Compare(o, store, s[0], t[j]) < 0
        {
          if t[j] != g {
            var m :| 0 <= m < |s[1..]| && s[1..][m] == t[j];
            assert s[m + 1] == t[j];
            assert Compare(o, store, s[0], s[m + 1]) < 0;
          }
        }
        PrependSorted(o, store, s[0], t);
      }
    }
  }

  /** An element below every element of a sorted set can go in front of it. */
  lemma PrependSorted<K, V>(o: ChainOrder<V>, store: seq<seq<V>>, x: CollectedGroup<K>, s: seq<CollectedGroup<K>>)
    requires o.Valid() && AllReady(o, store, s) && SlotReady(o, store, x) && Sorted(o, store, s)
    requires forall j :: 0 <= j < |s| ==> Compare(o, store, x, s[j]) < 0
    ensures AllReady(o, store, [x] + s) && Sorted(o, store, [x] + s)
  {
    var r := [x] + s;
    forall i, j | 0 <= i < j < |r|
      ensures Compare(o, store, r[i], r[j]) < 0
    {
      assert r[j] == s[j - 1];
      if i > 0 {
        assert r[i] == s[i - 1];
        assert Compare(o, store, s[i - 1], s[j - 1]) < 0;
      }
    }
  }

  /** Insertion leaves the set alone when some element ties with g under the chain. */
  lemma {:induction false} InsertTie<K, V(!new)>(o: ChainOrder<V>, store: seq<seq<V>>, s: seq<CollectedGroup<K>>, g: CollectedGroup<K>, k: nat)
    requires o.Valid() && ConsistentComparator(o.fieldCmp)
    requires AllReady(o, store, s) && SlotReady(o, store, g)
    requires Sorted(o, store, s)
    requires k < |s| && Compare(o, store, g, s[k]) == 0
    ensures Insert(o, store, s, g) == s
  {
    var c := Compare(o, store, g, s[0]);
    if c < 0 {
      assert Compare(o, store, s[0], s[k]) < 0;
      ChainTransitive(o, KeyOf(store, g), KeyOf(store, s[0]), KeyOf(store, s[k]));
      assert false;
    } else if c > 0 {
      var rest := s[1..];
      assert rest[k - 1] == s[k];
      SortedTail(o, store, s);
      InsertTie(o, store, rest, g, k - 1);
      assert s == [s[0]] + rest;
    }
  }

  /** Without a tie, insertion adds g and nothing else. */
  lemma {:induction false} InsertAdds<K, V(!new)>(o: ChainOrder<V>, store: seq<seq<V>>, s: seq<CollectedGroup<K>>, g: CollectedGroup<K>)
    requires o.Valid() && AllReady(o, store, s) && SlotReady(o, store, g)
    requires forall k :: 0 <= k < |s| ==> Compare(o, store, g, s[k]) != 0
    ensures multiset(Insert(o, store, s, g)) == multiset(s) + multiset{g}
  {
    if s != [] {
      var c := Compare(o, store, g, s[0]);
      if c < 0 {
        assert Insert(o, store, s, g) == [g] + s;
      } else {
        var rest := s[1..];
        assert forall k :: 0 <= k < |rest| ==> rest[k] == s[k + 1];
        InsertAdds(o, store, rest, g);
        assert s == [s[0]] + rest;
      }
    }
  }

  /**
   * Insertion is a no-op exactly when some element ties with g under the
   * chain; otherwise it adds g and nothing else.
   */
  lemma InsertContents<K, V(!new)>(o: ChainOrder<V>, store: seq<seq<V>>, s: seq<CollectedGroup<K>>, g: CollectedGroup<K>)
    requires o.Valid() && ConsistentComparator(o.fieldCmp)
    requires AllReady(o, store, s) && SlotReady(o, store, g)
    requires Sorted(o, store, s)
    ensures HasTie(o, store, s, g) ==> Insert(o, store, s, g) == s
    ensures !HasTie(o, store, s, g) ==> multiset(Insert(o, store, s, g)) == multiset(s) + multiset{g}
  {
    if HasTie(o, store, s, g) {
      var k :| 0 <= k < |s| && Compare(o, store, g, s[k]) == 0;
      InsertTie(o, store, s, g, k);
    } else {
      InsertAdds(o, store, s, g);
    }
  }

  /** The set without its first element is still sorted. */
  lemma SortedTail<K, V>(o: ChainOrder<V>, store: seq<seq<V>>, s: seq<CollectedGroup<K>>)
    requires o.Valid() && AllReady(o, store, s) && Sorted(o, store, s) && s != []
    ensures AllReady(o, store, s[1..]) && Sorted(o, store, s[1..])
  {
    var rest := s[1..];
    forall i, j | 0 <= i < j < |rest|
      ensures Compare(o, store, rest[i], rest[j]) < 0
    {
      assert rest[i] == s[i + 1] && rest[j] == s[j + 1];
      assert Compare(o, store, s[i + 1], s[j + 1]) < 0;
    }
  }

  /** Appending a fresh slot to the storage changes no comparison between existing groups. */
  lemma StoreGrowthKeepsOrder<K, V>(o: ChainOrder<V>, store: seq<seq<V>>, v: seq<V>, s: seq<CollectedGroup<K>>)
    requires o.Valid() && AllReady(o, store, s) && Sorted(o, store, s)
    ensures AllReady(o, store + [v], s)
    ensures Sorted(o, store + [v], s)
  {
    forall j | 0 <= j < |s|
      ensures KeyOf(store + [v], s[j]) == KeyOf(store, s[j])
    {
    }
    forall i, j | 0 <= i < j < |s|
      ensures Compare(o, store + [v], s[i], s[j]) < 0
    {
      assert Compare(o, store, s[i], s[j]) < 0;
    }
  }
}
