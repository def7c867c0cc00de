/**
 * The second pass (SortingCollectedSearchGroups): every document the group
 * selector accepts gets a fresh comparator slot, has its sort values copied
 * into that slot and is added to an ordered set sorted by the final sort's
 * comparator chain. There is no deduplication by key or by doc id.
 */
module SecondPass {
  import opened Sorting
  import opened ComparatorChain
  import opened OrderedGroups

  /** What the group selector answers for a document. */
  datatype SelectorState<K> = Skip | Accept(groupValue: K)

  /**
   * A segment (leaf reader context): its doc base and, per sort field, the
   * leaf comparator's value of each segment-local document.
   */
  datatype Segment<V> = Segment(docBase: int, leafValues: nat -> (int -> V))

  /** One collect call and the selector's answer for that document. */
  datatype Hit<K> = Hit(doc: int, state: SelectorState<K>)

  /** One segment as the search visits it: reader first, then its hits in order. */
  datatype SegmentRun<K, V> = SegmentRun(segment: Segment<V>, hits: seq<Hit<K>>)

  /**
   * An accepted document as the collector keeps it: its collapse key, its
   * global doc id and the sort values copied into its slot.
   */
  datatype Entry<K, V> = Entry(groupValue: K, doc: int, sortValues: seq<V>)

  /** The leaf comparators a segment binds for the first n sort fields. */
  function SegmentLeaves<V>(segment: Segment<V>, n: nat): (r: seq<int -> V>)
    ensures |r| == n
    ensures forall i :: 0 <= i < n ==> r[i] == segment.leafValues(i)
  {
    if n == 0 then [] else SegmentLeaves(segment, n - 1) + [segment.leafValues(n - 1)]
  }

  /** What the leaf comparators copy into a slot: field i's leaf value of the document. */
  function CopiedValues<V>(leaves: seq<int -> V>, doc: int): (r: seq<V>)
    ensures |r| == |leaves|
    ensures forall i :: 0 <= i < |leaves| ==> r[i] == leaves[i](doc)
  {
    seq(|leaves|, i requires 0 <= i < |leaves| => leaves[i](doc))
  }

  /** The entry of every accepted hit of one segment, in order, read through the given leaf comparators. */
  function AcceptedIn<K, V>(docBase: int, leaves: seq<int -> V>, hits: seq<Hit<K>>): seq<Entry<K, V>> {
    if hits == [] then []
    else
      var h := hits[0];
      (if h.state.Accept? then [Entry(h.state.groupValue, docBase + h.doc, CopiedValues(leaves, h.doc))] else [])
      + AcceptedIn(docBase, leaves, hits[1..])
  }

  /** The entries of one segment of a search whose sort has n fields. */
  function SegmentAccepted<K, V>(run: SegmentRun<K, V>, n: nat): seq<Entry<K, V>> {
    AcceptedIn(run.segment.docBase, SegmentLeaves(run.segment, n), run.hits)
  }

  /** The entry of every accepted hit of a search whose sort has n fields, in order. */
  function Accepted<K, V>(runs: seq<SegmentRun<K, V>>, n: nat): seq<Entry<K, V>> {
    if runs == [] then [] else SegmentAccepted(runs[0], n) + Accepted(runs[1..], n)
  }

  /**
   * e is the entry of hit h of the run: the selector accepted that document
   * with e's key, e's doc id is the segment's doc base plus the document, and
   * e's sort values are the segment's leaf values of the document.
   */
  ghost predicate FromHit<K, V>(run: SegmentRun<K, V>, n: nat, h: int, e: Entry<K, V>) {
    && 0 <= h < |run.hits|
    && run.hits[h].state == Accept(e.groupValue)
    && e.doc == run.segment.docBase + run.hits[h].doc
    && e.sortValues == CopiedValues(SegmentLeaves(run.segment, n), run.hits[h].doc)
  }

  /** Every entry of one segment, from hit `from` on, comes from one of its accepted hits. */
  lemma {:induction false} AcceptedInFromHit<K, V>(run: SegmentRun<K, V>, n: nat, from: nat, e: Entry<K, V>)
    requires from <= |run.hits|
    requires e in AcceptedIn(run.segment.docBase, SegmentLeaves(run.segment, n), run.hits[from..])
    ensures exists h :: FromHit(run, n, h, e)
    decreases |run.hits| - from
  {
    var base, leaves, hits := run.segment.docBase, SegmentLeaves(run.segment, n), run.hits[from..];
    assert hits != [];
    var here := if hits[0].state.Accept? then
      [Entry(hits[0].state.groupValue, base + hits[0].doc, CopiedValues(leaves, hits[0].doc))] else [];
    if e in here {
      assert FromHit(run, n, from, e);
    } else {
      assert hits[1..] == run.hits[from + 1..];
      AcceptedInFromHit(run, n, from + 1, e);
    }
  }

  /** e is the entry of an accepted hit of one of the runs. */
  ghost predicate HitOf<K, V>(runs: seq<SegmentRun<K, V>>, n: nat, e: Entry<K, V>) {
    exists s, h :: 0 <= s < |runs| && FromHit(runs[s], n, h, e)
  }

  /** Every accepted entry of a search comes from an accepted hit of one of its segments. */
  lemma {:induction false} AcceptedFromHit<K, V>(runs: seq<SegmentRun<K, V>>, n: nat, e: Entry<K, V>)
    requires e in Accepted(runs, n)
    ensures HitOf(runs, n, e)
  {
    if e in SegmentAccepted(runs[0], n) {
      assert runs[0].hits[0..] == runs[0].hits;
      AcceptedInFromHit(runs[0], n, 0, e);
      var h :| FromHit(runs[0], n, h, e);
      assert 0 <= 0 < |runs| && FromHit(runs[0], n, h, e);
    } else {
      AcceptedFromHit(runs[1..], n, e);
      var s, h :| 0 <= s < |runs[1..]| && FromHit(runs[1..][s], n, h, e);
      assert runs[1..][s] == runs[s + 1];
    }
  }

  /** The number of collect calls of a search. */
  function HitCount<K, V>(runs: seq<SegmentRun<K, V>>): nat {
    if runs == [] then 0 else |runs[0].hits| + HitCount(runs[1..])
  }

  /** A group's entry: its key, its doc id and the values its slot holds. */
  function EntryOf<K, V>(store: seq<seq<V>>, g: CollectedGroup<K>): Entry<K, V>
    requires g.slot < |store|
  {
    Entry(g.groupValue, g.topDoc, store[g.slot])
  }

  /** The entry of each group of s. */
  function Entries<K, V>(store: seq<seq<V>>, s: seq<CollectedGroup<K>>): (r: seq<Entry<K, V>>)
    requires forall j :: 0 <= j < |s| ==> s[j].slot < |store|
    ensures |r| == |s|
    ensures forall j :: 0 <= j < |s| ==> r[j] == EntryOf(store, s[j])
  {
    seq(|s|, j requires 0 <= j < |s| => EntryOf(store, s[j]))
  }

  ghost predicate DistinctDocs<K, V>(entries: seq<Entry<K, V>>) {
    forall i, j :: 0 <= i < j < |entries| ==> entries[i].doc != entries[j].doc
  }

  /** A fresh slot appended to the storage changes no existing group's entry. */
  lemma EntriesGrow<K, V>(store: seq<seq<V>>, s: seq<CollectedGroup<K>>, v: seq<V>, g: CollectedGroup<K>)
    requires forall j :: 0 <= j < |s| ==> s[j].slot < |store|
    requires g.slot == |store|
    ensures Entries(store + [v], s + [g]) == Entries(store, s) + [Entry(g.groupValue, g.topDoc, v)]
  {
    var r := Entries(store + [v], s + [g]);
    forall j | 0 <= j < |s|
      ensures r[j] == Entries(store, s)[j]
    {
      assert (s + [g])[j] == s[j];
    }
  }

  /** The search group reports the group's key and the values held in its slot. */
  ghost predicate Reports<K, V>(o: ChainOrder<V>, store: seq<seq<V>>, g: CollectedGroup<K>, sg: SearchGroup<K, V>)
    requires SlotReady(o, store, g)
  {
    sg.groupValue == g.groupValue && sg.sortValues == store[g.slot]
  }

  /** Slot k belongs to the k-th collected group and holds one value per sort field. */
  ghost predicate SlotsOwned<K, V>(o: ChainOrder<V>, store: seq<seq<V>>, collected: seq<CollectedGroup<K>>) {
    && |store| == |collected|
    && (forall k :: 0 <= k < |store| ==> |store[k]| == o.FieldCount())
    && (forall k :: 0 <= k < |collected| ==> collected[k].slot == k)
  }

  /** The set holds only collected groups, and is not empty once something was collected. */
  ghost predicate DrawnFrom<K>(ordered: seq<CollectedGroup<K>>, collected: seq<CollectedGroup<K>>) {
    && (forall j :: 0 <= j < |ordered| ==> ordered[j] in collected)
    && (|collected| > 0 ==> |ordered| > 0)
  }

  /** No two groups share a doc id. */
  ghost predicate DistinctTopDocs<K>(s: seq<CollectedGroup<K>>) {
    forall i, j :: 0 <= i < j < |s| ==> s[i].topDoc != s[j].topDoc
  }

  /** When the collected doc ids are distinct, the set holds every collected group, once each. */
  ghost predicate CompleteWhenDistinct<K>(ordered: seq<CollectedGroup<K>>, collected: seq<CollectedGroup<K>>) {
    DistinctTopDocs(collected) ==>
      |ordered| == |collected| && forall k :: 0 <= k < |collected| ==> collected[k] in ordered
  }

  /**
   * The invariant of the second pass's groups: slot k belongs to the k-th
   * collected group, the ordered set is sorted by the chain and holds only
   * collected groups, and holds all of them when their doc ids are distinct.
   */
  ghost predicate GroupsValid<K, V(!new)>(o: ChainOrder<V>, store: seq<seq<V>>, ordered: seq<CollectedGroup<K>>, collected: seq<CollectedGroup<K>>) {
    && o.Valid() && ConsistentComparator(o.fieldCmp)
    && SlotsOwned(o, store, collected)
    && AllReady(o, store, ordered)
    && Sorted(o, store, ordered)
    && DrawnFrom(ordered, collected)
    && CompleteWhenDistinct(ordered, collected)
  }

  /** The chain of a final sort: one direction flag per sort field, and the per-field comparison. */
  function FinalOrder<V>(sort: Sort, fieldCmp: FieldCmp<V>): (o: ChainOrder<V>)
    ensures o.Valid() && o.FieldCount() == |sort| && o.fieldCmp == fieldCmp
    ensures forall i :: 0 <= i < |sort| ==> o.reversed[i] == ReverseFlag(sort[i])
  {
    ChainOrder(seq(|sort|, i requires 0 <= i < |sort| => ReverseFlag(sort[i])), fieldCmp)
  }

  /** Reported groups read as chain keys: the group's sort values and its set element's doc id. */
  function GroupKeys<K, V>(groups: seq<SearchGroup<K, V>>, ordered: seq<CollectedGroup<K>>): (r: seq<SortKey<V>>)
    requires |groups| <= |ordered|
    ensures |r| == |groups|
    ensures forall p :: 0 <= p < |groups| ==> r[p] == SortKey(groups[p].sortValues, ordered[p].topDoc)
  {
    seq(|groups|, p requires 0 <= p < |groups| => SortKey(groups[p].sortValues, ordered[p].topDoc))
  }

  /** Reported groups read as entries: the group's key and sort values, and its set element's doc id. */
  function GroupEntries<K, V>(groups: seq<SearchGroup<K, V>>, ordered: seq<CollectedGroup<K>>): (r: seq<Entry<K, V>>)
    requires |groups| <= |ordered|
    ensures |r| == |groups|
    ensures forall p :: 0 <= p < |groups| ==> r[p] == Entry(groups[p].groupValue, ordered[p].topDoc, groups[p].sortValues)
  {
    seq(|groups|, p requires 0 <= p < |groups| => Entry(groups[p].groupValue, ordered[p].topDoc, groups[p].sortValues))
  }

  /** Strictly increasing under the chain. */
  ghost predicate KeysSorted<V>(o: ChainOrder<V>, keys: seq<SortKey<V>>)
    requires o.Valid()
  {
    forall p, q {:trigger Before(o, keys[p], keys[q])} :: 0 <= p < q < |keys| ==> Before(o, keys[p], keys[q])
  }

  /** Records that report the set's slots, in set order, are sorted by the set's chain. */
  lemma ReportsKeepOrder<K, V>(o: ChainOrder<V>, store: seq<seq<V>>, ordered: seq<CollectedGroup<K>>,
                                groups: seq<SearchGroup<K, V>>)
    requires o.Valid() && AllReady(o, store, ordered) && Sorted(o, store, ordered)
    requires |groups| == |ordered|
    requires forall p :: 0 <= p < |groups| ==> Reports(o, store, ordered[p], groups[p])
    ensures KeysSorted(o, GroupKeys(groups, ordered))
  {
    var keys := GroupKeys(groups, ordered);
    forall p, q | 0 <= p < q < |keys|
      ensures Before(o, keys[p], keys[q])
    {
      assert Reports(o, store, ordered[p], groups[p]) && Reports(o, store, ordered[q], groups[q]);
      assert keys[p] == KeyOf(store, ordered[p]) && keys[q] == KeyOf(store, ordered[q]);
      assert Compare(o, store, ordered[p], ordered[q]) < 0;
    }
  }

  /**
   * The set holds only collected groups' entries, is empty only when nothing
   * was collected, and holds every collected entry when the doc ids are distinct.
   */
  lemma CollectedContents<K, V(!new)>(o: ChainOrder<V>, store: seq<seq<V>>, ordered: seq<CollectedGroup<K>>,
                                      collected: seq<CollectedGroup<K>>)
    requires GroupsValid(o, store, ordered, collected)
    ensures |ordered| == 0 <==> |collected| == 0
    ensures forall p :: 0 <= p < |ordered| ==> Entries(store, ordered)[p] in Entries(store, collected)
    ensures DistinctDocs(Entries(store, collected)) ==>
      |ordered| == |collected| && forall i :: 0 <= i < |collected| ==> Entries(store, collected)[i] in Entries(store, ordered)
  {
    var inSet, all := Entries(store, ordered), Entries(store, collected);
    forall p | 0 <= p < |ordered|
      ensures inSet[p] in all
    {
      var k :| 0 <= k < |collected| && collected[k] == ordered[p];
      assert all[k] == inSet[p];
    }
    if DistinctDocs(all) {
      assert DistinctTopDocs(collected) by {
        forall i, j | 0 <= i < j < |collected|
          ensures collected[i].topDoc != collected[j].topDoc
        {
          assert all[i].doc != all[j].doc;
        }
      }
      forall i | 0 <= i < |collected|
        ensures all[i] in inSet
      {
        var p :| 0 <= p < |ordered| && ordered[p] == collected[i];
        assert inSet[p] == all[i];
      }
    }
  }

  /** Accepting a document into a fresh slot keeps the invariant. */
  lemma AcceptKeepsGroupsValid<K, V(!new)>(o: ChainOrder<V>, store: seq<seq<V>>, ordered: seq<CollectedGroup<K>>,
                                          collected: seq<CollectedGroup<K>>, values: seq<V>, g: CollectedGroup<K>)
    requires GroupsValid(o, store, ordered, collected)
    requires |values| == o.FieldCount() && g.slot == |store|
    ensures AllReady(o, store + [values], ordered) && SlotReady(o, store + [values], g)
    ensures GroupsValid(o, store + [values], Insert(o, store + [values], ordered, g), collected + [g])
  {
    var store', collected' := store + [values], collected + [g];
    assert SlotsOwned(o, store', collected');
    StoreGrowthKeepsOrder(o, store, values, ordered);
    InsertSorted(o, store', ordered, g);
    var r := Insert(o, store', ordered, g);
    assert DrawnFrom(r, collected');
    AcceptKeepsContents(o, store, ordered, collected, values, g);
  }

  /** The completeness clause of the invariant after accepting a document. */
  lemma AcceptKeepsContents<K, V(!new)>(o: ChainOrder<V>, store: seq<seq<V>>, ordered: seq<CollectedGroup<K>>,
                                       collected: seq<CollectedGroup<K>>, values: seq<V>, g: CollectedGroup<K>)
    requires GroupsValid(o, store, ordered, collected)
    requires |values| == o.FieldCount() && g.slot == |store|
    ensures AllReady(o, store + [values], ordered) && SlotReady(o, store + [values], g)
    ensures CompleteWhenDistinct(Insert(o, store + [values], ordered, g), collected + [g])
  {
    var store', collected' := store + [values], collected + [g];
    StoreGrowthKeepsOrder(o, store, values, ordered);
    InsertContents(o, store', ordered, g);
    if DistinctTopDocs(collected') {
      assert DistinctTopDocs(collected) by {
        forall i, j | 0 <= i < j < |collected|
          ensures collected[i].topDoc != collected[j].topDoc
        {
          assert collected'[i] == collected[i] && collected'[j] == collected[j];
        }
      }
      forall k | 0 <= k < |ordered|
        ensures Compare(o, store', g, ordered[k]) != 0
      {
        var m :| 0 <= m < |collected| && collected[m] == ordered[k];
        assert collected'[m].topDoc != collected'[|collected|].topDoc;
        ChainZero(o, KeyOf(store', g), KeyOf(store', ordered[k]));
      }
      assert !HasTie(o, store', ordered, g);
      var r := Insert(o, store', ordered, g);
      assert |multiset(r)| == |multiset(ordered)| + 1;
      forall k | 0 <= k < |collected'|
        ensures collected'[k] in r
      {
        if k < |collected| {
          assert collected'[k] in multiset(ordered);
        }
        assert collected'[k] in multiset(r);
      }
    }
  }

  class SortingCollectedSearchGroups<K, V(!new)> {
    /** The comparators of the final sort and their direction flags. */
    const order: ChainOrder<V>
    /** The number of slots the comparators were created with: searchGroups.size() + 1. */
    const capacity: nat
    var leafComparators: seq<int -> V>
    /** The values the field comparators hold, by slot. */
    var slotValues: seq<seq<V>>
    var orderedGroups: seq<CollectedGroup<K>>
    var comparatorSlot: nat
    var docBase: int
    var totalHitCount: nat
    var totalGroupedHitCount: nat
    /** Every group created so far, in collection order. */
    ghost var collected: seq<CollectedGroup<K>>

    ghost predicate Valid()
      reads this
    {
      && |slotValues| == comparatorSlot <= capacity
      && (|leafComparators| == 0 || |leafComparators| == order.FieldCount())
      && comparatorSlot == totalGroupedHitCount <= totalHitCount
      && GroupsValid(order, slotValues, orderedGroups, collected)
    }

    /** The entry of every group created so far, in collection order. */
    ghost function Contents(): seq<Entry<K, V>>
      reads this
      requires Valid()
    {
      Entries(slotValues, collected)
    }

    /** Builds the direction flags from the sort and sizes the slot storage. */
    constructor (searchGroups: seq<CollectedGroup<K>>, sort: Sort, fieldCmp: FieldCmp<V>)
      requires ConsistentComparator(fieldCmp)
      ensures Valid()
      ensures order == FinalOrder(sort, fieldCmp)
      ensures forall i :: 0 <= i < |sort| ==> order.reversed[i] == ReverseFlag(sort[i])
      ensures capacity == |searchGroups| + 1
      ensures orderedGroups == [] && slotValues == [] && leafComparators == [] && collected == []
      ensures comparatorSlot == 0 && totalHitCount == 0 && totalGroupedHitCount == 0 && docBase == 0
    {
      var reversed: seq<int> := [];
      var i := 0;
      while i < |sort|
        invariant 0 <= i <= |sort|
        invariant |reversed| == i
        invariant forall j :: 0 <= j < i ==> reversed[j] == ReverseFlag(sort[j])
      {
        reversed := reversed + [if sort[i].reverse then -1 else 1];
        i := i + 1;
      }
      order := ChainOrder(reversed, fieldCmp);
      assert reversed == FinalOrder(sort, fieldCmp).reversed;
      capacity := |searchGroups| + 1;
      leafComparators := [];
      slotValues := [];
      orderedGroups := [];
      comparatorSlot := 0;
      docBase := 0;
      totalHitCount := 0;
      totalGroupedHitCount := 0;
      collected := [];
    }

    /** Records the segment's doc base and binds one leaf comparator per sort field. */
    method DoSetNextReader(segment: Segment<V>)
      requires Valid()
      modifies this`docBase, this`leafComparators
      ensures Valid()
      ensures docBase == segment.docBase
      ensures leafComparators == SegmentLeaves(segment, order.FieldCount())
    {
      docBase := segment.docBase;
      var leaves: seq<int -> V> := [];
      var i := 0;
      while i < order.FieldCount()
        invariant 0 <= i <= order.FieldCount()
        invariant |leaves| == i
        invariant forall j :: 0 <= j < i ==> leaves[j] == segment.leafValues(j)
      {
        leaves := leaves + [segment.leafValues(i)];
        i := i + 1;
      }
      leafComparators := leaves;
      assert leaves == SegmentLeaves(segment, order.FieldCount());
    }

    /**
     * Counts the document; unless the selector skips it, gives it the next
     * slot, copies its sort values there and adds it to the ordered set.
     */
    method Collect(doc: int, state: SelectorState<K>)
      requires Valid()
      requires |leafComparators| == order.FieldCount()
      requires state.Accept? ==> comparatorSlot < capacity
      modifies this`totalHitCount, this`totalGroupedHitCount, this`comparatorSlot
      modifies this`slotValues, this`orderedGroups, this`collected
      ensures Valid()
      ensures totalHitCount == old(totalHitCount) + 1
      ensures state.Skip? ==>
        && orderedGroups == old(orderedGroups) && slotValues == old(slotValues)
        && totalGroupedHitCount == old(totalGroupedHitCount) && comparatorSlot == old(comparatorSlot)
        && collected == old(collected)
      ensures state.Accept? ==>
        var g := CollectedGroup(state.groupValue, old(comparatorSlot), docBase + doc);
        && totalGroupedHitCount == old(totalGroupedHitCount) + 1
        && comparatorSlot == old(comparatorSlot) + 1
        && slotValues == old(slotValues) + [CopiedValues(leafComparators, doc)]
        && collected == old(collected) + [g]
        && orderedGroups == Insert(order, slotValues, old(orderedGroups), g)
    {
      if state.Skip? {
        totalHitCount := totalHitCount + 1;
        return;
      }
      var g := CollectedGroup(state.groupValue, comparatorSlot, docBase + doc);
      var values: seq<V> := [];
      var i := 0;
      while i < |leafComparators|
        invariant 0 <= i <= |leafComparators|
        invariant |values| == i
        invariant forall j :: 0 <= j < i ==> values[j] == leafComparators[j](doc)
      {
        values := values + [leafComparators[i](doc)];
        i := i + 1;
      }
      assert values == CopiedValues(leafComparators, doc);
      var store := slotValues + [values];
      AcceptKeepsGroupsValid(order, slotValues, orderedGroups, collected, values, g);
      var after := Insert(order, store, orderedGroups, g);
      ghost var collected' := collected + [g];
      assert GroupsValid(order, store, after, collected');
      totalHitCount, totalGroupedHitCount, comparatorSlot, slotValues, orderedGroups, collected
        := totalHitCount + 1, totalGroupedHitCount + 1, comparatorSlot + 1, store, after, collected';
    }

    /**
     * The ordered set, in order, as (group value, sort values) records; the
     * set must not be empty.
     */
    method GetTopGroups() returns (groups: seq<SearchGroup<K, V>>)
      requires Valid() && |orderedGroups| > 0
      ensures |groups| == |orderedGroups|
      ensures forall p :: 0 <= p < |groups| ==> Reports(order, slotValues, orderedGroups[p], groups[p])
      ensures KeysSorted(order, GroupKeys(groups, orderedGroups))
    {
      var sortFieldCount := order.FieldCount();
      groups := [];
      var p := 0;
      while p < |orderedGroups|
        invariant 0 <= p <= |orderedGroups|
        invariant |groups| == p
        invariant forall q :: 0 <= q < p ==> Reports(order, slotValues, orderedGroups[q], groups[q])
      {
        var group := orderedGroups[p];
        var sortValues: seq<V> := [];
        var i := 0;
        while i < sortFieldCount
          invariant 0 <= i <= sortFieldCount
          invariant |sortValues| == i
          invariant forall j :: 0 <= j < i ==> sortValues[j] == slotValues[group.slot][j]
        {
          sortValues := sortValues + [slotValues[group.slot][i]];
          i := i + 1;
        }
        assert sortValues == slotValues[group.slot];
        groups := groups + [SearchGroup(group.groupValue, sortValues)];
        p := p + 1;
      }
      ReportsKeepOrder(order, slotValues, orderedGroups, groups);
    }
  }

  /** One segment of a search: bind its reader, then collect its documents in order. */
  method SearchSegment<K, V(!new)>(c: SortingCollectedSearchGroups<K, V>, run: SegmentRun<K, V>)
    requires c.Valid()
    requires c.comparatorSlot + |SegmentAccepted(run, c.order.FieldCount())| <= c.capacity
    modifies c
    ensures c.Valid()
    ensures c.totalHitCount == old(c.totalHitCount) + |run.hits|
    ensures c.Contents() == old(c.Contents()) + SegmentAccepted(run, c.order.FieldCount())
  {
    var base := run.segment.docBase;
    assert run.hits[0..] == run.hits;
    ghost var start := c.Contents();
    c.DoSetNextReader(run.segment);
    var leaves := c.leafComparators;
    var h := 0;
    while h < |run.hits|
      invariant 0 <= h <= |run.hits|
      invariant c.Valid()
      invariant c.leafComparators == leaves == SegmentLeaves(run.segment, c.order.FieldCount()) && c.docBase == base
      invariant c.comparatorSlot + |AcceptedIn(base, leaves, run.hits[h..])| <= c.capacity
      invariant c.totalHitCount == old(c.totalHitCount) + h
      invariant c.Contents() + AcceptedIn(base, leaves, run.hits[h..]) == start + AcceptedIn(base, leaves, run.hits)
    {
      HitsStep(base, leaves, run.hits, h, c.Contents());
      CollectHit(c, run.hits[h]);
      h := h + 1;
    }
  }

  /** One collect call of a search, on the segment the collector is bound to. */
  method CollectHit<K, V(!new)>(c: SortingCollectedSearchGroups<K, V>, hit: Hit<K>)
    requires c.Valid() && |c.leafComparators| == c.order.FieldCount()
    requires c.comparatorSlot + |AcceptedIn(c.docBase, c.leafComparators, [hit])| <= c.capacity
    modifies c
    ensures c.Valid() && c.leafComparators == old(c.leafComparators) && c.docBase == old(c.docBase)
    ensures c.comparatorSlot == old(c.comparatorSlot) + |AcceptedIn(c.docBase, c.leafComparators, [hit])|
    ensures c.totalHitCount == old(c.totalHitCount) + 1
    ensures c.Contents() == old(c.Contents()) + AcceptedIn(c.docBase, c.leafComparators, [hit])
  {
    assert [hit][1..] == [];
    ghost var store, collected := c.slotValues, c.collected;
    c.Collect(hit.doc, hit.state);
    if hit.state.Accept? {
      var g := CollectedGroup(hit.state.groupValue, |store|, c.docBase + hit.doc);
      EntriesGrow(store, collected, CopiedValues(c.leafComparators, hit.doc), g);
    }
  }

  /**
   * The collect protocol of a search over the second-pass collector: the
   * segments are visited one after the other.
   */
  method RunSearch<K, V(!new)>(c: SortingCollectedSearchGroups<K, V>, runs: seq<SegmentRun<K, V>>)
    requires c.Valid()
    requires c.comparatorSlot + |Accepted(runs, c.order.FieldCount())| <= c.capacity
    modifies c
    ensures c.Valid()
    ensures c.totalHitCount == old(c.totalHitCount) + HitCount(runs)
    ensures c.Contents() == old(c.Contents()) + Accepted(runs, c.order.FieldCount())
  {
    var n := c.order.FieldCount();
    var s := 0;
    assert runs[0..] == runs;
    while s < |runs|
      invariant 0 <= s <= |runs|
      invariant c.Valid() && c.order.FieldCount() == n
      invariant c.comparatorSlot + |Accepted(runs[s..], n)| <= c.capacity
      invariant c.totalHitCount + HitCount(runs[s..]) == old(c.totalHitCount) + HitCount(runs)
      invariant c.Contents() + Accepted(runs[s..], n) == old(c.Contents()) + Accepted(runs, n)
    {
      ghost var before := c.Contents();
      RunsStep(runs, s, n, before);
      SearchSegment(c, runs[s]);
      s := s + 1;
    }
  }

  /** Peeling the next hit off the remaining hits of a segment. */
  lemma HitsStep<K, V>(docBase: int, leaves: seq<int -> V>, hits: seq<Hit<K>>, h: nat, before: seq<Entry<K, V>>)
    requires h < |hits|
    ensures |AcceptedIn(docBase, leaves, hits[h..])|
      == |AcceptedIn(docBase, leaves, [hits[h]])| + |AcceptedIn(docBase, leaves, hits[h + 1..])|
    ensures before + AcceptedIn(docBase, leaves, hits[h..])
      == (before + AcceptedIn(docBase, leaves, [hits[h]])) + AcceptedIn(docBase, leaves, hits[h + 1..])
  {
    assert hits[h..][0] == hits[h] && hits[h..][1..] == hits[h + 1..];
    assert [hits[h]][1..] == [];
  }

  /** Peeling the next segment off the remaining runs of a search. */
  lemma RunsStep<K, V>(runs: seq<SegmentRun<K, V>>, s: nat, n: nat, before: seq<Entry<K, V>>)
    requires s < |runs|
    ensures Accepted(runs[s..], n) == SegmentAccepted(runs[s], n) + Accepted(runs[s + 1..], n)
    ensures HitCount(runs[s..]) == |runs[s].hits| + HitCount(runs[s + 1..])
    ensures before + Accepted(runs[s..], n) == (before + SegmentAccepted(runs[s], n)) + Accepted(runs[s + 1..], n)
  {
    assert runs[s..][0] == runs[s] && runs[s..][1..] == runs[s + 1..];
  }
}
