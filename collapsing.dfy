/**
 * CollapsingTopDocsCollector: the collector of a collapsed search. Its first
 * pass (the grouping collector it extends) keeps the top document per
 * collapse key under the group sort; when a collapse sort was given, a second
 * pass re-runs the query and re-orders the survivors by the final sort; the
 * result is assembled into index-aligned doc and collapse-value lists.
 */
module Collapsing {
  import opened Wrappers
  import opened Sorting
  import opened ComparatorChain
  import opened OrderedGroups
  import opened SecondPass

  /** How a mapped field can be collapsed on. */
  datatype CollapseType = NoCollapse | Keyword | Numeric

  datatype MappedFieldType = MappedFieldType(name: string, collapseType: CollapseType)

  /** Where the group selector reads the collapse key: sorted or numeric doc values. */
  datatype GroupSource = KeywordValues(fieldType: MappedFieldType) | NumericValues(fieldType: MappedFieldType)

  /** The arguments a collapsing collector is created with. */
  datatype CollectorParams = CollectorParams(
    source: GroupSource, collapseField: string, sort: Sort, collapseSort: Option<Sort>, topN: int)

  /** createNumeric: a collector reading the collapse key from numeric doc values. */
  function CreateNumeric(collapseField: string, fieldType: MappedFieldType, sort: Sort,
                         collapseSort: Option<Sort>, topN: int): (p: CollectorParams)
    ensures p.source.NumericValues? && p.source.fieldType == fieldType
    ensures p.collapseField == collapseField && p.sort == sort && p.collapseSort == collapseSort && p.topN == topN
  {
    CollectorParams(NumericValues(fieldType), collapseField, sort, collapseSort, topN)
  }

  /** createKeyword: a collector reading the collapse key from sorted doc values. */
  function CreateKeyword(collapseField: string, fieldType: MappedFieldType, sort: Sort,
                         collapseSort: Option<Sort>, topN: int): (p: CollectorParams)
    ensures p.source.KeywordValues? && p.source.fieldType == fieldType
    ensures p.collapseField == collapseField && p.sort == sort && p.collapseSort == collapseSort && p.topN == topN
  {
    CollectorParams(KeywordValues(fieldType), collapseField, sort, collapseSort, topN)
  }

  /** The sort that drives the first pass: the collapse sort when there is one. */
  function GroupSort(collapseSort: Option<Sort>, sort: Sort): (r: Sort)
    ensures collapseSort.Some? ==> r == collapseSort.value
    ensures collapseSort.None? ==> r == sort
  {
    if collapseSort.None? then sort else collapseSort.value
  }

  /** A hit's score: unset (NaN in the source), or the value of the score sort field. */
  datatype Score<V> = Unset | SortScore(value: V)

  datatype FieldDoc<V> = FieldDoc(doc: int, score: Score<V>, fields: seq<V>)

  datatype Relation = EqualTo | GreaterThanOrEqualTo

  datatype TotalHits = TotalHits(value: int, relation: Relation)

  /** The collapsed result: docs and collapse values are index-aligned. */
  datatype CollapseTopFieldDocs<K, V> = CollapseTopFieldDocs(
    field: string, totalHits: TotalHits, scoreDocs: seq<FieldDoc<V>>,
    sortFields: seq<SortField>, collapseValues: seq<K>)

  /** Why assembling the result can fail: the second pass's ordered set is empty. */
  datatype TopDocsError = EmptyOrderedSet

  /** What the first pass hands over: its top groups (None when it has none) and its ordered set. */
  datatype FirstPass<K, V> = FirstPass(groups: Option<seq<SearchGroup<K, V>>>, ordered: seq<CollectedGroup<K>>)

  /**
   * What the model assumes of the first pass: the ordered set has an element
   * for each top group, and each group carries one sort value per field of
   * the group sort.
   */
  predicate FirstPassShaped<K, V>(fp: FirstPass<K, V>, groupSort: Sort) {
    fp.groups.Some? ==>
      && |fp.groups.value| <= |fp.ordered|
      && forall p :: 0 <= p < |fp.groups.value| ==> |fp.groups.value[p].sortValues| == |groupSort|
  }

  /** The score a hit gets from its sort values under the final sort. */
  function ScoreOf<V>(sort: Sort, values: seq<V>): (r: Score<V>)
    requires |values| >= |sort|
    ensures r.Unset? <==> !NeedsScores(sort)
    ensures r.SortScore? ==>
      && sort[ScorePos(sort)].fieldType == Score
      && (forall j :: 0 <= j < ScorePos(sort) ==> sort[j].fieldType != Score)
      && r.value == values[ScorePos(sort)]
  {
    var pos := ScorePos(sort);
    if pos == -1 then Unset else SortScore(values[pos])
  }

  /** The search for `scorePos`: the first SCORE-typed field of the sort, or -1. */
  method FindScorePos(sort: Sort) returns (scorePos: int)
    ensures scorePos == ScorePos(sort)
  {
    scorePos := -1;
    var index := 0;
    while index < |sort|
      invariant 0 <= index <= |sort|
      invariant forall j :: 0 <= j < index ==> sort[j].fieldType != Score
    {
      if sort[index].fieldType == Score {
        scorePos := index;
        break;
      }
      index := index + 1;
    }
  }

  /**
   * Position p of the result comes from the p-th group and the p-th element
   * of the ordered set: the doc id of the latter, the sort values and the
   * collapse key of the former, and the score from the sort values.
   */
  ghost predicate Aligned<K, V>(docs: seq<FieldDoc<V>>, collapseValues: seq<K>, groups: seq<SearchGroup<K, V>>,
                                ordered: seq<CollectedGroup<K>>, sort: Sort)
  {
    && |docs| == |groups| && |collapseValues| == |groups| && |groups| <= |ordered|
    && forall p :: 0 <= p < |groups| ==>
         && |groups[p].sortValues| >= |sort|
         && docs[p] == FieldDoc(ordered[p].topDoc, ScoreOf(sort, groups[p].sortValues), groups[p].sortValues)
         && collapseValues[p] == groups[p].groupValue
  }

  /** The loop that fills the docs and collapse values, walking the groups and the ordered set together. */
  method FillDocs<K, V>(groups: seq<SearchGroup<K, V>>, ordered: seq<CollectedGroup<K>>, sort: Sort, scorePos: int)
    returns (docs: seq<FieldDoc<V>>, collapseValues: seq<K>)
    requires scorePos == ScorePos(sort)
    requires |groups| <= |ordered|
    requires forall p :: 0 <= p < |groups| ==> |groups[p].sortValues| == |sort|
    ensures Aligned(docs, collapseValues, groups, ordered, sort)
  {
    docs, collapseValues := [], [];
    var pos := 0;
    while pos < |groups|
      invariant 0 <= pos <= |groups|
      invariant |docs| == pos && |collapseValues| == pos
      invariant forall p :: 0 <= p < pos ==>
        && docs[p] == FieldDoc(ordered[p].topDoc, ScoreOf(sort, groups[p].sortValues), groups[p].sortValues)
        && collapseValues[p] == groups[p].groupValue
    {
      var group := groups[pos];
      var col := ordered[pos];
      var score: Score<V> := Unset;
      if scorePos != -1 {
        score := SortScore(group.sortValues[scorePos]);
      }
      docs := docs + [FieldDoc(col.topDoc, score, group.sortValues)];
      collapseValues := collapseValues + [group.groupValue];
      pos := pos + 1;
    }
  }

  /** The result's docs read as chain keys: sort values and doc id. */
  function DocKeys<V>(docs: seq<FieldDoc<V>>): (r: seq<SortKey<V>>)
    ensures |r| == |docs|
    ensures forall p :: 0 <= p < |docs| ==> r[p] == SortKey(docs[p].fields, docs[p].doc)
  {
    seq(|docs|, p requires 0 <= p < |docs| => SortKey(docs[p].fields, docs[p].doc))
  }

  /** The (collapse key, doc id, sort values) of each position of a result. */
  function RecordEntries<K, V>(rec: CollapseTopFieldDocs<K, V>): (r: seq<Entry<K, V>>)
    requires |rec.collapseValues| == |rec.scoreDocs|
    ensures |r| == |rec.scoreDocs|
    ensures forall p :: 0 <= p < |r| ==>
      r[p] == Entry(rec.collapseValues[p], rec.scoreDocs[p].doc, rec.scoreDocs[p].fields)
  {
    seq(|rec.scoreDocs|, p requires 0 <= p < |rec.scoreDocs| =>
      Entry(rec.collapseValues[p], rec.scoreDocs[p].doc, rec.scoreDocs[p].fields))
  }

  /** The outcome of the second pass: its ordered set was empty, or its groups and ordered set. */
  datatype SecondPassOutcome<K, V> = EmptySet | Groups(groups: seq<SearchGroup<K, V>>, ordered: seq<CollectedGroup<K>>)

  /**
   * The second pass's groups: aligned with its ordered set, sorted by the
   * final sort's chain, each an accepted document of the re-run with the
   * sort values copied for it, and all of them when the accepted doc ids are
   * distinct.
   */
  ghost predicate SecondPassGroups<K, V>(groups: seq<SearchGroup<K, V>>, ordered: seq<CollectedGroup<K>>, sort: Sort,
                                         fieldCmp: FieldCmp<V>, accepted: seq<Entry<K, V>>)
  {
    && |groups| == |ordered| > 0
    && (forall p :: 0 <= p < |groups| ==>
          groups[p].groupValue == ordered[p].groupValue && |groups[p].sortValues| == |sort|)
    && KeysSorted(FinalOrder(sort, fieldCmp), GroupKeys(groups, ordered))
    && (forall p :: 0 <= p < |groups| ==> GroupEntries(groups, ordered)[p] in accepted)
    && (DistinctDocs(accepted) ==>
          |groups| == |accepted| && forall i :: 0 <= i < |accepted| ==> accepted[i] in GroupEntries(groups, ordered))
  }

  /**
   * The second pass of getTopDocs: a fresh second-pass collector seeded with
   * the first pass's ordered set and ordered by the final sort, the query run
   * again into it, then its groups and ordered set.
   */
  method RunSecondPass<K, V(!new)>(seed: seq<CollectedGroup<K>>, sort: Sort, fieldCmp: FieldCmp<V>,
                                   rerun: seq<SegmentRun<K, V>>)
    returns (outcome: SecondPassOutcome<K, V>)
    requires ConsistentComparator(fieldCmp)
    requires |Accepted(rerun, |sort|)| <= |seed| + 1
    ensures outcome.EmptySet? <==> Accepted(rerun, |sort|) == []
    ensures outcome.Groups? ==> SecondPassGroups(outcome.groups, outcome.ordered, sort, fieldCmp, Accepted(rerun, |sort|))
  {
    var c := SearchAgain(seed, sort, fieldCmp, rerun);
    ghost var o, store, collected := c.order, c.slotValues, c.collected;
    var ordered := c.orderedGroups;
    assert GroupsValid(o, store, ordered, collected) && Entries(store, collected) == Accepted(rerun, |sort|);
    CollectedContents(o, store, ordered, collected);
    if |ordered| == 0 {
      outcome := EmptySet;
    } else {
      var groups := c.GetTopGroups();
      GroupsReported(o, store, ordered, collected, groups, sort, fieldCmp, Accepted(rerun, |sort|));
      outcome := Groups(groups, ordered);
    }
  }

  /** A fresh second-pass collector, ordered by the final sort, after the query ran again into it. */
  method SearchAgain<K, V(!new)>(seed: seq<CollectedGroup<K>>, sort: Sort, fieldCmp: FieldCmp<V>,
                                 rerun: seq<SegmentRun<K, V>>)
    returns (c: SortingCollectedSearchGroups<K, V>)
    requires ConsistentComparator(fieldCmp)
    requires |Accepted(rerun, |sort|)| <= |seed| + 1
    ensures fresh(c) && c.Valid()
    ensures c.order == FinalOrder(sort, fieldCmp)
    ensures c.Contents() == Accepted(rerun, |sort|)
  {
    c := new SortingCollectedSearchGroups(seed, sort, fieldCmp);
    RunSearch(c, rerun);
  }

  /** What the second-pass collector's invariant and getTopGroups give its caller. */
  lemma GroupsReported<K, V(!new)>(o: ChainOrder<V>, store: seq<seq<V>>, ordered: seq<CollectedGroup<K>>,
                                   collected: seq<CollectedGroup<K>>, groups: seq<SearchGroup<K, V>>,
                                   sort: Sort, fieldCmp: FieldCmp<V>, accepted: seq<Entry<K, V>>)
    requires GroupsValid(o, store, ordered, collected) && o == FinalOrder(sort, fieldCmp)
    requires Entries(store, collected) == accepted && |ordered| > 0
    requires |groups| == |ordered|
    requires forall p :: 0 <= p < |groups| ==> Reports(o, store, ordered[p], groups[p])
    requires KeysSorted(o, GroupKeys(groups, ordered))
    ensures SecondPassGroups(groups, ordered, sort, fieldCmp, accepted)
  {
    CollectedContents(o, store, ordered, collected);
    assert GroupEntries(groups, ordered) == Entries(store, ordered);
  }

  /**
   * The second pass's groups, filled into the result, give a result sorted by
   * the final sort whose (key, doc, sort values) entries are accepted
   * documents of the re-run.
   */
  ghost predicate SortedRecord<K, V>(rec: CollapseTopFieldDocs<K, V>, sort: Sort, fieldCmp: FieldCmp<V>,
                                     accepted: seq<Entry<K, V>>)
  {
    && |rec.collapseValues| == |rec.scoreDocs|
    && (forall p :: 0 <= p < |rec.scoreDocs| ==>
          |rec.scoreDocs[p].fields| == |sort| && rec.scoreDocs[p].score == ScoreOf(sort, rec.scoreDocs[p].fields))
    && KeysSorted(FinalOrder(sort, fieldCmp), DocKeys(rec.scoreDocs))
    && (forall p :: 0 <= p < |rec.scoreDocs| ==> RecordEntries(rec)[p] in accepted)
    && (DistinctDocs(accepted) ==>
          |rec.scoreDocs| == |accepted| && forall i :: 0 <= i < |accepted| ==> accepted[i] in RecordEntries(rec))
  }

  /** Filling the second pass's groups into the result keeps their order and contents. */
  lemma SecondPassRecord<K, V>(groups: seq<SearchGroup<K, V>>, ordered: seq<CollectedGroup<K>>, sort: Sort,
                               fieldCmp: FieldCmp<V>, accepted: seq<Entry<K, V>>, rec: CollapseTopFieldDocs<K, V>)
    requires SecondPassGroups(groups, ordered, sort, fieldCmp, accepted)
    requires Aligned(rec.scoreDocs, rec.collapseValues, groups, ordered, sort)
    ensures SortedRecord(rec, sort, fieldCmp, accepted)
  {
    assert DocKeys(rec.scoreDocs) == GroupKeys(groups, ordered);
    assert RecordEntries(rec) == GroupEntries(groups, ordered);
  }

  /**
   * Each position of a second-pass result is an accepted hit of the re-run:
   * its collapse value is the key the selector gave the hit, its doc is the
   * segment's doc base plus the hit, and its fields are the segment's leaf
   * values of the hit.
   */
  lemma RecordFromHits<K, V>(rec: CollapseTopFieldDocs<K, V>, sort: Sort, fieldCmp: FieldCmp<V>,
                             rerun: seq<SegmentRun<K, V>>)
    requires SortedRecord(rec, sort, fieldCmp, Accepted(rerun, |sort|))
    ensures forall p :: 0 <= p < |rec.scoreDocs| ==> HitOf(rerun, |sort|, RecordEntries(rec)[p])
  {
    forall p | 0 <= p < |rec.scoreDocs|
      ensures HitOf(rerun, |sort|, RecordEntries(rec)[p])
    {
      AcceptedFromHit(rerun, |sort|, RecordEntries(rec)[p]);
    }
  }

  class CollapsingTopDocsCollector<K, V(!new)> {
    const collapseField: string
    /** The final sort of the collapsed hits. */
    const sort: Sort
    const collapseSort: Option<Sort>
    /** The sort the first pass was created with. */
    const groupSort: Sort
    const topN: int
    const source: GroupSource
    var totalHitCount: nat

    /** The first pass is created with the group sort. */
    predicate Valid() {
      groupSort == GroupSort(collapseSort, sort)
    }

    /** The first pass is driven by the collapse sort when there is one, by the final sort otherwise. */
    constructor (params: CollectorParams)
      ensures Valid()
      ensures collapseField == params.collapseField && sort == params.sort && collapseSort == params.collapseSort
      ensures topN == params.topN && source == params.source
      ensures totalHitCount == 0
    {
      groupSort := GroupSort(params.collapseSort, params.sort);
      collapseField := params.collapseField;
      sort := params.sort;
      collapseSort := params.collapseSort;
      topN := params.topN;
      source := params.source;
      totalHitCount := 0;
    }

    /** Every collected document counts, whatever the first pass does with it. */
    method Collect(doc: int)
      modifies this`totalHitCount
      ensures totalHitCount == old(totalHitCount) + 1
    {
      totalHitCount := totalHitCount + 1;
    }

    /** Turns the first pass's groups (or the second pass's) into the collapsed result. */
    method Assemble(groups: seq<SearchGroup<K, V>>, ordered: seq<CollectedGroup<K>>)
      returns (rec: CollapseTopFieldDocs<K, V>)
      requires |groups| <= |ordered|
      requires forall p :: 0 <= p < |groups| ==> |groups[p].sortValues| == |sort|
      ensures rec.field == collapseField && rec.sortFields == sort
      ensures rec.totalHits == TotalHits(totalHitCount, EqualTo)
      ensures Aligned(rec.scoreDocs, rec.collapseValues, groups, ordered, sort)
    {
      var scorePos := FindScorePos(sort);
      var docs, collapseValues := FillDocs(groups, ordered, sort, scorePos);
      rec := CollapseTopFieldDocs(collapseField, TotalHits(totalHitCount, EqualTo), docs, sort, collapseValues);
    }

    /**
     * getTopDocs, with the second pass run only when the first pass found
     * groups: no groups give the empty result; without a collapse sort the
     * first pass's groups are the result; with one, the re-run's accepted
     * documents in final-sort order are.
     */
    method GetTopDocs(firstPass: FirstPass<K, V>, fieldCmp: FieldCmp<V>, rerun: seq<SegmentRun<K, V>>)
      returns (r: Result<CollapseTopFieldDocs<K, V>, TopDocsError>)
      requires FirstPassShaped(firstPass, groupSort)
      requires Valid()
      requires collapseSort.Some? && firstPass.groups.Some? ==>
        ConsistentComparator(fieldCmp) && |Accepted(rerun, |sort|)| <= |firstPass.ordered| + 1
      ensures r.Success? ==> r.value.field == collapseField && r.value.sortFields == sort
      ensures firstPass.groups.None? ==>
        r == Success(CollapseTopFieldDocs(collapseField, TotalHits(0, EqualTo), [], sort, []))
      ensures firstPass.groups.Some? && r.Success? ==> r.value.totalHits == TotalHits(totalHitCount, EqualTo)
      ensures collapseSort.None? && firstPass.groups.Some? ==>
        r.Success? && Aligned(r.value.scoreDocs, r.value.collapseValues, firstPass.groups.value, firstPass.ordered, sort)
      ensures collapseSort.Some? && firstPass.groups.Some? ==> (r.Failure? <==> Accepted(rerun, |sort|) == [])
      ensures collapseSort.Some? && firstPass.groups.Some? && r.Success? ==>
        SortedRecord(r.value, sort, fieldCmp, Accepted(rerun, |sort|))
    {
      if firstPass.groups.None? {
        return Success(CollapseTopFieldDocs(collapseField, TotalHits(0, EqualTo), [], sort, []));
      }
      if collapseSort.None? {
        var rec := Assemble(firstPass.groups.value, firstPass.ordered);
        return Success(rec);
      }
      var second := RunSecondPass(firstPass.ordered, sort, fieldCmp, rerun);
      if second.EmptySet? {
        return Failure(EmptyOrderedSet);
      }
      var rec := Assemble(second.groups, second.ordered);
      SecondPassRecord(second.groups, second.ordered, sort, fieldCmp, Accepted(rerun, |sort|), rec);
      r := Success(rec);
    }

    /**
     * getTopDocs as the source writes it: the second pass runs whenever a
     * collapse sort was given, even when the first pass found no groups, so a
     * search that accepts no document ends on the empty ordered set instead of
     * the empty result.
     */
    method GetTopDocsAsWritten(firstPass: FirstPass<K, V>, fieldCmp: FieldCmp<V>, rerun: seq<SegmentRun<K, V>>)
      returns (r: Result<CollapseTopFieldDocs<K, V>, TopDocsError>)
      requires FirstPassShaped(firstPass, groupSort)
      requires Valid()
      requires collapseSort.Some? ==>
        ConsistentComparator(fieldCmp) && |Accepted(rerun, |sort|)| <= |firstPass.ordered| + 1
      ensures collapseSort.None? && firstPass.groups.None? ==>
        r == Success(CollapseTopFieldDocs(collapseField, TotalHits(0, EqualTo), [], sort, []))
      ensures collapseSort.Some? ==> (r.Failure? <==> Accepted(rerun, |sort|) == [])
      ensures collapseSort.Some? && firstPass.groups.None? && Accepted(rerun, |sort|) == [] ==> r == Failure(EmptyOrderedSet)
    {
      var groups := firstPass.groups;
      var ordered := firstPass.ordered;
      if collapseSort.Some? {
        var second := RunSecondPass(ordered, sort, fieldCmp, rerun);
        if second.EmptySet? {
          return Failure(EmptyOrderedSet);
        }
        groups, ordered := Some(second.groups), second.ordered;
      }
      if groups.None? {
        return Success(CollapseTopFieldDocs(collapseField, TotalHits(0, EqualTo), [], sort, []));
      }
      var rec := Assemble(groups.value, ordered);
      r := Success(rec);
    }
  }
}
