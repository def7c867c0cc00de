# Field collapsing: the result pipeline of a collapsed search

This project models, in Dafny, how a search with field collapsing turns its
collected hits into the collapsed result. It covers three pieces:

- **`SortingCollectedSearchGroups`** is the second pass. It builds a comparator
  chain from the final sort. Each field has a direction flag of +1 or -1, and
  ties are broken by ascending global doc id. Every document the group
  selector accepts gets the next comparator slot and the global id
  `docBase + doc`. Its sort values are copied into that slot, and the document
  is inserted into an ordered set (a `TreeSet` in the source). `getTopGroups`
  reads the set back in order as (group value, sort values) records.
- **`CollapsingTopDocsCollector`** orchestrates the search:
  - It drives the first pass by the collapse sort when one is given, and by the
    final sort otherwise.
  - It counts every collected document.
  - It runs the second pass when a collapse sort was given.
  - It assembles the result: index-aligned docs and collapse values, with the
    score taken from the first SCORE-typed sort field when there is one.
- **`CollapseContext`** dispatches on the kind of the collapse field. A keyword
  field gets the keyword collector, a numeric field the numeric collector, and
  any other field is refused.

Modules, one per component:

| file | module | models |
|---|---|---|
| `wrappers.dfy` | `Wrappers` | `Option` and `Result` |
| `sorting.dfy` | `Sorting` | sort fields, score modes, the score position |
| `comparator_chain.dfy` | `ComparatorChain` | the comparator lambda of the second pass, as a pure function, and its order properties |
| `ordered_groups.dfy` | `OrderedGroups` | the `TreeSet` of collected groups, as a strictly sorted sequence, and its `add` |
| `second_pass.dfy` | `SecondPass` | the class `SortingCollectedSearchGroups` and the segment-by-segment collect protocol |
| `collapsing.dfy` | `Collapsing` | the class `CollapsingTopDocsCollector`, its factories, and `getTopDocs` |
| `collapse_context.dfy` | `Collapse` | the `CollapseContext` value and `createTopDocs` |

How the engine's parts are represented:

- **Field comparators.** The per-field comparison is a function
  `fieldCmp(i, v1, v2)`, assumed to obey Java's comparator contract. The
  comparators' slot storage is a sequence of per-slot value lists
  (`slotValues`). A leaf comparator is a function from a segment-local doc to
  its value.
- **Group selector.** It is an oracle: for each collected document it answers
  `Skip` or `Accept(key)`.
- **Re-running the query** (`indexSearcher.search`) is a sequence of segment
  runs. Each run is a segment (its doc base and leaf values) followed by its
  hits in order.
- **Entries.** Each document the selector accepts in a run is recorded as an
  entry: its collapse key, its global doc id `docBase + doc`, and the sort
  values the segment's leaf comparators give it. The second pass keeps one
  entry per collected group: the group's key and doc id and the values held in
  its slot. The contracts of the search and of `getTopDocs` are stated over
  these entries, so a reported group's sort values are tied to its document.
- **The first pass** (`FirstPassGroupingCollector`) is an input: its top
  groups (or none) and its ordered set. `FirstPassGroupingCollector` is not
  part of this model.
- **The context's getters** are the fields of the `CollapseContext` datatype,
  so each getter returns exactly its constructor argument.

Two behaviours of the code a reader might not expect:

- **Empty result.** The empty result's total hits are 0 with relation
  `EQUAL_TO`, even when documents were counted
  (CollapsingTopDocsCollector.java:78-81).
- **No deduplication.** The second pass does not deduplicate by key or by doc
  id. Every accepted document gets a new slot and is inserted. The ordered set
  drops it only when the chain compares it equal to an element already there,
  which happens only for the same doc id with equal sort values.

## Model

| member | source | states |
|---|---|---|
| `Sorting.ScorePos` | server/src/main/java/org/apache/lucene/search/grouping/CollapsingTopDocsCollector.java:84-91 | the position is -1 exactly when no field sorts by score; otherwise that field is SCORE-typed and no earlier field is |
| `Sorting.ValuesScoreMode` | server/src/main/java/org/apache/lucene/search/grouping/SortingCollectedSearchGroups.java:77-97 | the values collector asks for COMPLETE or COMPLETE_NO_SCORES, and needs scores exactly when the final sort does |
| `Sorting.CollapsingScoreMode` | server/src/main/java/org/apache/lucene/search/grouping/CollapsingTopDocsCollector.java:109-116 | the mode is COMPLETE or COMPLETE_NO_SCORES, and needs scores exactly when the first pass's mode does |
| `Sorting.ReverseFlag` | server/src/main/java/org/apache/lucene/search/grouping/SortingCollectedSearchGroups.java:43 | the direction flag is 1 or -1, and -1 exactly when the sort field is reversed |
| `ComparatorChain.ChainFirstDifference` | server/src/main/java/org/apache/lucene/search/grouping/SortingCollectedSearchGroups.java:46-54 | the chain returns the first field comparison that is not zero, multiplied by that field's flag, so its sign is the flag times the comparison's sign |
| `ComparatorChain.ChainTieBreak` | server/src/main/java/org/apache/lucene/search/grouping/SortingCollectedSearchGroups.java:55-56 | when every field compares equal the chain is the difference of the doc ids, so the lower doc id sorts first |
| `ComparatorChain.ChainZero` | server/src/main/java/org/apache/lucene/search/grouping/SortingCollectedSearchGroups.java:46-59 | the chain is zero exactly when the doc ids are equal and every field compares equal, so two distinct docs never tie |
| `ComparatorChain.ChainAntisymmetric` | server/src/main/java/org/apache/lucene/search/grouping/SortingCollectedSearchGroups.java:46-61 | swapping the two groups flips the chain's sign, given consistent field comparators (what the TreeSet needs) |
| `ComparatorChain.ChainTransitive` | server/src/main/java/org/apache/lucene/search/grouping/SortingCollectedSearchGroups.java:46-61 | "sorts before" under the chain is transitive, given consistent field comparators |
| `OrderedGroups.Insert` | server/src/main/java/org/apache/lucene/search/grouping/SortingCollectedSearchGroups.java:146 | adding to the set yields only the new group and old elements, grows the set by at most one, and never leaves it empty |
| `OrderedGroups.InsertSorted` | server/src/main/java/org/apache/lucene/search/grouping/SortingCollectedSearchGroups.java:61 | adding a group keeps the set strictly sorted under the chain |
| `OrderedGroups.InsertTie` | server/src/main/java/org/apache/lucene/search/grouping/SortingCollectedSearchGroups.java:146 | adding a group that compares equal to an element leaves the set unchanged |
| `OrderedGroups.InsertAdds` | server/src/main/java/org/apache/lucene/search/grouping/SortingCollectedSearchGroups.java:146 | adding a group that ties with no element adds exactly that group (as a multiset) |
| `OrderedGroups.InsertContents` | server/src/main/java/org/apache/lucene/search/grouping/SortingCollectedSearchGroups.java:146 | in a sorted set, the add is a no-op if and only if some element ties, and adds exactly the group otherwise |
| `OrderedGroups.StoreGrowthKeepsOrder` | server/src/main/java/org/apache/lucene/search/grouping/SortingCollectedSearchGroups.java:139-144 | filling a fresh slot changes neither the keys nor the order of the groups already in the set |
| `SecondPass.FinalOrder` | server/src/main/java/org/apache/lucene/search/grouping/SortingCollectedSearchGroups.java:38-44 | the chain of a final sort has one flag per sort field, each 1 or -1 and -1 exactly when that field is reversed |
| `SecondPass.ReportsKeepOrder` | server/src/main/java/org/apache/lucene/search/grouping/SortingCollectedSearchGroups.java:111-122 | records that report the set's slots in set order are strictly sorted by the chain on (sort values, doc id) |
| `SecondPass.CollectedContents` | server/src/main/java/org/apache/lucene/search/grouping/SortingCollectedSearchGroups.java:131-146 | the set is empty exactly when nothing was accepted; the entry (key, doc id, slot values) of each set element is a collected entry; with distinct doc ids the set has one element per collected entry and holds all of them |
| `SecondPass.AcceptKeepsGroupsValid` | server/src/main/java/org/apache/lucene/search/grouping/SortingCollectedSearchGroups.java:134-146 | accepting a document into the next slot keeps the invariant: slot k is the k-th accepted group, and the set is sorted and holds only accepted groups |
| `SecondPass.AcceptKeepsContents` | server/src/main/java/org/apache/lucene/search/grouping/SortingCollectedSearchGroups.java:134-146 | when doc ids are distinct, the set after the add has one element per accepted group and holds every one of them |
| `SecondPass.SortingCollectedSearchGroups.constructor` | server/src/main/java/org/apache/lucene/search/grouping/SortingCollectedSearchGroups.java:28-62 | flag i is -1 exactly when sort field i is reversed; there are searchGroups.size() + 1 slots; the set and the counters start empty |
| `SecondPass.SortingCollectedSearchGroups.DoSetNextReader` | server/src/main/java/org/apache/lucene/search/grouping/SortingCollectedSearchGroups.java:149-158 | docBase becomes the segment's doc base, and leaf comparator i is the segment's field i |
| `SecondPass.SortingCollectedSearchGroups.Collect` | server/src/main/java/org/apache/lucene/search/grouping/SortingCollectedSearchGroups.java:127-147 | every document adds one hit; on SKIP nothing else changes; an accepted document adds a grouped hit, takes the old slot counter as its slot, gets doc id docBase + doc, has each leaf comparator's value of the document copied into that slot, and is added to the set, which stays sorted |
| `SecondPass.SortingCollectedSearchGroups.GetTopGroups` | server/src/main/java/org/apache/lucene/search/grouping/SortingCollectedSearchGroups.java:100-125 | on a non-empty set, one record per element in set order, with that element's key and, per sort field, the value held in its slot; the records are sorted by the chain |
| `SecondPass.SearchSegment` | server/src/main/java/org/apache/lucene/search/grouping/SortingCollectedSearchGroups.java:127-158 | one segment adds one hit per document, and appends to the collected entries, in order, the segment's accepted documents with key, docBase + doc and the segment's leaf values of the document |
| `SecondPass.CollectHit` | server/src/main/java/org/apache/lucene/search/grouping/SortingCollectedSearchGroups.java:127-147 | one collect call on the bound segment appends the accepted document's entry (key, docBase + doc, the bound leaf comparators' values of the document), if any, to the collected entries |
| `SecondPass.AcceptedFromHit` | server/src/main/java/org/apache/lucene/search/grouping/SortingCollectedSearchGroups.java:138-158 | every accepted entry of a search is the entry of one accepted hit of one segment: the selector's key, the segment's doc base plus the hit's doc, and per sort field the segment's leaf value of that doc |
| `SecondPass.RunSearch` | server/src/main/java/org/apache/lucene/search/grouping/CollapsingTopDocsCollector.java:73 | running the query over all segments counts every hit, and the collected entries are exactly the accepted documents' entries, with their sort values, in visit order |
| `Collapsing.CreateNumeric` | server/src/main/java/org/apache/lucene/search/grouping/CollapsingTopDocsCollector.java:147-156 | the collector reads numeric doc values of the given field type; the other arguments pass through unchanged |
| `Collapsing.CreateKeyword` | server/src/main/java/org/apache/lucene/search/grouping/CollapsingTopDocsCollector.java:174-183 | the collector reads sorted (keyword) doc values of the given field type; the other arguments pass through unchanged |
| `Collapsing.GroupSort` | server/src/main/java/org/apache/lucene/search/grouping/CollapsingTopDocsCollector.java:50 | the first pass is driven by the collapse sort when it is given, by the final sort otherwise |
| `Collapsing.ScoreOf` | server/src/main/java/org/apache/lucene/search/grouping/CollapsingTopDocsCollector.java:97-100 | the score is unset exactly when no sort field is SCORE-typed; otherwise it is the sort value at the first SCORE-typed field |
| `Collapsing.FindScorePos` | server/src/main/java/org/apache/lucene/search/grouping/CollapsingTopDocsCollector.java:84-91 | the loop with its break finds the first SCORE-typed field, or -1 |
| `Collapsing.FillDocs` | server/src/main/java/org/apache/lucene/search/grouping/CollapsingTopDocsCollector.java:92-104 | position p holds the p-th ordered element's doc id, the p-th group's sort values, and its score, and collapse value p is the p-th group's key |
| `Collapsing.RunSecondPass` | server/src/main/java/org/apache/lucene/search/grouping/CollapsingTopDocsCollector.java:67-76 | the second pass ends on an empty set exactly when the re-run accepts nothing; otherwise its groups are sorted by the final sort's chain, and each group's (key, doc id, sort values) is an accepted document's entry, all of them when doc ids are distinct |
| `Collapsing.SearchAgain` | server/src/main/java/org/apache/lucene/search/grouping/CollapsingTopDocsCollector.java:68-73 | the fresh second-pass collector is ordered by the final sort, and after the re-run its collected entries are exactly the accepted documents' entries |
| `Collapsing.GroupsReported` | server/src/main/java/org/apache/lucene/search/grouping/CollapsingTopDocsCollector.java:74-75 | the records getTopGroups returns, with the second-pass collector's ordered set, are aligned by key, sorted by the final sort's chain, and report only accepted documents' entries with their copied sort values (all of them when doc ids are distinct) |
| `Collapsing.SecondPassRecord` | server/src/main/java/org/apache/lucene/search/grouping/CollapsingTopDocsCollector.java:92-106 | filling the second pass's groups into the result keeps them sorted by the final sort, and keeps each position's (collapse value, doc, fields) an accepted document's entry |
| `Collapsing.RecordFromHits` | server/src/main/java/org/apache/lucene/search/grouping/CollapsingTopDocsCollector.java:67-106 | each position of a second-pass result is an accepted hit of the re-run: its collapse value is the hit's key, its doc the segment's doc base plus the hit's doc, and its fields the segment's leaf values of that doc |
| `Collapsing.CollapsingTopDocsCollector.constructor` | server/src/main/java/org/apache/lucene/search/grouping/CollapsingTopDocsCollector.java:49-56 | the first pass is created with the collapse sort if given, else the final sort; the arguments are kept; no hit is counted yet |
| `Collapsing.CollapsingTopDocsCollector.Collect` | server/src/main/java/org/apache/lucene/search/grouping/CollapsingTopDocsCollector.java:124-128 | every collect call adds exactly one to the total hit count |
| `Collapsing.CollapsingTopDocsCollector.Assemble` | server/src/main/java/org/apache/lucene/search/grouping/CollapsingTopDocsCollector.java:82-106 | the result carries the collapse field, the final sort's fields, total hits = the hit count with relation EQUAL_TO, and the aligned docs and collapse values |
| `Collapsing.CollapsingTopDocsCollector.GetTopDocs` | server/src/main/java/org/apache/lucene/search/grouping/CollapsingTopDocsCollector.java:63-107 | no first-pass groups give the empty result; without a collapse sort the result is aligned with the first pass; with one it fails exactly when the re-run accepts nothing and is otherwise sorted by the final sort, each position's (collapse value, doc, fields) being an accepted document's entry |
| `Collapsing.CollapsingTopDocsCollector.GetTopDocsAsWritten` | server/src/main/java/org/apache/lucene/search/grouping/CollapsingTopDocsCollector.java:63-107 | with a collapse sort, the result fails exactly when the re-run accepts nothing, including when the first pass found no groups |
| `Collapse.CreateTopDocs` | server/src/main/java/org/elasticsearch/search/collapse/CollapseContext.java:68-78 | a keyword field gives the keyword collector and a numeric field the numeric one; any other field fails with "collapse is not supported on this field type"; field name, final sort and topN pass through; the collapse sort is absent exactly when the context has no sort, otherwise it is the context's sort |

## Left out

- **First pass.** `FirstPassGroupingCollector` (its capacity, eviction and
  best-per-key choice, and `super.collect`) is not part of this model. Its top
  groups and ordered set are an input. The model assumes the ordered set has an
  element for each top group, and that each group has one sort value per field
  of the group sort.
- **The first pass's score mode** is an input of `CollapsingScoreMode`.
- **`indexSearcher.search`, the query and the searcher** are replaced by the
  sequence of segment runs.
- **The group selector's `advanceTo` and `copyValue`** are the per-hit answer
  `Skip` or `Accept(key)`.
- **Lucene field comparators.** Their internals are abstract:
  - the storage is `slotValues`;
  - the comparison is `fieldCmp`, assumed consistent;
  - `getLeafComparator` is the segment's per-field value function.
- **`setBottom`** in `getTopGroups` (lines 103-105) is not modelled; it does not
  change the records returned.
- **Slot capacity.** The slot storage has `searchGroups.size() + 1` slots. That
  at most this many documents are accepted is a precondition of `Collect`,
  `RunSearch` and `GetTopDocs`, not something the model enforces.
- **32-bit arithmetic is not modelled.** The model's integers are unbounded. In
  the source:
  - `reversed[i] * compare(...)` overflows only for a comparison equal to
    `Integer.MIN_VALUE`;
  - `o1.topDoc - o2.topDoc` cannot overflow, because doc ids are non-negative
    ints.
- **Scores.** A score is the sort value itself, and NaN is `Unset`. The float
  cast and IEEE arithmetic are left out.
- **Arrays.** `docs`, `collapseValues`, `sortValues`, `reversed` and the leaf
  comparators are sequences. Nothing aliases them.
- **A null ordered set.** When the first pass has no groups, it may hand over a
  null set. The model hands over an empty sequence.
- **Unmodelled state.** `setScorer`, the scorer field, inner hits and the sort
  formats are carried along with no logic. There is no concurrency.
- `SecondPass.SortingCollectedSearchGroups.Collect`: states the new ordered set
  as the `Insert` of the old one, not by its contents. "The set holds every
  accepted document when doc ids are distinct" is kept in the class invariant
  and stated by `SecondPass.CollectedContents`.

## Findings

| source | as written | input that shows it | evidently intended | confidence | as-written member | corrected member |
|---|---|---|---|---|---|---|
| server/src/main/java/org/apache/lucene/search/grouping/CollapsingTopDocsCollector.java:67-81 | the second pass runs whenever a collapse sort is given, before the check for missing first-pass groups | a collapse sort is given and the query matches no document, so the first pass has no groups; the second pass then ends with an empty set and `getTopGroups` fails (its assert, or `last()` on an empty set, SortingCollectedSearchGroups.java:101-104); a null first-pass set fails earlier still | the empty result of lines 79-80 (no docs, total hits 0); the second pass is skipped when there are no groups | medium; not executed | `Collapsing.CollapsingTopDocsCollector.GetTopDocsAsWritten` | `Collapsing.CollapsingTopDocsCollector.GetTopDocs` |
