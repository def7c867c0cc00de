/**
 * Sort descriptions as the collapsing collectors read them: a sort is a
 * non-empty list of sort fields, each with a type and a reverse flag.
 */
module Sorting {

  /** The field types a sort field can have; only SCORE matters to collapsing. */
  datatype SortFieldType =
    | Score | Doc | String | Int | Float | Long | Double | Custom | StringVal | Rewriteable

  datatype SortField = SortField(fieldType: SortFieldType, reverse: bool)

  /** A sort always holds at least one field. */
  type Sort = s: seq<SortField> | |s| > 0 witness [SortField(Score, false)]

  /** How a collector asks the engine for scores. */
  datatype ScoreMode = Complete | CompleteNoScores | TopScores | TopDocs | TopDocsWithScores {
    predicate NeedsScores() {
      this == Complete || this == TopScores || this == TopDocsWithScores
    }
  }

  /** A sort field needs scores exactly when it sorts by score. */
  predicate FieldNeedsScores(f: SortField) {
    f.fieldType == Score
  }

  /** A sort needs scores when one of its fields does. */
  predicate NeedsScores(fields: seq<SortField>) {
    exists i :: 0 <= i < |fields| && FieldNeedsScores(fields[i])
  }

  /**
   * The position of the first SCORE-typed field, or -1 when there is none
   * (the search for `scorePos` in the collector).
   */
  function ScorePos(fields: seq<SortField>): (r: int)
    ensures -1 <= r < |fields|
    ensures r == -1 <==> !NeedsScores(fields)
    ensures r >= 0 ==> fields[r].fieldType == Score
    ensures r >= 0 ==> forall j :: 0 <= j < r ==> fields[j].fieldType != Score
  {
    if |fields| == 0 then -1
    else if fields[0].fieldType == Score then 0
    else
      var rest := ScorePos(fields[1..]);
      assert forall j :: 1 <= j < |fields| ==> fields[j] == fields[1..][j - 1];
      if rest == -1 then -1 else rest + 1
  }

  /**
   * The score mode of the second-pass values collector: COMPLETE when the
   * final sort needs scores, COMPLETE_NO_SCORES otherwise.
   */
  function ValuesScoreMode(sort: Sort): (m: ScoreMode)
    ensures m == Complete || m == CompleteNoScores
    ensures m.NeedsScores() <==> NeedsScores(sort)
  {
    if NeedsScores(sort) then Complete else CompleteNoScores
  }

  /**
   * The collapsing collector's score mode: the first-pass collector's need
   * for scores, flattened to COMPLETE or COMPLETE_NO_SCORES.
   */
  function CollapsingScoreMode(superMode: ScoreMode): (m: ScoreMode)
    ensures m == Complete || m == CompleteNoScores
    ensures m.NeedsScores() <==> superMode.NeedsScores()
  {
    if superMode.NeedsScores() then Complete else CompleteNoScores
  }

  /** The direction flag of one sort field: -1 when reversed, 1 otherwise. */
  function ReverseFlag(f: SortField): (r: int)
    ensures r == 1 || r == -1
    ensures r == -1 <==> f.reverse
  {
    if f.reverse then -1 else 1
  }
}
