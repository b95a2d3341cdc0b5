/** The in-memory case base and the non-UI part of adding a case
    (add_new_case): append, retrieve against the whole base, suggest. */
module CaseStore {
  import opened Similarity
  import opened Retrieval

  /** The solution recorded for every case entered through the form. */
  const PlaceholderSolution := "Solução a ser definida"

  /** One row of the results table: a retrieved case and its score. */
  datatype ResultRow = ResultRow(retrieved: Case, similarity: real)

  /** The case base, held in storage order for the lifetime of the program. */
  class CaseBase {
    var cases: seq<Case>

    /** Starts from the cases loaded at start-up (empty when nothing was
        stored yet). */
    constructor (loaded: seq<Case>)
      ensures cases == loaded
    {
      cases := loaded;
    }

    /** Records a new case entered as (desc, area, severity), then retrieves
        from the whole base, new case included, every case reaching
        minSimilarity, scores each for the results table and suggests the
        solution of the first one in storage order. */
    method AddCase(desc: string, area: string, severity: int, minSimilarity: int)
      returns (newCase: Case, matches: seq<Case>, rows: seq<ResultRow>, suggestion: Suggestion)
      requires 0 <= minSimilarity <= 100
      modifies this
      ensures newCase == Case(desc, area, severity, PlaceholderSolution)
      ensures cases == old(cases) + [newCase]
      ensures matches == FindSimilarCases(newCase, cases, DefaultWeights, minSimilarity as real)
      ensures matches != [] && matches[|matches| - 1] == newCase
      ensures |rows| == |matches|
      ensures forall k :: 0 <= k < |rows| ==>
                rows[k].retrieved == matches[k]
                && rows[k].similarity == CompareCases(newCase, matches[k], DefaultWeights)
                && rows[k].similarity >= minSimilarity as real
      ensures suggestion == Suggest(matches) && suggestion.Suggested?
    {
      newCase := Case(desc, area, severity, PlaceholderSolution);
      cases := cases + [newCase];
      matches := FindSimilarCases(newCase, cases, DefaultWeights, minSimilarity as real);
      RetrievesItselfLast(old(cases), newCase, DefaultWeights, minSimilarity as real);
      rows := [];
      var i := 0;
      while i < |matches|
        invariant 0 <= i <= |matches|
        invariant |rows| == i
        invariant forall k :: 0 <= k < i ==>
                    rows[k].retrieved == matches[k]
                    && rows[k].similarity == CompareCases(newCase, matches[k], DefaultWeights)
      {
        rows := rows + [ResultRow(matches[i], CompareCases(newCase, matches[i], DefaultWeights))];
        i := i + 1;
      }
      suggestion := Suggest(matches);
    }
  }

  /** On a first run, with nothing stored, the first case entered is
      retrieved alone and the suggestion is its own placeholder solution. */
  method FirstRun(desc: string, area: string, severity: int, minSimilarity: int)
    returns (stored: seq<Case>, suggestion: Suggestion)
    requires 0 <= minSimilarity <= 100
    ensures stored == [Case(desc, area, severity, PlaceholderSolution)]
    ensures suggestion == Suggested(PlaceholderSolution)
  {
    var base := new CaseBase([]);
    var newCase, matches, rows;
    newCase, matches, rows, suggestion := base.AddCase(desc, area, severity, minSimilarity);
    stored := base.cases;
    assert |matches| <= |stored| == 1;
  }
}
