# Case-based reasoning core of Trabalho-RBC

A Dafny model of the reasoning core of a small case-based-reasoning program for
crop diseases. A case records a disease description (`DescDoenca`), a
damaged-area pattern (`area-damaged`), an integer severity and a solution. When
the user enters a new case, the program does three things. It appends the case
to the in-memory case base. It scores every stored case against the new one
with a weighted similarity percentage. It then lists the cases that reach a
user-chosen minimum and suggests the solution of the first of them.

The model has three modules:

- `Similarity` (`similarity.dfy`): the `Case` and `Weights` datatypes, the fixed
  weights 0.4 / 0.3 / 0.3, the form's vocabularies and the score
  `CompareCases`. Lemmas prove self-similarity, symmetry, the [0, 100] bounds,
  when the score is exactly 100, and the worked values 64 and 76.
- `Retrieval` (`retrieval.dfy`): `FindSimilarCases`, a filter that keeps storage
  order, and `Suggest`. Lemmas prove soundness and completeness, exact
  multiplicities, the subsequence and order properties, threshold monotonicity
  and that the suggestion comes from the first match in storage order.
- `CaseStore` (`case_store.dfy`): the class `CaseBase`, which owns the case
  sequence that the program keeps in a global list. Its method `AddCase`
  appends the new case, retrieves, builds the result rows in a loop and
  suggests a solution.

Scores use exact `real` arithmetic in place of Python floats. The score divides
by the weight sum, so `CompareCases` requires a non-zero sum. The program would
raise a division error there.

## Model

| member | source | states |
|---|---|---|
| `Similarity.DefaultWeightsValid` | Atividade02IA.py:110 | the fixed weights 0.4 / 0.3 / 0.3 are non-negative and sum to exactly 1 |
| `Similarity.MatchCredit` | Atividade02IA.py:29-32 | a categorical attribute earns its full weight on an exact match and nothing otherwise, never more than its weight when that is non-negative |
| `Similarity.SeverityCredit` | Atividade02IA.py:35-37 | the severity term is the full severity weight when the severities are equal and zero when they are 5 apart |
| `Similarity.RawScore` | Atividade02IA.py:25-37 | the accumulated score of two cases that agree on description, area and severity is the full weight sum |
| `Similarity.CompareCases` | Atividade02IA.py:24-40 | the percentage times the weight sum is the accumulated score times 100, defined only for a non-zero weight sum (the program raises a division error there); cases agreeing on all three attributes score 100 |
| `Similarity.Abs` | Atividade02IA.py:35 | the absolute severity difference is a natural number equal to the difference or its negation |
| `Similarity.SelfSimilarity` | Atividade02IA.py:24-40 | a case scores exactly 100 against itself for any weights with a non-zero sum |
| `Similarity.Symmetry` | Atividade02IA.py:29-37 | the score is the same with its two cases swapped |
| `Similarity.SeverityCreditBounds` | Atividade02IA.py:35-37 | with severities at most 5 apart and a non-negative weight, the severity credit lies between 0 and the full severity weight |
| `Similarity.RawScoreBounds` | Atividade02IA.py:25-37 | with non-negative weights and severities from the form's options 1..5, the accumulated score lies between 0 and the weight sum |
| `Similarity.PercentBounds` | Atividade02IA.py:40 | a score in [0, total] divided by a positive total and scaled by 100 lies in [0, 100] |
| `Similarity.Bounds` | Atividade02IA.py:24-40 | with non-negative weights, a positive sum and severities in 1..5, the similarity percentage lies in [0, 100] |
| `Similarity.FullScoreIffSameAttributes` | Atividade02IA.py:29-40 | with all weights positive, the score is 100 if and only if description, area and severity all agree |
| `Similarity.WorkedExamples` | Atividade02IA.py:29-40 | with the default weights, same description, different area and severities 3 and 4 score 64; same labels with severities 1 and 5 score 76 |
| `Retrieval.FindSimilarCases` | Atividade02IA.py:43-46 | the result is no longer than the base; every retrieved case is stored and reaches the threshold; every stored case that reaches it is retrieved |
| `Retrieval.FindSimilarCounts` | Atividade02IA.py:44-46 | a case appears in the result exactly as often as in the base if it reaches the threshold, and never otherwise |
| `Retrieval.SubsequenceLength` | Atividade02IA.py:46 | a subsequence is never longer than the sequence it is taken from |
| `Retrieval.FindSimilarIsSubsequence` | Atividade02IA.py:44-46 | the result is a subsequence of the base in storage order, with no re-ranking |
| `Retrieval.FindSimilarAppend` | Atividade02IA.py:44-46 | retrieving from a concatenation of two bases gives the concatenation of the two retrievals |
| `Retrieval.ThresholdMonotone` | Atividade02IA.py:46 | a higher threshold yields a subsequence of the lower threshold's result, so never more cases |
| `Retrieval.FirstMatchIsEarliest` | Atividade02IA.py:81-83 | the first retrieved case is the earliest stored case that reaches the threshold; every stored case before it scores below the threshold |
| `Retrieval.Suggest` | Atividade02IA.py:81-85 | no solution is found exactly when nothing was retrieved; otherwise the suggestion is the first retrieved case's solution |
| `Retrieval.SuggestionIsEarliestMatch` | Atividade02IA.py:69-83 | when something is retrieved, the suggestion is the solution of the earliest stored case reaching the threshold, and every case stored before it scores below the threshold |
| `Retrieval.SuggestionIsNotRanked` | Atividade02IA.py:81-83 | the suggestion follows storage order: a stored case scoring 64 that precedes a case scoring 100 supplies the suggestion |
| `Retrieval.RetrievesItselfLast` | Atividade02IA.py:59-69 | retrieving a case from a base that ends with that case, with a threshold of at most 100, is non-empty and ends with that case |
| `Retrieval.DefaultThresholdScenario` | Atividade02IA.py:43-46 | with the default weights, a query of severity 1 scores 64 against a stored case with the same description, another area and severity 2, and 76 against one with the same labels and severity 5; at threshold 70 only the second is retrieved |
| `CaseStore.CaseBase.constructor` | Atividade02IA.py:113 | the case base starts as the sequence loaded at start-up |
| `CaseStore.CaseBase.AddCase` | Atividade02IA.py:49-85 | the new case carries the placeholder solution; the base grows by exactly that case at the end with earlier entries unchanged; the matches are the retrieval against the whole new base and end with the new case; each result row holds a match and its score, which reaches the threshold; a solution is always suggested, the first match's |
| `CaseStore.FirstRun` | Atividade02IA.py:49-85 | starting from an empty base, adding a case stores exactly that case and suggests its own placeholder solution |

## Left out

- JSON persistence (`load_cases_from_json`, `save_cases_to_json`): file I/O. The constructor takes the loaded sequence as a parameter. A missing file corresponds to the empty sequence. A failed write, which would abort `add_new_case` before retrieval, is not modelled.
- The success popup, the results table widget, the result label, the suggestion label and `view_saved_cases`: user-interface code. `AddCase` returns the rows, matches and suggestion instead of displaying them. The suggestion is returned as a `Suggestion` value, not as the displayed text.
- Reading the form: the description and area are taken as given strings. The severity is taken as an already parsed integer, so a parse failure of `int(...)` is not modelled. The threshold is taken as an integer in 0..100, the range of the slider.
- Formatting the percentage with two decimals in the results table.
- IEEE-754 rounding: scores are exact reals. With the default weights every exact score is a whole number, and the weight sum 0.4 + 0.3 + 0.3 is exactly 1.0 in binary floating point too. But three scores fall just below their exact values in the program's order of operations. Both labels agreeing with severities 4 apart give 75.99999999999999 instead of 76. Both labels agreeing with severities 2 apart give 87.99999999999999 instead of 88. Neither label agreeing with severities 4 apart gives 5.999999999999998 instead of 6. The slider's threshold is a whole number compared with `>=`, so at a threshold of exactly 76, 88 or 6 the program drops such a case, while `FindSimilarCases` retrieves it.
- The form's vocabularies (`DescOptions`, `AreaOptions`, `SeverityOptions`) are constants. Only `SeverityOptions` enters a contract, as the range assumed by `Similarity.Bounds`. The labels are not checked against their lists, and neither does the program check them.
