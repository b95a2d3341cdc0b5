/** Retrieval over the case base (find_similar_cases) and the choice of the
    suggested solution from its result. */
module Retrieval {
  import opened Similarity

  /** xs can be obtained from ys by deleting elements, keeping the order. */
  predicate IsSubsequence<T(==)>(xs: seq<T>, ys: seq<T>)
    decreases |ys|
  {
    if ys == [] then xs == []
    else (xs != [] && xs[0] == ys[0] && IsSubsequence(xs[1..], ys[1..]))
         || IsSubsequence(xs, ys[1..])
  }

  /** A subsequence is never longer than the sequence it is taken from. */
  lemma {:induction false} SubsequenceLength<T>(xs: seq<T>, ys: seq<T>)
    requires IsSubsequence(xs, ys)
    ensures |xs| <= |ys|
    decreases |ys|
  {
    if ys != [] {
      if xs != [] && xs[0] == ys[0] && IsSubsequence(xs[1..], ys[1..]) {
        SubsequenceLength(xs[1..], ys[1..]);
      } else {
        SubsequenceLength(xs, ys[1..]);
      }
    }
  }

  /** The cases of db whose score against query reaches minSimilarity, in
      storage order. Every stored case is scored, including one identical
      to the query. */
  function FindSimilarCases(query: Case, db: seq<Case>, w: Weights, minSimilarity: real): (r: seq<Case>)
    requires w.Total() != 0.0
    ensures |r| <= |db|
    ensures forall c :: c in r ==> c in db && CompareCases(query, c, w) >= minSimilarity
    ensures forall c :: c in db && CompareCases(query, c, w) >= minSimilarity ==> c in r
  {
    if db == [] then []
    else
      assert db == [db[0]] + db[1..];
      (if CompareCases(query, db[0], w) >= minSimilarity then [db[0]] else [])
      + FindSimilarCases(query, db[1..], w, minSimilarity)
  }

  /** Each stored case is retrieved as many times as it is stored when it
      reaches the threshold, and never otherwise. */
  lemma {:induction false} FindSimilarCounts(query: Case, db: seq<Case>, w: Weights, minSimilarity: real, c: Case)
    requires w.Total() != 0.0
    ensures multiset(FindSimilarCases(query, db, w, minSimilarity))[c]
            == if CompareCases(query, c, w) >= minSimilarity then multiset(db)[c] else 0
  {
    if db != [] {
      FindSimilarCounts(query, db[1..], w, minSimilarity, c);
      assert db == [db[0]] + db[1..];
    }
  }

  /** The result keeps the storage order: it is a subsequence of the base. */
  lemma {:induction false} FindSimilarIsSubsequence(query: Case, db: seq<Case>, w: Weights, minSimilarity: real)
    requires w.Total() != 0.0
    ensures IsSubsequence(FindSimilarCases(query, db, w, minSimilarity), db)
  {
    if db != [] {
      FindSimilarIsSubsequence(query, db[1..], w, minSimilarity);
      var r := FindSimilarCases(query, db, w, minSimilarity);
      var rest := FindSimilarCases(query, db[1..], w, minSimilarity);
      if CompareCases(query, db[0], w) >= minSimilarity {
        assert r == [db[0]] + rest;
        assert r[0] == db[0] && r[1..] == rest;
      } else {
        assert r == rest;
      }
    }
  }

  /** Retrieval distributes over concatenation of case bases. */
  lemma {:induction false} FindSimilarAppend(query: Case, xs: seq<Case>, ys: seq<Case>, w: Weights, minSimilarity: real)
    requires w.Total() != 0.0
    ensures FindSimilarCases(query, xs + ys, w, minSimilarity)
            == FindSimilarCases(query, xs, w, minSimilarity) + FindSimilarCases(query, ys, w, minSimilarity)
  {
    if xs == [] {
      assert xs + ys == ys;
    } else {
      assert (xs + ys)[0] == xs[0];
      assert (xs + ys)[1..] == xs[1..] + ys;
      FindSimilarAppend(query, xs[1..], ys, w, minSimilarity);
    }
  }

  /** Raising the threshold keeps a subsequence of the previous result, so
      it never retrieves more cases. */
  lemma {:induction false} ThresholdMonotone(query: Case, db: seq<Case>, w: Weights, low: real, high: real)
    requires w.Total() != 0.0
    requires low <= high
    ensures IsSubsequence(FindSimilarCases(query, db, w, high), FindSimilarCases(query, db, w, low))
    ensures |FindSimilarCases(query, db, w, high)| <= |FindSimilarCases(query, db, w, low)|
  {
    var rh, rl := FindSimilarCases(query, db, w, high), FindSimilarCases(query, db, w, low);
    if db != [] {
      ThresholdMonotone(query, db[1..], w, low, high);
      var th, tl := FindSimilarCases(query, db[1..], w, high), FindSimilarCases(query, db[1..], w, low);
      var score := CompareCases(query, db[0], w);
      if score >= high {
        assert rh == [db[0]] + th && rl == [db[0]] + tl;
        assert rh[1..] == th && rl[1..] == tl;
      } else if score >= low {
        assert rh == th && rl == [db[0]] + tl;
        assert rl[1..] == tl;
      } else {
        assert rh == th && rl == tl;
      }
    }
    SubsequenceLength(rh, rl);
  }

  /** The first retrieved case is the first case in storage order that
      reaches the threshold; no earlier stored case does. */
  lemma {:induction false} FirstMatchIsEarliest(query: Case, db: seq<Case>, w: Weights, minSimilarity: real)
    returns (i: nat)
    requires w.Total() != 0.0
    requires FindSimilarCases(query, db, w, minSimilarity) != []
    ensures i < |db| && db[i] == FindSimilarCases(query, db, w, minSimilarity)[0]
    ensures CompareCases(query, db[i], w) >= minSimilarity
    ensures forall j :: 0 <= j < i ==> CompareCases(query, db[j], w) < minSimilarity
  {
    var r := FindSimilarCases(query, db, w, minSimilarity);
    var rest := FindSimilarCases(query, db[1..], w, minSimilarity);
    if CompareCases(query, db[0], w) >= minSimilarity {
      assert r == [db[0]] + rest;
      i := 0;
    } else {
      assert r == rest;
      var k := FirstMatchIsEarliest(query, db[1..], w, minSimilarity);
      i := k + 1;
      forall j | 0 <= j < i
        ensures CompareCases(query, db[j], w) < minSimilarity
      {
        if j > 0 {
          assert db[j] == db[1..][j - 1];
        }
      }
    }
  }

  /** What the program shows after a retrieval: a suggested solution, or a
      message that none was found. */
  datatype Suggestion = Suggested(solution: string) | NoSolutionFound

  /** The suggestion is the solution of the first retrieved case. */
  function Suggest(matches: seq<Case>): (s: Suggestion)
    ensures s.NoSolutionFound? <==> matches == []
    ensures s.Suggested? ==> s.solution == matches[0].solution
  {
    if matches != [] then Suggested(matches[0].solution) else NoSolutionFound
  }

  /** The suggestion after a retrieval is the solution of the earliest stored
      case that reaches the threshold; every case stored before it scores
      below the threshold. */
  lemma SuggestionIsEarliestMatch(query: Case, db: seq<Case>, w: Weights, minSimilarity: real)
    returns (i: nat)
    requires w.Total() != 0.0
    requires FindSimilarCases(query, db, w, minSimilarity) != []
    ensures i < |db| && Suggest(FindSimilarCases(query, db, w, minSimilarity)) == Suggested(db[i].solution)
    ensures CompareCases(query, db[i], w) >= minSimilarity
    ensures forall j :: 0 <= j < i ==> CompareCases(query, db[j], w) < minSimilarity
  {
    i := FirstMatchIsEarliest(query, db, w, minSimilarity);
  }

  /** The suggestion is taken in storage order, not by rank: with the
      default weights and threshold 60, a stored case scoring 64 that
      precedes a case agreeing with the query on description, area and
      severity (scoring 100) supplies it. */
  lemma SuggestionIsNotRanked()
    ensures var query := Case("mancha alvo", "localizada", 3, "");
            var earlier := Case("mancha alvo", "espalhado", 4, "earlier");
            var best := Case("mancha alvo", "localizada", 3, "best");
            var matches := FindSimilarCases(query, [earlier, best], DefaultWeights, 60.0);
            CompareCases(query, earlier, DefaultWeights) < CompareCases(query, best, DefaultWeights)
            && Suggest(matches) == Suggested("earlier")
  {
    var query := Case("mancha alvo", "localizada", 3, "");
    var earlier := Case("mancha alvo", "espalhado", 4, "earlier");
    var best := Case("mancha alvo", "localizada", 3, "best");
    WorkedExamples();
    assert CompareCases(query, earlier, DefaultWeights) == 64.0;
    SelfSimilarity(query, DefaultWeights);
    assert CompareCases(query, best, DefaultWeights) == 100.0;
  }

  /** Retrieving a case from a base that ends with that case itself always
      finds it last, as long as the threshold is at most 100. */
  lemma RetrievesItselfLast(db: seq<Case>, c: Case, w: Weights, minSimilarity: real)
    requires w.Total() != 0.0
    requires minSimilarity <= 100.0
    ensures var r := FindSimilarCases(c, db + [c], w, minSimilarity);
            r != [] && r[|r| - 1] == c
  {
    FindSimilarAppend(c, db, [c], w, minSimilarity);
    SelfSimilarity(c, w);
    assert FindSimilarCases(c, [c], w, minSimilarity) == [c] by {
      assert [c][1..] == [];
    }
  }

  /** The scenario of the default threshold 70: of two stored cases scoring
      64 and 76 against the query, only the second is retrieved. */
  lemma DefaultThresholdScenario()
    ensures var query := Case("mancha alvo", "localizada", 1, "");
            var below := Case("mancha alvo", "espalhado", 2, "");
            var above := Case("mancha alvo", "localizada", 5, "");
            CompareCases(query, below, DefaultWeights) == 64.0
            && CompareCases(query, above, DefaultWeights) == 76.0
            && FindSimilarCases(query, [below, above], DefaultWeights, 70.0) == [above]
  {
  }
}
