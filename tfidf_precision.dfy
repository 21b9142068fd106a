/**
 * TF-IDF precision-at-k (`evaluate_precision_at_k` in src/utils/utils.py).
 *
 * Each sampled query has already been resolved to a row of the TF-IDF matrix
 * (or to nothing, when no close match exists). The row's positions are ranked
 * by value, the top positions are the predicted positives, the corpus entries
 * labelled relevant are the true positives' candidates, and precision is
 * scikit-learn's TP / (TP + FP) over 0/1 indicator vectors as long as the
 * corpus.
 */
module TfIdfPrecision {
  import opened Results
  import opened Ranking
  import opened Stats

  /** A corpus entry: its query text and its relevance label. */
  datatype CorpusEntry = CorpusEntry(query: string, relevance: int)

  /** How many positions `row.argsort()[-k:]` keeps of a row of length n. */
  function TopCount(k: int, n: nat): nat
  {
    if k > 0 then (if k < n then k else n)
    else if k == 0 then n                       // `[-0:]` is `[0:]`: every position
    else (if n + k > 0 then n + k else 0)       // `[|k|:]` drops the |k| lowest
  }

  /**
   * `sel` is what `row.argsort()[-k:][::-1]` can return: TopCount(k, |row|)
   * distinct positions of the row, values non-increasing along the list,
   * and no position left out holding a larger value than one chosen.
   */
  ghost predicate IsTopK(row: seq<real>, k: int, sel: seq<nat>)
  {
    && |sel| == TopCount(k, |row|)
    && Distinct(sel)
    && (forall i :: 0 <= i < |sel| ==> sel[i] < |row|)
    && (forall i, j :: 0 <= i < j < |sel| ==> row[sel[i]] >= row[sel[j]])
    && (forall q, i :: 0 <= q < |row| && q !in sel && 0 <= i < |sel| ==> row[q] <= row[sel[i]])
  }

  /** `row.argsort()[::-1]`: every position once, highest value first (ties in no fixed order). */
  method ArgsortDescending(row: seq<real>) returns (order: seq<nat>)
    ensures |order| == |row| && Distinct(order)
    ensures forall i :: 0 <= i < |order| ==> order[i] < |row|
    ensures forall q :: 0 <= q < |row| ==> q in order
    ensures forall i, j :: 0 <= i < j < |order| ==> row[order[i]] >= row[order[j]]
  {
    var ranked: seq<Scored<nat>> := [];
    for p := 0 to |row|
      invariant |ranked| == p
      invariant SortedByScore(ranked) && Distinct(ranked)
      invariant forall y :: y in ranked ==> y.item < p && y.score == row[y.item]
      invariant forall q :: 0 <= q < p ==> Scored(q, row[q]) in ranked
    {
      ranked := InsertByScore(ranked, Scored(p, row[p]));
    }
    order := seq(|ranked|, i requires 0 <= i < |ranked| => ranked[i].item);
    forall i | 0 <= i < |ranked| ensures ranked[i].item < |row| && ranked[i].score == row[order[i]] {
      assert ranked[i] in ranked;
    }
    forall q | 0 <= q < |row| ensures q in order {
      var i :| 0 <= i < |ranked| && ranked[i] == Scored(q, row[q]);
      assert order[i] == q;
    }
  }

  /** `top_k_documents = tfidf_row.argsort()[-k:][::-1]`. */
  method TopKPositions(row: seq<real>, k: int) returns (sel: seq<nat>)
    ensures IsTopK(row, k, sel)
  {
    var order := ArgsortDescending(row);
    sel := order[..TopCount(k, |row|)];
    forall q, i | 0 <= q < |row| && q !in sel && 0 <= i < |sel|
      ensures row[q] <= row[sel[i]]
    {
      assert q in order;
      var j :| 0 <= j < |order| && order[j] == q;
    }
  }

  /** A 0/1 indicator vector of length n: entry j is 1 exactly when j is in s. */
  function Indicator(n: nat, s: set<int>): seq<int>
  {
    seq(n, j => if j in s then 1 else 0)
  }

  /** Entries predicted 1 whose true label is 1. */
  function TruePositives(yTrue: seq<int>, yPred: seq<int>): nat
    requires |yTrue| == |yPred|
  {
    if yTrue == [] then 0
    else
      var n := |yTrue| - 1;
      TruePositives(yTrue[..n], yPred[..n]) + (if yTrue[n] == 1 && yPred[n] == 1 then 1 else 0)
  }

  /** Entries predicted 1 whose true label is not 1. */
  function FalsePositives(yTrue: seq<int>, yPred: seq<int>): nat
    requires |yTrue| == |yPred|
  {
    if yTrue == [] then 0
    else
      var n := |yTrue| - 1;
      FalsePositives(yTrue[..n], yPred[..n]) + (if yTrue[n] != 1 && yPred[n] == 1 then 1 else 0)
  }

  /** scikit-learn's binary `precision_score`: TP / (TP + FP), and 0.0 when nothing is predicted positive. */
  function PrecisionScore(yTrue: seq<int>, yPred: seq<int>): (p: real)
    requires |yTrue| == |yPred|
    ensures 0.0 <= p <= 1.0
  {
    var tp := TruePositives(yTrue, yPred);
    var fp := FalsePositives(yTrue, yPred);
    if tp + fp == 0 then 0.0
    else
      FractionInUnit(tp as real, (tp + fp) as real);
      tp as real / (tp + fp) as real
  }

  /** `relevant_documents`: every corpus index labelled 1, whatever the query. */
  function RelevantIndices(corpus: seq<CorpusEntry>): set<int>
  {
    set j | 0 <= j < |corpus| && corpus[j].relevance == 1
  }

  /** The members of s below n. */
  function Below(s: set<int>, n: nat): set<int>
  {
    set j | 0 <= j < n && j in s
  }

  /** The precision one sampled query contributes, given the positions selected from its row. */
  function CorpusPrecision(corpus: seq<CorpusEntry>, sel: seq<nat>): real
  {
    var n := |corpus|;
    PrecisionScore(Indicator(n, RelevantIndices(corpus)), Indicator(n, set p: int | p in sel))
  }

  /** Counting over indicator vectors is counting the sets they indicate, cut off at the vector length. */
  lemma {:induction false} IndicatorCounts(n: nat, r: set<int>, p: set<int>)
    ensures TruePositives(Indicator(n, r), Indicator(n, p)) == |Below(r * p, n)|
    ensures TruePositives(Indicator(n, r), Indicator(n, p)) + FalsePositives(Indicator(n, r), Indicator(n, p)) == |Below(p, n)|
  {
    if n > 0 {
      var m := n - 1;
      IndicatorCounts(m, r, p);
      assert Indicator(n, r)[..m] == Indicator(m, r);
      assert Indicator(n, p)[..m] == Indicator(m, p);
      assert m !in Below(r * p, m) && m !in Below(p, m);
      assert Below(r * p, n) == Below(r * p, m) + (if m in r * p then {m} else {});
      assert Below(p, n) == Below(p, m) + (if m in p then {m} else {});
    }
  }

  /**
   * The precision of a selection is |predicted ∩ relevant| / |predicted|,
   * where predicted are the selected positions below the corpus length and
   * relevant the corpus indices labelled 1; it is 0 when nothing is predicted.
   */
  lemma CorpusPrecisionIsRatio(corpus: seq<CorpusEntry>, sel: seq<nat>)
    ensures
      var predicted := set j | 0 <= j < |corpus| && j in sel;
      var hits := predicted * RelevantIndices(corpus);
      CorpusPrecision(corpus, sel) == if predicted == {} then 0.0 else |hits| as real / |predicted| as real
  {
    var n := |corpus|;
    var r := RelevantIndices(corpus);
    var p := set q: int | q in sel;
    IndicatorCounts(n, r, p);
    var predicted := set j | 0 <= j < n && j in sel;
    assert Below(p, n) == predicted;
    assert Below(r * p, n) == predicted * r;
  }

  /**
   * Four documents labelled [1, 0, 1, 0], a row ranking them 2, 0, 1, 3 and
   * k = 2: the only top-two selection is positions 2 then 0, both relevant,
   * so precision is 1.
   */
  lemma FourDocumentExample()
    ensures
      var corpus := [CorpusEntry("a", 1), CorpusEntry("b", 0), CorpusEntry("c", 1), CorpusEntry("d", 0)];
      var row := [0.5, 0.2, 0.9, 0.1];
      && IsTopK(row, 2, [2, 0])
      && (forall sel :: IsTopK(row, 2, sel) ==> sel == [2, 0] && CorpusPrecision(corpus, sel) == 1.0)
  {
    FourDocumentPrecision();
    var row := [0.5, 0.2, 0.9, 0.1];
    forall q | 0 <= q < |row| && q !in [2, 0] ensures q == 1 || q == 3 {
    }
    forall sel | IsTopK(row, 2, sel) ensures sel == [2, 0] {
      TopTwoIsForced(sel);
    }
  }

  lemma FourDocumentPrecision()
    ensures CorpusPrecision([CorpusEntry("a", 1), CorpusEntry("b", 0), CorpusEntry("c", 1), CorpusEntry("d", 0)], [2, 0]) == 1.0
  {
    var corpus := [CorpusEntry("a", 1), CorpusEntry("b", 0), CorpusEntry("c", 1), CorpusEntry("d", 0)];
    CorpusPrecisionIsRatio(corpus, [2, 0]);
    var predicted := set j | 0 <= j < |corpus| && j in [2, 0];
    assert predicted == {0, 2};
    assert RelevantIndices(corpus) == {0, 2};
    assert predicted * RelevantIndices(corpus) == {0} + {2};
    assert |{0} + {2}| == 2;
  }

  /** In the example row, the top-two rule leaves no choice: position 2 first, then position 0. */
  lemma TopTwoIsForced(sel: seq<nat>)
    requires IsTopK([0.5, 0.2, 0.9, 0.1], 2, sel)
    ensures sel == [2, 0]
  {
    var row := [0.5, 0.2, 0.9, 0.1];
    var first, second := sel[0], sel[1];
    assert sel == [first, second];
    assert first < 4 && second < 4 && first != second;
    assert row[first] >= row[second];
    // position 2 holds the largest value, so it cannot be left out,
    assert row[2] <= row[first] || 2 in sel;
    // and position 0 holds the next largest, so it cannot be left out either
    assert row[0] <= row[second] || 0 in sel;
  }

  /** The resolved row indices of the sampled queries that found a match, in sample order. */
  function MatchedRows(matches: seq<Option<nat>>): (rows: seq<nat>)
    ensures |rows| <= |matches|
  {
    if matches == [] then []
    else
      var n := |matches| - 1;
      MatchedRows(matches[..n]) + (if matches[n].Some? then [matches[n].value] else [])
  }

  /** Every matched row index names a row of the matrix. */
  predicate RowsExist(matches: seq<Option<nat>>, rowCount: nat)
  {
    forall t :: 0 <= t < |matches| && matches[t].Some? ==> matches[t].value < rowCount
  }

  /**
   * `evaluate_precision_at_k(corpus, tfidf_matrix, num_queries_to_sample, k)`,
   * with the random sample and the fuzzy matching replaced by `matches`: for
   * each sampled query, the row index its closest match resolved to, or None.
   * `selections` records, for each value returned, the positions chosen.
   */
  method EvaluatePrecisionAtK(corpus: seq<CorpusEntry>, tfidf: seq<seq<real>>, numQueriesToSample: int,
                              matches: seq<Option<nat>>, k: int)
    returns (res: Result<seq<real>>, ghost selections: seq<seq<nat>>)
    requires 0 <= numQueriesToSample <= |corpus| ==> |matches| == numQueriesToSample
    ensures !(0 <= numQueriesToSample <= |corpus|) ==> res == Err(ValueError)
    ensures 0 <= numQueriesToSample <= |corpus| && !RowsExist(matches, |tfidf|) ==> res == Err(IndexError)
    ensures 0 <= numQueriesToSample <= |corpus| && RowsExist(matches, |tfidf|) ==> res.Ok?
    ensures res.Ok? ==>
      var rows := MatchedRows(matches);
      && |res.value| == |rows| == |selections|
      && |res.value| <= numQueriesToSample
      && (forall t :: 0 <= t < |rows| ==> rows[t] < |tfidf|)
      && (forall t :: 0 <= t < |rows| ==> IsTopK(tfidf[rows[t]], k, selections[t]))
      && (forall t :: 0 <= t < |rows| ==> res.value[t] == CorpusPrecision(corpus, selections[t]))
      && (forall t :: 0 <= t < |rows| ==> 0.0 <= res.value[t] <= 1.0)
  {
    selections := [];
    if !(0 <= numQueriesToSample <= |corpus|) {
      return Err(ValueError), selections;
    }
    var precisionAtK: seq<real> := [];
    for i := 0 to |matches|
      invariant RowsExist(matches[..i], |tfidf|)
      invariant |precisionAtK| == |MatchedRows(matches[..i])| == |selections|
      invariant forall t :: 0 <= t < |selections| ==> MatchedRows(matches[..i])[t] < |tfidf|
      invariant forall t :: 0 <= t < |selections| ==> IsTopK(tfidf[MatchedRows(matches[..i])[t]], k, selections[t])
      invariant forall t :: 0 <= t < |selections| ==> precisionAtK[t] == CorpusPrecision(corpus, selections[t])
    {
      assert matches[..i + 1][..i] == matches[..i];
      if matches[i].None? {
        continue;
      }
      var queryIndex := matches[i].value;
      if queryIndex >= |tfidf| {
        return Err(IndexError), selections;
      }
      var top := TopKPositions(tfidf[queryIndex], k);
      var yTrue := Indicator(|corpus|, RelevantIndices(corpus));
      var yPred := Indicator(|corpus|, set p: int | p in top);
      var precision := PrecisionScore(yTrue, yPred);
      precisionAtK := precisionAtK + [precision];
      selections := selections + [top];
    }
    assert matches[..|matches|] == matches;
    res := Ok(precisionAtK);
  }
}
