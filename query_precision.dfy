/**
 * Model-based precision-at-k (`evaluate_query` in src/utils/utils.py).
 *
 * The trained siamese model is a scoring function from a query vector and a
 * document vector to a real score. Every evaluation record is scored against
 * the chosen query's vector; the (id, score) pairs above the threshold are
 * "retrieved", and those whose own query vector is the chosen one and whose
 * relevance label is 1 are also "relevant". The retrieved pairs are ranked
 * highest score first, the first k are kept, and precision is the number of
 * relevant pairs among them divided by k.
 */
module QueryPrecision {
  import opened Results
  import opened Ranking
  import opened Stats

  type Vec = seq<real>

  /** The trained model, seen as a function of a query vector and a document vector. */
  type Scorer = (Vec, Vec) -> real

  /** One evaluation row: (query vector, document vector, relevance label, document id). */
  datatype Record = Record(query: Vec, doc: Vec, relevance: int, id: int)

  /** An (id, score) pair. */
  type Hit = Scored<int>

  /** The dictionary `evaluate_query` returns. */
  datatype Report = Report(
    queryIndex: int,
    retrievedDocuments: int,
    precisionAtK: real,
    relevantDocids: set<Hit>,
    topKRetrievedDocids: seq<Hit>)

  /** Python list indexing: -n <= i < n is valid, a negative index counts from the end. */
  function ResolveIndex(n: nat, i: int): (r: Option<nat>)
    ensures r.Some? <==> i < n && n + i >= 0
    ensures r.Some? ==> r.value < n && (if i >= 0 then r.value == i else r.value + (-i) == n)
  {
    if 0 <= i < n then Some(i) else if i < 0 && n + i >= 0 then Some(n + i) else None
  }

  /** Python's stop index for `xs[:k]` on a list of length n. */
  function PrefixStop(k: int, n: nat): nat
  {
    if k >= 0 then (if k < n then k else n) else (if n + k > 0 then n + k else 0)
  }

  /** The pair a record contributes: its document id and the score of its document against the query. */
  function HitOf(score: Scorer, myQuery: Vec, r: Record): Hit
  {
    Scored(r.id, score(myQuery, r.doc))
  }

  /** The set `retrieved_docs` after the loop has visited the records rs. */
  function Retrieved(score: Scorer, myQuery: Vec, threshold: real, rs: seq<Record>): (s: set<Hit>)
    ensures forall h :: h in s ==> h.score > threshold
  {
    if rs == [] then {}
    else
      var rest := Retrieved(score, myQuery, threshold, rs[..|rs| - 1]);
      var h := HitOf(score, myQuery, rs[|rs| - 1]);
      if h.score > threshold then rest + {h} else rest
  }

  /** The set `relevant_docs` after the loop has visited the records rs. */
  function Relevant(score: Scorer, myQuery: Vec, threshold: real, rs: seq<Record>): (s: set<Hit>)
    ensures s <= Retrieved(score, myQuery, threshold, rs)
  {
    if rs == [] then {}
    else
      var rest := Relevant(score, myQuery, threshold, rs[..|rs| - 1]);
      var r := rs[|rs| - 1];
      var h := HitOf(score, myQuery, r);
      if h.score > threshold && r.query == myQuery && r.relevance == 1 then rest + {h} else rest
  }

  /** A pair is retrieved exactly when some record yields it with a score strictly above the threshold. */
  lemma {:induction false} RetrievedMembership(score: Scorer, myQuery: Vec, threshold: real, rs: seq<Record>, h: Hit)
    ensures h in Retrieved(score, myQuery, threshold, rs) <==>
      h.score > threshold && exists j :: 0 <= j < |rs| && HitOf(score, myQuery, rs[j]) == h
  {
    if rs != [] {
      var init := rs[..|rs| - 1];
      RetrievedMembership(score, myQuery, threshold, init, h);
      if h in Retrieved(score, myQuery, threshold, init) {
        var j :| 0 <= j < |init| && HitOf(score, myQuery, init[j]) == h;
        assert rs[j] == init[j];
      }
      if exists j :: 0 <= j < |rs| && HitOf(score, myQuery, rs[j]) == h {
        var j :| 0 <= j < |rs| && HitOf(score, myQuery, rs[j]) == h;
        if j < |init| {
          assert init[j] == rs[j];
        }
      }
    }
  }

  /**
   * A pair is relevant exactly when some record above the threshold yields it
   * whose query vector is the chosen one and whose relevance label is 1.
   */
  lemma {:induction false} RelevantMembership(score: Scorer, myQuery: Vec, threshold: real, rs: seq<Record>, h: Hit)
    ensures h in Relevant(score, myQuery, threshold, rs) <==>
      h.score > threshold &&
      exists j :: 0 <= j < |rs| && HitOf(score, myQuery, rs[j]) == h && rs[j].query == myQuery && rs[j].relevance == 1
  {
    if rs != [] {
      var init := rs[..|rs| - 1];
      RelevantMembership(score, myQuery, threshold, init, h);
      if h in Relevant(score, myQuery, threshold, init) {
        var j :| 0 <= j < |init| && HitOf(score, myQuery, init[j]) == h && init[j].query == myQuery && init[j].relevance == 1;
        assert rs[j] == init[j];
      }
      if exists j :: 0 <= j < |rs| && HitOf(score, myQuery, rs[j]) == h && rs[j].query == myQuery && rs[j].relevance == 1 {
        var j :| 0 <= j < |rs| && HitOf(score, myQuery, rs[j]) == h && rs[j].query == myQuery && rs[j].relevance == 1;
        if j < |init| {
          assert init[j] == rs[j];
        }
      }
    }
  }

  /** Repeating a record already visited adds nothing: equal (id, score) pairs collapse in the set. */
  lemma RepeatedRecordCollapses(score: Scorer, myQuery: Vec, threshold: real, rs: seq<Record>, j: nat)
    requires j < |rs|
    ensures Retrieved(score, myQuery, threshold, rs + [rs[j]]) == Retrieved(score, myQuery, threshold, rs)
  {
    assert (rs + [rs[j]])[..|rs|] == rs;
    var h := HitOf(score, myQuery, rs[j]);
    if h.score > threshold {
      RetrievedMembership(score, myQuery, threshold, rs, h);
    }
  }

  /** There are never more retrieved pairs than records. */
  lemma {:induction false} RetrievedAtMostRecords(score: Scorer, myQuery: Vec, threshold: real, rs: seq<Record>)
    ensures |Retrieved(score, myQuery, threshold, rs)| <= |rs|
  {
    if rs != [] {
      RetrievedAtMostRecords(score, myQuery, threshold, rs[..|rs| - 1]);
    }
  }

  /** `sum(1 for docid in top_k if docid in relevant_docs)`. */
  function CountRelevant(top: seq<Hit>, relevant: set<Hit>): (c: nat)
    ensures c <= |top|
  {
    if top == [] then 0
    else (if top[0] in relevant then 1 else 0) + CountRelevant(top[1..], relevant)
  }

  /** On a list without repeats the count is the size of its intersection with the relevant set. */
  lemma {:induction false} CountRelevantIsIntersection(top: seq<Hit>, relevant: set<Hit>)
    requires Distinct(top)
    ensures CountRelevant(top, relevant) == |Elements(top) * relevant|
  {
    if top != [] {
      var rest := top[1..];
      assert Distinct(rest);
      CountRelevantIsIntersection(rest, relevant);
      assert top[0] !in Elements(rest);
      assert Elements(top) == {top[0]} + Elements(rest);
      if top[0] in relevant {
        assert Elements(top) * relevant == {top[0]} + Elements(rest) * relevant;
      } else {
        assert Elements(top) * relevant == Elements(rest) * relevant;
      }
    }
  }

  /** The loop of `evaluate_query`: one pass over the records, adding the pairs above the threshold to the two sets. */
  method CollectHits(score: Scorer, myQuery: Vec, records: seq<Record>, threshold: real)
    returns (retrieved: set<Hit>, relevant: set<Hit>)
    ensures retrieved == Retrieved(score, myQuery, threshold, records)
    ensures relevant == Relevant(score, myQuery, threshold, records)
  {
    retrieved, relevant := {}, {};
    for i := 0 to |records|
      invariant retrieved == Retrieved(score, myQuery, threshold, records[..i])
      invariant relevant == Relevant(score, myQuery, threshold, records[..i])
    {
      var rec := records[i];
      var pred := score(myQuery, rec.doc);
      if pred > threshold {
        var hit := Scored(rec.id, pred);
        retrieved := retrieved + {hit};
        if rec.query == myQuery && rec.relevance == 1 {
          relevant := relevant + {hit};
        }
      }
      assert records[..i + 1][..i] == records[..i];
    }
    assert records[..|records|] == records;
  }

  /**
   * What `evaluate_query` reports for the query vector myQuery: the query
   * index and k (non-zero) echoed, the relevant set (inside the retrieved set), a
   * best-first selection of `records[:k]`-slice length from the retrieved
   * set, and precision as (#relevant in it) / k, within [0, 1] when k > 0.
   */
  ghost predicate IsReport(score: Scorer, myQuery: Vec, records: seq<Record>, queryIndex: int, k: int, threshold: real,
                           report: Report)
  {
    var retrieved := Retrieved(score, myQuery, threshold, records);
    && report.queryIndex == queryIndex
    && report.retrievedDocuments == k
    && k != 0
    && report.relevantDocids == Relevant(score, myQuery, threshold, records)
    && report.relevantDocids <= retrieved
    && |report.topKRetrievedDocids| == PrefixStop(k, |retrieved|)
    && IsTopPrefix(retrieved, report.topKRetrievedDocids)
    && report.precisionAtK == CountRelevant(report.topKRetrievedDocids, report.relevantDocids) as real / k as real
    && (k > 0 ==> 0.0 <= report.precisionAtK <= 1.0)
  }

  /**
   * `evaluate_query(model, records, query_index, k, threshold)`.
   * Errors: an index outside the list raises IndexError (before anything
   * else); k == 0 raises ZeroDivisionError at the final division.
   */
  method EvaluateQuery(score: Scorer, records: seq<Record>, queryIndex: int, k: int, threshold: real)
    returns (res: Result<Report>)
    ensures ResolveIndex(|records|, queryIndex).None? ==> res == Err(IndexError)
    ensures ResolveIndex(|records|, queryIndex).Some? && k == 0 ==> res == Err(ZeroDivisionError)
    ensures ResolveIndex(|records|, queryIndex).Some? && k != 0 ==> res.Ok?
    ensures res.Ok? ==> ResolveIndex(|records|, queryIndex).Some?
    ensures res.Ok? ==>
      IsReport(score, records[ResolveIndex(|records|, queryIndex).value].query, records, queryIndex, k, threshold, res.value)
  {
    var resolved := ResolveIndex(|records|, queryIndex);
    if resolved.None? {
      return Err(IndexError);
    }
    var myQuery := records[resolved.value].query;

    var retrieved, relevant := CollectHits(score, myQuery, records, threshold);
    var ranked := SortByScore(retrieved);
    var top := ranked[..PrefixStop(k, |ranked|)];
    PrefixOfRankingIsTop(ranked, retrieved, |top|);
    if k == 0 {
      return Err(ZeroDivisionError);
    }
    var rel := CountRelevant(top, relevant);
    if k > 0 {
      FractionInUnit(rel as real, k as real);
    }
    res := Ok(Report(queryIndex, k, rel as real / k as real, relevant, top));
  }
}
