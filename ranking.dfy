/**
 * Ranking items by a real score, highest first: the part of Python's
 * `sorted(..., key=score, reverse=True)` and of NumPy's `argsort` that the
 * evaluation code relies on. The order among equal scores is left open,
 * because the originals sort a set (whose iteration order is arbitrary) or
 * use an unstable sort.
 */
module Ranking {

  /** An item paired with its score, like the `(id, score)` tuples of the evaluation code. */
  datatype Scored<T> = Scored(item: T, score: real)

  /** Scores never increase along the list. */
  predicate SortedByScore<T>(r: seq<Scored<T>>)
  {
    forall i, j :: 0 <= i < j < |r| ==> r[i].score >= r[j].score
  }

  predicate Distinct<T(==)>(r: seq<T>)
  {
    forall i, j :: 0 <= i < j < |r| ==> r[i] != r[j]
  }

  function Elements<T(==)>(r: seq<T>): set<T>
  {
    set x | x in r
  }

  /**
   * `top` is a best-first selection from `pool`: distinct members of the
   * pool, scores non-increasing, and no member of the pool left out of `top`
   * scores higher than any member in it.
   */
  ghost predicate IsTopPrefix<T>(pool: set<Scored<T>>, top: seq<Scored<T>>)
  {
    && Distinct(top)
    && SortedByScore(top)
    && (forall i :: 0 <= i < |top| ==> top[i] in pool)
    && (forall p, i :: p in pool && p !in top && 0 <= i < |top| ==> p.score <= top[i].score)
  }

  /** Inserts x into a list sorted highest first, after the items that score at least as much. */
  method InsertByScore<T(==)>(r: seq<Scored<T>>, x: Scored<T>) returns (r': seq<Scored<T>>)
    requires SortedByScore(r)
    ensures SortedByScore(r')
    ensures |r'| == |r| + 1
    ensures forall y :: y in r' <==> y in r || y == x
    ensures multiset(r') == multiset(r) + multiset{x}
    ensures Distinct(r) && x !in r ==> Distinct(r')
  {
    var i := 0;
    while i < |r| && r[i].score >= x.score
      invariant 0 <= i <= |r|
      invariant forall j :: 0 <= j < i ==> r[j].score >= x.score
    {
      i := i + 1;
    }
    r' := r[..i] + [x] + r[i..];
    InsertedAt(r, x, i, r');
    InsertedMultiset(r, x, i);
  }

  /** What inserting x at position i of a sorted list gives, when i separates higher from lower scores. */
  lemma InsertedAt<T>(r: seq<Scored<T>>, x: Scored<T>, i: nat, r': seq<Scored<T>>)
    requires SortedByScore(r)
    requires i <= |r| && r' == r[..i] + [x] + r[i..]
    requires forall j :: 0 <= j < i ==> r[j].score >= x.score
    requires i < |r| ==> r[i].score < x.score
    ensures SortedByScore(r')
    ensures |r'| == |r| + 1
    ensures forall y :: y in r' <==> y in r || y == x
    ensures Distinct(r) && x !in r ==> Distinct(r')
  {
  }

  /** Inserting x anywhere into a list adds exactly one copy of x to its multiset. */
  lemma InsertedMultiset<T>(r: seq<Scored<T>>, x: Scored<T>, i: nat)
    requires i <= |r|
    ensures multiset(r[..i] + [x] + r[i..]) == multiset(r) + multiset{x}
  {
    assert r == r[..i] + r[i..];
  }

  /** Lists the members of a set, each once, highest score first. */
  method SortByScore<T(==)>(s: set<Scored<T>>) returns (r: seq<Scored<T>>)
    ensures SortedByScore(r) && Distinct(r)
    ensures |r| == |s|
    ensures forall y :: y in r <==> y in s
  {
    r := [];
    var rest := s;
    while rest != {}
      invariant rest <= s
      invariant SortedByScore(r) && Distinct(r)
      invariant forall y :: y in r <==> y in s && y !in rest
      invariant |r| + |rest| == |s|
      decreases |rest|
    {
      var x :| x in rest;
      r := InsertByScore(r, x);
      rest := rest - {x};
    }
  }

  /** The first c entries of a best-first listing of a pool form a top selection of that pool. */
  lemma PrefixOfRankingIsTop<T>(ranking: seq<Scored<T>>, pool: set<Scored<T>>, c: nat)
    requires SortedByScore(ranking) && Distinct(ranking)
    requires forall y :: y in ranking <==> y in pool
    requires c <= |ranking|
    ensures IsTopPrefix(pool, ranking[..c])
  {
  }
}
