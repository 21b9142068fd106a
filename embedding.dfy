/**
 * Mean pooling of word vectors (`document_embedding` in src/utils/utils.py).
 *
 * The word-vector model is a vocabulary, a map from word to vector, all of
 * the model's vector size. Tokens outside the vocabulary are dropped; the
 * document vector is the coordinate-wise mean of the remaining tokens'
 * vectors (one per occurrence), or the zero vector when none remain.
 */
module Embedding {
  import opened Stats

  type Vec = seq<real>
  type Vocabulary = map<string, Vec>

  /** Every vector of the vocabulary has the model's vector size. */
  predicate Uniform(vocab: Vocabulary, vectorSize: nat)
  {
    forall w :: w in vocab ==> |vocab[w]| == vectorSize
  }

  /** `[wv[word] for word in doc_tokens if word in wv]`. */
  function KnownVectors(tokens: seq<string>, vocab: Vocabulary): (vs: seq<Vec>)
    ensures |vs| <= |tokens|
    ensures forall j :: 0 <= j < |vs| ==> vs[j] in vocab.Values
  {
    if tokens == [] then []
    else if tokens[0] in vocab then [vocab[tokens[0]]] + KnownVectors(tokens[1..], vocab)
    else KnownVectors(tokens[1..], vocab)
  }

  /** Coordinate i of each vector. */
  function Column(vs: seq<Vec>, i: nat): seq<real>
    requires forall j :: 0 <= j < |vs| ==> i < |vs[j]|
  {
    seq(|vs|, j requires 0 <= j < |vs| => vs[j][i])
  }

  /** `document_embedding(doc_tokens, word2vec_model)`. */
  function DocumentEmbedding(tokens: seq<string>, vocab: Vocabulary, vectorSize: nat): (v: Vec)
    requires Uniform(vocab, vectorSize)
    ensures |v| == vectorSize
  {
    var embeddings := KnownVectors(tokens, vocab);
    if embeddings == [] then seq(vectorSize, _ => 0.0)
    else seq(vectorSize, i requires 0 <= i < vectorSize => Mean(Column(embeddings, i)))
  }

  /** The number of in-vocabulary token occurrences. */
  function KnownCount(tokens: seq<string>, vocab: Vocabulary): nat
  {
    if tokens == [] then 0
    else (if tokens[0] in vocab then 1 else 0) + KnownCount(tokens[1..], vocab)
  }

  /** Coordinate i summed over the in-vocabulary token occurrences. */
  function TokenSum(tokens: seq<string>, vocab: Vocabulary, vectorSize: nat, i: nat): real
    requires Uniform(vocab, vectorSize) && i < vectorSize
  {
    if tokens == [] then 0.0
    else (if tokens[0] in vocab then vocab[tokens[0]][i] else 0.0) + TokenSum(tokens[1..], vocab, vectorSize, i)
  }

  lemma {:induction false} KnownVectorsSum(tokens: seq<string>, vocab: Vocabulary, vectorSize: nat, i: nat)
    requires Uniform(vocab, vectorSize) && i < vectorSize
    ensures |KnownVectors(tokens, vocab)| == KnownCount(tokens, vocab)
    ensures forall j :: 0 <= j < |KnownVectors(tokens, vocab)| ==> i < |KnownVectors(tokens, vocab)[j]|
    ensures Sum(Column(KnownVectors(tokens, vocab), i)) == TokenSum(tokens, vocab, vectorSize, i)
  {
    var vs := KnownVectors(tokens, vocab);
    forall j | 0 <= j < |vs| ensures i < |vs[j]| {
      assert vs[j] in vocab.Values;
    }
    if tokens != [] {
      KnownVectorsSum(tokens[1..], vocab, vectorSize, i);
      if tokens[0] in vocab {
        var rest := KnownVectors(tokens[1..], vocab);
        assert Column(vs, i) == [vocab[tokens[0]][i]] + Column(rest, i);
      }
    }
  }

  /** With no in-vocabulary token the embedding is the zero vector of the model's size. */
  lemma {:induction false} NoKnownTokenGivesZeros(tokens: seq<string>, vocab: Vocabulary, vectorSize: nat)
    requires Uniform(vocab, vectorSize)
    requires forall j :: 0 <= j < |tokens| ==> tokens[j] !in vocab
    ensures DocumentEmbedding(tokens, vocab, vectorSize) == seq(vectorSize, _ => 0.0)
  {
    if tokens != [] {
      NoKnownTokenGivesZeros(tokens[1..], vocab, vectorSize);
    }
  }

  /**
   * Otherwise each coordinate is the arithmetic mean over the in-vocabulary
   * token occurrences: out-of-vocabulary tokens do not count, and a token
   * that occurs twice counts twice.
   */
  lemma EmbeddingIsTokenMean(tokens: seq<string>, vocab: Vocabulary, vectorSize: nat)
    requires Uniform(vocab, vectorSize)
    requires KnownCount(tokens, vocab) > 0
    ensures forall i :: 0 <= i < vectorSize ==>
      DocumentEmbedding(tokens, vocab, vectorSize)[i] == TokenSum(tokens, vocab, vectorSize, i) / KnownCount(tokens, vocab) as real
  {
    forall i | 0 <= i < vectorSize
      ensures DocumentEmbedding(tokens, vocab, vectorSize)[i] == TokenSum(tokens, vocab, vectorSize, i) / KnownCount(tokens, vocab) as real
    {
      KnownVectorsSum(tokens, vocab, vectorSize, i);
    }
  }

  /** The in-vocabulary tokens, in order. */
  function InVocabulary(tokens: seq<string>, vocab: Vocabulary): seq<string>
  {
    if tokens == [] then []
    else (if tokens[0] in vocab then [tokens[0]] else []) + InVocabulary(tokens[1..], vocab)
  }

  /** Dropping the out-of-vocabulary tokens beforehand does not change the embedding. */
  lemma {:induction false} OutOfVocabularyIgnored(tokens: seq<string>, vocab: Vocabulary, vectorSize: nat)
    requires Uniform(vocab, vectorSize)
    ensures DocumentEmbedding(InVocabulary(tokens, vocab), vocab, vectorSize) == DocumentEmbedding(tokens, vocab, vectorSize)
  {
    SameKnownVectors(tokens, vocab);
  }

  lemma {:induction false} SameKnownVectors(tokens: seq<string>, vocab: Vocabulary)
    ensures KnownVectors(InVocabulary(tokens, vocab), vocab) == KnownVectors(tokens, vocab)
  {
    if tokens != [] {
      SameKnownVectors(tokens[1..], vocab);
      var rest := InVocabulary(tokens[1..], vocab);
      if tokens[0] in vocab {
        assert InVocabulary(tokens, vocab) == [tokens[0]] + rest;
        assert ([tokens[0]] + rest)[1..] == rest;
      } else {
        assert InVocabulary(tokens, vocab) == rest;
      }
    }
  }

  /** A document made of one in-vocabulary word, repeated any number of times, embeds as that word's vector. */
  lemma RepeatedWord(w: string, n: nat, vocab: Vocabulary, vectorSize: nat)
    requires Uniform(vocab, vectorSize) && w in vocab && n > 0
    ensures DocumentEmbedding(seq(n, _ => w), vocab, vectorSize) == vocab[w]
  {
    var tokens := seq(n, _ => w);
    KnownVectorsOfCopies(w, n, vocab);
    var vs := KnownVectors(tokens, vocab);
    forall i | 0 <= i < vectorSize
      ensures DocumentEmbedding(tokens, vocab, vectorSize)[i] == vocab[w][i]
    {
      MeanOfCopies(Column(vs, i), vocab[w][i]);
    }
  }

  lemma {:induction false} KnownVectorsOfCopies(w: string, n: nat, vocab: Vocabulary)
    requires w in vocab
    ensures KnownVectors(seq(n, _ => w), vocab) == seq(n, _ => vocab[w])
  {
    if n > 0 {
      KnownVectorsOfCopies(w, n - 1, vocab);
      assert seq(n, _ => w)[1..] == seq(n - 1, _ => w);
      assert seq(n, _ => vocab[w]) == [vocab[w]] + seq(n - 1, _ => vocab[w]);
    }
  }
}
