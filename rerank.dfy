/**
 * The candidate reranker of the retrieval pipeline (`RerankService`).
 *
 * Every retrieved document gets four sub-scores (similarity from its vector
 * distance, a length band, keyword overlap with the query, a boost from its
 * chunk metadata), which are combined with fixed weights; the documents are
 * then sorted by that combined score, highest first, with Python's stable
 * sort, and the first `top_k` are returned as three aligned lists.
 * Scores are real numbers: float rounding is not modelled.
 */
module Rerank {
  import opened Wrappers
  import opened Text

  // ---------------------------------------------------------------------
  // Metadata
  // ---------------------------------------------------------------------

  /** A metadata value as the vector store returns it: a number or a text. */
  datatype MetaValue = Num(n: int) | Str(s: string)

  /** A document's metadata dictionary. */
  type Metadata = map<string, MetaValue>

  const ChunkIndexKey: string := "chunk_index"
  const TotalChunksKey: string := "total_chunks"

  /**
   * The two keys the metadata score compares with numbers hold numbers
   * (Python raises a TypeError when comparing a text with an int).
   */
  predicate NumericBoostKeys(m: Metadata) {
    && (ChunkIndexKey in m ==> m[ChunkIndexKey].Num?)
    && (TotalChunksKey in m ==> m[TotalChunksKey].Num?)
  }

  // ---------------------------------------------------------------------
  // Weights and bands
  // ---------------------------------------------------------------------

  const SimilarityWeight: real := 0.4
  const KeywordWeight: real := 0.3
  const LengthWeight: real := 0.2
  const MetadataWeight: real := 0.1

  const OptimalMin: nat := 200
  const OptimalMax: nat := 1500
  const LongFloor: real := 0.7

  /** The score given when a signal carries no information. */
  const Neutral: real := 0.5

  function MinReal(a: real, b: real): (m: real) { if a <= b then a else b }
  function MaxReal(a: real, b: real): (m: real) { if a >= b then a else b }

  // ---------------------------------------------------------------------
  // Similarity from distance
  // ---------------------------------------------------------------------

  /**
   * `_distance_to_score`: `max(0, 1 - distance / 2)`.  Never negative, at
   * most 1 for a non-negative distance, and zero exactly from distance 2 on.
   */
  function DistanceToScore(distance: real): (r: real) {
    MaxReal(0.0, 1.0 - distance / 2.0)
  }

  lemma DistanceToScoreRange(distance: real)
    ensures var r := DistanceToScore(distance);
      && 0.0 <= r
      && (0.0 <= distance ==> r <= 1.0)
      && (r == 0.0 <==> 2.0 <= distance)
      && (distance <= 0.0 ==> 1.0 <= r)
  {
  }

  /** A larger distance never gives a higher similarity. */
  lemma DistanceToScoreAntitone(d1: real, d2: real)
    requires d1 <= d2
    ensures DistanceToScore(d2) <= DistanceToScore(d1)
  {
  }

  // ---------------------------------------------------------------------
  // Length band
  // ---------------------------------------------------------------------

  /**
   * `_length_score` with its default band [200, 1500]: proportional below
   * the band, 1 inside it, and `max(0.7, 1500 / length)` above it.
   */
  function LengthScore(document: string): (r: real) {
    var length := |document|;
    if length < OptimalMin then
      length as real / OptimalMin as real
    else if length > OptimalMax then
      MaxReal(LongFloor, OptimalMax as real / length as real)
    else
      1.0
  }

  /**
   * The length score lies in [0, 1], is 1 exactly inside the band, at least
   * 0.7 above it and proportional to the length below it.
   */
  lemma LengthScoreRange(document: string)
    ensures var r := LengthScore(document);
      && 0.0 <= r <= 1.0
      && (r == 1.0 <==> OptimalMin <= |document| <= OptimalMax)
      && (|document| > OptimalMax ==> LongFloor <= r)
      && (|document| < OptimalMin ==> r * OptimalMin as real == |document| as real)
  {
    if |document| > OptimalMax {
      LongBelowOne(|document|);
    }
  }

  lemma LongBelowOne(length: nat)
    requires length > OptimalMax
    ensures OptimalMax as real / length as real < 1.0
  {
    var q := OptimalMax as real / length as real;
    assert (1.0 - q) * length as real == length as real - OptimalMax as real;
  }

  /** Below the band a longer document never scores lower. */
  lemma LengthScoreGrowsBelowBand(d1: string, d2: string)
    requires |d1| <= |d2| <= OptimalMin
    ensures LengthScore(d1) <= LengthScore(d2)
  {
  }

  /** Above the band a longer document never scores higher, down to the floor of 0.7. */
  lemma {:induction false} LengthScoreShrinksAboveBand(d1: string, d2: string)
    requires OptimalMax <= |d1| <= |d2|
    ensures LengthScore(d2) <= LengthScore(d1)
  {
    if |d1| > OptimalMax {
      var q1 := OptimalMax as real / |d1| as real;
      var q2 := OptimalMax as real / |d2| as real;
      assert q1 * |d1| as real == q2 * |d2| as real;
      assert q2 * |d2| as real >= q2 * |d1| as real;
      assert (q1 - q2) * |d1| as real >= 0.0;
    } else {
      assert LengthScore(d1) == 1.0;
    }
  }

  // ---------------------------------------------------------------------
  // Tokens and keyword overlap
  // ---------------------------------------------------------------------

  /** The length of the run of word characters that `s` starts with. */
  function RunLength(s: string): (n: nat)
    ensures n <= |s|
    ensures AllWordChars(s[..n])
    ensures n < |s| ==> !IsWordChar(s[n])
  {
    if s != [] && IsWordChar(s[0]) then
      var n := 1 + RunLength(s[1..]);
      assert s[..n] == [s[0]] + s[1..][..n - 1];
      n
    else
      0
  }

  /**
   * What `re.findall(r'\b\w+\b', s)` returns: the maximal runs of word
   * characters, left to right.
   */
  function WordRuns(s: string): (runs: seq<string>)
    decreases |s|
  {
    if s == [] then []
    else if !IsWordChar(s[0]) then WordRuns(s[1..])
    else
      var n := RunLength(s);
      [s[..n]] + WordRuns(s[n..])
  }

  /** Every run is a non-empty string of word characters. */
  lemma {:induction false} WordRunsAreWords(s: string)
    ensures forall k :: 0 <= k < |WordRuns(s)| ==> WordRuns(s)[k] != [] && AllWordChars(WordRuns(s)[k])
    decreases |s|
  {
    if s != [] {
      if !IsWordChar(s[0]) {
        WordRunsAreWords(s[1..]);
      } else {
        WordRunsAreWords(s[RunLength(s)..]);
      }
    }
  }

  /** A non-empty run of word characters is one word. */
  lemma {:induction false} WordRunsOfWord(w: string)
    requires w != [] && AllWordChars(w)
    ensures WordRuns(w) == [w]
  {
    RunLengthOfWord(w);
    assert w[..|w|] == w;
  }

  lemma {:induction false} RunLengthOfWord(w: string)
    requires AllWordChars(w)
    ensures RunLength(w) == |w|
    decreases |w|
  {
    if w != [] {
      assert AllWordChars(w[1..]);
      RunLengthOfWord(w[1..]);
    }
  }

  /** A run cannot cross a non-word character. */
  lemma {:induction false} RunLengthStopsAt(a: string, c: char, b: string)
    requires !IsWordChar(c)
    ensures RunLength(a + [c] + b) == RunLength(a + [c])
    ensures RunLength(a + [c]) <= |a|
    ensures RunLength(a + [c]) == |a| || RunLength(a + [c]) == RunLength(a)
    decreases |a|
  {
    if a != [] && IsWordChar(a[0]) {
      assert (a + [c] + b)[1..] == a[1..] + [c] + b;
      assert (a + [c])[1..] == a[1..] + [c];
      RunLengthStopsAt(a[1..], c, b);
    } else if a == [] {
    } else {
      assert (a + [c] + b)[0] == a[0];
    }
  }

  /**
   * Splitting the text at a non-word character splits the runs: the
   * tokenizer treats every such character as a separator and nothing else.
   */
  lemma {:induction false} WordRunsSplit(a: string, c: char, b: string)
    requires !IsWordChar(c)
    ensures WordRuns(a + [c] + b) == WordRuns(a) + WordRuns(b)
    decreases |a|, 1
  {
    var s := a + [c] + b;
    if a == [] {
      assert s == [c] + b;
      assert s[1..] == b;
    } else if !IsWordChar(a[0]) {
      assert s[1..] == a[1..] + [c] + b;
      WordRunsSplit(a[1..], c, b);
    } else {
      RunLengthStopsAt(a, c, b);
      if RunLength(s) == |a| {
        WordRunsSplitWholeWord(a, c, b);
      } else {
        WordRunsSplitFirstRun(a, c, b);
      }
    }
  }

  /** The case of `WordRunsSplit` where the first run of `a` ends inside `a`. */
  lemma {:induction false} WordRunsSplitFirstRun(a: string, c: char, b: string)
    requires !IsWordChar(c) && a != [] && IsWordChar(a[0])
    requires RunLength(a + [c] + b) == RunLength(a) < |a|
    ensures WordRuns(a + [c] + b) == WordRuns(a) + WordRuns(b)
    decreases |a|, 0
  {
    var s := a + [c] + b;
    var n := RunLength(a);
    assert s[0] == a[0];
    assert s[..n] == a[..n];
    assert s[n..] == a[n..] + [c] + b;
    WordRunsSplit(a[n..], c, b);
  }

  /** The case of `WordRunsSplit` where all of `a` is one run. */
  lemma WordRunsSplitWholeWord(a: string, c: char, b: string)
    requires !IsWordChar(c) && a != [] && IsWordChar(a[0])
    requires RunLength(a + [c] + b) == |a|
    ensures WordRuns(a + [c] + b) == WordRuns(a) + WordRuns(b)
  {
    var s := a + [c] + b;
    var n := |a|;
    assert s[0] == a[0];
    assert s[..n] == a;
    assert s[n..] == [c] + b;
    assert ([c] + b)[1..] == b;
    assert WordRuns(s) == [a] + WordRuns(b);
    assert AllWordChars(a);
    WordRunsOfWord(a);
  }

  /** `[t for t in tokens if len(t) > 2]`. */
  function LongTokens(tokens: seq<string>): (r: seq<string>)
  {
    if tokens == [] then []
    else if |tokens[0]| > 2 then [tokens[0]] + LongTokens(tokens[1..])
    else LongTokens(tokens[1..])
  }

  /** The filter keeps exactly the tokens longer than two characters. */
  lemma {:induction false} LongTokensMembers(tokens: seq<string>)
    ensures forall t :: t in LongTokens(tokens) <==> t in tokens && |t| > 2
  {
    if tokens != [] {
      LongTokensMembers(tokens[1..]);
      assert tokens == [tokens[0]] + tokens[1..];
    }
  }

  /** `_tokenize`: the word runs of more than two characters, in order. */
  function Tokenize(text: string): (r: seq<string>)
  {
    LongTokens(WordRuns(text))
  }

  /** Every token is a run of more than two word characters of the text. */
  lemma TokensAreLongWords(text: string)
    ensures forall t :: t in Tokenize(text) ==> |t| > 2 && t != [] && AllWordChars(t)
  {
    LongTokensMembers(WordRuns(text));
    WordRunsAreWords(text);
  }

  /**
   * `t` is one of `words`. A recursive copy of sequence membership, bridged
   * to `in` by `ListedIsMembership`: with `in` on the literal stop-word list,
   * every proof that unfolds `Keywords` pays for the list's 32 comparisons.
   */
  predicate Listed(t: string, words: seq<string>) {
    words != [] && (words[0] == t || Listed(t, words[1..]))
  }

  lemma {:induction false} ListedIsMembership(t: string, words: seq<string>)
    ensures Listed(t, words) <==> t in words
  {
    if words != [] {
      ListedIsMembership(t, words[1..]);
      assert words == [words[0]] + words[1..];
    }
  }

  /** The stop words of `_keyword_overlap_score`, Spanish and English. */
  const StopWords: seq<string> := [
    "el", "la", "de", "que", "y", "a", "en", "un", "ser", "se", "no",
    "por", "con", "para", "una", "su", "es", "al", "lo", "del", "las",
    "the", "a", "an", "and", "or", "but", "in", "on", "at", "to", "for"
  ]

  /** `set(_tokenize(text.lower())) - stopwords`. */
  function Keywords(text: string): (k: set<string>)
  {
    set t | t in Tokenize(Lower(text)) && !Listed(t, StopWords)
  }

  /** A keyword is a lower-cased token of the text that is not a stop word. */
  lemma KeywordsAreTokens(text: string)
    ensures forall t :: t in Keywords(text) <==> t in Tokenize(Lower(text)) && t !in StopWords
    ensures forall t :: t in Keywords(text) ==> |t| > 2 && AllWordChars(t)
  {
    TokensAreLongWords(Lower(text));
    forall t {
      ListedIsMembership(t, StopWords);
    }
  }

  lemma {:induction false} SubsetCardinality(a: set<string>, b: set<string>)
    requires a <= b
    ensures |a| <= |b|
    ensures |a| == |b| ==> a == b
    decreases |b|
  {
    if b != {} {
      var x :| x in b;
      SubsetCardinality(a - {x}, b - {x});
      if x in a {
        assert a == (a - {x}) + {x};
        assert b == (b - {x}) + {x};
      } else {
        assert a - {x} == a;
      }
    }
  }

  /**
   * The score of a query keyword set `q` against a document keyword set `d`:
   * the share of `q` found in `d`, capped at 1, or 0.5 when `q` is empty.
   */
  function OverlapScore(q: set<string>, d: set<string>): (r: real) {
    if q == {} then Neutral else MinReal(1.0, |q * d| as real / |q| as real)
  }

  /**
   * The overlap score lies in [0, 1]; it is 0.5 for an empty query set, and
   * otherwise the share of query keywords found: 1 exactly when all are
   * found, 0 exactly when none is.
   */
  lemma OverlapScoreFacts(q: set<string>, d: set<string>)
    ensures var r := OverlapScore(q, d);
      && 0.0 <= r <= 1.0
      && (q == {} ==> r == Neutral)
      && (q != {} ==> (r == 1.0 <==> q <= d))
      && (q != {} ==> (r == 0.0 <==> q !! d))
      && (q != {} ==> r * |q| as real == |q * d| as real)
  {
    if q != {} {
      OverlapRatio(q, d);
    }
  }

  /** `_keyword_overlap_score`: `OverlapScore` of the two texts' keyword sets. */
  function KeywordOverlapScore(query: string, document: string): (r: real) {
    OverlapScore(Keywords(query), Keywords(document))
  }

  /**
   * The keyword score lies in [0, 1]; a query without keywords scores 0.5,
   * and a query with keywords scores 1 against any document that contains
   * all of them, the query itself included.
   */
  lemma KeywordOverlapScoreFacts(query: string, document: string)
    ensures 0.0 <= KeywordOverlapScore(query, document) <= 1.0
    ensures Keywords(query) == {} ==> KeywordOverlapScore(query, document) == Neutral
    ensures Keywords(query) != {} ==>
      (KeywordOverlapScore(query, document) == 1.0 <==> Keywords(query) <= Keywords(document))
    ensures Keywords(query) != {} ==> KeywordOverlapScore(query, query) == 1.0
  {
    OverlapScoreFacts(Keywords(query), Keywords(document));
    OverlapScoreFacts(Keywords(query), Keywords(query));
  }

  /** The overlap ratio of a non-empty keyword set lies in [0, 1], reaching 1 exactly on inclusion. */
  lemma OverlapRatio(q: set<string>, d: set<string>)
    requires q != {}
    ensures var ratio := |q * d| as real / |q| as real;
      && 0.0 <= ratio <= 1.0
      && ratio * |q| as real == |q * d| as real
      && (ratio == 1.0 <==> q <= d)
      && (ratio == 0.0 <==> q !! d)
  {
    SubsetCardinality(q * d, q);
    assert |q * d| == |q| <==> q <= d by {
      if q <= d { assert q * d == q; }
    }
    assert |q * d| == 0 <==> q !! d by {
      if q !! d {
        assert q * d == {};
      } else {
        var x :| x in q && x in d;
        assert x in q * d;
      }
    }
    ShareFacts(|q * d|, |q|);
  }

  lemma ShareFacts(part: nat, whole: nat)
    requires 0 < whole && part <= whole
    ensures var ratio := part as real / whole as real;
      && 0.0 <= ratio <= 1.0
      && ratio * whole as real == part as real
      && (ratio == 1.0 <==> part == whole)
      && (ratio == 0.0 <==> part == 0)
  {
    var ratio := part as real / whole as real;
    assert ratio * whole as real == part as real;
  }

  // ---------------------------------------------------------------------
  // Metadata boost
  // ---------------------------------------------------------------------

  function ChunkIndexBoost(chunkIndex: int): (boost: real) {
    if chunkIndex < 3 then 0.3 else if chunkIndex < 6 then 0.2 else 0.1
  }

  function TotalChunksBoost(totalChunks: int): (boost: real) {
    if totalChunks <= 5 then 0.2 else if totalChunks <= 10 then 0.1 else 0.0
  }

  /**
   * `_metadata_score`: 0.5 for missing or empty metadata; otherwise 0.5 plus
   * the chunk-index boost and the total-chunks boost, capped at 1.
   */
  function MetadataScore(metadata: Option<Metadata>): (r: real)
    requires metadata.Some? ==> NumericBoostKeys(metadata.value)
  {
    if metadata.None? || metadata.value == map[] then Neutral
    else
      var m := metadata.value;
      var withIndex := Neutral + (if ChunkIndexKey in m then ChunkIndexBoost(m[ChunkIndexKey].n) else 0.0);
      var withTotal := withIndex + (if TotalChunksKey in m then TotalChunksBoost(m[TotalChunksKey].n) else 0.0);
      MinReal(1.0, withTotal)
  }

  /**
   * The metadata score lies in [0.5, 1]: 0.5 without metadata or without
   * either key, above 0.5 whenever a chunk index is present, and 1 exactly
   * for one of the first three chunks of a document of at most five chunks.
   */
  lemma MetadataScoreRange(metadata: Option<Metadata>)
    requires metadata.Some? ==> NumericBoostKeys(metadata.value)
    ensures var r := MetadataScore(metadata);
      && Neutral <= r <= 1.0
      && (metadata.None? ==> r == Neutral)
      && (metadata.Some? && ChunkIndexKey !in metadata.value && TotalChunksKey !in metadata.value ==> r == Neutral)
      && (metadata.Some? && ChunkIndexKey in metadata.value ==> Neutral < r)
      && (r == 1.0 <==>
            && metadata.Some?
            && ChunkIndexKey in metadata.value && TotalChunksKey in metadata.value
            && metadata.value[ChunkIndexKey].n < 3 && metadata.value[TotalChunksKey].n <= 5)
  {
  }

  /** An earlier chunk of the same document never gets a smaller boost. */
  lemma MetadataScoreFavoursEarlyChunks(m: Metadata, i: int, j: int)
    requires NumericBoostKeys(m) && i <= j
    ensures MetadataScore(Some(m[ChunkIndexKey := Num(j)])) <= MetadataScore(Some(m[ChunkIndexKey := Num(i)]))
  {
  }

  // ---------------------------------------------------------------------
  // Combined score of one document
  // ---------------------------------------------------------------------

  /** One entry of `scored_docs`, with `pos` the document's index in the input. */
  datatype ScoredDoc = ScoredDoc(
    document: string,
    score: real,
    distance: real,
    metadata: Metadata,
    similarityScore: real,
    keywordScore: real,
    lengthScore: real,
    metadataScore: real,
    pos: nat)

  function CombinedScore(similarity: real, keyword: real, length: real, meta: real): (r: real) {
    similarity * SimilarityWeight + keyword * KeywordWeight + length * LengthWeight + meta * MetadataWeight
  }

  /** The score record of the document at index `pos`: its four sub-scores and their weighted sum. */
  function ScoreDocument(query: string, document: string, distance: real, metadata: Option<Metadata>, pos: nat): (d: ScoredDoc)
    requires metadata.Some? ==> NumericBoostKeys(metadata.value)
  {
    var similarity := DistanceToScore(distance);
    var length := LengthScore(document);
    var keyword := KeywordOverlapScore(query, document);
    var meta := MetadataScore(metadata);
    ScoredDoc(document, CombinedScore(similarity, keyword, length, meta), distance,
              if metadata.Some? then metadata.value else map[],
              similarity, keyword, length, meta, pos)
  }

  /**
   * Every sub-score lies in [0, 1] (similarity may exceed 1 only for a
   * negative distance), the metadata score in [0.5, 1], and since the weights
   * sum to 1 the combined score of a document at a non-negative distance lies
   * in [0.05, 1].
   */
  lemma ScoreDocumentBounds(query: string, document: string, distance: real, metadata: Option<Metadata>, pos: nat)
    requires metadata.Some? ==> NumericBoostKeys(metadata.value)
    ensures var d := ScoreDocument(query, document, distance, metadata, pos);
      && 0.0 <= d.similarityScore && 0.0 <= d.keywordScore <= 1.0 && 0.0 <= d.lengthScore <= 1.0
      && Neutral <= d.metadataScore <= 1.0
      && (0.0 <= distance ==> 0.05 <= d.score <= 1.0)
  {
    DistanceToScoreRange(distance);
    LengthScoreRange(document);
    KeywordOverlapScoreFacts(query, document);
    MetadataScoreRange(metadata);
  }

  /** Two documents that differ only in distance: the closer one never scores lower. */
  lemma CloserNeverScoresLower(query: string, document: string, d1: real, d2: real, metadata: Option<Metadata>, pos: nat)
    requires metadata.Some? ==> NumericBoostKeys(metadata.value)
    requires d1 <= d2
    ensures ScoreDocument(query, document, d2, metadata, pos).score <= ScoreDocument(query, document, d1, metadata, pos).score
  {
    DistanceToScoreAntitone(d1, d2);
  }

  // ---------------------------------------------------------------------
  // Inputs: aligned lists
  // ---------------------------------------------------------------------

  function MinNat(a: nat, b: nat): (m: nat) { if a <= b then a else b }

  /** `metadatas[i] if metadatas and i < len(metadatas) else None`. */
  function MetadataAt(metadatas: Option<seq<Metadata>>, i: nat): (m: Option<Metadata>) {
    if metadatas.Some? && i < |metadatas.value| then Some(metadatas.value[i]) else None
  }

  /** Every metadata entry the reranker reads has numbers under the boost keys. */
  predicate UsableMetadatas(documents: seq<string>, distances: seq<real>, metadatas: Option<seq<Metadata>>) {
    metadatas.Some? ==>
      forall i :: 0 <= i < |metadatas.value| && i < |documents| && i < |distances| ==> NumericBoostKeys(metadatas.value[i])
  }

  /** The record the scoring loop builds for index `i`. */
  function ScoreAt(query: string, documents: seq<string>, distances: seq<real>, metadatas: Option<seq<Metadata>>, i: nat): (d: ScoredDoc)
    requires UsableMetadatas(documents, distances, metadatas)
    requires i < |documents| && i < |distances|
  {
    ScoreDocument(query, documents[i], distances[i], MetadataAt(metadatas, i), i)
  }

  /** The records `score(0)`, ..., `score(i - 1)`, in that order. */
  function Records(score: nat --> ScoredDoc, i: nat): (r: seq<ScoredDoc>)
    requires forall k: nat :: k < i ==> score.requires(k)
    ensures |r| == i
  {
    if i == 0 then [] else Records(score, i - 1) + [score(i - 1)]
  }

  lemma {:induction false} RecordsEntries(score: nat --> ScoredDoc, i: nat)
    requires forall k: nat :: k < i ==> score.requires(k)
    ensures forall k: nat :: k < i ==> Records(score, i)[k] == score(k)
  {
    if i > 0 {
      RecordsEntries(score, i - 1);
    }
  }

  /** The body of the scoring loop, as a function of the loop index. */
  function Scorer(query: string, documents: seq<string>, distances: seq<real>, metadatas: Option<seq<Metadata>>): (score: nat --> ScoredDoc)
    requires UsableMetadatas(documents, distances, metadatas)
  {
    (k: nat) requires k < |documents| && k < |distances| => ScoreAt(query, documents, distances, metadatas, k)
  }

  /** One more turn of the scoring loop appends the record of the next input. */
  lemma ScorerStep(query: string, documents: seq<string>, distances: seq<real>, metadatas: Option<seq<Metadata>>, i: nat)
    requires UsableMetadatas(documents, distances, metadatas)
    requires i < |documents| && i < |distances|
    ensures Records(Scorer(query, documents, distances, metadatas), i + 1)
      == Records(Scorer(query, documents, distances, metadatas), i) + [ScoreAt(query, documents, distances, metadatas, i)]
  {
  }

  /** The records built by the scoring loop, in input order (`zip` stops at the shorter list). */
  function ScoreAll(query: string, documents: seq<string>, distances: seq<real>, metadatas: Option<seq<Metadata>>): (r: seq<ScoredDoc>)
    requires UsableMetadatas(documents, distances, metadatas)
  {
    Records(Scorer(query, documents, distances, metadatas), MinNat(|documents|, |distances|))
  }

  /** Entry `k` of the scored list is the record of input `k`, and carries position `k`. */
  lemma ScoreAllEntries(query: string, documents: seq<string>, distances: seq<real>, metadatas: Option<seq<Metadata>>)
    requires UsableMetadatas(documents, distances, metadatas)
    ensures var all := ScoreAll(query, documents, distances, metadatas);
      && |all| == MinNat(|documents|, |distances|)
      && forall k :: 0 <= k < |all| ==> all[k] == ScoreAt(query, documents, distances, metadatas, k) && all[k].pos == k
  {
    RecordsEntries(Scorer(query, documents, distances, metadatas), MinNat(|documents|, |distances|));
  }

  // ---------------------------------------------------------------------
  // Stable descending sort
  // ---------------------------------------------------------------------

  /**
   * `x` comes before `y` in `sort(key=score, reverse=True)`: a higher score,
   * or an equal score and an earlier input position (the sort is stable).
   */
  predicate Before(x: ScoredDoc, y: ScoredDoc) {
    x.score > y.score || (x.score == y.score && x.pos < y.pos)
  }

  predicate RankedOrder(s: seq<ScoredDoc>) {
    forall i, j :: 0 <= i < j < |s| ==> Before(s[i], s[j])
  }

  predicate DistinctPositions(s: seq<ScoredDoc>) {
    forall i, j :: 0 <= i < j < |s| ==> s[i].pos != s[j].pos
  }

  /** Puts `x` in front of the first entry it comes before. */
  function Insert(x: ScoredDoc, s: seq<ScoredDoc>): (r: seq<ScoredDoc>)
    ensures multiset(r) == multiset(s) + multiset{x}
    ensures |r| == |s| + 1
  {
    if s == [] || Before(x, s[0]) then [x] + s
    else
      assert s == [s[0]] + s[1..];
      [s[0]] + Insert(x, s[1..])
  }

  lemma {:induction false} InsertKeepsOrder(x: ScoredDoc, s: seq<ScoredDoc>)
    requires RankedOrder(s) && DistinctPositions(s)
    requires forall k :: 0 <= k < |s| ==> s[k].pos != x.pos
    ensures RankedOrder(Insert(x, s)) && DistinctPositions(Insert(x, s))
    decreases |s|
  {
    if s != [] && !Before(x, s[0]) {
      var rest := Insert(x, s[1..]);
      InsertKeepsOrder(x, s[1..]);
      assert Before(s[0], x);
      forall k | 0 <= k < |rest| ensures Before(s[0], rest[k]) && s[0].pos != rest[k].pos {
        assert rest[k] in multiset(rest);
        if rest[k] != x {
          assert rest[k] in multiset(s[1..]);
          var j :| 0 <= j < |s[1..]| && s[1..][j] == rest[k];
          assert s[j + 1] == rest[k];
        }
      }
    }
  }

  /** What `scored_docs.sort(key=lambda x: x['score'], reverse=True)` leaves in the list. */
  function SortByScore(s: seq<ScoredDoc>): (r: seq<ScoredDoc>)
    ensures multiset(r) == multiset(s)
    ensures |r| == |s|
  {
    if s == [] then []
    else
      assert s == [s[0]] + s[1..];
      Insert(s[0], SortByScore(s[1..]))
  }

  lemma {:induction false} SortByScoreOrders(s: seq<ScoredDoc>)
    requires DistinctPositions(s)
    ensures RankedOrder(SortByScore(s)) && DistinctPositions(SortByScore(s))
  {
    if s != [] {
      var tail := SortByScore(s[1..]);
      SortByScoreOrders(s[1..]);
      forall k | 0 <= k < |tail| ensures tail[k].pos != s[0].pos {
        assert tail[k] in multiset(s[1..]);
        var j :| 0 <= j < |s[1..]| && s[1..][j] == tail[k];
        assert s[j + 1] == tail[k];
      }
      InsertKeepsOrder(s[0], tail);
    }
  }

  /**
   * Sorting records numbered by their input position gives each input record
   * exactly once, scores never increasing along the result and equal scores
   * in input order.
   */
  lemma {:induction false} SortIsStablePermutation(all: seq<ScoredDoc>)
    requires forall i :: 0 <= i < |all| ==> all[i].pos == i
    ensures var r := SortByScore(all);
      && |r| == |all|
      && (forall k :: 0 <= k < |r| ==> r[k].pos < |all| && r[k] == all[r[k].pos])
      && (forall i, j :: 0 <= i < j < |r| ==> r[i].pos != r[j].pos)
      && (forall i, j :: 0 <= i < j < |r| ==> r[i].score >= r[j].score)
      && (forall i, j :: 0 <= i < j < |r| && r[i].score == r[j].score ==> r[i].pos < r[j].pos)
  {
    SortByScoreOrders(all);
    SortKeepsRecords(all);
  }

  /** Every sorted record is the input record at its own position. */
  lemma SortKeepsRecords(all: seq<ScoredDoc>)
    requires forall i :: 0 <= i < |all| ==> all[i].pos == i
    ensures var r := SortByScore(all);
      forall k :: 0 <= k < |r| ==> r[k].pos < |all| && r[k] == all[r[k].pos]
  {
    var r := SortByScore(all);
    forall k | 0 <= k < |r| ensures r[k].pos < |all| && r[k] == all[r[k].pos] {
      assert r[k] in multiset(r);
      assert r[k] in multiset(all);
      var j :| 0 <= j < |all| && all[j] == r[k];
    }
  }

  /** The sorted records of the rerank: `scored_docs` after the sort. */
  function Ranked(query: string, documents: seq<string>, distances: seq<real>, metadatas: Option<seq<Metadata>>): (r: seq<ScoredDoc>)
    requires UsableMetadatas(documents, distances, metadatas)
  {
    SortByScore(ScoreAll(query, documents, distances, metadatas))
  }

  /**
   * The ranking holds each scored (document, distance) pair once, as the
   * scoring loop built it, highest score first and ties in input order.
   */
  lemma RankedFacts(query: string, documents: seq<string>, distances: seq<real>, metadatas: Option<seq<Metadata>>)
    requires UsableMetadatas(documents, distances, metadatas)
    ensures var r := Ranked(query, documents, distances, metadatas);
      && |r| == MinNat(|documents|, |distances|)
      && (forall k :: 0 <= k < |r| ==>
            r[k].pos < |documents| && r[k].pos < |distances|
            && r[k] == ScoreAt(query, documents, distances, metadatas, r[k].pos))
      && (forall i, j :: 0 <= i < j < |r| ==> r[i].pos != r[j].pos)
      && (forall i, j :: 0 <= i < j < |r| ==> r[i].score >= r[j].score)
      && (forall i, j :: 0 <= i < j < |r| && r[i].score == r[j].score ==> r[i].pos < r[j].pos)
  {
    ScoreAllEntries(query, documents, distances, metadatas);
    SortIsStablePermutation(ScoreAll(query, documents, distances, metadatas));
  }

  // ---------------------------------------------------------------------
  // rerank_documents
  // ---------------------------------------------------------------------

  /** Python's `s[:k]`: the first k entries, or all but the last -k when k is negative. */
  function PrefixSlice<T>(s: seq<T>, k: int): (r: seq<T>)
    ensures |r| <= |s| && r == s[..|r|]
    ensures 0 <= k ==> |r| == MinNat(k, |s|)
    ensures k < 0 ==> |r| == if |s| + k < 0 then 0 else |s| + k
  {
    if 0 <= k then s[..MinNat(k, |s|)]
    else if |s| + k < 0 then []
    else s[..|s| + k]
  }

  /** The scoring loop of `rerank_documents`: one record per (document, distance) pair, in input order. */
  method ScoreDocuments(query: string, documents: seq<string>, distances: seq<real>, metadatas: Option<seq<Metadata>>)
    returns (scoredDocs: seq<ScoredDoc>)
    requires UsableMetadatas(documents, distances, metadatas)
    ensures scoredDocs == ScoreAll(query, documents, distances, metadatas)
  {
    var n := MinNat(|documents|, |distances|);
    scoredDocs := [];
    var i := 0;
    while i < n
      invariant 0 <= i <= n
      invariant scoredDocs == Records(Scorer(query, documents, distances, metadatas), i)
    {
      ScorerStep(query, documents, distances, metadatas, i);
      scoredDocs := scoredDocs + [ScoreAt(query, documents, distances, metadatas, i)];
      i := i + 1;
    }
  }

  /**
   * `rerank_documents`: scores every (document, distance) pair, sorts the
   * records by score (stable, highest first) and returns the documents,
   * scores and metadata of the first `top_k` as three aligned lists.
   */
  method RerankDocuments(
    query: string,
    documents: seq<string>,
    distances: seq<real>,
    metadatas: Option<seq<Metadata>>,
    topK: int)
    returns (rerankedDocuments: seq<string>, rerankedScores: seq<real>, rerankedMetadatas: seq<Metadata>)
    requires UsableMetadatas(documents, distances, metadatas)
    ensures documents == [] ==> rerankedDocuments == [] && rerankedScores == [] && rerankedMetadatas == []
    ensures |rerankedDocuments| == |rerankedScores| == |rerankedMetadatas| == |PrefixSlice(Ranked(query, documents, distances, metadatas), topK)|
    ensures var top := Ranked(query, documents, distances, metadatas);
      forall k :: 0 <= k < |rerankedDocuments| ==>
        && rerankedDocuments[k] == top[k].document
        && rerankedScores[k] == top[k].score
        && rerankedMetadatas[k] == top[k].metadata
  {
    if documents == [] {
      return [], [], [];
    }
    var scoredDocs := ScoreDocuments(query, documents, distances, metadatas);
    scoredDocs := SortByScore(scoredDocs);
    var topDocs := PrefixSlice(scoredDocs, topK);
    rerankedDocuments := seq(|topDocs|, k requires 0 <= k < |topDocs| => topDocs[k].document);
    rerankedScores := seq(|topDocs|, k requires 0 <= k < |topDocs| => topDocs[k].score);
    rerankedMetadatas := seq(|topDocs|, k requires 0 <= k < |topDocs| => topDocs[k].metadata);
  }

  // ---------------------------------------------------------------------
  // get_rerank_explanation
  // ---------------------------------------------------------------------

  /** One entry of the explanation list (values unrounded). */
  datatype Explanation = Explanation(
    documentPreview: string,
    documentLength: nat,
    combinedScore: real,
    similarityScore: real,
    keywordScore: real,
    lengthScore: real,
    metadataScore: real,
    originalDistance: real,
    metadata: Metadata)

  /** `doc[:100] + '...' if len(doc) > 100 else doc`. */
  function Preview(document: string): (p: string)
    ensures |p| <= 103
    ensures |document| <= 100 ==> p == document
    ensures |document| > 100 ==> |p| == 103 && p[..100] == document[..100] && p[100..] == "..."
  {
    if |document| > 100 then document[..100] + "..." else document
  }

  function Explain(d: ScoredDoc): (e: Explanation) {
    Explanation(Preview(d.document), |d.document|, d.score, d.similarityScore, d.keywordScore,
                d.lengthScore, d.metadataScore, d.distance, d.metadata)
  }

  /** The explanation of each record, in order. */
  function ExplainAll(records: seq<ScoredDoc>): (r: seq<Explanation>)
    ensures |r| == |records|
  {
    seq(|records|, i requires 0 <= i < |records| => Explain(records[i]))
  }

  lemma ExplainAllAppend(records: seq<ScoredDoc>, d: ScoredDoc)
    ensures ExplainAll(records + [d]) == ExplainAll(records) + [Explain(d)]
  {
    assert ExplainAll(records + [d])[|records|] == Explain(d);
  }

  /** One more turn of the explanation loop appends the explanation of the next record. */
  lemma ExplainStep(query: string, documents: seq<string>, distances: seq<real>, metadatas: Option<seq<Metadata>>, i: nat)
    requires UsableMetadatas(documents, distances, metadatas)
    requires i < |documents| && i < |distances|
    ensures ExplainAll(Records(Scorer(query, documents, distances, metadatas), i + 1))
      == ExplainAll(Records(Scorer(query, documents, distances, metadatas), i)) + [Explain(ScoreAt(query, documents, distances, metadatas, i))]
  {
    ScorerStep(query, documents, distances, metadatas, i);
    ExplainAllAppend(Records(Scorer(query, documents, distances, metadatas), i), ScoreAt(query, documents, distances, metadatas, i));
  }

  /**
   * `get_rerank_explanation`: the same score breakdown as the rerank, one
   * entry per (document, distance) pair, in input order.
   */
  method GetRerankExplanation(
    query: string,
    documents: seq<string>,
    distances: seq<real>,
    metadatas: Option<seq<Metadata>>)
    returns (explanations: seq<Explanation>)
    requires UsableMetadatas(documents, distances, metadatas)
    ensures explanations == ExplainAll(ScoreAll(query, documents, distances, metadatas))
  {
    var n := MinNat(|documents|, |distances|);
    explanations := [];
    var i := 0;
    while i < n
      invariant 0 <= i <= n
      invariant explanations == ExplainAll(Records(Scorer(query, documents, distances, metadatas), i))
    {
      var scored := ScoreAt(query, documents, distances, metadatas, i);
      ExplainStep(query, documents, distances, metadatas, i);
      explanations := explanations + [Explain(scored)];
      i := i + 1;
    }
  }

  /**
   * The explanation list has one entry per scored pair, carrying that pair's
   * length and distance, and the entry of every ranked record shows the
   * score the rerank sorted it by.
   */
  lemma ExplanationsMatchRanking(query: string, documents: seq<string>, distances: seq<real>, metadatas: Option<seq<Metadata>>)
    requires UsableMetadatas(documents, distances, metadatas)
    ensures var e := ExplainAll(ScoreAll(query, documents, distances, metadatas));
      && |e| == MinNat(|documents|, |distances|)
      && (forall i :: 0 <= i < |e| ==> e[i].documentLength == |documents[i]| && e[i].originalDistance == distances[i])
    ensures var e := ExplainAll(ScoreAll(query, documents, distances, metadatas));
      var r := Ranked(query, documents, distances, metadatas);
      forall k :: 0 <= k < |r| ==> r[k].pos < |e| && e[r[k].pos].combinedScore == r[k].score
  {
    var all := ScoreAll(query, documents, distances, metadatas);
    ScoreAllEntries(query, documents, distances, metadatas);
    RankedFacts(query, documents, distances, metadatas);
    var e := ExplainAll(all);
    forall i | 0 <= i < |e| ensures e[i].documentLength == |documents[i]| && e[i].originalDistance == distances[i] {
      assert e[i] == Explain(all[i]);
    }
  }
}
