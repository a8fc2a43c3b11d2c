/**
 * Retrieval post-processing: the nearest-neighbour answer of the flat L2
 * index (its distances and positions) is an input; what is modelled is how
 * it becomes ranked, scored copies of the stored chunks, and how those
 * become the context text given to the analyzer.
 */
module VectorStore {
  import opened Wrappers
  import opened Text
  import opened Config
  import opened DocumentProcessor

  /** An L2 distance as the index reports it: never negative. */
  type Distance = d: real | d >= 0.0

  /** A requested neighbour count. */
  type PosInt = k: int | k >= 1 witness 1

  /** One neighbour of the index answer: its distance and its position in the stored list. */
  datatype Neighbour = Neighbour(distance: Distance, index: int)

  /** A search result: a copy of the stored chunk with its score and rank added. */
  datatype Hit = Hit(chunk: Chunk, score: real, rank: nat)

  /** Indexing the stored list with a position below `-len` raises `IndexError`. */
  datatype SearchError = IndexOutOfRange

  /** The index of the store: its dimension and the vectors added to it. */
  datatype FlatIndex = FlatIndex(dimension: nat, vectors: seq<seq<real>>)

  const NO_RULES_FOUND := "No relevant compliance rules found."

  /** The neighbour count a search asks for: `top_k`, or the configured default. */
  function EffectiveK(topK: Option<PosInt>): (k: PosInt)
    ensures topK.None? ==> k == TOP_K_RETRIEVAL
    ensures topK.Some? ==> k == topK.value
  {
    match topK
    case None => TOP_K_RETRIEVAL
    case Some(k) => k
  }

  /** The similarity score of a distance, `1 / (1 + d)`. */
  function Score(d: Distance): (s: real)
    ensures 0.0 < s <= 1.0
    ensures s == 1.0 <==> d == 0.0
  {
    1.0 / (1.0 + d)
  }

  /** A larger distance always gives a strictly smaller score. */
  lemma ScoreStrictlyDecreasing(d1: Distance, d2: Distance)
    requires d1 < d2
    ensures Score(d1) > Score(d2)
  {
    var a, b := 1.0 + d1, 1.0 + d2;
    var s1, s2 := Score(d1), Score(d2);
    assert s1 * a == 1.0 && s2 * b == 1.0;
    assert s2 * a < s2 * b by {
      assert s2 * b - s2 * a == s2 * (b - a);
      assert s2 * (b - a) > 0.0;
    }
    assert (s1 - s2) * a > 0.0 by {
      assert (s1 - s2) * a == s1 * a - s2 * a;
    }
  }

  /** The score loses nothing: the distance can be read back from it. */
  lemma ScoreInverse(d: Distance)
    ensures 1.0 / Score(d) - 1.0 == d
  {
    assert Score(d) * (1.0 + d) == 1.0;
  }

  /** Python's `list[idx]` position for `-len <= idx < len`: negative positions count from the end. */
  function Wrap(idx: int, len: nat): (p: nat)
    requires -(len as int) <= idx < len
    ensures p < len
    ensures idx >= 0 ==> p == idx
    ensures idx < 0 ==> p == len + idx
  {
    if idx < 0 then len + idx else idx
  }

  /**
   * The results for a neighbour list, in its order: a neighbour whose position
   * is not below the number of stored chunks is skipped; any other one is
   * kept, with Python's reading of a negative position, its score, and its
   * rank, one more than its place in the neighbour list. A position below
   * `-len` raises, which ends the search.
   */
  function Shape(chunks: seq<Chunk>, answer: seq<Neighbour>): Result<seq<Hit>, SearchError>
  {
    if answer == [] then Ok([])
    else
      var n := |answer| - 1;
      match Shape(chunks, answer[..n])
      case Err(e) => Err(e)
      case Ok(hits) =>
        var nb := answer[n];
        if nb.index >= |chunks| then Ok(hits)
        else if nb.index < -|chunks| then Err(IndexOutOfRange)
        else Ok(hits + [Hit(chunks[Wrap(nb.index, |chunks|)], Score(nb.distance), n + 1)])
  }

  /** The neighbour passes the filter and does not raise. */
  predicate Passes(chunks: seq<Chunk>, nb: Neighbour)
  {
    -|chunks| <= nb.index < |chunks|
  }

  /** The result that the neighbour at place `i` of the answer gives, when it passes. */
  function HitFor(chunks: seq<Chunk>, answer: seq<Neighbour>, i: nat): Hit
    requires i < |answer| && Passes(chunks, answer[i])
  {
    Hit(chunks[Wrap(answer[i].index, |chunks|)], Score(answer[i].distance), i + 1)
  }

  lemma ShapeSnoc(chunks: seq<Chunk>, answer: seq<Neighbour>, nb: Neighbour)
    ensures Shape(chunks, answer + [nb]) ==
      match Shape(chunks, answer)
      case Err(e) => Err(e)
      case Ok(hits) =>
        if nb.index >= |chunks| then Ok(hits)
        else if nb.index < -|chunks| then Err(IndexOutOfRange)
        else Ok(hits + [Hit(chunks[Wrap(nb.index, |chunks|)], Score(nb.distance), |answer| + 1)])
  {
    assert (answer + [nb])[..|answer|] == answer;
  }

  /** The search raises exactly when some position is below `-len`. */
  lemma {:induction false} ShapeFailsIff(chunks: seq<Chunk>, answer: seq<Neighbour>)
    ensures Shape(chunks, answer).Err? <==> exists i :: 0 <= i < |answer| && answer[i].index < -|chunks|
  {
    if answer != [] {
      var n := |answer| - 1;
      ShapeFailsIff(chunks, answer[..n]);
      assert forall i :: 0 <= i < n ==> answer[..n][i] == answer[i];
    }
  }

  /**
   * What a successful search returns: no more results than neighbours; each
   * result is the stored chunk at its neighbour's position with that
   * neighbour's score, its rank naming the neighbour; and ranks strictly
   * increase.
   */
  lemma {:induction false} ShapeSound(chunks: seq<Chunk>, answer: seq<Neighbour>)
    requires Shape(chunks, answer).Ok?
    ensures var hits := Shape(chunks, answer).value;
      && |hits| <= |answer|
      && (forall k :: 0 <= k < |hits| ==>
            && 1 <= hits[k].rank <= |answer|
            && Passes(chunks, answer[hits[k].rank - 1])
            && hits[k] == HitFor(chunks, answer, hits[k].rank - 1))
      && (forall k, l :: 0 <= k < l < |hits| ==> hits[k].rank < hits[l].rank)
  {
    if answer != [] {
      var n := |answer| - 1;
      var prefix := answer[..n];
      assert prefix + [answer[n]] == answer;
      ShapeSnoc(chunks, prefix, answer[n]);
      ShapeSound(chunks, prefix);
      var hits0 := Shape(chunks, prefix).value;
      var hits := Shape(chunks, answer).value;
      assert forall i :: 0 <= i < n ==> prefix[i] == answer[i];
      if answer[n].index < |chunks| {
        assert hits == hits0 + [HitFor(chunks, answer, n)];
        forall k | 0 <= k < |hits|
          ensures 1 <= hits[k].rank <= |answer|
          ensures Passes(chunks, answer[hits[k].rank - 1])
          ensures hits[k] == HitFor(chunks, answer, hits[k].rank - 1)
        {
          if k < |hits0| {
            assert hits[k] == hits0[k];
          }
        }
      } else {
        assert hits == hits0;
      }
    }
  }

  /** Every neighbour that passes the filter has its result in a successful search. */
  lemma {:induction false} ShapeComplete(chunks: seq<Chunk>, answer: seq<Neighbour>)
    requires Shape(chunks, answer).Ok?
    ensures var hits := Shape(chunks, answer).value;
      forall i :: 0 <= i < |answer| && answer[i].index < |chunks| ==>
        exists k :: 0 <= k < |hits| && hits[k].rank == i + 1
  {
    if answer != [] {
      var n := |answer| - 1;
      var prefix := answer[..n];
      assert prefix + [answer[n]] == answer;
      ShapeSnoc(chunks, prefix, answer[n]);
      ShapeComplete(chunks, prefix);
      var hits0 := Shape(chunks, prefix).value;
      var hits := Shape(chunks, answer).value;
      assert forall k :: 0 <= k < |hits0| ==> hits[k] == hits0[k];
      forall i | 0 <= i < |answer| && answer[i].index < |chunks|
        ensures exists k :: 0 <= k < |hits| && hits[k].rank == i + 1
      {
        if i < n {
          assert prefix[i] == answer[i];
          var k :| 0 <= k < |hits0| && hits0[k].rank == i + 1;
          assert hits[k].rank == i + 1;
        } else {
          assert hits[|hits0|].rank == n + 1;
        }
      }
    }
  }

  /**
   * The index answers in order of increasing distance; the scores of the
   * results then never increase down the list.
   */
  lemma ScoresNonIncreasing(chunks: seq<Chunk>, answer: seq<Neighbour>)
    requires Shape(chunks, answer).Ok?
    requires forall i, j :: 0 <= i < j < |answer| ==> answer[i].distance <= answer[j].distance
    ensures var hits := Shape(chunks, answer).value;
      forall k, l :: 0 <= k < l < |hits| ==> hits[k].score >= hits[l].score
  {
    ShapeSound(chunks, answer);
    var hits := Shape(chunks, answer).value;
    forall k, l | 0 <= k < l < |hits|
      ensures hits[k].score >= hits[l].score
    {
      var i, j := hits[k].rank - 1, hits[l].rank - 1;
      assert hits[k].score == Score(answer[i].distance);
      assert hits[l].score == Score(answer[j].distance);
      if answer[i].distance < answer[j].distance {
        ScoreStrictlyDecreasing(answer[i].distance, answer[j].distance);
      }
    }
  }

  /**
   * A neighbour the index could not fill comes back at position -1, and the
   * filter lets it through: its result is the last stored chunk.
   */
  lemma MissingNeighbourReadsLastChunk(chunks: seq<Chunk>, answer: seq<Neighbour>, i: nat)
    requires |chunks| >= 1
    requires i < |answer| && answer[i].index == -1
    requires Shape(chunks, answer).Ok?
    ensures exists k ::
      (0 <= k < |Shape(chunks, answer).value| &&
       Shape(chunks, answer).value[k] == Hit(chunks[|chunks| - 1], Score(answer[i].distance), i + 1))
  {
    ShapeComplete(chunks, answer);
    ShapeSound(chunks, answer);
    var hits := Shape(chunks, answer).value;
    var k :| 0 <= k < |hits| && hits[k].rank == i + 1;
    assert hits[k] == HitFor(chunks, answer, i);
  }

  /** One numbered entry of the context text. */
  function RuleEntry(number: nat, hit: Hit): string
  {
    "[Rule " + NatToString(number) + " from " + hit.chunk.source + "]:\n" + hit.chunk.text
  }

  /** The entries of the results, numbered 1, 2, ... by position. */
  function RuleEntries(hits: seq<Hit>): (r: seq<string>)
    ensures |r| == |hits|
  {
    seq(|hits|, k requires 0 <= k < |hits| => RuleEntry(k + 1, hits[k]))
  }

  /** The context text for a list of results. */
  function FormatContext(hits: seq<Hit>): string
  {
    if hits == [] then NO_RULES_FOUND else Join(RuleEntries(hits), "\n\n")
  }

  /** The fixed message is the context text exactly when there are no results. */
  lemma FormatContextNoRulesIff(hits: seq<Hit>)
    ensures FormatContext(hits) == NO_RULES_FOUND <==> hits == []
  {
    if hits != [] {
      var parts := RuleEntries(hits);
      var text := FormatContext(hits);
      assert parts[0][0] == '[';
      if |parts| == 1 {
        assert text == parts[0];
      } else {
        assert text == parts[0] + "\n\n" + Join(parts[1..], "\n\n");
      }
      assert text[0] == '[';
      assert NO_RULES_FOUND[0] == 'N';
    }
  }

  /**
   * One more result adds one more entry after a blank line, numbered by its
   * position: the numbers run 1..n without gaps, whatever the ranks are.
   */
  lemma FormatContextSnoc(hits: seq<Hit>, hit: Hit)
    requires hits != []
    ensures FormatContext(hits + [hit]) == FormatContext(hits) + "\n\n" + RuleEntry(|hits| + 1, hit)
  {
    assert RuleEntries(hits + [hit]) == RuleEntries(hits) + [RuleEntry(|hits| + 1, hit)];
    JoinSnoc(RuleEntries(hits), RuleEntry(|hits| + 1, hit), "\n\n");
  }

  /** The context text reads only the source and text of each result, not its score or rank. */
  lemma FormatContextIgnoresScoreAndRank(hits: seq<Hit>, others: seq<Hit>)
    requires |hits| == |others|
    requires forall k :: 0 <= k < |hits| ==>
      hits[k].chunk.source == others[k].chunk.source && hits[k].chunk.text == others[k].chunk.text
    ensures FormatContext(hits) == FormatContext(others)
  {
    assert RuleEntries(hits) == RuleEntries(others);
  }

  /** All vectors have the same, given number of components. */
  predicate Rectangular(vectors: seq<seq<real>>, dimension: nat)
  {
    forall i :: 0 <= i < |vectors| ==> |vectors[i]| == dimension
  }

  /** The store: the index (absent until built), the stored chunks and their embeddings. */
  class VectorStore {
    var index: Option<FlatIndex>
    var chunks: seq<Chunk>
    var embeddings: seq<seq<real>>

    constructor ()
      ensures index == None && chunks == [] && embeddings == []
    {
      index := None;
      chunks := [];
      embeddings := [];
    }

    /**
     * Builds the index over the embeddings and stores them with the chunks.
     * Converting the embeddings to a matrix fails when there are none or they
     * are of different lengths; the store is then left as it was.
     */
    method BuildIndex(embeddings: seq<seq<real>>, chunks: seq<Chunk>) returns (ok: bool)
      modifies this
      ensures ok <==> |embeddings| >= 1 && Rectangular(embeddings, |embeddings[0]|)
      ensures ok ==>
        (index == Some(FlatIndex(|embeddings[0]|, embeddings)) && this.chunks == chunks && this.embeddings == embeddings)
      ensures !ok ==> index == old(index) && this.chunks == old(this.chunks) && this.embeddings == old(this.embeddings)
    {
      if |embeddings| == 0 {
        return false;
      }
      var dimension := |embeddings[0]|;
      var i := 0;
      while i < |embeddings|
        invariant 0 <= i <= |embeddings|
        invariant Rectangular(embeddings[..i], dimension)
      {
        if |embeddings[i]| != dimension {
          return false;
        }
        assert embeddings[..i + 1] == embeddings[..i] + [embeddings[i]];
        i := i + 1;
      }
      assert embeddings[..i] == embeddings;
      index := Some(FlatIndex(dimension, embeddings));
      this.chunks := chunks;
      this.embeddings := embeddings;
      ok := true;
    }

    /**
     * A search, given the index's answer for the query (the `top_k` nearest
     * neighbours it reports): no index gives no results; otherwise the
     * results are the shaped answer.
     */
    method Search(topK: Option<PosInt>, answer: seq<Neighbour>) returns (r: Result<seq<Hit>, SearchError>)
      requires index.Some? ==> |answer| == EffectiveK(topK)
      ensures index.None? ==> r == Ok([])
      ensures index.Some? ==> r == Shape(chunks, answer)
      ensures index.Some? && r.Ok? ==> |r.value| <= EffectiveK(topK)
    {
      if index.None? {
        return Ok([]);
      }
      var results: seq<Hit> := [];
      for i := 0 to |answer|
        invariant Shape(chunks, answer[..i]) == Ok(results)
      {
        var nb := answer[i];
        assert answer[..i + 1] == answer[..i] + [nb];
        ShapeSnoc(chunks, answer[..i], nb);
        if nb.index < |chunks| {
          if nb.index < -|chunks| {
            ShapeFailsIff(chunks, answer);
            assert answer[i].index < -|chunks|;
            assert Shape(chunks, answer).Err? && Shape(chunks, answer).error.IndexOutOfRange?;
            return Err(IndexOutOfRange);
          }
          var chunk := chunks[Wrap(nb.index, |chunks|)];
          results := results + [Hit(chunk, Score(nb.distance), i + 1)];
        }
      }
      assert answer[..|answer|] == answer;
      ShapeSound(chunks, answer);
      r := Ok(results);
    }

    /**
     * The context text for a query, given the index's answer for the default
     * neighbour count: the fixed message when nothing is found, the numbered
     * entries otherwise.
     */
    method GetContextForQuery(answer: seq<Neighbour>) returns (r: Result<string, SearchError>)
      requires index.Some? ==> |answer| == TOP_K_RETRIEVAL
      ensures index.None? ==> r == Ok(NO_RULES_FOUND)
      ensures index.Some? ==> r == match Shape(chunks, answer)
        case Err(e) => Err(e)
        case Ok(hits) => Ok(FormatContext(hits))
    {
      var results := Search(None, answer);
      if results.Err? {
        return Err(results.error);
      }
      var hits := results.value;
      if hits == [] {
        return Ok(NO_RULES_FOUND);
      }
      var parts: seq<string> := [];
      for i := 0 to |hits|
        invariant parts == RuleEntries(hits[..i])
      {
        assert RuleEntries(hits[..i + 1]) == RuleEntries(hits[..i]) + [RuleEntry(i + 1, hits[i])];
        parts := parts + ["[Rule " + NatToString(i + 1) + " from " + hits[i].chunk.source + "]:\n" + hits[i].chunk.text];
      }
      assert hits[..|hits|] == hits;
      r := Ok(Join(parts, "\n\n"));
    }
  }
}
