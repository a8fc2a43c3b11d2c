/**
 * Document chunking for the rule corpus: long sections are packed greedily
 * from their sentences into pieces of at most 800 characters, unless a
 * single sentence is longer on its own and makes a piece by itself; every
 * section with more than 50 characters of text becomes a chunk with an id
 * and its metadata. The two regular-expression splits (into sections and
 * into sentences) are inputs: `splitSections` and `splitSentences`.
 */
module DocumentProcessor {
  import opened Text

  /** Sections longer than this are split into sentences and repacked. */
  const LONG_SECTION: nat := 1000

  /** A sentence joins the current piece only while the piece stays under this length. */
  const PIECE_LIMIT: nat := 800

  /** A section becomes a chunk only with more stripped characters than this. */
  const MIN_CHUNK_TEXT: nat := 50

  datatype Document = Document(source: string, content: string)

  /** A chunk with its metadata (`source_file` and `chunk_index`). */
  datatype Chunk = Chunk(text: string, source: string, chunkId: string, sourceFile: string, chunkIndex: nat)

  /** The accumulator text of a group of sentences: each sentence followed by one space. */
  function Acc(group: seq<string>): (r: string)
    ensures r == "" <==> group == []
  {
    if group == [] then "" else Acc(group[..|group| - 1]) + group[|group| - 1] + " "
  }

  /** The groups of sentences in order, one after the other. */
  function Flatten(groups: seq<seq<string>>): seq<string>
  {
    if groups == [] then [] else Flatten(groups[..|groups| - 1]) + groups[|groups| - 1]
  }

  /** The packing loop's state: the pieces already closed, and the open one. */
  datatype PackState = PackState(done: seq<seq<string>>, current: seq<string>)

  /**
   * The packing state after the given sentences: a sentence joins the open
   * group while the accumulated length plus its own stays under the limit;
   * otherwise the open group, if any, is closed and the sentence opens a new one.
   */
  function PackPrefix(sentences: seq<string>): PackState
  {
    if sentences == [] then PackState([], [])
    else PackNext(PackPrefix(sentences[..|sentences| - 1]), sentences[|sentences| - 1])
  }

  /** One sentence taken into the packing state. */
  function PackNext(st: PackState, s: string): PackState
  {
    if |Acc(st.current)| + |s| < PIECE_LIMIT then PackState(st.done, st.current + [s])
    else PackState(if st.current != [] then st.done + [st.current] else st.done, [s])
  }

  /** All groups of a state, the open one closed if it holds anything. */
  function Closed(st: PackState): seq<seq<string>>
  {
    if st.current == [] then st.done else st.done + [st.current]
  }

  /** The groups a long section's sentences are packed into. */
  function Groups(sentences: seq<string>): seq<seq<string>>
  {
    Closed(PackPrefix(sentences))
  }

  /** The text of each group, stripped. */
  function Pieces(groups: seq<seq<string>>): (r: seq<string>)
    ensures |r| == |groups|
  {
    seq(|groups|, k requires 0 <= k < |groups| => Strip(Acc(groups[k])))
  }

  lemma PiecesSnoc(groups: seq<seq<string>>, g: seq<string>)
    ensures Pieces(groups + [g]) == Pieces(groups) + [Strip(Acc(g))]
  {
  }

  ghost predicate NonEmptyGroups(groups: seq<seq<string>>)
  {
    forall k :: 0 <= k < |groups| ==> groups[k] != []
  }

  /** A group of two or more sentences stays within the limit before stripping. */
  ghost predicate WithinLimit(groups: seq<seq<string>>)
  {
    forall k :: 0 <= k < |groups| && |groups[k]| >= 2 ==> |Acc(groups[k])| <= PIECE_LIMIT
  }

  /** The group `g` was closed because the first sentence of `next` did not fit after it. */
  ghost predicate Forced(g: seq<string>, next: seq<string>)
  {
    next != [] && |Acc(g)| + |next[0]| >= PIECE_LIMIT
  }

  /** Greedy: every group was closed only because the next sentence did not fit. */
  ghost predicate Greedy(groups: seq<seq<string>>)
  {
    forall k :: 0 <= k < |groups| - 1 ==> Forced(groups[k], groups[k + 1])
  }

  lemma GreedySnoc(groups: seq<seq<string>>, g: seq<string>)
    requires Greedy(groups)
    requires groups != [] ==> Forced(groups[|groups| - 1], g)
    ensures Greedy(groups + [g])
  {
    var gs := groups + [g];
    forall k | 0 <= k < |gs| - 1
      ensures Forced(gs[k], gs[k + 1])
    {
      if k + 1 < |groups| {
        assert gs[k] == groups[k] && gs[k + 1] == groups[k + 1];
      }
    }
  }

  lemma FlattenSnoc(groups: seq<seq<string>>, g: seq<string>)
    ensures Flatten(groups + [g]) == Flatten(groups) + g
  {
    assert (groups + [g])[..|groups|] == groups;
  }

  /** Every sentence lands in exactly one group, in order; the open group is never empty after a sentence. */
  lemma {:induction false} PackPartitions(sentences: seq<string>)
    ensures Flatten(Closed(PackPrefix(sentences))) == sentences
    ensures sentences != [] ==> PackPrefix(sentences).current != []
  {
    if sentences != [] {
      var prefix, s := sentences[..|sentences| - 1], sentences[|sentences| - 1];
      PackPartitions(prefix);
      var st := PackPrefix(prefix);
      assert prefix + [s] == sentences;
      PackStep(prefix, s);
      if st.current == [] {
        assert prefix == [];
        FlattenSnoc([], [s]);
      } else if |Acc(st.current)| + |s| < PIECE_LIMIT {
        FlattenSnoc(st.done, st.current);
        FlattenSnoc(st.done, st.current + [s]);
      } else {
        FlattenSnoc(Closed(st), [s]);
      }
    }
  }

  /** No closed group is empty. */
  lemma {:induction false} PackNonEmpty(sentences: seq<string>)
    ensures NonEmptyGroups(PackPrefix(sentences).done)
  {
    if sentences != [] {
      var prefix, s := sentences[..|sentences| - 1], sentences[|sentences| - 1];
      PackNonEmpty(prefix);
      assert prefix + [s] == sentences;
      PackStep(prefix, s);
    }
  }

  /** Every group of two or more sentences, the open one included, is within the limit. */
  lemma {:induction false} PackWithinLimit(sentences: seq<string>)
    ensures WithinLimit(PackPrefix(sentences).done)
    ensures |PackPrefix(sentences).current| >= 2 ==> |Acc(PackPrefix(sentences).current)| <= PIECE_LIMIT
  {
    if sentences != [] {
      var prefix, s := sentences[..|sentences| - 1], sentences[|sentences| - 1];
      PackWithinLimit(prefix);
      var st := PackPrefix(prefix);
      assert prefix + [s] == sentences;
      PackStep(prefix, s);
      if |Acc(st.current)| + |s| < PIECE_LIMIT {
        AccSnoc(st.current, s);
      } else {
        var done := if st.current != [] then st.done + [st.current] else st.done;
        assert forall k :: 0 <= k < |st.done| ==> done[k] == st.done[k];
      }
    }
  }

  /** Greedy over closed groups, and between the last closed group and the open one. */
  ghost predicate GreedyState(st: PackState)
  {
    && Greedy(st.done)
    && (st.done != [] ==> Forced(st.done[|st.done| - 1], st.current))
  }

  lemma {:induction false} PackGreedy(sentences: seq<string>)
    ensures GreedyState(PackPrefix(sentences))
  {
    if sentences != [] {
      var prefix, s := sentences[..|sentences| - 1], sentences[|sentences| - 1];
      PackGreedy(prefix);
      PackNextGreedy(PackPrefix(prefix), s);
    }
  }

  lemma PackNextGreedy(st: PackState, s: string)
    requires GreedyState(st)
    ensures GreedyState(PackNext(st, s))
  {
    if |Acc(st.current)| + |s| < PIECE_LIMIT {
      if st.done != [] {
        assert (st.current + [s])[0] == st.current[0];
      }
    } else if st.current != [] {
      GreedySnoc(st.done, st.current);
    }
  }

  lemma GroupsPartition(sentences: seq<string>)
    ensures Flatten(Groups(sentences)) == sentences
    ensures NonEmptyGroups(Groups(sentences))
  {
    PackPartitions(sentences);
    PackNonEmpty(sentences);
  }

  lemma GroupsWithinLimit(sentences: seq<string>)
    ensures WithinLimit(Groups(sentences))
  {
    PackWithinLimit(sentences);
    var st := PackPrefix(sentences);
    if st.current != [] {
      var groups := st.done + [st.current];
      assert forall k :: 0 <= k < |st.done| ==> groups[k] == st.done[k];
    }
  }

  lemma GroupsGreedy(sentences: seq<string>)
    ensures Greedy(Groups(sentences))
  {
    PackGreedy(sentences);
    var st := PackPrefix(sentences);
    if st.current != [] {
      GreedySnoc(st.done, st.current);
    }
  }

  /**
   * Packing partitions the sentences: every sentence lands in exactly one
   * group, in order, no group is empty, every group of two or more sentences
   * is within the limit, and every group boundary is forced by overflow.
   */
  lemma PackingInvariant(sentences: seq<string>)
    ensures Flatten(Groups(sentences)) == sentences
    ensures NonEmptyGroups(Groups(sentences))
    ensures WithinLimit(Groups(sentences))
    ensures Greedy(Groups(sentences))
  {
    GroupsPartition(sentences);
    GroupsWithinLimit(sentences);
    GroupsGreedy(sentences);
  }

  /** One step of the packing, as the loop takes it. */
  lemma PackStep(sentences: seq<string>, s: string)
    ensures PackPrefix(sentences + [s]) == PackNext(PackPrefix(sentences), s)
  {
    assert (sentences + [s])[..|sentences|] == sentences;
  }

  lemma AccSnoc(group: seq<string>, s: string)
    ensures Acc(group + [s]) == Acc(group) + s + " "
  {
    assert (group + [s])[..|group|] == group;
  }

  /** What one sentence does to the accumulator text and to the pieces already closed. */
  lemma PackNextText(st: PackState, s: string)
    ensures var next := PackNext(st, s);
      && Acc(next.current) == (if |Acc(st.current)| + |s| < PIECE_LIMIT then Acc(st.current) + s + " " else s + " ")
      && Pieces(next.done) ==
           (if |Acc(st.current)| + |s| < PIECE_LIMIT || st.current == [] then Pieces(st.done)
            else Pieces(st.done) + [Strip(Acc(st.current))])
  {
    if |Acc(st.current)| + |s| < PIECE_LIMIT {
      AccSnoc(st.current, s);
    } else {
      AccSnoc([], s);
      if st.current != [] {
        PiecesSnoc(st.done, st.current);
      }
    }
  }

  /** The packing loop for one long section, with its accumulator and output list. */
  method PackLongSection(sentences: seq<string>) returns (pieces: seq<string>)
    ensures pieces == Pieces(Groups(sentences))
  {
    pieces := [];
    var current := "";
    ghost var st := PackState([], []);
    for i := 0 to |sentences|
      invariant st == PackPrefix(sentences[..i])
      invariant current == Acc(st.current)
      invariant pieces == Pieces(st.done)
    {
      var s := sentences[i];
      assert sentences[..i + 1] == sentences[..i] + [s];
      PackStep(sentences[..i], s);
      PackNextText(st, s);
      if |current| + |s| < PIECE_LIMIT {
        current := current + s + " ";
      } else {
        if current != "" {
          pieces := pieces + [Strip(current)];
        }
        current := s + " ";
      }
      st := PackNext(st, s);
    }
    assert sentences[..|sentences|] == sentences;
    if current != "" {
      PiecesSnoc(st.done, st.current);
      pieces := pieces + [Strip(current)];
    }
  }

  /**
   * The pieces of a long section: as many as there are groups, none longer
   * than 800 characters unless it is one sentence alone, and for those of
   * two or more sentences the stored text is within the limit too.
   */
  lemma PiecesOfLongSection(sentences: seq<string>)
    ensures var groups := Groups(sentences);
      && Flatten(groups) == sentences
      && |Pieces(groups)| == |groups| <= |sentences|
      && forall k :: 0 <= k < |groups| && |groups[k]| >= 2 ==> |Pieces(groups)[k]| <= PIECE_LIMIT
  {
    PackingInvariant(sentences);
    FlattenLength(Groups(sentences));
  }

  /** Non-empty groups are never more than their sentences. */
  lemma {:induction false} FlattenLength(groups: seq<seq<string>>)
    requires NonEmptyGroups(groups)
    ensures |groups| <= |Flatten(groups)|
  {
    if groups != [] {
      FlattenLength(groups[..|groups| - 1]);
    }
  }

  /** One section's contribution to the final list: repacked if long, as it is otherwise. */
  function SectionPieces(section: string, splitSentences: string -> seq<string>): seq<string>
  {
    if |section| > LONG_SECTION then Pieces(Groups(splitSentences(section))) else [section]
  }

  /** The final sections, in the order of the sections they come from. */
  function FinalSections(sections: seq<string>, splitSentences: string -> seq<string>): seq<string>
  {
    if sections == [] then []
    else FinalSections(sections[..|sections| - 1], splitSentences) + SectionPieces(sections[|sections| - 1], splitSentences)
  }

  /** Sections of at most 1000 characters pass through unchanged and in order. */
  lemma {:induction false} ShortSectionsPassThrough(sections: seq<string>, splitSentences: string -> seq<string>)
    requires forall k :: 0 <= k < |sections| ==> |sections[k]| <= LONG_SECTION
    ensures FinalSections(sections, splitSentences) == sections
  {
    if sections != [] {
      ShortSectionsPassThrough(sections[..|sections| - 1], splitSentences);
      assert sections[..|sections| - 1] + [sections[|sections| - 1]] == sections;
    }
  }

  method SplitIntoSections(text: string, splitSections: string -> seq<string>, splitSentences: string -> seq<string>)
    returns (finalSections: seq<string>)
    ensures finalSections == FinalSections(splitSections(text), splitSentences)
  {
    var sections := splitSections(text);
    finalSections := [];
    for n := 0 to |sections|
      invariant finalSections == FinalSections(sections[..n], splitSentences)
    {
      var section := sections[n];
      assert sections[..n + 1][..n] == sections[..n];
      if |section| > LONG_SECTION {
        var pieces := PackLongSection(splitSentences(section));
        finalSections := finalSections + pieces;
      } else {
        finalSections := finalSections + [section];
      }
    }
    assert sections[..|sections|] == sections;
  }

  /** The chunk stored for section number `i` of a document. */
  function MakeChunk(source: string, i: nat, section: string): Chunk
  {
    Chunk(Strip(section), source, source + "_chunk_" + NatToString(i), source, i)
  }

  /** A section is kept when its stripped text is longer than 50 characters. */
  predicate Kept(section: string)
  {
    |Strip(section)| > MIN_CHUNK_TEXT
  }

  /** The chunks of one document's sections, numbered by their position before filtering. */
  function DocChunks(source: string, sections: seq<string>): seq<Chunk>
  {
    if sections == [] then []
    else
      var n := |sections| - 1;
      DocChunks(source, sections[..n]) + (if Kept(sections[n]) then [MakeChunk(source, n, sections[n])] else [])
  }

  /** The chunks of all documents, documents in input order, sections in split order. */
  function ChunksOf(documents: seq<Document>, splitSections: string -> seq<string>, splitSentences: string -> seq<string>): seq<Chunk>
  {
    if documents == [] then []
    else
      var doc := documents[|documents| - 1];
      ChunksOf(documents[..|documents| - 1], splitSections, splitSentences)
        + DocChunks(doc.source, FinalSections(splitSections(doc.content), splitSentences))
  }

  lemma DocChunksSnoc(source: string, sections: seq<string>, section: string)
    ensures DocChunks(source, sections + [section]) ==
      DocChunks(source, sections) + (if Kept(section) then [MakeChunk(source, |sections|, section)] else [])
  {
    assert (sections + [section])[..|sections|] == sections;
  }

  lemma ChunksOfStep(documents: seq<Document>, d: nat, splitSections: string -> seq<string>, splitSentences: string -> seq<string>)
    requires d < |documents|
    ensures ChunksOf(documents[..d + 1], splitSections, splitSentences) ==
      ChunksOf(documents[..d], splitSections, splitSentences)
        + DocChunks(documents[d].source, FinalSections(splitSections(documents[d].content), splitSentences))
  {
    assert documents[..d + 1][..d] == documents[..d];
  }

  /** The inner loop of `chunk_documents`: the chunks of one document's final sections. */
  method SectionChunks(source: string, sections: seq<string>) returns (chunks: seq<Chunk>)
    ensures chunks == DocChunks(source, sections)
  {
    chunks := [];
    for i := 0 to |sections|
      invariant chunks == DocChunks(source, sections[..i])
    {
      var section := sections[i];
      assert sections[..i + 1] == sections[..i] + [section];
      DocChunksSnoc(source, sections[..i], section);
      if |Strip(section)| > MIN_CHUNK_TEXT {
        chunks := chunks + [Chunk(Strip(section), source, source + "_chunk_" + NatToString(i), source, i)];
      }
    }
    assert sections[..|sections|] == sections;
  }

  /** The outer loop of `chunk_documents`, over the documents in order. */
  method ChunkDocuments(documents: seq<Document>, splitSections: string -> seq<string>, splitSentences: string -> seq<string>)
    returns (chunks: seq<Chunk>)
    ensures chunks == ChunksOf(documents, splitSections, splitSentences)
  {
    chunks := [];
    for d := 0 to |documents|
      invariant chunks == ChunksOf(documents[..d], splitSections, splitSentences)
    {
      var sections := SplitIntoSections(documents[d].content, splitSections, splitSentences);
      var docChunks := SectionChunks(documents[d].source, sections);
      ChunksOfStep(documents, d, splitSections, splitSentences);
      chunks := chunks + docChunks;
    }
    assert documents[..|documents|] == documents;
  }

  /**
   * What a document's chunks are: each one is the stripped text of a kept
   * section, with more than 50 characters and no surrounding whitespace,
   * numbered by that section's position; the positions increase along the
   * list; and every kept section has its chunk.
   */
  lemma {:induction false} DocChunksCharacterized(source: string, sections: seq<string>)
    ensures var cs := DocChunks(source, sections);
      && |cs| <= |sections|
      && (forall k :: 0 <= k < |cs| ==>
            && cs[k].chunkIndex < |sections|
            && Kept(sections[cs[k].chunkIndex])
            && cs[k] == MakeChunk(source, cs[k].chunkIndex, sections[cs[k].chunkIndex]))
      && (forall k, l :: 0 <= k < l < |cs| ==> cs[k].chunkIndex < cs[l].chunkIndex)
      && (forall i :: 0 <= i < |sections| && Kept(sections[i]) ==> exists k :: 0 <= k < |cs| && cs[k].chunkIndex == i)
  {
    if sections != [] {
      var n := |sections| - 1;
      DocChunksCharacterized(source, sections[..n]);
      var cs0 := DocChunks(source, sections[..n]);
      var cs := DocChunks(source, sections);
      assert forall k :: 0 <= k < |cs0| ==> cs[k] == cs0[k];
      assert forall i :: 0 <= i < n ==> sections[..n][i] == sections[i];
      if Kept(sections[n]) {
        assert cs[|cs0|].chunkIndex == n;
      }
    }
  }

  /** Within one document, chunk ids are pairwise distinct. */
  lemma ChunkIdsDistinct(source: string, sections: seq<string>)
    ensures var cs := DocChunks(source, sections);
      forall k, l :: 0 <= k < l < |cs| ==> cs[k].chunkId != cs[l].chunkId
  {
    DocChunksCharacterized(source, sections);
    var cs := DocChunks(source, sections);
    var prefix := source + "_chunk_";
    forall k, l | 0 <= k < l < |cs|
      ensures cs[k].chunkId != cs[l].chunkId
    {
      NatToStringInjective(cs[k].chunkIndex, cs[l].chunkIndex);
      assert cs[k].chunkId[|prefix|..] == NatToString(cs[k].chunkIndex);
      assert cs[l].chunkId[|prefix|..] == NatToString(cs[l].chunkIndex);
    }
  }
}
