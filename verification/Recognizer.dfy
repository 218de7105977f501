// The recognizer: what the model finds in each piece of a text is moved to its place and merged,
// level by level.
module Recognizer {
  import opened Wrappers
  import opened Chunking
  import opened Merging
  import opened MergeRule
  import opened Pieces
  import opened Predictions
  import Sweep

  // ---- What the recognizer answers ----

  // A piece the model reads without failing.
  ghost predicate LeafRuns(r: Recognizer, text: string, leaf: Leaf) {
    && leaf.start <= leaf.end <= |text|
    && Fits(r, text[leaf.start..leaf.end]) && r.infer(text[leaf.start..leaf.end]).Some?
  }

  ghost predicate AllRun(r: Recognizer, text: string, leaves: seq<Leaf>) {
    forall k :: 0 <= k < |leaves| ==> LeafRuns(r, text, leaves[k])
  }

  // The model designates a character of the text in one of its pieces.
  ghost predicate LeafDesignates(r: Recognizer, text: string, leaf: Leaf, entityType: string, character: int) {
    && LeafRuns(r, text, leaf)
    && Covered(ModelFindings(r, text[leaf.start..leaf.end]), entityType, character - leaf.start)
  }

  ghost predicate FoundByTheModel(r: Recognizer, text: string, leaves: seq<Leaf>, entityType: string, character: int) {
    exists k :: 0 <= k < |leaves| && LeafDesignates(r, text, leaves[k], entityType, character)
  }

  // The characters designated, by type, are those the model designates in the pieces of the text.
  ghost predicate Faithful(r: Recognizer, text: string, leaves: seq<Leaf>, findings: seq<Finding>) {
    forall t, c :: Covered(findings, t, c) <==> FoundByTheModel(r, text, leaves, t, c)
  }

  // A piece that makes a text fail: one that exceeds the window of the model and cannot be cut, or one within
  // it that the model does not read.
  ghost predicate FailsWith(r: Recognizer, text: string, leaf: Leaf, error: Error) {
    && leaf.start <= leaf.end <= |text|
    && var piece := text[leaf.start..leaf.end];
       match error
       case OneCharacterExceeds => |piece| <= 1 && !Fits(r, piece)
       case InferenceFailed => Fits(r, piece) && r.infer(piece).None?
  }

  ghost predicate OneFailsWith(r: Recognizer, text: string, leaves: seq<Leaf>, error: Error) {
    exists k :: 0 <= k < |leaves| && FailsWith(r, text, leaves[k], error)
  }

  // The answer for a text cut into these pieces: without a failure exactly when the model reads
  // them all, and then faithful. A failure is that of one of the pieces.
  ghost predicate Answers(r: Recognizer, text: string, leaves: seq<Leaf>, result: Result<seq<Finding>, Error>) {
    && (result.Success? <==> AllRun(r, text, leaves))
    && (result.Success? ==> AreOriented(result.value) && Faithful(r, text, leaves, result.value))
    && (result.Failure? ==> OneFailsWith(r, text, leaves, result.error))
  }

  lemma WholeAnswers(r: Recognizer, text: string, result: Result<seq<Finding>, Error>)
    requires Fits(r, text)
    requires result.Success? <==> r.infer(text).Some?
    requires result.Success? ==> result.value == ModelFindings(r, text) && AreOriented(result.value)
    requires result.Failure? ==> result.error == InferenceFailed
    ensures Answers(r, text, [Leaf(0, |text|)], result)
  {
    var leaf := Leaf(0, |text|);
    assert text[0..|text|] == text;
    assert [leaf][0] == leaf;
    if result.Failure? {
      assert FailsWith(r, text, [leaf][0], InferenceFailed);
    }
    if result.Success? {
      forall t, c ensures Covered(result.value, t, c) <==> FoundByTheModel(r, text, [leaf], t, c) {
        assert LeafDesignates(r, text, [leaf][0], t, c) <==> Covered(result.value, t, c);
      }
    }
  }

  lemma OneCharacterAnswers(r: Recognizer, text: string)
    requires !Fits(r, text) && |text| / 2 == 0
    ensures Answers(r, text, [Leaf(0, |text|)], Failure(OneCharacterExceeds))
  {
    var leaf := Leaf(0, |text|);
    assert text[0..|text|] == text;
    assert [leaf][0] == leaf;
    assert !LeafRuns(r, text, [leaf][0]) && FailsWith(r, text, [leaf][0], OneCharacterExceeds);
  }

  // What was found in the chunks already read.
  ghost predicate Gathered(r: Recognizer, text: string, leaves: seq<Leaf>, found: seq<Found>) {
    && Oriented(found) && AllRun(r, text, leaves)
    && (forall t, c :: Given(found, t, c) <==> FoundByTheModel(r, text, leaves, t, c))
  }

  lemma TaggedGiven(index: nat, chunk: Chunk, results: seq<Finding>, t: string, c: int)
    ensures Given(Tagged(index, chunk, results), t, c) <==> Covered(results, t, c - chunk.start)
  {
    var tagged := Tagged(index, chunk, results);
    if k :| 0 <= k < |results| && Designates(results[k], t, c - chunk.start) {
      assert In(tagged, k) && Designates(tagged[k].result, t, c);
    }
    if k :| In(tagged, k) && Designates(tagged[k].result, t, c) {
      assert Designates(results[k], t, c - chunk.start);
    }
  }

  lemma GivenByEither(a: seq<Found>, b: seq<Found>, t: string, c: int)
    ensures Given(a + b, t, c) <==> Given(a, t, c) || Given(b, t, c)
  {
    if k :| In(a, k) && Designates(a[k].result, t, c) {
      assert In(a + b, k) && (a + b)[k] == a[k];
    }
    if k :| In(b, k) && Designates(b[k].result, t, c) {
      assert In(a + b, |a| + k) && (a + b)[|a| + k] == b[k];
    }
    if k :| In(a + b, k) && Designates((a + b)[k].result, t, c) {
      if k < |a| {
        assert In(a, k);
      } else {
        assert In(b, k - |a|);
      }
    }
  }

  lemma FoundByEither(r: Recognizer, text: string, a: seq<Leaf>, b: seq<Leaf>, t: string, c: int)
    ensures FoundByTheModel(r, text, a + b, t, c) <==>
            FoundByTheModel(r, text, a, t, c) || FoundByTheModel(r, text, b, t, c)
  {
    if k :| 0 <= k < |a| && LeafDesignates(r, text, a[k], t, c) {
      assert (a + b)[k] == a[k];
    }
    if k :| 0 <= k < |b| && LeafDesignates(r, text, b[k], t, c) {
      assert (a + b)[|a| + k] == b[k];
    }
    if k :| 0 <= k < |a + b| && LeafDesignates(r, text, (a + b)[k], t, c) {
      if k < |a| {
        assert a[k] == (a + b)[k];
      } else {
        assert b[k - |a|] == (a + b)[k];
      }
    }
  }

  // A piece of a chunk says of the chunk what its place says of the text.
  lemma ShiftedLeaf(r: Recognizer, text: string, chunk: Chunk, leaf: Leaf)
    requires SlicesOf(text, [chunk]) && leaf.start <= leaf.end <= |chunk.text|
    ensures var moved := Leaf(leaf.start + chunk.start, leaf.end + chunk.start);
            && (LeafRuns(r, text, moved) <==> LeafRuns(r, chunk.text, leaf))
            && (forall error :: FailsWith(r, text, moved, error) <==> FailsWith(r, chunk.text, leaf, error))
            && (forall t, c :: LeafDesignates(r, text, moved, t, c) <==>
                               LeafDesignates(r, chunk.text, leaf, t, c - chunk.start))
  {
    assert [chunk][0] == chunk;
    SliceOfASlice(text, chunk.start, chunk.end, leaf);
  }

  lemma ShiftedRun(r: Recognizer, text: string, chunk: Chunk, leaves: seq<Leaf>)
    requires SlicesOf(text, [chunk]) && LeavesOk(r, chunk.text, leaves)
    ensures AllRun(r, text, Shifted(leaves, chunk.start)) <==> AllRun(r, chunk.text, leaves)
    ensures forall error :: OneFailsWith(r, chunk.text, leaves, error) ==>
              OneFailsWith(r, text, Shifted(leaves, chunk.start), error)
  {
    var moved := Shifted(leaves, chunk.start);
    forall k | 0 <= k < |leaves|
      ensures LeafRuns(r, text, moved[k]) <==> LeafRuns(r, chunk.text, leaves[k])
      ensures forall error :: FailsWith(r, text, moved[k], error) <==> FailsWith(r, chunk.text, leaves[k], error)
    {
      assert LeafOk(r, chunk.text, leaves[k]);
      ShiftedLeaf(r, text, chunk, leaves[k]);
    }
    hide LeafRuns, FailsWith, LeafOk;
    forall error | OneFailsWith(r, chunk.text, leaves, error) ensures OneFailsWith(r, text, moved, error) {
      var k :| 0 <= k < |leaves| && FailsWith(r, chunk.text, leaves[k], error);
      assert FailsWith(r, text, moved[k], error);
    }
  }

  lemma ShiftedDesignates(r: Recognizer, text: string, chunk: Chunk, leaves: seq<Leaf>, t: string, c: int, k: nat)
    requires SlicesOf(text, [chunk]) && LeavesOk(r, chunk.text, leaves) && k < |leaves|
    ensures |Shifted(leaves, chunk.start)| == |leaves|
    ensures LeafDesignates(r, text, Shifted(leaves, chunk.start)[k], t, c) <==>
            LeafDesignates(r, chunk.text, leaves[k], t, c - chunk.start)
  {
    hide LeafDesignates, SlicesOf;
    assert LeafOk(r, chunk.text, leaves[k]);
    ShiftedLeaf(r, text, chunk, leaves[k]);
  }

  lemma ShiftedFound(r: Recognizer, text: string, chunk: Chunk, leaves: seq<Leaf>, t: string, c: int)
    requires SlicesOf(text, [chunk]) && LeavesOk(r, chunk.text, leaves)
    ensures FoundByTheModel(r, text, Shifted(leaves, chunk.start), t, c) <==>
            FoundByTheModel(r, chunk.text, leaves, t, c - chunk.start)
  {
    hide LeafDesignates, LeavesOk, Shifted, SlicesOf;
    var moved := Shifted(leaves, chunk.start);
    if k :| 0 <= k < |leaves| && LeafDesignates(r, chunk.text, leaves[k], t, c - chunk.start) {
      ShiftedDesignates(r, text, chunk, leaves, t, c, k);
    }
    ShiftedLength(leaves, chunk.start);
    if k :| 0 <= k < |moved| && LeafDesignates(r, text, moved[k], t, c) {
      ShiftedDesignates(r, text, chunk, leaves, t, c, k);
    }
  }

  lemma ShiftedLength(leaves: seq<Leaf>, offset: nat)
    ensures |Shifted(leaves, offset)| == |leaves|
  {
  }

  lemma AllRunOfBoth(r: Recognizer, text: string, a: seq<Leaf>, b: seq<Leaf>)
    ensures AllRun(r, text, a + b) <==> AllRun(r, text, a) && AllRun(r, text, b)
  {
    hide LeafRuns;
    if AllRun(r, text, a + b) {
      forall k | 0 <= k < |a| ensures LeafRuns(r, text, a[k]) {
        assert (a + b)[k] == a[k];
      }
      forall k | 0 <= k < |b| ensures LeafRuns(r, text, b[k]) {
        assert (a + b)[|a| + k] == b[k];
      }
    }
  }

  lemma OneOfEitherFails(r: Recognizer, text: string, a: seq<Leaf>, b: seq<Leaf>, error: Error)
    requires OneFailsWith(r, text, a, error) || OneFailsWith(r, text, b, error)
    ensures OneFailsWith(r, text, a + b, error)
  {
    hide FailsWith;
    if OneFailsWith(r, text, a, error) {
      var k :| 0 <= k < |a| && FailsWith(r, text, a[k], error);
      assert (a + b)[k] == a[k];
    } else {
      var k :| 0 <= k < |b| && FailsWith(r, text, b[k], error);
      assert (a + b)[|a| + k] == b[k];
    }
  }

  lemma TaggedAreOriented(index: nat, chunk: Chunk, results: seq<Finding>)
    requires AreOriented(results)
    ensures Oriented(Tagged(index, chunk, results))
  {
  }

  // The pieces of a chunk, at their places in the text.
  ghost function Placed(r: Recognizer, chunk: Chunk): seq<Leaf>
    requires ValidChunker(r.chunker)
  {
    Shifted(Leaves(r, chunk.text), chunk.start)
  }

  // The findings of one more chunk.
  lemma GatheredGrows(
    r: Recognizer, text: string, leaves: seq<Leaf>, found: seq<Found>, index: nat, chunk: Chunk,
    results: seq<Finding>)
    requires ValidChunker(r.chunker) && SlicesOf(text, [chunk]) && Gathered(r, text, leaves, found)
    requires Answers(r, chunk.text, Leaves(r, chunk.text), Success(results))
    ensures Gathered(r, text, leaves + Placed(r, chunk), found + Tagged(index, chunk, results))
  {
    hide SlicesOf, AllRun, FoundByTheModel, Given, Covered, Tagged, Shifted, Leaves;
    var more, tagged := Placed(r, chunk), Tagged(index, chunk, results);
    LeavesAreOk(r, chunk.text);
    ShiftedRun(r, text, chunk, Leaves(r, chunk.text));
    AllRunOfBoth(r, text, leaves, more);
    TaggedAreOriented(index, chunk, results);
    forall t, c ensures Given(found + tagged, t, c) <==> FoundByTheModel(r, text, leaves + more, t, c) {
      GivenByEither(found, tagged, t, c);
      FoundByEither(r, text, leaves, more, t, c);
      TaggedGiven(index, chunk, results, t, c);
      ShiftedFound(r, text, chunk, Leaves(r, chunk.text), t, c);
    }
  }

  // A chunk that fails fails the text.
  lemma ChunkFails(
    r: Recognizer, text: string, before: seq<Leaf>, chunk: Chunk, after: seq<Leaf>, error: Error)
    requires ValidChunker(r.chunker) && SlicesOf(text, [chunk])
    requires Answers(r, chunk.text, Leaves(r, chunk.text), Failure(error))
    ensures Answers(r, text, before + Placed(r, chunk) + after, Failure(error))
  {
    hide SlicesOf, AllRun, FoundByTheModel, OneFailsWith, Shifted, Leaves;
    LeavesAreOk(r, chunk.text);
    ShiftedRun(r, text, chunk, Leaves(r, chunk.text));
    AllRunOfBoth(r, text, before, Placed(r, chunk));
    AllRunOfBoth(r, text, before + Placed(r, chunk), after);
    OneOfEitherFails(r, text, before, Placed(r, chunk), error);
    OneOfEitherFails(r, text, before + Placed(r, chunk), after, error);
  }

  // The pieces of the chunks after the k-th.
  lemma {:induction false} LeavesOfSplit(r: Recognizer, chunks: seq<Chunk>, limit: nat, k: nat)
    returns (after: seq<Leaf>)
    requires ValidChunker(r.chunker) && Shorter(chunks, limit) && k < |chunks|
    ensures LeavesOf(r, chunks, limit) == LeavesOf(r, chunks[..k], limit) + Placed(r, chunks[k]) + after
    decreases |chunks|
  {
    after := [];
    if k < |chunks| - 1 {
      var shorter := chunks[..|chunks| - 1];
      var rest := LeavesOfSplit(r, shorter, limit, k);
      assert shorter[..k] == chunks[..k];
      after := rest + Placed(r, chunks[|chunks| - 1]);
    }
  }

  lemma LeavesOfOneMore(r: Recognizer, chunks: seq<Chunk>, limit: nat, n: nat)
    requires ValidChunker(r.chunker) && Shorter(chunks, limit) && n < |chunks|
    ensures LeavesOf(r, chunks[..n + 1], limit) == LeavesOf(r, chunks[..n], limit) + Placed(r, chunks[n])
  {
    assert chunks[..n + 1][..n] == chunks[..n];
  }

  // What is merged of what was found answers for the text.
  lemma MergedAnswers(
    r: Recognizer, text: string, leaves: seq<Leaf>, found: seq<Found>, merged: seq<Finding>, leaders: seq<int>)
    requires Gathered(r, text, leaves, found) && IsMerge(found, merged, leaders)
    ensures Answers(r, text, leaves, Success(merged))
  {
    hide FoundByTheModel, Given, Covered, AllRun, Unit, IsLooseMerge;
    forall t, c ensures Covered(merged, t, c) <==> FoundByTheModel(r, text, leaves, t, c) {
      MergeKeepsCharacters(found, merged, leaders, t, c);
    }
    MergedAreOriented(found, merged, leaders);
  }

  lemma MergedAreOriented(found: seq<Found>, merged: seq<Finding>, leaders: seq<int>)
    requires Oriented(found) && IsMerge(found, merged, leaders)
    ensures AreOriented(merged)
  {
    forall k | 0 <= k < |merged| ensures merged[k].start <= merged[k].end {
      assert Leads(found, leaders[k]);
      assert Spans(found, Unit(found, leaders[k]), merged[k]);
    }
  }

  // ---- The recursion ----

  lemma OneChunkOnly(r: Recognizer, c: Chunker, text: string)
    requires ValidChunker(r.chunker) && ValidChunker(c) && |Chunks(c, text)| == 1
    ensures LeavesWithin(r, c, text) == Leaves(r, text)
  {
    ChunksCoverTheText(c, text);
    var chunks := Chunks(c, text);
    assert text[0..|text|] == text;
    assert chunks[0].text == text && chunks[0].start == 0;
    ChunksAreShorter(c, text, c.chunkSize + 1);
    assert LeavesOf(r, chunks[..0], c.chunkSize + 1) == [];
    ShiftedByNothing(Leaves(r, text));
    hide Leaves, Chunks;
    assert LeavesOf(r, chunks, c.chunkSize + 1) == [] + Shifted(Leaves(r, text), 0);
  }

  lemma ShiftedByNothing(leaves: seq<Leaf>)
    ensures Shifted(leaves, 0) == leaves
  {
  }

  lemma NothingGathered(r: Recognizer, text: string)
    ensures Gathered(r, text, [], [])
  {
  }

  lemma NoChunkAnswers(r: Recognizer, c: Chunker, text: string)
    requires ValidChunker(r.chunker) && ValidChunker(c) && Chunks(c, text) == []
    ensures Answers(r, text, LeavesWithin(r, c, text), Success([]))
  {
  }

  lemma ChunkOfTheText(c: Chunker, text: string, k: nat)
    requires ValidChunker(c) && k < |Chunks(c, text)|
    ensures SlicesOf(text, [Chunks(c, text)[k]])
    ensures |Chunks(c, text)[k].text| <= c.chunkSize
  {
    ChunksCoverTheText(c, text);
    assert [Chunks(c, text)[k]][0] == Chunks(c, text)[k];
  }

  lemma FirstLeavesOf(r: Recognizer, c: Chunker, text: string, n: nat)
    requires ValidChunker(r.chunker) && ValidChunker(c) && n <= |Chunks(c, text)|
    ensures Shorter(Chunks(c, text), c.chunkSize + 1) && Shorter(Chunks(c, text)[..n], c.chunkSize + 1)
    ensures LeavesOf(r, Chunks(c, text)[..0], c.chunkSize + 1) == []
    ensures n == |Chunks(c, text)| ==>
              LeavesOf(r, Chunks(c, text)[..n], c.chunkSize + 1) == LeavesWithin(r, c, text)
  {
    ChunksAreShorter(c, text, c.chunkSize + 1);
    assert n == |Chunks(c, text)| ==> Chunks(c, text)[..n] == Chunks(c, text);
  }

  // What was found in the n first chunks of a text.
  ghost predicate Read(r: Recognizer, c: Chunker, text: string, n: nat, found: seq<Found>)
    requires ValidChunker(r.chunker) && ValidChunker(c)
  {
    && n <= |Chunks(c, text)| && Shorter(Chunks(c, text)[..n], c.chunkSize + 1)
    && Gathered(r, text, LeavesOf(r, Chunks(c, text)[..n], c.chunkSize + 1), found)
  }

  lemma NothingRead(r: Recognizer, c: Chunker, text: string)
    requires ValidChunker(r.chunker) && ValidChunker(c)
    ensures Read(r, c, text, 0, [])
  {
    hide Gathered;
    FirstLeavesOf(r, c, text, 0);
    NothingGathered(r, text);
  }

  lemma OneMoreRead(r: Recognizer, c: Chunker, text: string, n: nat, found: seq<Found>, results: seq<Finding>)
    requires ValidChunker(r.chunker) && ValidChunker(c)
    requires Read(r, c, text, n, found) && n < |Chunks(c, text)|
    requires var chunk := Chunks(c, text)[n]; Answers(r, chunk.text, Leaves(r, chunk.text), Success(results))
    ensures Read(r, c, text, n + 1, found + Tagged(n, Chunks(c, text)[n], results))
  {
    hide Gathered, Answers, SlicesOf, Tagged, Chunks, Leaves, Placed;
    var chunks := Chunks(c, text);
    FirstLeavesOf(r, c, text, n + 1);
    ChunkOfTheText(c, text, n);
    LeavesOfOneMore(r, chunks, c.chunkSize + 1, n);
    GatheredGrows(r, text, LeavesOf(r, chunks[..n], c.chunkSize + 1), found, n, chunks[n], results);
  }

  lemma FailsWithAChunk(r: Recognizer, c: Chunker, text: string, n: nat, error: Error)
    requires ValidChunker(r.chunker) && ValidChunker(c) && n < |Chunks(c, text)|
    requires var chunk := Chunks(c, text)[n]; Answers(r, chunk.text, Leaves(r, chunk.text), Failure(error))
    ensures Answers(r, text, LeavesWithin(r, c, text), Failure(error))
  {
    hide Answers, SlicesOf, Chunks, Leaves, Placed;
    var chunks := Chunks(c, text);
    FirstLeavesOf(r, c, text, n);
    ChunkOfTheText(c, text, n);
    var after := LeavesOfSplit(r, chunks, c.chunkSize + 1, n);
    ChunkFails(r, text, LeavesOf(r, chunks[..n], c.chunkSize + 1), chunks[n], after, error);
  }

  lemma AllReadAnswers(
    r: Recognizer, c: Chunker, text: string, found: seq<Found>, merged: seq<Finding>, leaders: seq<int>)
    requires ValidChunker(r.chunker) && ValidChunker(c)
    requires Read(r, c, text, |Chunks(c, text)|, found) && IsMerge(found, merged, leaders)
    ensures Answers(r, text, LeavesWithin(r, c, text), Success(merged))
  {
    hide Gathered, Answers, Chunks, IsMerge;
    FirstLeavesOf(r, c, text, |Chunks(c, text)|);
    MergedAnswers(r, text, LeavesWithin(r, c, text), found, merged, leaders);
  }

  lemma ReadIsOriented(r: Recognizer, c: Chunker, text: string, n: nat, found: seq<Found>)
    requires ValidChunker(r.chunker) && ValidChunker(c) && Read(r, c, text, n, found)
    ensures Oriented(found)
  {
  }

  // Adds the start of the chunk to the bounds of each finding.
  method Moved(index: nat, chunk: Chunk, results: seq<Finding>) returns (found: seq<Found>)
    ensures found == Tagged(index, chunk, results)
  {
    found := [];
    for m := 0 to |results|
      invariant found == Tagged(index, chunk, results[..m])
    {
      var result := results[m];
      found := found + [Found(index, Sweep.Span(result, result.start + chunk.start, result.end + chunk.start))];
    }
    assert results[..|results|] == results;
  }

  // The loop over the chunks: stops at the first failure, and merges when all were read.
  method PredictWithChunking(r: Recognizer, c: Chunker, text: string)
    returns (result: Result<seq<Finding>, Error>)
    requires ValidRecognizer(r) && ValidChunker(c)
    ensures Answers(r, text, LeavesWithin(r, c, text), result)
    ensures result.Success? ==> ValidChunker(r.chunker) && IsChunkedPrediction(r, c, text, result.value)
    decreases |text|, if c.chunkSize < |text| then 0 else 3
  {
    hide *;
    ValidParts(r);
    SeveralChunks(c, text);
    var chunks := SplitIntoChunks(c, text);
    if |chunks| == 0 {
      NoChunkAnswers(r, c, text);
      NoChunkPredicts(r, c, text);
      return Success([]);
    }
    if |chunks| == 1 {
      OneChunkOnly(r, c, text);
      result := PredictChunk(r, text);
      OneChunkPredicts(r, c, text, result);
      return;
    }
    var found: seq<Found> := [];
    ghost var parts: seq<seq<Finding>> := [];
    NothingRead(r, c, text);
    NothingTagged(chunks);
    for index := 0 to |chunks|
      invariant Read(r, c, text, index, found)
      invariant |parts| == index && found == AllTagged(chunks[..index], parts)
      invariant forall k :: 0 <= k < index ==> IsPrediction(r, chunks[k].text, parts[k])
    {
      ChunkOfTheText(c, text, index);
      var predicted := PredictChunk(r, chunks[index].text);
      if predicted.Failure? {
        FailsWithAChunk(r, c, text, index, predicted.error);
        return Failure(predicted.error);
      }
      var moved := Moved(index, chunks[index], predicted.value);
      OneMoreRead(r, c, text, index, found, predicted.value);
      AllTaggedOneMore(chunks, parts + [predicted.value], index);
      assert (parts + [predicted.value])[..index] == parts;
      parts := parts + [predicted.value];
      found := found + moved;
    }
    ReadIsOriented(r, c, text, |chunks|, found);
    var merged := Sweep.MergeAcrossChunks(found);
    ghost var leaders :| IsMerge(found, merged, leaders);
    AllReadAnswers(r, c, text, found, merged, leaders);
    MergedIsTheMerge(found, merged, leaders);
    assert chunks[..|chunks|] == chunks;
    ChunkedPredictionOf(r, c, text, parts, merged);
    return Success(merged);
  }

  lemma MergedIsTheMerge(found: seq<Found>, merged: seq<Finding>, leaders: seq<int>)
    requires IsMerge(found, merged, leaders)
    ensures IsTheMerge(found, merged)
  {
  }

  lemma NoChunkPredicts(r: Recognizer, c: Chunker, text: string)
    requires ValidChunker(r.chunker) && ValidChunker(c) && |Chunks(c, text)| == 0
    ensures IsChunkedPrediction(r, c, text, [])
  {
  }

  lemma OneChunkPredicts(r: Recognizer, c: Chunker, text: string, result: Result<seq<Finding>, Error>)
    requires ValidChunker(r.chunker) && ValidChunker(c) && |Chunks(c, text)| == 1
    requires result.Success? ==> IsPrediction(r, text, result.value)
    ensures result.Success? ==> IsChunkedPrediction(r, c, text, result.value)
  {
    hide IsPrediction;
  }

  lemma ValidParts(r: Recognizer)
    requires ValidRecognizer(r)
    ensures ValidChunker(r.chunker)
  {
  }

  method PredictChunk(r: Recognizer, text: string) returns (result: Result<seq<Finding>, Error>)
    requires ValidRecognizer(r)
    ensures ValidChunker(r.chunker) && Answers(r, text, Leaves(r, text), result)
    ensures result.Success? ==> IsPrediction(r, text, result.value)
    decreases |text|, 2
  {
    hide IsChunkedPrediction, Answers, AreOriented, ValidChunker, ModelFindings;
    ValidParts(r);
    if !Fits(r, text) {
      result := PredictInHalves(r, text);
      return;
    }
    result := PredictWhole(r, text);
    WholeAnswers(r, text, result);
  }

  // A text whose tokens exceed the window, as smaller chunks.
  method PredictInHalves(r: Recognizer, text: string) returns (result: Result<seq<Finding>, Error>)
    requires ValidRecognizer(r) && !Fits(r, text)
    ensures ValidChunker(r.chunker) && Answers(r, text, Leaves(r, text), result)
    ensures result.Success? ==> |text| / 2 != 0 && IsChunkedPrediction(r, Halves(r, text), text, result.value)
    decreases |text|, 1
  {
    hide IsChunkedPrediction, Answers;
    var size := |text| / 2;
    if size == 0 {
      OneCharacterAnswers(r, text);
      return Failure(OneCharacterExceeds);
    }
    result := PredictWithChunking(r, Halves(r, text), text);
  }

  // ---- The entry point ----

  function OfTypes(findings: seq<Finding>, entities: set<string>): seq<Finding> {
    if findings == [] then []
    else
      var before, last := OfTypes(findings[..|findings| - 1], entities), findings[|findings| - 1];
      if last.entityType in entities then before + [last] else before
  }

  // Findings at some ranks, in their order: exactly those of the types asked for.
  ghost predicate AreTheirs(findings: seq<Finding>, entities: set<string>, ranks: seq<int>, kept: seq<Finding>) {
    && |ranks| == |kept|
    && (forall n :: 0 <= n < |ranks| ==> 0 <= ranks[n] < |findings| && kept[n] == findings[ranks[n]])
    && (forall n, m :: 0 <= n < m < |ranks| ==> ranks[n] < ranks[m])
    && (forall k :: k in ranks <==> 0 <= k < |findings| && findings[k].entityType in entities)
  }

  lemma TheirsWithOneMore(findings: seq<Finding>, f: Finding, entities: set<string>, ranks: seq<int>, kept: seq<Finding>)
    requires AreTheirs(findings, entities, ranks, kept)
    ensures f.entityType in entities ==>
              AreTheirs(findings + [f], entities, ranks + [|findings|], kept + [f])
    ensures f.entityType !in entities ==> AreTheirs(findings + [f], entities, ranks, kept)
  {
    assert forall k :: 0 <= k < |findings| ==> (findings + [f])[k] == findings[k];
  }

  lemma {:induction false} OfTypesAreTheirs(findings: seq<Finding>, entities: set<string>) returns (ranks: seq<int>)
    ensures AreTheirs(findings, entities, ranks, OfTypes(findings, entities))
  {
    if findings == [] {
      ranks := [];
    } else {
      hide AreTheirs;
      var before, last := findings[..|findings| - 1], findings[|findings| - 1];
      ranks := OfTypesAreTheirs(before, entities);
      TheirsWithOneMore(before, last, entities, ranks, OfTypes(before, entities));
      assert before + [last] == findings;
      if last.entityType in entities {
        ranks := ranks + [|before|];
      }
    }
  }

  // What is returned is what is given for the text, of the types asked for.
  ghost predicate IsAnswer(r: Recognizer, text: string, entities: set<string>, kept: seq<Finding>)
    requires ValidChunker(r.chunker)
  {
    exists findings, ranks ::
      IsChunkedPrediction(r, r.chunker, text, findings) && AreTheirs(findings, entities, ranks, kept)
  }

  lemma {:induction false} OfTypesKeepsTheirs(findings: seq<Finding>, entities: set<string>, t: string, c: int)
    ensures Covered(OfTypes(findings, entities), t, c) <==> t in entities && Covered(findings, t, c)
  {
    if findings != [] {
      var before, last := findings[..|findings| - 1], findings[|findings| - 1];
      OfTypesKeepsTheirs(before, entities, t, c);
      CoveredWithOneMore(before, last, t, c);
      CoveredWithOneMore(OfTypes(before, entities), last, t, c);
      assert findings == before + [last];
    }
  }

  lemma CoveredWithOneMore(before: seq<Finding>, last: Finding, t: string, c: int)
    ensures Covered(before + [last], t, c) <==> Covered(before, t, c) || Designates(last, t, c)
  {
    var longer := before + [last];
    if k :| 0 <= k < |before| && Designates(before[k], t, c) {
      assert Designates(longer[k], t, c);
    }
    if Designates(last, t, c) {
      assert Designates(longer[|before|], t, c);
    }
  }

  // Nothing is asked of the model for an empty text, or when no entity it maps to is asked for.
  predicate Asked(r: Recognizer, text: string, entities: set<string>) {
    text != "" && entities * r.labelMapping.Values != {}
  }

  // What is returned for a text: an error when a piece of it cannot be read,
  // and otherwise every character the model designates in a piece of it, of a type asked for, and
  // no other.
  method Analyze(r: Recognizer, text: string, entities: set<string>)
    returns (result: Result<seq<Finding>, Error>)
    requires ValidRecognizer(r)
    ensures ValidChunker(r.chunker)
    ensures !Asked(r, text, entities) ==> result == Success([])
    ensures Asked(r, text, entities) ==>
              var leaves := LeavesWithin(r, r.chunker, text);
              && (result.Success? <==> AllRun(r, text, leaves))
              && (result.Failure? ==> OneFailsWith(r, text, leaves, result.error))
              && (result.Success? ==> IsAnswer(r, text, entities, result.value))
              && (result.Success? ==>
                    forall t, c :: Covered(result.value, t, c) <==>
                                   t in entities && FoundByTheModel(r, text, leaves, t, c))
  {
    hide AllRun, OneFailsWith, FoundByTheModel, LeavesWithin, Covered, IsChunkedPrediction, AreTheirs;
    if !Asked(r, text, entities) {
      return Success([]);
    }
    var results := PredictWithChunking(r, r.chunker, text);
    if results.Failure? {
      return results;
    }
    var kept := OfTypes(results.value, entities);
    forall t, c ensures Covered(kept, t, c) <==> t in entities && Covered(results.value, t, c) {
      OfTypesKeepsTheirs(results.value, entities, t, c);
    }
    ghost var ranks := OfTypesAreTheirs(results.value, entities);
    return Success(kept);
  }
}
