// What the recognizer gives for a text, exactly: what the model finds in it when it is read whole, and
// otherwise the merge of what is given for each of its chunks, at its place.
module Predictions {
  import opened Wrappers
  import opened Chunking
  import opened Merging
  import opened MergeRule
  import opened Pieces
  import Sweep

  // Findings with the start of their chunk added to their bounds.
  function Tagged(index: nat, chunk: Chunk, results: seq<Finding>): seq<Found> {
    seq(|results|, m requires 0 <= m < |results| =>
      Found(index, Sweep.Span(results[m], results[m].start + chunk.start, results[m].end + chunk.start)))
  }

  // The findings of each chunk, one chunk after the other.
  ghost function AllTagged(chunks: seq<Chunk>, parts: seq<seq<Finding>>): seq<Found>
    requires |parts| == |chunks|
  {
    if chunks == [] then []
    else
      var n := |chunks| - 1;
      AllTagged(chunks[..n], parts[..n]) + Tagged(n, chunks[n], parts[n])
  }

  // A finding of a chunk is given with that chunk, its bounds moved by where the chunk starts, and the rest
  // of it as it was.
  lemma {:induction false} TaggedAreMoved(chunks: seq<Chunk>, parts: seq<seq<Finding>>, k: nat, m: nat)
    requires |parts| == |chunks| && k < |chunks| && m < |parts[k]|
    ensures var f := parts[k][m];
            Found(k, Finding(f.entityType, f.start + chunks[k].start, f.end + chunks[k].start, f.score, f.explanation))
            in AllTagged(chunks, parts)
  {
    var n := |chunks| - 1;
    if k < n {
      TaggedAreMoved(chunks[..n], parts[..n], k, m);
    } else {
      assert Tagged(n, chunks[n], parts[n])[m] in Tagged(n, chunks[n], parts[n]);
    }
  }

  lemma SeveralChunks(c: Chunker, text: string)
    requires ValidChunker(c)
    ensures |Chunks(c, text)| > 1 <==> c.chunkSize < |text|
  {
    ChunksCoverTheText(c, text);
    if text != "" && c.chunkSize >= |text| {
      assert ChunkEnd(c, text, 0) == |text|;
    }
  }

  lemma ChunksGetShorter(c: Chunker, text: string)
    requires ValidChunker(c) && |Chunks(c, text)| > 1
    ensures c.chunkSize < |text|
    ensures forall k :: 0 <= k < |Chunks(c, text)| ==> |Chunks(c, text)[k].text| < |text|
  {
    ChunksCoverTheText(c, text);
    SeveralChunks(c, text);
  }

  // What is given for a text that is read whole, or cut in halves.
  ghost predicate IsPrediction(r: Recognizer, text: string, findings: seq<Finding>)
    requires ValidChunker(r.chunker)
    decreases |text|, 2
  {
    if Fits(r, text) then r.infer(text).Some? && findings == ModelFindings(r, text)
    else |text| / 2 != 0 && IsChunkedPrediction(r, Halves(r, text), text, findings)
  }

  // What is given for a text that is cut by a chunker.
  ghost predicate IsChunkedPrediction(r: Recognizer, c: Chunker, text: string, findings: seq<Finding>)
    requires ValidChunker(r.chunker) && ValidChunker(c)
    decreases |text|, if c.chunkSize < |text| then 0 else 3
  {
    var chunks := Chunks(c, text);
    if |chunks| == 0 then findings == []
    else if |chunks| == 1 then
      OneChunkIsLonger(c, text);
      IsPrediction(r, text, findings)
    else
      ChunksGetShorter(c, text);
      exists parts: seq<seq<Finding>> ::
        && |parts| == |chunks|
        && (forall k :: 0 <= k < |chunks| ==> IsPrediction(r, chunks[k].text, parts[k]))
        && IsTheMerge(AllTagged(chunks, parts), findings)
  }

  lemma OneChunkIsLonger(c: Chunker, text: string)
    requires ValidChunker(c) && |Chunks(c, text)| == 1
    ensures |text| <= c.chunkSize
  {
    ChunksCoverTheText(c, text);
  }

  ghost predicate IsTheMerge(found: seq<Found>, merged: seq<Finding>) {
    exists leaders :: IsMerge(found, merged, leaders)
  }

  lemma OneMerge(found: seq<Found>, a: seq<Finding>, b: seq<Finding>)
    requires IsTheMerge(found, a) && IsTheMerge(found, b)
    ensures a == b
  {
    hide IsMerge;
    var la :| IsMerge(found, a, la);
    var lb :| IsMerge(found, b, lb);
    MergeIsUnique(found, a, la, b, lb);
  }

  // There is one at most: types, bounds, scores, explanations and order are determined.
  lemma {:induction false} OnePrediction(r: Recognizer, text: string, a: seq<Finding>, b: seq<Finding>)
    requires ValidChunker(r.chunker) && IsPrediction(r, text, a) && IsPrediction(r, text, b)
    ensures a == b
    decreases |text|, 2
  {
    if !Fits(r, text) {
      OneChunkedPrediction(r, Halves(r, text), text, a, b);
    }
  }

  lemma {:induction false} OneChunkedPrediction(
    r: Recognizer, c: Chunker, text: string, a: seq<Finding>, b: seq<Finding>)
    requires ValidChunker(r.chunker) && ValidChunker(c)
    requires IsChunkedPrediction(r, c, text, a) && IsChunkedPrediction(r, c, text, b)
    ensures a == b
    decreases |text|, if c.chunkSize < |text| then 0 else 3
  {
    var chunks := Chunks(c, text);
    if |chunks| == 1 {
      OneChunkIsLonger(c, text);
      OnePrediction(r, text, a, b);
    } else if |chunks| > 1 {
      ChunksGetShorter(c, text);
      hide Chunks, IsTheMerge;
      var pa := PartsOf(r, c, text, a);
      var pb := PartsOf(r, c, text, b);
      forall k | 0 <= k < |chunks| ensures pa[k] == pb[k] {
        OnePrediction(r, chunks[k].text, pa[k], pb[k]);
      }
      assert pa == pb;
      OneMerge(AllTagged(chunks, pa), a, b);
    }
  }

  lemma PartsOf(r: Recognizer, c: Chunker, text: string, findings: seq<Finding>) returns (parts: seq<seq<Finding>>)
    requires ValidChunker(r.chunker) && ValidChunker(c) && |Chunks(c, text)| > 1
    requires IsChunkedPrediction(r, c, text, findings)
    ensures |parts| == |Chunks(c, text)| && IsTheMerge(AllTagged(Chunks(c, text), parts), findings)
    ensures forall k :: 0 <= k < |parts| ==> IsPrediction(r, Chunks(c, text)[k].text, parts[k])
  {
    hide Chunks, IsTheMerge, IsPrediction, AllTagged;
    var chunks := Chunks(c, text);
    parts :|
      && |parts| == |chunks|
      && (forall k :: 0 <= k < |chunks| ==> IsPrediction(r, chunks[k].text, parts[k]))
      && IsTheMerge(AllTagged(chunks, parts), findings);
  }

  lemma ChunkedPredictionOf(r: Recognizer, c: Chunker, text: string, parts: seq<seq<Finding>>, findings: seq<Finding>)
    requires ValidChunker(r.chunker) && ValidChunker(c) && |Chunks(c, text)| > 1
    requires |parts| == |Chunks(c, text)|
    requires forall k :: 0 <= k < |parts| ==> IsPrediction(r, Chunks(c, text)[k].text, parts[k])
    requires IsTheMerge(AllTagged(Chunks(c, text), parts), findings)
    ensures IsChunkedPrediction(r, c, text, findings)
  {
    hide Chunks, IsTheMerge, IsPrediction, AllTagged;
  }

  lemma AllTaggedOneMore(chunks: seq<Chunk>, parts: seq<seq<Finding>>, n: nat)
    requires n < |chunks| && |parts| == n + 1
    ensures AllTagged(chunks[..n + 1], parts) == AllTagged(chunks[..n], parts[..n]) + Tagged(n, chunks[n], parts[n])
  {
    assert chunks[..n + 1][..n] == chunks[..n];
  }

  lemma NothingTagged(chunks: seq<Chunk>)
    ensures AllTagged(chunks[..0], []) == []
  {
  }
}
