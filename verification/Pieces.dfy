// What the recognizer is built with, what it makes of a text the model reads whole, and the pieces a
// text is cut into: chunks, and halves of them while their tokens exceed the window of the model.
module Pieces {
  import opened Wrappers
  import opened Chunking
  import opened Merging
  import Grouping

  datatype Error =
    | InferenceFailed
    | OneCharacterExceeds  // what cannot be cut has too many tokens

  // What the recognizer was built with. The tokenizer, the model and the objects that explain a
  // finding are given: how many tokens a text is, the labelled tokens the model gives for it,
  // unless it fails, and what is said of a finding of a tag and a score.
  datatype Recognizer = Recognizer(
    chunker: Chunker,
    maxTokens: nat,
    labelMapping: map<string, string>,
    threshold: real,
    tokenCount: string -> nat,
    infer: string -> Option<seq<Grouping.Token>>,
    explain: (string, real) -> int)

  // A token does not start after a later one ends: what a tokenizer gives, in the order of the text.
  ghost predicate InOrder(words: seq<Grouping.Token>) {
    forall i, j :: 0 <= i <= j < |words| ==> words[i].start <= words[j].end
  }

  ghost predicate ValidRecognizer(r: Recognizer) {
    && ValidChunker(r.chunker)
    && (forall text :: r.infer(text).Some? ==> InOrder(Grouping.Words(r.infer(text).value)))
  }

  // ---- One text the model reads whole ----

  function KeptType(r: Recognizer, entity: Grouping.Entity): Option<string> {
    if entity.tag !in r.labelMapping || entity.score < r.threshold then None
    else Some(r.labelMapping[entity.tag])
  }

  // What is kept of the labelled tokens once they are grouped.
  ghost function FindingsOf(r: Recognizer, entities: seq<Grouping.Entity>): seq<Finding> {
    if entities == [] then []
    else
      var before, last := FindingsOf(r, entities[..|entities| - 1]), entities[|entities| - 1];
      match KeptType(r, last)
      case None => before
      case Some(t) => before + [Finding(t, last.start, last.end, last.score, r.explain(last.tag, last.score))]
  }

  // What is kept, told of the entities alone: those whose tag maps to a type and whose score is the
  // threshold at least, each once and in their order, under that type and at their own bounds and score.
  ghost predicate KeptExactly(r: Recognizer, entities: seq<Grouping.Entity>, ranks: seq<int>, findings: seq<Finding>) {
    && |ranks| == |findings|
    && (forall n :: 0 <= n < |ranks| ==> IsKeptAs(r, entities, ranks[n], findings[n]))
    && (forall n, m :: 0 <= n < m < |ranks| ==> ranks[n] < ranks[m])
    && (forall k :: 0 <= k < |entities| && entities[k].tag in r.labelMapping && entities[k].score >= r.threshold ==>
          k in ranks)
  }

  ghost predicate IsKeptAs(r: Recognizer, entities: seq<Grouping.Entity>, k: int, f: Finding) {
    && 0 <= k < |entities|
    && var e := entities[k];
       && e.tag in r.labelMapping && e.score >= r.threshold && f.entityType == r.labelMapping[e.tag]
       && f.start == e.start && f.end == e.end && f.score == e.score && f.explanation == r.explain(e.tag, e.score)
  }

  lemma KeptWithOneMore(
    r: Recognizer, entities: seq<Grouping.Entity>, e: Grouping.Entity, ranks: seq<int>, findings: seq<Finding>)
    requires KeptExactly(r, entities, ranks, findings)
    ensures var more := entities + [e];
            match KeptType(r, e)
            case None => KeptExactly(r, more, ranks, findings)
            case Some(t) => KeptExactly(r, more, ranks + [|entities|],
                                        findings + [Finding(t, e.start, e.end, e.score, r.explain(e.tag, e.score))])
  {
    var more := entities + [e];
    assert forall k :: 0 <= k < |entities| ==> more[k] == entities[k];
    if KeptType(r, e).Some? {
      var longer := ranks + [|entities|];
      forall k | 0 <= k < |more| && more[k].tag in r.labelMapping && more[k].score >= r.threshold
        ensures k in longer
      {
        assert k < |entities| ==> k in ranks;
        assert longer[|ranks|] == |entities|;
      }
    }
  }

  lemma {:induction false} KeptAreKept(r: Recognizer, entities: seq<Grouping.Entity>) returns (ranks: seq<int>)
    ensures KeptExactly(r, entities, ranks, FindingsOf(r, entities))
  {
    if entities == [] {
      ranks := [];
    } else {
      hide KeptExactly;
      var before, last := entities[..|entities| - 1], entities[|entities| - 1];
      ranks := KeptAreKept(r, before);
      KeptWithOneMore(r, before, last, ranks, FindingsOf(r, before));
      assert before + [last] == entities;
      if KeptType(r, last).Some? {
        ranks := ranks + [|before|];
      }
    }
  }

  ghost predicate EntitiesAreOriented(entities: seq<Grouping.Entity>) {
    forall k :: 0 <= k < |entities| ==> entities[k].start <= entities[k].end
  }

  ghost predicate AreOriented(findings: seq<Finding>) {
    forall k :: 0 <= k < |findings| ==> findings[k].start <= findings[k].end
  }

  lemma GroupsAreOriented(words: seq<Grouping.Token>)
    requires InOrder(words)
    ensures forall i :: 0 <= i < |Grouping.Groups(words)| ==>
              Grouping.Groups(words)[i].start <= Grouping.Groups(words)[i].end
  {
    var groups := Grouping.Groups(words);
    forall i | 0 <= i < |groups| ensures groups[i].start <= groups[i].end {
      Grouping.RunsAreRanges(words, i);
      assert groups[i] == Grouping.Run(words, Grouping.Heads(words)[i], Grouping.RunEnd(words, i));
    }
  }

  lemma EntitiesOfOriented(groups: seq<Grouping.Group>)
    requires Grouping.Ranged(groups)
    requires forall i :: 0 <= i < |groups| ==> groups[i].start <= groups[i].end
    ensures EntitiesAreOriented(Grouping.Entities(groups))
  {
    Grouping.EntitiesAreTheLabelledGroups(groups);
  }

  lemma {:induction false} FindingsAreOriented(r: Recognizer, entities: seq<Grouping.Entity>)
    requires EntitiesAreOriented(entities)
    ensures AreOriented(FindingsOf(r, entities))
  {
    if entities != [] {
      FindingsAreOriented(r, entities[..|entities| - 1]);
    }
  }

  // What the model finds in a text.
  ghost function ModelFindings(r: Recognizer, text: string): seq<Finding>
    requires r.infer(text).Some?
  {
    var words := Grouping.Words(r.infer(text).value);
    Grouping.RunsHaveScores(words, Grouping.Groups(words));
    FindingsOf(r, Grouping.Entities(Grouping.Groups(words)))
  }

  lemma ModelFindingsAreOriented(r: Recognizer, text: string)
    requires ValidRecognizer(r) && r.infer(text).Some?
    ensures AreOriented(ModelFindings(r, text))
  {
    var words := Grouping.Words(r.infer(text).value);
    Grouping.RunsHaveScores(words, Grouping.Groups(words));
    GroupsAreOriented(words);
    EntitiesOfOriented(Grouping.Groups(words));
    FindingsAreOriented(r, Grouping.Entities(Grouping.Groups(words)));
  }

  lemma FindingsOfOneMore(r: Recognizer, entities: seq<Grouping.Entity>, n: nat)
    requires n < |entities|
    ensures FindingsOf(r, entities[..n + 1]) ==
            match KeptType(r, entities[n])
            case None => FindingsOf(r, entities[..n])
            case Some(t) => FindingsOf(r, entities[..n])
                            + [Finding(t, entities[n].start, entities[n].end, entities[n].score,
                                       r.explain(entities[n].tag, entities[n].score))]
  {
    hide KeptType;
    assert entities[..n + 1][..n] == entities[..n];
  }

  // The loop that keeps them, one grouped entity after the other.
  method KeepMapped(r: Recognizer, entities: seq<Grouping.Entity>) returns (results: seq<Finding>)
    ensures results == FindingsOf(r, entities)
  {
    hide FindingsOf, KeptType;
    results := [];
    NothingFound(r);
    for n := 0 to |entities|
      invariant results == FindingsOf(r, entities[..n])
    {
      FindingsOfOneMore(r, entities, n);
      var entity := entities[n];
      var entityType := KeptType(r, entity);
      if entityType.None? {
        continue;
      }
      results := results + [Finding(entityType.value, entity.start, entity.end, entity.score,
                                    r.explain(entity.tag, entity.score))];
    }
    assert entities[..|entities|] == entities;
  }

  lemma NothingFound(r: Recognizer)
    ensures FindingsOf(r, []) == []
  {
  }

  // The entities are the labelled runs of the tokens; what is given is what is kept of them.
  ghost predicate KeepsItsEntities(r: Recognizer, tokens: seq<Grouping.Token>, findings: seq<Finding>) {
    var groups := Grouping.Groups(Grouping.Words(tokens));
    Grouping.Ranged(groups) && exists ranks :: KeptExactly(r, Grouping.Entities(groups), ranks, findings)
  }

  lemma ModelFindingsAreKept(r: Recognizer, text: string)
    ensures r.infer(text).Some? ==> KeepsItsEntities(r, r.infer(text).value, ModelFindings(r, text))
  {
    if r.infer(text).Some? {
      var groups := Grouping.Groups(Grouping.Words(r.infer(text).value));
      Grouping.RunsHaveScores(Grouping.Words(r.infer(text).value), groups);
      var ranks := KeptAreKept(r, Grouping.Entities(groups));
    }
  }

  // The model is only ever asked about a text that fits its window.
  method PredictWhole(r: Recognizer, text: string) returns (result: Result<seq<Finding>, Error>)
    requires ValidRecognizer(r) && Fits(r, text)
    ensures result.Success? <==> r.infer(text).Some?
    ensures result.Success? ==> result.value == ModelFindings(r, text) && AreOriented(result.value)
    ensures result.Success? ==> KeepsItsEntities(r, r.infer(text).value, result.value)
    ensures result.Failure? ==> result.error == InferenceFailed
  {
    ModelFindingsAreKept(r, text);
    hide KeepsItsEntities, ValidRecognizer, AreOriented, FindingsOf, Grouping.Words, Grouping.Groups,
         Grouping.Entities, Fits;
    var inferred := r.infer(text);
    if inferred.None? {
      return Failure(InferenceFailed);
    }
    ModelFindingsAreOriented(r, text);
    var entities := Grouping.Grouped(inferred.value);
    var results := KeepMapped(r, entities);
    return Success(results);
  }

  // ---- The texts handed to the model ----

  // A piece of a text.
  datatype Leaf = Leaf(start: nat, end: nat)

  function Fits(r: Recognizer, text: string): bool {
    r.tokenCount(text) <= r.maxTokens
  }

  // The chunker of a text whose tokens exceed the window.
  function Halves(r: Recognizer, text: string): Chunker
    requires ValidChunker(r.chunker) && |text| / 2 != 0
  {
    var size := |text| / 2;
    Chunker(size, if r.chunker.chunkOverlap < size / 2 then r.chunker.chunkOverlap else size / 2,
            r.chunker.boundaryChars)
  }

  ghost function Shifted(leaves: seq<Leaf>, offset: nat): seq<Leaf> {
    seq(|leaves|, k requires 0 <= k < |leaves| => Leaf(leaves[k].start + offset, leaves[k].end + offset))
  }

  ghost predicate Shorter(chunks: seq<Chunk>, limit: nat) {
    forall k :: 0 <= k < |chunks| ==> |chunks[k].text| < limit
  }

  lemma ChunksAreShorter(c: Chunker, text: string, limit: nat)
    requires ValidChunker(c) && c.chunkSize < limit
    ensures Shorter(Chunks(c, text), limit)
  {
    ChunksCoverTheText(c, text);
  }

  // The pieces a chunk ends up as: itself when it fits, or when it cannot be cut.
  ghost function Leaves(r: Recognizer, text: string): seq<Leaf>
    requires ValidChunker(r.chunker)
    decreases |text| + 1, 0
  {
    if Fits(r, text) || |text| / 2 == 0 then [Leaf(0, |text|)]
    else
      LeavesWithin(r, Halves(r, text), text)
  }

  // The pieces of a text that is cut by a chunker.
  ghost function LeavesWithin(r: Recognizer, c: Chunker, text: string): seq<Leaf>
    requires ValidChunker(r.chunker) && ValidChunker(c)
    decreases c.chunkSize + 1, |Chunks(c, text)| + 2
  {
    ChunksAreShorter(c, text, c.chunkSize + 1);
    LeavesOf(r, Chunks(c, text), c.chunkSize + 1)
  }

  ghost function LeavesOf(r: Recognizer, chunks: seq<Chunk>, limit: nat): seq<Leaf>
    requires ValidChunker(r.chunker) && Shorter(chunks, limit)
    decreases limit, |chunks| + 1
  {
    if chunks == [] then []
    else
      var last := chunks[|chunks| - 1];
      LeavesOf(r, chunks[..|chunks| - 1], limit) + Shifted(Leaves(r, last.text), last.start)
  }

  // A text whose tokens are within the window is one piece.
  lemma WholeWhenItFits(r: Recognizer, text: string)
    requires ValidChunker(r.chunker) && r.tokenCount(text) <= r.maxTokens
    ensures Leaves(r, text) == [Leaf(0, |text|)]
  {
  }

  // Cut in halves, no half has more than half the characters, and a span as short as the overlap of the
  // chunks and as a quarter of the text is whole in one of them.
  lemma HalvesHoldSpans(r: Recognizer, text: string, from: nat, to: nat)
    requires ValidChunker(r.chunker) && |text| / 2 != 0 && from <= to <= |text|
    requires to - from <= r.chunker.chunkOverlap && to - from <= |text| / 4
    ensures var halves := Chunks(Halves(r, text), text);
            && (forall k :: 0 <= k < |halves| ==> |halves[k].text| <= |text| / 2)
            && exists k :: 0 <= k < |halves| && halves[k].start <= from && to <= halves[k].end
  {
    ChunksCoverTheText(Halves(r, text), text);
    SpanIsWholeInAChunk(Halves(r, text), text, from, to);
    hide Chunks;
  }

  ghost predicate SlicesOf(text: string, chunks: seq<Chunk>) {
    forall k :: 0 <= k < |chunks| ==>
      && chunks[k].start <= chunks[k].end <= |text|
      && chunks[k].text == text[chunks[k].start..chunks[k].end]
  }

  lemma ChunksAreSlices(c: Chunker, text: string)
    requires ValidChunker(c)
    ensures SlicesOf(text, Chunks(c, text))
  {
    ChunksCoverTheText(c, text);
  }

  // A piece within the window, or one that cannot be cut again.
  ghost predicate LeafOk(r: Recognizer, text: string, leaf: Leaf) {
    && leaf.start <= leaf.end <= |text|
    && (Fits(r, text[leaf.start..leaf.end]) || leaf.end - leaf.start <= 1)
  }

  ghost predicate LeavesOk(r: Recognizer, text: string, leaves: seq<Leaf>) {
    forall k :: 0 <= k < |leaves| ==> LeafOk(r, text, leaves[k])
  }

  lemma SliceOfASlice(text: string, from: nat, to: nat, leaf: Leaf)
    requires from <= to <= |text| && leaf.start <= leaf.end <= to - from
    ensures text[from..to][leaf.start..leaf.end] == text[from + leaf.start..from + leaf.end]
  {
  }

  lemma ShiftedAreOk(r: Recognizer, text: string, chunk: Chunk, leaves: seq<Leaf>)
    requires SlicesOf(text, [chunk]) && LeavesOk(r, chunk.text, leaves)
    ensures LeavesOk(r, text, Shifted(leaves, chunk.start))
  {
    assert [chunk][0] == chunk;
    forall k | 0 <= k < |leaves| ensures LeafOk(r, text, Shifted(leaves, chunk.start)[k]) {
      assert LeafOk(r, chunk.text, leaves[k]);
      SliceOfASlice(text, chunk.start, chunk.end, leaves[k]);
    }
  }

  lemma LastSlice(text: string, chunks: seq<Chunk>)
    requires SlicesOf(text, chunks) && chunks != []
    ensures SlicesOf(text, [chunks[|chunks| - 1]]) && SlicesOf(text, chunks[..|chunks| - 1])
  {
    assert [chunks[|chunks| - 1]][0] == chunks[|chunks| - 1];
  }

  lemma WholeIsOk(r: Recognizer, text: string)
    requires Fits(r, text) || |text| / 2 == 0
    ensures LeavesOk(r, text, [Leaf(0, |text|)])
  {
    assert text[0..|text|] == text;
  }

  // Every text handed to the model fits its window; what does not is a single character, or none.
  lemma {:induction false} LeavesAreOk(r: Recognizer, text: string)
    requires ValidChunker(r.chunker)
    ensures LeavesOk(r, text, Leaves(r, text))
    decreases |text| + 1, 0
  {
    if Fits(r, text) || |text| / 2 == 0 {
      WholeIsOk(r, text);
    } else {
      LeavesWithinAreOk(r, Halves(r, text), text);
    }
  }

  lemma {:induction false} LeavesWithinAreOk(r: Recognizer, c: Chunker, text: string)
    requires ValidChunker(r.chunker) && ValidChunker(c)
    ensures LeavesOk(r, text, LeavesWithin(r, c, text))
    decreases c.chunkSize + 1, |Chunks(c, text)| + 2
  {
    ChunksAreShorter(c, text, c.chunkSize + 1);
    ChunksAreSlices(c, text);
    LeavesOfAreOk(r, text, Chunks(c, text), c.chunkSize + 1);
  }

  lemma {:induction false} LeavesOfAreOk(r: Recognizer, text: string, chunks: seq<Chunk>, limit: nat)
    requires ValidChunker(r.chunker) && Shorter(chunks, limit) && SlicesOf(text, chunks)
    ensures LeavesOk(r, text, LeavesOf(r, chunks, limit))
    decreases limit, |chunks| + 1
  {
    if chunks != [] {
      var last := chunks[|chunks| - 1];
      LastSlice(text, chunks);
      LeavesOfAreOk(r, text, chunks[..|chunks| - 1], limit);
      LeavesAreOk(r, last.text);
      ShiftedAreOk(r, text, last, Leaves(r, last.text));
      hide SlicesOf, LeafOk, Leaves;
    }
  }

  ghost predicate CoveredBy(leaves: seq<Leaf>, character: int) {
    exists k :: 0 <= k < |leaves| && leaves[k].start <= character < leaves[k].end
  }

  // Every character of a text lies in one of the texts handed to the model.
  lemma {:induction false} LeavesCover(r: Recognizer, text: string, character: nat)
    requires ValidChunker(r.chunker) && character < |text|
    ensures CoveredBy(Leaves(r, text), character)
    decreases |text| + 1, 0
  {
    if Fits(r, text) || |text| / 2 == 0 {
      assert Leaves(r, text)[0] == Leaf(0, |text|);
    } else {
      LeavesWithinCover(r, Halves(r, text), text, character);
    }
  }

  lemma ChunkOf(c: Chunker, text: string, character: nat) returns (k: nat)
    requires ValidChunker(c) && character < |text|
    ensures k < |Chunks(c, text)|
    ensures var chunk := Chunks(c, text)[k]; chunk.start <= character < chunk.start + |chunk.text|
  {
    hide ValidChunker, Chunks;
    SpanIsWholeInAChunk(c, text, character, character + 1);
    var chunks := Chunks(c, text);
    k :| 0 <= k < |chunks| && chunks[k].start <= character && character + 1 <= chunks[k].end;
    ChunksAreSlices(c, text);
  }

  lemma {:induction false} LeavesWithinCover(r: Recognizer, c: Chunker, text: string, character: nat)
    requires ValidChunker(r.chunker) && ValidChunker(c) && character < |text|
    ensures CoveredBy(LeavesWithin(r, c, text), character)
    decreases c.chunkSize + 1, |Chunks(c, text)| + 2
  {
    hide ValidChunker, Chunks, Shorter, SlicesOf, CoveredBy, LeavesOf;
    ChunksAreShorter(c, text, c.chunkSize + 1);
    var k := ChunkOf(c, text, character);
    LeavesOfCover(r, Chunks(c, text), c.chunkSize + 1, k, character);
  }

  lemma ShiftedCover(leaves: seq<Leaf>, offset: nat, character: nat)
    requires offset <= character && CoveredBy(leaves, character - offset)
    ensures CoveredBy(Shifted(leaves, offset), character)
  {
    var k :| 0 <= k < |leaves| && leaves[k].start <= character - offset < leaves[k].end;
    assert Shifted(leaves, offset)[k].start <= character < Shifted(leaves, offset)[k].end;
  }

  lemma CoveredByEither(a: seq<Leaf>, b: seq<Leaf>, character: int)
    requires CoveredBy(a, character) || CoveredBy(b, character)
    ensures CoveredBy(a + b, character)
  {
    if CoveredBy(a, character) {
      var k :| 0 <= k < |a| && a[k].start <= character < a[k].end;
      assert (a + b)[k] == a[k];
    } else {
      var k :| 0 <= k < |b| && b[k].start <= character < b[k].end;
      assert (a + b)[|a| + k] == b[k];
    }
  }

  lemma {:induction false} LeavesOfCover(r: Recognizer, chunks: seq<Chunk>, limit: nat, k: nat, character: nat)
    requires ValidChunker(r.chunker) && Shorter(chunks, limit) && k < |chunks|
    requires chunks[k].start <= character < chunks[k].start + |chunks[k].text|
    ensures CoveredBy(LeavesOf(r, chunks, limit), character)
    decreases limit, |chunks| + 1
  {
    var last := chunks[|chunks| - 1];
    var before := LeavesOf(r, chunks[..|chunks| - 1], limit);
    if k < |chunks| - 1 {
      LeavesOfCover(r, chunks[..|chunks| - 1], limit, k, character);
    } else {
      LeavesCover(r, last.text, character - last.start);
      ShiftedCover(Leaves(r, last.text), last.start, character);
    }
    CoveredByEither(before, Shifted(Leaves(r, last.text), last.start), character);
  }
}
