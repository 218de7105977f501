// The bounded chunker: how a text is cut into overlapping chunks of at most `chunkSize`
// characters, on word boundaries when there are some.
module Chunking {

  // The settings of a chunker. They never change once it is built.
  datatype Chunker = Chunker(chunkSize: nat, chunkOverlap: nat, boundaryChars: seq<char>)

  datatype Chunk = Chunk(text: string, start: nat, end: nat)

  // What the constructor of the chunker guarantees.
  predicate ValidChunker(c: Chunker) {
    c.chunkOverlap < c.chunkSize && c.boundaryChars != []
  }

  // The most characters the overlap of two chunks may have beyond `chunkOverlap`.
  function StartReach(c: Chunker): (reach: nat)
    requires ValidChunker(c)
    ensures reach <= c.chunkOverlap && c.chunkOverlap + reach < c.chunkSize
  {
    if c.chunkOverlap < c.chunkSize - c.chunkOverlap - 1
    then c.chunkOverlap
    else c.chunkSize - c.chunkOverlap - 1
  }

  // It is the greatest that is not past the overlap itself and leaves room for a chunk to end past the start
  // of the next one.
  lemma StartReachIsTheMost(c: Chunker, reach: nat)
    requires ValidChunker(c)
    ensures reach <= c.chunkOverlap && c.chunkOverlap + reach < c.chunkSize <==> reach <= StartReach(c)
  {
  }

  // Of two ends with one more between them, the second is past the first by more than this.
  function Step(c: Chunker): (step: nat)
    requires ValidChunker(c)
    ensures 1 <= step <= c.chunkSize
  {
    c.chunkSize - c.chunkOverlap - StartReach(c)
  }

  function MostChunks(c: Chunker, length: nat): nat
    requires ValidChunker(c)
  {
    2 * (length / Step(c) + 1) + 1
  }

  // The last index of a character within [low, high), or -1.
  function Rfind(text: string, char_: char, low: nat, high: nat): (k: int)
    requires high <= |text|
    ensures k == -1 || (low <= k < high && text[k] == char_)
    decreases high
  {
    if high <= low then -1
    else if text[high - 1] == char_ then high - 1
    else Rfind(text, char_, low, high - 1)
  }

  // The last index of any boundary character within [low, high), or -1. The bounds are natural
  // numbers: a negative one would be counted from the end of the text.
  function LastBoundary(text: string, chars: seq<char>, low: nat, high: nat): (k: int)
    requires chars != [] && high <= |text|
    ensures k == -1 || (low <= k < high && text[k] in chars)
  {
    var first := Rfind(text, chars[0], low, high);
    if |chars| == 1 then first
    else
      var others := LastBoundary(text, chars[1..], low, high);
      if first < others then others else first
  }

  lemma {:induction false} NothingAfterRfind(text: string, char_: char, low: nat, high: nat, i: nat)
    requires high <= |text| && low <= i < high && Rfind(text, char_, low, high) < i
    ensures text[i] != char_
    decreases high
  {
    if i < high - 1 {
      NothingAfterRfind(text, char_, low, high - 1, i);
    }
  }

  // It is the last one: no boundary character stands after it within the bounds.
  lemma {:induction false} NoBoundaryAfterTheLast(text: string, chars: seq<char>, low: nat, high: nat, i: nat)
    requires chars != [] && high <= |text|
    requires low <= i < high && LastBoundary(text, chars, low, high) < i
    ensures text[i] !in chars
  {
    NothingAfterRfind(text, chars[0], low, high, i);
    if |chars| > 1 {
      NoBoundaryAfterTheLast(text, chars[1..], low, high, i);
    }
  }

  // Where the chunk that starts at `start` ends: on the last boundary in reach, and at the full
  // size without one.
  ghost function ChunkEnd(c: Chunker, text: string, start: nat): (end: nat)
    requires ValidChunker(c) && start < |text|
    ensures start < end <= |text| && end - start <= c.chunkSize
    ensures end < |text| ==> start + c.chunkOverlap + StartReach(c) < end
  {
    if start + c.chunkSize >= |text| then |text|
    else
      var cut := LastBoundary(text, c.boundaryChars, start + c.chunkOverlap + StartReach(c) + 1,
                              start + c.chunkSize + 1);
      if cut != -1 then cut else start + c.chunkSize
  }

  // Where the chunk after one that ends at `end` starts: the nearest word start within reach
  // before the fixed start, and the fixed start without one.
  ghost function NextStart(c: Chunker, text: string, end: nat): (next: nat)
    requires ValidChunker(c) && end < |text|
    requires c.chunkOverlap + StartReach(c) < end
    ensures end - c.chunkOverlap - StartReach(c) <= next <= end - c.chunkOverlap
  {
    var fixed := end - c.chunkOverlap;
    var beforeWord := LastBoundary(text, c.boundaryChars, fixed - StartReach(c) - 1, fixed);
    if beforeWord != -1 then beforeWord + 1 else fixed
  }

  ghost predicate NoBoundary(c: Chunker, text: string, low: int, high: int) {
    forall i :: low <= i < high && 0 <= i < |text| ==> text[i] !in c.boundaryChars
  }

  lemma LastBoundaryIsLast(c: Chunker, text: string, low: nat, high: nat)
    requires ValidChunker(c) && high <= |text|
    ensures var k := LastBoundary(text, c.boundaryChars, low, high);
      NoBoundary(c, text, if k == -1 then low else k + 1, high)
  {
    var k := LastBoundary(text, c.boundaryChars, low, high);
    forall i | (if k == -1 then low else k + 1) <= i < high && 0 <= i < |text|
      ensures text[i] !in c.boundaryChars
    {
      NoBoundaryAfterTheLast(text, c.boundaryChars, low, high, i);
    }
  }

  // A chunk before the last ends on a boundary character and none stands after it within its size,
  // or has its full size and none stands where it could end.
  lemma EndsOnTheLastBoundary(c: Chunker, text: string, start: nat)
    requires ValidChunker(c) && start < |text| && ChunkEnd(c, text, start) < |text|
    ensures var end, full := ChunkEnd(c, text, start), start + c.chunkSize;
      || (text[end] in c.boundaryChars && NoBoundary(c, text, end + 1, full + 1))
      || (end == full && NoBoundary(c, text, start + c.chunkOverlap + StartReach(c) + 1, full + 1))
  {
    LastBoundaryIsLast(c, text, start + c.chunkOverlap + StartReach(c) + 1, start + c.chunkSize + 1);
  }

  // A chunk is the last exactly when what is left of the text fits in it.
  lemma TheRestFits(c: Chunker, text: string, start: nat)
    requires ValidChunker(c) && start < |text|
    ensures ChunkEnd(c, text, start) == |text| <==> |text| - start <= c.chunkSize
  {
  }

  // The next chunk begins after a boundary character, the nearest before its fixed start, or at that
  // fixed start and none stands within reach.
  lemma BeginsTheNearestWord(c: Chunker, text: string, end: nat)
    requires ValidChunker(c) && end < |text| && c.chunkOverlap + StartReach(c) < end
    ensures var next, fixed := NextStart(c, text, end), end - c.chunkOverlap;
      || (0 < next && text[next - 1] in c.boundaryChars && NoBoundary(c, text, next, fixed))
      || (next == fixed && NoBoundary(c, text, fixed - StartReach(c) - 1, fixed))
  {
    hide NoBoundary, StartReach;
    var fixed := end - c.chunkOverlap;
    LastBoundaryIsLast(c, text, fixed - StartReach(c) - 1, fixed);
  }

  ghost function ChunksFrom(c: Chunker, text: string, start: nat): seq<Chunk>
    requires ValidChunker(c) && start <= |text|
    decreases |text| - start
  {
    if start == |text| then []
    else
      var end := ChunkEnd(c, text, start);
      var chunk := Chunk(text[start..end], start, end);
      if end == |text| then [chunk] else [chunk] + ChunksFrom(c, text, NextStart(c, text, end))
  }

  // The chunks of a text.
  ghost function Chunks(c: Chunker, text: string): seq<Chunk>
    requires ValidChunker(c)
  {
    ChunksFrom(c, text, 0)
  }

  // A chunk that ends where it should.
  ghost predicate WellCut(c: Chunker, text: string, chunk: Chunk)
    requires ValidChunker(c)
  {
    chunk.start < |text| && chunk.end == ChunkEnd(c, text, chunk.start) && chunk.text == text[chunk.start..chunk.end]
  }

  // A chunk that does not reach the end of the text, and the one after it.
  ghost predicate Follows(c: Chunker, text: string, chunk: Chunk, next: Chunk)
    requires ValidChunker(c)
  {
    && WellCut(c, text, chunk) && WellCut(c, text, next)
    && chunk.end < |text| && next.start == NextStart(c, text, chunk.end)
  }

  ghost predicate Succession(c: Chunker, text: string, chunks: seq<Chunk>)
    requires ValidChunker(c)
  {
    && chunks != []
    && WellCut(c, text, chunks[0])
    && (forall k, next :: 0 <= k && next == k + 1 < |chunks| ==> Follows(c, text, chunks[k], chunks[next]))
    && chunks[|chunks| - 1].end == |text|
  }

  lemma {:induction false} ChunksAreInSuccession(c: Chunker, text: string, start: nat)
    requires ValidChunker(c) && start < |text|
    ensures Succession(c, text, ChunksFrom(c, text, start))
    ensures ChunksFrom(c, text, start)[0].start == start
    decreases |text| - start
  {
    var end := ChunkEnd(c, text, start);
    if end < |text| {
      var next := NextStart(c, text, end);
      ChunksAreInSuccession(c, text, next);
      var chunks, rest := ChunksFrom(c, text, start), ChunksFrom(c, text, next);
      assert chunks == [Chunk(text[start..end], start, end)] + rest;
      forall k, following | 0 <= k && following == k + 1 < |chunks|
        ensures Follows(c, text, chunks[k], chunks[following])
      {
        if k > 0 {
          assert chunks[k] == rest[k - 1] && chunks[following] == rest[k];
        }
      }
    }
  }

  // What a caller sees of two neighbours.
  ghost predicate Advance(c: Chunker, chunk: Chunk, next: Chunk) {
    && chunk.start < next.start && chunk.end < next.end
    && next.start + c.chunkOverlap <= chunk.end
  }

  // The chunks cover the text from its first character to its last, their starts and their ends
  // strictly increase, each has from 1 to `chunkSize` characters, and neighbours share at least
  // `chunkOverlap` of them.
  ghost predicate CoversInOrder(c: Chunker, text: string, chunks: seq<Chunk>) {
    && (chunks == [] <==> text == "")
    && (text != "" ==> chunks[0].start == 0 && chunks[|chunks| - 1].end == |text|)
    && (forall k :: 0 <= k < |chunks| ==>
          && chunks[k].start < chunks[k].end <= |text|
          && chunks[k].end - chunks[k].start <= c.chunkSize
          && chunks[k].text == text[chunks[k].start..chunks[k].end])
    && (forall k, next :: 0 <= k && next == k + 1 < |chunks| ==> Advance(c, chunks[k], chunks[next]))
  }

  lemma ChunksCoverTheText(c: Chunker, text: string)
    requires ValidChunker(c)
    ensures CoversInOrder(c, text, Chunks(c, text))
  {
    if text != "" {
      var chunks := Chunks(c, text);
      ChunksAreInSuccession(c, text, 0);
      forall k | 0 <= k < |chunks| ensures WellCut(c, text, chunks[k]) {
        if k > 0 {
          assert Follows(c, text, chunks[k - 1], chunks[k]);
        }
      }
    }
  }

  // Every character of the text is in a chunk, and so is every span of at most `chunkOverlap`
  // characters, whole.
  lemma SpanIsWholeInAChunk(c: Chunker, text: string, from: nat, to: nat)
    requires ValidChunker(c)
    requires text != "" && from <= to <= |text|
    requires to - from <= c.chunkOverlap || to - from <= 1
    ensures exists k :: 0 <= k < |Chunks(c, text)|
                        && Chunks(c, text)[k].start <= from && to <= Chunks(c, text)[k].end
  {
    var chunks := Chunks(c, text);
    ChunksCoverTheText(c, text);
    var k := 0;
    while k < |chunks| - 1 && chunks[k + 1].start <= from
      invariant 0 <= k < |chunks| && chunks[k].start <= from
    {
      k := k + 1;
    }
    assert k + 1 < |chunks| ==> Advance(c, chunks[k], chunks[k + 1]);
  }

  // The amortized advance: short of the end of the text, two ends with one more between them are
  // more than a step apart.
  lemma TwoChunksAdvanceByAStep(c: Chunker, text: string, first: Chunk, second: Chunk, third: Chunk)
    requires ValidChunker(c)
    requires Follows(c, text, first, second) && Follows(c, text, second, third)
    requires third.end < |text|
    ensures first.end + Step(c) < third.end
  {
    ThirdIsOutOfReach(c, text, second, third);
    assert second.start == NextStart(c, text, first.end);
    hide NextStart, ChunkEnd, StartReach;
  }

  // A third chunk that ended within reach of the second would end on a boundary, and the second
  // would have ended there.
  lemma ThirdIsOutOfReach(c: Chunker, text: string, second: Chunk, third: Chunk)
    requires ValidChunker(c) && Follows(c, text, second, third) && third.end < |text|
    ensures second.start + c.chunkSize < third.end
  {
    hide NextStart, StartReach, ChunkEnd, NoBoundary;
    EndsOnTheLastBoundary(c, text, second.start);
    EndsOnTheLastBoundary(c, text, third.start);
    assert second.start < third.start && second.end < third.end;
    if third.end <= second.start + c.chunkSize {
      IsNoBoundary(c, text, second.end + 1, second.start + c.chunkSize + 1, third.end);
    }
  }

  lemma IsNoBoundary(c: Chunker, text: string, low: int, high: int, i: int)
    requires low <= i < high && 0 <= i < |text|
    ensures NoBoundary(c, text, low, high) ==> text[i] !in c.boundaryChars
  {
  }

  // Every chunk but the last reaches past as many steps as half its rank.
  lemma {:induction false} EndsAfter(ends: seq<nat>, step: nat, j: nat)
    requires forall k, third :: 0 <= k && third == k + 2 < |ends| ==> ends[k] + step < ends[third]
    requires 2 * j < |ends|
    ensures j * step <= ends[2 * j]
  {
    if j > 0 {
      EndsAfter(ends, step, j - 1);
      assert ends[2 * (j - 1)] + step < ends[2 * j];
      Distributes(j - 1, step);
    }
  }

  lemma Distributes(j: nat, step: nat)
    ensures (j + 1) * step == j * step + step
  {
  }

  lemma StepsOfALength(length: nat, step: nat)
    requires 1 <= step
    ensures length < (length / step + 1) * step
  {
    assert length == (length / step) * step + length % step;
    Distributes(length / step, step);
  }

  // `MostChunks` bounds the number of chunks of any text.
  lemma {:induction false} ChunksAreBounded(c: Chunker, text: string)
    requires ValidChunker(c)
    ensures |Chunks(c, text)| <= MostChunks(c, |text|)
  {
    if text != "" {
      ChunksAreInSuccession(c, text, 0);
      NoChunkPastTheBound(c, text, Chunks(c, text), Step(c));
    }
  }

  lemma NoChunkPastTheBound(c: Chunker, text: string, chunks: seq<Chunk>, step: nat)
    requires ValidChunker(c) && Succession(c, text, chunks)
    requires step == Step(c)
    ensures |chunks| <= 2 * (|text| / step + 1) + 1
  {
    var last := |chunks| - 1;
    var ends := seq(last, k requires 0 <= k < last => chunks[k].end);
    forall k, third | 0 <= k && third == k + 2 < |ends| ensures ends[k] + step < ends[third] {
      EndsAdvance(c, text, chunks, k);
    }
    if last > 0 {
      EndsAreWithin(c, text, chunks, ends);
    }
    hide Succession, Step;
    NoEndPastTheText(ends, |text|, step);
  }

  lemma EndsAdvance(c: Chunker, text: string, chunks: seq<Chunk>, k: nat)
    requires ValidChunker(c) && Succession(c, text, chunks) && k + 3 < |chunks|
    ensures chunks[k].end + Step(c) < chunks[k + 2].end
  {
    assert Follows(c, text, chunks[k], chunks[k + 1]);
    assert Follows(c, text, chunks[k + 1], chunks[k + 2]);
    assert Follows(c, text, chunks[k + 2], chunks[k + 3]);
    TwoChunksAdvanceByAStep(c, text, chunks[k], chunks[k + 1], chunks[k + 2]);
  }

  lemma EndsAreWithin(c: Chunker, text: string, chunks: seq<Chunk>, ends: seq<nat>)
    requires ValidChunker(c) && Succession(c, text, chunks) && |ends| == |chunks| - 1
    requires forall k :: 0 <= k < |ends| ==> ends[k] == chunks[k].end
    ensures forall k :: 0 <= k < |ends| ==> ends[k] < |text|
  {
    forall k | 0 <= k < |ends| ensures ends[k] < |text| {
      assert Follows(c, text, chunks[k], chunks[k + 1]);
    }
  }

  lemma NoEndPastTheText(ends: seq<nat>, length: nat, step: nat)
    requires 1 <= step
    requires forall k, third :: 0 <= k && third == k + 2 < |ends| ==> ends[k] + step < ends[third]
    requires forall k :: 0 <= k < |ends| ==> ends[k] < length
    ensures |ends| <= 2 * (length / step + 1)
  {
    var steps := length / step + 1;
    if 2 * steps < |ends| {
      StepsOfALength(length, step);
      EndsAfter(ends, step, steps);
    }
  }

  // One turn of the loop, its first half: `ChunkEnd` computed with the bounded searches.
  method FindEnd(c: Chunker, text: string, start: nat) returns (end: nat)
    requires ValidChunker(c) && start < |text|
    ensures end == ChunkEnd(c, text, start)
  {
    end := if start + c.chunkSize < |text| then start + c.chunkSize else |text|;
    if end < |text| {
      // Below this bound `NextStart` would be `start` again, or less.
      var closest := start + c.chunkOverlap + StartReach(c) + 1;
      var cut := LastBoundary(text, c.boundaryChars, closest, end + 1);
      if cut != -1 {
        end := cut;
      }
    }
  }

  // The start of the chunk after one that ends at `end`.
  method FindFollowing(c: Chunker, text: string, end: nat) returns (following: nat)
    requires ValidChunker(c) && end < |text| && c.chunkOverlap + StartReach(c) < end
    ensures following == NextStart(c, text, end)
  {
    following := end - c.chunkOverlap;
    var beforeWord := LastBoundary(text, c.boundaryChars, following - StartReach(c) - 1, following);
    if beforeWord != -1 {
      following := beforeWord + 1;
    }
  }

  lemma FirstChunkOf(c: Chunker, text: string, start: nat)
    requires ValidChunker(c) && start < |text|
    ensures var end := ChunkEnd(c, text, start);
            ChunksFrom(c, text, start) ==
            [Chunk(text[start..end], start, end)]
            + if end == |text| then [] else ChunksFrom(c, text, NextStart(c, text, end))
  {
    hide ChunkEnd, NextStart, StartReach;
  }

  lemma Associative(a: seq<Chunk>, b: seq<Chunk>, c: seq<Chunk>)
    ensures a + (b + c) == (a + b) + c
    ensures a + (b + []) == a + b
  {
  }

  lemma Unrolled(c: Chunker, text: string, start: nat, before: seq<Chunk>)
    requires ValidChunker(c) && start < |text|
    ensures var end := ChunkEnd(c, text, start);
            var upToHere := before + [Chunk(text[start..end], start, end)];
            before + ChunksFrom(c, text, start) ==
            if end == |text| then upToHere else upToHere + ChunksFrom(c, text, NextStart(c, text, end))
    ensures ChunksFrom(c, text, start) != []
  {
    FirstChunkOf(c, text, start);
    hide ChunkEnd, NextStart, StartReach, ChunksFrom;
    var end := ChunkEnd(c, text, start);
    var rest := if end == |text| then [] else ChunksFrom(c, text, NextStart(c, text, end));
    Associative(before, [Chunk(text[start..end], start, end)], rest);
  }

  // The loop of the chunker. Both branches that raise an error are shown to be dead.
  method SplitIntoChunks(c: Chunker, text: string) returns (chunks: seq<Chunk>)
    requires ValidChunker(c)
    ensures chunks == Chunks(c, text)
  {
    ChunksAreBounded(c, text);
    hide *;
    chunks := [];
    var start := 0;
    while start < |text|
      invariant 0 <= start <= |text|
      invariant chunks + ChunksFrom(c, text, start) == Chunks(c, text)
      decreases |text| - start
    {
      if |chunks| >= MostChunks(c, |text|) {
        assert false;  // the first error: `MostChunks` is passed
      }
      var end := FindEnd(c, text, start);
      Unrolled(c, text, start, chunks);
      chunks := chunks + [Chunk(text[start..end], start, end)];
      if end >= |text| {
        break;
      }
      var following := FindFollowing(c, text, end);
      if following <= start {
        assert false;  // the second error: `next <= start`
      }
      start := following;
    }
  }
}
