// What the grouping makes of the tokens, told of their names, bounds and scores alone.
module GroupedTokens {
  import opened Grouping

  // A name that starts with "B-" or "I-" is one of the tag that follows, and any other is its own tag.
  lemma NamesAreRead(name: string)
    ensures Begins(name) <==> "B-" <= name
    ensures "B-" <= name || "I-" <= name ==> name == name[..2] + Tag(name)
    ensures !("B-" <= name) && !("I-" <= name) ==> Tag(name) == name
  {
    assert "B-" <= name ==> name[..2] == "B-";
    assert "I-" <= name ==> name[..2] == "I-";
  }

  // Two neighbours are in one run exactly when they are of one tag and the second does not begin another.
  lemma NeighboursShareARun(words: seq<Token>, k: nat)
    requires 0 < k < |words|
    ensures (exists i :: InRun(words, i, k - 1) && InRun(words, i, k)) <==>
            Tag(words[k].name) == Tag(words[k - 1].name) && !("B-" <= words[k].name)
  {
    NamesAreRead(words[k].name);
    var i := RunOf(words, k);
    RunHasNoHead(words, i);
    if Heads(words)[i] == k {
      StartsItsRun(words, i, k);
      assert Head(words, k);
    } else {
      assert InRun(words, i, k - 1);
      assert !Head(words, k);
    }
  }

  lemma StartsItsRun(words: seq<Token>, i: nat, k: nat)
    requires 0 < k < |words| && InRun(words, i, k) && Heads(words)[i] == k
    ensures Head(words, k) && forall j :: !(InRun(words, j, k - 1) && InRun(words, j, k))
  {
    HeadsAreTheHeads(words);
    assert k in Heads(words);
    forall j ensures !(InRun(words, j, k - 1) && InRun(words, j, k)) {
      if InRun(words, j, k) {
        OneRunOnly(words, i, j, k);
      }
    }
  }

  // From the start of a word to the end of another, with the score of each.
  ghost predicate SpansWords(words: seq<Token>, g: Group, from: int, to: int) {
    && 0 <= from < to <= |words| && g.start == words[from].start && g.end == words[to - 1].end
    && |g.scores| == to - from && (forall k :: 0 <= k < to - from ==> g.scores[k] == words[from + k].score)
  }

  // A run goes from its first word to its last.
  lemma RunSpansItsWords(words: seq<Token>, i: nat)
    requires i < |Groups(words)|
    ensures i < |Heads(words)| && SpansWords(words, Groups(words)[i], Heads(words)[i], RunEnd(words, i))
  {
    hide RunsOf, Run, Heads, RunEnd, SpansWords;
    GroupIsARun(words, Groups(words), i);
    RunSpans(words, Heads(words)[i], RunEnd(words, i));
  }

  lemma GroupIsARun(words: seq<Token>, groups: seq<Group>, i: nat)
    requires RunsOf(words, groups) && i < |groups|
    ensures |groups| == |Heads(words)| && 0 <= Heads(words)[i] < RunEnd(words, i) <= |words|
    ensures groups[i] == Run(words, Heads(words)[i], RunEnd(words, i))
  {
    hide Run, Heads, RunEnd;
  }

  lemma RunSpans(words: seq<Token>, from: int, to: int)
    requires 0 <= from < to <= |words|
    ensures SpansWords(words, Run(words, from, to), from, to)
  {
    assert |words[from..to]| == to - from;
  }

  // ---- The words ----

  // The words are the tokens at some ranks, in their order.
  ghost predicate AtRanks(tokens: seq<Token>, words: seq<Token>, ranks: seq<int>) {
    && |ranks| == |words|
    && (forall n :: 0 <= n < |ranks| ==> 0 <= ranks[n] < |tokens| && tokens[ranks[n]] == words[n])
    && (forall n, m :: 0 <= n < m < |ranks| ==> ranks[n] < ranks[m])
  }

  ghost predicate AreNotSpecial(tokens: seq<Token>, ranks: seq<int>) {
    forall k :: k in ranks <==> 0 <= k < |tokens| && !tokens[k].special
  }

  lemma OneMoreToken(tokens: seq<Token>, words: seq<Token>, ranks: seq<int>, token: Token)
    requires AtRanks(tokens, words, ranks) && AreNotSpecial(tokens, ranks)
    ensures token.special ==> AtRanks(tokens + [token], words, ranks) && AreNotSpecial(tokens + [token], ranks)
    ensures !token.special ==>
              && AtRanks(tokens + [token], words + [token], ranks + [|tokens|])
              && AreNotSpecial(tokens + [token], ranks + [|tokens|])
  {
    assert forall k :: 0 <= k < |tokens| ==> (tokens + [token])[k] == tokens[k];
  }

  // They are exactly the tokens that are not special, each once.
  lemma {:induction false} WordsAreNotSpecial(tokens: seq<Token>) returns (ranks: seq<int>)
    ensures AtRanks(tokens, Words(tokens), ranks) && AreNotSpecial(tokens, ranks)
  {
    if tokens == [] {
      ranks := [];
    } else {
      hide AtRanks, AreNotSpecial;
      var before, last := tokens[..|tokens| - 1], tokens[|tokens| - 1];
      ranks := WordsAreNotSpecial(before);
      OneMoreToken(before, Words(before), ranks, last);
      assert before + [last] == tokens;
      if !last.special {
        ranks := ranks + [|before|];
      }
    }
  }

  // ---- The mean ----

  // How far scores are from m, all together.
  ghost function Away(scores: seq<real>, m: real): real {
    if scores == [] then 0.0 else scores[0] - m + Away(scores[1..], m)
  }

  lemma {:induction false} SumFromTheLeft(scores: seq<real>)
    requires scores != []
    ensures Sum(scores) == scores[0] + Sum(scores[1..])
  {
    var n := |scores| - 1;
    if n > 0 {
      SumFromTheLeft(scores[..n]);
      assert scores[..n][1..] == scores[1..][..n - 1];
    } else {
      assert scores[..0] == [] && scores[1..] == [];
    }
  }

  lemma {:induction false} AwayIsOfTheSum(scores: seq<real>, m: real)
    ensures Away(scores, m) == Sum(scores) - |scores| as real * m
  {
    if scores != [] {
      SumFromTheLeft(scores);
      AwayIsOfTheSum(scores[1..], m);
      OneLess(|scores|, m);
    }
  }

  lemma OneLess(n: nat, m: real)
    requires n > 0
    ensures n as real * m == (n - 1) as real * m + m
  {
  }

  // The mean of scores is the one value they are away from by nothing in all.
  lemma MeanBalances(scores: seq<real>, m: real)
    requires scores != []
    ensures m == Mean(scores) <==> Away(scores, m) == 0.0
  {
    AwayIsOfTheSum(scores, m);
    QuotientIs(Sum(scores), |scores| as real, m);
  }

  lemma QuotientIs(a: real, b: real, m: real)
    requires b > 0.0
    ensures m == a / b <==> a - b * m == 0.0
  {
    assert (a / b) * b == a;
    if a - b * m == 0.0 {
      assert b * (a / b - m) == 0.0;
    }
  }
}
