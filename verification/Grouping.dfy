// The tokens of a text, grouped into entities.
module Grouping {

  datatype Token = Token(name: string, score: real, start: int, end: int, special: bool)

  // What the loop keeps of a run of tokens: its tag and bounds, and each score for the mean.
  datatype Group = Group(tag: string, start: int, end: int, scores: seq<real>)

  datatype Entity = Entity(tag: string, start: int, end: int, score: real)

  function Tag(name: string): string {
    if |name| >= 2 && (name[..2] == "B-" || name[..2] == "I-") then name[2..] else name
  }

  predicate Begins(name: string) {
    |name| >= 2 && name[..2] == "B-"
  }

  function Sum(scores: seq<real>): real {
    if scores == [] then 0.0 else Sum(scores[..|scores| - 1]) + scores[|scores| - 1]
  }

  function Mean(scores: seq<real>): real
    requires scores != []
  {
    Sum(scores) / |scores| as real
  }

  // ---- What the grouping is ----

  // The tokens that are not special ones of the tokenizer.
  ghost function Words(tokens: seq<Token>): seq<Token> {
    if tokens == [] then []
    else
      var before, last := Words(tokens[..|tokens| - 1]), tokens[|tokens| - 1];
      if last.special then before else before + [last]
  }

  // Token k starts an entity, or what separates two: the first one, one labelled as a beginning,
  // and one of another tag than the token before it.
  ghost predicate Head(words: seq<Token>, k: int) {
    && 0 <= k < |words|
    && (k == 0 || Begins(words[k].name) || Tag(words[k].name) != Tag(words[k - 1].name))
  }

  ghost function Heads(words: seq<Token>): seq<int> {
    if words == [] then []
    else
      var before := Heads(words[..|words| - 1]);
      if Head(words, |words| - 1) then before + [|words| - 1] else before
  }

  // Where the i-th run ends: where the next one starts.
  ghost function RunEnd(words: seq<Token>, i: nat): int {
    if i + 1 < |Heads(words)| then Heads(words)[i + 1] else |words|
  }

  ghost function Scores(words: seq<Token>): seq<real> {
    seq(|words|, k requires 0 <= k < |words| => words[k].score)
  }

  ghost function Run(words: seq<Token>, from: int, to: int): Group
    requires 0 <= from < to <= |words|
  {
    Group(Tag(words[from].name), words[from].start, words[to - 1].end, Scores(words[from..to]))
  }

  ghost predicate RunsOf(words: seq<Token>, groups: seq<Group>) {
    && |groups| == |Heads(words)|
    && (forall i :: 0 <= i < |groups| ==>
          0 <= Heads(words)[i] < RunEnd(words, i) <= |words|
          && groups[i] == Run(words, Heads(words)[i], RunEnd(words, i)))
  }

  // The heads are all the heads, in order, and the first token is one.
  lemma {:induction false} HeadsAreTheHeads(words: seq<Token>)
    ensures forall k :: k in Heads(words) <==> Head(words, k)
    ensures words != [] ==> Heads(words) != [] && Heads(words)[0] == 0
  {
    if words != [] {
      var before := words[..|words| - 1];
      HeadsAreTheHeads(before);
      assert forall k :: 0 <= k < |before| ==> (Head(before, k) <==> Head(words, k));
    }
  }

  lemma {:induction false} HeadsAreInOrder(words: seq<Token>)
    ensures forall i, j :: 0 <= i < j < |Heads(words)| ==> Heads(words)[i] < Heads(words)[j]
  {
    if words != [] {
      var before := words[..|words| - 1];
      HeadsAreInOrder(before);
      forall i | 0 <= i < |Heads(before)| ensures Heads(before)[i] < |before| {
        HeadsAreTheHeads(before);
        assert Heads(before)[i] in Heads(before);
      }
      hide Head;
    }
  }

  lemma RunsAreRanges(words: seq<Token>, i: nat)
    requires i < |Heads(words)|
    ensures 0 <= Heads(words)[i] < RunEnd(words, i) <= |words|
  {
    HeadsAreTheHeads(words);
    HeadsAreInOrder(words);
    assert Heads(words)[i] in Heads(words);
    if i + 1 < |Heads(words)| {
      assert Heads(words)[i + 1] in Heads(words);
    }
  }

  // The runs of the tokens.
  ghost function Groups(words: seq<Token>): (groups: seq<Group>)
    ensures RunsOf(words, groups)
  {
    assert forall i: nat :: i < |Heads(words)| ==> 0 <= Heads(words)[i] < RunEnd(words, i) <= |words| by {
      forall i: nat | i < |Heads(words)| ensures 0 <= Heads(words)[i] < RunEnd(words, i) <= |words| {
        RunsAreRanges(words, i);
      }
    }
    seq(|Heads(words)|, i requires 0 <= i < |Heads(words)| => Run(words, Heads(words)[i], RunEnd(words, i)))
  }

  ghost predicate NoHeadAfter(words: seq<Token>, from: int, to: int) {
    forall j :: from < j < to ==> !Head(words, j)
  }

  // Between its first token and its last, a run has no head: its tokens have one tag, and none
  // but the first is labelled as a beginning.
  lemma {:induction false} OneTag(words: seq<Token>, from: int, k: int)
    requires 0 <= from <= k < |words| && NoHeadAfter(words, from, k + 1)
    ensures Tag(words[k].name) == Tag(words[from].name)
    decreases k
  {
    if from < k {
      OneTag(words, from, k - 1);
      assert !Head(words, k);
    }
  }

  lemma RankOf(words: seq<Token>, k: int) returns (n: int)
    requires Head(words, k)
    ensures 0 <= n < |Heads(words)| && Heads(words)[n] == k
  {
    HeadsAreTheHeads(words);
    n :| 0 <= n < |Heads(words)| && Heads(words)[n] == k;
  }

  lemma RunHasNoHead(words: seq<Token>, i: nat)
    requires i < |Heads(words)|
    ensures NoHeadAfter(words, Heads(words)[i], RunEnd(words, i))
  {
    forall j | Heads(words)[i] < j < RunEnd(words, i) ensures !Head(words, j) {
      if Head(words, j) {
        var n := RankOf(words, j);
        HeadsAreInOrder(words);
      }
    }
  }

  ghost predicate InRun(words: seq<Token>, i: int, k: int) {
    0 <= i < |Heads(words)| && Heads(words)[i] <= k < RunEnd(words, i)
  }

  lemma RunOf(words: seq<Token>, k: nat) returns (i: nat)
    requires k < |words|
    ensures InRun(words, i, k)
  {
    HeadsAreTheHeads(words);
    i := 0;
    while i + 1 < |Heads(words)| && Heads(words)[i + 1] <= k
      invariant i < |Heads(words)| && Heads(words)[i] <= k
    {
      i := i + 1;
    }
  }

  lemma OneRunOnly(words: seq<Token>, i: int, j: int, k: int)
    requires InRun(words, i, k) && InRun(words, j, k)
    ensures i == j
  {
    HeadsAreInOrder(words);
  }

  // Each token is in one run exactly, and that run has its tag.
  lemma EachTokenIsInOneRun(words: seq<Token>, k: nat)
    requires k < |words|
    ensures exists i: nat :: InRun(words, i, k) && i < |Groups(words)| && Groups(words)[i].tag == Tag(words[k].name)
                        && forall j :: InRun(words, j, k) ==> j == i
  {
    var i := RunOf(words, k);
    RunHasNoHead(words, i);
    RunsAreRanges(words, i);
    OneTag(words, Heads(words)[i], k);
    assert Groups(words)[i].tag == Tag(words[k].name);
    forall j | InRun(words, j, k) ensures j == i {
      OneRunOnly(words, i, j, k);
    }
  }

  lemma HeadsOfOneMore(words: seq<Token>, word: Token)
    ensures Heads(words + [word]) ==
            if Head(words + [word], |words|) then Heads(words) + [|words|] else Heads(words)
  {
    assert (words + [word])[..|words|] == words;
  }

  lemma RunIsAsBefore(words: seq<Token>, word: Token, from: int, to: int)
    requires 0 <= from < to <= |words|
    ensures Run(words + [word], from, to) == Run(words, from, to)
  {
    assert (words + [word])[from..to] == words[from..to];
  }

  lemma RunGrows(words: seq<Token>, word: Token, from: int)
    requires 0 <= from < |words|
    ensures Run(words + [word], from, |words| + 1) ==
            Group(Tag(words[from].name), words[from].start, word.end,
                  Run(words, from, |words|).scores + [word.score])
  {
    assert (words + [word])[from..|words| + 1] == words[from..|words|] + [word];
  }

  lemma NewRun(words: seq<Token>, word: Token)
    ensures Run(words + [word], |words|, |words| + 1) ==
            Group(Tag(word.name), word.start, word.end, [word.score])
  {
    assert (words + [word])[|words|..|words| + 1] == [word];
  }

  // A token that starts a run.
  lemma RunsWithANewOne(words: seq<Token>, word: Token, groups: seq<Group>)
    requires RunsOf(words, groups) && Head(words + [word], |words|)
    ensures RunsOf(words + [word], groups + [Group(Tag(word.name), word.start, word.end, [word.score])])
  {
    hide Head, Run;
    HeadsOfOneMore(words, word);
    NewRun(words, word);
    var longer := words + [word];
    forall i | 0 <= i < |groups|
      ensures 0 <= Heads(longer)[i] < RunEnd(longer, i) <= |longer|
      ensures groups[i] == Run(longer, Heads(longer)[i], RunEnd(longer, i))
    {
      RunIsAsBefore(words, word, Heads(words)[i], RunEnd(words, i));
    }
  }

  // A token that goes on with the last run.
  lemma RunsWithALongerOne(words: seq<Token>, word: Token, groups: seq<Group>)
    requires RunsOf(words, groups) && words != [] && !Head(words + [word], |words|)
    ensures groups != []
    ensures var last := groups[|groups| - 1];
            RunsOf(words + [word],
                   groups[|groups| - 1 := Group(last.tag, last.start, word.end, last.scores + [word.score])])
  {
    hide Head, Run;
    HeadsOfOneMore(words, word);
    SomeRun(words);
    var longer, end := words + [word], |groups| - 1;
    forall i | 0 <= i < end
      ensures 0 <= Heads(longer)[i] < RunEnd(longer, i) <= |longer|
      ensures groups[i] == Run(longer, Heads(longer)[i], RunEnd(longer, i))
    {
      RunIsAsBefore(words, word, Heads(words)[i], RunEnd(words, i));
    }
    LastRun(words, groups);
    RunGrows(words, word, Heads(words)[end]);
  }

  lemma LastRun(words: seq<Token>, groups: seq<Group>)
    requires RunsOf(words, groups) && groups != []
    ensures var from := Heads(words)[|groups| - 1];
            0 <= from < |words| && groups[|groups| - 1] == Run(words, from, |words|)
    ensures groups[|groups| - 1].tag == Tag(words[Heads(words)[|groups| - 1]].name)
    ensures groups[|groups| - 1].start == words[Heads(words)[|groups| - 1]].start
  {
  }

  lemma SomeRun(words: seq<Token>)
    requires words != []
    ensures Heads(words) != []
  {
    HeadsAreTheHeads(words);
  }

  // ---- The loop ----

  ghost predicate Ranged(groups: seq<Group>) {
    forall i :: 0 <= i < |groups| ==> groups[i].scores != []
  }

  lemma RunsHaveScores(words: seq<Token>, groups: seq<Group>)
    requires RunsOf(words, groups)
    ensures Ranged(groups)
  {
    forall i | 0 <= i < |groups| ensures groups[i].scores != [] {
      assert groups[i] == Run(words, Heads(words)[i], RunEnd(words, i));
    }
  }

  // The entities are the groups whose tag is not "O", in the order of the text.
  function Entities(groups: seq<Group>): seq<Entity>
    requires Ranged(groups)
  {
    if groups == [] then []
    else
      var before, last := Entities(groups[..|groups| - 1]), groups[|groups| - 1];
      if last.tag == "O" then before
      else before + [Entity(last.tag, last.start, last.end, Mean(last.scores))]
  }

  // Whether a token goes on with the last group, as the loop tells it: by the tag of the group.
  lemma GoesOn(words: seq<Token>, word: Token, groups: seq<Group>)
    requires RunsOf(words, groups)
    ensures groups == [] <==> words == []
    ensures Head(words + [word], |words|) <==>
            !(groups != [] && groups[|groups| - 1].tag == Tag(word.name) && !Begins(word.name))
  {
    if words != [] {
      SomeRun(words);
      var i := |groups| - 1;
      RunHasNoHead(words, i);
      OneTag(words, Heads(words)[i], |words| - 1);
    }
  }

  ghost function WithToken(groups: seq<Group>, token: Token): seq<Group> {
    var tag := Tag(token.name);
    if groups != [] && groups[|groups| - 1].tag == tag && !Begins(token.name) then
      var last := groups[|groups| - 1];
      groups[|groups| - 1 := Group(tag, last.start, token.end, last.scores + [token.score])]
    else
      groups + [Group(tag, token.start, token.end, [token.score])]
  }

  lemma WithTokenAreRuns(words: seq<Token>, word: Token, groups: seq<Group>)
    requires RunsOf(words, groups)
    ensures RunsOf(words + [word], WithToken(groups, word))
  {
    hide RunsOf, Head;
    GoesOn(words, word, groups);
    if Head(words + [word], |words|) {
      RunsWithANewOne(words, word, groups);
    } else {
      RunsWithALongerOne(words, word, groups);
    }
  }

  lemma WordsOfOneMore(tokens: seq<Token>, n: nat)
    requires n < |tokens|
    ensures Words(tokens[..n + 1]) ==
            if tokens[n].special then Words(tokens[..n]) else Words(tokens[..n]) + [tokens[n]]
  {
    assert tokens[..n + 1][..n] == tokens[..n];
  }

  lemma RunsAreUnique(words: seq<Token>, groups: seq<Group>)
    requires RunsOf(words, groups)
    ensures groups == Groups(words)
  {
    var others := Groups(words);
    assert forall i :: 0 <= i < |groups| ==> groups[i] == others[i];
  }

  method Grouped(tokens: seq<Token>) returns (entities: seq<Entity>)
    ensures Ranged(Groups(Words(tokens))) && entities == Entities(Groups(Words(tokens)))
  {
    var groups: seq<Group> := [];
    for n := 0 to |tokens|
      invariant RunsOf(Words(tokens[..n]), groups)
    {
      WordsOfOneMore(tokens, n);
      hide RunsOf, Words, Tag, Begins;
      var token := tokens[n];
      if !token.special {
        WithTokenAreRuns(Words(tokens[..n]), token, groups);
        var begins := Begins(token.name);
        var tag := Tag(token.name);
        if groups != [] && groups[|groups| - 1].tag == tag && !begins {
          var last := groups[|groups| - 1];
          groups := groups[|groups| - 1 := Group(tag, last.start, token.end, last.scores + [token.score])];
        } else {
          groups := groups + [Group(tag, token.start, token.end, [token.score])];
        }
      }
    }
    assert tokens[..|tokens|] == tokens;
    RunsAreUnique(Words(tokens), groups);
    RunsHaveScores(Words(tokens), groups);
    entities := Entities(groups);
  }

  // The groups that are entities, by their rank.
  ghost function Picks(groups: seq<Group>): seq<int> {
    if groups == [] then []
    else
      var before := Picks(groups[..|groups| - 1]);
      if groups[|groups| - 1].tag == "O" then before else before + [|groups| - 1]
  }

  // The entities are the labelled groups, each once and in their order.
  lemma {:induction false} EntitiesAreTheLabelledGroups(groups: seq<Group>)
    requires Ranged(groups)
    ensures |Picks(groups)| == |Entities(groups)|
    ensures forall i :: i in Picks(groups) <==> 0 <= i < |groups| && groups[i].tag != "O"
    ensures forall n :: 0 <= n < |Picks(groups)| ==>
              && 0 <= Picks(groups)[n] < |groups|
              && var g := groups[Picks(groups)[n]];
                 Entities(groups)[n] == Entity(g.tag, g.start, g.end, Mean(g.scores))
    ensures forall n, m :: 0 <= n < m < |Picks(groups)| ==> Picks(groups)[n] < Picks(groups)[m]
  {
    if groups != [] {
      EntitiesAreTheLabelledGroups(groups[..|groups| - 1]);
    }
  }
}
