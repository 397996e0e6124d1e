/** Word timings of spoken sentences, matched to the words of the story. */
module WordTimings {
  import opened Wrappers
  import opened Sentences
  import opened SentenceTheory

  /** The normal form words are compared by: lower-cased letters and digits. */
  type Norm(==, !new)

  datatype Timing = Timing(text: string, start: real, end: real)

  datatype Placed = Placed(position: int, surface: string, start: real, end: real)

  function Place(token: StoryToken, timing: Timing): Placed {
    Placed(token.position, token.surface, timing.start, timing.end)
  }

  /** The words of the story inside the sentence. */
  function WordsIn(tokens: seq<StoryToken>, span: SentenceSpan): seq<StoryToken> {
    if tokens == [] then []
    else
      var init, last := WordsIn(tokens[..|tokens| - 1], span), tokens[|tokens| - 1];
      if last.isWord && Covers(span, last.position) then init + [last] else init
  }

  function FirstMatch(words: seq<StoryToken>, norm: string -> Norm, want: Norm, next: nat): (m: Option<nat>)
    requires next <= |words|
    ensures m.Some? ==> next <= m.value < |words| && norm(words[m.value].surface) == want
    ensures m.Some? ==> forall i :: next <= i < m.value ==> norm(words[i].surface) != want
    ensures m.None? ==> forall i :: next <= i < |words| ==> norm(words[i].surface) != want
    decreases |words| - next
  {
    if next == |words| then None
    else if norm(words[next].surface) == want then Some(next)
    else FirstMatch(words, norm, want, next + 1)
  }

  /** The word each timing is placed on: the next one that matches, or failing that the next one. */
  function Choices(words: seq<StoryToken>, norm: string -> Norm, aligned: seq<Timing>, next: nat): seq<nat>
    requires next <= |words|
    decreases |aligned|
  {
    if aligned == [] || next == |words| then []
    else
      var m := FirstMatch(words, norm, norm(aligned[0].text), next);
      var choice := if m.Some? then m.value else next;
      [choice] + Choices(words, norm, aligned[1..], choice + 1)
  }

  predicate Indexes(choices: seq<nat>, n: nat, k: nat) {
    |choices| <= k && forall i :: 0 <= i < |choices| ==> choices[i] < n
  }

  function PlaceAll(words: seq<StoryToken>, aligned: seq<Timing>, choices: seq<nat>): (placed: seq<Placed>)
    requires Indexes(choices, |words|, |aligned|)
    ensures |placed| == |choices|
    ensures forall k :: 0 <= k < |placed| ==> placed[k] == Place(words[choices[k]], aligned[k])
  {
    seq(|choices|, k requires 0 <= k < |choices| => Place(words[choices[k]], aligned[k]))
  }

  lemma {:induction false} ChoicesRise(words: seq<StoryToken>, norm: string -> Norm, aligned: seq<Timing>, next: nat)
    requires next <= |words|
    ensures var choices := Choices(words, norm, aligned, next);
            && Indexes(choices, |words|, |aligned|)
            && (forall i :: 0 <= i < |choices| ==> next <= choices[i])
            && (forall i, j :: 0 <= i < j < |choices| ==> choices[i] < choices[j])
    decreases |aligned|
  {
    hide FirstMatch;
    if aligned != [] && next < |words| {
      var m := FirstMatch(words, norm, norm(aligned[0].text), next);
      var choice := if m.Some? then m.value else next;
      var rest := Choices(words, norm, aligned[1..], choice + 1);
      ChoicesRise(words, norm, aligned[1..], choice + 1);
      assert Choices(words, norm, aligned, next) == [choice] + rest;
    }
  }

  /** Index by index from next to n. */
  function From(n: nat, next: nat): (choices: seq<nat>)
    requires next <= n
    ensures |choices| == n - next && forall i :: 0 <= i < n - next ==> choices[i] == next + i
  {
    seq(n - next, i requires 0 <= i < n - next => next + i)
  }

  /** The words chosen: one for one when the counts agree. */
  function Chosen(words: seq<StoryToken>, norm: string -> Norm, aligned: seq<Timing>): (choices: seq<nat>)
    ensures Indexes(choices, |words|, |aligned|)
  {
    ChoicesRise(words, norm, aligned, 0);
    if |words| == |aligned| then From(|words|, 0) else Choices(words, norm, aligned, 0)
  }

  // ---------------------------------------------------------------------------------------
  // The loops
  // ---------------------------------------------------------------------------------------

  method CollectWords(tokens: seq<StoryToken>, span: SentenceSpan) returns (words: seq<StoryToken>)
    ensures words == WordsIn(tokens, span)
  {
    words := [];
    for i := 0 to |tokens|
      invariant words == WordsIn(tokens[..i], span)
    {
      assert tokens[..i + 1][..i] == tokens[..i];
      if tokens[i].isWord && tokens[i].position >= span.start && tokens[i].position < span.end {
        words := words + [tokens[i]];
      }
    }
    assert tokens[..|tokens|] == tokens;
  }

  method FindWord(words: seq<StoryToken>, norm: string -> Norm, want: Norm, next: nat) returns (choice: nat)
    requires next < |words|
    ensures var m := FirstMatch(words, norm, want, next); choice == if m.Some? then m.value else next
  {
    for i := next to |words|
      invariant FirstMatch(words, norm, want, next) == FirstMatch(words, norm, want, i)
    {
      if norm(words[i].surface) == want {
        return i;
      }
    }
    return next;
  }

  lemma {:induction false} PlaceMore(words: seq<StoryToken>, aligned: seq<Timing>, choices: seq<nat>, choice: nat)
    requires Indexes(choices, |words|, |aligned|) && |choices| < |aligned| && choice < |words|
    ensures Indexes(choices + [choice], |words|, |aligned|)
    ensures PlaceAll(words, aligned, choices + [choice])
         == PlaceAll(words, aligned, choices) + [Place(words[choice], aligned[|choices|])]
  {
  }

  method ReaderWordTimings(tokens: seq<StoryToken>, span: SentenceSpan, norm: string -> Norm, aligned: seq<Timing>)
    returns (result: seq<Placed>)
    ensures var words := WordsIn(tokens, span); result == PlaceAll(words, aligned, Chosen(words, norm, aligned))
  {
    hide PlaceAll, WordsIn;
    var words := CollectWords(tokens, span);
    result := [];
    if |words| == |aligned| {
      for i := 0 to |aligned|
        invariant result == PlaceAll(words, aligned, From(i, 0))
      {
        assert From(i + 1, 0) == From(i, 0) + [i];
        PlaceMore(words, aligned, From(i, 0), i);
        result := result + [Place(words[i], aligned[i])];
      }
      return;
    }
    result := MatchForward(words, norm, aligned);
  }

  lemma {:induction false} ChoiceStep(
      words: seq<StoryToken>, norm: string -> Norm, aligned: seq<Timing>, i: nat, next: nat, choice: nat,
      sofar: seq<nat>, all: seq<nat>)
    requires i < |aligned| && next < |words| && sofar + Choices(words, norm, aligned[i..], next) == all
    requires var m := FirstMatch(words, norm, norm(aligned[i].text), next);
             choice == if m.Some? then m.value else next
    ensures choice + 1 <= |words| && (sofar + [choice]) + Choices(words, norm, aligned[i + 1..], choice + 1) == all
  {
    assert aligned[i..][0] == aligned[i] && aligned[i..][1..] == aligned[i + 1..];
    var rest := Choices(words, norm, aligned[i + 1..], choice + 1);
    assert sofar + ([choice] + rest) == (sofar + [choice]) + rest;
  }

  method MatchForward(words: seq<StoryToken>, norm: string -> Norm, aligned: seq<Timing>)
    returns (result: seq<Placed>)
    ensures Indexes(Choices(words, norm, aligned, 0), |words|, |aligned|)
    ensures result == PlaceAll(words, aligned, Choices(words, norm, aligned, 0))
  {
    hide PlaceAll, FirstMatch, Choices, Indexes;
    ghost var all := Choices(words, norm, aligned, 0);
    result := [];
    var next := 0;
    ghost var sofar: seq<nat> := [];
    var i := 0;
    NothingChosen(words, norm, aligned);
    while i < |aligned| && next < |words|
      invariant 0 <= i <= |aligned| && next <= |words| && |sofar| == i
      invariant Indexes(sofar, |words|, |aligned|) && result == PlaceAll(words, aligned, sofar)
      invariant sofar + Choices(words, norm, aligned[i..], next) == all
      decreases |aligned| - i
    {
      var choice := FindWord(words, norm, norm(aligned[i].text), next);
      ChoiceStep(words, norm, aligned, i, next, choice, sofar, all);
      PlaceMore(words, aligned, sofar, choice);
      result := result + [Place(words[choice], aligned[i])];
      sofar := sofar + [choice];
      next := choice + 1;
      i := i + 1;
    }
    NothingLeft(words, norm, aligned[i..], next);
    assert sofar + [] == sofar;
  }

  lemma {:induction false} NothingChosen(words: seq<StoryToken>, norm: string -> Norm, aligned: seq<Timing>)
    ensures aligned[0..] == aligned && Indexes([], |words|, |aligned|) && PlaceAll(words, aligned, []) == []
    ensures [] + Choices(words, norm, aligned, 0) == Choices(words, norm, aligned, 0)
  {
  }

  lemma {:induction false} NothingLeft(words: seq<StoryToken>, norm: string -> Norm, aligned: seq<Timing>, next: nat)
    requires next <= |words| && (aligned == [] || next == |words|)
    ensures Choices(words, norm, aligned, next) == []
  {
  }

  // ---------------------------------------------------------------------------------------
  // What the matching achieves
  // ---------------------------------------------------------------------------------------

  lemma {:induction false} WordsAreInside(tokens: seq<StoryToken>, span: SentenceSpan)
    requires Increasing(tokens)
    ensures var words := WordsIn(tokens, span);
            && Increasing(words)
            && (forall w :: w in words <==> w in tokens && w.isWord && Covers(span, w.position))
  {
    if tokens != [] {
      var init := tokens[..|tokens| - 1];
      WordsAreInside(init, span);
      assert tokens == init + [tokens[|tokens| - 1]];
      var words := WordsIn(init, span);
      forall i | 0 <= i < |words| ensures words[i].position < tokens[|tokens| - 1].position {
        assert words[i] in init;
      }
    }
  }

  /** No word is timed twice and none out of order; each timing is some word's of the sentence. */
  lemma {:induction false} TimingsInOrder(
      tokens: seq<StoryToken>, span: SentenceSpan, norm: string -> Norm, aligned: seq<Timing>)
    requires Increasing(tokens)
    ensures var words := WordsIn(tokens, span);
            var placed := PlaceAll(words, aligned, Chosen(words, norm, aligned));
            && (forall i, j :: 0 <= i < j < |placed| ==> placed[i].position < placed[j].position)
            && (forall i :: 0 <= i < |placed| ==> Covers(span, placed[i].position))
  {
    hide WordsIn, Choices;
    WordsAreInside(tokens, span);
    var words := WordsIn(tokens, span);
    ChoicesRise(words, norm, aligned, 0);
    var choices := Chosen(words, norm, aligned);
    forall i | 0 <= i < |choices| ensures Covers(span, words[choices[i]].position) {
      assert words[choices[i]] in words;
    }
  }

  /** As many timings as words are taken one for one. */
  lemma {:induction false} EqualCountsAlign(words: seq<StoryToken>, norm: string -> Norm, aligned: seq<Timing>, k: nat)
    requires |words| == |aligned| && k < |words|
    ensures |Chosen(words, norm, aligned)| == |words| && Chosen(words, norm, aligned)[k] == k
  {
  }

  /** Otherwise each timing takes the next word with its text behind the word taken before, or failing that the next word,
      until timings or words run out. */
  lemma {:induction false} TimingTakes(words: seq<StoryToken>, norm: string -> Norm, aligned: seq<Timing>, k: nat)
    requires |words| != |aligned| && k < |aligned|
    ensures var chosen := Chosen(words, norm, aligned);
            && (k < |chosen| ==>
                  var next := if k == 0 then 0 else chosen[k - 1] + 1;
                  && next <= chosen[k] < |words|
                  && (forall i :: next <= i < chosen[k] ==> norm(words[i].surface) != norm(aligned[k].text))
                  && (norm(words[chosen[k]].surface) == norm(aligned[k].text)
                      || (chosen[k] == next
                          && forall i :: next <= i < |words| ==> norm(words[i].surface) != norm(aligned[k].text))))
            && (k >= |chosen| ==> words == [] || (chosen != [] && chosen[|chosen| - 1] == |words| - 1))
  {
    TimingTakesFrom(words, norm, aligned, 0, k);
  }

  lemma {:induction false} TimingTakesFrom(
      words: seq<StoryToken>, norm: string -> Norm, aligned: seq<Timing>, from: nat, k: nat)
    requires from <= |words| && k < |aligned|
    ensures var chosen := Choices(words, norm, aligned, from);
            && (k < |chosen| ==>
                  var next := if k == 0 then from else chosen[k - 1] + 1;
                  && next <= chosen[k] < |words|
                  && (forall i :: next <= i < chosen[k] ==> norm(words[i].surface) != norm(aligned[k].text))
                  && (norm(words[chosen[k]].surface) == norm(aligned[k].text)
                      || (chosen[k] == next
                          && forall i :: next <= i < |words| ==> norm(words[i].surface) != norm(aligned[k].text))))
            && (k >= |chosen| ==> from == |words| || (chosen != [] && chosen[|chosen| - 1] == |words| - 1))
    decreases |aligned|
  {
    hide FirstMatch;
    if from < |words| {
      var m := FirstMatch(words, norm, norm(aligned[0].text), from);
      var choice := if m.Some? then m.value else from;
      var rest := Choices(words, norm, aligned[1..], choice + 1);
      assert Choices(words, norm, aligned, from) == [choice] + rest;
      if k > 0 {
        TimingTakesFrom(words, norm, aligned[1..], choice + 1, k - 1);
      }
    }
  }

  /** Each placed timing carries its own times and the position and surface of a word of the sentence. */
  lemma {:induction false} TimingsCarryTimes(
      tokens: seq<StoryToken>, span: SentenceSpan, norm: string -> Norm, aligned: seq<Timing>, k: nat)
    requires k < |Chosen(WordsIn(tokens, span), norm, aligned)|
    ensures var words := WordsIn(tokens, span);
            var placed := PlaceAll(words, aligned, Chosen(words, norm, aligned));
            && k < |placed| && k < |aligned|
            && placed[k].start == aligned[k].start && placed[k].end == aligned[k].end
            && exists w :: w in tokens && w.isWord && Covers(span, w.position)
                           && placed[k].position == w.position && placed[k].surface == w.surface
  {
    hide WordsIn, Choices;
    var words := WordsIn(tokens, span);
    var w := words[Chosen(words, norm, aligned)[k]];
    WordsAreTokens(tokens, span, w);
  }

  lemma {:induction false} WordsAreTokens(tokens: seq<StoryToken>, span: SentenceSpan, w: StoryToken)
    ensures w in WordsIn(tokens, span) <==> w in tokens && w.isWord && Covers(span, w.position)
  {
    if tokens != [] {
      var init := tokens[..|tokens| - 1];
      WordsAreTokens(init, span, w);
      assert tokens == init + [tokens[|tokens| - 1]];
    }
  }

  predicate Subsequence(xs: seq<Norm>, ys: seq<Norm>) {
    xs == []
    || (ys != [] && ((xs[0] == ys[0] && Subsequence(xs[1..], ys[1..])) || Subsequence(xs, ys[1..])))
  }

  /** Matching forward from next places every timing, and on a word with its text. */
  predicate AllMatched(words: seq<StoryToken>, norm: string -> Norm, aligned: seq<Timing>, next: nat)
    requires next <= |words|
  {
    ChoicesRise(words, norm, aligned, next);
    var choices := Choices(words, norm, aligned, next);
    && |choices| == |aligned|
    && forall k :: 0 <= k < |aligned| ==> norm(words[choices[k]].surface) == norm(aligned[k].text)
  }

  /** Every timing is placed, and on a word with its text. */
  predicate AllRight(words: seq<StoryToken>, norm: string -> Norm, aligned: seq<Timing>) {
    var chosen := Chosen(words, norm, aligned);
    && |chosen| == |aligned|
    && forall k :: 0 <= k < |aligned| ==> norm(words[chosen[k]].surface) == norm(aligned[k].text)
  }

  function Spoken(norm: string -> Norm, aligned: seq<Timing>): (xs: seq<Norm>)
    ensures |xs| == |aligned| && forall k :: 0 <= k < |xs| ==> xs[k] == norm(aligned[k].text)
  {
    seq(|aligned|, k requires 0 <= k < |aligned| => norm(aligned[k].text))
  }

  function Written(norm: string -> Norm, words: seq<StoryToken>): (ys: seq<Norm>)
    ensures |ys| == |words| && forall k :: 0 <= k < |ys| ==> ys[k] == norm(words[k].surface)
  {
    seq(|words|, k requires 0 <= k < |words| => norm(words[k].surface))
  }

  lemma {:induction false} DropPrefix(xs: seq<Norm>, ys: seq<Norm>, k: nat)
    requires k <= |ys| && Subsequence(xs, ys[k..])
    ensures Subsequence(xs, ys)
  {
    if k == 0 {
      assert ys[0..] == ys;
    } else {
      assert ys[1..][k - 1..] == ys[k..];
      DropPrefix(xs, ys[1..], k - 1);
    }
  }

  lemma {:induction false} TailFits(xs: seq<Norm>, ys: seq<Norm>)
    requires xs != [] && Subsequence(xs, ys)
    ensures Subsequence(xs[1..], ys)
  {
    if xs[0] == ys[0] && Subsequence(xs[1..], ys[1..]) {
      assert ys[1..] == ys[1..];
      DropPrefix(xs[1..], ys, 1);
    } else {
      TailFits(xs, ys[1..]);
      DropPrefix(xs[1..], ys, 1);
    }
  }

  /** Taking the first match loses nothing. */
  lemma {:induction false} FirstMatchSuffices(xs: seq<Norm>, ys: seq<Norm>, k: nat)
    requires xs != [] && k < |ys| && ys[k] == xs[0] && forall i :: 0 <= i < k ==> ys[i] != xs[0]
    ensures Subsequence(xs, ys) <==> Subsequence(xs[1..], ys[k + 1..])
  {
    if k == 0 {
      if Subsequence(xs, ys[1..]) {
        TailFits(xs, ys[1..]);
      }
    } else {
      FirstMatchSuffices(xs, ys[1..], k - 1);
      assert ys[1..][k..] == ys[k + 1..];
    }
  }

  lemma {:induction false} NoMatchNoFit(xs: seq<Norm>, ys: seq<Norm>)
    requires xs != [] && forall i :: 0 <= i < |ys| ==> ys[i] != xs[0]
    ensures !Subsequence(xs, ys)
  {
    if ys != [] {
      NoMatchNoFit(xs, ys[1..]);
    }
  }

  /** Every timing lands right when the first does and the rest do behind it. */
  lemma {:induction false} AllMatchedHead(words: seq<StoryToken>, norm: string -> Norm, aligned: seq<Timing>, next: nat)
    requires aligned != [] && next <= |words|
    ensures var m := FirstMatch(words, norm, norm(aligned[0].text), next);
            (AllMatched(words, norm, aligned, next)
             <==> m.Some? && AllMatched(words, norm, aligned[1..], m.value + 1))
  {
    hide FirstMatch;
    if next < |words| {
      ChoicesRise(words, norm, aligned, next);
      var m := FirstMatch(words, norm, norm(aligned[0].text), next);
      var choice := if m.Some? then m.value else next;
      var rest := Choices(words, norm, aligned[1..], choice + 1);
      assert Choices(words, norm, aligned, next) == [choice] + rest;
      assert forall i :: 0 <= i < |rest| ==> ([choice] + rest)[i + 1] == rest[i];
      assert forall i :: 0 <= i < |aligned| - 1 ==> aligned[i + 1] == aligned[1..][i];
      assert forall i :: 0 < i < |aligned| ==> aligned[i] == aligned[1..][i - 1];
    }
  }

  /** Matching forward gets every timing right exactly when the spoken words are a subsequence of those left. */
  lemma {:induction false} MatchedIffSubsequence(
      words: seq<StoryToken>, norm: string -> Norm, aligned: seq<Timing>, next: nat)
    requires next <= |words|
    ensures AllMatched(words, norm, aligned, next)
       <==> Subsequence(Spoken(norm, aligned), Written(norm, words)[next..])
    decreases |aligned|
  {
    hide AllMatched, Subsequence;
    var xs, ys := Spoken(norm, aligned), Written(norm, words)[next..];
    if aligned == [] {
      EmptyMatches(words, norm, next, ys);
    } else {
      AllMatchedHead(words, norm, aligned, next);
      var m := FirstMatch(words, norm, norm(aligned[0].text), next);
      if m.Some? {
        FirstMatchSuffices(xs, ys, m.value - next);
        assert ys[m.value - next + 1..] == Written(norm, words)[m.value + 1..];
        assert xs[1..] == Spoken(norm, aligned[1..]);
        MatchedIffSubsequence(words, norm, aligned[1..], m.value + 1);
      } else {
        NoMatchNoFit(xs, ys);
      }
    }
  }

  lemma {:induction false} EmptyMatches(words: seq<StoryToken>, norm: string -> Norm, next: nat, ys: seq<Norm>)
    requires next <= |words|
    ensures AllMatched(words, norm, [], next) && Subsequence([], ys)
  {
  }

  lemma {:induction false} SubsequenceLength(xs: seq<Norm>, ys: seq<Norm>)
    requires Subsequence(xs, ys)
    ensures |xs| <= |ys| && (|xs| == |ys| ==> xs == ys)
  {
    if xs != [] {
      if xs[0] == ys[0] && Subsequence(xs[1..], ys[1..]) {
        SubsequenceLength(xs[1..], ys[1..]);
      } else {
        SubsequenceLength(xs, ys[1..]);
      }
    }
  }

  lemma {:induction false} SubsequenceOfItself(xs: seq<Norm>)
    ensures Subsequence(xs, xs)
  {
    if xs != [] {
      SubsequenceOfItself(xs[1..]);
    }
  }

  /**
    * Every timing lands on a word with its text exactly when the spoken words are a subsequence of the written ones:
    * dropped words do no harm, any other difference does.
    */
  lemma {:induction false} AllRightIffSubsequence(words: seq<StoryToken>, norm: string -> Norm, aligned: seq<Timing>)
    ensures AllRight(words, norm, aligned) <==> Subsequence(Spoken(norm, aligned), Written(norm, words))
  {
    hide Subsequence, Choices;
    var xs, ys := Spoken(norm, aligned), Written(norm, words);
    if |words| == |aligned| {
      if Subsequence(xs, ys) {
        SubsequenceLength(xs, ys);
        assert forall k :: 0 <= k < |xs| ==> xs[k] == ys[k];
      }
      if AllRight(words, norm, aligned) {
        assert forall k :: 0 <= k < |xs| ==> xs[k] == ys[k];
        assert xs == ys;
        SubsequenceOfItself(xs);
      }
    } else {
      assert ys[0..] == ys;
      MatchedIffSubsequence(words, norm, aligned, 0);
    }
  }

  /** Every timing behind timing k is placed, and on a word with its text. */
  predicate RightBehind(words: seq<StoryToken>, norm: string -> Norm, aligned: seq<Timing>, k: nat) {
    var chosen := Chosen(words, norm, aligned);
    && |chosen| == |aligned|
    && forall i :: k < i < |aligned| ==> norm(words[chosen[i]].surface) == norm(aligned[i].text)
  }

  lemma {:induction false} FirstChoice(
      words: seq<StoryToken>, norm: string -> Norm, aligned: seq<Timing>, next: nat) returns (choice: nat)
    requires next <= |words| && Choices(words, norm, aligned, next) != []
    ensures aligned != [] && choice < |words|
    ensures Choices(words, norm, aligned, next) == [choice] + Choices(words, norm, aligned[1..], choice + 1)
  {
    hide FirstMatch;
    var m := FirstMatch(words, norm, norm(aligned[0].text), next);
    choice := if m.Some? then m.value else next;
  }

  /** Behind a timing the choice goes on from the word it took. */
  lemma {:induction false} ChoicesBehind(
      words: seq<StoryToken>, norm: string -> Norm, aligned: seq<Timing>, next: nat, k: nat)
    requires next <= |words| && k < |Choices(words, norm, aligned, next)|
    ensures |Choices(words, norm, aligned, next)| <= |aligned|
    ensures var choices := Choices(words, norm, aligned, next);
            choices[k] < |words| && choices[k + 1..] == Choices(words, norm, aligned[k + 1..], choices[k] + 1)
    decreases |aligned|
  {
    var choice := FirstChoice(words, norm, aligned, next);
    hide Choices;
    var rest := Choices(words, norm, aligned[1..], choice + 1);
    ChoicesRise(words, norm, aligned, next);
    assert ([choice] + rest)[k + 1..] == rest[k..];
    if k > 0 {
      ChoicesBehind(words, norm, aligned[1..], choice + 1, k - 1);
      assert aligned[1..][k..] == aligned[k + 1..];
    }
  }

  /**
    * Whatever became of timing k and those before it, all behind it land right exactly when their words are a
    * subsequence of those written behind the word it took.
    */
  lemma {:induction false} RightBehindIff(
      words: seq<StoryToken>, norm: string -> Norm, aligned: seq<Timing>, k: nat)
    requires k < |Chosen(words, norm, aligned)|
    ensures k < |aligned| && Chosen(words, norm, aligned)[k] < |words|
    ensures RightBehind(words, norm, aligned, k)
       <==> Subsequence(Spoken(norm, aligned[k + 1..]), Written(norm, words)[Chosen(words, norm, aligned)[k] + 1..])
  {
    hide Subsequence, Choices;
    var chosen := Chosen(words, norm, aligned);
    var xs := Spoken(norm, aligned[k + 1..]);
    if |words| == |aligned| {
      var ys := Written(norm, words)[k + 1..];
      if Subsequence(xs, ys) {
        SubsequenceLength(xs, ys);
        assert forall i :: k < i < |aligned| ==>
                 norm(aligned[i].text) == xs[i - k - 1] && norm(words[i].surface) == ys[i - k - 1];
      }
      if RightBehind(words, norm, aligned, k) {
        assert xs == ys;
        SubsequenceOfItself(xs);
      }
    } else {
      ChoicesBehind(words, norm, aligned, 0, k);
      ChoicesRise(words, norm, aligned, 0);
      MatchedIffSubsequence(words, norm, aligned[k + 1..], chosen[k] + 1);
      BehindIsMatched(words, norm, aligned, k);
    }
  }

  lemma {:induction false} BehindIsMatched(
      words: seq<StoryToken>, norm: string -> Norm, aligned: seq<Timing>, k: nat)
    requires |words| != |aligned| && k < |Chosen(words, norm, aligned)| <= |aligned|
    requires var chosen := Chosen(words, norm, aligned);
             chosen[k] < |words| && chosen[k + 1..] == Choices(words, norm, aligned[k + 1..], chosen[k] + 1)
    ensures RightBehind(words, norm, aligned, k)
       <==> AllMatched(words, norm, aligned[k + 1..], Chosen(words, norm, aligned)[k] + 1)
  {
    hide Choices;
    ChoicesRise(words, norm, aligned, 0);
    var chosen := Chosen(words, norm, aligned);
    ChoicesRise(words, norm, aligned[k + 1..], chosen[k] + 1);
    assert forall i :: k < i < |aligned| ==> aligned[i] == aligned[k + 1..][i - k - 1];
    assert forall i :: k < i < |chosen| ==> chosen[i] == chosen[k + 1..][i - k - 1];
  }

  predicate DistinctNorms(words: seq<StoryToken>, norm: string -> Norm) {
    forall i, j :: 0 <= i < j < |words| ==> norm(words[i].surface) != norm(words[j].surface)
  }

  /** Timing k is spoken for the word before word k, and the first for no word of the sentence. */
  predicate LateByOne(words: seq<StoryToken>, norm: string -> Norm, aligned: seq<Timing>) {
    && |aligned| == |words| + 1
    && (forall i :: 0 <= i < |words| ==> norm(words[i].surface) != norm(aligned[0].text))
    && forall k :: 0 < k < |aligned| ==> norm(aligned[k].text) == norm(words[k - 1].surface)
  }

  lemma {:induction false} StaysLate(words: seq<StoryToken>, norm: string -> Norm, aligned: seq<Timing>, next: nat)
    requires DistinctNorms(words, norm) && LateByOne(words, norm, aligned) && next <= |words|
    ensures Choices(words, norm, aligned[next..], next) == From(|words|, next)
    decreases |words| - next
  {
    if next < |words| {
      var rest := aligned[next..];
      assert rest[0] == aligned[next] && rest[1..] == aligned[next + 1..];
      assert FirstMatch(words, norm, norm(rest[0].text), next) == None;
      StaysLate(words, norm, aligned, next + 1);
      assert From(|words|, next) == [next] + From(|words|, next + 1);
    }
  }

  /**
    * One spoken word too many in front puts every later timing one word behind its own: timing k of word k - 1 lands
    * on word k, and the last word's timing is dropped.
    */
  lemma {:induction false} ExtraWordShiftsAll(words: seq<StoryToken>, norm: string -> Norm, aligned: seq<Timing>)
    requires DistinctNorms(words, norm) && LateByOne(words, norm, aligned)
    ensures Chosen(words, norm, aligned) == From(|words|, 0)
    ensures forall k :: 0 < k < |words| ==> norm(aligned[k].text) != norm(words[Chosen(words, norm, aligned)[k]].surface)
  {
    assert aligned[0..] == aligned;
    StaysLate(words, norm, aligned, 0);
  }
}
