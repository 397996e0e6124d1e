/** What the segmentation means: sentences are disjoint, ordered, well shaped, and miss no visible token. */
module SentenceTheory {
  import opened Wrappers
  import opened Text
  import opened Sentences

  predicate Body(t: StoryToken) {
    !IsParagraphBreak(t.surface) && !IsSentenceEnd(t.surface)
  }

  /** Token j belongs to no sentence by right: it is blank or breaks the paragraph. */
  predicate Skippable(t: StoryToken) {
    IsBlank(t.surface) || IsParagraphBreak(t.surface)
  }

  predicate AllBody(tokens: seq<StoryToken>, from: nat, to: nat)
    requires to <= |tokens|
  {
    forall k :: from <= k < to ==> Body(tokens[k])
  }

  predicate AllTrail(tokens: seq<StoryToken>, from: nat, to: nat)
    requires to <= |tokens|
  {
    forall k :: from <= k < to ==> Trails(tokens[k])
  }

  /**
    * A visible first token; body tokens up to e; then either the story's end or a paragraph break, left out, or a
    * terminator and the longest run of trailing punctuation behind it.
    */
  predicate Shaped(tokens: seq<StoryToken>, r: Range, e: nat) {
    && r.start <= e <= r.end <= |tokens| && r.start < r.end
    && !Skippable(tokens[r.start]) && AllBody(tokens, r.start, e)
    && if e == r.end then e == |tokens| || IsParagraphBreak(tokens[e].surface)
       else
         && IsSentenceEnd(tokens[e].surface) && !IsParagraphBreak(tokens[e].surface)
         && AllTrail(tokens, e + 1, r.end) && (r.end == |tokens| || !Trails(tokens[r.end]))
  }

  predicate Ordered(ranges: seq<Range>) {
    forall j, k :: 0 <= j < k < |ranges| ==> ranges[j].end <= ranges[k].start
  }

  predicate Holds(r: Range, j: nat) {
    r.start <= j < r.end
  }

  // ---------------------------------------------------------------------------------------
  // Segments
  // ---------------------------------------------------------------------------------------

  lemma {:induction false} BodyRun(tokens: seq<StoryToken>, i: nat)
    requires i <= |tokens|
    ensures AllBody(tokens, i, BodyEnd(tokens, i))
    decreases |tokens| - i
  {
    hide IsBlank, IsParagraphBreak, IsSentenceEnd;
    if i < |tokens| && Body(tokens[i]) {
      BodyRun(tokens, i + 1);
    }
  }

  lemma {:induction false} TrailRun(tokens: seq<StoryToken>, i: nat)
    requires i <= |tokens|
    ensures AllTrail(tokens, i, TrailEnd(tokens, i))
    ensures TrailEnd(tokens, i) == |tokens| || !Trails(tokens[TrailEnd(tokens, i)])
    decreases |tokens| - i
  {
    hide Trails;
    if i < |tokens| && Trails(tokens[i]) {
      TrailRun(tokens, i + 1);
    }
  }

  lemma {:induction false} SentenceShape(tokens: seq<StoryToken>, i: nat)
    requires i < |tokens| && !Skippable(tokens[i])
    ensures Shaped(tokens, Range(i, SentenceEnd(tokens, i)), BodyEnd(tokens, i))
  {
    hide IsBlank, IsParagraphBreak, IsSentenceEnd, Trails, BodyEnd, TrailEnd;
    BodyRun(tokens, i);
    if BodyEnd(tokens, i) < |tokens| {
      TrailRun(tokens, BodyEnd(tokens, i) + 1);
    }
  }

  /** Every range found is a well shaped sentence, and none starts before the token the search began at. */
  lemma {:induction false} EverySentenceShaped(tokens: seq<StoryToken>, i: nat, k: nat)
    requires i <= |tokens| && k < |Segments(tokens, i)|
    ensures i <= Segments(tokens, i)[k].start < |tokens|
    ensures Shaped(tokens, Segments(tokens, i)[k], BodyEnd(tokens, Segments(tokens, i)[k].start))
    decreases |tokens| - i
  {
    hide IsBlank, IsParagraphBreak, Shaped, BodyEnd, SentenceEnd;
    if Skippable(tokens[i]) {
      EverySentenceShaped(tokens, i + 1, k);
    } else if k == 0 {
      SentenceShape(tokens, i);
    } else {
      EverySentenceShaped(tokens, SentenceEnd(tokens, i), k - 1);
    }
  }

  lemma {:induction false} SentencesOrdered(tokens: seq<StoryToken>, i: nat)
    requires i <= |tokens|
    ensures Ordered(Segments(tokens, i))
    decreases |tokens| - i
  {
    hide IsBlank, IsParagraphBreak, Shaped, BodyEnd, SentenceEnd;
    if i < |tokens| {
      if Skippable(tokens[i]) {
        SentencesOrdered(tokens, i + 1);
      } else {
        var rest := Segments(tokens, SentenceEnd(tokens, i));
        SentencesOrdered(tokens, SentenceEnd(tokens, i));
        forall k | 0 <= k < |rest| ensures SentenceEnd(tokens, i) <= rest[k].start {
          EverySentenceShaped(tokens, SentenceEnd(tokens, i), k);
        }
      }
    }
  }

  /** No visible token that is not a paragraph break falls between two sentences. */
  lemma {:induction false} NoTokenMissed(tokens: seq<StoryToken>, i: nat, j: nat) returns (k: nat)
    requires i <= j < |tokens| && !Skippable(tokens[j])
    ensures k < |Segments(tokens, i)| && Holds(Segments(tokens, i)[k], j)
    decreases |tokens| - i
  {
    hide IsBlank, IsParagraphBreak, BodyEnd, SentenceEnd;
    if Skippable(tokens[i]) {
      k := NoTokenMissed(tokens, i + 1, j);
    } else if j < SentenceEnd(tokens, i) {
      k := 0;
    } else {
      var k' := NoTokenMissed(tokens, SentenceEnd(tokens, i), j);
      k := k' + 1;
    }
  }

  // ---------------------------------------------------------------------------------------
  // Positions
  // ---------------------------------------------------------------------------------------

  predicate Increasing(tokens: seq<StoryToken>) {
    forall i, j :: 0 <= i < j < |tokens| ==> tokens[i].position < tokens[j].position
  }

  predicate Covers(s: SentenceSpan, position: int) {
    s.start <= position < s.end
  }

  predicate Disjoint(spans: seq<SentenceSpan>) {
    forall j, k :: 0 <= j < k < |spans| ==> spans[j].end <= spans[k].start
  }

  /** Over increasing positions, covering a token's position and holding its index are the same. */
  lemma {:induction false} CoversIffHolds(tokens: seq<StoryToken>, r: Range, index: nat, j: nat)
    requires Increasing(tokens) && r.start < r.end <= |tokens| && j < |tokens|
    ensures Covers(SpanOf(tokens, r, index), tokens[j].position) <==> Holds(r, j)
    ensures SpanOf(tokens, r, index).start < tokens[j].position <==> r.start < j
  {
    hide SentenceText;
    var last := r.end - 1;
    assert j < r.start ==> tokens[j].position < tokens[r.start].position;
    assert r.start < j ==> tokens[r.start].position < tokens[j].position;
    assert j < last ==> tokens[j].position < tokens[last].position;
    assert last < j ==> tokens[last].position < tokens[j].position;
  }

  /** The spans are numbered in order, non-empty, visible and disjoint. */
  lemma {:induction false} SpansDisjoint(tokens: seq<StoryToken>)
    requires Increasing(tokens)
    ensures Disjoint(AllSpans(tokens))
    ensures forall k :: 0 <= k < |AllSpans(tokens)| ==>
              var s := AllSpans(tokens)[k]; s.index == k && s.start < s.end && s.text != ""
  {
    hide IsBlank, IsParagraphBreak, IsSentenceEnd, IsClosingPunctuation, Shaped, SentenceText, Segments, SpansOf,
         Increasing, SpanOf, Trails;
    SegmentsInBounds(tokens, 0);
    var ranges := Segments(tokens, 0);
    var spans := AllSpans(tokens);
    SentencesOrdered(tokens, 0);
    forall j, k | 0 <= j < k < |spans| ensures spans[j].end <= spans[k].start {
      SpanBefore(tokens, ranges[j], ranges[k], j, k);
    }
    forall k | 0 <= k < |spans|
      ensures spans[k].index == k && spans[k].start < spans[k].end && spans[k].text != "" {
      EverySentenceShaped(tokens, 0, k);
      VisibleSpan(tokens, ranges[k], k);
    }
  }

  lemma {:induction false} SpanBefore(tokens: seq<StoryToken>, r: Range, s: Range, j: nat, k: nat)
    requires Increasing(tokens) && r.start < r.end <= s.start < s.end <= |tokens|
    ensures SpanOf(tokens, r, j).end <= SpanOf(tokens, s, k).start
  {
    hide SentenceText;
    assert tokens[r.end - 1].position < tokens[s.start].position;
  }

  lemma {:induction false} VisibleSpan(tokens: seq<StoryToken>, r: Range, k: nat)
    requires Increasing(tokens) && r.start < r.end <= |tokens|
    requires Shaped(tokens, r, BodyEnd(tokens, r.start))
    ensures SpanOf(tokens, r, k).index == k && SpanOf(tokens, r, k).start < SpanOf(tokens, r, k).end
    ensures SpanOf(tokens, r, k).text != ""
  {
    hide SentenceText, IsBlank, IsParagraphBreak, IsSentenceEnd, AllBody, AllTrail, Trails, BodyEnd;
    assert r.start < r.end - 1 ==> tokens[r.start].position < tokens[r.end - 1].position;
    assert tokens[r.start..r.end][0] == tokens[r.start];
    VisibleText(tokens[r.start..r.end]);
  }

  /** A visible token that is not a paragraph break lies in exactly one span. */
  lemma {:induction false} EachTokenInOneSpan(tokens: seq<StoryToken>, j: nat) returns (k: nat)
    requires Increasing(tokens) && j < |tokens| && !Skippable(tokens[j])
    ensures k < |AllSpans(tokens)| && Covers(AllSpans(tokens)[k], tokens[j].position)
    ensures forall m :: 0 <= m < |AllSpans(tokens)| && Covers(AllSpans(tokens)[m], tokens[j].position) ==> m == k
  {
    hide IsBlank, IsParagraphBreak, IsSentenceEnd, SentenceText, Segments, SpansOf, Increasing, SpanOf;
    SegmentsInBounds(tokens, 0);
    k := NoTokenMissed(tokens, 0, j);
    CoversIffHolds(tokens, Segments(tokens, 0)[k], k, j);
    SpansDisjoint(tokens);
  }

  // ---------------------------------------------------------------------------------------
  // Finding the sentence at a position
  // ---------------------------------------------------------------------------------------

  method SentenceAt(tokens: seq<StoryToken>, position: int) returns (found: Option<SentenceSpan>)
    ensures found.Some? ==> found.value in AllSpans(tokens) && Covers(found.value, position)
    ensures found.None? ==> forall k :: 0 <= k < |AllSpans(tokens)| ==> !Covers(AllSpans(tokens)[k], position)
    ensures Increasing(tokens) && found.Some? ==>
              forall k :: 0 <= k < |AllSpans(tokens)| && Covers(AllSpans(tokens)[k], position) ==>
                AllSpans(tokens)[k] == found.value
  {
    hide AllSpans, Increasing;
    var spans := SentenceSpans(tokens);
    if Increasing(tokens) {
      SpansDisjoint(tokens);
    }
    for i := 0 to |spans|
      invariant forall k :: 0 <= k < i ==> !Covers(spans[k], position)
    {
      if position >= spans[i].start && position < spans[i].end {
        return Some(spans[i]);
      }
    }
    return None;
  }

  // ---------------------------------------------------------------------------------------
  // What a span says
  // ---------------------------------------------------------------------------------------

  /** Where the surface of token i begins when surfaces are written one behind the other. */
  function Offset(tokens: seq<StoryToken>, i: nat): nat
    requires i <= |tokens|
  {
    if i == 0 then 0 else Offset(tokens, i - 1) + |tokens[i - 1].surface|
  }

  /** Every token's surface stands at its offset, and nothing else is there. */
  predicate WrittenOut(text: string, tokens: seq<StoryToken>) {
    && |text| == Offset(tokens, |tokens|)
    && forall i: nat :: i < |tokens| ==> StandsAt(text, tokens, i)
  }

  predicate StandsAt(text: string, tokens: seq<StoryToken>, i: nat)
    requires i < |tokens|
  {
    Offset(tokens, i + 1) <= |text| && text[Offset(tokens, i)..Offset(tokens, i + 1)] == tokens[i].surface
  }

  lemma {:induction false} OffsetOfPrefix(tokens: seq<StoryToken>, n: nat, i: nat)
    requires i <= n <= |tokens|
    ensures Offset(tokens[..n], i) == Offset(tokens, i)
  {
    if i > 0 {
      OffsetOfPrefix(tokens, n, i - 1);
    }
  }

  lemma {:induction false} ConcatIsWritten(tokens: seq<StoryToken>)
    ensures WrittenOut(Concat(tokens), tokens)
  {
    if tokens != [] {
      var n := |tokens| - 1;
      var init := tokens[..n];
      ConcatIsWritten(init);
      OffsetOfPrefix(tokens, n, n);
      forall i: nat | i < |tokens| ensures StandsAt(Concat(tokens), tokens, i) {
        if i < n {
          assert StandsAt(Concat(init), init, i);
          OffsetOfPrefix(tokens, n, i);
          OffsetOfPrefix(tokens, n, i + 1);
        }
      }
    }
  }

  lemma {:induction false} VisibleRun(tokens: seq<StoryToken>, k: nat)
    requires k < |Segments(tokens, 0)|
    ensures var r := Segments(tokens, 0)[k];
            r.start < r.end <= |tokens| && SentenceText(tokens[r.start..r.end]) != ""
  {
    hide SentenceText, Segments, IsBlank, AllBody, AllTrail;
    EverySentenceShaped(tokens, 0, k);
    var r := Segments(tokens, 0)[k];
    assert tokens[r.start..r.end][0] == tokens[r.start];
    VisibleText(tokens[r.start..r.end]);
  }

  /** The text of every span is its tokens as written, without the white space around them. */
  lemma {:induction false} SpanTextIsWritten(tokens: seq<StoryToken>, k: nat) returns (before: string, after: string)
    requires k < |AllSpans(tokens)|
    ensures k < |Segments(tokens, 0)| && Segments(tokens, 0)[k].start < Segments(tokens, 0)[k].end <= |tokens|
    ensures var r, text := Segments(tokens, 0)[k], AllSpans(tokens)[k].text;
            && WrittenOut(before + text + after, tokens[r.start..r.end])
            && IsBlank(before) && IsBlank(after)
            && text != "" && !IsSpace(text[0]) && !IsSpace(text[|text| - 1])
  {
    hide Segments, Concat, IsBlank, IsSpace, WrittenOut;
    SegmentsInBounds(tokens, 0);
    var r := Segments(tokens, 0)[k];
    var run := tokens[r.start..r.end];
    VisibleRun(tokens, k);
    ConcatIsWritten(run);
    before, after := TrimSpaceSplits(Concat(run));
  }
}
