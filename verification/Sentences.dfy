/** Reader sentence segmentation over ordered story tokens. */
module Sentences {
  import opened Text

  datatype StoryToken = StoryToken(position: int, surface: string, isWord: bool)

  /** Half-open over token positions. */
  datatype SentenceSpan = SentenceSpan(index: nat, start: int, end: int, text: string)

  // ---------------------------------------------------------------------------------------
  // Characters and surfaces
  // ---------------------------------------------------------------------------------------

  /** Full stop, exclamation mark, question mark, Greek question mark, ano teleia, ellipsis. */
  predicate IsTerminator(c: char) {
    c == '.' || c == '!' || c == '?' || c == ';' || c == '\U{00B7}' || c == '\U{2026}'
  }

  predicate IsCloser(c: char) {
    || c == '\'' || c == '"' || c == '\U{201D}' || c == '\U{2019}' || c == '\U{00BB}' || c == '\U{203A}'
    || c == ')' || c == ']' || c == '}'
  }

  predicate IsSentenceEnd(surface: string) {
    exists k :: 0 <= k < |surface| && IsTerminator(surface[k])
  }

  predicate IsClosingPunctuation(surface: string) {
    var s := TrimSpace(surface);
    s != "" && forall k :: 0 <= k < |s| ==> IsCloser(s[k])
  }

  predicate IsParagraphBreak(surface: string) {
    exists k :: 0 <= k < |surface| - 1 && surface[k] == '\n' && surface[k + 1] == '\n'
  }

  /** A token that may follow the terminator inside the same sentence. */
  predicate Trails(t: StoryToken) {
    !IsBlank(t.surface) && !t.isWord && (IsSentenceEnd(t.surface) || IsClosingPunctuation(t.surface))
  }

  /** Where a cut set is trimmed off both ends, as long as there is something to trim. */
  function TrimSet(s: string, cutset: string): string {
    if s == "" then ""
    else if s[0] in cutset then TrimSet(s[1..], cutset)
    else if s[|s| - 1] in cutset then TrimSet(s[..|s| - 1], cutset)
    else s
  }

  lemma {:induction false} TrimsToNothing(s: string, cutset: string)
    ensures TrimSet(s, cutset) == "" <==> forall k :: 0 <= k < |s| ==> s[k] in cutset
    decreases |s|
  {
    if s != "" {
      if s[0] in cutset {
        TrimsToNothing(s[1..], cutset);
        assert forall k :: 0 < k < |s| ==> s[k] == s[1..][k - 1];
      } else if s[|s| - 1] in cutset {
        TrimsToNothing(s[..|s| - 1], cutset);
      }
    }
  }

  const TERMINATORS := ".!?;\U{00B7}\U{2026}"
  const CLOSERS := "'\"\U{201D}\U{2019}\U{00BB}\U{203A})]}"

  lemma {:induction false} MarksListed(c: char)
    ensures (IsTerminator(c) <==> c in TERMINATORS) && (IsCloser(c) <==> c in CLOSERS)
  {
  }

  /** A sentence ends with one of six characters, and closing punctuation is what quotes and brackets trimmed off leave
      nothing of. */
  lemma {:induction false} MarksIff(surface: string)
    ensures IsSentenceEnd(surface) <==> exists k :: 0 <= k < |surface| && surface[k] in TERMINATORS
    ensures IsClosingPunctuation(surface) <==> var s := TrimSpace(surface); s != "" && TrimSet(s, CLOSERS) == ""
  {
    hide TrimSpace;
    var s := TrimSpace(surface);
    TrimsToNothing(s, CLOSERS);
    forall c ensures (IsTerminator(c) <==> c in TERMINATORS) && (IsCloser(c) <==> c in CLOSERS) {
      MarksListed(c);
    }
    hide IsTerminator, IsCloser;
  }

  /** A paragraph breaks where two line feeds follow each other. */
  lemma {:induction false} ParagraphBreakIff(surface: string)
    ensures IsParagraphBreak(surface) <==> exists before, after :: surface == before + "\n\n" + after
  {
    if IsParagraphBreak(surface) {
      var k :| 0 <= k < |surface| - 1 && surface[k] == '\n' && surface[k + 1] == '\n';
      assert surface == surface[..k] + "\n\n" + surface[k + 2..];
    }
    if before, after :| surface == before + "\n\n" + after {
      assert surface[|before|] == '\n' && surface[|before| + 1] == '\n';
    }
  }

  /** Behind the terminator a sentence goes on with punctuation that is no word: more terminators or closing marks. */
  lemma {:induction false} TrailsIff(t: StoryToken)
    ensures Trails(t) <==> !t.isWord && TrimSpace(t.surface) != ""
                           && (IsSentenceEnd(t.surface) || IsClosingPunctuation(t.surface))
  {
    hide TrimSpace, IsClosingPunctuation, IsSentenceEnd;
    BlankIffTrimmed(t.surface);
  }

  function Concat(tokens: seq<StoryToken>): string {
    if tokens == [] then "" else Concat(tokens[..|tokens| - 1]) + tokens[|tokens| - 1].surface
  }

  function SentenceText(tokens: seq<StoryToken>): string {
    TrimSpace(Concat(tokens))
  }

  lemma {:induction false} TrimKeepsInk(s: string, k: nat)
    requires k < |s| && !IsSpace(s[k])
    ensures TrimSpace(s) != ""
  {
    TrimLeftKeepsInk(s, k);
    var t := TrimLeft(s);
    var j :| 0 <= j < |t| && !IsSpace(t[j]);
    TrimRightKeepsInk(t, j);
  }

  lemma {:induction false} TrimLeftKeepsInk(s: string, k: nat)
    requires k < |s| && !IsSpace(s[k])
    ensures exists j :: 0 <= j < |TrimLeft(s)| && !IsSpace(TrimLeft(s)[j])
  {
    if IsSpace(s[0]) {
      TrimLeftKeepsInk(s[1..], k - 1);
      assert TrimLeft(s) == TrimLeft(s[1..]);
    } else {
      assert !IsSpace(TrimLeft(s)[k]);
    }
  }

  lemma {:induction false} TrimRightKeepsInk(s: string, k: nat)
    requires k < |s| && !IsSpace(s[k])
    ensures TrimRight(s) != ""
  {
    if IsSpace(s[|s| - 1]) {
      TrimRightKeepsInk(s[..|s| - 1], k);
    }
  }

  lemma {:induction false} ConcatHolds(tokens: seq<StoryToken>, i: nat) returns (k: nat)
    requires i < |tokens| && !IsBlank(tokens[i].surface)
    ensures k < |Concat(tokens)| && !IsSpace(Concat(tokens)[k])
  {
    var last := |tokens| - 1;
    if i == last {
      var j :| 0 <= j < |tokens[i].surface| && !IsSpace(tokens[i].surface[j]);
      k := |Concat(tokens[..last])| + j;
    } else {
      k := ConcatHolds(tokens[..last], i);
    }
  }

  /** A run of tokens with a visible one has a visible text. */
  lemma {:induction false} VisibleText(tokens: seq<StoryToken>)
    requires tokens != [] && !IsBlank(tokens[0].surface)
    ensures SentenceText(tokens) != ""
  {
    var k := ConcatHolds(tokens, 0);
    TrimKeepsInk(Concat(tokens), k);
  }

  // ---------------------------------------------------------------------------------------
  // Segments: where the sentences are
  // ---------------------------------------------------------------------------------------

  /** Half-open over token indexes. */
  datatype Range = Range(start: nat, end: nat)

  /** The first token from i on that breaks the paragraph or ends a sentence. */
  function BodyEnd(tokens: seq<StoryToken>, i: nat): (e: nat)
    requires i <= |tokens|
    ensures i <= e <= |tokens|
    ensures e < |tokens| ==> IsParagraphBreak(tokens[e].surface) || IsSentenceEnd(tokens[e].surface)
    decreases |tokens| - i
  {
    if i == |tokens| || IsParagraphBreak(tokens[i].surface) || IsSentenceEnd(tokens[i].surface) then i
    else BodyEnd(tokens, i + 1)
  }

  /** The end of the run of trailing punctuation that starts at i. */
  function TrailEnd(tokens: seq<StoryToken>, i: nat): (e: nat)
    requires i <= |tokens|
    ensures i <= e <= |tokens|
    decreases |tokens| - i
  {
    if i < |tokens| && Trails(tokens[i]) then TrailEnd(tokens, i + 1) else i
  }

  /** The sentence that starts at i. */
  function SentenceEnd(tokens: seq<StoryToken>, i: nat): (e: nat)
    requires i < |tokens| && !IsParagraphBreak(tokens[i].surface)
    ensures i < e <= |tokens|
  {
    var e := BodyEnd(tokens, i);
    if e == |tokens| || IsParagraphBreak(tokens[e].surface) then e else TrailEnd(tokens, e + 1)
  }

  /** The sentences from token i on: skip blanks and breaks, then take a sentence. */
  function Segments(tokens: seq<StoryToken>, i: nat): (ranges: seq<Range>)
    requires i <= |tokens|
    decreases |tokens| - i
  {
    if i == |tokens| then []
    else if IsBlank(tokens[i].surface) || IsParagraphBreak(tokens[i].surface) then Segments(tokens, i + 1)
    else [Range(i, SentenceEnd(tokens, i))] + Segments(tokens, SentenceEnd(tokens, i))
  }

  function SpanOf(tokens: seq<StoryToken>, r: Range, index: nat): SentenceSpan
    requires r.start < r.end <= |tokens|
  {
    SentenceSpan(index, tokens[r.start].position, tokens[r.end - 1].position + 1,
                 SentenceText(tokens[r.start..r.end]))
  }

  predicate InBounds(ranges: seq<Range>, n: nat) {
    forall k :: 0 <= k < |ranges| ==> ranges[k].start < ranges[k].end <= n
  }

  function SpansOf(tokens: seq<StoryToken>, ranges: seq<Range>): (spans: seq<SentenceSpan>)
    requires InBounds(ranges, |tokens|)
    ensures |spans| == |ranges|
    ensures forall k :: 0 <= k < |ranges| ==> spans[k] == SpanOf(tokens, ranges[k], k)
  {
    seq(|ranges|, k requires 0 <= k < |ranges| => SpanOf(tokens, ranges[k], k))
  }

  // ---------------------------------------------------------------------------------------
  // The loops
  // ---------------------------------------------------------------------------------------

  method IncludeClosingPunctuation(tokens: seq<StoryToken>, from: nat) returns (end: nat)
    requires from <= |tokens|
    ensures end == TrailEnd(tokens, from)
  {
    end := from;
    while end < |tokens|
      invariant from <= end <= |tokens|
      invariant TrailEnd(tokens, end) == TrailEnd(tokens, from)
    {
      var surface := tokens[end].surface;
      if IsBlank(surface) || tokens[end].isWord {
        break;
      }
      if !IsSentenceEnd(surface) && !IsClosingPunctuation(surface) {
        break;
      }
      end := end + 1;
    }
  }

  method AppendSpan(spans: seq<SentenceSpan>, tokens: seq<StoryToken>) returns (longer: seq<SentenceSpan>)
    ensures longer == if tokens == [] || SentenceText(tokens) == "" then spans
                      else spans + [SentenceSpan(|spans|, tokens[0].position,
                                                 tokens[|tokens| - 1].position + 1, SentenceText(tokens))]
  {
    if |tokens| == 0 {
      return spans;
    }
    var text := SentenceText(tokens);
    if text == "" {
      return spans;
    }
    return spans + [SentenceSpan(|spans|, tokens[0].position, tokens[|tokens| - 1].position + 1, text)];
  }

  lemma {:induction false} SegmentsInBounds(tokens: seq<StoryToken>, i: nat)
    requires i <= |tokens|
    ensures InBounds(Segments(tokens, i), |tokens|)
    decreases |tokens| - i
  {
    if i < |tokens| {
      if IsBlank(tokens[i].surface) || IsParagraphBreak(tokens[i].surface) {
        SegmentsInBounds(tokens, i + 1);
      } else {
        SegmentsInBounds(tokens, SentenceEnd(tokens, i));
      }
    }
  }

  /** The specification of the segmentation. */
  function AllSpans(tokens: seq<StoryToken>): seq<SentenceSpan> {
    SegmentsInBounds(tokens, 0);
    SpansOf(tokens, Segments(tokens, 0))
  }

  /** The ranges found so far and the sentences still to come are all the sentences. */
  ghost predicate Found(tokens: seq<StoryToken>, ranges: seq<Range>, i: nat) {
    && i <= |tokens| && InBounds(ranges, |tokens|)
    && ranges + Segments(tokens, i) == Segments(tokens, 0)
  }

  lemma {:induction false} TakeSentence(tokens: seq<StoryToken>, ranges: seq<Range>, start: nat)
    requires Found(tokens, ranges, start) && start < |tokens|
    requires !IsBlank(tokens[start].surface) && !IsParagraphBreak(tokens[start].surface)
    ensures InBounds(ranges + [Range(start, SentenceEnd(tokens, start))], |tokens|)
    ensures Found(tokens, ranges + [Range(start, SentenceEnd(tokens, start))], SentenceEnd(tokens, start))
  {
    hide IsBlank, IsSentenceEnd, IsParagraphBreak, IsClosingPunctuation, SentenceEnd, BodyEnd, TrailEnd;
    var r := Range(start, SentenceEnd(tokens, start));
    assert ranges + ([r] + Segments(tokens, r.end)) == (ranges + [r]) + Segments(tokens, r.end);
  }

  lemma {:induction false} AppendRange(tokens: seq<StoryToken>, ranges: seq<Range>, r: Range)
    requires InBounds(ranges, |tokens|) && InBounds(ranges + [r], |tokens|) && r.start < r.end <= |tokens|
    ensures SpansOf(tokens, ranges + [r]) == SpansOf(tokens, ranges) + [SpanOf(tokens, r, |ranges|)]
  {
    hide SpansOf, SentenceText;
  }

  lemma {:induction false} CloseSentence(tokens: seq<StoryToken>, ranges: seq<Range>, start: nat, end: nat)
    requires Found(tokens, ranges, start) && start < |tokens|
    requires !IsBlank(tokens[start].surface) && !IsParagraphBreak(tokens[start].surface)
    requires end == SentenceEnd(tokens, start)
    ensures SentenceText(tokens[start..end]) != ""
    ensures InBounds(ranges + [Range(start, end)], |tokens|)
    ensures Found(tokens, ranges + [Range(start, end)], end)
    ensures SpansOf(tokens, ranges + [Range(start, end)])
         == SpansOf(tokens, ranges) + [SentenceSpan(|ranges|, tokens[start].position, tokens[end - 1].position + 1,
                                                    SentenceText(tokens[start..end]))]
  {
    hide IsBlank, IsSentenceEnd, IsParagraphBreak, IsClosingPunctuation, SentenceText, TrailEnd, BodyEnd,
         SentenceEnd, Segments, SpansOf;
    TakeSentence(tokens, ranges, start);
    AppendRange(tokens, ranges, Range(start, end));
    assert tokens[start..end][0] == tokens[start];
    VisibleText(tokens[start..end]);
  }

  lemma {:induction false} FirstFound(tokens: seq<StoryToken>)
    ensures InBounds([], |tokens|) && Found(tokens, [], 0) && SpansOf(tokens, []) == []
  {
    assert [] + Segments(tokens, 0) == Segments(tokens, 0);
  }

  lemma {:induction false} SkipToken(tokens: seq<StoryToken>, ranges: seq<Range>, i: nat)
    requires Found(tokens, ranges, i) && i < |tokens|
    requires IsBlank(tokens[i].surface) || IsParagraphBreak(tokens[i].surface)
    ensures Found(tokens, ranges, i + 1)
  {
  }

  lemma {:induction false} AllFound(tokens: seq<StoryToken>, ranges: seq<Range>)
    requires Found(tokens, ranges, |tokens|)
    ensures SpansOf(tokens, ranges) == AllSpans(tokens)
  {
    assert ranges + [] == ranges;
  }

  /** Appends the span of a sentence whose bounds are settled. */
  method EndSentence(tokens: seq<StoryToken>, spans: seq<SentenceSpan>, start: nat, end: nat, ghost ranges: seq<Range>)
    returns (longer: seq<SentenceSpan>, ghost more: seq<Range>)
    requires InBounds(ranges, |tokens|) && spans == SpansOf(tokens, ranges)
    requires Found(tokens, ranges, start) && start < |tokens|
    requires !IsBlank(tokens[start].surface) && !IsParagraphBreak(tokens[start].surface)
    requires end == SentenceEnd(tokens, start)
    ensures InBounds(more, |tokens|) && Found(tokens, more, end) && longer == SpansOf(tokens, more)
  {
    hide IsBlank, IsSentenceEnd, IsParagraphBreak, IsClosingPunctuation, SentenceText, TrailEnd, BodyEnd, SentenceEnd,
         SpansOf, InBounds, Found, Segments, SpanOf;
    CloseSentence(tokens, ranges, start, end);
    longer := AppendSpan(spans, tokens[start..end]);
    more := ranges + [Range(start, end)];
  }

  method SentenceSpans(tokens: seq<StoryToken>) returns (spans: seq<SentenceSpan>)
    ensures spans == AllSpans(tokens)
  {
    hide IsBlank, IsSentenceEnd, IsParagraphBreak, IsClosingPunctuation, SentenceText, TrailEnd, SpansOf,
         InBounds, Found, Segments, AllSpans, SpanOf;
    FirstFound(tokens);
    ghost var ranges: seq<Range> := [];
    spans := [];
    var start := -1;
    var i := 0;
    while i < |tokens|
      invariant 0 <= i <= |tokens| && -1 <= start < |tokens|
      invariant InBounds(ranges, |tokens|) && spans == SpansOf(tokens, ranges)
      invariant Found(tokens, ranges, if start == -1 then i else start)
      invariant start != -1 ==>
                  && start < i && !IsBlank(tokens[start].surface) && !IsParagraphBreak(tokens[start].surface)
                  && BodyEnd(tokens, start) == BodyEnd(tokens, i)
      decreases |tokens| - i
    {
      if start == -1 {
        if IsBlank(tokens[i].surface) {
          SkipToken(tokens, ranges, i);
          i := i + 1;
          continue;
        }
        start := i;
      }
      if IsParagraphBreak(tokens[i].surface) {
        if start < i {
          spans, ranges := EndSentence(tokens, spans, start, i, ranges);
        }
        SkipToken(tokens, ranges, i);
        start := -1;
        i := i + 1;
        continue;
      }
      if IsSentenceEnd(tokens[i].surface) {
        var end := IncludeClosingPunctuation(tokens, i + 1);
        spans, ranges := EndSentence(tokens, spans, start, end, ranges);
        start := -1;
        i := end - 1;
      }
      i := i + 1;
    }
    if start != -1 && start < |tokens| {
      spans, ranges := EndSentence(tokens, spans, start, |tokens|, ranges);
    }
    AllFound(tokens, ranges);
  }
}
