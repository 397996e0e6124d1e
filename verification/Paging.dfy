/** Reader pages over story tokens, and what paging does to sentences. */
module Paging {
  import opened Numbers
  import opened Wrappers
  import opened Text
  import opened Sentences
  import opened SentenceTheory

  const TARGET_TOKENS := 800
  const MAXIMUM_TOKENS := 1200

  /** Half-open over token indexes. */
  datatype Page = Page(start: nat, end: nat)

  // ---------------------------------------------------------------------------------------
  // Specification
  // ---------------------------------------------------------------------------------------

  /** A page that ended just before this position would cut the sentence. */
  predicate Cuts(s: SentenceSpan, boundary: int) {
    s.start < boundary < s.end
  }

  function FirstCut(spans: seq<SentenceSpan>, boundary: int): Option<SentenceSpan> {
    if spans == [] then None
    else if Cuts(spans[0], boundary) then Some(spans[0])
    else FirstCut(spans[1..], boundary)
  }

  /** Walks the page end to the end of the sentence, or to the longest page allowed. */
  function Extend(tokens: seq<StoryToken>, limit: int, start: nat, end: nat): (e: nat)
    requires start <= end <= |tokens|
    ensures end <= e <= |tokens|
    decreases |tokens| - end
  {
    if end < |tokens| && tokens[end].position < limit && end - start < MAXIMUM_TOKENS
    then Extend(tokens, limit, start, end + 1) else end
  }

  function PageEnd(tokens: seq<StoryToken>, spans: seq<SentenceSpan>, start: nat): (e: nat)
    requires start < |tokens|
    ensures start < e <= |tokens|
  {
    var end := Min(start + TARGET_TOKENS, |tokens|);
    if end == |tokens| then end
    else match FirstCut(spans, tokens[end].position)
      case Some(s) => Extend(tokens, s.end, start, end)
      case None => end
  }

  function Pages(tokens: seq<StoryToken>, spans: seq<SentenceSpan>, start: nat): seq<Page>
    requires start <= |tokens|
    decreases |tokens| - start
  {
    if start == |tokens| then []
    else [Page(start, PageEnd(tokens, spans, start))] + Pages(tokens, spans, PageEnd(tokens, spans, start))
  }

  // ---------------------------------------------------------------------------------------
  // The loops
  // ---------------------------------------------------------------------------------------

  method StoryTokenPages(tokens: seq<StoryToken>, spans: seq<SentenceSpan>) returns (pages: seq<Page>)
    ensures pages == Pages(tokens, spans, 0)
  {
    pages := [];
    var start := 0;
    while start < |tokens|
      invariant 0 <= start <= |tokens|
      invariant pages + Pages(tokens, spans, start) == Pages(tokens, spans, 0)
    {
      var end := Min(start + TARGET_TOKENS, |tokens|);
      if end < |tokens| {
        end := ExtendedEnd(tokens, spans, start, end);
      }
      if end <= start {
        end := Min(start + MAXIMUM_TOKENS, |tokens|);
      }
      ghost var rest := Pages(tokens, spans, end);
      assert pages + ([Page(start, end)] + rest) == (pages + [Page(start, end)]) + rest;
      pages := pages + [Page(start, end)];
      start := end;
    }
    assert pages + [] == pages;
  }

  /** The search for a sentence cut at the target, and the walk to its end. */
  method ExtendedEnd(tokens: seq<StoryToken>, spans: seq<SentenceSpan>, start: nat, target: nat) returns (end: nat)
    requires start <= target < |tokens|
    ensures end == match FirstCut(spans, tokens[target].position)
                   case Some(s) => Extend(tokens, s.end, start, target)
                   case None => target
  {
    end := target;
    var boundary := tokens[end].position;
    var i := 0;
    while i < |spans|
      invariant 0 <= i <= |spans| && end == target
      invariant FirstCut(spans[i..], boundary) == FirstCut(spans, boundary)
    {
      assert spans[i..][0] == spans[i] && spans[i..][1..] == spans[i + 1..];
      if Cuts(spans[i], boundary) {
        while end < |tokens| && tokens[end].position < spans[i].end && end - start < MAXIMUM_TOKENS
          invariant target <= end <= |tokens|
          invariant Extend(tokens, spans[i].end, start, end) == Extend(tokens, spans[i].end, start, target)
        {
          end := end + 1;
        }
        return;
      }
      i := i + 1;
    }
  }

  predicate Overlaps(s: SentenceSpan, from: int, to: int) {
    s.end > from && s.start < to
  }

  function Window(spans: seq<SentenceSpan>, from: int, to: int): seq<SentenceSpan> {
    if spans == [] then []
    else
      var init := Window(spans[..|spans| - 1], from, to);
      if Overlaps(spans[|spans| - 1], from, to) then init + [spans[|spans| - 1]] else init
  }

  method SentenceSpansForWindow(spans: seq<SentenceSpan>, from: int, to: int) returns (out: seq<SentenceSpan>)
    ensures out == Window(spans, from, to)
  {
    out := [];
    for i := 0 to |spans|
      invariant out == Window(spans[..i], from, to)
    {
      assert spans[..i + 1][..i] == spans[..i];
      if spans[i].end > from && spans[i].start < to {
        out := out + [spans[i]];
      }
    }
    assert spans[..|spans|] == spans;
  }

  // ---------------------------------------------------------------------------------------
  // Pages partition the story
  // ---------------------------------------------------------------------------------------

  /** From start to n without gaps; every page holds 1 to 1200 tokens, and 800 or more unless it is the last. */
  predicate Partition(pages: seq<Page>, start: nat, n: nat) {
    if pages == [] then start == n
    else
      && pages[0].start == start < pages[0].end <= n
      && pages[0].end - start <= MAXIMUM_TOKENS
      && (pages[0].end < n ==> TARGET_TOKENS <= pages[0].end - start)
      && Partition(pages[1..], pages[0].end, n)
  }

  lemma {:induction false} ExtendBounds(tokens: seq<StoryToken>, limit: int, start: nat, end: nat)
    requires start <= end <= |tokens| && end - start <= MAXIMUM_TOKENS
    ensures var e := Extend(tokens, limit, start, end);
            && e - start <= MAXIMUM_TOKENS
            && (e < |tokens| ==> limit <= tokens[e].position || e - start == MAXIMUM_TOKENS)
            && (end < e ==> tokens[e - 1].position < limit)
    decreases |tokens| - end
  {
    if end < |tokens| && tokens[end].position < limit && end - start < MAXIMUM_TOKENS {
      ExtendBounds(tokens, limit, start, end + 1);
    }
  }

  lemma {:induction false} PagesPartition(tokens: seq<StoryToken>, spans: seq<SentenceSpan>, start: nat)
    requires start <= |tokens|
    ensures Partition(Pages(tokens, spans, start), start, |tokens|)
    decreases |tokens| - start
  {
    if start < |tokens| {
      var end := Min(start + TARGET_TOKENS, |tokens|);
      if end < |tokens| {
        var cut := FirstCut(spans, tokens[end].position);
        if cut.Some? {
          ExtendBounds(tokens, cut.value.end, start, end);
        }
      }
      PagesPartition(tokens, spans, PageEnd(tokens, spans, start));
    }
  }

  // ---------------------------------------------------------------------------------------
  // Where a page may end
  // ---------------------------------------------------------------------------------------

  lemma {:induction false} FirstCutFound(spans: seq<SentenceSpan>, boundary: int)
    ensures match FirstCut(spans, boundary)
            case Some(s) => s in spans && Cuts(s, boundary)
            case None => forall k :: 0 <= k < |spans| ==> !Cuts(spans[k], boundary)
  {
    if spans != [] && !Cuts(spans[0], boundary) {
      FirstCutFound(spans[1..], boundary);
      assert forall k :: 0 < k < |spans| ==> spans[k] == spans[1..][k - 1];
    }
  }

  /** A page ends at the story's end, outside every sentence's interior, or at the longest length allowed. */
  lemma {:induction false} PageEndsCleanly(tokens: seq<StoryToken>, start: nat)
    requires Increasing(tokens) && start < |tokens|
    ensures var e := PageEnd(tokens, AllSpans(tokens), start);
            e == |tokens| || e - start == MAXIMUM_TOKENS
            || forall k :: 0 <= k < |AllSpans(tokens)| ==> !Cuts(AllSpans(tokens)[k], tokens[e].position)
  {
    hide AllSpans, Increasing, Extend;
    var spans := AllSpans(tokens);
    var target := Min(start + TARGET_TOKENS, |tokens|);
    var e := PageEnd(tokens, spans, start);
    if target < |tokens| {
      FirstCutFound(spans, tokens[target].position);
      var cut := FirstCut(spans, tokens[target].position);
      if cut.Some? && e < |tokens| {
        ExtendBounds(tokens, cut.value.end, start, target);
        if e - start != MAXIMUM_TOKENS {
          NoOtherCut(tokens, cut.value, e);
        }
      }
    }
  }

  /** The first token at or past a sentence's end is inside no sentence. */
  lemma {:induction false} NoOtherCut(tokens: seq<StoryToken>, s: SentenceSpan, e: nat)
    requires Increasing(tokens) && s in AllSpans(tokens) && 0 < e < |tokens|
    requires tokens[e - 1].position < s.end <= tokens[e].position
    ensures forall k :: 0 <= k < |AllSpans(tokens)| ==> !Cuts(AllSpans(tokens)[k], tokens[e].position)
  {
    hide Increasing, SentenceText, Segments, SpanOf, IsBlank, IsParagraphBreak, IsSentenceEnd;
    SegmentsInBounds(tokens, 0);
    var ranges := Segments(tokens, 0);
    var spans := AllSpans(tokens);
    var j :| 0 <= j < |spans| && spans[j] == s;
    SpansDisjoint(tokens);
    SentencesOrdered(tokens, 0);
    CoversIffHolds(tokens, ranges[j], j, e);
    CoversIffHolds(tokens, ranges[j], j, e - 1);
    EndIndex(tokens, ranges[j], j, e);
    forall k | 0 <= k < |spans| ensures !Cuts(spans[k], tokens[e].position) {
      if j < k {
        CoversIffHolds(tokens, ranges[k], k, e);
      }
    }
  }

  /** Positions and indexes are in the same order. */
  lemma {:induction false} InOrder(tokens: seq<StoryToken>, i: nat, j: nat)
    requires Increasing(tokens) && i < |tokens| && j < |tokens|
    ensures tokens[i].position <= tokens[j].position <==> i <= j
    ensures tokens[i].position < tokens[j].position <==> i < j
  {
  }

  lemma {:induction false} EndIndex(tokens: seq<StoryToken>, r: Range, index: nat, e: nat)
    requires Increasing(tokens) && r.start < r.end <= |tokens| && 0 < e < |tokens|
    requires tokens[e - 1].position < SpanOf(tokens, r, index).end <= tokens[e].position
    ensures r.end == e
  {
    hide SentenceText;
    var last := r.end - 1;
    InOrder(tokens, e - 1, last);
    InOrder(tokens, last, e);
  }

  lemma {:induction false} CutsInside(tokens: seq<StoryToken>, r: Range, index: nat, j: nat)
    requires Increasing(tokens) && r.start < r.end <= |tokens| && j < |tokens|
    ensures Cuts(SpanOf(tokens, r, index), tokens[j].position) <==> r.start < j < r.end
  {
    hide Increasing, SpanOf;
    CoversIffHolds(tokens, r, index, j);
  }

  /** The reach that makes a page cut a sentence: over its 800th token from before it, and over its 1200th. */
  predicate Overreaches(r: Range, start: nat) {
    r.start < start + TARGET_TOKENS < r.end && start + MAXIMUM_TOKENS < r.end
  }

  /** The sentence the target falls into is the one the page is extended for. */
  lemma {:induction false} CutAtTarget(tokens: seq<StoryToken>, k: nat, target: nat)
    requires Increasing(tokens) && k < |Segments(tokens, 0)| && target < |tokens|
    requires Segments(tokens, 0)[k].start < target < Segments(tokens, 0)[k].end
    ensures k < |AllSpans(tokens)|
    ensures FirstCut(AllSpans(tokens), tokens[target].position) == Some(AllSpans(tokens)[k])
  {
    hide Increasing, SentenceText, Segments, SpanOf, IsBlank, IsParagraphBreak, IsSentenceEnd, Disjoint, FirstCut;
    SegmentsInBounds(tokens, 0);
    SentencesOrdered(tokens, 0);
    var ranges := Segments(tokens, 0);
    var spans := AllSpans(tokens);
    CutsInside(tokens, ranges[k], k, target);
    assert Cuts(spans[k], tokens[target].position);
    FirstCutFound(spans, tokens[target].position);
    var s := FirstCut(spans, tokens[target].position).value;
    var j :| 0 <= j < |spans| && spans[j] == s;
    CutsInside(tokens, ranges[j], j, target);
    assert j == k;
  }

  /** Where a page ends: with the story; at its 800th token when no sentence lies across that; and else at the end of the
      sentence that does, or at the 1200th token if that is earlier. */
  lemma {:induction false} PageEndIs(tokens: seq<StoryToken>, start: nat)
    requires Increasing(tokens) && start < |tokens|
    ensures var e, target := PageEnd(tokens, AllSpans(tokens), start), start + 800;
            && (target >= |tokens| ==> e == |tokens|)
            && (target < |tokens| && (forall r :: r in Segments(tokens, 0) ==> !(r.start < target < r.end)) ==> e == target)
            && (forall r :: r in Segments(tokens, 0) && r.start < target < r.end ==> e == Min(r.end, start + 1200))
  {
    hide Increasing, SentenceText, Segments, SpanOf, Extend, Cuts;
    SegmentsInBounds(tokens, 0);
    var ranges, target := Segments(tokens, 0), start + TARGET_TOKENS;
    forall k | 0 <= k < |ranges| && ranges[k].start < target < ranges[k].end
      ensures PageEnd(tokens, AllSpans(tokens), start) == Min(ranges[k].end, start + MAXIMUM_TOKENS)
    {
      CutAtTarget(tokens, k, target);
      ExtendStops(tokens, ranges[k], k, start, target);
    }
    if target < |tokens| && FirstCut(AllSpans(tokens), tokens[target].position).Some? {
      var k := SomeAcross(tokens, target);
    }
  }

  lemma {:induction false} SomeAcross(tokens: seq<StoryToken>, target: nat) returns (k: nat)
    requires Increasing(tokens) && target < |tokens| && FirstCut(AllSpans(tokens), tokens[target].position).Some?
    ensures k < |Segments(tokens, 0)| && Segments(tokens, 0)[k].start < target < Segments(tokens, 0)[k].end
  {
    hide Increasing, SentenceText, Segments, SpanOf, FirstCut, Cuts;
    SegmentsInBounds(tokens, 0);
    var spans := AllSpans(tokens);
    FirstCutFound(spans, tokens[target].position);
    var s := FirstCut(spans, tokens[target].position).value;
    k :| 0 <= k < |spans| && spans[k] == s;
    CutsInside(tokens, Segments(tokens, 0)[k], k, target);
  }

  lemma {:induction false} ExtendStops(tokens: seq<StoryToken>, r: Range, index: nat, start: nat, end: nat)
    requires Increasing(tokens) && r.start < r.end <= |tokens| && start <= end <= |tokens|
    requires end <= r.end && end - start <= MAXIMUM_TOKENS
    ensures Extend(tokens, SpanOf(tokens, r, index).end, start, end) == Min(r.end, start + MAXIMUM_TOKENS)
    decreases |tokens| - end
  {
    hide Increasing, SentenceText;
    if end < |tokens| {
      InOrder(tokens, r.end - 1, end);
      if end < r.end && end - start < MAXIMUM_TOKENS {
        ExtendStops(tokens, r, index, start, end + 1);
      }
    }
  }

  /** A page that ends inside a sentence has 1200 tokens, and its 800th already fell into that sentence. */
  lemma {:induction false} CutFromTarget(tokens: seq<StoryToken>, start: nat, k: nat)
    requires Increasing(tokens) && start < |tokens| && k < |Segments(tokens, 0)|
    requires Segments(tokens, 0)[k].start < PageEnd(tokens, AllSpans(tokens), start) < Segments(tokens, 0)[k].end
    ensures PageEnd(tokens, AllSpans(tokens), start) == start + MAXIMUM_TOKENS
    ensures Segments(tokens, 0)[k].start < start + TARGET_TOKENS
  {
    hide Increasing, SentenceText, Segments, SpanOf, IsBlank, IsParagraphBreak, IsSentenceEnd, Extend, Disjoint,
         FirstCut;
    SegmentsInBounds(tokens, 0);
    SentencesOrdered(tokens, 0);
    var ranges := Segments(tokens, 0);
    var spans := AllSpans(tokens);
    var e := PageEnd(tokens, spans, start);
    PageEndsCleanly(tokens, start);
    CutsInside(tokens, ranges[k], k, e);
    assert Cuts(spans[k], tokens[e].position);
    var target := start + TARGET_TOKENS;
    FirstCutFound(spans, tokens[target].position);
    var s := FirstCut(spans, tokens[target].position).value;
    ExtendBounds(tokens, s.end, start, target);
    var j :| 0 <= j < |spans| && spans[j] == s;
    CutsInside(tokens, ranges[j], j, target);
    CutsInside(tokens, ranges[j], j, e - 1);
    InOrder(tokens, target, e - 1);
    assert Holds(ranges[j], e - 1) && Holds(ranges[k], e - 1);
    assert j == k;
  }

  /** A page cuts a sentence exactly when the sentence overreaches it. */
  lemma {:induction false} PageCutsIff(tokens: seq<StoryToken>, start: nat, k: nat)
    requires Increasing(tokens) && start < |tokens| && k < |Segments(tokens, 0)|
    ensures var r := Segments(tokens, 0)[k];
            r.start < PageEnd(tokens, AllSpans(tokens), start) < r.end <==> Overreaches(r, start)
  {
    hide Increasing, SentenceText, Segments, SpanOf, IsBlank, IsParagraphBreak, IsSentenceEnd, Extend, Disjoint,
         FirstCut;
    SegmentsInBounds(tokens, 0);
    var r := Segments(tokens, 0)[k];
    var spans := AllSpans(tokens);
    var e := PageEnd(tokens, spans, start);
    var target := start + TARGET_TOKENS;
    if Overreaches(r, start) {
      CutAtTarget(tokens, k, target);
      ExtendBounds(tokens, spans[k].end, start, target);
    }
    if r.start < e < r.end {
      CutFromTarget(tokens, start, k);
    }
  }

  /** A page that cuts a sentence holds 1200 tokens, and the sentence has at least 402. */
  lemma {:induction false} CutSentenceIsLong(tokens: seq<StoryToken>, start: nat, k: nat)
    requires Increasing(tokens) && start < |tokens| && k < |Segments(tokens, 0)|
    requires Segments(tokens, 0)[k].start < PageEnd(tokens, AllSpans(tokens), start) < Segments(tokens, 0)[k].end
    ensures PageEnd(tokens, AllSpans(tokens), start) - start == MAXIMUM_TOKENS
    ensures Segments(tokens, 0)[k].end - Segments(tokens, 0)[k].start >= MAXIMUM_TOKENS - TARGET_TOKENS + 2
  {
    hide Increasing, Segments, AllSpans, PageEnd;
    CutFromTarget(tokens, start, k);
    PageCutsIff(tokens, start, k);
  }

  // ---------------------------------------------------------------------------------------
  // Sentences and pages together
  // ---------------------------------------------------------------------------------------

  predicate OnPage(p: Page, j: nat) {
    p.start <= j < p.end
  }

  /** Each token from start on is on a page, and that page was cut by PageEnd. */
  lemma {:induction false} PageOf(tokens: seq<StoryToken>, spans: seq<SentenceSpan>, start: nat, j: nat) returns (k: nat)
    requires start <= j < |tokens|
    ensures k < |Pages(tokens, spans, start)| && OnPage(Pages(tokens, spans, start)[k], j)
    ensures Pages(tokens, spans, start)[k].end == PageEnd(tokens, spans, Pages(tokens, spans, start)[k].start)
    decreases |tokens| - start
  {
    hide PageEnd;
    if j < PageEnd(tokens, spans, start) {
      k := 0;
    } else {
      var k' := PageOf(tokens, spans, PageEnd(tokens, spans, start), j);
      k := k' + 1;
    }
  }

  /** The page a sentence starts on holds all of it exactly when the sentence does not overreach that page. */
  lemma {:induction false} WholeIffNotOverreaching(tokens: seq<StoryToken>, i: nat) returns (k: nat)
    requires Increasing(tokens) && i < |Segments(tokens, 0)|
    ensures k < |Pages(tokens, AllSpans(tokens), 0)|
    ensures OnPage(Pages(tokens, AllSpans(tokens), 0)[k], Segments(tokens, 0)[i].start)
    ensures Segments(tokens, 0)[i].end <= Pages(tokens, AllSpans(tokens), 0)[k].end
       <==> !Overreaches(Segments(tokens, 0)[i], Pages(tokens, AllSpans(tokens), 0)[k].start)
  {
    hide Increasing, Segments, AllSpans, PageEnd, Pages;
    SegmentsInBounds(tokens, 0);
    k := PageOf(tokens, AllSpans(tokens), 0, Segments(tokens, 0)[i].start);
    PageCutsIff(tokens, Pages(tokens, AllSpans(tokens), 0)[k].start, i);
  }

  /** A sentence of at most 401 tokens lies wholly on one page. */
  lemma {:induction false} NoSentenceCut(tokens: seq<StoryToken>, i: nat) returns (k: nat)
    requires Increasing(tokens) && i < |Segments(tokens, 0)|
    requires Segments(tokens, 0)[i].end - Segments(tokens, 0)[i].start <= MAXIMUM_TOKENS - TARGET_TOKENS + 1
    ensures k < |Pages(tokens, AllSpans(tokens), 0)|
    ensures Pages(tokens, AllSpans(tokens), 0)[k].start <= Segments(tokens, 0)[i].start
    ensures Segments(tokens, 0)[i].end <= Pages(tokens, AllSpans(tokens), 0)[k].end
  {
    hide Segments, AllSpans, Pages;
    k := WholeIffNotOverreaching(tokens, i);
  }

  // ---------------------------------------------------------------------------------------
  // Finding a page
  // ---------------------------------------------------------------------------------------

  predicate Consecutive(pages: seq<Page>, n: nat) {
    forall k :: 0 <= k < |pages| ==> pages[k].start < pages[k].end <= n && EndsBeforeLater(pages, k)
  }

  predicate EndsBeforeLater(pages: seq<Page>, k: nat)
    requires k < |pages|
  {
    forall m :: k < m < |pages| ==> pages[k].end <= pages[m].start
  }

  lemma {:induction false} PartitionConsecutive(pages: seq<Page>, start: nat, n: nat)
    requires Partition(pages, start, n)
    ensures Consecutive(pages, n) && forall k :: 0 <= k < |pages| ==> start <= pages[k].start
  {
    if pages != [] {
      PartitionConsecutive(pages[1..], pages[0].end, n);
      forall k | 0 < k < |pages|
        ensures start <= pages[k].start < pages[k].end <= n && pages[0].end <= pages[k].start
        ensures EndsBeforeLater(pages, k) {
        assert pages[k] == pages[1..][k - 1];
        assert EndsBeforeLater(pages[1..], k - 1);
        assert forall m :: k < m < |pages| ==> pages[m] == pages[1..][m - 1];
      }
    }
  }

  /** The index of the first page whose last token is at or past the position, or the last page. */
  method StoryTokenPageAt(tokens: seq<StoryToken>, pages: seq<Page>, position: int) returns (at: int)
    requires forall k :: 0 <= k < |pages| ==> pages[k].start < pages[k].end <= |tokens|
    ensures -1 <= at < |pages| && (at == -1 <==> pages == [])
    ensures forall k :: 0 <= k < at ==> tokens[pages[k].end - 1].position < position
    ensures 0 <= at < |pages| - 1 ==> position <= tokens[pages[at].end - 1].position
  {
    for i := 0 to |pages|
      invariant forall k :: 0 <= k < i ==> tokens[pages[k].end - 1].position < position
    {
      if position <= tokens[pages[i].end - 1].position {
        return i;
      }
    }
    return |pages| - 1;
  }

  /** Asked for a token's position, the search gives the page the token is on. */
  method PageOfToken(tokens: seq<StoryToken>, j: nat) returns (at: int)
    requires Increasing(tokens) && j < |tokens|
    ensures 0 <= at < |Pages(tokens, AllSpans(tokens), 0)| && OnPage(Pages(tokens, AllSpans(tokens), 0)[at], j)
  {
    hide AllSpans, PageEnd, Pages, Increasing;
    var spans := SentenceSpans(tokens);
    var pages := StoryTokenPages(tokens, spans);
    PagesPartition(tokens, spans, 0);
    PartitionConsecutive(pages, 0, |tokens|);
    at := StoryTokenPageAt(tokens, pages, tokens[j].position);
    ghost var k := PageOf(tokens, spans, 0, j);
    InOrder(tokens, j, pages[k].end - 1);
    if at < k {
      assert EndsBeforeLater(pages, at);
      InOrder(tokens, pages[at].end - 1, j);
    }
  }

  // ---------------------------------------------------------------------------------------
  // The sentences shown with a page
  // ---------------------------------------------------------------------------------------

  lemma {:induction false} WindowMembers(spans: seq<SentenceSpan>, from: int, to: int, s: SentenceSpan)
    ensures s in Window(spans, from, to) <==> s in spans && Overlaps(s, from, to)
  {
    if spans != [] {
      WindowMembers(spans[..|spans| - 1], from, to, s);
      assert spans == spans[..|spans| - 1] + [spans[|spans| - 1]];
    }
  }

  lemma {:induction false} WindowInOrder(spans: seq<SentenceSpan>, from: int, to: int)
    requires Disjoint(spans)
    ensures Disjoint(Window(spans, from, to))
  {
    if spans != [] {
      var init := spans[..|spans| - 1];
      WindowInOrder(init, from, to);
      var shown := Window(init, from, to);
      forall k | 0 <= k < |shown| ensures shown[k].end <= spans[|spans| - 1].start {
        WindowMembers(init, from, to, shown[k]);
      }
    }
  }

  predicate Within(r: Range, p: Page) {
    p.start <= r.start && r.end <= p.end
  }

  lemma {:induction false} OverlapsIffShares(tokens: seq<StoryToken>, r: Range, index: nat, p: Page)
    requires Increasing(tokens) && r.start < r.end <= |tokens| && p.start < p.end <= |tokens|
    ensures Overlaps(SpanOf(tokens, r, index), tokens[p.start].position, tokens[p.end - 1].position + 1)
       <==> r.start < p.end && p.start < r.end
  {
    hide SentenceText, Increasing;
    if r.start < p.end {
      InOrder(tokens, r.start, p.end - 1);
    } else {
      InOrder(tokens, p.end - 1, r.start);
    }
    if p.start < r.end {
      InOrder(tokens, p.start, r.end - 1);
    } else {
      InOrder(tokens, r.end - 1, p.start);
    }
  }

  /** Sentences of at most 401 tokens: the page shows a sentence exactly when it holds all of it. */
  lemma {:induction false} PageShowsWholeSentences(tokens: seq<StoryToken>, k: nat, i: nat)
    requires Increasing(tokens) && k < |Pages(tokens, AllSpans(tokens), 0)| && i < |Segments(tokens, 0)|
    requires Segments(tokens, 0)[i].end - Segments(tokens, 0)[i].start <= MAXIMUM_TOKENS - TARGET_TOKENS + 1
    ensures var p := Pages(tokens, AllSpans(tokens), 0)[k];
            && p.start < p.end <= |tokens|
            && (AllSpans(tokens)[i] in Window(AllSpans(tokens), tokens[p.start].position, tokens[p.end - 1].position + 1)
                <==> Within(Segments(tokens, 0)[i], p))
  {
    hide Increasing, Segments, PageEnd, Pages, SpanOf, Partition, Window, Overlaps;
    SegmentsInBounds(tokens, 0);
    var r := Segments(tokens, 0)[i];
    var spans := AllSpans(tokens);
    var pages := Pages(tokens, spans, 0);
    PagesPartition(tokens, spans, 0);
    PartitionConsecutive(pages, 0, |tokens|);
    var p := pages[k];
    WindowMembers(spans, tokens[p.start].position, tokens[p.end - 1].position + 1, spans[i]);
    OverlapsIffShares(tokens, r, i, p);
    var home := NoSentenceCut(tokens, i);
    assert EndsBeforeLater(pages, k) && EndsBeforeLater(pages, home);
  }

  // ---------------------------------------------------------------------------------------
  // A sentence of 402 tokens that is cut
  // ---------------------------------------------------------------------------------------

  /** 799 blanks and then one sentence of 402 words. */
  function LongSentence(): (tokens: seq<StoryToken>)
    ensures |tokens| == 1201
    ensures forall k :: 0 <= k < 1201 ==> tokens[k] == StoryToken(k, if k < 799 then " " else "a", k >= 799)
  {
    seq(1201, k requires 0 <= k < 1201 => StoryToken(k, if k < 799 then " " else "a", k >= 799))
  }

  lemma {:induction false} BlanksSkipped(tokens: seq<StoryToken>, i: nat, stop: nat)
    requires i <= stop <= |tokens|
    requires forall k :: i <= k < stop ==> IsBlank(tokens[k].surface)
    ensures Segments(tokens, i) == Segments(tokens, stop)
    decreases stop - i
  {
    if i < stop {
      BlanksSkipped(tokens, i + 1, stop);
    }
  }

  /** The bound of 401 is sharp: one token more and the page ends inside the sentence. */
  lemma {:induction false} BoundIsSharp()
    ensures var tokens := LongSentence();
            && Increasing(tokens)
            && Segments(tokens, 0) == [Range(799, 1201)]
            && Pages(tokens, AllSpans(tokens), 0)[0] == Page(0, 1200)
  {
    var tokens := LongSentence();
    LongSentenceRange();
    LongSentencePage();
  }

  lemma {:induction false} LongSentenceRange()
    ensures Increasing(LongSentence()) && Segments(LongSentence(), 0) == [Range(799, 1201)]
  {
    hide LongSentence, BodyEnd, TrailEnd;
    var tokens := LongSentence();
    BlanksSkipped(tokens, 0, 799);
    assert " "[0] == ' ' && "a"[0] == 'a';
    assert BodyEnd(tokens, 799) < 1201 ==> Body(tokens[BodyEnd(tokens, 799)]);
    assert !Skippable(tokens[799]);
    assert Segments(tokens, 1201) == [];
  }

  lemma {:induction false} LongSentencePage()
    ensures Pages(LongSentence(), AllSpans(LongSentence()), 0) != []
    ensures Pages(LongSentence(), AllSpans(LongSentence()), 0)[0] == Page(0, 1200)
  {
    hide LongSentence, SentenceText, Segments, Extend;
    var tokens := LongSentence();
    var spans := AllSpans(tokens);
    LongSentenceRange();
    assert Cuts(spans[0], tokens[800].position);
    ExtendBounds(tokens, spans[0].end, 0, 800);
  }
}
