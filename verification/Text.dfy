/** White space and trimming. */
module Text {
  /** The Unicode White_Space property. */
  predicate IsSpace(c: char) {
    || '\t' <= c <= '\r' || c == ' ' || c == '\U{0085}' || c == '\U{00A0}' || c == '\U{1680}'
    || '\U{2000}' <= c <= '\U{200A}' || c == '\U{2028}' || c == '\U{2029}' || c == '\U{202F}'
    || c == '\U{205F}' || c == '\U{3000}'
  }

  const SPACES :=
    "\t\n\U{0B}\U{0C}\r \U{85}\U{A0}\U{1680}\U{2000}\U{2001}\U{2002}\U{2003}\U{2004}\U{2005}\U{2006}\U{2007}\U{2008}"
    + "\U{2009}\U{200A}\U{2028}\U{2029}\U{202F}\U{205F}\U{3000}"

  /** One by one. */
  lemma {:induction false} SpacesListed(c: char)
    ensures IsSpace(c) <==> c in SPACES
  {
  }

  predicate IsBlank(s: string) {
    forall k :: 0 <= k < |s| ==> IsSpace(s[k])
  }

  function TrimLeft(s: string): string {
    if s != [] && IsSpace(s[0]) then TrimLeft(s[1..]) else s
  }

  function TrimRight(s: string): string {
    if s != [] && IsSpace(s[|s| - 1]) then TrimRight(s[..|s| - 1]) else s
  }

  function TrimSpace(s: string): string {
    TrimRight(TrimLeft(s))
  }

  lemma {:induction false} TrimLeftStops(left: string, s: string)
    requires s != "" && !IsSpace(s[0])
    ensures TrimLeft(left + s) == TrimLeft(left) + s
  {
    if left == "" {
      assert left + s == s;
    } else {
      assert (left + s)[1..] == left[1..] + s;
      if IsSpace(left[0]) {
        TrimLeftStops(left[1..], s);
      }
    }
  }

  lemma {:induction false} TrimRightStops(s: string, right: string)
    requires s != "" && !IsSpace(s[|s| - 1])
    ensures TrimRight(s + right) == s + TrimRight(right)
  {
    if right == "" {
      assert s + right == s;
    } else {
      var n := |right| - 1;
      assert (s + right)[..|s + right| - 1] == s + right[..n];
      if IsSpace(right[n]) {
        TrimRightStops(s, right[..n]);
      }
    }
  }

  /** What trimming leaves contains no character that was not there. */
  lemma {:induction false} TrimLeftKeeps(s: string, c: char)
    ensures c in TrimLeft(s) ==> c in s
  {
    if s != "" && IsSpace(s[0]) {
      TrimLeftKeeps(s[1..], c);
    }
  }

  lemma {:induction false} TrimRightKeeps(s: string, c: char)
    ensures c in TrimRight(s) ==> c in s
  {
    if s != "" && IsSpace(s[|s| - 1]) {
      TrimRightKeeps(s[..|s| - 1], c);
    }
  }

  /** Neither end of the text is white space. */
  predicate Trimmed(s: string) {
    s == "" || (!IsSpace(s[0]) && !IsSpace(s[|s| - 1]))
  }

  lemma {:induction false} TrimLeftEnds(s: string)
    ensures var t := TrimLeft(s); t == "" || (!IsSpace(t[0]) && t[|t| - 1] == s[|s| - 1])
  {
    if s != "" && IsSpace(s[0]) {
      TrimLeftEnds(s[1..]);
    }
  }

  lemma {:induction false} TrimRightEnds(s: string)
    ensures var t := TrimRight(s); t == "" || (!IsSpace(t[|t| - 1]) && t[0] == s[0])
  {
    if s != "" && IsSpace(s[|s| - 1]) {
      TrimRightEnds(s[..|s| - 1]);
    }
  }

  lemma {:induction false} TrimSpaceTrims(s: string)
    ensures Trimmed(TrimSpace(s))
  {
    TrimLeftEnds(s);
    TrimRightEnds(TrimLeft(s));
  }

  /** A text trims to nothing exactly when it is all white space. */
  lemma {:induction false} BlankIffTrimmed(s: string)
    ensures IsBlank(s) <==> TrimSpace(s) == ""
  {
    var before, after := TrimSpaceSplits(s);
    var t := TrimSpace(s);
    if t != "" {
      assert s[|before|] == t[0];
    }
  }

  /** Trimming takes white space off both ends and nothing else. */
  lemma {:induction false} TrimSpaceSplits(s: string) returns (before: string, after: string)
    ensures s == before + TrimSpace(s) + after && IsBlank(before) && IsBlank(after) && Trimmed(TrimSpace(s))
  {
    TrimSpaceTrims(s);
    before := TrimLeftSplits(s);
    after := TrimRightSplits(TrimLeft(s));
    assert before + (TrimSpace(s) + after) == before + TrimSpace(s) + after;
  }

  lemma {:induction false} TrimLeftSplits(s: string) returns (before: string)
    ensures s == before + TrimLeft(s) && IsBlank(before)
  {
    if s != "" && IsSpace(s[0]) {
      var more := TrimLeftSplits(s[1..]);
      before := [s[0]] + more;
    } else {
      before := "";
    }
  }

  lemma {:induction false} TrimRightSplits(s: string) returns (after: string)
    ensures s == TrimRight(s) + after && IsBlank(after)
  {
    if s != "" && IsSpace(s[|s| - 1]) {
      var more := TrimRightSplits(s[..|s| - 1]);
      after := more + [s[|s| - 1]];
    } else {
      after := "";
    }
  }

  lemma {:induction false} TrimmedStays(s: string)
    requires Trimmed(s)
    ensures TrimSpace(s) == s
  {
  }
}
