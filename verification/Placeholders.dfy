/** The rewriting of question mark placeholders to numbered ones for Postgres. */
module Placeholders {

  // ---------------------------------------------------------------------------------------
  // Decimal numbers
  // ---------------------------------------------------------------------------------------

  predicate IsDigit(c: char) {
    '0' <= c <= '9'
  }

  function Digit(n: nat): (c: char)
    requires n < 10
    ensures IsDigit(c)
  {
    ('0' as int + n) as char
  }

  function Itoa(n: nat): (s: string)
    ensures s != "" && forall k :: 0 <= k < |s| ==> IsDigit(s[k])
  {
    if n < 10 then [Digit(n)] else Itoa(n / 10) + [Digit(n % 10)]
  }

  function Atoi(s: string): int {
    if s == "" then 0 else 10 * Atoi(s[..|s| - 1]) + (s[|s| - 1] as int - '0' as int)
  }

  /** The text is the number in decimal, without a leading zero. */
  lemma {:induction false} ItoaIsDecimal(n: nat)
    ensures Atoi(Itoa(n)) == n
    ensures n > 0 ==> Itoa(n)[0] != '0'
  {
    if n >= 10 {
      ItoaIsDecimal(n / 10);
      assert Itoa(n)[..|Itoa(n)| - 1] == Itoa(n / 10);
    } else {
      assert Itoa(n)[..0] == "";
    }
  }

  // ---------------------------------------------------------------------------------------
  // The rewriting
  // ---------------------------------------------------------------------------------------

  /** Inside a literal after c? */
  predicate Toggle(inLiteral: bool, c: char) {
    if c == '\'' then !inLiteral else inLiteral
  }

  predicate Mark(inLiteral: bool, c: char) {
    c == '?' && !inLiteral
  }

  /** Every quote opens or closes a literal; n placeholders have been numbered so far. */
  function Rewrite(s: string, inLiteral: bool, n: nat): string {
    if s == "" then ""
    else if s[0] == '\'' then [s[0]] + Rewrite(s[1..], !inLiteral, n)
    else if s[0] == '?' && !inLiteral then "$" + Itoa(n + 1) + Rewrite(s[1..], inLiteral, n + 1)
    else [s[0]] + Rewrite(s[1..], inLiteral, n)
  }

  lemma {:induction false} NoMarks(s: string, inLiteral: bool, n: nat)
    requires '?' !in s
    ensures Rewrite(s, inLiteral, n) == s
  {
    if s != "" {
      NoMarks(s[1..], Toggle(inLiteral, s[0]), n);
    }
  }

  lemma {:induction false} Append(b: string, piece: string, rest: string, whole: string)
    requires b + (piece + rest) == whole
    ensures (b + piece) + rest == whole
  {
  }

  method Rebind(postgres: bool, query: string) returns (r: string)
    ensures r == if postgres then Rewrite(query, false, 0) else query
  {
    if !postgres || '?' !in query {
      if postgres {
        NoMarks(query, false, 0);
      }
      return query;
    }
    r := "";
    var n := 0;
    var inString := false;
    var i := 0;
    assert query[0..] == query;
    while i < |query|
      invariant 0 <= i <= |query|
      invariant r + Rewrite(query[i..], inString, n) == Rewrite(query, false, 0)
    {
      var c := query[i];
      ghost var rest := query[i + 1..];
      assert query[i..][1..] == rest;
      if c == '\'' {
        if inString && i + 1 < |query| && query[i + 1] == '\'' {
          assert rest[1..] == query[i + 2..];
          assert Rewrite(query[i..], inString, n) == "''" + Rewrite(query[i + 2..], inString, n);
          Append(r, "''", Rewrite(query[i + 2..], inString, n), Rewrite(query, false, 0));
          r := r + "''";
          i := i + 2;
          continue;
        }
        inString := !inString;
        Append(r, [c], Rewrite(rest, inString, n), Rewrite(query, false, 0));
        r := r + [c];
      } else if c == '?' && !inString {
        n := n + 1;
        Append(r, "$" + Itoa(n), Rewrite(rest, inString, n), Rewrite(query, false, 0));
        r := r + ("$" + Itoa(n));
      } else {
        Append(r, [c], Rewrite(rest, inString, n), Rewrite(query, false, 0));
        r := r + [c];
      }
      i := i + 1;
    }
    assert query[|query|..] == "";
    assert r + "" == r;
  }

  // ---------------------------------------------------------------------------------------
  // Position by position
  // ---------------------------------------------------------------------------------------

  function Quotes(s: string, i: nat): nat
    requires i <= |s|
  {
    if i == 0 then 0 else Quotes(s, i - 1) + if s[i - 1] == '\'' then 1 else 0
  }

  /** An odd number of quotes stands before position i. */
  predicate InLiteral(s: string, i: nat)
    requires i <= |s|
  {
    Quotes(s, i) % 2 == 1
  }

  predicate IsPlaceholder(s: string, i: nat)
    requires i < |s|
  {
    s[i] == '?' && !InLiteral(s, i)
  }

  function Count(s: string, i: nat): nat
    requires i <= |s|
  {
    if i == 0 then 0 else Count(s, i - 1) + if IsPlaceholder(s, i - 1) then 1 else 0
  }

  /** What becomes of the character at i: the k-th placeholder is "$" and k, all else is unchanged. */
  function Piece(s: string, i: nat): string
    requires i < |s|
  {
    if IsPlaceholder(s, i) then "$" + Itoa(Count(s, i) + 1) else [s[i]]
  }

  function Pieces(s: string, i: nat): string
    requires i <= |s|
  {
    if i == 0 then "" else Pieces(s, i - 1) + Piece(s, i - 1)
  }

  lemma {:induction false} RewriteFrom(s: string, i: nat)
    requires i <= |s|
    ensures Pieces(s, i) + Rewrite(s[i..], InLiteral(s, i), Count(s, i)) == Rewrite(s, false, 0)
  {
    if i == 0 {
      assert s[0..] == s;
    } else {
      RewriteFrom(s, i - 1);
      RewriteHead(s, i - 1);
      Append(Pieces(s, i - 1), Piece(s, i - 1), Rewrite(s[i..], InLiteral(s, i), Count(s, i)), Rewrite(s, false, 0));
    }
  }

  lemma {:induction false} RewriteHead(s: string, i: nat)
    requires i < |s|
    ensures Rewrite(s[i..], InLiteral(s, i), Count(s, i))
         == Piece(s, i) + Rewrite(s[i + 1..], InLiteral(s, i + 1), Count(s, i + 1))
  {
    assert s[i..][1..] == s[i + 1..];
  }

  /** The rewriting replaces exactly the k-th mark outside literals by "$" and k, and changes nothing else. */
  lemma {:induction false} RewritesOnlyPlaceholders(s: string)
    ensures Rewrite(s, false, 0) == Pieces(s, |s|)
  {
    RewriteFrom(s, |s|);
    assert s[|s|..] == "";
    assert Pieces(s, |s|) + "" == Pieces(s, |s|);
  }

  // ---------------------------------------------------------------------------------------
  // Reading a query back
  // ---------------------------------------------------------------------------------------

  /** What the placeholder behind n others becomes. */
  function Numbered(n: nat): (s: string)
    ensures |s| >= 2 && s[0] == '$' && forall k :: 0 < k < |s| ==> IsDigit(s[k])
  {
    "$" + Itoa(n + 1)
  }

  /** Turns each number outside literals that is the next in sequence back into a question mark. */
  function Restore(u: string, inLiteral: bool, n: nat): string
    decreases |u|
  {
    if u == "" then ""
    else if !inLiteral && Numbered(n) <= u then "?" + Restore(u[|Numbered(n)|..], inLiteral, n + 1)
    else [u[0]] + Restore(u[1..], Toggle(inLiteral, u[0]), n)
  }

  /** Nowhere outside literals the query spells out the number its next placeholder would get. */
  predicate Clear(s: string, inLiteral: bool, n: nat) {
    s == ""
    || (&& !(!inLiteral && Numbered(n) <= s)
        && Clear(s[1..], Toggle(inLiteral, s[0]), if Mark(inLiteral, s[0]) then n + 1 else n))
  }

  predicate HasMark(s: string, inLiteral: bool) {
    s != "" && (Mark(inLiteral, s[0]) || HasMark(s[1..], Toggle(inLiteral, s[0])))
  }

  /** The rewriting moves no digits: it starts with the digits the query starts with. */
  lemma {:induction false} SameDigits(d: string, s: string, n: nat)
    requires forall k :: 0 <= k < |d| ==> IsDigit(d[k])
    ensures d <= Rewrite(s, false, n) <==> d <= s
  {
    if d != "" && s != "" {
      var out := Rewrite(s, false, n);
      PrefixTail(d, s);
      PrefixTail(d, out);
      if IsDigit(s[0]) {
        SameDigits(d[1..], s[1..], n);
        assert out[1..] == Rewrite(s[1..], false, n);
      } else {
        assert IsDigit(d[0]) && !IsDigit(out[0]);
      }
    }
  }

  lemma {:induction false} PrefixTail(d: string, s: string)
    requires d != "" && s != ""
    ensures d <= s <==> d[0] == s[0] && d[1..] <= s[1..]
  {
    if d[0] == s[0] && d[1..] <= s[1..] {
      assert forall k :: 0 < k < |d| ==> d[k] == d[1..][k - 1] && s[k] == s[1..][k - 1];
    }
    if d <= s {
      assert forall k :: 0 <= k < |d| - 1 ==> d[1..][k] == s[1..][k];
    }
  }

  lemma {:induction false} SameNumbered(s: string, n: nat)
    requires s != "" && s[0] != '?'
    ensures Numbered(n) <= Rewrite(s, false, n) <==> Numbered(n) <= s
  {
    var out := Rewrite(s, false, n);
    PrefixTail(Numbered(n), s);
    PrefixTail(Numbered(n), out);
    if s[0] == '$' {
      assert out[1..] == Rewrite(s[1..], false, n);
      SameDigits(Numbered(n)[1..], s[1..], n);
    }
  }

  lemma {:induction false} RewriteCopies(s: string, inLiteral: bool, n: nat)
    requires s != "" && !Mark(inLiteral, s[0])
    ensures Rewrite(s, inLiteral, n) == [s[0]] + Rewrite(s[1..], Toggle(inLiteral, s[0]), n)
    ensures Rewrite(s, inLiteral, n)[1..] == Rewrite(s[1..], Toggle(inLiteral, s[0]), n)
  {
  }

  lemma {:induction false} RewriteMarks(s: string, n: nat)
    requires s != "" && s[0] == '?'
    ensures Rewrite(s, false, n) == Numbered(n) + Rewrite(s[1..], false, n + 1)
    ensures Rewrite(s, false, n)[|Numbered(n)|..] == Rewrite(s[1..], false, n + 1)
  {
  }

  /** Reading the rewriting back gives the query exactly when the query is clear. */
  lemma {:induction false} RestoreIff(s: string, inLiteral: bool, n: nat)
    ensures Restore(Rewrite(s, inLiteral, n), inLiteral, n) == s <==> Clear(s, inLiteral, n)
  {
    if s != "" {
      var c, rest := s[0], s[1..];
      var out := Rewrite(s, inLiteral, n);
      assert s == [c] + rest;
      if Mark(inLiteral, c) {
        RewriteMarks(s, n);
        RestoreIff(rest, inLiteral, n + 1);
        SameTail(c, Restore(Rewrite(rest, inLiteral, n + 1), inLiteral, n + 1), rest);
      } else {
        RewriteCopies(s, inLiteral, n);
        if !inLiteral {
          SameNumbered(s, n);
        }
        if inLiteral || !(Numbered(n) <= s) {
          RestoreIff(rest, Toggle(inLiteral, c), n);
          SameTail(c, Restore(Rewrite(rest, Toggle(inLiteral, c), n), Toggle(inLiteral, c), n), rest);
        }
      }
    }
  }

  lemma {:induction false} SameTail(c: char, a: string, b: string)
    ensures [c] + a == [c] + b <==> a == b
  {
    assert ([c] + a)[1..] == a && ([c] + b)[1..] == b;
  }

  lemma {:induction false} DigitsHoldNoMark(d: string, rest: string)
    requires forall k :: 0 <= k < |d| ==> IsDigit(d[k]) || d[k] == '$'
    ensures HasMark(d + rest, false) == HasMark(rest, false)
  {
    if d == "" {
      assert d + rest == rest;
    } else {
      assert (d + rest)[1..] == d[1..] + rest;
      DigitsHoldNoMark(d[1..], rest);
    }
  }

  lemma {:induction false} ImageHasNoMark(s: string, inLiteral: bool, n: nat)
    ensures !HasMark(Rewrite(s, inLiteral, n), inLiteral)
  {
    if s != "" {
      if Mark(inLiteral, s[0]) {
        RewriteMarks(s, n);
        ImageHasNoMark(s[1..], false, n + 1);
        DigitsHoldNoMark(Numbered(n), Rewrite(s[1..], false, n + 1));
      } else {
        RewriteCopies(s, inLiteral, n);
        ImageHasNoMark(s[1..], Toggle(inLiteral, s[0]), n);
      }
    }
  }

  lemma {:induction false} MarklessUnchanged(s: string, inLiteral: bool, n: nat)
    requires !HasMark(s, inLiteral)
    ensures Rewrite(s, inLiteral, n) == s
  {
    if s != "" {
      MarklessUnchanged(s[1..], Toggle(inLiteral, s[0]), n);
    }
  }

  /** Rewriting what was read back gives the numbered query again. */
  lemma {:induction false} RewriteRestored(u: string, inLiteral: bool, n: nat)
    requires !HasMark(u, inLiteral)
    ensures Rewrite(Restore(u, inLiteral, n), inLiteral, n) == u
    decreases |u|
  {
    if u != "" {
      if !inLiteral && Numbered(n) <= u {
        var d, rest := Numbered(n), u[|Numbered(n)|..];
        assert u == d + rest;
        DigitsHoldNoMark(d, rest);
        RewriteRestored(rest, inLiteral, n + 1);
        var s := Restore(u, inLiteral, n);
        assert s[1..] == Restore(rest, inLiteral, n + 1);
        RewriteMarks(s, n);
      } else {
        var s := Restore(u, inLiteral, n);
        RewriteRestored(u[1..], Toggle(inLiteral, u[0]), n);
        assert s[0] == u[0] && s[1..] == Restore(u[1..], Toggle(inLiteral, u[0]), n);
        RewriteCopies(s, inLiteral, n);
      }
    }
  }

  // ---------------------------------------------------------------------------------------
  // Which queries share a numbered form
  // ---------------------------------------------------------------------------------------

  function Numbering(s: string): string {
    Rewrite(s, false, 0)
  }

  /** Every numbered form comes from exactly one clear query; that one is the query itself when it is clear. */
  lemma {:induction false} OneClearQuery(s: string) returns (t: string)
    ensures Clear(t, false, 0) && Numbering(t) == Numbering(s)
    ensures t == s <==> Clear(s, false, 0)
    ensures forall r :: Clear(r, false, 0) && Numbering(r) == Numbering(s) ==> r == t
  {
    hide Clear, Restore, Rewrite;
    t := Restore(Numbering(s), false, 0);
    ImageHasNoMark(s, false, 0);
    RewriteRestored(Numbering(s), false, 0);
    RestoreIff(t, false, 0);
    RestoreIff(s, false, 0);
    forall r | Clear(r, false, 0) && Numbering(r) == Numbering(s) ensures r == t {
      RestoreIff(r, false, 0);
    }
  }

  predicate DollarFree(s: string, inLiteral: bool) {
    s == "" || (!(s[0] == '$' && !inLiteral) && DollarFree(s[1..], Toggle(inLiteral, s[0])))
  }

  lemma {:induction false} DollarFreeIsClear(s: string, inLiteral: bool, n: nat)
    requires DollarFree(s, inLiteral)
    ensures Clear(s, inLiteral, n)
  {
    if s != "" {
      DollarFreeIsClear(s[1..], Toggle(inLiteral, s[0]), if Mark(inLiteral, s[0]) then n + 1 else n);
    }
  }

  /** Queries without a dollar sign outside literals, and in general clear ones, are told apart by their numbered form. */
  lemma {:induction false} NumberingInjective(s: string, t: string)
    requires Clear(s, false, 0) || DollarFree(s, false)
    requires Clear(t, false, 0) || DollarFree(t, false)
    requires Numbering(s) == Numbering(t)
    ensures s == t
  {
    hide Clear, DollarFree, Restore, Rewrite;
    if DollarFree(s, false) {
      DollarFreeIsClear(s, false, 0);
    }
    if DollarFree(t, false) {
      DollarFreeIsClear(t, false, 0);
    }
    RestoreIff(s, false, 0);
    RestoreIff(t, false, 0);
  }

  lemma {:induction false} RewriteLengthens(s: string, inLiteral: bool, n: nat)
    ensures |s| <= |Rewrite(s, inLiteral, n)|
    ensures HasMark(s, inLiteral) ==> |s| < |Rewrite(s, inLiteral, n)|
  {
    if s != "" {
      if Mark(inLiteral, s[0]) {
        RewriteMarks(s, n);
        RewriteLengthens(s[1..], false, n + 1);
      } else {
        RewriteLengthens(s[1..], Toggle(inLiteral, s[0]), n);
      }
    }
  }

  predicate HasFirst(s: string, inLiteral: bool) {
    s != "" && ((!inLiteral && Numbered(0) <= s) || HasFirst(s[1..], Toggle(inLiteral, s[0])))
  }

  lemma {:induction false} MarkGivesFirst(s: string, inLiteral: bool)
    requires HasMark(s, inLiteral)
    ensures HasFirst(Rewrite(s, inLiteral, 0), inLiteral)
  {
    if Mark(inLiteral, s[0]) {
      RewriteMarks(s, 0);
    } else {
      RewriteCopies(s, inLiteral, 0);
      MarkGivesFirst(s[1..], Toggle(inLiteral, s[0]));
    }
  }

  lemma {:induction false} FirstIsNotClear(s: string, inLiteral: bool)
    requires !HasMark(s, inLiteral)
    ensures HasFirst(s, inLiteral) <==> !Clear(s, inLiteral, 0)
  {
    if s != "" {
      FirstIsNotClear(s[1..], Toggle(inLiteral, s[0]));
    }
  }

  lemma {:induction false} SharesIfMarkedOrFirst(s: string) returns (t: string)
    requires HasMark(s, false) || HasFirst(s, false)
    ensures t != s && Numbering(t) == Numbering(s)
  {
    hide Clear, HasMark, HasFirst, Rewrite;
    if HasMark(s, false) {
      t := Numbering(s);
      RewriteLengthens(s, false, 0);
      ImageHasNoMark(s, false, 0);
      MarklessUnchanged(t, false, 0);
    } else {
      FirstIsNotClear(s, false);
      t := OneClearQuery(s);
    }
  }

  lemma {:induction false} SharesOnlyIfMarkedOrFirst(s: string, t: string)
    requires t != s && Numbering(t) == Numbering(s)
    ensures HasMark(s, false) || HasFirst(s, false)
  {
    hide HasMark, HasFirst, Rewrite;
    if !HasMark(s, false) {
      MarklessUnchanged(s, false, 0);
      if HasMark(t, false) {
        MarkGivesFirst(t, false);
      } else {
        MarklessUnchanged(t, false, 0);
      }
    }
  }

  // ---------------------------------------------------------------------------------------
  // The same, position by position
  // ---------------------------------------------------------------------------------------

  /** Outside literals the number of the next placeholder is spelled out at i. */
  predicate Clashes(s: string, i: nat)
    requires i < |s|
  {
    !InLiteral(s, i) && Numbered(Count(s, i)) <= s[i..]
  }

  predicate SpellsFirst(s: string, i: nat)
    requires i < |s|
  {
    !InLiteral(s, i) && Numbered(0) <= s[i..]
  }

  lemma {:induction false} NextState(s: string, i: nat)
    requires i < |s|
    ensures s[i..] != "" && s[i..][0] == s[i] && s[i..][1..] == s[i + 1..]
    ensures InLiteral(s, i + 1) == Toggle(InLiteral(s, i), s[i])
    ensures IsPlaceholder(s, i) == Mark(InLiteral(s, i), s[i])
    ensures Count(s, i + 1) == if IsPlaceholder(s, i) then Count(s, i) + 1 else Count(s, i)
  {
  }

  lemma {:induction false} ClearFrom(s: string, i: nat)
    requires i <= |s|
    ensures Clear(s[i..], InLiteral(s, i), Count(s, i)) <==> forall k :: i <= k < |s| ==> !Clashes(s, k)
    decreases |s| - i
  {
    hide InLiteral, Count, Numbered;
    if i < |s| {
      ClearFrom(s, i + 1);
      NextState(s, i);
      assert Clear(s[i..], InLiteral(s, i), Count(s, i))
          == (!Clashes(s, i) && Clear(s[i + 1..], InLiteral(s, i + 1), Count(s, i + 1)));
    }
  }

  lemma {:induction false} MarkOrFirstFrom(s: string, i: nat)
    requires i <= |s|
    ensures HasMark(s[i..], InLiteral(s, i)) <==> exists k :: i <= k < |s| && IsPlaceholder(s, k)
    ensures HasFirst(s[i..], InLiteral(s, i)) <==> exists k :: i <= k < |s| && SpellsFirst(s, k)
    decreases |s| - i
  {
    hide InLiteral, Count, Numbered;
    if i < |s| {
      MarkOrFirstFrom(s, i + 1);
      NextState(s, i);
      assert HasMark(s[i..], InLiteral(s, i)) == (IsPlaceholder(s, i) || HasMark(s[i + 1..], InLiteral(s, i + 1)));
      assert HasFirst(s[i..], InLiteral(s, i)) == (SpellsFirst(s, i) || HasFirst(s[i + 1..], InLiteral(s, i + 1)));
    }
  }

  /**
    * A query can be read back from its numbered form, number after number, exactly when it nowhere spells out the
    * number its next placeholder would get.
    */
  lemma {:induction false} ReadBackIff(s: string)
    ensures Restore(Numbering(s), false, 0) == s <==> forall k :: 0 <= k < |s| ==> !Clashes(s, k)
  {
    RestoreIff(s, false, 0);
    ClearFrom(s, 0);
    assert s[0..] == s;
  }

  /** Another query has the same numbered form exactly when this one has a placeholder or spells out "$1" itself. */
  lemma {:induction false} SharesFormIff(s: string)
    ensures (exists t :: t != s && Numbering(t) == Numbering(s))
       <==> exists k :: 0 <= k < |s| && (IsPlaceholder(s, k) || SpellsFirst(s, k))
  {
    hide Clear, HasMark, HasFirst, Rewrite, IsPlaceholder, SpellsFirst, Numbering;
    MarkOrFirstFrom(s, 0);
    assert s[0..] == s;
    if HasMark(s, false) || HasFirst(s, false) {
      var t := SharesIfMarkedOrFirst(s);
    }
    forall t | t != s && Numbering(t) == Numbering(s) ensures HasMark(s, false) || HasFirst(s, false) {
      SharesOnlyIfMarkedOrFirst(s, t);
    }
  }

  /** Two different queries share a numbered form only if one of them spells out its next number. */
  lemma {:induction false} SharingNeedsClash(s: string, t: string)
    requires s != t && Numbering(s) == Numbering(t)
    ensures (exists k :: 0 <= k < |s| && Clashes(s, k)) || exists k :: 0 <= k < |t| && Clashes(t, k)
  {
    hide Restore, Rewrite, Clashes, Numbering;
    ReadBackIff(s);
    ReadBackIff(t);
  }
}
