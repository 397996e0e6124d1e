/** Control characters in model-written JSON, and the object inside the prose. */
module JsonText {
  import opened Wrappers
  import opened Text

  predicate IsControl(c: char) {
    c < ' '
  }

  // ---------------------------------------------------------------------------------------
  // The sanitizer
  // ---------------------------------------------------------------------------------------

  function HexDigit(n: nat): (c: char)
    requires n < 16
    ensures IsHex(c) && HexValue(c) == n
  {
    if n < 10 then ('0' as int + n) as char else ('a' as int + (n - 10)) as char
  }

  /** The escape written for a control character: a short one or four hex digits. */
  function Escape(c: char): string
    requires IsControl(c)
  {
    if c == '\n' then "\\n"
    else if c == '\r' then "\\r"
    else if c == '\t' then "\\t"
    else "\\u00" + [HexDigit(c as int / 16), HexDigit(c as int % 16)]
  }

  /** The scanner's state after a character: inside a string, just behind its backslash. */
  datatype Scan = Scan(inString: bool, escaped: bool)

  function Next(q: Scan, c: char): Scan {
    if q.escaped then q.(escaped := false)
    else if c == '\\' && q.inString then q.(escaped := true)
    else if c == '"' then q.(inString := !q.inString)
    else q
  }

  /** A control character the sanitizer replaces. */
  predicate Bare(q: Scan, c: char) {
    q.inString && !q.escaped && IsControl(c)
  }

  function Emit(q: Scan, c: char): string {
    if Bare(q, c) then Escape(c) else [c]
  }

  function Rewrite(s: string, q: Scan): string {
    if s == "" then "" else Emit(q, s[0]) + Rewrite(s[1..], Next(q, s[0]))
  }

  function Sanitize(s: string): string {
    Rewrite(s, Scan(false, false))
  }

  lemma {:induction false} RewriteOne(b: string, s: string, i: nat, q: Scan)
    requires i < |s|
    ensures (b + Emit(q, s[i])) + Rewrite(s[i + 1..], Next(q, s[i])) == b + Rewrite(s[i..], q)
  {
    hide Emit, Next;
    assert s[i..][1..] == s[i + 1..];
  }

  method SanitizeJSONControlChars(s: string) returns (b: string)
    ensures b == Sanitize(s)
  {
    hide Rewrite;
    b := "";
    var inString := false;
    var escaped := false;
    assert s[0..] == s;
    for i := 0 to |s|
      invariant escaped ==> inString
      invariant b + Rewrite(s[i..], Scan(inString, escaped)) == Sanitize(s)
    {
      var r := s[i];
      RewriteOne(b, s, i, Scan(inString, escaped));
      if escaped {
        b := b + [r];
        escaped := false;
        continue;
      }
      if r == '\\' && inString {
        b := b + [r];
        escaped := true;
        continue;
      }
      if r == '"' {
        inString := !inString;
        b := b + [r];
        continue;
      }
      if inString && r < ' ' {
        if r == '\n' {
          b := b + "\\n";
        } else if r == '\r' {
          b := b + "\\r";
        } else if r == '\t' {
          b := b + "\\t";
        } else {
          b := b + ("\\u00" + [HexDigit(r as int / 16), HexDigit(r as int % 16)]);
        }
        continue;
      }
      b := b + [r];
    }
    NothingLeft(s, Scan(inString, escaped));
    assert b + "" == b;
  }

  lemma {:induction false} NothingLeft(s: string, q: Scan)
    ensures Rewrite(s[|s|..], q) == ""
  {
  }

  // ---------------------------------------------------------------------------------------
  // Reading strings, section 7 of RFC 8259
  // ---------------------------------------------------------------------------------------

  datatype Item = Plain(c: char) | Quote | Unit(code: int)

  predicate IsHex(c: char) {
    '0' <= c <= '9' || 'a' <= c <= 'f' || 'A' <= c <= 'F'
  }

  function HexValue(c: char): int
    requires IsHex(c)
  {
    if c <= '9' then c as int - '0' as int
    else if c <= 'F' then c as int - 'A' as int + 10
    else c as int - 'a' as int + 10
  }

  predicate AllHex(s: string, n: nat) {
    n == 0 || (s != "" && IsHex(s[0]) && AllHex(s[1..], n - 1))
  }

  function HexNumber(s: string, n: nat, acc: int): int
    requires AllHex(s, n)
  {
    if n == 0 then acc else HexNumber(s[1..], n - 1, 16 * acc + HexValue(s[0]))
  }

  function ShortEscape(c: char): Option<int> {
    match c
    case '"' => Some(34)
    case '\\' => Some(92)
    case '/' => Some(47)
    case 'b' => Some(8)
    case 'f' => Some(12)
    case 'n' => Some(10)
    case 'r' => Some(13)
    case 't' => Some(9)
    case _ => None
  }

  function Prepend(item: Item, rest: Option<seq<Item>>): Option<seq<Item>> {
    if rest.Some? then Some([item] + rest.value) else None
  }

  lemma {:induction false} HexLength(s: string, n: nat)
    requires AllHex(s, n)
    ensures n <= |s|
  {
    if n > 0 {
      HexLength(s[1..], n - 1);
    }
  }

  /**
    * The characters of a text, its strings decoded to code units. A strict reader refuses a bare control character
    * in a string; a lenient one takes it as itself. Both refuse unknown escapes and strings left open.
    */
  function Decode(s: string, strict: bool, inString: bool): Option<seq<Item>>
    decreases |s|
  {
    if s == "" then if inString then None else Some([])
    else if s[0] == '"' then Prepend(Quote, Decode(s[1..], strict, !inString))
    else if !inString then Prepend(Plain(s[0]), Decode(s[1..], strict, inString))
    else if s[0] == '\\' then
      if |s| == 1 then None
      else if s[1] == 'u' then
        if AllHex(s[2..], 4) then
          HexLength(s[2..], 4);
          Prepend(Unit(HexNumber(s[2..], 4, 0)), Decode(s[2..][4..], strict, true))
        else None
      else if ShortEscape(s[1]).Some? then Prepend(Unit(ShortEscape(s[1]).value), Decode(s[2..], strict, true))
      else None
    else if strict && s[0] as int < 0x20 then None
    else Prepend(Unit(s[0] as int), Decode(s[1..], strict, inString))
  }

  /** The escapes written: short ones for line feed, carriage return and tab, four lower-case hex digits for the rest. */
  lemma {:induction false} EscapesAre(c: char)
    requires c as int < 0x20
    ensures Escape('\n') == "\\n" && Escape('\r') == "\\r" && Escape('\t') == "\\t"
    ensures c !in "\n\r\t" ==>
              Escape(c) == "\\u00" + ["01"[c as int / 16], "0123456789abcdef"[c as int % 16]]
  {
  }

  // ---------------------------------------------------------------------------------------
  // Character by character
  // ---------------------------------------------------------------------------------------

  /** The scanner's state at position i. */
  function StateAt(s: string, i: nat): Scan
    requires i <= |s|
  {
    if i == 0 then Scan(false, false) else Next(StateAt(s, i - 1), s[i - 1])
  }

  /** What becomes of the first i characters: an escape for a bare control character in a string, else itself. */
  function Pieces(s: string, i: nat): string
    requires i <= |s|
  {
    if i == 0 then ""
    else
      var q, c := StateAt(s, i - 1), s[i - 1];
      Pieces(s, i - 1) + if q.inString && !q.escaped && c as int < 0x20 then Escape(c) else [c]
  }

  lemma {:induction false} RewriteFrom(s: string, i: nat)
    requires i <= |s|
    ensures Pieces(s, i) + Rewrite(s[i..], StateAt(s, i)) == Sanitize(s)
  {
    hide Next, Escape;
    if i == 0 {
      assert s[0..] == s;
    } else {
      RewriteFrom(s, i - 1);
      RewriteOne(Pieces(s, i - 1), s, i - 1, StateAt(s, i - 1));
    }
  }

  /** Nothing else is touched. */
  lemma {:induction false} OnlyBareReplaced(s: string)
    ensures Sanitize(s) == Pieces(s, |s|)
  {
    RewriteFrom(s, |s|);
    assert s[|s|..] == "";
    assert Pieces(s, |s|) + "" == Pieces(s, |s|);
  }

  // ---------------------------------------------------------------------------------------
  // Meaning
  // ---------------------------------------------------------------------------------------

  /** Hex digits pass through unchanged, and nothing else turns into one. */
  lemma {:induction false} HexSurvives(s: string, n: nat)
    ensures AllHex(Rewrite(s, Scan(true, false)), n) == AllHex(s, n)
    ensures AllHex(s, n) ==>
              && n <= |s| && n <= |Rewrite(s, Scan(true, false))|
              && Rewrite(s, Scan(true, false))[n..] == Rewrite(s[n..], Scan(true, false))
  {
    hide Escape;
    var q := Scan(true, false);
    if n > 0 && s != "" {
      var out := Rewrite(s, q);
      if IsHex(s[0]) {
        HexSurvives(s[1..], n - 1);
        assert out[1..] == Rewrite(s[1..], q);
        if AllHex(s, n) {
          assert s[n..] == s[1..][n - 1..];
          assert out[n..] == out[1..][n - 1..];
        }
      } else {
        FirstNotHex(s);
      }
    }
  }

  lemma {:induction false} FirstNotHex(s: string)
    requires s != "" && !IsHex(s[0])
    ensures Rewrite(s, Scan(true, false)) != "" && !IsHex(Rewrite(s, Scan(true, false))[0])
  {
  }

  lemma {:induction false} HexNumberSurvives(s: string, n: nat, acc: int)
    requires AllHex(s, n) && AllHex(Rewrite(s, Scan(true, false)), n)
    ensures HexNumber(Rewrite(s, Scan(true, false)), n, acc) == HexNumber(s, n, acc)
  {
    hide Escape, HexValue;
    if n > 0 {
      var out := Rewrite(s, Scan(true, false));
      assert out[0] == s[0] && out[1..] == Rewrite(s[1..], Scan(true, false));
      HexNumberSurvives(s[1..], n - 1, 16 * acc + HexValue(s[0]));
    }
  }

  /** A strict reader reads an escape written by the sanitizer as the character it replaced. */
  lemma {:induction false} EscapeReads(c: char, rest: string)
    requires IsControl(c)
    ensures Decode(Escape(c) + rest, true, true) == Prepend(Unit(c as int), Decode(rest, true, true))
  {
    var text := Escape(c) + rest;
    if c == '\n' || c == '\r' || c == '\t' {
      assert text[2..] == rest;
    } else {
      var h := text[2..];
      assert h == ['0', '0', HexDigit(c as int / 16), HexDigit(c as int % 16)] + rest;
      HexFour(h);
      assert h[4..] == rest;
    }
  }

  lemma {:induction false} HexFour(h: string)
    requires |h| >= 4 && IsHex(h[0]) && IsHex(h[1]) && IsHex(h[2]) && IsHex(h[3])
    ensures AllHex(h, 4)
    ensures HexNumber(h, 4, 0) == 4096 * HexValue(h[0]) + 256 * HexValue(h[1]) + 16 * HexValue(h[2]) + HexValue(h[3])
  {
    hide IsHex, HexValue;
    assert h[1..][1..][1..] == h[3..] && h[1..][1..] == h[2..];
    assert AllHex(h[3..], 1) && AllHex(h[2..], 2) && AllHex(h[1..], 3);
    assert h[3..][1..] == h[4..];
    var a := HexValue(h[0]);
    assert HexNumber(h, 4, 0) == HexNumber(h[1..], 3, a);
    assert HexNumber(h[1..], 3, a) == HexNumber(h[2..], 2, 16 * a + HexValue(h[1]));
    assert HexNumber(h[2..], 2, 16 * a + HexValue(h[1]))
        == HexNumber(h[3..], 1, 16 * (16 * a + HexValue(h[1])) + HexValue(h[2]));
  }

  /** Strictly reading the output gives what leniently reading the input gives, for every input. */
  lemma {:induction false} SanitizeKeepsMeaning(s: string, inString: bool)
    ensures Decode(Rewrite(s, Scan(inString, false)), true, inString) == Decode(s, false, inString)
    decreases |s|
  {
    var q := Scan(inString, false);
    var out := Rewrite(s, q);
    if s == "" {
    } else if Bare(q, s[0]) {
      SanitizeKeepsMeaning(s[1..], true);
      EscapeReads(s[0], Rewrite(s[1..], q));
    } else if s[0] == '\\' && inString {
      EscapedKeepsMeaning(s);
    } else {
      SanitizeKeepsMeaning(s[1..], Next(q, s[0]).inString);
      assert out[1..] == Rewrite(s[1..], Next(q, s[0]));
    }
  }

  lemma {:induction false} EscapedKeepsMeaning(s: string)
    requires s != "" && s[0] == '\\'
    ensures Decode(Rewrite(s, Scan(true, false)), true, true) == Decode(s, false, true)
    decreases |s|, 0
  {
    var q := Scan(true, false);
    var out := Rewrite(s, q);
    if |s| > 1 {
      var rest := s[2..];
      assert s[1..][1..] == rest;
      assert out[1..] == Rewrite(s[1..], Scan(true, true));
      assert out[2..] == Rewrite(rest, q);
      if s[1] == 'u' {
        HexSurvives(rest, 4);
        if AllHex(rest, 4) {
          HexNumberSurvives(rest, 4, 0);
          SanitizeKeepsMeaning(rest[4..], true);
        }
      } else if ShortEscape(s[1]).Some? {
        SanitizeKeepsMeaning(rest, true);
      }
    } else {
      assert s[1..] == "";
    }
  }

  // ---------------------------------------------------------------------------------------
  // Cleanliness
  // ---------------------------------------------------------------------------------------

  /** No control character stands in a string, unless a backslash is right before it. */
  predicate NoBare(s: string, q: Scan) {
    s == "" || (!Bare(q, s[0]) && NoBare(s[1..], Next(q, s[0])))
  }

  /** No control character stands right behind a backslash in a string. */
  predicate NoEscaped(s: string, q: Scan) {
    s == "" || (!(q.escaped && s[0] as int < 0x20) && NoEscaped(s[1..], Next(q, s[0])))
  }

  /** No control character stands in a string at all. */
  predicate NoControl(s: string, q: Scan) {
    s == "" || (!(q.inString && s[0] as int < 0x20) && NoControl(s[1..], Next(q, s[0])))
  }

  predicate Reachable(q: Scan) {
    q.escaped ==> q.inString
  }

  lemma {:induction false} ControlIsBareOrEscaped(s: string, q: Scan)
    requires Reachable(q)
    ensures NoControl(s, q) <==> NoBare(s, q) && NoEscaped(s, q)
  {
    if s != "" {
      ControlIsBareOrEscaped(s[1..], Next(q, s[0]));
    }
  }

  /** An escape leaves the scanner where the character it replaced did, having shown it nothing to replace. */
  lemma {:induction false} EscapeIsClean(c: char, rest: string)
    requires IsControl(c)
    ensures var q := Scan(true, false);
            && (NoBare(Escape(c) + rest, q) <==> NoBare(rest, q))
            && (NoEscaped(Escape(c) + rest, q) <==> NoEscaped(rest, q))
  {
    var text := Escape(c) + rest;
    var q := Scan(true, false);
    var tail := text[2..];
    assert text[0] == '\\' && text[1] == Escape(c)[1] && !IsControl(text[1]);
    assert text[1..][0] == text[1] && text[1..][1..] == tail;
    assert NoBare(text[1..], Scan(true, true)) <==> NoBare(tail, q);
    assert NoEscaped(text[1..], Scan(true, true)) <==> NoEscaped(tail, q);
    assert NoBare(text, q) <==> NoBare(tail, q);
    assert NoEscaped(text, q) <==> NoEscaped(tail, q);
    if c == '\n' || c == '\r' || c == '\t' {
      assert tail == rest;
    } else {
      assert tail == ['0', '0', HexDigit(c as int / 16), HexDigit(c as int % 16)] + rest;
      OrdinaryRun(tail, 4);
      assert tail[4..] == rest;
    }
  }

  lemma {:induction false} OrdinaryRun(s: string, n: nat)
    requires n <= |s| && forall k :: 0 <= k < n ==> IsHex(s[k])
    ensures var q := Scan(true, false);
            && (NoBare(s, q) <==> NoBare(s[n..], q)) && (NoEscaped(s, q) <==> NoEscaped(s[n..], q))
  {
    if n == 0 {
      assert s[0..] == s;
    } else {
      OrdinaryRun(s[1..], n - 1);
      assert s[1..][n - 1..] == s[n..];
    }
  }

  /** The output has nothing left to replace, and a control character behind a backslash only if the input had. */
  lemma {:induction false} RewriteCleans(s: string, q: Scan)
    requires Reachable(q)
    ensures NoBare(Rewrite(s, q), q)
    ensures NoEscaped(Rewrite(s, q), q) <==> NoEscaped(s, q)
  {
    if s != "" {
      var rest := Rewrite(s[1..], Next(q, s[0]));
      RewriteCleans(s[1..], Next(q, s[0]));
      if Bare(q, s[0]) {
        EscapeIsClean(s[0], rest);
      } else {
        assert Rewrite(s, q)[1..] == rest;
      }
    }
  }

  /** The output is free of control characters in strings exactly when the input has none behind a backslash. */
  lemma {:induction false} CleanIffNoneEscaped(s: string)
    ensures NoControl(Sanitize(s), Scan(false, false)) <==> NoEscaped(s, Scan(false, false))
  {
    RewriteCleans(s, Scan(false, false));
    ControlIsBareOrEscaped(Sanitize(s), Scan(false, false));
  }

  lemma {:induction false} RewriteGrows(s: string, q: Scan)
    ensures |s| <= |Rewrite(s, q)|
    ensures |s| == |Rewrite(s, q)| ==> NoBare(s, q)
    ensures NoBare(s, q) ==> Rewrite(s, q) == s
  {
    if s != "" {
      RewriteGrows(s[1..], Next(q, s[0]));
    }
  }

  /** The text is returned unchanged exactly when no string in it holds a bare control character. */
  lemma {:induction false} UnchangedIffNoBare(s: string)
    ensures Sanitize(s) == s <==> NoBare(s, Scan(false, false))
  {
    RewriteGrows(s, Scan(false, false));
  }

  lemma {:induction false} SanitizeIdempotent(s: string)
    ensures Sanitize(Sanitize(s)) == Sanitize(s)
  {
    RewriteCleans(s, Scan(false, false));
    UnchangedIffNoBare(Sanitize(s));
  }

  // ---------------------------------------------------------------------------------------
  // The object inside the prose
  // ---------------------------------------------------------------------------------------

  function IndexOf(s: string, c: char): (i: int)
    ensures -1 <= i < |s|
    ensures i >= 0 ==> s[i] == c && forall k :: 0 <= k < i ==> s[k] != c
    ensures i == -1 ==> c !in s
  {
    if s == "" then -1
    else if s[0] == c then 0
    else
      var i := IndexOf(s[1..], c);
      if i < 0 then -1 else i + 1
  }

  function LastIndexOf(s: string, c: char): (i: int)
    ensures -1 <= i < |s|
    ensures i >= 0 ==> s[i] == c && forall k :: i < k < |s| ==> s[k] != c
    ensures i == -1 ==> c !in s
  {
    if s == "" then -1
    else if s[|s| - 1] == c then |s| - 1
    else
      var i := LastIndexOf(s[..|s| - 1], c);
      i
  }

  function ExtractJSON(s: string): string {
    var t := TrimSpace(s);
    var start := IndexOf(t, '{');
    var end := LastIndexOf(t, '}');
    Sanitize(if start >= 0 && end > start then t[start..end + 1] else t)
  }

  predicate BracedText(obj: string) {
    |obj| >= 2 && obj[0] == '{' && obj[|obj| - 1] == '}'
  }

  lemma {:induction false} TrimAround(prose: string, obj: string, trailing: string)
    requires BracedText(obj)
    ensures TrimSpace(prose + obj + trailing) == TrimLeft(prose) + obj + TrimRight(trailing)
  {
    assert prose + obj + trailing == prose + (obj + trailing);
    TrimLeftStops(prose, obj + trailing);
    var head := TrimLeft(prose) + obj;
    assert TrimLeft(prose) + (obj + trailing) == head + trailing;
    TrimRightStops(head, trailing);
  }

  lemma {:induction false} ObjectBounds(left: string, obj: string, right: string)
    requires BracedText(obj) && '{' !in left && '}' !in right
    ensures IndexOf(left + obj + right, '{') == |left|
    ensures LastIndexOf(left + obj + right, '}') == |left| + |obj| - 1
  {
    hide IndexOf, LastIndexOf;
    var t := left + obj + right;
    var first, last := |left|, |left| + |obj| - 1;
    assert t[first] == '{' && t[last] == '}';
    assert forall k :: 0 <= k < first ==> t[k] == left[k];
    assert forall k :: last < k < |t| ==> t[k] == right[k - last - 1];
  }

  lemma {:induction false} SliceMiddle(left: string, obj: string, right: string)
    ensures (left + obj + right)[|left|..|left| + |obj|] == obj
  {
  }

  /** Prose without an opening brace and trailing text without a closing one are dropped, and nothing else is. */
  lemma {:induction false} ObjectFound(prose: string, obj: string, trailing: string)
    requires BracedText(obj) && '{' !in prose && '}' !in trailing
    ensures ExtractJSON(prose + obj + trailing) == Sanitize(obj)
  {
    hide Sanitize, IndexOf, LastIndexOf, TrimSpace;
    TrimAround(prose, obj, trailing);
    TrimLeftKeeps(prose, '{');
    TrimRightKeeps(trailing, '}');
    ObjectBounds(TrimLeft(prose), obj, TrimRight(trailing));
    SliceMiddle(TrimLeft(prose), obj, TrimRight(trailing));
  }

  /** Without an opening brace before a closing one the whole text is taken. */
  lemma {:induction false} NoObject(s: string)
    requires forall i, j :: 0 <= i < j < |s| ==> !(s[i] == '{' && s[j] == '}')
    ensures ExtractJSON(s) == Sanitize(TrimSpace(s))
  {
    hide Sanitize, IndexOf, LastIndexOf, TrimSpace;
    var before, after := TrimSpaceSplits(s);
    var t := TrimSpace(s);
    assert forall k :: 0 <= k < |t| ==> t[k] == s[|before| + k];
  }

  /** A strict reader of the extracted text reads the object the model wrote, control characters and all. */
  lemma {:induction false} ExtractedMeaning(prose: string, obj: string, trailing: string)
    requires BracedText(obj) && '{' !in prose && '}' !in trailing
    ensures Decode(ExtractJSON(prose + obj + trailing), true, false) == Decode(obj, false, false)
  {
    hide Decode, ExtractJSON;
    ObjectFound(prose, obj, trailing);
    SanitizeKeepsMeaning(obj, false);
  }
}
