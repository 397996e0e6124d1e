/** The dictionary import: entries and their forms merged into one map of definitions. */
module Dictionary {
  import opened Wrappers
  import opened Text

  datatype Texts = Texts(
    gloss: string,
    note: string,
    example: string,
    etymology: string,
    pronunciation: string,
    related: string,
    derived: string)

  /** An empty canonical key marks a headword's own definition, any other an alias of that headword. */
  datatype Definition = Definition(itemKey: string, canonicalKey: string, texts: Texts)

  /** A form's key is None when it cannot be resolved; the note is the one composed from its tags. */
  datatype Form = Form(usable: bool, key: Option<string>, note: string)

  /**
    * One line of the dump: a failure ends the import; blank lines, other languages and entries without word or gloss
    * are skipped; a match carries the key its headword resolved to, which may be empty.
    */
  datatype Line = Failure | Skipped | Match(key: string, texts: Texts, forms: seq<Form>)

  type Defs = map<string, Definition>

  // ---------------------------------------------------------------------------------------
  // Merging
  // ---------------------------------------------------------------------------------------

  const SEPARATOR := "; "

  function Cut(s: string): (i: nat)
    ensures i <= |s|
  {
    if |s| < 2 then |s|
    else if s[..2] == SEPARATOR then 0
    else 1 + Cut(s[1..])
  }

  function Split(s: string): seq<string>
    decreases |s|
  {
    if Cut(s) + 2 <= |s| then [s[..Cut(s)]] + Split(s[Cut(s) + 2..]) else [s]
  }

  function MergeText(a: string, b: string, maxParts: nat): string {
    var a, b := TrimSpace(a), TrimSpace(b);
    if b == "" || a == b then a
    else if a == "" then b
    else
      var parts := Split(a);
      if (exists i :: 0 <= i < |parts| && TrimSpace(parts[i]) == b) || |parts| >= maxParts then a
      else a + SEPARATOR + b
  }

  function FirstOf(a: string, b: string): string {
    if a == "" then b else a
  }

  function MergeDefinitions(a: Definition, b: Definition): Definition {
    Definition(
      a.itemKey,
      if b.canonicalKey == "" then "" else a.canonicalKey,
      Texts(
        MergeText(a.texts.gloss, b.texts.gloss, 6),
        MergeText(a.texts.note, b.texts.note, 4),
        FirstOf(a.texts.example, b.texts.example),
        FirstOf(a.texts.etymology, b.texts.etymology),
        FirstOf(a.texts.pronunciation, b.texts.pronunciation),
        MergeText(a.texts.related, b.texts.related, 8),
        MergeText(a.texts.derived, b.texts.derived, 8)))
  }

  function MergeDefinition(defs: Defs, d: Definition): Defs {
    defs[d.itemKey := if d.itemKey in defs then MergeDefinitions(defs[d.itemKey], d) else d]
  }

  /** Merging keeps what was there, and adds the new text behind it or not at all. */
  lemma {:induction false} MergeTextKeeps(a: string, b: string, maxParts: nat)
    ensures TrimSpace(a) <= MergeText(a, b, maxParts)
    ensures MergeText(a, b, maxParts) in {TrimSpace(a), TrimSpace(b), TrimSpace(a) + SEPARATOR + TrimSpace(b)}
    ensures MergeText(a, b, maxParts) == "" <==> TrimSpace(a) == "" && TrimSpace(b) == ""
  {
    hide TrimSpace, Split;
  }

  // ---------------------------------------------------------------------------------------
  // Merging twice
  // ---------------------------------------------------------------------------------------

  predicate SeparatorAt(s: string, i: nat)
    requires i + 1 < |s|
  {
    s[i] == SEPARATOR[0] && s[i + 1] == SEPARATOR[1]
  }

  /** No separator anywhere. */
  predicate Whole(s: string) {
    forall i: nat :: i + 1 < |s| ==> !SeparatorAt(s, i)
  }

  /** The cut is at the first separator, or at the end. */
  lemma {:induction false} CutFirst(s: string)
    ensures Whole(s) <==> Cut(s) == |s|
    ensures !Whole(s) ==> Cut(s) + 2 <= |s| && SeparatorAt(s, Cut(s))
    ensures Whole(s[..Cut(s)])
  {
    if |s| >= 2 {
      assert s[..2] == SEPARATOR <==> SeparatorAt(s, 0) by {
        assert s[..2] == [s[0], s[1]];
      }
      if !SeparatorAt(s, 0) {
        CutFirst(s[1..]);
        var t, head := s[1..], s[..Cut(s)];
        assert head[1..] == t[..Cut(t)];
        forall i: nat | i + 1 < |head| ensures !SeparatorAt(head, i) {
          assert i > 0 ==> SeparatorAt(head, i) == SeparatorAt(t[..Cut(t)], i - 1);
          assert i == 0 ==> SeparatorAt(head, i) == SeparatorAt(s, 0);
        }
        forall i: nat | 0 < i && i + 1 < |s| ensures SeparatorAt(s, i) == SeparatorAt(t, i - 1) {
        }
        forall i: nat | i + 1 < |t| ensures SeparatorAt(t, i) == SeparatorAt(s, i + 1) {
        }
      }
    }
  }

  lemma {:induction false} CutBefore(a: string, rest: string)
    ensures Cut(a + SEPARATOR + rest) == Cut(a)
  {
    var t := a + SEPARATOR + rest;
    if a == "" {
      assert t[..2] == SEPARATOR;
    } else if |a| >= 2 && a[..2] == SEPARATOR {
      assert t[..2] == SEPARATOR;
    } else {
      assert t[1..] == a[1..] + SEPARATOR + rest;
      assert t[..2] != SEPARATOR by {
        if |a| == 1 {
          assert t[..2][1] == ';';
        } else {
          assert t[..2] == a[..2];
        }
      }
      CutBefore(a[1..], rest);
    }
  }

  /** Splitting a joined text gives the parts of both. */
  lemma {:induction false} SplitJoined(a: string, b: string)
    ensures Split(a + SEPARATOR + b) == Split(a) + Split(b)
    decreases |a|
  {
    hide Cut, Whole, SeparatorAt;
    var t := a + SEPARATOR + b;
    CutBefore(a, b);
    CutFirst(a);
    var c := Cut(a);
    if Whole(a) {
      assert t[c + 2..] == b && t[..c] == a;
    } else {
      assert t[..c] == a[..c] && t[c + 2..] == a[c + 2..] + SEPARATOR + b;
      SplitJoined(a[c + 2..], b);
    }
  }

  lemma {:induction false} WholeIffOnePart(s: string)
    ensures |Split(s)| >= 1 && (Whole(s) <==> Split(s) == [s])
  {
    CutFirst(s);
    if !Whole(s) {
      assert |Split(s)[0]| < |s|;
    }
  }

  /** No part contains a separator, whatever is trimmed off it. */
  lemma {:induction false} PartsAreWhole(s: string, i: nat)
    requires i < |Split(s)|
    ensures Whole(Split(s)[i]) && Whole(TrimSpace(Split(s)[i]))
    decreases |s|
  {
    hide Whole, Cut, TrimSpace;
    CutFirst(s);
    if i == 0 {
      assert Cut(s) == |s| ==> s[..Cut(s)] == s;
      TrimKeepsWhole(s[..Cut(s)]);
    } else {
      PartsAreWhole(s[Cut(s) + 2..], i - 1);
    }
  }

  lemma {:induction false} TrimKeepsWhole(s: string)
    requires Whole(s)
    ensures Whole(TrimSpace(s))
  {
    TrimLeftKeepsWhole(s);
    TrimRightKeepsWhole(TrimLeft(s));
  }

  lemma {:induction false} TrimLeftKeepsWhole(s: string)
    requires Whole(s)
    ensures Whole(TrimLeft(s))
  {
    if s != "" && IsSpace(s[0]) {
      forall i: nat | i + 1 < |s[1..]| ensures !SeparatorAt(s[1..], i) {
        assert !SeparatorAt(s, i + 1);
      }
      TrimLeftKeepsWhole(s[1..]);
    }
  }

  lemma {:induction false} TrimRightKeepsWhole(s: string)
    requires Whole(s)
    ensures Whole(TrimRight(s))
  {
    if s != "" && IsSpace(s[|s| - 1]) {
      var t := s[..|s| - 1];
      forall i: nat | i + 1 < |t| ensures !SeparatorAt(t, i) {
        assert !SeparatorAt(s, i);
      }
      TrimRightKeepsWhole(t);
    }
  }

  lemma {:induction false} MergedIsTrimmed(a: string, b: string)
    requires Trimmed(a) && Trimmed(b) && a != "" && b != ""
    ensures TrimSpace(a + SEPARATOR + b) == a + SEPARATOR + b
  {
    var r := a + SEPARATOR + b;
    assert r[0] == a[0] && r[|r| - 1] == b[|b| - 1];
    TrimmedStays(r);
  }

  /** A part of the text already there. */
  predicate Listed(a: string, b: string) {
    exists i :: 0 <= i < |Split(a)| && TrimSpace(Split(a)[i]) == b
  }

  lemma {:induction false} ListedIsWhole(a: string, b: string)
    requires Listed(a, b)
    ensures Whole(b)
  {
    var i :| 0 <= i < |Split(a)| && TrimSpace(Split(a)[i]) == b;
    PartsAreWhole(a, i);
  }

  lemma {:induction false} ListedOnceAdded(a: string, b: string)
    requires Whole(b) && Trimmed(b)
    ensures Listed(a + SEPARATOR + b, b)
  {
    SplitJoined(a, b);
    WholeIffOnePart(b);
    TrimmedStays(b);
    var r := a + SEPARATOR + b;
    assert TrimSpace(Split(r)[|Split(a)|]) == b;
  }

  /**
    * Merging the same text a second time changes nothing exactly when the text is a single part, or nothing else is
    * there, or the limit on parts keeps it out.
    */
  lemma {:induction false} MergeTwiceIff(a: string, b: string, maxParts: nat)
    ensures MergeText(MergeText(a, b, maxParts), b, maxParts) == MergeText(a, b, maxParts)
       <==> var a', b' := TrimSpace(a), TrimSpace(b);
            Whole(b') || a' == "" || a' == b' || |Split(a')| + |Split(b')| >= maxParts
  {
    hide TrimSpace, Split, Whole, Trimmed, MergeText;
    var a', b' := TrimSpace(a), TrimSpace(b);
    TrimSpaceTrims(a);
    TrimSpaceTrims(b);
    TrimmedStays(a');
    TrimmedStays(b');
    MergeCases(a, b, maxParts);
    var r := MergeText(a, b, maxParts);
    MergeCases(r, b, maxParts);
    WholeIffOnePart(b');
    if b' == "" {
      EmptyIsWhole();
    } else if a' != "" && a' != b' {
      SplitJoined(a', b');
      MergedIsTrimmed(a', b');
      if Whole(b') {
        ListedOnceAdded(a', b');
      } else {
        if Listed(a', b') { ListedIsWhole(a', b'); }
        if Listed(a' + SEPARATOR + b', b') { ListedIsWhole(a' + SEPARATOR + b', b'); }
      }
    }
  }

  lemma {:induction false} EmptyIsWhole()
    ensures Whole("")
  {
  }

  lemma {:induction false} MergeCases(a: string, b: string, maxParts: nat)
    ensures var a', b' := TrimSpace(a), TrimSpace(b);
            (MergeText(a, b, maxParts)
             == if b' == "" || a' == b' then a'
                else if a' == "" then b'
                else if Listed(a', b') || |Split(a')| >= maxParts then a'
                else a' + SEPARATOR + b')
  {
  }

  // ---------------------------------------------------------------------------------------
  // The import
  // ---------------------------------------------------------------------------------------

  /** The definitions to merge, up to the first failure. */
  datatype Plan = Plan(adds: seq<Definition>, ok: bool)

  function Before(adds: seq<Definition>, p: Plan): Plan {
    Plan(adds + p.adds, p.ok)
  }

  function Alias(key: string, texts: Texts, canonical: string, f: Form): Definition {
    Definition(key, canonical, texts.(note := f.note))
  }

  function PlanForms(key: string, texts: Texts, forms: seq<Form>): Plan {
    if forms == [] then Plan([], true)
    else
      var f, rest := forms[0], forms[1..];
      if !f.usable then PlanForms(key, texts, rest)
      else if f.key.None? then Plan([], false)
      else if f.key.value == "" || f.key.value == key then PlanForms(key, texts, rest)
      else Before([Alias(f.key.value, texts, key, f)], PlanForms(key, texts, rest))
  }

  function PlanLine(line: Line): Plan {
    match line
    case Failure => Plan([], false)
    case Skipped => Plan([], true)
    case Match(key, texts, forms) =>
      if key == "" then Plan([], true)
      else Before([Definition(key, "", texts)], PlanForms(key, texts, forms))
  }

  function PlanLines(lines: seq<Line>): Plan {
    if lines == [] then Plan([], true)
    else
      var first := PlanLine(lines[0]);
      if first.ok then Before(first.adds, PlanLines(lines[1..])) else first
  }

  function Built(adds: seq<Definition>): Defs {
    if adds == [] then map[]
    else MergeDefinition(Built(adds[..|adds| - 1]), adds[|adds| - 1])
  }

  lemma {:induction false} BuiltMore(adds: seq<Definition>, d: Definition)
    ensures Built(adds + [d]) == MergeDefinition(Built(adds), d)
  {
    assert (adds + [d])[..|adds|] == adds;
  }

  method ImportForms(defs: Defs, ghost done: seq<Definition>, key: string, texts: Texts, forms: seq<Form>)
    returns (defs': Defs, ok: bool)
    requires defs == Built(done)
    ensures ok == PlanForms(key, texts, forms).ok
    ensures defs' == Built(done + PlanForms(key, texts, forms).adds)
  {
    hide Built, MergeDefinition;
    defs' := defs;
    ghost var sofar := done;
    assert forms[0..] == forms;
    for i := 0 to |forms|
      invariant defs' == Built(sofar)
      invariant sofar + PlanForms(key, texts, forms[i..]).adds == done + PlanForms(key, texts, forms).adds
      invariant PlanForms(key, texts, forms[i..]).ok == PlanForms(key, texts, forms).ok
    {
      var f := forms[i];
      assert forms[i..][0] == f && forms[i..][1..] == forms[i + 1..];
      if !f.usable {
        continue;
      }
      if f.key.None? {
        assert sofar + [] == sofar;
        return defs', false;
      }
      if f.key.value == "" || f.key.value == key {
        continue;
      }
      var alias := Alias(f.key.value, texts, key, f);
      BuiltMore(sofar, alias);
      ghost var rest := PlanForms(key, texts, forms[i + 1..]).adds;
      assert sofar + ([alias] + rest) == (sofar + [alias]) + rest;
      defs' := MergeDefinition(defs', alias);
      sofar := sofar + [alias];
    }
    assert forms[|forms|..] == [];
    assert sofar + [] == sofar;
    return defs', true;
  }

  method ImportLine(defs: Defs, ghost done: seq<Definition>, line: Line) returns (defs': Defs, ok: bool)
    requires defs == Built(done)
    ensures ok == PlanLine(line).ok
    ensures defs' == Built(done + PlanLine(line).adds)
  {
    hide Built, MergeDefinition, PlanForms;
    assert done + [] == done;
    match line
    case Failure =>
      return defs, false;
    case Skipped =>
      return defs, true;
    case Match(key, texts, forms) =>
      if key == "" {
        return defs, true;
      }
      var base := Definition(key, "", texts);
      BuiltMore(done, base);
      ghost var more := PlanForms(key, texts, forms).adds;
      assert done + ([base] + more) == (done + [base]) + more;
      defs', ok := ImportForms(MergeDefinition(defs, base), done + [base], key, texts, forms);
  }

  lemma {:induction false} PlanStep(lines: seq<Line>, i: nat, sofar: seq<Definition>, all: seq<Definition>)
    requires i < |lines| && sofar + PlanLines(lines[i..]).adds == all
    ensures PlanLine(lines[i]).ok ==>
              && (sofar + PlanLine(lines[i]).adds) + PlanLines(lines[i + 1..]).adds == all
              && PlanLines(lines[i..]).ok == PlanLines(lines[i + 1..]).ok
    ensures !PlanLine(lines[i]).ok ==> sofar + PlanLine(lines[i]).adds == all && !PlanLines(lines[i..]).ok
  {
    hide PlanLine;
    assert lines[i..][1..] == lines[i + 1..];
    var here, rest := PlanLine(lines[i]).adds, PlanLines(lines[i + 1..]).adds;
    assert sofar + (here + rest) == (sofar + here) + rest;
  }

  /** On failure the definitions collected so far are not written. */
  method Import(lines: seq<Line>) returns (defs: Defs, ok: bool)
    ensures ok == PlanLines(lines).ok && defs == Built(PlanLines(lines).adds)
  {
    hide Built, PlanLine, PlanLines;
    NothingPlanned(lines);
    defs := map[];
    ghost var sofar: seq<Definition> := [];
    ghost var all := PlanLines(lines).adds;
    for i := 0 to |lines|
      invariant defs == Built(sofar)
      invariant sofar + PlanLines(lines[i..]).adds == all
      invariant PlanLines(lines[i..]).ok == PlanLines(lines).ok
    {
      PlanStep(lines, i, sofar, all);
      var going;
      defs, going := ImportLine(defs, sofar, lines[i]);
      sofar := sofar + PlanLine(lines[i]).adds;
      if !going {
        return defs, false;
      }
    }
    assert sofar + [] == sofar;
    return defs, true;
  }

  lemma {:induction false} NothingPlanned(lines: seq<Line>)
    ensures Built([]) == map[] && lines[0..] == lines && lines[|lines|..] == [] && PlanLines([]) == Plan([], true)
    ensures [] + PlanLines(lines).adds == PlanLines(lines).adds
  {
  }

  // ---------------------------------------------------------------------------------------
  // Headwords and aliases
  // ---------------------------------------------------------------------------------------

  function Heads(adds: seq<Definition>): set<string> {
    if adds == [] then {}
    else Heads(adds[..|adds| - 1]) + if adds[|adds| - 1].canonicalKey == "" then {adds[|adds| - 1].itemKey} else {}
  }

  function Keys(adds: seq<Definition>): set<string> {
    if adds == [] then {} else Keys(adds[..|adds| - 1]) + {adds[|adds| - 1].itemKey}
  }

  /** Every alias names a headword that was added before it. */
  predicate Grounded(adds: seq<Definition>) {
    adds == []
    || (var d := adds[|adds| - 1];
        && Grounded(adds[..|adds| - 1])
        && (d.canonicalKey != "" ==> d.canonicalKey in Heads(adds[..|adds| - 1])))
  }

  /** The canonical key of the first definition added for the key. */
  function FirstLink(adds: seq<Definition>, key: string): string {
    if adds == [] then ""
    else
      var init, d := adds[..|adds| - 1], adds[|adds| - 1];
      if key in Keys(init) then FirstLink(init, key) else if d.itemKey == key then d.canonicalKey else ""
  }

  /** What the map says of one key. */
  predicate Linked(defs: Defs, adds: seq<Definition>, key: string) {
    && (key in defs <==> key in Keys(adds))
    && (key in defs ==>
          && defs[key].itemKey == key
          && defs[key].canonicalKey == (if key in Heads(adds) then "" else FirstLink(adds, key))
          && (defs[key].canonicalKey == "" <==> key in Heads(adds))
          && (key !in Heads(adds) ==> defs[key].canonicalKey in Heads(adds)))
  }

  lemma {:induction false} HeadsAreKeys(adds: seq<Definition>)
    ensures Heads(adds) <= Keys(adds)
  {
    if adds != [] {
      HeadsAreKeys(adds[..|adds| - 1]);
    }
  }

  lemma {:induction false} BuiltLinked(adds: seq<Definition>, key: string)
    requires Grounded(adds) && "" !in Heads(adds)
    ensures Linked(Built(adds), adds, key)
    decreases |adds|
  {
    hide MergeText, FirstOf;
    if adds != [] {
      HeadsAreKeys(adds[..|adds| - 1]);
      BuiltLinked(adds[..|adds| - 1], key);
    }
  }

  /** A link leads to a definition that has none: following it once is enough. */
  lemma {:induction false} LinksNeverChain(adds: seq<Definition>, key: string)
    requires Grounded(adds) && "" !in Heads(adds) && key in Built(adds) && Built(adds)[key].canonicalKey != ""
    ensures var target := Built(adds)[key].canonicalKey;
            target in Built(adds) && Built(adds)[target].canonicalKey == ""
  {
    hide Built, Heads, Keys, FirstLink, Grounded;
    BuiltLinked(adds, key);
    BuiltLinked(adds, Built(adds)[key].canonicalKey);
    HeadsAreKeys(adds);
  }

  // ---------------------------------------------------------------------------------------
  // The entries behind them
  // ---------------------------------------------------------------------------------------

  function HeadOf(line: Line): set<string> {
    if line.Match? && line.key != "" then {line.key} else {}
  }

  function FormKeys(key: string, forms: seq<Form>): set<string> {
    if forms == [] then {}
    else
      FormKeys(key, forms[1..])
      + if forms[0].usable && forms[0].key.Some? && forms[0].key.value != "" then {forms[0].key.value} else {}
  }

  function KeysOf(line: Line): set<string> {
    if line.Match? && line.key != "" then {line.key} + FormKeys(line.key, line.forms) else {}
  }

  function AllHeads(lines: seq<Line>): set<string> {
    if lines == [] then {} else HeadOf(lines[0]) + AllHeads(lines[1..])
  }

  function AllKeys(lines: seq<Line>): set<string> {
    if lines == [] then {} else KeysOf(lines[0]) + AllKeys(lines[1..])
  }

  lemma {:induction false} HeadsConcat(a: seq<Definition>, b: seq<Definition>)
    ensures Heads(a + b) == Heads(a) + Heads(b) && Keys(a + b) == Keys(a) + Keys(b)
  {
    if b == [] {
      assert a + b == a;
    } else {
      assert (a + b)[..|a + b| - 1] == a + b[..|b| - 1];
      HeadsConcat(a, b[..|b| - 1]);
    }
  }

  /** Definitions grounded in headwords already there. */
  predicate GroundedIn(adds: seq<Definition>, heads: set<string>) {
    adds == []
    || (var d := adds[0];
        && (d.canonicalKey != "" ==> d.canonicalKey in heads)
        && GroundedIn(adds[1..], heads + if d.canonicalKey == "" then {d.itemKey} else {}))
  }

  lemma {:induction false} GroundedBehind(a: seq<Definition>, b: seq<Definition>)
    requires Grounded(a) && GroundedIn(b, Heads(a))
    ensures Grounded(a + b)
    decreases |b|
  {
    if b == [] {
      assert a + b == a;
    } else {
      assert (a + [b[0]])[..|a|] == a;
      GroundedBehind(a + [b[0]], b[1..]);
      assert (a + [b[0]]) + b[1..] == a + b;
    }
  }

  lemma {:induction false} MoreHeads(adds: seq<Definition>, few: set<string>, many: set<string>)
    requires GroundedIn(adds, few) && few <= many
    ensures GroundedIn(adds, many)
  {
    if adds != [] {
      var own := if adds[0].canonicalKey == "" then {adds[0].itemKey} else {};
      MoreHeads(adds[1..], few + own, many + own);
    }
  }

  lemma {:induction false} ConcatGrounded(a: seq<Definition>, b: seq<Definition>, heads: set<string>)
    requires GroundedIn(a, heads) && GroundedIn(b, {})
    ensures GroundedIn(a + b, heads)
  {
    if a == [] {
      assert a + b == b;
      MoreHeads(b, {}, heads);
    } else {
      assert (a + b)[1..] == a[1..] + b;
      ConcatGrounded(a[1..], b, heads + if a[0].canonicalKey == "" then {a[0].itemKey} else {});
    }
  }

  lemma {:induction false} FormsPlanned(key: string, texts: Texts, forms: seq<Form>)
    requires key != ""
    ensures var p := PlanForms(key, texts, forms);
            && Heads(p.adds) == {} && GroundedIn(p.adds, {key})
            && (p.ok ==> Keys(p.adds) + {key} == FormKeys(key, forms) + {key})
  {
    if forms != [] {
      var rest := PlanForms(key, texts, forms[1..]).adds;
      FormsPlanned(key, texts, forms[1..]);
      if forms[0].key.Some? {
        HeadsConcat([Alias(forms[0].key.value, texts, key, forms[0])], rest);
        OneAlias(Alias(forms[0].key.value, texts, key, forms[0]), rest, key);
      }
    }
  }

  lemma {:induction false} OneAlias(d: Definition, rest: seq<Definition>, key: string)
    requires d.canonicalKey == key != "" && GroundedIn(rest, {key})
    ensures GroundedIn([d] + rest, {key}) && Heads([d]) == {} && Keys([d]) == {d.itemKey}
  {
    assert ([d] + rest)[1..] == rest && {key} + {} == {key};
    assert [d][..0] == [];
  }

  lemma {:induction false} LinePlanned(line: Line)
    ensures var p := PlanLine(line);
            && GroundedIn(p.adds, {}) && "" !in Heads(p.adds)
            && (p.ok ==> Heads(p.adds) == HeadOf(line) && Keys(p.adds) == KeysOf(line))
  {
    hide PlanForms;
    if line.Match? && line.key != "" {
      var base := Definition(line.key, "", line.texts);
      var more := PlanForms(line.key, line.texts, line.forms).adds;
      FormsPlanned(line.key, line.texts, line.forms);
      HeadsConcat([base], more);
      assert [base][..0] == [] && ([base] + more)[1..] == more;
      assert {} + {line.key} == {line.key};
    }
  }

  lemma {:induction false} LinesPlanned(lines: seq<Line>)
    ensures var p := PlanLines(lines);
            && GroundedIn(p.adds, {}) && "" !in Heads(p.adds)
            && (p.ok ==> Heads(p.adds) == AllHeads(lines) && Keys(p.adds) == AllKeys(lines))
  {
    hide PlanLine, HeadOf, KeysOf;
    if lines != [] {
      LinePlanned(lines[0]);
      LinesPlanned(lines[1..]);
      var first := PlanLine(lines[0]);
      if first.ok {
        HeadsConcat(first.adds, PlanLines(lines[1..]).adds);
        ConcatGrounded(first.adds, PlanLines(lines[1..]).adds, {});
      }
    }
  }

  /** Whatever the lines, and wherever the import stops, no link leads to another link. */
  lemma {:induction false} ImportNeverChains(lines: seq<Line>, key: string)
    ensures var defs := Built(PlanLines(lines).adds);
            key in defs && defs[key].canonicalKey != "" ==>
              && defs[key].canonicalKey in defs
              && defs[defs[key].canonicalKey].canonicalKey == ""
  {
    hide Built, PlanLines, Heads, Grounded, GroundedIn;
    var adds := PlanLines(lines).adds;
    LinesPlanned(lines);
    GroundedFromNothing(adds);
    if key in Built(adds) && Built(adds)[key].canonicalKey != "" {
      LinksNeverChain(adds, key);
    }
  }

  lemma {:induction false} GroundedFromNothing(adds: seq<Definition>)
    requires GroundedIn(adds, {})
    ensures Grounded(adds)
  {
    GroundedBehind([], adds);
    assert [] + adds == adds;
  }

  /** After a full import the keys are the headwords and forms, and a key is an alias when no headword resolved to it. */
  lemma {:induction false} AliasIffNoHeadword(lines: seq<Line>, key: string)
    requires PlanLines(lines).ok
    ensures var defs := Built(PlanLines(lines).adds);
            && (key in defs <==> key in AllKeys(lines))
            && (key in defs ==> (defs[key].canonicalKey != "" <==> key !in AllHeads(lines)))
  {
    hide Built, PlanLines, Heads, Keys, Grounded, GroundedIn, FirstLink, AllKeys, AllHeads;
    LinesPlanned(lines);
    GroundedFromNothing(PlanLines(lines).adds);
    BuiltLinked(PlanLines(lines).adds, key);
  }

  lemma {:induction false} LineCounted(lines: seq<Line>, line: Line)
    requires line in lines
    ensures HeadOf(line) <= AllHeads(lines) && KeysOf(line) <= AllKeys(lines)
  {
    hide HeadOf, KeysOf;
    if line != lines[0] {
      LineCounted(lines[1..], line);
    }
  }

  lemma {:induction false} SubsetCounted(lines: seq<Line>, others: seq<Line>)
    requires forall l :: l in lines ==> l in others
    ensures AllHeads(lines) <= AllHeads(others) && AllKeys(lines) <= AllKeys(others)
  {
    hide HeadOf, KeysOf;
    if lines != [] {
      LineCounted(others, lines[0]);
      SubsetCounted(lines[1..], others);
    }
  }

  /** The import gets through exactly when it gets through each line. */
  lemma {:induction false} AllLinesOk(lines: seq<Line>)
    ensures PlanLines(lines).ok <==> forall l :: l in lines ==> PlanLine(l).ok
  {
    hide PlanLine;
    if lines != [] {
      AllLinesOk(lines[1..]);
    }
  }

  /** The order of the lines, and lines repeated, change neither whether the import gets through nor which keys are
      defined nor which are aliases. */
  lemma {:induction false} OrderDoesNotMatter(lines: seq<Line>, others: seq<Line>, key: string)
    requires PlanLines(lines).ok
    requires forall l :: l in lines <==> l in others
    ensures PlanLines(others).ok
    ensures var a, b := Built(PlanLines(lines).adds), Built(PlanLines(others).adds);
            && (key in a <==> key in b)
            && (key in a && key in b ==> (a[key].canonicalKey == "" <==> b[key].canonicalKey == ""))
  {
    hide Built, PlanLines, PlanLine, AllHeads, AllKeys;
    AllLinesOk(lines);
    AllLinesOk(others);
    SubsetCounted(lines, others);
    SubsetCounted(others, lines);
    AliasIffNoHeadword(lines, key);
    AliasIffNoHeadword(others, key);
  }

  // ---------------------------------------------------------------------------------------
  // What a definition says
  // ---------------------------------------------------------------------------------------

  datatype Field = Gloss | Note | Example | Etymology | Pronunciation | Related | Derived

  function Get(t: Texts, f: Field): string {
    match f
    case Gloss => t.gloss
    case Note => t.note
    case Example => t.example
    case Etymology => t.etymology
    case Pronunciation => t.pronunciation
    case Related => t.related
    case Derived => t.derived
  }

  /** One field of the definitions added for the key, in order. */
  function TextsUnder(adds: seq<Definition>, key: string, f: Field): seq<string> {
    if adds == [] then []
    else
      var d := adds[|adds| - 1];
      TextsUnder(adds[..|adds| - 1], key, f) + if d.itemKey == key then [Get(d.texts, f)] else []
  }

  function FirstWritten(texts: seq<string>): string {
    if texts == [] then "" else if texts[0] != "" then texts[0] else FirstWritten(texts[1..])
  }

  /** The first text, the others merged behind it one after the other. */
  function MergedAll(texts: seq<string>, maxParts: nat): string {
    if texts == [] then ""
    else if |texts| == 1 then texts[0]
    else MergeText(MergedAll(texts[..|texts| - 1], maxParts), texts[|texts| - 1], maxParts)
  }

  /** Glosses, notes and related words are merged, up to a number of parts; of the rest the first one written stays. */
  function Combined(texts: seq<string>, f: Field): string {
    match f
    case Gloss => MergedAll(texts, 6)
    case Note => MergedAll(texts, 4)
    case Related => MergedAll(texts, 8)
    case Derived => MergedAll(texts, 8)
    case _ => FirstWritten(texts)
  }

  lemma {:induction false} FirstWrittenMore(texts: seq<string>, s: string)
    ensures FirstWritten(texts + [s]) == if FirstWritten(texts) == "" then s else FirstWritten(texts)
  {
    if texts == [] {
      assert [] + [s] == [s];
    } else {
      assert (texts + [s])[1..] == texts[1..] + [s];
      FirstWrittenMore(texts[1..], s);
    }
  }

  lemma {:induction false} MergedAllMore(texts: seq<string>, s: string, maxParts: nat)
    ensures MergedAll(texts + [s], maxParts) == if texts == [] then s else MergeText(MergedAll(texts, maxParts), s, maxParts)
  {
    hide MergeText;
    assert (texts + [s])[..|texts|] == texts;
  }

  lemma {:induction false} MergedField(defs: Defs, d: Definition, f: Field)
    requires d.itemKey in defs
    ensures var a, b := Get(defs[d.itemKey].texts, f), Get(d.texts, f);
            Get(MergeDefinition(defs, d)[d.itemKey].texts, f)
            == match f
               case Gloss => MergeText(a, b, 6)
               case Note => MergeText(a, b, 4)
               case Related => MergeText(a, b, 8)
               case Derived => MergeText(a, b, 8)
               case _ => if a == "" then b else a
  {
    hide MergeText;
  }

  /** Every field of a built definition is combined from all definitions added for its key, in their order. */
  lemma {:induction false} BuiltText(adds: seq<Definition>, key: string, f: Field)
    ensures key in Built(adds) <==> TextsUnder(adds, key, f) != []
    ensures key in Built(adds) ==> Get(Built(adds)[key].texts, f) == Combined(TextsUnder(adds, key, f), f)
  {
    hide MergeText;
    if adds != [] {
      var init, d := adds[..|adds| - 1], adds[|adds| - 1];
      BuiltText(init, key, f);
      if d.itemKey == key {
        var texts, s := TextsUnder(init, key, f), Get(d.texts, f);
        FirstWrittenMore(texts, s);
        MergedAllMore(texts, s, 4);
        MergedAllMore(texts, s, 6);
        MergedAllMore(texts, s, 8);
        assert TextsUnder(adds, key, f) == texts + [s];
        if key in Built(init) {
          MergedField(Built(init), d, f);
        }
      } else {
        assert TextsUnder(adds, key, f) == TextsUnder(init, key, f);
      }
    }
  }

  /** A form that gets a definition of its own. */
  predicate Aliased(key: string, form: Form) {
    form.usable && form.key.Some? && form.key.value != "" && form.key.value != key
  }

  /** The headword's texts, but for the note, which is the form's. */
  predicate IsAlias(d: Definition, key: string, texts: Texts, form: Form) {
    && form.key == Some(d.itemKey) && d.canonicalKey == key
    && d.texts == Texts(texts.gloss, form.note, texts.example, texts.etymology, texts.pronunciation, texts.related,
                        texts.derived)
  }

  lemma {:induction false} FormDefinitions(key: string, texts: Texts, forms: seq<Form>, d: Definition)
    ensures PlanForms(key, texts, forms).ok <==> forall f :: f in forms && f.usable ==> f.key.Some?
    ensures PlanForms(key, texts, forms).ok ==>
              (d in PlanForms(key, texts, forms).adds
               <==> exists f :: f in forms && Aliased(key, f) && IsAlias(d, key, texts, f))
  {
    if forms != [] {
      FormDefinitions(key, texts, forms[1..], d);
      assert forms == [forms[0]] + forms[1..];
    }
  }

  /** The definitions of a line are its headword's, first, and one for each usable form with a key of its own; the line
      fails when it is broken or a usable form of it has no key. */
  lemma {:induction false} LineDefinitions(line: Line, d: Definition)
    ensures PlanLine(line).ok <==>
              line != Failure
              && (line.Match? && line.key != "" ==> forall f :: f in line.forms && f.usable ==> f.key.Some?)
    ensures PlanLine(line).ok ==>
              (d in PlanLine(line).adds
               <==> line.Match? && line.key != ""
                    && (d == Definition(line.key, "", line.texts)
                        || exists f :: f in line.forms && Aliased(line.key, f) && IsAlias(d, line.key, line.texts, f)))
    ensures line.Match? && line.key != "" ==>
              PlanLine(line).adds != [] && PlanLine(line).adds[0] == Definition(line.key, "", line.texts)
  {
    hide PlanForms, IsAlias, Aliased;
    if line.Match? && line.key != "" {
      FormDefinitions(line.key, line.texts, line.forms, d);
    }
  }
}
