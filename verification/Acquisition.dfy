/** The acquisition engine: scores, stages that never go down, and task grades folded into counters. */
module Acquisition {
  import opened Numbers
  import opened Wrappers

  type Item(==, !new)

  datatype Stage = Unset | Unseen | Encountered | Recognizing | Acquiring | Acquired | Automatic

  function Order(s: Stage): nat {
    match s
    case Unset => 0
    case Unseen => 0
    case Encountered => 1
    case Recognizing => 2
    case Acquiring => 3
    case Acquired => 4
    case Automatic => 5
  }

  datatype Knowledge = Knowledge(
    exposures: nat,
    lookups: nat,
    variety: nat,
    correct: nat,
    total: nat,
    confidence: Option<real>,
    stage: Stage,
    lastSeen: Option<real>)

  const NEW_ROW := Knowledge(0, 0, 0, 0, 0, None, Unset, None)

  datatype Thresholds = Thresholds(
    recognizingMinExposure: int,
    recognizingMinVariety: int,
    recognizingMaxLookupRatio: real,
    acquiringMinVariety: int,
    acquiringMinCorrect: int,
    acquiringMaxLookupRatio: real,
    acquiredMinAccuracy: real,
    acquiredMinTotal: int,
    acquiredMaxLookupRatio: real,
    acquiredMinVariety: int,
    automaticMinConfidence: real)

  /** The algorithmic predictor; fade is the recency factor after that many days. */
  datatype Predictor = Predictor(
    exposureSaturation: real,
    lookupWeight: real,
    taskWeight: real,
    varietySaturation: real,
    varietyWeight: real,
    fade: real -> real)

  predicate Configured(p: Predictor) {
    p.exposureSaturation > 0.0 && p.varietySaturation > 0.0
  }

  // ---------------------------------------------------------------------------------------
  // Score and stage
  // ---------------------------------------------------------------------------------------

  function MinReal(a: real, b: real): real {
    if a <= b then a else b
  }

  function Clamp01(v: real): real {
    if v < 0.0 then 0.0 else if v > 1.0 then 1.0 else v
  }

  function Accuracy(k: Knowledge): real {
    if k.total > 0 then k.correct as real / k.total as real else 0.0
  }

  function LookupPenalty(p: Predictor, k: Knowledge): real {
    if k.exposures > 0 then k.lookups as real / k.exposures as real * p.lookupWeight
    else if k.lookups > 0 then p.lookupWeight
    else 0.0
  }

  function Recency(p: Predictor, k: Knowledge, now: real): real {
    if k.lastSeen.Some? && (now - k.lastSeen.value) / 86400.0 > 0.0 then p.fade((now - k.lastSeen.value) / 86400.0)
    else 1.0
  }

  function Base(p: Predictor, k: Knowledge): real
    requires Configured(p)
  {
    MinReal(k.exposures as real / p.exposureSaturation, 1.0)
  }

  function VarietyBonus(p: Predictor, k: Knowledge): real
    requires Configured(p)
  {
    MinReal(k.variety as real / p.varietySaturation, 1.0) * p.varietyWeight
  }

  function TaskScore(p: Predictor, k: Knowledge): real {
    Accuracy(k) * p.taskWeight
  }

  function Strength(p: Predictor, k: Knowledge): real
    requires Configured(p)
  {
    Base(p, k) - LookupPenalty(p, k) + TaskScore(p, k) + VarietyBonus(p, k)
  }

  function Faded(strength: real, recency: real): real {
    Clamp01(strength * recency)
  }

  function Score(p: Predictor, k: Knowledge, now: real): real
    requires Configured(p)
  {
    Faded(Strength(p, k), Recency(p, k, now))
  }

  /** Each gate is tried only behind the one below it. */
  function Evaluate(t: Thresholds, k: Knowledge): Stage {
    if k.exposures < 1 then Unseen
    else
      var ratio := k.lookups as real / k.exposures as real;
      if !(k.exposures >= t.recognizingMinExposure && k.variety >= t.recognizingMinVariety
           && ratio < t.recognizingMaxLookupRatio) then Encountered
      else if !(k.variety >= t.acquiringMinVariety && k.correct >= t.acquiringMinCorrect
                && ratio < t.acquiringMaxLookupRatio) then Recognizing
      else if !(k.total >= t.acquiredMinTotal && Accuracy(k) >= t.acquiredMinAccuracy
                && ratio < t.acquiredMaxLookupRatio && k.variety >= t.acquiredMinVariety) then Acquiring
      else if k.confidence.Some? && k.confidence.value >= t.automaticMinConfidence && k.lookups == 0 then Automatic
      else Acquired
  }

  // ---------------------------------------------------------------------------------------
  // The engine
  // ---------------------------------------------------------------------------------------

  datatype Config = Config(thresholds: Thresholds, predictor: Predictor)

  function Rescored(c: Config, k: Knowledge, now: real): Knowledge
    requires Configured(c.predictor)
  {
    k.(confidence := Some(Score(c.predictor, k, now)))
  }

  function Refreshed(c: Config, k: Knowledge, now: real): Knowledge
    requires Configured(c.predictor)
  {
    var scored := Rescored(c, k, now);
    var next := Evaluate(c.thresholds, scored);
    if Order(next) > Order(k.stage) || k.stage == Unset then scored.(stage := next) else scored
  }

  /** The row a grade hands to the refresh, seen at that time. */
  function Counted(k: Knowledge, demonstrated: bool, seen: real): Knowledge {
    k.(total := k.total + 1, correct := k.correct + (if demonstrated then 1 else 0), lastSeen := Some(seen))
  }

  type Rows = map<Item, Knowledge>

  function RowOf(rows: Rows, item: Item): Knowledge {
    if item in rows then rows[item] else NEW_ROW
  }

  /** When each target was seen and when it was scored. */
  datatype Times = Times(seen: real, scored: real)

  function Graded(c: Config, k: Knowledge, demonstrated: bool, at: Times): Knowledge
    requires Configured(c.predictor)
  {
    Refreshed(c, Counted(k, demonstrated, at.seen), at.scored)
  }

  function AfterSignal(c: Config, rows: Rows, targets: seq<Item>, demonstrated: set<Item>, clock: nat -> Times): Rows
    requires Configured(c.predictor)
  {
    if targets == [] then rows
    else
      var n := |targets| - 1;
      var before := AfterSignal(c, rows, targets[..n], demonstrated, clock);
      before[targets[n] := Graded(c, RowOf(before, targets[n]), targets[n] in demonstrated, clock(n))]
  }

  class Engine {
    const config: Config
    var rows: Rows

    ghost predicate Valid()
      reads this
    {
      Configured(config.predictor)
    }

    constructor (config: Config)
      requires Configured(config.predictor)
      ensures Valid() && this.config == config && rows == map[]
    {
      this.config := config;
      rows := map[];
    }

    method Refresh(item: Item, k: Knowledge, now: real) returns (stored: Knowledge)
      requires Valid()
      modifies this
      ensures Valid() && stored == Refreshed(config, k, now) && rows == old(rows)[item := stored]
    {
      stored := k.(confidence := Some(Score(config.predictor, k, now)));
      var next := Evaluate(config.thresholds, stored);
      if Order(next) > Order(stored.stage) {
        stored := stored.(stage := next);
      } else if stored.stage == Unset {
        stored := stored.(stage := next);
      }
      rows := rows[item := stored];
    }

    method ApplyTaskSignal(targets: seq<Item>, demonstrated: set<Item>, clock: nat -> Times)
      requires Valid()
      modifies this
      ensures Valid() && rows == AfterSignal(config, old(rows), targets, demonstrated, clock)
    {
      for i := 0 to |targets|
        invariant Valid() && rows == AfterSignal(config, old(rows), targets[..i], demonstrated, clock)
      {
        assert targets[..i + 1][..i] == targets[..i];
        var item := targets[i];
        var k := if item in rows then rows[item] else NEW_ROW;
        k := k.(total := k.total + 1);
        if item in demonstrated {
          k := k.(correct := k.correct + 1);
        }
        k := k.(lastSeen := Some(clock(i).seen));
        var _ := Refresh(item, k, clock(i).scored);
      }
      assert targets[..|targets|] == targets;
    }
  }

  // ---------------------------------------------------------------------------------------
  // The ladder
  // ---------------------------------------------------------------------------------------

  /** What it takes to climb to a stage from the one below, without divisions. */
  predicate Gate(t: Thresholds, k: Knowledge, stage: Stage) {
    var exposures, lookups := k.exposures as real, k.lookups as real;
    match stage
    case Encountered => k.exposures >= 1
    case Recognizing =>
      && k.exposures >= t.recognizingMinExposure && k.variety >= t.recognizingMinVariety
      && lookups < t.recognizingMaxLookupRatio * exposures
    case Acquiring =>
      && k.variety >= t.acquiringMinVariety && k.correct >= t.acquiringMinCorrect
      && lookups < t.acquiringMaxLookupRatio * exposures
    case Acquired =>
      && k.total >= t.acquiredMinTotal && k.variety >= t.acquiredMinVariety
      && (if k.total > 0 then k.correct as real >= t.acquiredMinAccuracy * k.total as real else 0.0 >= t.acquiredMinAccuracy)
      && lookups < t.acquiredMaxLookupRatio * exposures
    case Automatic => k.confidence.Some? && k.confidence.value >= t.automaticMinConfidence && k.lookups == 0
    case _ => true
  }

  lemma {:induction false} RatioBelow(a: real, b: real, m: real)
    requires b > 0.0
    ensures a / b < m <==> a < m * b
    ensures a / b >= m <==> a >= m * b
  {
    var x := a / b;
    assert x * b == a;
    assert (m - x) * b == m * b - a;
    if m - x > 0.0 {
      ProductSign(x - m, b);
    } else {
      ProductSign(x - m, b);
    }
  }

  /** A stage is reached exactly when its own gate and every gate below it are passed. */
  lemma {:induction false} StageReachedIff(t: Thresholds, k: Knowledge, stage: Stage)
    ensures Order(stage) <= Order(Evaluate(t, k))
       <==> forall below: Stage :: Order(below) <= Order(stage) ==> Gate(t, k, below)
  {
    if k.exposures >= 1 {
      var lookups, exposures := k.lookups as real, k.exposures as real;
      RatioBelow(lookups, exposures, t.recognizingMaxLookupRatio);
      RatioBelow(lookups, exposures, t.acquiringMaxLookupRatio);
      RatioBelow(lookups, exposures, t.acquiredMaxLookupRatio);
    }
    if k.total > 0 {
      RatioBelow(k.correct as real, k.total as real, t.acquiredMinAccuracy);
    }
    var gates := [Gate(t, k, Encountered), Gate(t, k, Recognizing), Gate(t, k, Acquiring), Gate(t, k, Acquired),
                  Gate(t, k, Automatic)];
    var climbed := if !gates[0] then 0 else if !gates[1] then 1 else if !gates[2] then 2 else if !gates[3] then 3
                   else if !gates[4] then 4 else 5;
    assert Order(Evaluate(t, k)) == climbed;
  }

  // ---------------------------------------------------------------------------------------
  // Stages only rise
  // ---------------------------------------------------------------------------------------

  /** The stored stage becomes the higher of what it was and what the rescored row earns. */
  lemma {:induction false} RefreshTakesTheHigher(c: Config, k: Knowledge, now: real)
    requires Configured(c.predictor)
    ensures Order(Refreshed(c, k, now).stage) == Max(Order(k.stage), Order(Evaluate(c.thresholds, Rescored(c, k, now))))
    ensures Refreshed(c, k, now).stage != Unset
  {
    hide Score;
  }

  /** Confidence is a probability. */
  lemma {:induction false} ConfidenceBounded(c: Config, k: Knowledge, now: real)
    requires Configured(c.predictor)
    ensures Refreshed(c, k, now).confidence.Some? && 0.0 <= Refreshed(c, k, now).confidence.value <= 1.0
  {
    hide Evaluate;
  }

  // ---------------------------------------------------------------------------------------
  // Runs
  // ---------------------------------------------------------------------------------------

  /** A graded task, or the reader moving an item's counters. */
  datatype Event =
    | Grade(targets: seq<Item>, demonstrated: set<Item>, clock: nat -> Times)
    | Read(item: Item, exposures: nat, lookups: nat, variety: nat, at: Times)

  function Step(c: Config, rows: Rows, e: Event): Rows
    requires Configured(c.predictor)
  {
    match e
    case Grade(targets, demonstrated, clock) => AfterSignal(c, rows, targets, demonstrated, clock)
    case Read(item, exposures, lookups, variety, at) =>
      var k := RowOf(rows, item).(exposures := exposures, lookups := lookups, variety := variety,
                                  lastSeen := Some(at.seen));
      rows[item := Refreshed(c, k, at.scored)]
  }

  function Run(c: Config, rows: Rows, events: seq<Event>): Rows
    requires Configured(c.predictor)
  {
    if events == [] then rows else Step(c, Run(c, rows, events[..|events| - 1]), events[|events| - 1])
  }

  /** Counters stay consistent and no row's stage falls. */
  predicate Advances(before: Rows, after: Rows, item: Item) {
    && Order(RowOf(before, item).stage) <= Order(RowOf(after, item).stage)
    && (RowOf(before, item).correct <= RowOf(before, item).total ==> RowOf(after, item).correct <= RowOf(after, item).total)
    && RowOf(before, item).correct <= RowOf(after, item).correct
    && RowOf(before, item).total <= RowOf(after, item).total
  }

  lemma {:induction false} SignalAdvances(c: Config, rows: Rows, targets: seq<Item>, demonstrated: set<Item>,
                                          clock: nat -> Times, item: Item)
    requires Configured(c.predictor)
    ensures Advances(rows, AfterSignal(c, rows, targets, demonstrated, clock), item)
  {
    hide Score, Evaluate;
    if targets != [] {
      var n := |targets| - 1;
      SignalAdvances(c, rows, targets[..n], demonstrated, clock, item);
      var before := AfterSignal(c, rows, targets[..n], demonstrated, clock);
      RefreshTakesTheHigher(c, Counted(RowOf(before, targets[n]), targets[n] in demonstrated, clock(n).seen),
                            clock(n).scored);
    }
  }

  lemma {:induction false} StepAdvances(c: Config, rows: Rows, e: Event, item: Item)
    requires Configured(c.predictor)
    ensures Advances(rows, Step(c, rows, e), item)
  {
    hide Score, Evaluate, AfterSignal;
    match e
    case Grade(targets, demonstrated, clock) =>
      SignalAdvances(c, rows, targets, demonstrated, clock, item);
    case Read(i, exposures, lookups, variety, at) =>
      var k := RowOf(rows, i).(exposures := exposures, lookups := lookups, variety := variety,
                               lastSeen := Some(at.seen));
      RefreshTakesTheHigher(c, k, at.scored);
  }

  /** Over any run from any rows: stages never fall, and correct answers stay at most the answers given. */
  lemma {:induction false} RunAdvances(c: Config, rows: Rows, events: seq<Event>, item: Item)
    requires Configured(c.predictor)
    ensures Advances(rows, Run(c, rows, events), item)
    decreases |events|
  {
    hide Step;
    if events != [] {
      RunAdvances(c, rows, events[..|events| - 1], item);
      StepAdvances(c, Run(c, rows, events[..|events| - 1]), events[|events| - 1], item);
    }
  }

  /** How many times a signal counts an item: once for every time it is a target. */
  function Repeats(targets: seq<Item>, item: Item): nat {
    if targets == [] then 0
    else Repeats(targets[..|targets| - 1], item) + if targets[|targets| - 1] == item then 1 else 0
  }

  lemma {:induction false} SignalCounts(c: Config, rows: Rows, targets: seq<Item>, demonstrated: set<Item>,
                                        clock: nat -> Times, item: Item)
    requires Configured(c.predictor)
    ensures var k, k' := RowOf(rows, item), RowOf(AfterSignal(c, rows, targets, demonstrated, clock), item);
            && k'.total == k.total + Repeats(targets, item)
            && k'.correct == k.correct + (if item in demonstrated then Repeats(targets, item) else 0)
            && k'.exposures == k.exposures && k'.lookups == k.lookups && k'.variety == k.variety
  {
    hide Score, Evaluate;
    if targets != [] {
      SignalCounts(c, rows, targets[..|targets| - 1], demonstrated, clock, item);
    }
  }

  /** An item met in tasks alone has no reading behind it and stays unseen. */
  lemma {:induction false} TasksAloneStayUnseen(c: Config, rows: Rows, targets: seq<Item>, demonstrated: set<Item>,
                                                clock: nat -> Times, item: Item)
    requires Configured(c.predictor) && item !in rows && item in targets
    ensures item in AfterSignal(c, rows, targets, demonstrated, clock)
    ensures var k := AfterSignal(c, rows, targets, demonstrated, clock)[item];
            && k.exposures == 0 && k.lookups == 0 && k.variety == 0 && k.stage == Unseen
            && k.total == Repeats(targets, item) && k.correct == if item in demonstrated then k.total else 0
    decreases |targets|
  {
    hide Score;
    var n := |targets| - 1;
    SignalCounts(c, rows, targets, demonstrated, clock, item);
    if item in targets[..n] {
      TasksAloneStayUnseen(c, rows, targets[..n], demonstrated, clock, item);
    } else {
      NotGraded(c, rows, targets[..n], demonstrated, clock, item);
      assert targets[n] == item;
    }
  }

  lemma {:induction false} NotGraded(c: Config, rows: Rows, targets: seq<Item>, demonstrated: set<Item>,
                                     clock: nat -> Times, item: Item)
    requires Configured(c.predictor) && item !in targets
    ensures item in AfterSignal(c, rows, targets, demonstrated, clock) <==> item in rows
    ensures item in rows ==> AfterSignal(c, rows, targets, demonstrated, clock)[item] == rows[item]
  {
    hide Graded;
    if targets != [] {
      NotGraded(c, rows, targets[..|targets| - 1], demonstrated, clock, item);
    }
  }

  /** A row graded last is seen and scored at the times of its last occurrence. */
  lemma {:induction false} LastGradeScores(c: Config, rows: Rows, targets: seq<Item>, demonstrated: set<Item>,
                                           clock: nat -> Times, item: Item, i: nat)
    requires Configured(c.predictor)
    requires i < |targets| && targets[i] == item && forall j :: i < j < |targets| ==> targets[j] != item
    ensures var k := RowOf(AfterSignal(c, rows, targets, demonstrated, clock), item);
            && item in AfterSignal(c, rows, targets, demonstrated, clock)
            && k.lastSeen == Some(clock(i).seen)
            && k.confidence == Some(Score(c.predictor, k, clock(i).scored))
    decreases |targets|
  {
    hide Evaluate;
    var n := |targets| - 1;
    var before := AfterSignal(c, rows, targets[..n], demonstrated, clock);
    if i < n {
      LastGradeScores(c, rows, targets[..n], demonstrated, clock, item, i);
    } else {
      SameScore(c.predictor, Counted(RowOf(before, item), item in demonstrated, clock(n).seen),
                RowOf(AfterSignal(c, rows, targets, demonstrated, clock), item), clock(n).scored);
    }
  }

  /** The score looks neither at the confidence stored nor at the stage. */
  lemma {:induction false} SameScore(p: Predictor, a: Knowledge, b: Knowledge, now: real)
    requires Configured(p) && b == a.(confidence := b.confidence, stage := b.stage)
    ensures Score(p, a, now) == Score(p, b, now)
  {
    hide Base, LookupPenalty, TaskScore, VarietyBonus, Faded;
    assert Base(p, a) == Base(p, b) && LookupPenalty(p, a) == LookupPenalty(p, b) by { SameParts(p, a, b); }
    assert TaskScore(p, a) == TaskScore(p, b) && VarietyBonus(p, a) == VarietyBonus(p, b) by { SameParts(p, a, b); }
  }

  lemma {:induction false} SameParts(p: Predictor, a: Knowledge, b: Knowledge)
    requires Configured(p) && b == a.(confidence := b.confidence, stage := b.stage)
    ensures Base(p, a) == Base(p, b) && LookupPenalty(p, a) == LookupPenalty(p, b)
    ensures TaskScore(p, a) == TaskScore(p, b) && VarietyBonus(p, a) == VarietyBonus(p, b)
  {
  }

  // ---------------------------------------------------------------------------------------
  // The score
  // ---------------------------------------------------------------------------------------

  /** A count over its saturation, at most one. */
  predicate Saturates(share: real, count: nat, saturation: real) {
    if count as real >= saturation then share == 1.0 else share * saturation == count as real
  }

  /** A ratio, stated without a division; fallback where there is nothing to divide by. */
  predicate IsRatio(ratio: real, part: nat, whole: nat, fallback: real) {
    if whole > 0 then ratio * whole as real == part as real else ratio == fallback
  }

  /** The score before fading: exposures and variety up to their saturations, less the lookups per exposure, plus the
      accuracy, each with its weight. */
  lemma {:induction false} StrengthIs(p: Predictor, k: Knowledge)
    returns (seen: real, lookedUp: real, accuracy: real, varied: real)
    requires Configured(p)
    ensures Strength(p, k) == seen - lookedUp * p.lookupWeight + accuracy * p.taskWeight + varied * p.varietyWeight
    ensures Saturates(seen, k.exposures, p.exposureSaturation) && Saturates(varied, k.variety, p.varietySaturation)
    ensures IsRatio(lookedUp, k.lookups, k.exposures, if k.lookups > 0 then 1.0 else 0.0)
    ensures IsRatio(accuracy, k.correct, k.total, 0.0)
  {
    seen := Base(p, k);
    accuracy := Accuracy(k);
    lookedUp := if k.exposures > 0 then k.lookups as real / k.exposures as real else if k.lookups > 0 then 1.0 else 0.0;
    varied := MinReal(k.variety as real / p.varietySaturation, 1.0);
    CappedShare(k.exposures, p.exposureSaturation);
    CappedShare(k.variety, p.varietySaturation);
  }

  lemma {:induction false} CappedShare(count: nat, saturation: real)
    requires saturation > 0.0
    ensures Saturates(MinReal(count as real / saturation, 1.0), count, saturation)
  {
    var x := count as real / saturation;
    assert x * saturation == count as real;
    assert (x - 1.0) * saturation == count as real - saturation;
    if count as real >= saturation {
      if x < 1.0 {
        ProductSign(x - 1.0, saturation);
      }
      assert MinReal(x, 1.0) == 1.0;
    } else {
      if x > 1.0 {
        ProductSign(x - 1.0, saturation);
      }
      assert MinReal(x, 1.0) == x;
    }
  }

  /** The score is the strength times the fading since the row was last seen, cut off at zero and one. */
  lemma {:induction false} ScoreFades(p: Predictor, k: Knowledge, now: real) returns (fading: real)
    requires Configured(p)
    ensures k.lastSeen == None || now <= k.lastSeen.value ==> fading == 1.0
    ensures k.lastSeen.Some? && now > k.lastSeen.value ==>
              exists days: real :: days * 86400.0 == now - k.lastSeen.value && fading == p.fade(days)
    ensures var v := Strength(p, k) * fading;
            && (0.0 <= v <= 1.0 ==> Score(p, k, now) == v)
            && (v < 0.0 ==> Score(p, k, now) == 0.0) && (v > 1.0 ==> Score(p, k, now) == 1.0)
  {
    hide Strength;
    fading := Recency(p, k, now);
    if k.lastSeen.Some? && now > k.lastSeen.value {
      var days := (now - k.lastSeen.value) / 86400.0;
      assert days * 86400.0 == now - k.lastSeen.value && fading == p.fade(days);
    }
  }

  // ---------------------------------------------------------------------------------------
  // A demonstrated target
  // ---------------------------------------------------------------------------------------

  predicate AtLeast(a: Option<real>, b: Option<real>) {
    a.Some? && (b.Some? ==> b.value <= a.value)
  }

  /** The evaluated stage is monotone in the task counters, the accuracy and the confidence. */
  lemma {:induction false} StageMonotone(t: Thresholds, a: Knowledge, b: Knowledge)
    requires a.exposures == b.exposures && a.lookups == b.lookups && a.variety == b.variety
    requires a.correct <= b.correct && a.total <= b.total && Accuracy(a) <= Accuracy(b)
    requires AtLeast(b.confidence, a.confidence)
    ensures Order(Evaluate(t, a)) <= Order(Evaluate(t, b))
  {
    hide Accuracy;
  }

  /** Fewer lookups and more variety never lower the strength, at the same exposures and answers. */
  lemma {:induction false} StrengthMonotone(p: Predictor, a: Knowledge, b: Knowledge)
    requires Configured(p) && p.lookupWeight >= 0.0 && p.varietyWeight >= 0.0
    requires a.exposures == b.exposures && a.correct == b.correct && a.total == b.total
    requires b.lookups <= a.lookups && a.variety <= b.variety
    ensures Strength(p, a) <= Strength(p, b)
  {
    LookupsCost(p, a, b);
    VarietyPays(p, a, b);
    assert Base(p, a) == Base(p, b) && TaskScore(p, a) == TaskScore(p, b);
    hide Base, LookupPenalty, TaskScore, VarietyBonus;
  }

  lemma {:induction false} LookupsCost(p: Predictor, a: Knowledge, b: Knowledge)
    requires p.lookupWeight >= 0.0 && a.exposures == b.exposures && b.lookups <= a.lookups
    ensures LookupPenalty(p, b) <= LookupPenalty(p, a)
  {
    if a.exposures > 0 {
      Grows(b.lookups as real, a.lookups as real, a.exposures as real, p.lookupWeight);
    }
  }

  lemma {:induction false} VarietyPays(p: Predictor, a: Knowledge, b: Knowledge)
    requires Configured(p) && p.varietyWeight >= 0.0 && a.variety <= b.variety
    ensures VarietyBonus(p, a) <= VarietyBonus(p, b)
  {
    Grows(a.variety as real, b.variety as real, p.varietySaturation, 1.0);
    var x := MinReal(a.variety as real / p.varietySaturation, 1.0);
    var y := MinReal(b.variety as real / p.varietySaturation, 1.0);
    ProductSign(y - x, p.varietyWeight);
    assert y * p.varietyWeight - x * p.varietyWeight == (y - x) * p.varietyWeight;
  }

  lemma {:induction false} Grows(a: real, b: real, d: real, w: real)
    requires a <= b && d > 0.0 && w >= 0.0
    ensures a / d <= b / d && a / d * w <= b / d * w
  {
    Cross(a, d, b, d);
    ProductSign(b / d - a / d, w);
    assert b / d * w - a / d * w == (b / d - a / d) * w;
  }

  lemma {:induction false} RatioRises(c: nat, t: nat)
    requires c <= t && t > 0
    ensures c as real / t as real <= (c + 1) as real / (t + 1) as real
  {
    var x, y := c as real, t as real;
    Cross(x, y, x + 1.0, y + 1.0);
  }

  lemma {:induction false} Cross(a: real, b: real, c: real, d: real)
    requires b > 0.0 && d > 0.0 && a * d <= c * b
    ensures a / b <= c / d
  {
    var x, y := a / b, c / d;
    assert x * b == a && y * d == c;
    assert (y - x) * (b * d) == c * b - a * d;
    ProductSign(y - x, b * d);
  }

  /** One more demonstrated answer does not lower the accuracy. */
  lemma {:induction false} AccuracyRises(k: Knowledge, seen: real)
    requires k.correct <= k.total
    ensures Accuracy(k) <= Accuracy(Counted(k, true, seen))
  {
    if k.total > 0 {
      RatioRises(k.correct, k.total);
    }
  }

  lemma {:induction false} StrengthRises(p: Predictor, k: Knowledge, seen: real)
    requires Configured(p) && p.taskWeight >= 0.0 && k.correct <= k.total
    ensures Strength(p, k) <= Strength(p, Counted(k, true, seen))
  {
    AccuracyRises(k, seen);
    var gain := Accuracy(Counted(k, true, seen)) - Accuracy(k);
    ProductSign(gain, p.taskWeight);
    assert Accuracy(Counted(k, true, seen)) * p.taskWeight == Accuracy(k) * p.taskWeight + gain * p.taskWeight;
  }

  lemma {:induction false} ClampedProducts(v: real, f: real, v': real, f': real)
    requires v <= v' && 0.0 < f <= f'
    ensures Faded(v, f) <= Faded(v', f')
  {
    if v >= 0.0 {
      ProductSign(v' - v, f);
      ProductSign(v', f' - f);
      assert v' * f' - v * f == (v' - v) * f + v' * (f' - f);
      ClampGrows(v * f, v' * f');
    } else {
      ProductSign(v, f);
    }
  }

  lemma {:induction false} ClampGrows(a: real, b: real)
    requires a <= b
    ensures Clamp01(a) <= Clamp01(b)
  {
  }

  lemma {:induction false} ProductSign(a: real, b: real)
    ensures a >= 0.0 && b >= 0.0 ==> a * b >= 0.0
    ensures a < 0.0 && b > 0.0 ==> a * b < 0.0
  {
  }

  lemma {:induction false} ScoreIs(p: Predictor, k: Knowledge, now: real)
    requires Configured(p)
    ensures Score(p, k, now) == Faded(Strength(p, k), Recency(p, k, now))
  {
  }

  lemma {:induction false} ScoreRises(p: Predictor, k: Knowledge, at: Times)
    requires Configured(p) && p.taskWeight >= 0.0 && k.correct <= k.total
    requires 0.0 < Recency(p, k, at.scored) <= Recency(p, Counted(k, true, at.seen), at.scored)
    ensures Score(p, k, at.scored) <= Score(p, Counted(k, true, at.seen), at.scored)
  {
    hide Score, Strength, Recency, Faded;
    var k' := Counted(k, true, at.seen);
    StrengthRises(p, k, at.seen);
    ScoreIs(p, k, at.scored);
    ScoreIs(p, k', at.scored);
    ClampedProducts(Strength(p, k), Recency(p, k, at.scored), Strength(p, k'), Recency(p, k', at.scored));
  }

  lemma {:induction false} SameAccuracy(a: Knowledge, b: Knowledge)
    requires a.correct == b.correct && a.total == b.total
    ensures Accuracy(a) == Accuracy(b)
  {
  }

  /**
    * A demonstrated target has at least the confidence and the evaluated stage that rescoring the row at the same
    * instant without the answer would give it, as long as the row has not faded more for being seen now.
    */
  lemma {:induction false} DemonstrationNeverHurts(c: Config, k: Knowledge, at: Times)
    requires Configured(c.predictor) && c.predictor.taskWeight >= 0.0 && k.correct <= k.total
    requires 0.0 < Recency(c.predictor, k, at.scored)
                <= Recency(c.predictor, Counted(k, true, at.seen), at.scored)
    ensures Score(c.predictor, k, at.scored) <= Score(c.predictor, Counted(k, true, at.seen), at.scored)
    ensures Order(Evaluate(c.thresholds, Rescored(c, k, at.scored)))
         <= Order(Evaluate(c.thresholds, Rescored(c, Counted(k, true, at.seen), at.scored)))
  {
    hide Score, Evaluate, Accuracy;
    var k' := Counted(k, true, at.seen);
    ScoreRises(c.predictor, k, at);
    AccuracyRises(k, at.seen);
    SameAccuracy(k, Rescored(c, k, at.scored));
    SameAccuracy(k', Rescored(c, k', at.scored));
    StageMonotone(c.thresholds, Rescored(c, k, at.scored), Rescored(c, k', at.scored));
  }

  /** Recency multiplies by a factor between 0 and 1. */
  ghost predicate Fades(p: Predictor) {
    forall days: real {:trigger p.fade(days)} :: days > 0.0 ==> 0.0 < p.fade(days) <= 1.0
  }

  /** Seen and scored at one instant, a demonstrated target can only gain, however long ago it was last seen. */
  lemma {:induction false} DemonstratedNow(c: Config, k: Knowledge, now: real)
    requires Configured(c.predictor) && c.predictor.taskWeight >= 0.0 && k.correct <= k.total && Fades(c.predictor)
    ensures var without, with := Refreshed(c, k, now), Graded(c, k, true, Times(now, now));
            && without.confidence.value <= with.confidence.value
            && Order(without.stage) <= Order(with.stage)
  {
    hide Score, Evaluate;
    DemonstrationNeverHurts(c, k, Times(now, now));
    RefreshTakesTheHigher(c, k, now);
    RefreshTakesTheHigher(c, Counted(k, true, now), now);
  }
}
