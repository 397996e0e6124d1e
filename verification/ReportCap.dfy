/** Task reports of one session and the cap on regenerations, under concurrent reporters. */
module ReportCap {
  import opened Numbers
  import opened Wrappers

  datatype Outcome = Queued | Regenerating | Regenerated | Failed | Answered | CapReached | Unavailable

  /** The outcomes that use up the cap. */
  predicate Counts(o: Outcome) {
    o == Queued || o == Regenerating || o == Regenerated || o == Failed
  }

  /** Regeneration is on when there are both a model and a queue. */
  datatype Config = Config(cap: int, regeneration: bool)

  function Decide(answered: bool, c: Config, used: int): Outcome {
    if answered then Answered
    else if !c.regeneration then Unavailable
    else if used >= c.cap then CapReached
    else Queued
  }

  function Used(rows: seq<Outcome>): nat {
    if rows == [] then 0 else Used(rows[..|rows| - 1]) + if Counts(rows[|rows| - 1]) then 1 else 0
  }

  /** The indexes of the rows that are queued, regenerating, regenerated or failed. */
  ghost function UsingUp(rows: seq<Outcome>): set<nat> {
    set i: nat | i < |rows| && rows[i] in {Queued, Regenerating, Regenerated, Failed}
  }

  /** The number used is the number of those rows: a failed regeneration does not free its place. */
  lemma {:induction false} UsedIs(rows: seq<Outcome>)
    ensures Used(rows) == |UsingUp(rows)|
  {
    if rows == [] {
      assert UsingUp(rows) == {};
    } else {
      var n := |rows| - 1;
      UsedIs(rows[..n]);
      assert forall i :: 0 <= i < n ==> rows[..n][i] == rows[i];
      assert UsingUp(rows) == UsingUp(rows[..n]) + (if n in UsingUp(rows) then {n} else {});
    }
  }

  // ---------------------------------------------------------------------------------------
  // One report with nothing in between
  // ---------------------------------------------------------------------------------------

  /** What the reporter is told. */
  datatype Answer = Answer(outcome: Outcome, used: int)

  class SessionReports {
    var rows: seq<Outcome>

    constructor ()
      ensures rows == []
    {
      rows := [];
    }

    method CountByOutcome() returns (used: nat)
      ensures used == Used(rows)
    {
      used := 0;
      for i := 0 to |rows|
        invariant used == Used(rows[..i])
      {
        assert rows[..i + 1][..i] == rows[..i];
        if Counts(rows[i]) {
          used := used + 1;
        }
      }
      assert rows[..|rows|] == rows;
    }

    method UpdateOutcome(row: nat, o: Outcome)
      requires row < |rows|
      modifies this
      ensures rows == old(rows)[row := o]
    {
      rows := rows[row := o];
    }

    method ReportTask(answered: bool, c: Config, enqueued: bool) returns (answer: Answer)
      modifies this
      ensures var o := Decide(answered, c, Used(old(rows)));
              if o == Queued && !enqueued then
                rows == old(rows) + [Unavailable] && answer == Answer(Unavailable, Used(old(rows)))
              else
                rows == old(rows) + [o] && answer == Answer(o, Used(old(rows)) + if o == Queued then 1 else 0)
    {
      var used := CountByOutcome();
      var outcome := Decide(answered, c, used);
      rows := rows + [outcome];
      var responseUsed: int := used;
      if outcome == Queued {
        responseUsed := responseUsed + 1;
        if !enqueued {
          outcome := Unavailable;
          UpdateOutcome(|rows| - 1, outcome);
          responseUsed := used;
        }
      }
      return Answer(outcome, responseUsed);
    }
  }

  // ---------------------------------------------------------------------------------------
  // Many reporters
  // ---------------------------------------------------------------------------------------

  datatype Phase =
    | Idle
    | Locked
    | Counted(used: int)
    | Inserted(outcome: Outcome, used: int)
    | Done(row: nat, answer: Answer)

  /** The committed rows, who holds the session's lock, and where each reporter is. */
  datatype System = System(rows: seq<Outcome>, holder: Option<nat>, phases: map<nat, Phase>)

  function PhaseOf(s: System, p: nat): Phase {
    if p in s.phases then s.phases[p] else Idle
  }

  datatype Event =
    | Lock(p: nat)
    | Count(p: nat)
    | Insert(p: nat, answered: bool)
    | Commit(p: nat)
    | Rollback(p: nat)
    | EnqueueFailed(p: nat)
    | Update(row: nat, outcome: Outcome)

  function At(s: System, p: nat, phase: Phase): System {
    s.(phases := s.phases[p := phase])
  }

  function Release(s: System, p: nat): System {
    if s.holder == Some(p) then s.(holder := None) else s
  }

  predicate InTransaction(phase: Phase) {
    phase.Locked? || phase.Counted? || phase.Inserted?
  }

  function AnswerFor(o: Outcome, used: int): Answer {
    Answer(o, if o == Queued then used + 1 else used)
  }

  /** One step; a step that is not enabled changes nothing. Without locking, Lock always succeeds. */
  function Step(s: System, c: Config, locking: bool, e: Event): System {
    match e
    case Lock(p) =>
      if InTransaction(PhaseOf(s, p)) || (locking && s.holder.Some?) then s
      else At(s.(holder := Some(p)), p, Locked)
    case Count(p) =>
      if PhaseOf(s, p).Locked? then At(s, p, Counted(Used(s.rows))) else s
    case Insert(p, answered) =>
      var phase := PhaseOf(s, p);
      if phase.Counted? then At(s, p, Inserted(Decide(answered, c, phase.used), phase.used)) else s
    case Commit(p) =>
      var phase := PhaseOf(s, p);
      if phase.Inserted? then
        At(Release(s, p).(rows := s.rows + [phase.outcome]), p, Done(|s.rows|, AnswerFor(phase.outcome, phase.used)))
      else s
    case Rollback(p) =>
      if InTransaction(PhaseOf(s, p)) then At(Release(s, p), p, Idle) else s
    case EnqueueFailed(p) =>
      var phase := PhaseOf(s, p);
      if phase.Done? && phase.answer.outcome == Queued && phase.row < |s.rows| then
        At(s.(rows := s.rows[phase.row := Unavailable]), p, Done(phase.row, Answer(Unavailable, phase.answer.used - 1)))
      else s
    case Update(row, o) =>
      if row < |s.rows| then s.(rows := s.rows[row := o]) else s
  }

  /** An update that moves a row into the counted outcomes. */
  predicate Enters(s: System, e: Event) {
    e.Update? && e.row < |s.rows| && !Counts(s.rows[e.row]) && Counts(e.outcome)
  }

  function Start(): System {
    System([], None, map[])
  }

  function Run(events: seq<Event>, c: Config, locking: bool): System {
    if events == [] then Start()
    else Step(Run(events[..|events| - 1], c, locking), c, locking, events[|events| - 1])
  }

  function Entries(events: seq<Event>, c: Config, locking: bool): nat {
    if events == [] then 0
    else
      var before := events[..|events| - 1];
      Entries(before, c, locking) + if Enters(Run(before, c, locking), events[|events| - 1]) then 1 else 0
  }

  // ---------------------------------------------------------------------------------------
  // The cap
  // ---------------------------------------------------------------------------------------

  lemma {:induction false} UsedAppend(rows: seq<Outcome>, o: Outcome)
    ensures Used(rows + [o]) == Used(rows) + if Counts(o) then 1 else 0
  {
    assert (rows + [o])[..|rows|] == rows;
  }

  lemma {:induction false} UsedUpdate(rows: seq<Outcome>, i: nat, o: Outcome)
    requires i < |rows|
    ensures Used(rows[i := o])
         == Used(rows) - (if Counts(rows[i]) then 1 else 0) + if Counts(o) then 1 else 0
  {
    var n := |rows| - 1;
    if i == n {
      assert rows[i := o][..n] == rows[..n];
    } else {
      assert rows[i := o][..n] == rows[..n][i := o];
      UsedUpdate(rows[..n], i, o);
    }
  }

  /** What a reporter's phase says, once extra rows have entered the counted outcomes behind the lock's back. */
  predicate PhaseSound(s: System, c: Config, extra: nat, p: nat) {
    var phase := PhaseOf(s, p);
    && (InTransaction(phase) ==> s.holder == Some(p))
    && (phase.Counted? ==> Used(s.rows) <= phase.used + extra && phase.used <= Max(c.cap, 0) + extra)
    && (phase.Inserted? ==>
          && Used(s.rows) <= phase.used + extra && phase.used <= Max(c.cap, 0) + extra
          && (phase.outcome == Queued ==> phase.used < c.cap)
          && (Counts(phase.outcome) ==> phase.outcome == Queued))
    && (phase.Done? ==>
          && phase.answer.used <= Max(c.cap, 0) + extra
          && (phase.answer.outcome == Queued ==> phase.answer.used <= c.cap))
  }

  ghost predicate Sound(s: System, c: Config, extra: nat) {
    && Used(s.rows) <= Max(c.cap, 0) + extra
    && forall p: nat {:trigger PhaseSound(s, c, extra, p)} :: PhaseSound(s, c, extra, p)
  }

  lemma {:induction false} StepKeepsSound(s: System, c: Config, extra: nat, e: Event)
    requires Sound(s, c, extra)
    ensures Sound(Step(s, c, true, e), c, extra + if Enters(s, e) then 1 else 0)
  {
    hide Used;
    var s' := Step(s, c, true, e);
    var extra' := extra + if Enters(s, e) then 1 else 0;
    RowsAfter(s, c, extra, e);
    forall p: nat ensures PhaseSound(s', c, extra', p) {
      assert PhaseSound(s, c, extra, p);
      if !e.Update? {
        assert PhaseSound(s, c, extra, e.p);
      }
    }
  }

  /** How one step changes the number of counted rows. */
  lemma {:induction false} RowsAfter(s: System, c: Config, extra: nat, e: Event)
    requires Sound(s, c, extra)
    ensures var s' := Step(s, c, true, e);
            && Used(s'.rows) <= Max(c.cap, 0) + extra + (if Enters(s, e) then 1 else 0)
            && (!e.Commit? ==> Used(s'.rows) <= Used(s.rows) + if Enters(s, e) then 1 else 0)
  {
    hide Used;
    match e
    case Commit(p) =>
      assert PhaseSound(s, c, extra, p);
      var phase := PhaseOf(s, p);
      if phase.Inserted? {
        UsedAppend(s.rows, phase.outcome);
      }
    case EnqueueFailed(p) =>
      var phase := PhaseOf(s, p);
      if phase.Done? && phase.row < |s.rows| {
        UsedUpdate(s.rows, phase.row, Unavailable);
      }
    case Update(row, o) =>
      if row < |s.rows| {
        UsedUpdate(s.rows, row, o);
      }
    case _ =>
  }

  lemma {:induction false} RunKeepsSound(events: seq<Event>, c: Config)
    ensures Sound(Run(events, c, true), c, Entries(events, c, true))
  {
    hide Step, Enters;
    if events == [] {
      forall p: nat ensures PhaseSound(Start(), c, 0, p) {
      }
    } else {
      RunKeepsSound(events[..|events| - 1], c);
      StepKeepsSound(Run(events[..|events| - 1], c, true), c, Entries(events[..|events| - 1], c, true),
                     events[|events| - 1]);
    }
  }

  /**
    * However reporters, workers and failures interleave: when no update moves a row into the counted outcomes, at
    * most cap reports are counted, and a queued reporter is told a number of at most cap.
    */
  lemma {:induction false} CapHolds(events: seq<Event>, c: Config, p: nat)
    requires Entries(events, c, true) == 0
    ensures var s := Run(events, c, true);
            && Used(s.rows) <= Max(c.cap, 0)
            && (PhaseOf(s, p).Done? ==>
                  && PhaseOf(s, p).answer.used <= Max(c.cap, 0)
                  && (PhaseOf(s, p).answer.outcome == Queued ==> PhaseOf(s, p).answer.used <= c.cap))
  {
    hide Run, Entries, Used;
    RunKeepsSound(events, c);
    assert PhaseSound(Run(events, c, true), c, 0, p);
  }

  /** In general the cap is exceeded by no more than the number of updates that did. */
  lemma {:induction false} CapHoldsUpToEntries(events: seq<Event>, c: Config)
    ensures Used(Run(events, c, true).rows) <= Max(c.cap, 0) + Entries(events, c, true)
  {
    hide Run, Entries, Used;
    RunKeepsSound(events, c);
  }

  // ---------------------------------------------------------------------------------------
  // The cap is reached
  // ---------------------------------------------------------------------------------------

  function Report(p: nat): seq<Event> {
    [Lock(p), Count(p), Insert(p, false), Commit(p)]
  }

  function Reports(k: nat): seq<Event> {
    if k == 0 then [] else Reports(k - 1) + Report(k - 1)
  }

  lemma {:induction false} RunFour(before: seq<Event>, a: Event, b: Event, d: Event, e: Event, c: Config, locking: bool)
    ensures Run(before + [a, b, d, e], c, locking)
         == Step(Step(Step(Step(Run(before, c, locking), c, locking, a), c, locking, b), c, locking, d), c, locking, e)
  {
    hide Step;
    var e1, e2, e3 := before + [a], before + [a, b], before + [a, b, d];
    assert e1[..|before|] == before && e2[..|e1|] == e1 && e3[..|e2|] == e2;
    assert (before + [a, b, d, e])[..|e3|] == e3;
    assert Run(e2, c, locking) == Step(Run(e1, c, locking), c, locking, b);
    assert Run(e3, c, locking) == Step(Run(e2, c, locking), c, locking, d);
  }

  function Reported(s: System, c: Config, p: nat, answered: bool): System {
    var o := Decide(answered, c, Used(s.rows));
    System(s.rows + [o], None, s.phases[p := Done(|s.rows|, AnswerFor(o, Used(s.rows)))])
  }

  /** The four steps with nothing in between are one report. */
  lemma {:induction false} ReportRuns(s: System, c: Config, p: nat, answered: bool)
    requires s.holder == None && p !in s.phases
    ensures Step(Step(Step(Step(s, c, true, Lock(p)), c, true, Count(p)), c, true, Insert(p, answered)), c, true, Commit(p))
         == Reported(s, c, p, answered)
  {
    hide Used;
    var s1 := Step(s, c, true, Lock(p));
    var s2 := Step(s1, c, true, Count(p));
    var s3 := Step(s2, c, true, Insert(p, answered));
    assert s3.phases == s.phases[p := s3.phases[p]];
  }

  /** A rolled back report leaves no row and frees the lock it held. */
  lemma {:induction false} RollbackFrees(s: System, c: Config, locking: bool, p: nat)
    requires InTransaction(PhaseOf(s, p)) && s.holder == Some(p)
    ensures var after := Step(s, c, locking, Rollback(p));
            after.rows == s.rows && after.holder == None && after.phases == s.phases[p := Idle]
  {
  }

  /** What such a report stores and tells: an answered task is only recorded, and without regeneration, or with the cap
      used up, nothing is queued; one that is queued counts itself. */
  lemma {:induction false} ReportTells(s: System, c: Config, p: nat, answered: bool)
    ensures var used, after := |UsingUp(s.rows)|, Reported(s, c, p, answered);
            && |after.rows| == |s.rows| + 1 && after.rows[..|s.rows|] == s.rows && after.holder == None
            && after.phases.Keys == s.phases.Keys + {p}
            && after.phases[p] == Done(|s.rows|, Answer(
                 after.rows[|s.rows|], if after.rows[|s.rows|] == Queued then used + 1 else used))
            && (after.rows[|s.rows|] == Queued <==> !answered && c.regeneration && used < c.cap)
            && (after.rows[|s.rows|] == Answered <==> answered)
            && (after.rows[|s.rows|] == Unavailable <==> !answered && !c.regeneration)
            && (after.rows[|s.rows|] == CapReached <==> !answered && c.regeneration && used >= c.cap)
  {
    UsedIs(s.rows);
  }

  /** Of k reports one after another exactly the first cap are queued: the cap is used in full. */
  lemma {:induction false} CapIsUsed(k: nat, c: Config)
    requires c.regeneration
    ensures var s := Run(Reports(k), c, true);
            && s.holder == None && |s.rows| == k && Used(s.rows) == Min(k, Max(c.cap, 0))
            && (forall p: nat :: p in s.phases ==> p < k)
            && (forall i :: 0 <= i < k ==> s.rows[i] == if i < c.cap then Queued else CapReached)
  {
    hide Step, Used;
    if k == 0 {
      AtStart(c, true);
    } else {
      CapIsUsed(k - 1, c);
      var s := Run(Reports(k - 1), c, true);
      var p := k - 1;
      RunFour(Reports(p), Lock(p), Count(p), Insert(p, false), Commit(p), c, true);
      ReportRuns(s, c, p, false);
      UsedAppend(s.rows, Decide(false, c, Used(s.rows)));
    }
  }

  // ---------------------------------------------------------------------------------------
  // What the bound rests on
  // ---------------------------------------------------------------------------------------

  lemma {:induction false} AtStart(c: Config, locking: bool)
    ensures Run([], c, locking) == Start() && Entries([], c, locking) == 0 && Used([]) == 0
  {
  }

  lemma {:induction false} RunOne(before: seq<Event>, e: Event, c: Config, locking: bool)
    ensures Run(before + [e], c, locking) == Step(Run(before, c, locking), c, locking, e)
    ensures Entries(before + [e], c, locking)
         == Entries(before, c, locking) + if Enters(Run(before, c, locking), e) then 1 else 0
  {
    hide Step, Enters;
    assert (before + [e])[..|before|] == before;
  }

  lemma {:induction false} UsedPair(a: Outcome, b: Outcome)
    ensures Used([a, b]) == (if Counts(a) then 1 else 0) + if Counts(b) then 1 else 0
    ensures Used([a]) == if Counts(a) then 1 else 0
  {
    assert [a] + [b] == [a, b] && [] + [a] == [a];
    UsedAppend([a], b);
    UsedAppend([], a);
  }

  lemma {:induction false} EnqueueStep(s: System, c: Config, p: nat, row: nat, used: int)
    requires PhaseOf(s, p) == Done(row, Answer(Queued, used)) && row < |s.rows|
    ensures Step(s, c, true, EnqueueFailed(p))
         == System(s.rows[row := Unavailable], s.holder, s.phases[p := Done(row, Answer(Unavailable, used - 1))])
  {
  }

  lemma {:induction false} UpdateStep(s: System, c: Config, row: nat, o: Outcome)
    requires row < |s.rows|
    ensures Step(s, c, true, Update(row, o)) == s.(rows := s.rows[row := o])
  {
  }

  lemma {:induction false} EntriesReport(before: seq<Event>, p: nat, c: Config)
    ensures Entries(before + Report(p), c, true) == Entries(before, c, true)
  {
    hide Run, Entries;
    var e1, e2, e3 := before + [Lock(p)], before + [Lock(p), Count(p)], before + [Lock(p), Count(p), Insert(p, false)];
    RunOne(before, Lock(p), c, true);
    assert e1 + [Count(p)] == e2 && e2 + [Insert(p, false)] == e3 && e3 + [Commit(p)] == before + Report(p);
    RunOne(e1, Count(p), c, true);
    RunOne(e2, Insert(p, false), c, true);
    RunOne(e3, Commit(p), c, true);
  }

  /** Reports 0 to n - 1, each set aside because the queue did not take it. */
  function SetAside(n: nat): seq<Event> {
    if n == 0 then [] else SetAside(n - 1) + Report(n - 1) + [EnqueueFailed(n - 1)]
  }

  /** Then k more reports. */
  function ThenQueued(n: nat, k: nat): seq<Event> {
    if k == 0 then SetAside(n) else ThenQueued(n, k - 1) + Report(n + k - 1)
  }

  /** Then a worker takes up m of the reports set aside after all. */
  function ThenTakenUp(n: nat, k: nat, m: nat): seq<Event> {
    if m == 0 then ThenQueued(n, k) else ThenTakenUp(n, k, m - 1) + [Update(m - 1, Regenerating)]
  }

  /** m rows taken up, the other of the first n set aside, the rest queued; nobody in a transaction. */
  predicate Rows(s: System, n: nat, k: nat, m: nat)
    requires m <= n
  {
    && s.holder == None && |s.rows| == n + k && Used(s.rows) == m + k
    && (forall i :: 0 <= i < n ==> s.rows[i] == if i < m then Regenerating else Unavailable)
    && forall p :: p in s.phases ==> p < n + k
  }

  lemma {:induction false} ReportedNext(before: seq<Event>, c: Config, p: nat)
    requires Run(before, c, true).holder == None && p !in Run(before, c, true).phases
    ensures Run(before + Report(p), c, true) == Reported(Run(before, c, true), c, p, false)
  {
    hide Run, Step, Reported;
    RunFour(before, Lock(p), Count(p), Insert(p, false), Commit(p), c, true);
    ReportRuns(Run(before, c, true), c, p, false);
  }

  lemma {:induction false} SetAsideRuns(n: nat, c: Config)
    requires c.cap >= 1 && c.regeneration
    ensures Rows(Run(SetAside(n), c, true), n, 0, 0) && Entries(SetAside(n), c, true) == 0
  {
    hide Run, Step, Used, Entries;
    if n == 0 {
      AtStart(c, true);
    } else {
      var p := n - 1;
      SetAsideRuns(p, c);
      var s := Run(SetAside(p), c, true);
      ReportedNext(SetAside(p), c, p);
      EntriesReport(SetAside(p), p, c);
      var s1 := Run(SetAside(p) + Report(p), c, true);
      UsedAppend(s.rows, Queued);
      RunOne(SetAside(p) + Report(p), EnqueueFailed(p), c, true);
      EnqueueStep(s1, c, p, p, 1);
      UsedUpdate(s1.rows, p, Unavailable);
    }
  }

  lemma {:induction false} QueuedRuns(n: nat, k: nat, c: Config)
    requires c.cap >= 1 && c.regeneration && k <= c.cap
    ensures Rows(Run(ThenQueued(n, k), c, true), n, k, 0) && Entries(ThenQueued(n, k), c, true) == 0
    decreases k
  {
    hide Run, Step, Used, Entries;
    if k == 0 {
      SetAsideRuns(n, c);
    } else {
      var p := n + k - 1;
      QueuedRuns(n, k - 1, c);
      var s := Run(ThenQueued(n, k - 1), c, true);
      ReportedNext(ThenQueued(n, k - 1), c, p);
      EntriesReport(ThenQueued(n, k - 1), p, c);
      UsedAppend(s.rows, Queued);
    }
  }

  lemma {:induction false} TakenUpRuns(n: nat, k: nat, m: nat, c: Config)
    requires c.cap >= 1 && c.regeneration && k <= c.cap && m <= n
    ensures Rows(Run(ThenTakenUp(n, k, m), c, true), n, k, m) && Entries(ThenTakenUp(n, k, m), c, true) == m
    decreases m
  {
    hide Run, Step, Used, Entries;
    if m == 0 {
      QueuedRuns(n, k, c);
    } else {
      var e := Update(m - 1, Regenerating);
      TakenUpRuns(n, k, m - 1, c);
      var s := Run(ThenTakenUp(n, k, m - 1), c, true);
      RunOne(ThenTakenUp(n, k, m - 1), e, c, true);
      UpdateStep(s, c, m - 1, Regenerating);
      UsedUpdate(s.rows, m - 1, Regenerating);
    }
  }

  /**
    * The bound is reached: for every cap of at least one and every number of updates into the counted outcomes, the
    * queue reports so many failures, cap reports follow, and a worker regenerates the failed ones after all.
    */
  lemma {:induction false} LateUpdatesExceedCap(c: Config, n: nat)
    requires c.cap >= 1 && c.regeneration
    ensures var events := ThenTakenUp(n, c.cap, n);
            Entries(events, c, true) == n && Used(Run(events, c, true).rows) == c.cap + n
  {
    hide Run, Used, Entries;
    TakenUpRuns(n, c.cap, n, c);
  }

  /** Without the lock two reporters may both count none and both be queued. */
  lemma {:induction false} UnlockedExceedsCap()
    ensures var events := [Lock(0), Lock(1), Count(0), Count(1)] + [Insert(0, false), Insert(1, false), Commit(0), Commit(1)];
            Used(Run(events, Config(1, true), false).rows) == 2
  {
    hide Used, Run;
    var c := Config(1, true);
    AtStart(c, false);
    var e := [Lock(0), Lock(1), Count(0), Count(1)];
    assert [] + e == e;
    RunFour([], Lock(0), Lock(1), Count(0), Count(1), c, false);
    RunFour(e, Insert(0, false), Insert(1, false), Commit(0), Commit(1), c, false);
    var s := Run(e, c, false);
    assert s.rows == [] && PhaseOf(s, 0) == Counted(0) && PhaseOf(s, 1) == Counted(0);
    var s' := Step(Step(s, c, false, Insert(0, false)), c, false, Insert(1, false));
    assert PhaseOf(s', 0) == Inserted(Queued, 0) && PhaseOf(s', 1) == Inserted(Queued, 0);
    assert [] + [Queued] + [Queued] == [Queued, Queued];
    UsedPair(Queued, Queued);
  }
}
