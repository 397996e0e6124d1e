/** What the wave schedule guarantees: a run completes exactly on acyclic graphs, every step runs
    once at the depth of its longest dependency chain, and no schedule is shorter. */
module WaveTheory {
  import opened Wrappers
  import opened WaveScheduler

  /** The step named `from` waits for the step named `to`. */
  ghost predicate DependsOn(steps: seq<StepDef>, from: StepId, to: StepId) {
    exists s :: s in steps && s.id == from && StepDep(to) in s.deps
  }

  /** A dependency path from p[0] down to its last id. */
  ghost predicate DependencyPath(steps: seq<StepDef>, p: seq<StepId>) {
    p != [] && forall i :: 0 <= i < |p| - 1 ==> DependsOn(steps, p[i], p[i + 1])
  }

  ghost predicate Cycle(steps: seq<StepDef>, p: seq<StepId>) {
    |p| >= 2 && DependencyPath(steps, p) && p[0] == p[|p| - 1]
  }

  ghost predicate Acyclic(steps: seq<StepDef>) {
    forall p :: !Cycle(steps, p)
  }

  /** What validation checks of the dependencies; ids may repeat. */
  ghost predicate AllKnown(steps: seq<StepDef>) {
    forall s :: s in steps ==> DepsKnown(steps, s)
  }

  // ---------------------------------------------------------------------------------------
  // The shape of a schedule
  // ---------------------------------------------------------------------------------------

  /** The ids of the waves before w. */
  ghost function Before(waves: seq<seq<StepDef>>, w: nat): set<StepId>
    requires w <= |waves|
  {
    if w == 0 then {} else Before(waves, w - 1) + Ids(waves[w - 1])
  }

  lemma {:induction false} BeforeShift(first: seq<StepDef>, rest: seq<seq<StepDef>>, w: nat)
    requires w <= |rest|
    ensures Before([first] + rest, w + 1) == Ids(first) + Before(rest, w)
  {
    if w == 0 {
      assert Before([first] + rest, 1) == Before([first] + rest, 0) + Ids(first);
    } else {
      BeforeShift(first, rest, w - 1);
    }
  }

  /** A step of wave w: its dependencies are in `done` or earlier waves, it is new to those
      waves, and from wave 1 on something it needs runs in the wave just before. */
  ghost predicate Layered(waves: seq<seq<StepDef>>, done: set<StepId>, w: nat, s: StepDef)
    requires w < |waves|
  {
    && Ready(s, done + Before(waves, w))
    && s.id !in Before(waves, w)
    && (w > 0 ==> exists d :: StepDep(d) in s.deps && d in Ids(waves[w - 1]))
  }

  ghost predicate AllLayered(waves: seq<seq<StepDef>>, done: set<StepId>) {
    forall w, s {:trigger Layered(waves, done, w, s)} :: 0 <= w < |waves| && s in waves[w] ==> Layered(waves, done, w, s)
  }

  lemma {:induction false} ScheduleIsLayered(pending: seq<StepDef>, done: set<StepId>)
    requires DistinctIds(pending)
    ensures AllLayered(Waves(pending, done).waves, done)
    decreases |pending|
  {
    var wave := ReadySteps(pending, done);
    if wave != [] {
      var next := BlockedSteps(pending, done);
      var rest := Waves(next, done + Ids(wave)).waves;
      var waves := Waves(pending, done).waves;
      SplitMembers(pending, done);
      SplitKeepsDistinct(pending, done);
      ScheduleIsLayered(next, done + Ids(wave));
      ScheduleMembers(next, done + Ids(wave));
      forall w, s | 0 <= w < |waves| && s in waves[w]
        ensures Layered(waves, done, w, s)
      {
        if w > 0 {
          LayeredShift(pending, done, w, s);
        }
      }
    }
  }

  lemma {:induction false} LayeredShift(pending: seq<StepDef>, done: set<StepId>, w: nat, s: StepDef)
    requires DistinctIds(pending)
    requires ReadySteps(pending, done) != []
    requires 0 < w < |Waves(pending, done).waves| && s in Waves(pending, done).waves[w]
    requires AllLayered(Waves(BlockedSteps(pending, done), done + Ids(ReadySteps(pending, done))).waves,
                        done + Ids(ReadySteps(pending, done)))
    ensures Layered(Waves(pending, done).waves, done, w, s)
  {
    var wave, next := ReadySteps(pending, done), BlockedSteps(pending, done);
    var later := done + Ids(wave);
    var rest := Waves(next, later).waves;
    assert Waves(pending, done).waves == [wave] + rest;
    assert Layered(rest, later, w - 1, s);
    BeforeShift(wave, rest, w - 1);
    assert later + Before(rest, w - 1) == done + Before([wave] + rest, w);
    SplitMembers(pending, done);
    ScheduleMembers(next, later);
    assert s in next;
    DistinctSplit(pending, done, s);
    if w == 1 {
      assert Ready(s, later) && !Ready(s, done);
    }
  }

  lemma {:induction false} DistinctSplit(pending: seq<StepDef>, done: set<StepId>, s: StepDef)
    requires DistinctIds(pending)
    requires s in BlockedSteps(pending, done)
    ensures s.id !in Ids(ReadySteps(pending, done))
  {
    SplitMembers(pending, done);
    if s.id in Ids(ReadySteps(pending, done)) {
      var t :| t in ReadySteps(pending, done) && t.id == s.id;
      SameIdSameStep(pending, s, t);
    }
  }

  lemma {:induction false} SameIdSameStep(steps: seq<StepDef>, s: StepDef, t: StepDef)
    requires DistinctIds(steps) && s in steps && t in steps && s.id == t.id
    ensures s == t
  {
    var i :| 0 <= i < |steps| && steps[i] == s;
    var j :| 0 <= j < |steps| && steps[j] == t;
  }

  function Flatten(waves: seq<seq<StepDef>>): seq<StepDef> {
    if waves == [] then [] else waves[0] + Flatten(waves[1..])
  }

  /** Every step is in exactly one wave or is stuck, exactly once. */
  lemma {:induction false} ScheduleConserves(pending: seq<StepDef>, done: set<StepId>)
    ensures multiset(Flatten(Waves(pending, done).waves)) + multiset(Waves(pending, done).stuck) == multiset(pending)
    decreases |pending|
  {
    var wave := ReadySteps(pending, done);
    if wave != [] {
      var next := BlockedSteps(pending, done);
      SplitConserves(pending, done);
      ScheduleConserves(next, done + Ids(wave));
      var rest := Waves(next, done + Ids(wave)).waves;
      assert ([wave] + rest)[1..] == rest;
    }
  }

  /** Waves and leftovers come from the pending steps; each pending step is in one of them. */
  lemma {:induction false} ScheduleMembers(pending: seq<StepDef>, done: set<StepId>)
    ensures forall w, s :: 0 <= w < |Waves(pending, done).waves| && s in Waves(pending, done).waves[w] ==> s in pending
    ensures forall s :: s in Waves(pending, done).stuck ==> s in pending
    ensures forall s :: s in pending ==>
              s in Waves(pending, done).stuck
              || exists w :: 0 <= w < |Waves(pending, done).waves| && s in Waves(pending, done).waves[w]
    decreases |pending|
  {
    var wave := ReadySteps(pending, done);
    if wave != [] {
      var next := BlockedSteps(pending, done);
      var later := Waves(next, done + Ids(wave));
      var all := Waves(pending, done);
      assert all.waves == [wave] + later.waves;
      SplitMembers(pending, done);
      ScheduleMembers(next, done + Ids(wave));
      forall s | s in pending
        ensures s in all.stuck || exists w :: 0 <= w < |all.waves| && s in all.waves[w]
      {
        if s in wave {
          assert s in all.waves[0];
        } else if s !in later.stuck {
          var w :| 0 <= w < |later.waves| && s in later.waves[w];
          assert s in all.waves[w + 1];
        }
      }
    }
  }

  /** Everything the waves of a schedule provide on top of what was done before. */
  ghost function Provided(sched: Schedule, done: set<StepId>): set<StepId> {
    done + Before(sched.waves, |sched.waves|)
  }

  /** What is stuck waits for something no wave provides. */
  lemma {:induction false} StuckIsBlocked(pending: seq<StepDef>, done: set<StepId>)
    ensures forall s :: s in Waves(pending, done).stuck ==> !Ready(s, Provided(Waves(pending, done), done))
    decreases |pending|
  {
    var wave := ReadySteps(pending, done);
    var sched := Waves(pending, done);
    if wave == [] {
      SplitMembers(pending, done);
      assert Provided(sched, done) == done;
    } else {
      var next := BlockedSteps(pending, done);
      var later := Waves(next, done + Ids(wave));
      StuckIsBlocked(next, done + Ids(wave));
      BeforeShift(wave, later.waves, |later.waves|);
      assert sched == Schedule([wave] + later.waves, later.stuck);
      assert Provided(sched, done) == Provided(later, done + Ids(wave));
    }
  }

  lemma {:induction false} InBefore(waves: seq<seq<StepDef>>, w: nat, id: StepId) returns (v: nat)
    requires w <= |waves| && id in Before(waves, w)
    ensures v < w && id in Ids(waves[v])
  {
    if id in Ids(waves[w - 1]) {
      v := w - 1;
    } else {
      v := InBefore(waves, w - 1, id);
    }
  }

  lemma {:induction false} BeforeContains(waves: seq<seq<StepDef>>, w: nat, v: nat)
    requires v < w <= |waves|
    ensures Ids(waves[v]) <= Before(waves, w)
  {
    if v < w - 1 {
      BeforeContains(waves, w - 1, v);
    }
  }

  // ---------------------------------------------------------------------------------------
  // Levels
  // ---------------------------------------------------------------------------------------

  /** Whatever a step of wave w waits for runs in an earlier wave. */
  lemma {:induction false} DependencyIsEarlier(steps: seq<StepDef>, w: nat, s: StepDef, d: StepId)
    returns (v: nat, t: StepDef)
    requires DistinctIds(steps)
    requires w < |Waves(steps, {}).waves| && s in Waves(steps, {}).waves[w] && DependsOn(steps, s.id, d)
    ensures v < w && t in Waves(steps, {}).waves[v] && t.id == d
  {
    var waves := Waves(steps, {}).waves;
    ScheduleIsLayered(steps, {});
    ScheduleMembers(steps, {});
    var s' :| s' in steps && s'.id == s.id && StepDep(d) in s'.deps;
    SameIdSameStep(steps, s, s');
    assert Layered(waves, {}, w, s);
    v := InBefore(waves, w, d);
    t :| t in waves[v] && t.id == d;
  }

  /** Along a dependency path from wave w there is room for w more steps only. */
  lemma {:induction false} PathsAreShort(steps: seq<StepDef>, w: nat, s: StepDef, p: seq<StepId>)
    requires DistinctIds(steps)
    requires w < |Waves(steps, {}).waves| && s in Waves(steps, {}).waves[w]
    requires DependencyPath(steps, p) && p[0] == s.id
    ensures |p| <= w + 1
    decreases |p|
  {
    if |p| > 1 {
      assert DependsOn(steps, p[0], p[1]);
      var v, t := DependencyIsEarlier(steps, w, s, p[1]);
      assert DependencyPath(steps, p[1..]) by {
        forall i | 0 <= i < |p| - 2
          ensures DependsOn(steps, p[1..][i], p[1..][i + 1])
        {
          assert DependsOn(steps, p[i + 1], p[i + 1 + 1]);
        }
      }
      PathsAreShort(steps, v, t, p[1..]);
    }
  }

  /** And some path is that long. */
  lemma {:induction false} LongestPath(steps: seq<StepDef>, w: nat, s: StepDef) returns (p: seq<StepId>)
    requires DistinctIds(steps)
    requires w < |Waves(steps, {}).waves| && s in Waves(steps, {}).waves[w]
    ensures DependencyPath(steps, p) && p[0] == s.id && |p| == w + 1
  {
    if w == 0 {
      p := [s.id];
    } else {
      ScheduleIsLayered(steps, {});
      ScheduleMembers(steps, {});
      var waves := Waves(steps, {}).waves;
      assert Layered(waves, {}, w, s);
      var d :| StepDep(d) in s.deps && d in Ids(waves[w - 1]);
      var t: StepDef :| t in waves[w - 1] && t.id == d;
      var rest := LongestPath(steps, w - 1, t);
      p := [s.id] + rest;
      assert DependsOn(steps, p[0], p[1]);
      forall i | 0 <= i < |p| - 1
        ensures DependsOn(steps, p[i], p[i + 1])
      {
        if i > 0 {
          assert DependsOn(steps, rest[i - 1], rest[i - 1 + 1]);
        }
      }
    }
  }

  /** A step runs in the wave whose number is the length of its longest dependency chain. */
  lemma {:induction false} WaveIsLongestChain(steps: seq<StepDef>, w: nat, s: StepDef)
    requires DistinctIds(steps)
    requires w < |Waves(steps, {}).waves| && s in Waves(steps, {}).waves[w]
    ensures exists p :: DependencyPath(steps, p) && p[0] == s.id && |p| == w + 1
    ensures forall p :: DependencyPath(steps, p) && p[0] == s.id ==> |p| <= w + 1
  {
    var p := LongestPath(steps, w, s);
    forall p | DependencyPath(steps, p) && p[0] == s.id
      ensures |p| <= w + 1
    {
      PathsAreShort(steps, w, s, p);
    }
  }

  /** A dependency-respecting assignment of steps to rounds. */
  ghost predicate Respects(steps: seq<StepDef>, round: map<StepId, nat>) {
    && Ids(steps) <= round.Keys
    && forall a, b :: DependsOn(steps, a, b) && a in round && b in round ==> round[b] < round[a]
  }

  /** No assignment that respects dependencies places a step earlier than its wave. */
  lemma {:induction false} NoScheduleIsShorter(steps: seq<StepDef>, round: map<StepId, nat>, w: nat, s: StepDef)
    requires DistinctIds(steps) && Respects(steps, round)
    requires w < |Waves(steps, {}).waves| && s in Waves(steps, {}).waves[w]
    ensures s.id in round && round[s.id] >= w
    decreases w
  {
    ScheduleIsLayered(steps, {});
    ScheduleMembers(steps, {});
    var waves := Waves(steps, {}).waves;
    assert Layered(waves, {}, w, s);
    if w > 0 {
      var d :| StepDep(d) in s.deps && d in Ids(waves[w - 1]);
      var t: StepDef :| t in waves[w - 1] && t.id == d;
      NoScheduleIsShorter(steps, round, w - 1, t);
      assert DependsOn(steps, s.id, d);
    }
  }

  // ---------------------------------------------------------------------------------------
  // Completion is acyclicity
  // ---------------------------------------------------------------------------------------

  lemma {:induction false} PathLeavesWave(steps: seq<StepDef>, w: nat, s: StepDef, p: seq<StepId>) returns (v: nat, t: StepDef)
    requires DistinctIds(steps)
    requires w < |Waves(steps, {}).waves| && s in Waves(steps, {}).waves[w]
    requires |p| >= 2 && DependencyPath(steps, p) && p[0] == s.id
    ensures v < w && t in Waves(steps, {}).waves[v] && t.id == p[|p| - 1]
    decreases |p|
  {
    assert DependsOn(steps, p[0], p[1]);
    v, t := DependencyIsEarlier(steps, w, s, p[1]);
    if |p| > 2 {
      assert DependencyPath(steps, p[1..]) by {
        forall i | 0 <= i < |p| - 2
          ensures DependsOn(steps, p[1..][i], p[1..][i + 1])
        {
          assert DependsOn(steps, p[i + 1], p[i + 1 + 1]);
        }
      }
      v, t := PathLeavesWave(steps, v, t, p[1..]);
    }
  }

  lemma {:induction false} CompleteMeansAcyclic(steps: seq<StepDef>)
    requires DistinctIds(steps) && Waves(steps, {}).stuck == []
    ensures Acyclic(steps)
  {
    forall p | Cycle(steps, p)
      ensures false
    {
      ScheduleMembers(steps, {});
      ScheduleIsLayered(steps, {});
      var waves := Waves(steps, {}).waves;
      assert DependsOn(steps, p[0], p[1]);
      var s :| s in steps && s.id == p[0] && StepDep(p[1]) in s.deps;
      var w :| 0 <= w < |waves| && s in waves[w];
      assert Layered(waves, {}, w, s);
      var v, t := PathLeavesWave(steps, w, s, p);
      BeforeContains(waves, w, v);
    }
  }

  /** Something a stuck step waits for, itself stuck. */
  lemma {:induction false} StuckDependency(steps: seq<StepDef>, s: StepDef) returns (t: StepDef)
    requires AllKnown(steps) && s in Waves(steps, {}).stuck
    ensures t in Waves(steps, {}).stuck && DependsOn(steps, s.id, t.id)
  {
    var sched := Waves(steps, {});
    StuckIsBlocked(steps, {});
    ScheduleMembers(steps, {});
    var last := |sched.waves|;
    var dep :| dep in s.deps && dep.StepDep? && dep.id !in Provided(sched, {});
    assert DepsKnown(steps, s);
    t :| t in steps && t.id == dep.id;
    if t !in sched.stuck {
      var w :| 0 <= w < last && t in sched.waves[w];
      BeforeContains(sched.waves, last, w);
    }
    assert StepDep(t.id) in s.deps;
  }

  /** A path of any length that never leaves the stuck steps. */
  lemma {:induction false} StuckWalk(steps: seq<StepDef>, s: StepDef, n: nat) returns (p: seq<StepId>)
    requires AllKnown(steps) && s in Waves(steps, {}).stuck
    ensures |p| == n + 1 && p[0] == s.id && DependencyPath(steps, p)
    ensures forall i :: 0 <= i < |p| ==> p[i] in Ids(Waves(steps, {}).stuck)
    decreases n
  {
    if n == 0 {
      p := [s.id];
    } else {
      var t := StuckDependency(steps, s);
      var rest := StuckWalk(steps, t, n - 1);
      p := [s.id] + rest;
      forall i | 0 <= i < |p| - 1
        ensures DependsOn(steps, p[i], p[i + 1])
      {
        if i > 0 {
          assert DependsOn(steps, rest[i - 1], rest[i - 1 + 1]);
        }
      }
    }
  }

  lemma {:induction false} Pigeonhole(p: seq<StepId>, ids: set<StepId>) returns (i: nat, j: nat)
    requires |p| > |ids| && forall k :: 0 <= k < |p| ==> p[k] in ids
    ensures i < j < |p| && p[i] == p[j]
    decreases |p|
  {
    var last := |p| - 1;
    if k :| 0 <= k < last && p[k] == p[last] {
      i, j := k, last;
    } else {
      i, j := Pigeonhole(p[..last], ids - {p[last]});
    }
  }

  /** A stalled run is right to report a cycle: there is one among the steps it lists. */
  lemma {:induction false} StalledMeansCycle(steps: seq<StepDef>) returns (p: seq<StepId>)
    requires AllKnown(steps) && Waves(steps, {}).stuck != []
    ensures Cycle(steps, p)
    ensures forall i :: 0 <= i < |p| ==> p[i] in Ids(Waves(steps, {}).stuck)
  {
    hide DependsOn, Waves, AllKnown;
    var stuck := Waves(steps, {}).stuck;
    var walk := StuckWalk(steps, stuck[0], |Ids(stuck)|);
    var i, j := Pigeonhole(walk, Ids(stuck));
    p := walk[i..j + 1];
    PathSlice(steps, walk, i, j);
    assert forall k :: 0 <= k < |p| ==> p[k] == walk[i + k];
  }

  lemma {:induction false} PathSlice(steps: seq<StepDef>, p: seq<StepId>, i: nat, j: nat)
    requires DependencyPath(steps, p) && i <= j < |p|
    ensures DependencyPath(steps, p[i..j + 1])
  {
    hide DependsOn;
    var q := p[i..j + 1];
    forall k | 0 <= k < |q| - 1
      ensures DependsOn(steps, q[k], q[k + 1])
    {
      var m := i + k;
      assert q[k] == p[m] && q[k + 1] == p[m + 1];
      assert DependsOn(steps, p[m], p[m + 1]);
    }
  }

  // ---------------------------------------------------------------------------------------
  // The run follows the schedule
  // ---------------------------------------------------------------------------------------

  /** Distinct or not, ids only join the results a wave at a time. */
  lemma {:induction false} CollectedKeys<O(!new), E(!new)>(
    wave: seq<StepDef>, results: map<StepId, O>, body: Body<O, E>, results': map<StepId, O>)
    requires Collected(StepSet(wave), results, body, results')
    ensures results'.Keys == results.Keys + Ids(wave)
  {
    forall id ensures id in results' <==> id in results || id in Ids(wave) {
      assert Collects(StepSet(wave), results, body, results', id);
      RunsIffIn(wave, id);
    }
  }

  /** A run in which no body fails completes exactly when the level schedule leaves nothing over, and returns an
      output for every step; otherwise it reports what is left over. Ids may repeat. */
  lemma {:induction false} RunFollowsSchedule<O(!new), E(!new)>(
    pending: seq<StepDef>, results: map<StepId, O>, body: Body<O, E>, out: Outcome<O, E>, calls: seq<Call<O>>)
    requires Permits(pending, results, body, out, calls) && !out.Failed?
    ensures out.Done? <==> Waves(pending, results.Keys).stuck == []
    ensures out == Stalled(Waves(pending, results.Keys).stuck) || out.Done?
    ensures out.Done? ==> out.results.Keys == results.Keys + Ids(pending)
    ensures StepsOf(calls) == Flatten(Waves(pending, results.Keys).waves)
    decreases |pending|
  {
    hide ReadySteps, BlockedSteps, Collected, Calls, StepsOf, Flatten;
    var wave, next := ReadySteps(pending, results.Keys), BlockedSteps(pending, results.Keys);
    if wave == [] || pending == [] {
      NoneReady(results.Keys);
      NoSteps(calls);
    } else {
      var results' :| Collected(StepSet(wave), results, body, results')
                      && Permits(next, results', body, out, calls[|wave|..]);
      CollectedKeys(wave, results, body, results');
      RunFollowsSchedule(next, results', body, out, calls[|wave|..]);
      SplitIds(pending, results.Keys);
      assert calls == Calls(wave, results) + calls[|wave|..];
      StepsOfWave(wave, results, calls[|wave|..]);
      FlattenCons(wave, Waves(next, results'.Keys).waves);
    }
  }

  lemma {:induction false} NoSteps<O>(calls: seq<Call<O>>)
    ensures calls == [] ==> StepsOf(calls) == []
    ensures Flatten([]) == []
  {
  }

  lemma {:induction false} SplitIds(pending: seq<StepDef>, done: set<StepId>)
    ensures Ids(pending) == Ids(ReadySteps(pending, done)) + Ids(BlockedSteps(pending, done))
  {
    SplitMembers(pending, done);
  }

  /** One wave whose bodies succeed. */
  lemma {:induction false} WaveRuns<O(!new), E(!new)>(
    pending: seq<StepDef>, results: map<StepId, O>, body: Body<O, E>) returns (results': map<StepId, O>)
    requires DistinctIds(pending) && AllSucceed(ReadySteps(pending, results.Keys), results, body)
    ensures var wave := ReadySteps(pending, results.Keys);
            var next := BlockedSteps(pending, results.Keys);
            && results' == results + Outputs(wave, results, body)
            && results'.Keys == results.Keys + Ids(wave)
            && (forall s :: s in wave ==> results'[s.id] == body(s, results).value)
            && (forall id :: id in results && id !in Ids(wave) ==> results'[id] == results[id])
            && DistinctIds(next)
            && Ids(pending) == Ids(wave) + Ids(next)
  {
    var wave := ReadySteps(pending, results.Keys);
    SplitKeepsDistinct(pending, results.Keys);
    SplitMembers(pending, results.Keys);
    OutputsAt(wave, results, body);
    results' := results + Outputs(wave, results, body);
  }

  /** What each goroutine of a completed run was given and what became of its output. */
  ghost predicate Accounted<O(!new), E(!new)>(
    c: Call<O>, waves: seq<seq<StepDef>>, initial: set<StepId>, results: map<StepId, O>, body: Body<O, E>)
  {
    && (exists w :: 0 <= w < |waves| && c.step in waves[w] && c.seen.Keys == initial + Before(waves, w))
    && (forall id :: id in c.seen ==> id in results && results[id] == c.seen[id])
    && c.step.id in results && body(c.step, c.seen) == Ok(results[c.step.id])
  }

  function StepsOf<O>(calls: seq<Call<O>>): (steps: seq<StepDef>)
    ensures |steps| == |calls|
    ensures forall i :: 0 <= i < |calls| ==> steps[i] == calls[i].step
  {
    seq(|calls|, i requires 0 <= i < |calls| => calls[i].step)
  }

  lemma {:induction false} StepsOfWave<O>(wave: seq<StepDef>, seen: map<StepId, O>, trace: seq<Call<O>>)
    ensures StepsOf(Calls(wave, seen) + trace) == wave + StepsOf(trace)
  {
  }

  lemma {:induction false} FlattenCons(wave: seq<StepDef>, later: seq<seq<StepDef>>)
    ensures Flatten([wave] + later) == wave + Flatten(later)
  {
    assert ([wave] + later)[1..] == later;
  }

  lemma {:induction false} EachCallAccounted<O(!new), E(!new)>(
    pending: seq<StepDef>, results: map<StepId, O>, body: Body<O, E>, final: map<StepId, O>)
    requires DistinctIds(pending) && Ids(pending) !! results.Keys
    requires Allows(pending, results, body, Done(final))
    ensures forall c :: c in Trace(pending, results, body) ==>
              Accounted(c, Waves(pending, results.Keys).waves, results.Keys, final, body)
    ensures forall id :: id in results ==> id in final && final[id] == results[id]
    decreases |pending|
  {
    hide ReadySteps, BlockedSteps, Outputs, DistinctIds, Accounted, Calls;
    if ReadySteps(pending, results.Keys) == [] {
      assert ReadySteps([], results.Keys) == [] by {
        NoneReady(results.Keys);
      }
    } else {
      var wave, next := ReadySteps(pending, results.Keys), BlockedSteps(pending, results.Keys);
      var results' := WaveRuns(pending, results, body);
      DistinctSplitIds(pending, results.Keys);
      EachCallAccounted(next, results', body, final);
      var later := Waves(next, results'.Keys).waves;
      assert Waves(pending, results.Keys).waves == [wave] + later;
      forall c | c in Trace(pending, results, body)
        ensures Accounted(c, [wave] + later, results.Keys, final, body)
      {
        if c in Trace(next, results', body) {
          AccountedShift(c, wave, later, results.Keys, final, body);
        } else {
          AccountedFirst(c, wave, later, results, final, body);
        }
      }
    }
  }

  lemma {:induction false} AccountedFirst<O(!new), E(!new)>(
    c: Call<O>, wave: seq<StepDef>, later: seq<seq<StepDef>>, results: map<StepId, O>,
    final: map<StepId, O>, body: Body<O, E>)
    requires c in Calls(wave, results) && AllSucceed(wave, results, body)
    requires forall id :: id in results ==> id in final && final[id] == results[id]
    requires forall s :: s in wave ==> s.id in final && final[s.id] == body(s, results).value
    ensures Accounted(c, [wave] + later, results.Keys, final, body)
  {
    var calls := Calls(wave, results);
    var i :| 0 <= i < |calls| && calls[i] == c;
    assert c == Call(wave[i], results) && wave[i] in wave;
    assert c.step in ([wave] + later)[0] && results.Keys + Before([wave] + later, 0) == results.Keys;
  }

  lemma {:induction false} DistinctSplitIds(pending: seq<StepDef>, done: set<StepId>)
    requires DistinctIds(pending)
    ensures Ids(ReadySteps(pending, done)) !! Ids(BlockedSteps(pending, done))
  {
    forall s | s in BlockedSteps(pending, done)
      ensures s.id !in Ids(ReadySteps(pending, done))
    {
      DistinctSplit(pending, done, s);
    }
  }

  lemma {:induction false} AccountedShift<O(!new), E(!new)>(
    c: Call<O>, wave: seq<StepDef>, later: seq<seq<StepDef>>, initial: set<StepId>,
    final: map<StepId, O>, body: Body<O, E>)
    requires Accounted(c, later, initial + Ids(wave), final, body)
    ensures Accounted(c, [wave] + later, initial, final, body)
  {
    var w :| 0 <= w < |later| && c.step in later[w] && c.seen.Keys == (initial + Ids(wave)) + Before(later, w);
    BeforeShift(wave, later, w);
    assert c.step in ([wave] + later)[w + 1];
    assert c.seen.Keys == initial + Before([wave] + later, w + 1);
  }

  /** In a completed run the goroutines are the steps of the waves in order, each step exactly
      once; each sees exactly the outputs of all earlier waves, and its own output is what the
      run returns. Nothing in it depends on the order goroutines finish. */
  lemma {:induction false} EachStepRunsOnce<O(!new), E(!new)>(
    steps: seq<StepDef>, body: Body<O, E>, final: map<StepId, O>, calls: seq<Call<O>>)
    requires DistinctIds(steps) && Permits(steps, map[], body, Done(final), calls)
    ensures calls == Trace(steps, map[], body)
    ensures StepsOf(calls) == Flatten(Waves(steps, {}).waves)
    ensures multiset(StepsOf(calls)) == multiset(steps)
    ensures forall c :: c in calls ==> Accounted(c, Waves(steps, {}).waves, {}, final, body)
  {
    hide DistinctIds, Permits, Allows, Accounted, Waves, StepsOf, Flatten;
    var none: map<StepId, O> := map[];
    assert none.Keys == {};
    PermitsIsAllows(steps, none, body, Done(final), calls);
    EachCallAccounted(steps, none, body, final);
    RunFollowsSchedule(steps, none, body, Done(final), calls);
    ScheduleConserves(steps, {});
  }

  /** Two completed runs of one graph return the same results, whatever order goroutines finished in. */
  lemma {:induction false} ResultsAreUnique<O(!new), E(!new)>(
    pending: seq<StepDef>, results: map<StepId, O>, body: Body<O, E>, a: map<StepId, O>, b: map<StepId, O>,
    callsA: seq<Call<O>>, callsB: seq<Call<O>>)
    requires DistinctIds(pending)
    requires Permits(pending, results, body, Done(a), callsA) && Permits(pending, results, body, Done(b), callsB)
    ensures a == b && callsA == callsB
  {
    hide DistinctIds, Permits;
    PermitsIsAllows(pending, results, body, Done(a), callsA);
    PermitsIsAllows(pending, results, body, Done(b), callsB);
    OneResult(pending, results, body, a, b);
  }

  lemma {:induction false} OneResult<O(!new), E(!new)>(
    pending: seq<StepDef>, results: map<StepId, O>, body: Body<O, E>, a: map<StepId, O>, b: map<StepId, O>)
    requires Allows(pending, results, body, Done(a)) && Allows(pending, results, body, Done(b))
    ensures a == b
    decreases |pending|
  {
    hide ReadySteps, BlockedSteps, Outputs;
    var wave := ReadySteps(pending, results.Keys);
    if pending != [] && wave != [] && AllSucceed(wave, results, body) {
      OneResult(BlockedSteps(pending, results.Keys), results + Outputs(wave, results, body), body, a, b);
    }
  }

  /** For a validated graph, a run in which no body fails returns an output for every step exactly
      when the graph is acyclic; otherwise it stalls. */
  lemma {:induction false} CompletesIffAcyclic<O(!new), E(!new)>(
    steps: seq<StepDef>, body: Body<O, E>, out: Outcome<O, E>, calls: seq<Call<O>>)
    requires DistinctIds(steps) && AllKnown(steps) && !out.Failed?
    requires Permits(steps, map[], body, out, calls)
    ensures out.Done? <==> Acyclic(steps)
    ensures out.Done? ==> out.results.Keys == Ids(steps)
    ensures !out.Done? ==> out == Stalled(Waves(steps, {}).stuck)
  {
    hide Permits, Waves;
    var none: map<StepId, O> := map[];
    assert none.Keys == {};
    RunFollowsSchedule(steps, none, body, out, calls);
    if out.Done? {
      CompleteMeansAcyclic(steps);
    } else {
      var p := StalledMeansCycle(steps);
    }
  }

  // ---------------------------------------------------------------------------------------
  // Failures and results
  // ---------------------------------------------------------------------------------------

  /** Repeated ids or not: a run fails exactly when some goroutine it started failed, with the error of one that did. */
  lemma {:induction false} FailsIffSomeBodyFails<O(!new), E(!new)>(
    pending: seq<StepDef>, results: map<StepId, O>, body: Body<O, E>, out: Outcome<O, E>, calls: seq<Call<O>>)
    requires Permits(pending, results, body, out, calls)
    ensures out.Failed? <==> exists c :: c in calls && body(c.step, c.seen).Err?
    ensures out.Failed? ==> exists c :: c in calls && body(c.step, c.seen) == Err(out.error)
    decreases |pending|
  {
    hide ReadySteps, BlockedSteps, Collected;
    var wave := ReadySteps(pending, results.Keys);
    if pending != [] && wave != [] {
      var here := Calls(wave, results);
      assert forall i :: 0 <= i < |wave| ==> here[i].step == wave[i] && here[i] in here;
      if AllSucceed(wave, results, body) {
        var results' :| Collected(StepSet(wave), results, body, results')
                        && Permits(BlockedSteps(pending, results.Keys), results', body, out, calls[|wave|..]);
        FailsIffSomeBodyFails(BlockedSteps(pending, results.Keys), results', body, out, calls[|wave|..]);
        assert calls == here + calls[|wave|..];
        assert forall c :: c in here ==> c.step in wave && c.seen == results;
      } else {
        var s :| s in wave && body(s, results).Err?;
        assert Call(s, results) in here;
        var s' :| s' in wave && body(s', results) == Err(out.error);
        assert Call(s', results) in here;
      }
    }
  }

  /** Every result of a completed run was there before or is the output of one of its goroutines. */
  lemma {:induction false} ResultsComeFromCalls<O(!new), E(!new)>(
    pending: seq<StepDef>, results: map<StepId, O>, body: Body<O, E>, final: map<StepId, O>, calls: seq<Call<O>>, id: StepId)
    requires Permits(pending, results, body, Done(final), calls) && id in final
    ensures || (id in results && final[id] == results[id])
            || exists c :: c in calls && c.step.id == id && body(c.step, c.seen) == Ok(final[id])
    decreases |pending|
  {
    hide ReadySteps, BlockedSteps;
    var wave := ReadySteps(pending, results.Keys);
    if pending != [] {
      var results' :| Collected(StepSet(wave), results, body, results')
                      && Permits(BlockedSteps(pending, results.Keys), results', body, Done(final), calls[|wave|..]);
      ResultsComeFromCalls(BlockedSteps(pending, results.Keys), results', body, final, calls[|wave|..], id);
      var here := Calls(wave, results);
      assert calls == here + calls[|wave|..];
      assert Collects(StepSet(wave), results, body, results', id);
      if id in results' && final[id] == results'[id] && Runs(StepSet(wave), id) {
        var s :| s in StepSet(wave) && s.id == id && body(s, results) == Ok(results'[id]);
        var i :| 0 <= i < |wave| && wave[i] == s;
        assert here[i] in calls;
      }
    }
  }

  // ---------------------------------------------------------------------------------------
  // Repeated ids
  // ---------------------------------------------------------------------------------------

  /** The step waits for nothing but ids of rounds before n. */
  ghost predicate WaitsBefore(s: StepDef, round: map<StepId, nat>, n: nat) {
    forall d :: StepDep(d) in s.deps ==> d in round && round[d] < n
  }

  /** Some step of the id waits for nothing but ids of earlier rounds. */
  ghost predicate Founded(steps: seq<StepDef>, round: map<StepId, nat>, id: StepId) {
    id in round && exists s :: s in steps && s.id == id && WaitsBefore(s, round, round[id])
  }

  ghost predicate WellFounded(steps: seq<StepDef>, round: map<StepId, nat>) {
    forall id {:trigger Founded(steps, round, id)} :: id in Ids(steps) ==> Founded(steps, round, id)
  }

  ghost predicate WaitsFor(s: StepDef, ids: set<StepId>) {
    exists d :: StepDep(d) in s.deps && d in ids
  }

  /** Every step of these ids waits for one of them. */
  ghost predicate Deadlock(steps: seq<StepDef>, ids: set<StepId>) {
    ids != {} && ids <= Ids(steps) && forall s :: s in steps && s.id in ids ==> WaitsFor(s, ids)
  }

  /** Repeated or not, what runs in a wave waits for earlier waves only. */
  lemma {:induction false} WavesAreReady(pending: seq<StepDef>, done: set<StepId>, w: nat, s: StepDef)
    requires w < |Waves(pending, done).waves| && s in Waves(pending, done).waves[w]
    ensures Ready(s, done + Before(Waves(pending, done).waves, w))
    decreases |pending|
  {
    hide ReadySteps, BlockedSteps, Ready;
    var wave, next := ReadySteps(pending, done), BlockedSteps(pending, done);
    var later := Waves(next, done + Ids(wave)).waves;
    assert Waves(pending, done).waves == [wave] + later;
    if w == 0 {
      SplitMembers(pending, done);
      assert done + Before([wave] + later, 0) == done;
    } else {
      hide Waves, Ids;
      WavesAreReady(next, done + Ids(wave), w - 1, s);
      BeforeShift(wave, later, w - 1);
      assert (done + Ids(wave)) + Before(later, w - 1) == done + Before([wave] + later, w);
    }
  }

  /** The first wave that provides the id. */
  ghost function FirstWave(waves: seq<seq<StepDef>>, w: nat, id: StepId): (v: nat)
    requires w <= |waves| && id in Before(waves, w)
    ensures v < w && id in Ids(waves[v])
    ensures id !in Before(waves, v)
  {
    if id in Before(waves, w - 1) then FirstWave(waves, w - 1, id) else w - 1
  }

  /** When nothing is left over, the wave that first provides an id founds it. */
  lemma {:induction false} CompleteIsFounded(steps: seq<StepDef>) returns (round: map<StepId, nat>)
    requires Waves(steps, {}).stuck == []
    ensures WellFounded(steps, round)
  {
    var waves := Waves(steps, {}).waves;
    var all := Before(waves, |waves|);
    round := map id | id in all :: FirstWave(waves, |waves|, id);
    ScheduleMembers(steps, {});
    forall id | id in Ids(steps) ensures Founded(steps, round, id) {
      var s0 :| s0 in steps && s0.id == id;
      var w :| 0 <= w < |waves| && s0 in waves[w];
      BeforeContains(waves, |waves|, w);
      var v := FirstWave(waves, |waves|, id);
      var s: StepDef :| s in waves[v] && s.id == id;
      WavesAreReady(steps, {}, v, s);
      ReadyIsBefore(waves, round, s, v);
    }
  }

  lemma {:induction false} ReadyIsBefore(waves: seq<seq<StepDef>>, round: map<StepId, nat>, s: StepDef, v: nat)
    requires v <= |waves| && Ready(s, {} + Before(waves, v))
    requires forall id :: id in Before(waves, |waves|) ==> id in round && round[id] == FirstWave(waves, |waves|, id)
    ensures WaitsBefore(s, round, v)
  {
    BeforeGrows(waves, v, |waves|);
    forall d | StepDep(d) in s.deps ensures d in round && round[d] < v {
      assert d in {} + Before(waves, v);
      if round[d] >= v {
        BeforeGrows(waves, v, round[d]);
      }
    }
  }

  lemma {:induction false} BeforeGrows(waves: seq<seq<StepDef>>, v: nat, w: nat)
    requires v <= w <= |waves|
    ensures Before(waves, v) <= Before(waves, w)
    decreases w
  {
    if v < w {
      BeforeGrows(waves, v, w - 1);
    }
  }

  /** What is left over deadlocks: the ids no wave provides. */
  lemma {:induction false} StuckDeadlocks(steps: seq<StepDef>) returns (ids: set<StepId>)
    requires AllKnown(steps) && Waves(steps, {}).stuck != []
    ensures Deadlock(steps, ids)
  {
    var sched := Waves(steps, {});
    var provided := Provided(sched, {});
    ids := Ids(steps) - provided;
    StuckIsBlocked(steps, {});
    ScheduleMembers(steps, {});
    forall s | s in steps && (s.id in ids || s in sched.stuck)
      ensures WaitsFor(s, ids)
    {
      if s !in sched.stuck {
        var w :| 0 <= w < |sched.waves| && s in sched.waves[w];
        BeforeContains(sched.waves, |sched.waves|, w);
      }
      assert DepsKnown(steps, s);
      var dep :| dep in s.deps && dep.StepDep? && dep.id !in provided;
    }
    assert sched.stuck[0] in sched.stuck;
    assert WaitsFor(sched.stuck[0], ids);
  }

  /** No id of a deadlock is founded in a round before all the others. */
  lemma {:induction false} FoundedNeverDeadlocks(
    steps: seq<StepDef>, round: map<StepId, nat>, ids: set<StepId>, id: StepId)
    requires WellFounded(steps, round) && Deadlock(steps, ids) && id in ids
    ensures false
    decreases if id in round then round[id] else 0
  {
    hide WaitsFor, WaitsBefore;
    assert Founded(steps, round, id);
    var s :| s in steps && s.id == id && WaitsBefore(s, round, round[id]);
    var d := EarlierWait(s, round, round[id], ids);
    FoundedNeverDeadlocks(steps, round, ids, d);
  }

  lemma {:induction false} EarlierWait(s: StepDef, round: map<StepId, nat>, n: nat, ids: set<StepId>)
    returns (d: StepId)
    requires WaitsBefore(s, round, n) && WaitsFor(s, ids)
    ensures d in ids && d in round && round[d] < n
  {
    d :| StepDep(d) in s.deps && d in ids;
  }

  /** Ids repeated or not: a level schedule leaves nothing over exactly when every id has a step founded in rounds,
      which is exactly when no ids deadlock. */
  lemma {:induction false} NothingStuckIff(steps: seq<StepDef>)
    requires AllKnown(steps)
    ensures Waves(steps, {}).stuck == [] <==> exists round :: WellFounded(steps, round)
    ensures Waves(steps, {}).stuck == [] <==> forall ids :: !Deadlock(steps, ids)
  {
    hide Waves, WellFounded, Deadlock, AllKnown;
    if Waves(steps, {}).stuck == [] {
      var round := CompleteIsFounded(steps);
    } else {
      var ids := StuckDeadlocks(steps);
    }
    forall round, ids | WellFounded(steps, round) && Deadlock(steps, ids) ensures false {
      var id := Member(steps, ids);
      FoundedNeverDeadlocks(steps, round, ids, id);
    }
  }

  lemma {:induction false} Member(steps: seq<StepDef>, ids: set<StepId>) returns (id: StepId)
    requires Deadlock(steps, ids)
    ensures id in ids
  {
    hide WaitsFor;
    id :| id in ids;
  }

  /** For a validated graph, ids repeated or not, a run in which no body fails returns an output for every id exactly
      when every id has a step founded in rounds; acyclic graphs always do. */
  lemma {:induction false} CompletesIffFounded<O(!new), E(!new)>(
    steps: seq<StepDef>, body: Body<O, E>, out: Outcome<O, E>, calls: seq<Call<O>>)
    requires AllKnown(steps) && !out.Failed?
    requires Permits(steps, map[], body, out, calls)
    ensures out.Done? <==> exists round :: WellFounded(steps, round)
    ensures out.Done? <==> forall ids :: !Deadlock(steps, ids)
    ensures Acyclic(steps) ==> out.Done?
    ensures out.Done? ==> out.results.Keys == Ids(steps)
  {
    hide Permits, Waves, WellFounded, Deadlock, AllKnown, Cycle;
    var none: map<StepId, O> := map[];
    assert none.Keys == {};
    RunFollowsSchedule(steps, none, body, out, calls);
    NothingStuckIff(steps);
    if !out.Done? {
      var p := StalledMeansCycle(steps);
    }
  }

  /** A further step under an id already there stalls nothing, whatever it waits for: every cycle that runs only
      through it is hidden. */
  lemma {:induction false} RepeatedIdHidesCycle(steps: seq<StepDef>, s: StepDef, p: seq<StepId>)
    requires AllKnown(steps) && Waves(steps, {}).stuck == []
    requires s.id in Ids(steps) && DepsKnown(steps, s)
    requires DependencyPath(steps, p) && StepDep(p[0]) in s.deps && p[|p| - 1] == s.id
    ensures AllKnown(steps + [s]) && Cycle(steps + [s], [s.id] + p)
    ensures Waves(steps + [s], {}).stuck == []
  {
    hide Waves;
    assert Ids(steps + [s]) == Ids(steps);
    StillFounded(steps, s);
    var q := [s.id] + p;
    forall i | 0 <= i < |q| - 1 ensures DependsOn(steps + [s], q[i], q[i + 1]) {
      if i == 0 {
        assert s in steps + [s];
      } else {
        assert DependsOn(steps, p[i - 1], p[i - 1 + 1]);
        var t :| t in steps && t.id == p[i - 1] && StepDep(p[i]) in t.deps;
        assert t in steps + [s];
      }
    }
  }

  lemma {:induction false} StillFounded(steps: seq<StepDef>, s: StepDef)
    requires AllKnown(steps) && Waves(steps, {}).stuck == []
    requires s.id in Ids(steps) && AllKnown(steps + [s]) && Ids(steps + [s]) == Ids(steps)
    ensures Waves(steps + [s], {}).stuck == []
  {
    hide Waves, WaitsBefore;
    var round := CompleteIsFounded(steps);
    forall id | id in Ids(steps) ensures Founded(steps + [s], round, id) {
      assert Founded(steps, round, id);
      var t :| t in steps && t.id == id && WaitsBefore(t, round, round[id]);
      assert t in steps + [s];
    }
    assert WellFounded(steps + [s], round);
    NothingStuckIff(steps + [s]);
  }
}
