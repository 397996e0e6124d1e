/** The wave scheduler for generation DAGs: validation, the level schedule it follows, and the
    run that executes one wave after another. */
module WaveScheduler {
  import opened Wrappers

  type StepId(==, !new)
  type OutputKind(==, !new)

  /** Data dependencies never hold a step back; step dependencies name another step. */
  datatype Dep = DataDep | StepDep(id: StepId)

  datatype StepDef = StepDef(id: StepId, output: OutputKind, deps: seq<Dep>)

  /** A step body: any reply for any step and any snapshot of earlier outputs. */
  type Body<!O(!new), !E(!new)> = (StepDef, map<StepId, O>) -> Result<O, E>

  ghost function Ids(steps: seq<StepDef>): set<StepId> {
    set s | s in steps :: s.id
  }

  ghost predicate DistinctIds(steps: seq<StepDef>) {
    forall i, j :: 0 <= i < j < |steps| ==> steps[i].id != steps[j].id
  }

  // ---------------------------------------------------------------------------------------
  // Validation
  // ---------------------------------------------------------------------------------------

  datatype Problem = UnknownStep(step: StepId, dep: StepId) | MissingOutput(kind: OutputKind)

  ghost predicate DepsKnown(steps: seq<StepDef>, s: StepDef) {
    forall d :: d in s.deps && d.StepDep? ==> d.id in Ids(steps)
  }

  ghost predicate Produces(steps: seq<StepDef>, kind: OutputKind) {
    exists s :: s in steps && s.output == kind
  }

  method Validate(steps: seq<StepDef>, required: seq<OutputKind>) returns (problem: Option<Problem>)
    ensures problem.None? <==>
              && (forall s :: s in steps ==> DepsKnown(steps, s))
              && (forall kind :: kind in required ==> Produces(steps, kind))
    ensures problem.Some? && problem.value.UnknownStep? ==>
              && (exists s :: s in steps && s.id == problem.value.step && StepDep(problem.value.dep) in s.deps)
              && problem.value.dep !in Ids(steps)
    ensures problem.Some? && problem.value.MissingOutput? ==>
              && (forall s :: s in steps ==> DepsKnown(steps, s))
              && problem.value.kind in required && !Produces(steps, problem.value.kind)
  {
    var ids: set<StepId> := {};
    for i := 0 to |steps|
      invariant ids == Ids(steps[..i])
    {
      ids := ids + {steps[i].id};
      assert steps[..i + 1] == steps[..i] + [steps[i]];
    }
    assert steps[..|steps|] == steps;
    for i := 0 to |steps|
      invariant forall k :: 0 <= k < i ==> DepsKnown(steps, steps[k])
    {
      var s := steps[i];
      for j := 0 to |s.deps|
        invariant forall k :: 0 <= k < j && s.deps[k].StepDep? ==> s.deps[k].id in ids
      {
        if s.deps[j].StepDep? && s.deps[j].id !in ids {
          assert s.deps[j] in s.deps && !DepsKnown(steps, s);
          return Some(UnknownStep(s.id, s.deps[j].id));
        }
      }
    }
    for i := 0 to |required|
      invariant forall k :: 0 <= k < i ==> Produces(steps, required[k])
    {
      var found := false;
      for j := 0 to |steps|
        invariant !found
        invariant forall k :: 0 <= k < j ==> steps[k].output != required[i]
      {
        if steps[j].output == required[i] {
          found := true;
          break;
        }
      }
      if !found {
        assert !Produces(steps, required[i]);
        return Some(MissingOutput(required[i]));
      }
      assert Produces(steps, required[i]);
    }
    return None;
  }

  // ---------------------------------------------------------------------------------------
  // The level schedule
  // ---------------------------------------------------------------------------------------

  predicate Ready(s: StepDef, done: set<StepId>) {
    forall d :: d in s.deps && d.StepDep? ==> d.id in done
  }

  function ReadySteps(pending: seq<StepDef>, done: set<StepId>): seq<StepDef> {
    if pending == [] then []
    else
      var last := pending[|pending| - 1];
      ReadySteps(pending[..|pending| - 1], done) + if Ready(last, done) then [last] else []
  }

  function BlockedSteps(pending: seq<StepDef>, done: set<StepId>): (next: seq<StepDef>)
    ensures |next| + |ReadySteps(pending, done)| == |pending|
  {
    if pending == [] then []
    else
      var last := pending[|pending| - 1];
      BlockedSteps(pending[..|pending| - 1], done) + if Ready(last, done) then [] else [last]
  }

  /** The split sorts every step by its readiness. */
  lemma {:induction false} SplitMembers(pending: seq<StepDef>, done: set<StepId>)
    ensures forall s :: s in ReadySteps(pending, done) <==> s in pending && Ready(s, done)
    ensures forall s :: s in BlockedSteps(pending, done) <==> s in pending && !Ready(s, done)
  {
    if pending != [] {
      var init, last := pending[..|pending| - 1], pending[|pending| - 1];
      SplitMembers(init, done);
      assert forall s :: s in pending <==> s in init || s == last;
    }
  }

  /** The split keeps every step exactly once. */
  lemma {:induction false} SplitConserves(pending: seq<StepDef>, done: set<StepId>)
    ensures multiset(ReadySteps(pending, done)) + multiset(BlockedSteps(pending, done)) == multiset(pending)
  {
    if pending != [] {
      SplitConserves(pending[..|pending| - 1], done);
      assert pending == pending[..|pending| - 1] + [pending[|pending| - 1]];
    }
  }

  lemma {:induction false} DistinctAppend(steps: seq<StepDef>, last: StepDef)
    requires DistinctIds(steps) && forall s :: s in steps ==> s.id != last.id
    ensures DistinctIds(steps + [last])
  {
  }

  lemma {:induction false} SplitKeepsDistinct(pending: seq<StepDef>, done: set<StepId>)
    requires DistinctIds(pending)
    ensures DistinctIds(ReadySteps(pending, done)) && DistinctIds(BlockedSteps(pending, done))
  {
    hide Ready;
    if pending != [] {
      var init, last := pending[..|pending| - 1], pending[|pending| - 1];
      forall s | s in init
        ensures s.id != last.id
      {
        var i :| 0 <= i < |init| && init[i] == s;
      }
      SplitKeepsDistinct(init, done);
      SplitMembers(init, done);
      hide DistinctIds;
      if Ready(last, done) {
        DistinctAppend(ReadySteps(init, done), last);
      } else {
        DistinctAppend(BlockedSteps(init, done), last);
      }
    }
  }

  datatype Schedule = Schedule(waves: seq<seq<StepDef>>, stuck: seq<StepDef>)

  /** Which steps run in which wave, and which never become runnable. */
  ghost function Waves(pending: seq<StepDef>, done: set<StepId>): Schedule
    decreases |pending|
  {
    var wave := ReadySteps(pending, done);
    if wave == [] then Schedule([], pending)
    else
      var rest := Waves(BlockedSteps(pending, done), done + Ids(wave));
      Schedule([wave] + rest.waves, rest.stuck)
  }

  // ---------------------------------------------------------------------------------------
  // The run
  // ---------------------------------------------------------------------------------------

  /** One goroutine: the step and the outputs it was given. */
  datatype Call<O> = Call(step: StepDef, seen: map<StepId, O>)

  datatype Outcome<O, E> =
    | Done(results: map<StepId, O>)
    | Stalled(pending: seq<StepDef>)
    | Failed(error: E)

  ghost predicate AllSucceed<O(!new), E(!new)>(wave: seq<StepDef>, seen: map<StepId, O>, body: Body<O, E>) {
    forall s :: s in wave ==> body(s, seen).Ok?
  }

  ghost function Outputs<O(!new), E(!new)>(wave: seq<StepDef>, seen: map<StepId, O>, body: Body<O, E>): map<StepId, O>
    requires AllSucceed(wave, seen, body)
  {
    if wave == [] then map[]
    else
      var last := wave[|wave| - 1];
      Outputs(wave[..|wave| - 1], seen, body)[last.id := body(last, seen).value]
  }

  function Calls<O>(wave: seq<StepDef>, seen: map<StepId, O>): (calls: seq<Call<O>>)
    ensures |calls| == |wave|
    ensures forall i :: 0 <= i < |wave| ==> calls[i] == Call(wave[i], seen)
  {
    seq(|wave|, i requires 0 <= i < |wave| => Call(wave[i], seen))
  }

  /** Every goroutine the run starts, wave by wave, up to and including a failing wave. */
  ghost function Trace<O(!new), E(!new)>(
    pending: seq<StepDef>, results: map<StepId, O>, body: Body<O, E>): seq<Call<O>>
    decreases |pending|
  {
    var wave := ReadySteps(pending, results.Keys);
    if wave == [] then []
    else if !AllSucceed(wave, results, body) then Calls(wave, results)
    else Calls(wave, results) + Trace(BlockedSteps(pending, results.Keys), results + Outputs(wave, results, body), body)
  }

  ghost predicate Runs(steps: set<StepDef>, id: StepId) {
    exists s :: s in steps && s.id == id
  }

  /** The entry of one id once these steps have reported: the output of one of its steps, whichever reported last,
      or what it was before. */
  ghost predicate Collects<O(!new), E(!new)>(
    steps: set<StepDef>, seen: map<StepId, O>, body: Body<O, E>, collected: map<StepId, O>, id: StepId)
  {
    if Runs(steps, id) then
      id in collected && exists s :: s in steps && s.id == id && body(s, seen) == Ok(collected[id])
    else (id in collected <==> id in seen) && (id in seen ==> collected[id] == seen[id])
  }

  ghost predicate Collected<O(!new), E(!new)>(
    steps: set<StepDef>, seen: map<StepId, O>, body: Body<O, E>, collected: map<StepId, O>)
  {
    forall id {:trigger Collects(steps, seen, body, collected, id)} :: Collects(steps, seen, body, collected, id)
  }

  ghost function StepSet(wave: seq<StepDef>): set<StepDef> {
    set s | s in wave
  }

  /** What a run may do: its outcome and the goroutines it started, for any order of reports within a wave. */
  ghost predicate Permits<O(!new), E(!new)>(
    pending: seq<StepDef>, results: map<StepId, O>, body: Body<O, E>, out: Outcome<O, E>, calls: seq<Call<O>>)
    decreases |pending|
  {
    var wave := ReadySteps(pending, results.Keys);
    if pending == [] then out == Done(results) && calls == []
    else if wave == [] then out == Stalled(pending) && calls == []
    else if !AllSucceed(wave, results, body) then
      calls == Calls(wave, results) && out.Failed? && exists s :: s in wave && body(s, results) == Err(out.error)
    else
      && Calls(wave, results) <= calls
      && exists results': map<StepId, O> :: Collected(StepSet(wave), results, body, results')
           && Permits(BlockedSteps(pending, results.Keys), results', body, out, calls[|wave|..])
  }

  /** With distinct ids the outcomes are all equal unless some step of a wave fails, when the
      error is that of any failing step of the first such wave. */
  ghost predicate Allows<O(!new), E(!new)>(
    pending: seq<StepDef>, results: map<StepId, O>, body: Body<O, E>, out: Outcome<O, E>)
    decreases |pending|
  {
    var wave := ReadySteps(pending, results.Keys);
    if pending == [] then out == Done(results)
    else if wave == [] then out == Stalled(pending)
    else if !AllSucceed(wave, results, body) then
      out.Failed? && exists s :: s in wave && body(s, results) == Err(out.error)
    else Allows(BlockedSteps(pending, results.Keys), results + Outputs(wave, results, body), body, out)
  }

  method StepDepsReady<O>(s: StepDef, results: map<StepId, O>) returns (ready: bool)
    ensures ready == Ready(s, results.Keys)
  {
    for i := 0 to |s.deps|
      invariant forall k :: 0 <= k < i && s.deps[k].StepDep? ==> s.deps[k].id in results
    {
      if s.deps[i].StepDep? && s.deps[i].id !in results {
        return false;
      }
    }
    return true;
  }

  method SplitPending<O>(pending: seq<StepDef>, results: map<StepId, O>)
    returns (wave: seq<StepDef>, next: seq<StepDef>)
    ensures wave == ReadySteps(pending, results.Keys)
    ensures next == BlockedSteps(pending, results.Keys)
  {
    wave, next := [], [];
    for i := 0 to |pending|
      invariant wave == ReadySteps(pending[..i], results.Keys)
      invariant next == BlockedSteps(pending[..i], results.Keys)
    {
      assert pending[..i + 1][..i] == pending[..i];
      var ready := StepDepsReady(pending[i], results);
      if ready {
        wave := wave + [pending[i]];
      } else {
        next := next + [pending[i]];
      }
    }
    assert pending[..|pending|] == pending;
  }

  lemma {:induction false} OutputsAt<O(!new), E(!new)>(wave: seq<StepDef>, seen: map<StepId, O>, body: Body<O, E>)
    requires AllSucceed(wave, seen, body) && DistinctIds(wave)
    ensures Outputs(wave, seen, body).Keys == Ids(wave)
    ensures forall s :: s in wave ==> Outputs(wave, seen, body)[s.id] == body(s, seen).value
  {
    if wave != [] {
      var init, last := wave[..|wave| - 1], wave[|wave| - 1];
      assert wave == init + [last];
      OutputsAt(init, seen, body);
      forall s | s in wave
        ensures s.id in Outputs(wave, seen, body) && Outputs(wave, seen, body)[s.id] == body(s, seen).value
      {
        if s != last {
          var i :| 0 <= i < |init| && init[i] == s;
          assert wave[i] == s && s.id != last.id;
        }
      }
    }
  }

  lemma {:induction false} CollectOne<O(!new), E(!new)>(
    steps: set<StepDef>, seen: map<StepId, O>, body: Body<O, E>, collected: map<StepId, O>, s: StepDef)
    requires Collected(steps, seen, body, collected) && body(s, seen).Ok?
    ensures Collected(steps + {s}, seen, body, collected[s.id := body(s, seen).value])
  {
    var collected' := collected[s.id := body(s, seen).value];
    forall id ensures Collects(steps + {s}, seen, body, collected', id) {
      assert Collects(steps, seen, body, collected, id);
      if id == s.id {
        assert s in steps + {s};
      } else if Runs(steps, id) {
        var t :| t in steps && t.id == id && body(t, seen) == Ok(collected[id]);
        assert t in steps + {s};
      }
    }
  }

  /** Runs one wave. Goroutines may finish in any order: each turn of the loop takes the result
      of an arbitrary step that has not reported yet. */
  method RunWave<O(!new), E(!new)>(wave: seq<StepDef>, results: map<StepId, O>, body: Body<O, E>)
    returns (collected: map<StepId, O>, error: Option<E>)
    ensures error.None? <==> AllSucceed(wave, results, body)
    ensures error.None? ==> Collected(StepSet(wave), results, body, collected)
    ensures error.Some? ==> exists s :: s in wave && body(s, results) == Err(error.value)
  {
    hide Collected;
    collected := results;
    var waiting := set s | s in wave;
    ghost var reported: set<StepDef> := {};
    NothingCollected(results, body);
    while waiting != {}
      invariant reported + waiting == StepSet(wave)
      invariant forall s :: s in reported ==> body(s, results).Ok?
      invariant Collected(reported, results, body, collected)
      decreases waiting
    {
      var s :| s in waiting;
      match body(s, results)
      case Err(e) =>
        return collected, Some(e);
      case Ok(output) =>
        CollectOne(reported, results, body, collected, s);
        collected := collected[s.id := output];
        waiting := waiting - {s};
        reported := reported + {s};
    }
    assert forall s :: s in wave ==> s in reported;
    return collected, None;
  }

  lemma {:induction false} NothingCollected<O(!new), E(!new)>(seen: map<StepId, O>, body: Body<O, E>)
    ensures Collected({}, seen, body, seen)
  {
    forall id ensures Collects({}, seen, body, seen, id) {
    }
  }

  lemma {:induction false} RunsIffIn(wave: seq<StepDef>, id: StepId)
    ensures Runs(StepSet(wave), id) <==> id in Ids(wave)
  {
    assert forall s :: s in StepSet(wave) <==> s in wave;
  }

  /** With distinct ids there is only one map to collect. */
  lemma {:induction false} CollectedIsOutputs<O(!new), E(!new)>(
    wave: seq<StepDef>, seen: map<StepId, O>, body: Body<O, E>, collected: map<StepId, O>)
    requires DistinctIds(wave) && AllSucceed(wave, seen, body)
    requires Collected(StepSet(wave), seen, body, collected)
    ensures collected == seen + Outputs(wave, seen, body)
  {
    var outputs := Outputs(wave, seen, body);
    OutputsAt(wave, seen, body);
    forall id ensures (id in collected <==> id in seen + outputs)
                      && (id in collected ==> collected[id] == (seen + outputs)[id]) {
      assert Collects(StepSet(wave), seen, body, collected, id);
      if Runs(StepSet(wave), id) {
        var s :| s in StepSet(wave) && s.id == id && body(s, seen) == Ok(collected[id]);
        assert s in wave;
      } else {
        RunsIffIn(wave, id);
      }
    }
  }

  /** With distinct ids a run has the outcome and the goroutines of the level schedule. */
  lemma {:induction false} PermitsIsAllows<O(!new), E(!new)>(
    pending: seq<StepDef>, results: map<StepId, O>, body: Body<O, E>, out: Outcome<O, E>, calls: seq<Call<O>>)
    requires DistinctIds(pending) && Permits(pending, results, body, out, calls)
    ensures Allows(pending, results, body, out) && calls == Trace(pending, results, body)
    decreases |pending|
  {
    hide DistinctIds, Collected, Outputs, Calls, ReadySteps, BlockedSteps;
    var wave, next := ReadySteps(pending, results.Keys), BlockedSteps(pending, results.Keys);
    if pending == [] {
      NoneReady(results.Keys);
    } else if wave != [] && AllSucceed(wave, results, body) {
      SplitKeepsDistinct(pending, results.Keys);
      var results' :| Collected(StepSet(wave), results, body, results')
                      && Permits(next, results', body, out, calls[|wave|..]);
      CollectedIsOutputs(wave, results, body, results');
      PermitsIsAllows(next, results', body, out, calls[|wave|..]);
      assert calls == Calls(wave, results) + calls[|wave|..];
    }
  }

  lemma {:induction false} NoneReady(done: set<StepId>)
    ensures ReadySteps([], done) == []
  {
  }

  /** One successful wave in front of the rest of the run. */
  lemma {:induction false} NextWave<O(!new), E(!new)>(
    pending: seq<StepDef>, results: map<StepId, O>, body: Body<O, E>, results': map<StepId, O>,
    out: Outcome<O, E>, rest: seq<Call<O>>)
    requires ReadySteps(pending, results.Keys) != []
    requires AllSucceed(ReadySteps(pending, results.Keys), results, body)
    requires Collected(StepSet(ReadySteps(pending, results.Keys)), results, body, results')
    requires Permits(BlockedSteps(pending, results.Keys), results', body, out, rest)
    ensures Permits(pending, results, body, out, Calls(ReadySteps(pending, results.Keys), results) + rest)
  {
    hide Collected, BlockedSteps, ReadySteps;
    var wave := ReadySteps(pending, results.Keys);
    var calls := Calls(wave, results) + rest;
    assert calls[|wave|..] == rest;
    if pending == [] {
      NoneReady(results.Keys);
    }
  }

  /** What completes the rest of a run completes the run. */
  ghost predicate Continues<O(!new), E(!new)>(
    steps: seq<StepDef>, body: Body<O, E>, calls: seq<Call<O>>, pending: seq<StepDef>, results: map<StepId, O>)
  {
    forall out, rest :: Permits(pending, results, body, out, rest) ==> Permits(steps, map[], body, out, calls + rest)
  }

  lemma {:induction false} ContinuesWave<O(!new), E(!new)>(
    steps: seq<StepDef>, body: Body<O, E>, calls: seq<Call<O>>, pending: seq<StepDef>, results: map<StepId, O>,
    results': map<StepId, O>)
    requires Continues(steps, body, calls, pending, results)
    requires ReadySteps(pending, results.Keys) != []
    requires AllSucceed(ReadySteps(pending, results.Keys), results, body)
    requires Collected(StepSet(ReadySteps(pending, results.Keys)), results, body, results')
    ensures Continues(steps, body, calls + Calls(ReadySteps(pending, results.Keys), results),
                      BlockedSteps(pending, results.Keys), results')
  {
    hide Collected, BlockedSteps, ReadySteps, Permits, Calls;
    var here := Calls(ReadySteps(pending, results.Keys), results);
    forall out, rest | Permits(BlockedSteps(pending, results.Keys), results', body, out, rest)
      ensures Permits(steps, map[], body, out, (calls + here) + rest)
    {
      NextWave(pending, results, body, results', out, rest);
      assert calls + (here + rest) == (calls + here) + rest;
    }
  }

  /** The three ways a run stops. */
  lemma {:induction false} RunStops<O(!new), E(!new)>(
    steps: seq<StepDef>, body: Body<O, E>, calls: seq<Call<O>>, pending: seq<StepDef>, results: map<StepId, O>)
    requires Continues(steps, body, calls, pending, results)
    ensures pending == [] ==> Permits(steps, map[], body, Done(results), calls)
    ensures pending != [] && ReadySteps(pending, results.Keys) == [] ==>
              Permits(steps, map[], body, Stalled(pending), calls)
    ensures var wave := ReadySteps(pending, results.Keys);
            wave != [] && !AllSucceed(wave, results, body) ==>
              forall s :: s in wave && body(s, results).Err? ==>
                Permits(steps, map[], body, Failed(body(s, results).error), calls + Calls(wave, results))
  {
    assert calls + [] == calls;
    var wave := ReadySteps(pending, results.Keys);
    if pending == [] {
      assert Permits(pending, results, body, Done(results), []);
    } else if wave == [] {
      assert Permits(pending, results, body, Stalled(pending), []);
    } else if !AllSucceed(wave, results, body) {
      forall s | s in wave && body(s, results).Err?
        ensures Permits(pending, results, body, Failed(body(s, results).error), Calls(wave, results)) {
      }
    }
  }

  /** Ids need not be distinct: validation lets duplicates pass. */
  method RunDag<O(!new), E(!new)>(steps: seq<StepDef>, body: Body<O, E>)
    returns (out: Outcome<O, E>, calls: seq<Call<O>>)
    ensures Permits(steps, map[], body, out, calls)
    ensures DistinctIds(steps) ==> Allows(steps, map[], body, out) && calls == Trace(steps, map[], body)
  {
    hide ReadySteps, BlockedSteps, Calls, Permits, Allows, Trace, Continues, Collected, DistinctIds;
    out, calls := RunWaves(steps, body);
    if DistinctIds(steps) {
      PermitsIsAllows(steps, map[], body, out, calls);
    }
  }

  method RunWaves<O(!new), E(!new)>(steps: seq<StepDef>, body: Body<O, E>)
    returns (out: Outcome<O, E>, calls: seq<Call<O>>)
    ensures Permits(steps, map[], body, out, calls)
  {
    hide ReadySteps, BlockedSteps, Calls, Permits, Continues, Collected;
    var results: map<StepId, O> := map[];
    var pending := steps;
    calls := [];
    NothingRun(steps, body);
    while |pending| > 0
      invariant Continues(steps, body, calls, pending, results)
      decreases |pending|
    {
      RunStops(steps, body, calls, pending, results);
      var wave, next := SplitPending(pending, results);
      if |wave| == 0 {
        return Stalled(pending), calls;
      }
      var collected, error := RunWave(wave, results, body);
      if error.Some? {
        return Failed(error.value), calls + Calls(wave, results);
      }
      ContinuesWave(steps, body, calls, pending, results, collected);
      calls := calls + Calls(wave, results);
      results := collected;
      pending := next;
    }
    RunStops(steps, body, calls, pending, results);
    return Done(results), calls;
  }

  lemma {:induction false} NothingRun<O(!new), E(!new)>(steps: seq<StepDef>, body: Body<O, E>)
    ensures Continues(steps, body, [], steps, map[])
  {
    forall out, rest: seq<Call<O>> | Permits(steps, map[], body, out, rest)
      ensures Permits(steps, map[], body, out, [] + rest) {
      assert [] + rest == rest;
    }
  }
}
