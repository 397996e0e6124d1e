/** The gateway's balancer: picking an endpoint, cooling failing ones down, and the retry loop around it. */
module Balancer {
  import opened Numbers

  // ---------------------------------------------------------------------------------------
  // Durations: nanoseconds in a signed 64-bit integer
  // ---------------------------------------------------------------------------------------

  const TWO_63 := 0x8000_0000_0000_0000
  const TWO_64 := 0x1_0000_0000_0000_0000
  const SECOND := 1_000_000_000
  const COOLDOWN_MAX := 60 * SECOND
  const FAILURE_THRESHOLD := 2

  /** Two's complement: the value of the low 64 bits. */
  function Wrap(x: int): (r: int)
    ensures -TWO_63 <= r < TWO_63
  {
    var low := x % TWO_64;
    if low < TWO_63 then low else low - TWO_64
  }

  /** A shift by n is n shifts by one. */
  function ShiftLeft(x: int, n: nat): int {
    if n == 0 then x else Wrap(2 * ShiftLeft(x, n - 1))
  }

  /** How long an endpoint rests: what the upstream asked for, else by its failures, at most a minute. */
  function Rest(retryAfter: int, failures: int): int {
    var d := if retryAfter <= 0 then ShiftLeft(SECOND, Max(failures - 1, 0)) else retryAfter;
    if d > COOLDOWN_MAX then COOLDOWN_MAX else d
  }

  // ---------------------------------------------------------------------------------------
  // Endpoints
  // ---------------------------------------------------------------------------------------

  datatype State = State(models: seq<string>, disabled: bool, failures: int, cooldownTil: int, inFlight: int)

  datatype UpstreamError = UpstreamError(status: int, retryAfter: int, transient: bool)

  predicate Serves(s: State, model: string) {
    !s.disabled && (model == "" || s.models == [] || model in s.models)
  }

  predicate Eligible(s: State, now: int, model: string) {
    Serves(s, model) && s.cooldownTil <= now
  }

  /** The endpoint after an upstream error seen at time now. */
  function AfterError(s: State, e: UpstreamError, now: int): State {
    if e.status in {401, 402, 403} then s.(disabled := true)
    else if e.status == 429 then s.(cooldownTil := now + Rest(e.retryAfter, s.failures))
    else if e.transient then
      if s.failures + 1 >= FAILURE_THRESHOLD
      then s.(failures := s.failures + 1, cooldownTil := now + Rest(0, s.failures + 1))
      else s.(failures := s.failures + 1)
    else s.(failures := 0)
  }

  /** Times are counted from the zero instant, which no clock reads. */
  function AfterSuccess(s: State): State {
    s.(failures := 0, cooldownTil := 0)
  }

  class Endpoint {
    const models: seq<string>
    var inFlight: int
    var disabled: bool
    var cooldownTil: int
    var failures: int

    ghost function Snapshot(): State
      reads this
    {
      State(models, disabled, failures, cooldownTil, inFlight)
    }

    constructor (models: seq<string>)
      ensures Snapshot() == State(models, false, 0, 0, 0)
    {
      this.models := models;
      inFlight := 0;
      disabled := false;
      cooldownTil := 0;
      failures := 0;
    }

    method SupportsModel(model: string) returns (ok: bool)
      ensures ok <==> model == "" || models == [] || model in models
    {
      if model == "" || |models| == 0 {
        return true;
      }
      for i := 0 to |models|
        invariant model !in models[..i]
      {
        if models[i] == model {
          return true;
        }
      }
      assert models[..|models|] == models;
      return false;
    }

    method CheckEligible(now: int, model: string) returns (wait: int, ok: bool)
      ensures ok <==> Eligible(Snapshot(), now, model)
      ensures wait == if Serves(Snapshot(), model) && !ok then cooldownTil - now else 0
    {
      var supported := SupportsModel(model);
      if disabled || !supported {
        return 0, false;
      }
      if cooldownTil > now {
        return cooldownTil - now, false;
      }
      return 0, true;
    }

    method NoteSuccess()
      modifies this
      ensures Snapshot() == AfterSuccess(old(Snapshot()))
    {
      failures := 0;
      cooldownTil := 0;
    }

    method Cooldown(d: int, now: int)
      modifies this
      ensures Snapshot() == old(Snapshot()).(cooldownTil := now + Rest(d, old(failures)))
    {
      var rest := d;
      if rest <= 0 {
        rest := ShiftLeft(SECOND, Max(failures - 1, 0));
      }
      if rest > COOLDOWN_MAX {
        rest := COOLDOWN_MAX;
      }
      cooldownTil := now + rest;
    }

    method NoteError(e: UpstreamError, now: int)
      modifies this
      ensures Snapshot() == AfterError(old(Snapshot()), e, now)
    {
      if e.status == 401 || e.status == 403 || e.status == 402 {
        disabled := true;
        return;
      }
      if e.status == 429 {
        Cooldown(e.retryAfter, now);
        return;
      }
      if e.transient {
        failures := failures + 1;
        if failures >= FAILURE_THRESHOLD {
          Cooldown(0, now);
        }
        return;
      }
      failures := 0;
    }
  }

  // ---------------------------------------------------------------------------------------
  // Picking
  // ---------------------------------------------------------------------------------------

  datatype Mode = LeastInFlight | RoundRobin

  /** Busy(0) when no amount of waiting helps. */
  datatype Picked = Free(index: nat) | Busy(wait: int) | IndexPanic

  /** The indexes of the endpoints that can take the request now. */
  function Candidates(states: seq<State>, now: int, model: string): (list: seq<nat>)
    ensures forall k :: 0 <= k < |list| ==> list[k] < |states| && Eligible(states[list[k]], now, model)
    ensures forall i :: 0 <= i < |states| && Eligible(states[i], now, model) ==> i in list
  {
    if states == [] then []
    else
      var n := |states| - 1;
      Candidates(states[..n], now, model) + if Eligible(states[n], now, model) then [n] else []
  }

  predicate Cooling(s: State, now: int, model: string) {
    Serves(s, model) && s.cooldownTil > now
  }

  /** The least remaining cooldown among endpoints that serve the model; 0 if none is cooling. */
  predicate LeastWait(states: seq<State>, now: int, model: string, wait: int) {
    if wait == 0 then forall i :: 0 <= i < |states| ==> !Cooling(states[i], now, model)
    else
      && wait > 0
      && (exists i :: 0 <= i < |states| && Cooling(states[i], now, model) && states[i].cooldownTil - now == wait)
      && (forall i :: 0 <= i < |states| && Cooling(states[i], now, model) ==> wait <= states[i].cooldownTil - now)
  }

  /** One more, in an unsigned 64-bit integer. */
  function Increment(rr: nat): (r: nat)
    requires rr < TWO_64
    ensures r < TWO_64
  {
    if rr == TWO_64 - 1 then 0 else rr + 1
  }

  /** The counter converted to a signed integer, reduced by the remainder that truncates toward zero. */
  function StartIndex(rr: nat, n: nat): (start: int)
    requires rr < TWO_64 && n > 0
  {
    var ticket := Wrap(rr);
    if ticket >= 0 then ticket % n else -((-ticket) % n)
  }

  /** The candidate k places behind the first one in turn. */
  function InTurn(list: seq<nat>, start: nat, k: nat): nat
    requires list != []
  {
    list[(start + k) % |list|]
  }

  /** No candidate has fewer requests in flight, and those before it in turn have more. */
  ghost predicate LeastLoaded(states: seq<State>, list: seq<nat>, start: nat, k: nat)
    requires list != [] && forall j :: 0 <= j < |list| ==> list[j] < |states|
  {
    && k < |list|
    && (forall j: nat :: j < k ==> states[InTurn(list, start, j)].inFlight > states[InTurn(list, start, k)].inFlight)
    && (forall j: nat :: k < j < |list| ==>
          states[InTurn(list, start, j)].inFlight >= states[InTurn(list, start, k)].inFlight)
  }

  ghost predicate PickMeets(states: seq<State>, mode: Mode, rr: nat, now: int, model: string, picked: Picked)
    requires rr < TWO_64
  {
    var list := Candidates(states, now, model);
    match picked
    case Busy(wait) => list == [] && LeastWait(states, now, model, wait)
    case IndexPanic => list != [] && StartIndex(rr, |list|) < 0
    case Free(index) =>
      && list != [] && StartIndex(rr, |list|) >= 0
      && match mode
         case RoundRobin => index == InTurn(list, StartIndex(rr, |list|), 0)
         case LeastInFlight =>
           exists k :: LeastLoaded(states, list, StartIndex(rr, |list|), k)
                       && index == InTurn(list, StartIndex(rr, |list|), k)
  }

  ghost function StatesOf(endpoints: seq<Endpoint>): (states: seq<State>)
    reads endpoints
    ensures |states| == |endpoints|
    ensures forall i :: 0 <= i < |states| ==> states[i] == endpoints[i].Snapshot()
  {
    if endpoints == [] then [] else StatesOf(endpoints[..|endpoints| - 1]) + [endpoints[|endpoints| - 1].Snapshot()]
  }

  lemma {:induction false} CandidatesStep(states: seq<State>, i: nat, now: int, model: string)
    requires i < |states|
    ensures Candidates(states[..i + 1], now, model)
         == Candidates(states[..i], now, model) + if Eligible(states[i], now, model) then [i] else []
  {
    assert states[..i + 1][..i] == states[..i];
  }

  lemma {:induction false} NoWaitYet(now: int, model: string)
    ensures LeastWait([], now, model, 0)
  {
  }

  lemma {:induction false} CandidatesGrow(states: seq<State>, i: nat, now: int, model: string)
    requires i <= |states| && Candidates(states[..i], now, model) != []
    ensures Candidates(states, now, model) != []
    decreases |states| - i
  {
    if i < |states| {
      CandidatesStep(states, i, now, model);
      CandidatesGrow(states, i + 1, now, model);
    } else {
      assert states[..i] == states;
    }
  }

  lemma {:induction false} PickedInRange(
      states: seq<State>, mode: Mode, rr: nat, now: int, model: string, picked: Picked)
    requires rr < TWO_64 && PickMeets(states, mode, rr, now, model, picked) && picked.Free?
    ensures picked.index < |states| && Eligible(states[picked.index], now, model)
  {
    hide LeastLoaded, StartIndex, Candidates;
  }

  lemma {:induction false} OneChanged(before: seq<State>, after: seq<State>, i: nat, s: State)
    requires i < |before| == |after| && after[i] == s
    requires forall j :: 0 <= j < |after| && j != i ==> after[j] == before[j]
    ensures after == before[i := s]
  {
  }

  /** What an upstream call came to. */
  datatype Upstream = Response | Failure(error: UpstreamError)

  datatype Reply = Done | Failed(error: UpstreamError) | Panicked

  function Unavailable(wait: int): UpstreamError {
    UpstreamError(503, if wait > 0 then wait else 0, true)
  }

  function AfterCall(s: State, upstream: Upstream, ended: int): State {
    match upstream
    case Response => AfterSuccess(s)
    case Failure(e) => AfterError(s, e, ended)
  }

  /** An upstream error becomes worth retrying at once when some endpoint could take the request. */
  function ReplyFor(picked: Picked, upstream: Upstream, other: bool): Reply {
    match picked
    case Busy(wait) => Failed(Unavailable(wait))
    case IndexPanic => Panicked
    case Free(_) =>
      match upstream
      case Response => Done
      case Failure(e) => Failed(if other then e.(transient := true, retryAfter := 0) else e)
  }

  class BalancedProvider {
    const mode: Mode
    const endpoints: seq<Endpoint>
    var rr: nat

    ghost predicate Valid()
      reads this
    {
      rr < TWO_64 && forall i, j :: 0 <= i < j < |endpoints| ==> endpoints[i] != endpoints[j]
    }

    ghost function States(): seq<State>
      reads endpoints
    {
      StatesOf(endpoints)
    }

    /** The first loop of pick: who can take the request, and how long until someone can. */
    method Survey(now: int, model: string) returns (list: seq<nat>, minWait: int)
      ensures list == Candidates(States(), now, model)
      ensures LeastWait(States(), now, model, minWait)
    {
      hide LeastWait;
      ghost var states := States();
      list := [];
      minWait := 0;
      NoWaitYet(now, model);
      for i := 0 to |endpoints|
        invariant list == Candidates(states[..i], now, model)
        invariant LeastWait(states[..i], now, model, minWait)
      {
        var wait, ok := endpoints[i].CheckEligible(now, model);
        CandidatesStep(states, i, now, model);
        WaitStep(states, i, now, model, minWait);
        if ok {
          list := list + [i];
          continue;
        }
        if wait > 0 && (minWait == 0 || wait < minWait) {
          minWait := wait;
        }
      }
      assert states[..|endpoints|] == states;
    }

    method Pick(now: int, model: string) returns (picked: Picked)
      requires Valid()
      modifies this`rr
      ensures Valid() && PickMeets(States(), mode, old(rr), now, model, picked)
      ensures rr == if picked.Busy? then old(rr) else Increment(old(rr))
    {
      hide StartIndex, InTurn, LeastWait, LeastLoaded, Candidates, Increment;
      var list, minWait := Survey(now, model);
      if |list| == 0 {
        return Busy(minWait);
      }
      var start := StartIndex(rr, |list|);
      rr := Increment(rr);
      if start < 0 {
        return IndexPanic;
      }
      if mode == RoundRobin {
        return Free(InTurn(list, start, 0));
      }
      var k := LeastLoadedFrom(list, start);
      return Free(InTurn(list, start, k));
    }

    method LeastLoadedFrom(list: seq<nat>, start: nat) returns (k: nat)
      requires list != [] && forall j :: 0 <= j < |list| ==> list[j] < |endpoints|
      ensures LeastLoaded(States(), list, start, k)
    {
      ghost var states := States();
      k := 0;
      var bestLoad := endpoints[InTurn(list, start, 0)].inFlight;
      for i := 1 to |list|
        invariant k < i && bestLoad == states[InTurn(list, start, k)].inFlight
        invariant forall j: nat :: j < k ==> states[InTurn(list, start, j)].inFlight > bestLoad
        invariant forall j: nat :: k < j < i ==> states[InTurn(list, start, j)].inFlight >= bestLoad
      {
        var load := endpoints[InTurn(list, start, i)].inFlight;
        if load < bestLoad {
          k, bestLoad := i, load;
        }
      }
    }

    method HasCandidate(now: int, model: string) returns (any: bool)
      ensures any <==> Candidates(States(), now, model) != []
    {
      ghost var states := States();
      for i := 0 to |endpoints|
        invariant Candidates(states[..i], now, model) == []
      {
        var _, ok := endpoints[i].CheckEligible(now, model);
        CandidatesStep(states, i, now, model);
        if ok {
          CandidatesGrow(states, i + 1, now, model);
          return true;
        }
      }
      assert states[..|endpoints|] == states;
      return false;
    }

    /** One request: the call starts at began and the upstream has answered by ended. */
    method Complete(began: int, ended: int, model: string, upstream: Upstream) returns (reply: Reply, picked: Picked)
      requires Valid()
      modifies this`rr, endpoints
      ensures Valid() && PickMeets(old(States()), mode, old(rr), began, model, picked)
      ensures rr == if picked.Busy? then old(rr) else Increment(old(rr))
      ensures !picked.Free? ==> States() == old(States())
      ensures picked.Free? ==>
                States() == old(States())[picked.index := AfterCall(old(States())[picked.index], upstream, ended)]
      ensures reply == ReplyFor(picked, upstream, Candidates(States(), ended, model) != [])
    {
      hide PickMeets, Candidates, AfterError, AfterSuccess, Increment;
      picked := Pick(began, model);
      if picked.Busy? {
        return Failed(Unavailable(picked.wait)), picked;
      }
      if picked.IndexPanic? {
        return Panicked, picked;
      }
      PickedInRange(States(), mode, old(rr), began, model, picked);
      var ep := endpoints[picked.index];
      ghost var before := States();
      ep.inFlight := ep.inFlight + 1;
      ep.inFlight := ep.inFlight - 1;
      if upstream.Response? {
        ep.NoteSuccess();
        OneChanged(before, States(), picked.index, AfterCall(before[picked.index], upstream, ended));
        return Done, picked;
      }
      ep.NoteError(upstream.error, ended);
      OneChanged(before, States(), picked.index, AfterCall(before[picked.index], upstream, ended));
      var other := HasCandidate(ended, model);
      reply := Failed(if other then upstream.error.(transient := true, retryAfter := 0) else upstream.error);
    }
  }

  lemma {:induction false} WaitStep(states: seq<State>, i: nat, now: int, model: string, wait: int)
    requires i < |states| && LeastWait(states[..i], now, model, wait)
    ensures var s := states[i];
            LeastWait(states[..i + 1], now, model,
                      if Cooling(s, now, model) && (wait == 0 || s.cooldownTil - now < wait)
                      then s.cooldownTil - now else wait)
  {
    var next := states[..i + 1];
    assert next[i] == states[i];
    assert forall j :: 0 <= j < i ==> next[j] == states[..i][j];
    if wait != 0 {
      var j :| 0 <= j < i && Cooling(states[..i][j], now, model) && states[..i][j].cooldownTil - now == wait;
      assert Cooling(next[j], now, model);
    }
  }
}
