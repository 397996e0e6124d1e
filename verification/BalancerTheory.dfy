/** How long endpoints rest, how long callers are told to wait, and what waiting that long achieves. */
module BalancerTheory {
  import opened Numbers
  import opened Wrappers
  import opened Balancer

  // ---------------------------------------------------------------------------------------
  // The rest of a failing endpoint
  // ---------------------------------------------------------------------------------------

  function Pow2(n: nat): nat {
    if n == 0 then 1 else 2 * Pow2(n - 1)
  }

  /** The documented backoff: one second, doubled for every failure after the first, at most a minute. */
  function Backoff(failures: int): int {
    Min(Pow2(Max(failures - 1, 0)), 60) * SECOND
  }

  /** Shifts of one second that do not leave a signed 64-bit integer's positive half. */
  predicate Survives(n: nat) {
    n <= 33 || n in {37, 41, 42, 45, 47, 50, 51, 53}
  }

  lemma {:induction false} RestAtMostAMinute(retryAfter: int, failures: int)
    ensures Rest(retryAfter, failures) <= COOLDOWN_MAX
  {
  }

  lemma {:induction false} PowGrows(n: nat, m: nat)
    requires n <= m
    ensures Pow2(n) <= Pow2(m)
    decreases m - n
  {
    if n < m {
      PowGrows(n, m - 1);
    }
  }

  lemma {:induction false} PowSteps()
    ensures Pow2(6) == 64 && Pow2(33) == 0x2_0000_0000
  {
    assert Pow2(1) == 2;
    assert Pow2(2) == 4;
    assert Pow2(3) == 8;
    assert Pow2(4) == 16;
    assert Pow2(5) == 32;
    assert Pow2(6) == 64;
    assert Pow2(7) == 128;
    assert Pow2(8) == 256;
    assert Pow2(9) == 512;
    assert Pow2(10) == 1024;
    assert Pow2(11) == 2048;
    assert Pow2(12) == 4096;
    assert Pow2(13) == 8192;
    assert Pow2(14) == 16384;
    assert Pow2(15) == 32768;
    assert Pow2(16) == 65536;
    assert Pow2(17) == 131072;
    assert Pow2(18) == 262144;
    assert Pow2(19) == 524288;
    assert Pow2(20) == 1048576;
    assert Pow2(21) == 2097152;
    assert Pow2(22) == 4194304;
    assert Pow2(23) == 8388608;
    assert Pow2(24) == 16777216;
    assert Pow2(25) == 33554432;
    assert Pow2(26) == 67108864;
    assert Pow2(27) == 134217728;
    assert Pow2(28) == 268435456;
    assert Pow2(29) == 536870912;
    assert Pow2(30) == 1073741824;
    assert Pow2(31) == 2147483648;
    assert Pow2(32) == 4294967296;
    assert Pow2(33) == 8589934592;
  }

  lemma {:induction false} Doubled(n: nat)
    ensures ShiftLeft(SECOND, n + 1) == Wrap(2 * ShiftLeft(SECOND, n))
    ensures Pow2(n + 1) == 2 * Pow2(n) && Pow2(0) == 1
  {
  }

  lemma {:induction false} WrapSmall(x: int)
    requires -TWO_63 <= x < TWO_63
    ensures Wrap(x) == x
  {
  }

  /** While the doubled second fits in 63 bits, shifting is multiplying. */
  lemma {:induction false} ShiftIsDoubling(n: nat)
    requires n <= 33
    ensures ShiftLeft(SECOND, n) == SECOND * Pow2(n)
  {
    hide Pow2, Wrap;
    Doubled(0);
    if n > 0 {
      ShiftIsDoubling(n - 1);
      Doubled(n - 1);
      PowSteps();
      PowGrows(n, 33);
      WrapSmall(SECOND * Pow2(n));
    }
  }

  lemma {:induction false} ShiftsTo44()
    ensures ShiftLeft(SECOND, 44) == -6007801902912241664
    ensures forall n: nat :: 34 <= n <= 44 ==>
              if Survives(n) then ShiftLeft(SECOND, n) > COOLDOWN_MAX else ShiftLeft(SECOND, n) <= 0
  {
    hide ShiftLeft, Pow2;
    ShiftIsDoubling(33);
    PowSteps();
    Doubled(33);
    assert ShiftLeft(SECOND, 34) == -1266874889709551616;
    Doubled(34);
    assert ShiftLeft(SECOND, 35) == -2533749779419103232;
    Doubled(35);
    assert ShiftLeft(SECOND, 36) == -5067499558838206464;
    Doubled(36);
    assert ShiftLeft(SECOND, 37) == 8311744956033138688;
    Doubled(37);
    assert ShiftLeft(SECOND, 38) == -1823254161643274240;
    Doubled(38);
    assert ShiftLeft(SECOND, 39) == -3646508323286548480;
    Doubled(39);
    assert ShiftLeft(SECOND, 40) == -7293016646573096960;
    Doubled(40);
    assert ShiftLeft(SECOND, 41) == 3860710780563357696;
    Doubled(41);
    assert ShiftLeft(SECOND, 42) == 7721421561126715392;
    Doubled(42);
    assert ShiftLeft(SECOND, 43) == -3003900951456120832;
    Doubled(43);
    assert ShiftLeft(SECOND, 44) == -6007801902912241664;
  }

  lemma {:induction false} ShiftsTo55()
    ensures ShiftLeft(SECOND, 55) == 0
    ensures forall n: nat :: 45 <= n <= 54 ==>
              if Survives(n) then ShiftLeft(SECOND, n) > COOLDOWN_MAX else ShiftLeft(SECOND, n) <= 0
  {
    hide ShiftLeft, Pow2;
    ShiftsTo44();
    Doubled(44);
    assert ShiftLeft(SECOND, 45) == 6431140267885068288;
    Doubled(45);
    assert ShiftLeft(SECOND, 46) == -5584463537939415040;
    Doubled(46);
    assert ShiftLeft(SECOND, 47) == 7277816997830721536;
    Doubled(47);
    assert ShiftLeft(SECOND, 48) == -3891110078048108544;
    Doubled(48);
    assert ShiftLeft(SECOND, 49) == -7782220156096217088;
    Doubled(49);
    assert ShiftLeft(SECOND, 50) == 2882303761517117440;
    Doubled(50);
    assert ShiftLeft(SECOND, 51) == 5764607523034234880;
    Doubled(51);
    assert ShiftLeft(SECOND, 52) == -6917529027641081856;
    Doubled(52);
    assert ShiftLeft(SECOND, 53) == 4611686018427387904;
    Doubled(53);
    assert ShiftLeft(SECOND, 54) == -9223372036854775808;
    Doubled(54);
    assert ShiftLeft(SECOND, 55) == 0;
  }

  lemma {:induction false} ShiftedOut(n: nat)
    requires n >= 55
    ensures ShiftLeft(SECOND, n) == 0
  {
    if n == 55 {
      ShiftsTo55();
    } else {
      ShiftedOut(n - 1);
    }
  }

  /**
    * Without a Retry-After the rest is the documented backoff exactly for the failure counts whose shift survives:
    * up to 34, and a few above. For every other count the endpoint does not rest at all.
    */
  lemma {:induction false} RestIsBackoffIff(failures: int)
    ensures Rest(0, failures) == Backoff(failures) <==> Survives(Max(failures - 1, 0))
    ensures !Survives(Max(failures - 1, 0)) ==> Rest(0, failures) <= 0
  {
    hide ShiftLeft, Pow2;
    var n := Max(failures - 1, 0);
    PowSteps();
    if n <= 33 {
      ShiftIsDoubling(n);
    } else {
      PowGrows(6, n);
      if n <= 44 {
        ShiftsTo44();
      } else if n < 55 {
        ShiftsTo55();
      } else {
        ShiftedOut(n);
      }
    }
  }

  /** The second and later failures in a row take an endpoint out of service exactly when the shift survives. */
  lemma {:induction false} OutOfServiceIff(s: State, e: UpstreamError, now: int, model: string)
    requires Serves(s, model) && s.failures >= 1
    requires e.transient && e.status !in {401, 402, 403, 429}
    ensures Eligible(AfterError(s, e, now), now, model) <==> !Survives(s.failures)
    ensures Survives(s.failures) ==> AfterError(s, e, now).cooldownTil == now + Backoff(s.failures + 1)
  {
    hide ShiftLeft, Pow2, Survives, Rest;
    RestIsBackoffIff(s.failures + 1);
    PowGrows(0, s.failures);
    Doubled(0);
  }

  /** The thirty-fifth failure in a row is the first that takes no endpoint out of service. */
  lemma {:induction false} FirstLostRest(s: State, now: int, model: string)
    requires Serves(s, model) && 1 <= s.failures <= 34
    ensures Eligible(AfterError(s, UpstreamError(500, 0, true), now), now, model) <==> s.failures == 34
  {
    hide AfterError, Eligible, Serves;
    OutOfServiceIff(s, UpstreamError(500, 0, true), now, model);
  }

  /** A rate-limited endpoint is back exactly when the upstream said, or after a minute if it asked for more. */
  lemma {:induction false} RateLimitedUntil(
      s: State, retryAfter: int, transient: bool, now: int, later: int, model: string)
    requires Serves(s, model) && retryAfter > 0
    ensures Eligible(AfterError(s, UpstreamError(429, retryAfter, transient), now), later, model)
       <==> now + Min(retryAfter, COOLDOWN_MAX) <= later
  {
  }

  /** An endpoint that refused the key or the payment never takes a request again. */
  lemma {:induction false} DisabledForGood(
      s: State, e: UpstreamError, calls: seq<Upstream>, at: nat -> int, now: int, model: string)
    requires e.status in {401, 402, 403}
    ensures !Eligible(AfterCalls(AfterError(s, e, at(0)), calls, at), now, model)
  {
    StaysDisabled(AfterError(s, e, at(0)), calls, at);
  }

  function AfterCalls(s: State, calls: seq<Upstream>, at: nat -> int): State {
    if calls == [] then s
    else
      var n := |calls| - 1;
      AfterCall(AfterCalls(s, calls[..n], at), calls[n], at(n))
  }

  lemma {:induction false} StaysDisabled(s: State, calls: seq<Upstream>, at: nat -> int)
    requires s.disabled
    ensures AfterCalls(s, calls, at).disabled
  {
    hide Rest;
    if calls != [] {
      StaysDisabled(s, calls[..|calls| - 1], at);
    }
  }

  /** Transient failures since the last response or other error; refusals and rate limits do not count. */
  function Streak(calls: seq<Upstream>): nat {
    if calls == [] then 0
    else
      var earlier := Streak(calls[..|calls| - 1]);
      match calls[|calls| - 1]
      case Response => 0
      case Failure(e) =>
        if e.status in {401, 402, 403, 429} then earlier else if e.transient then earlier + 1 else 0
  }

  /** Over any calls of a fresh endpoint: the failures counted are the streak, it is disabled exactly by a refused key
      or payment, and neither its models nor its load change. */
  lemma {:induction false} FailuresAreStreak(s: State, calls: seq<Upstream>, at: nat -> int)
    requires s.failures == 0 && !s.disabled
    ensures var after := AfterCalls(s, calls, at);
            && after.failures == Streak(calls)
            && (after.disabled <==> exists u :: u in calls && u.Failure? && u.error.status in {401, 402, 403})
            && after.models == s.models && after.inFlight == s.inFlight
  {
    hide Rest;
    if calls != [] {
      var n := |calls| - 1;
      FailuresAreStreak(s, calls[..n], at);
      assert calls == calls[..n] + [calls[n]];
    }
  }

  /** What a rest without Retry-After comes to: the backoff while the shift survives, and else none. */
  predicate RestsFor(until: int, at: int, failures: int) {
    if Survives(Max(failures - 1, 0)) then until == at + Backoff(failures) else until <= at
  }

  /** When a call makes an endpoint rest, and when it ends the rest: a response ends it, a rate limit and the second and
      later transient failures in a row start one, and any other error leaves it. */
  lemma {:induction false} RestStarts(s: State, u: Upstream, at: int)
    requires 0 <= s.failures
    ensures var until := AfterCall(s, u, at).cooldownTil;
            && (u == Response ==> until == 0)
            && (u.Failure? && u.error.status == 429 ==>
                  if u.error.retryAfter > 0 then until == at + Min(u.error.retryAfter, 60_000_000_000)
                  else RestsFor(until, at, s.failures))
            && (u.Failure? && u.error.status !in {401, 402, 403, 429} && u.error.transient ==>
                  if s.failures == 0 then until == s.cooldownTil else RestsFor(until, at, s.failures + 1))
            && (u.Failure? && (u.error.status in {401, 402, 403} || (u.error.status != 429 && !u.error.transient)) ==>
                  until == s.cooldownTil)
  {
    hide ShiftLeft, Pow2;
    if u.Failure? {
      RestIsBackoffIff(s.failures);
      RestIsBackoffIff(s.failures + 1);
    }
  }

  // ---------------------------------------------------------------------------------------
  // Picking
  // ---------------------------------------------------------------------------------------

  /** An endpoint that can take the request: enabled, not resting, and without a list of models, or with the one asked
      for on it, if one is. */
  predicate Takes(s: State, now: int, model: string) {
    !s.disabled && s.cooldownTil <= now && (|model| == 0 || |s.models| == 0 || exists k :: 0 <= k < |s.models| && s.models[k] == model)
  }

  /** A request finds the balancer busy exactly when no endpoint can take it, and is else given one that can. */
  lemma {:induction false} BusyIff(states: seq<State>, mode: Mode, rr: nat, now: int, model: string, picked: Picked)
    requires rr < TWO_64 && PickMeets(states, mode, rr, now, model, picked)
    ensures picked.Busy? <==> forall i :: 0 <= i < |states| ==> !Takes(states[i], now, model)
    ensures picked.Free? ==> picked.index < |states| && Takes(states[picked.index], now, model)
  {
    hide LeastLoaded, StartIndex, LeastWait;
    var list := Candidates(states, now, model);
    if picked.Free? {
      PickedInRange(states, mode, rr, now, model, picked);
    }
    if list != [] {
      assert Takes(states[list[0]], now, model);
    }
    assert forall i :: 0 <= i < |states| ==> (Takes(states[i], now, model) <==> Eligible(states[i], now, model));
  }

  /** The counter after k picks. */
  function Advanced(rr: nat, k: nat): (r: nat)
    requires rr < TWO_64
    ensures r < TWO_64
  {
    if k == 0 then rr else Increment(Advanced(rr, k - 1))
  }

  lemma {:induction false} AdvancedIs(rr: nat, k: nat)
    requires rr + k < TWO_64
    ensures Advanced(rr, k) == rr + k
  {
    if k > 0 {
      AdvancedIs(rr, k - 1);
    }
  }

  /** Below half the counter's range, as many picks in a row as there are candidates pick every one of them. */
  lemma {:induction false} TurnsVisitAll(states: seq<State>, rr: nat, now: int, model: string, i: nat) returns (k: nat)
    requires i < |states| && Eligible(states[i], now, model)
    requires rr + |Candidates(states, now, model)| <= TWO_63
    ensures k < |Candidates(states, now, model)|
    ensures forall picked :: PickMeets(states, RoundRobin, Advanced(rr, k), now, model, picked) <==> picked == Free(i)
  {
    hide InTurn, StartIndex, Eligible;
    var list := Candidates(states, now, model);
    var j :| 0 <= j < |list| && list[j] == i;
    k := TurnComes(list, rr, j);
    AdvancedIs(rr, k);
    StartIsMod(rr + k, |list|);
  }

  lemma {:induction false} StartIsMod(rr: nat, n: nat)
    requires rr < TWO_63 && n > 0
    ensures StartIndex(rr, n) == rr % n >= 0
  {
    ModIs(rr, n);
  }

  /** In the counter's upper half the conversion to a signed integer fails unless the turn is that of the first. */
  lemma {:induction false} PanicsIff(states: seq<State>, mode: Mode, rr: nat, now: int, model: string)
    requires rr < TWO_64
    ensures PickMeets(states, mode, rr, now, model, IndexPanic)
       <==> var n := |Candidates(states, now, model)|; n > 0 && rr >= TWO_63 && (TWO_64 - rr) % n != 0
  {
    hide Candidates;
    var n := |Candidates(states, now, model)|;
    if n > 0 && rr < TWO_63 {
      StartIsMod(rr, n);
    }
  }

  lemma {:induction false} TurnComes(list: seq<nat>, rr: nat, j: nat) returns (k: nat)
    requires j < |list| && rr + |list| <= TWO_63
    ensures k < |list| && InTurn(list, StartIndex(rr + k, |list|), 0) == list[j]
  {
    var n := |list|;
    var start := Mod(rr, n);
    k := if start <= j then j - start else j - start + n;
    hide Wrap;
    Remainder(rr, k, n);
    ModIs(rr + k, n);
    ModIs(j, n);
  }

  function Mod(x: nat, n: nat): (r: nat)
    requires n > 0
    ensures r < n
  {
    x % n
  }

  lemma {:induction false} ModIs(x: nat, n: nat)
    requires n > 0
    ensures Mod(x, n) == x % n && (x < n ==> x % n == x)
    ensures x < TWO_63 ==> StartIndex(x, n) == Mod(x, n)
  {
    if x < TWO_63 {
      WrapSmall(x);
    }
  }

  lemma {:induction false} Remainder(x: nat, k: nat, n: nat)
    requires n > 0 && k < n
    ensures Mod(x + k, n) == if Mod(x, n) + k < n then Mod(x, n) + k else Mod(x, n) + k - n
  {
    hide Mod;
    if k == 0 {
    } else {
      Remainder(x, k - 1, n);
      NextRemainder(x + k - 1, n);
    }
  }

  lemma {:induction false} NextRemainder(x: nat, n: nat)
    requires n > 0
    ensures Mod(x + 1, n) == if Mod(x, n) + 1 < n then Mod(x, n) + 1 else 0
  {
    var q, r := x / n, x % n;
    assert x == q * n + r;
    if r + 1 < n {
      assert x + 1 == q * n + (r + 1);
      Unique(x + 1, q, r + 1, n);
    } else {
      assert x + 1 == (q + 1) * n;
      Unique(x + 1, q + 1, 0, n);
    }
  }

  lemma {:induction false} Unique(x: nat, q: int, r: int, n: nat)
    requires n > 0 && 0 <= r < n && x == q * n + r
    ensures Mod(x, n) == r
  {
    var q', r' := x / n, x % n;
    assert x == q' * n + r';
    assert (q - q') * n == r' - r && (q' - q) * n == r - r';
    if q > q' {
      AtLeastOnce(q - q', n);
    } else if q < q' {
      AtLeastOnce(q' - q, n);
    }
  }

  lemma {:induction false} AtLeastOnce(m: int, n: int)
    requires m >= 1 && n >= 0
    ensures m * n >= n
  {
    assert (m - 1) * n >= 0;
    assert m * n == (m - 1) * n + n;
  }

  /** Whatever the start, some turn is any given candidate's. */
  lemma {:induction false} TurnReaches(list: seq<nat>, start: nat, j: nat) returns (m: nat)
    requires j < |list|
    ensures m < |list| && InTurn(list, start, m) == list[j]
  {
    hide Mod;
    var s := Mod(start, |list|);
    m := if s <= j then j - s else j - s + |list|;
    Remainder(start, m, |list|);
    ModIs(start + m, |list|);
  }

  /** The endpoint picked by load has no more requests in flight than any that could have been. */
  lemma {:induction false} PickedIsLeastLoaded(
      states: seq<State>, rr: nat, now: int, model: string, index: nat, i: nat)
    requires rr < TWO_64 && PickMeets(states, LeastInFlight, rr, now, model, Free(index))
    requires i < |states| && Eligible(states[i], now, model)
    ensures index < |states| && Eligible(states[index], now, model)
    ensures states[index].inFlight <= states[i].inFlight
  {
    hide StartIndex, Eligible, InTurn;
    PickedInRange(states, LeastInFlight, rr, now, model, Free(index));
    var list := Candidates(states, now, model);
    var start: nat := StartIndex(rr, |list|);
    var k: nat :| LeastLoaded(states, list, start, k) && index == InTurn(list, start, k);
    var j :| 0 <= j < |list| && list[j] == i;
    var m := TurnReaches(list, start, j);
  }

  /** Of those with as few requests the first one in turn is picked. */
  lemma {:induction false} PickedFirstInTurn(states: seq<State>, rr: nat, now: int, model: string, index: nat)
    returns (k: nat)
    requires rr < TWO_63 && PickMeets(states, LeastInFlight, rr, now, model, Free(index))
    ensures var list := Candidates(states, now, model);
            && k < |list| && index == InTurn(list, Mod(rr, |list|), k) < |states|
            && forall j: nat :: j < k ==>
                 var i := InTurn(list, Mod(rr, |list|), j); i < |states| && states[i].inFlight > states[index].inFlight
  {
    hide StartIndex, Eligible, InTurn, Mod;
    PickedInRange(states, LeastInFlight, rr, now, model, Free(index));
    var list := Candidates(states, now, model);
    ModIs(rr, |list|);
    k :| LeastLoaded(states, list, Mod(rr, |list|), k) && index == InTurn(list, Mod(rr, |list|), k);
    forall j: nat | j < k
      ensures var i := InTurn(list, Mod(rr, |list|), j); i < |states| && states[i].inFlight > states[index].inFlight
    {
      TurnIsListed(list, Mod(rr, |list|), j);
    }
  }

  lemma {:induction false} TurnIsListed(list: seq<nat>, start: nat, k: nat)
    requires list != []
    ensures InTurn(list, start, k) in list
  {
  }

  // ---------------------------------------------------------------------------------------
  // Waiting
  // ---------------------------------------------------------------------------------------

  predicate CooledBy(states: seq<State>, now: int) {
    forall i :: 0 <= i < |states| ==> states[i].cooldownTil <= now + COOLDOWN_MAX
  }

  /** What an upstream call of one endpoint came to, and when. */
  datatype Answered = Answered(index: nat, upstream: Upstream, at: int)

  function AfterAnswers(states: seq<State>, answers: seq<Answered>): (after: seq<State>)
    ensures |after| == |states|
  {
    if answers == [] then states
    else
      var n := |answers| - 1;
      var before, a := AfterAnswers(states, answers[..n]), answers[n];
      if a.index < |before| then before[a.index := AfterCall(before[a.index], a.upstream, a.at)] else before
  }

  ghost predicate AllFresh(states: seq<State>) {
    forall i :: 0 <= i < |states| ==> states[i].cooldownTil == 0
  }

  /** From fresh endpoints, whatever was answered before now and in whatever order, none rests over a minute more. */
  lemma {:induction false} RunStaysCooled(states: seq<State>, answers: seq<Answered>, now: int)
    requires AllFresh(states) && 0 <= now
    requires forall k :: 0 <= k < |answers| ==> 0 <= answers[k].at <= now
    ensures CooledBy(AfterAnswers(states, answers), now)
    decreases |answers|
  {
    hide AfterCall;
    if answers != [] {
      var n := |answers| - 1;
      var before, a := AfterAnswers(states, answers[..n]), answers[n];
      RunStaysCooled(states, answers[..n], now);
      if a.index < |before| {
        AnswerStaysCooled(before[a.index], a.upstream, a.at, now);
      }
    }
  }

  lemma {:induction false} AnswerStaysCooled(s: State, upstream: Upstream, at: int, now: int)
    requires 0 <= at <= now && s.cooldownTil <= now + COOLDOWN_MAX
    ensures AfterCall(s, upstream, at).cooldownTil <= now + COOLDOWN_MAX
  {
    hide Rest;
    if upstream.Failure? {
      RestAtMostAMinute(upstream.error.retryAfter, s.failures);
      RestAtMostAMinute(0, s.failures + 1);
    }
  }

  /** From fresh endpoints, after any answers, a busy balancer reports a wait of at most a minute. */
  lemma {:induction false} WaitAtMostAMinute(
      states: seq<State>, answers: seq<Answered>, now: int, model: string, wait: int)
    requires AllFresh(states) && 0 <= now
    requires forall k :: 0 <= k < |answers| ==> 0 <= answers[k].at <= now
    requires LeastWait(AfterAnswers(states, answers), now, model, wait)
    ensures 0 <= wait <= COOLDOWN_MAX
  {
    hide AfterAnswers;
    RunStaysCooled(states, answers, now);
  }

  /** Told to wait, and with nothing else going on, a caller that waited finds an endpoint, and not before. */
  lemma {:induction false} WaitIsExact(states: seq<State>, now: int, later: int, model: string, wait: int)
    requires Candidates(states, now, model) == [] && LeastWait(states, now, model, wait) && wait > 0 && now <= later
    ensures Candidates(states, later, model) != [] <==> now + wait <= later
  {
    var list := Candidates(states, later, model);
    if now + wait <= later {
      var i :| 0 <= i < |states| && Cooling(states[i], now, model) && states[i].cooldownTil - now == wait;
      assert Eligible(states[i], later, model);
      assert i in list;
    } else if list != [] {
      var i := list[0];
      NotEligible(states, now, model, i);
      assert Cooling(states[i], now, model);
      assert false;
    }
  }

  lemma {:induction false} NotEligible(states: seq<State>, now: int, model: string, i: nat)
    requires Candidates(states, now, model) == [] && i < |states|
    ensures !Eligible(states[i], now, model)
  {
    assert Eligible(states[i], now, model) ==> i in Candidates(states, now, model);
  }

  /** Told to wait zero, a caller finds no endpoint however long it waits. */
  lemma {:induction false} NoneServes(states: seq<State>, now: int, later: int, model: string)
    requires Candidates(states, now, model) == [] && LeastWait(states, now, model, 0)
    ensures Candidates(states, later, model) == []
    ensures forall wait :: LeastWait(states, later, model, wait) ==> wait == 0
  {
    var list := Candidates(states, later, model);
    assert list != [] ==> Serves(states[list[0]], model);
    forall i: nat | i < |states| ensures !Serves(states[i], model) {
      NotEligible(states, now, model, i);
    }
  }

  // ---------------------------------------------------------------------------------------
  // The retry loop
  // ---------------------------------------------------------------------------------------

  /** When an attempt was made and had its answer, the endpoint picked, and what the handler got back. */
  datatype Attempt = Attempt(at: int, ended: int, picked: Picked, reply: Reply)

  /** The provider between two attempts. */
  datatype Situation = Situation(states: seq<State>, rr: nat)

  /** What an attempt does to the provider and what it answers. */
  ghost predicate Made(before: Situation, after: Situation, mode: Mode, model: string, upstream: Upstream, a: Attempt) {
    && before.rr < TWO_64 && PickMeets(before.states, mode, before.rr, a.at, model, a.picked)
    && after.rr == (if a.picked.Busy? then before.rr else Increment(before.rr))
    && (if a.picked.Free? then
          && a.picked.index < |before.states|
          && after.states
             == before.states[a.picked.index := AfterCall(before.states[a.picked.index], upstream, a.ended)]
        else after.states == before.states)
    && a.reply == ReplyFor(a.picked, upstream, Candidates(after.states, a.ended, model) != [])
  }

  /** What the caller of an attempt gets: a response is done; an error is the upstream's own, or the same status to be
      retried at once when another endpoint could take the request; a busy balancer is unavailable for the wait. */
  lemma {:induction false} ReplyIs(before: Situation, after: Situation, mode: Mode, model: string, upstream: Upstream,
                                   a: Attempt, e: UpstreamError)
    requires Made(before, after, mode, model, upstream, a)
    ensures a.reply == Done <==> a.picked.Free? && upstream == Response
    ensures a.reply == Panicked <==> a.picked.IndexPanic?
    ensures a.picked.Busy? ==> a.reply == Failed(UpstreamError(503, Max(a.picked.wait, 0), true))
    ensures a.picked.Free? && upstream == Failure(e) ==>
              a.reply == if exists i :: 0 <= i < |after.states| && Eligible(after.states[i], a.ended, model)
                         then Failed(UpstreamError(e.status, 0, true)) else Failed(e)
  {
    hide PickMeets, AfterCall, Eligible;
    var list := Candidates(after.states, a.ended, model);
    if list != [] {
      assert Eligible(after.states[list[0]], a.ended, model);
    }
  }

  /** Base, twice base, four times base and so on, in wrapping arithmetic. */
  method RetryBackoff(base: int, attempt: int) returns (d: int)
    ensures d == ShiftLeft(base, Max(attempt - 1, 0))
  {
    d := base;
    var i := 1;
    while i < attempt
      invariant i >= 1 && (i <= attempt || i == 1) && d == ShiftLeft(base, i - 1)
      decreases attempt - i
    {
      d := Wrap(2 * d);
      i := i + 1;
    }
  }

  lemma {:induction false} WrapTwice(y: int)
    ensures Wrap(2 * Wrap(y)) == Wrap(2 * y)
  {
    var q := y / TWO_64;
    assert y == q * TWO_64 + y % TWO_64;
    var q' := if y % TWO_64 < TWO_63 then q else q + 1;
    assert Wrap(y) == y - q' * TWO_64;
    assert 2 * Wrap(y) == 2 * y - (2 * q') * TWO_64;
    Shifted(2 * y, 2 * q');
  }

  lemma {:induction false} Shifted(x: int, k: int)
    ensures (x - k * TWO_64) % TWO_64 == x % TWO_64
  {
  }

  /** The backoff is the base times a power of two, in the low 64 bits. */
  lemma {:induction false} ShiftIsWrapped(base: int, n: nat)
    requires -TWO_63 <= base < TWO_63
    ensures ShiftLeft(base, n) == Wrap(base * Pow2(n))
  {
    if n == 0 {
      WrapSmall(base);
    } else {
      ShiftIsWrapped(base, n - 1);
      WrapTwice(base * Pow2(n - 1));
      assert 2 * (base * Pow2(n - 1)) == base * Pow2(n);
    }
  }

  method Delay(base: int, attempt: int, last: Option<UpstreamError>) returns (delay: int)
    ensures delay == if last.Some? && last.value.retryAfter > 0 then last.value.retryAfter
                     else ShiftLeft(base, Max(attempt - 1, 0))
  {
    delay := RetryBackoff(base, attempt);
    if last.Some? && last.value.retryAfter > 0 {
      delay := last.value.retryAfter;
    }
  }

  /** Nothing to retry: the request is done, or failed for good. */
  predicate Final(r: Reply) {
    r.Failed? ==> !r.error.transient
  }

  /** The next attempt comes behind one worth retrying, after the time it asked for or else the k-th backoff, and
      however much longer the sleep took. */
  predicate RetriedAfter(prev: Attempt, next: Attempt, base: int, k: nat, late: nat) {
    && !Final(prev.reply)
    && var e := prev.reply.error;
       next.at == prev.ended + Max(if e.retryAfter > 0 then e.retryAfter else ShiftLeft(base, k), 0) + late
  }

  ghost predicate MadeAt(history: seq<Situation>, trace: seq<Attempt>, k: nat, mode: Mode, model: string,
                         upstream: nat -> Upstream, took: nat -> nat)
    requires k < |trace| && |history| == |trace| + 1
  {
    Made(history[k], history[k + 1], mode, model, upstream(k), trace[k]) && trace[k].ended == trace[k].at + took(k)
  }

  predicate RetriedAt(trace: seq<Attempt>, k: nat, base: int, late: nat -> nat)
    requires k + 1 < |trace|
  {
    RetriedAfter(trace[k], trace[k + 1], base, k, late(k + 1))
  }

  /** The attempts of one request, one behind the other, and the provider before, between and behind them. */
  ghost predicate Attempts(history: seq<Situation>, trace: seq<Attempt>, mode: Mode, base: int, model: string, start: int,
                           took: nat -> nat, late: nat -> nat, upstream: nat -> Upstream)
  {
    && |history| == |trace| + 1
    && (trace != [] ==> trace[0].at == start)
    && (forall k: nat :: k < |trace| ==> MadeAt(history, trace, k, mode, model, upstream, took))
    && (forall k: nat :: k + 1 < |trace| ==> RetriedAt(trace, k, base, late))
  }

  lemma {:induction false} OneAttemptMore(
      history: seq<Situation>, trace: seq<Attempt>, mode: Mode, base: int, model: string, start: int,
      took: nat -> nat, late: nat -> nat, upstream: nat -> Upstream, after: Situation, a: Attempt)
    requires Attempts(history, trace, mode, base, model, start, took, late, upstream)
    requires Made(history[|trace|], after, mode, model, upstream(|trace|), a) && a.ended == a.at + took(|trace|)
    requires if trace == [] then a.at == start
             else RetriedAfter(trace[|trace| - 1], a, base, |trace| - 1, late(|trace|))
    ensures Attempts(history + [after], trace + [a], mode, base, model, start, took, late, upstream)
  {
    hide Made, RetriedAfter;
    var history', trace' := history + [after], trace + [a];
    forall k: nat | k < |trace'| ensures MadeAt(history', trace', k, mode, model, upstream, took) {
      if k < |trace| {
        assert MadeAt(history, trace, k, mode, model, upstream, took);
      }
    }
    forall k: nat | k + 1 < |trace'| ensures RetriedAt(trace', k, base, late) {
      if k + 1 < |trace| {
        assert RetriedAt(trace, k, base, late);
      }
    }
  }

  /** One call of the provider. */
  method AttemptOnce(b: BalancedProvider, model: string, now: int, ended: int, upstream: Upstream)
    returns (made: Attempt)
    requires b.Valid()
    modifies b`rr, b.endpoints
    ensures b.Valid() && made.at == now && made.ended == ended
    ensures Made(old(Situation(b.States(), b.rr)), Situation(b.States(), b.rr), b.mode, model, upstream, made)
  {
    hide PickMeets, Candidates, AfterCall, ReplyFor, Increment;
    ghost var states, rr := b.States(), b.rr;
    var reply, picked := b.Complete(now, ended, model, upstream);
    made := Attempt(now, ended, picked, reply);
    if picked.Free? {
      PickedInRange(states, b.mode, rr, now, model, picked);
    }
  }

  /**
    * The handler's loop: took and late say how long each call and how much longer each sleep lasts, upstream what
    * each call would come to. None is the empty response of a handler configured with a negative retry count.
    */
  method CompleteWithRetries(b: BalancedProvider, maxRetries: int, base: int, model: string, start: int,
                             took: nat -> nat, late: nat -> nat, upstream: nat -> Upstream)
    returns (reply: Option<Reply>, trace: seq<Attempt>, ghost history: seq<Situation>)
    requires b.Valid()
    modifies b`rr, b.endpoints
    ensures b.Valid() && Attempts(history, trace, b.mode, base, model, start, took, late, upstream)
    ensures history[0] == old(Situation(b.States(), b.rr)) && history[|trace|] == Situation(b.States(), b.rr)
    ensures if maxRetries < 0 then trace == [] else 1 <= |trace| <= maxRetries + 1
    ensures reply == if trace == [] then None else Some(trace[|trace| - 1].reply)
    ensures 1 <= |trace| <= maxRetries ==> Final(trace[|trace| - 1].reply)
  {
    hide Made, Attempts, ShiftLeft;
    trace := [];
    history := [Situation(b.States(), b.rr)];
    NoAttempt(history[0], b.mode, base, model, start, took, late, upstream);
    reply := None;
    var last: Option<UpstreamError> := None;
    var now := start;
    var attempt := 0;
    while attempt <= maxRetries
      invariant b.Valid() && 0 <= attempt && (attempt <= maxRetries + 1 || attempt == 0)
      invariant |trace| == attempt && |history| == attempt + 1
      invariant Attempts(history, trace, b.mode, base, model, start, took, late, upstream)
      invariant history[0] == old(Situation(b.States(), b.rr)) && history[attempt] == Situation(b.States(), b.rr)
      invariant attempt == 0 ==> reply.None? && last.None? && now == start
      invariant attempt > 0 ==>
                  && reply == Some(trace[attempt - 1].reply) && last.Some? && last.value.transient
                  && trace[attempt - 1].reply == Failed(last.value) && trace[attempt - 1].ended == now
      decreases maxRetries - attempt
    {
      if attempt > 0 {
        var delay := Delay(base, attempt, last);
        now := now + Max(delay, 0) + late(attempt);
      }
      var made := AttemptOnce(b, model, now, now + took(attempt), upstream(attempt));
      OneAttemptMore(history, trace, b.mode, base, model, start, took, late, upstream, Situation(b.States(), b.rr), made);
      trace := trace + [made];
      history := history + [Situation(b.States(), b.rr)];
      reply := Some(made.reply);
      if !made.reply.Failed? || !made.reply.error.transient {
        return;
      }
      last := Some(made.reply.error);
      now := now + took(attempt);
      attempt := attempt + 1;
    }
  }

  lemma {:induction false} NoAttempt(s: Situation, mode: Mode, base: int, model: string, start: int,
                                     took: nat -> nat, late: nat -> nat, upstream: nat -> Upstream)
    ensures Attempts([s], [], mode, base, model, start, took, late, upstream)
  {
  }

  /** Behind a busy attempt: one that finds an endpoint after the wait reported, or one as hopeless. */
  predicate Follows(prev: Attempt, next: Attempt) {
    prev.picked.Busy? ==>
      if prev.picked.wait > 0 then !next.picked.Busy? && prev.at + prev.picked.wait <= next.at
      else next.picked == Busy(0)
  }

  /** Over a whole request: behind a busy attempt with a wait the next one is not busy, behind one without it is. */
  lemma {:induction false} BusyAttempts(
      history: seq<Situation>, trace: seq<Attempt>, mode: Mode, base: int, model: string, start: int,
      took: nat -> nat, late: nat -> nat, upstream: nat -> Upstream, k: nat)
    requires Attempts(history, trace, mode, base, model, start, took, late, upstream) && k + 1 < |trace|
    ensures Follows(trace[k], trace[k + 1])
  {
    hide Candidates, StartIndex, LeastLoaded, LeastWait, AfterCall, Increment, ShiftLeft;
    assert MadeAt(history, trace, k, mode, model, upstream, took);
    assert MadeAt(history, trace, k + 1, mode, model, upstream, took);
    assert RetriedAt(trace, k, base, late);
    var a, next, states := trace[k], trace[k + 1], history[k].states;
    if a.picked.Busy? {
      if a.picked.wait > 0 {
        WaitIsExact(states, a.at, next.at, model, a.picked.wait);
      } else {
        WaitNotNegative(states, a.at, model, a.picked.wait);
        NoneServes(states, a.at, next.at, model);
      }
    }
  }

  lemma {:induction false} WaitNotNegative(states: seq<State>, now: int, model: string, wait: int)
    requires LeastWait(states, now, model, wait)
    ensures wait >= 0
  {
  }
}
