/** The fixed-window limiter in front of the sign-in routes. */
module Limiter {
  type Host(==, !new)

  datatype AttemptWindow = AttemptWindow(start: int, count: int)

  type Table = map<Host, AttemptWindow>

  const MAX_KEYS := 10_000

  datatype Config = Config(limit: int, window: int, maxKeys: int)

  predicate Expired(w: AttemptWindow, c: Config, now: int) {
    now - w.start >= c.window
  }

  predicate Fresh(t: Table, c: Config, host: Host, now: int) {
    host !in t || Expired(t[host], c, now)
  }

  /** The decision depends on this host's entry alone. */
  predicate Allows(t: Table, c: Config, host: Host, now: int) {
    Fresh(t, c, host, now) || t[host].count < c.limit
  }

  function Prune(t: Table, c: Config, now: int): Table {
    map k | k in t && !Expired(t[k], c, now) :: t[k]
  }

  /** The table after an attempt, without forgetting anything. */
  function Remember(t: Table, c: Config, host: Host, now: int): Table {
    if Fresh(t, c, host, now) then t[host := AttemptWindow(now, 1)]
    else if t[host].count < c.limit then t[host := AttemptWindow(t[host].start, t[host].count + 1)]
    else t
  }

  /** The limiter's own table: expired entries go when a counted attempt leaves it too large. */
  function Next(t: Table, c: Config, host: Host, now: int): Table {
    if Prunes(t, c, host, now) then Prune(Remember(t, c, host, now), c, now) else Remember(t, c, host, now)
  }

  predicate Prunes(t: Table, c: Config, host: Host, now: int) {
    !Fresh(t, c, host, now) && t[host].count < c.limit && |Remember(t, c, host, now)| > c.maxKeys
  }

  class Limiter {
    const config: Config
    var attempts: Table

    constructor (limit: int, window: int)
      ensures config == Config(limit, window, MAX_KEYS) && attempts == map[]
    {
      config := Config(limit, window, MAX_KEYS);
      attempts := map[];
    }

    method Allow(host: Host, now: int) returns (ok: bool)
      modifies this`attempts
      ensures ok == Allows(old(attempts), config, host, now)
      ensures attempts == Next(old(attempts), config, host, now)
    {
      if host !in attempts || now - attempts[host].start >= config.window {
        attempts := attempts[host := AttemptWindow(now, 1)];
        return true;
      }
      var entry := attempts[host];
      if entry.count >= config.limit {
        return false;
      }
      attempts := attempts[host := entry.(count := entry.count + 1)];
      if |attempts| > config.maxKeys {
        DropExpired(now);
      }
      return true;
    }

    method DropExpired(now: int)
      modifies this`attempts
      ensures attempts == Prune(old(attempts), config, now)
    {
      ghost var was := attempts;
      var keys := attempts.Keys;
      while keys != {}
        invariant keys <= was.Keys && attempts.Keys <= was.Keys && keys <= attempts.Keys
        invariant forall k :: k in attempts ==> attempts[k] == was[k]
        invariant forall k :: k in was && k !in keys ==> (k in attempts <==> !Expired(was[k], config, now))
        decreases |keys|
      {
        var key :| key in keys;
        keys := keys - {key};
        if now - attempts[key].start >= config.window {
          attempts := attempts - {key};
        }
      }
      assert attempts == Prune(was, config, now);
    }
  }

  // ---------------------------------------------------------------------------------------
  // Pruning changes no decision
  // ---------------------------------------------------------------------------------------

  /** An attempt and the time it read before it took the lock. */
  datatype Attempt = Attempt(host: Host, at: int)

  /** The attempts take the lock in the order of their time stamps. */
  predicate Monotone(events: seq<Attempt>) {
    forall i, j :: 0 <= i <= j < |events| ==> events[i].at <= events[j].at
  }

  function Run(events: seq<Attempt>, c: Config): Table {
    if events == [] then map[]
    else
      var e := events[|events| - 1];
      Next(Run(events[..|events| - 1], c), c, e.host, e.at)
  }

  /** The table of a limiter that never forgets a host. */
  function FullRun(events: seq<Attempt>, c: Config): Table {
    if events == [] then map[]
    else
      var e := events[|events| - 1];
      Remember(FullRun(events[..|events| - 1], c), c, e.host, e.at)
  }

  /** The smaller table lacks only entries that had expired by then. */
  predicate Forgets(small: Table, full: Table, c: Config, now: int) {
    && (forall k :: k in small ==> k in full && small[k] == full[k])
    && (forall k :: k in full && k !in small ==> Expired(full[k], c, now))
  }

  lemma {:induction false} StepForgets(small: Table, full: Table, c: Config, host: Host, at: int, now: int)
    requires Forgets(small, full, c, at) && Forgets(small, full, c, now)
    requires Prunes(small, c, host, at) ==> at <= now
    ensures Allows(small, c, host, at) == Allows(full, c, host, at)
    ensures Forgets(Next(small, c, host, at), Remember(full, c, host, at), c, now)
  {
    assert Fresh(small, c, host, at) == Fresh(full, c, host, at);
    assert Forgets(Remember(small, c, host, at), Remember(full, c, host, at), c, now);
  }

  /** No pruning so far was stamped later than now. */
  predicate PrunedBy(events: seq<Attempt>, c: Config, now: int) {
    events == []
    || (var before, e := events[..|events| - 1], events[|events| - 1];
        (Prunes(Run(before, c), c, e.host, e.at) ==> e.at <= now) && PrunedBy(before, c, now))
  }

  /** No attempt was overtaken by a pruning with a later stamp. */
  predicate NeverOvertaken(events: seq<Attempt>, c: Config) {
    events == []
    || (var before, e := events[..|events| - 1], events[|events| - 1];
        PrunedBy(before, c, e.at) && NeverOvertaken(before, c))
  }

  lemma {:induction false} MonotonePrunes(events: seq<Attempt>, c: Config, now: int)
    requires Monotone(events) && (events != [] ==> events[|events| - 1].at <= now)
    ensures PrunedBy(events, c, now) && NeverOvertaken(events, c)
    decreases |events|
  {
    hide Prunes, Run;
    if events != [] {
      MonotonePrunes(events[..|events| - 1], c, now);
      MonotonePrunes(events[..|events| - 1], c, events[|events| - 1].at);
    }
  }

  lemma {:induction false} RunForgets(events: seq<Attempt>, c: Config, now: int)
    requires NeverOvertaken(events, c) && PrunedBy(events, c, now)
    ensures Forgets(Run(events, c), FullRun(events, c), c, now)
    decreases |events|
  {
    assert events == [] ==> Forgets(Run(events, c), FullRun(events, c), c, now);
    hide Next, Remember, Prunes, Forgets;
    if events != [] {
      var before, e := events[..|events| - 1], events[|events| - 1];
      RunForgets(before, c, e.at);
      RunForgets(before, c, now);
      StepForgets(Run(before, c), FullRun(before, c), c, e.host, e.at, now);
    }
  }

  /** As long as no attempt takes the lock behind a pruning with a later stamp, the limiter decides like one that never
      forgets a host. */
  lemma {:induction false} PruningIsInvisible(events: seq<Attempt>, c: Config, host: Host, now: int)
    requires NeverOvertaken(events, c) && PrunedBy(events, c, now)
    ensures Allows(Run(events, c), c, host, now) == Allows(FullRun(events, c), c, host, now)
  {
    RunForgets(events, c, now);
    StepForgets(Run(events, c), FullRun(events, c), c, host, now, now);
  }

  // ---------------------------------------------------------------------------------------
  // How many attempts get through
  // ---------------------------------------------------------------------------------------

  predicate Within(at: int, from: int, c: Config) {
    from <= at < from + c.window
  }

  /** Attempts of the host that were let through from time from on, for one window length. */
  function Passed(events: seq<Attempt>, c: Config, host: Host, from: int): nat {
    if events == [] then 0
    else
      var before := events[..|events| - 1];
      var e := events[|events| - 1];
      Passed(before, c, host, from)
      + if e.host == host && Within(e.at, from, c) && Allows(Run(before, c), c, e.host, e.at) then 1 else 0
  }

  /** A window lets at least its first attempt through. */
  function PerWindow(c: Config): int {
    if c.limit >= 1 then c.limit else 1
  }

  /** What the host's entry says about the attempts counted so far. */
  predicate Bounded(t: Table, c: Config, host: Host, from: int, n: nat) {
    if host !in t then n == 0
    else
      var w := t[host];
      && 1 <= w.count <= PerWindow(c)
      && (w.start + c.window <= from ==> n == 0)
      && (w.start < from ==> n <= w.count - 1)
      && (w.start == from ==> n <= w.count)
      && (from < w.start < from + c.window ==> n <= PerWindow(c) - 1 + w.count)
      && n <= 2 * PerWindow(c) - 1
  }

  lemma {:induction false} StepBounded(t: Table, c: Config, host: Host, from: int, n: nat, e: Attempt)
    requires Bounded(t, c, host, from, n) && (host in t ==> t[host].start <= e.at)
    ensures Bounded(Remember(t, c, e.host, e.at), c, host, from,
                    n + if e.host == host && Within(e.at, from, c) && Allows(t, c, host, e.at) then 1 else 0)
    ensures host in Remember(t, c, e.host, e.at) ==> Remember(t, c, e.host, e.at)[host].start <= e.at
  {
  }

  lemma {:induction false} RunBounded(events: seq<Attempt>, c: Config, host: Host, from: int)
    requires Monotone(events)
    ensures Bounded(FullRun(events, c), c, host, from, Passed(events, c, host, from))
    ensures events != [] && host in FullRun(events, c) ==>
              FullRun(events, c)[host].start <= events[|events| - 1].at
    decreases |events|
  {
    assert events == [] ==> Bounded(FullRun(events, c), c, host, from, Passed(events, c, host, from));
    hide Remember, Bounded, Allows, Next, Within, NeverOvertaken, PrunedBy;
    if events != [] {
      var before := events[..|events| - 1];
      var e := events[|events| - 1];
      RunBounded(before, c, host, from);
      if before == [] {
        assert FullRun(before, c) == map[];
      } else {
        assert before[|before| - 1] == events[|events| - 2];
      }
      MonotonePrunes(before, c, e.at);
      PruningIsInvisible(before, c, e.host, e.at);
      StepBounded(FullRun(before, c), c, host, from, Passed(before, c, host, from), e);
    }
  }

  /** Locked in the order of their stamps, fewer than twice the limit get through for one host with stamps in any
      half-open interval of one window length. */
  lemma {:induction false} LessThanTwiceTheLimit(events: seq<Attempt>, c: Config, host: Host, from: int)
    requires Monotone(events)
    ensures Passed(events, c, host, from) < 2 * PerWindow(c)
  {
    hide FullRun;
    RunBounded(events, c, host, from);
  }

  // ---------------------------------------------------------------------------------------
  // The bound is reached
  // ---------------------------------------------------------------------------------------

  function Burst(host: Host, at: int, k: nat): seq<Attempt> {
    if k == 0 then [] else Burst(host, at, k - 1) + [Attempt(host, at)]
  }

  lemma {:induction false} Counted(t: Table, c: Config, host: Host, at: int)
    requires host in t && !Expired(t[host], c, at) && t[host].count < c.limit
    ensures Allows(t, c, host, at) && host in Next(t, c, host, at)
    ensures Next(t, c, host, at)[host] == AttemptWindow(t[host].start, t[host].count + 1)
  {
  }

  lemma {:induction false} OneMore(events: seq<Attempt>, c: Config, e: Attempt, from: int)
    ensures Run(events + [e], c) == Next(Run(events, c), c, e.host, e.at)
    ensures Passed(events + [e], c, e.host, from)
         == Passed(events, c, e.host, from)
            + if Within(e.at, from, c) && Allows(Run(events, c), c, e.host, e.at) then 1 else 0
  {
    assert (events + [e])[..|events|] == events;
  }

  lemma {:induction false} BurstPasses(events: seq<Attempt>, c: Config, host: Host, at: int, k: nat, from: int)
    requires var t := Run(events, c);
             host in t && !Expired(t[host], c, at) && t[host].count + k <= c.limit && Within(at, from, c)
    ensures var t, t' := Run(events, c), Run(events + Burst(host, at, k), c);
            host in t' && t'[host] == AttemptWindow(t[host].start, t[host].count + k)
    ensures Passed(events + Burst(host, at, k), c, host, from) == Passed(events, c, host, from) + k
  {
    hide Next, Remember, Allows, Fresh, Run, Passed;
    if k == 0 {
      assert events + [] == events;
    } else {
      var before := events + Burst(host, at, k - 1);
      BurstPasses(events, c, host, at, k - 1, from);
      assert events + Burst(host, at, k) == before + [Attempt(host, at)];
      OneMore(before, c, Attempt(host, at), from);
      Counted(Run(before, c), c, host, at);
    }
  }

  /** One attempt, the rest of its window's just before the window ends, and a full window right behind it. */
  function Squeeze(c: Config, host: Host): seq<Attempt>
    requires c.limit >= 1
  {
    [Attempt(host, 0)] + Burst(host, c.window - 1, c.limit - 1)
    + [Attempt(host, c.window)] + Burst(host, c.window, c.limit - 1)
  }

  /** The bound cannot be lowered, for any limit and any window of at least two ticks. */
  lemma {:induction false} BoundIsReached(c: Config, host: Host)
    requires c.limit >= 1 && c.window >= 2
    ensures Passed(Squeeze(c, host), c, host, c.window - 1) == 2 * PerWindow(c) - 1
  {
    hide Next, Remember, Allows;
    var from := c.window - 1;
    var first := [Attempt(host, 0)];
    var second := first + Burst(host, c.window - 1, c.limit - 1);
    var third := second + [Attempt(host, c.window)];
    assert first[..0] == [];
    FreshEntry([], c, host, 0);
    BurstPasses(first, c, host, c.window - 1, c.limit - 1, from);
    assert third[..|second|] == second;
    FreshEntry(second, c, host, c.window);
    BurstPasses(third, c, host, c.window, c.limit - 1, from);
  }

  lemma {:induction false} FreshEntry(events: seq<Attempt>, c: Config, host: Host, at: int)
    requires c.window >= 1 && Fresh(Run(events, c), c, host, at)
    ensures Allows(Run(events, c), c, host, at)
    ensures var t := Next(Run(events, c), c, host, at); host in t && t[host] == AttemptWindow(at, 1)
  {
  }

  // ---------------------------------------------------------------------------------------
  // Stamping and locking are two steps
  // ---------------------------------------------------------------------------------------

  datatype Event = Stamp(id: nat, host: Host, now: int) | Lock(id: nat)

  /** Attempts that have read the clock and wait for the lock, and those that had it, in that order. */
  datatype System = System(clock: int, waiting: map<nat, Attempt>, table: Table, locked: seq<Attempt>)

  function Start(): System {
    System(0, map[], map[], [])
  }

  /** The clock never runs back; a step that is not enabled changes nothing. */
  function Step(s: System, c: Config, e: Event): System {
    match e
    case Stamp(id, host, now) =>
      if s.clock <= now && id !in s.waiting then s.(clock := now, waiting := s.waiting[id := Attempt(host, now)]) else s
    case Lock(id) =>
      if id in s.waiting then
        var a := s.waiting[id];
        System(s.clock, s.waiting - {id}, Next(s.table, c, a.host, a.at), s.locked + [a])
      else s
  }

  function After(events: seq<Event>, c: Config): System {
    if events == [] then Start() else Step(After(events[..|events| - 1], c), c, events[|events| - 1])
  }

  lemma {:induction false} AfterOne(events: seq<Event>, e: Event, c: Config)
    ensures After(events + [e], c) == Step(After(events, c), c, e)
  {
    assert (events + [e])[..|events|] == events;
  }

  /** The table is decided by the order of locking alone. */
  lemma {:induction false} LockOrderDecides(events: seq<Event>, c: Config)
    ensures After(events, c).table == Run(After(events, c).locked, c)
  {
    hide Next;
    if events != [] {
      var before := After(events[..|events| - 1], c);
      var e := events[|events| - 1];
      LockOrderDecides(events[..|events| - 1], c);
      if e.Lock? && e.id in before.waiting {
        assert (before.locked + [before.waiting[e.id]])[..|before.locked|] == before.locked;
      }
    }
  }

  /** The clock starts at zero. */
  predicate Reachable(order: seq<Attempt>) {
    forall j :: 0 <= j < |order| ==> 0 <= order[j].at
  }

  /** The stamps of time t among the first i attempts, attempt j under id j. */
  function StampsAt(order: seq<Attempt>, t: int, i: nat): seq<Event>
    requires i <= |order|
  {
    if i == 0 then []
    else StampsAt(order, t, i - 1) + if order[i - 1].at == t then [Stamp(i - 1, order[i - 1].host, t)] else []
  }

  function StampsBefore(order: seq<Attempt>, t: nat): seq<Event> {
    if t == 0 then [] else StampsBefore(order, t - 1) + StampsAt(order, t - 1, |order|)
  }

  /** Everything stamped before t, and the first i of time t, waits; nothing has been locked. */
  predicate Stamped(s: System, order: seq<Attempt>, t: int, i: nat) {
    && s.clock <= t && s.table == map[] && s.locked == []
    && (forall j :: 0 <= j < |order| ==> (j in s.waiting <==> order[j].at < t || (order[j].at == t && j < i)))
    && (forall j :: j in s.waiting ==> j < |order| && s.waiting[j] == order[j])
  }

  lemma {:induction false} StampNext(s: System, order: seq<Attempt>, c: Config, t: int, i: nat)
    requires i < |order| && Stamped(s, order, t, i)
    ensures order[i].at == t ==> Stamped(Step(s, c, Stamp(i, order[i].host, t)), order, t, i + 1)
    ensures order[i].at != t ==> Stamped(s, order, t, i + 1)
  {
  }

  lemma {:induction false} StampLater(s: System, order: seq<Attempt>, t: int)
    requires Stamped(s, order, t, |order|)
    ensures Stamped(s, order, t + 1, 0)
  {
  }

  lemma {:induction false} StampsRun(order: seq<Attempt>, c: Config, t: nat, i: nat)
    requires i <= |order| && Reachable(order)
    ensures Stamped(After(StampsBefore(order, t) + StampsAt(order, t, i), c), order, t, i)
    decreases t, i
  {
    hide Stamped, After, Step;
    if i == 0 {
      assert StampsBefore(order, t) + [] == StampsBefore(order, t);
      if t > 0 {
        StampsRun(order, c, t - 1, |order|);
        StampLater(After(StampsBefore(order, t), c), order, t - 1);
      } else {
        NothingStamped(order, c);
      }
    } else {
      var before := StampsBefore(order, t) + StampsAt(order, t, i - 1);
      StampsRun(order, c, t, i - 1);
      StampNext(After(before, c), order, c, t, i - 1);
      if order[i - 1].at == t {
        var e := Stamp(i - 1, order[i - 1].host, t);
        assert StampsBefore(order, t) + StampsAt(order, t, i) == before + [e];
        AfterOne(before, e, c);
      } else {
        assert StampsAt(order, t, i) == StampsAt(order, t, i - 1);
      }
    }
  }

  lemma {:induction false} NothingStamped(order: seq<Attempt>, c: Config)
    requires Reachable(order)
    ensures Stamped(After([], c), order, 0, 0)
  {
  }

  function LocksOf(k: nat): seq<Event> {
    if k == 0 then [] else LocksOf(k - 1) + [Lock(k - 1)]
  }

  predicate Waits(s: System, order: seq<Attempt>, k: nat)
    requires k <= |order|
  {
    && s.locked == order[..k]
    && forall j :: k <= j < |order| ==> j in s.waiting && s.waiting[j] == order[j]
  }

  lemma {:induction false} LockNext(s: System, order: seq<Attempt>, c: Config, k: nat)
    requires k < |order| && Waits(s, order, k)
    ensures Waits(Step(s, c, Lock(k)), order, k + 1)
  {
    hide Next;
  }

  lemma {:induction false} LocksRun(order: seq<Attempt>, stamps: seq<Event>, c: Config, t: int, k: nat)
    requires k <= |order| && Stamped(After(stamps, c), order, t, 0)
    requires forall j :: 0 <= j < |order| ==> order[j].at < t
    ensures Waits(After(stamps + LocksOf(k), c), order, k)
    decreases k
  {
    hide After, Step;
    if k == 0 {
      assert stamps + [] == stamps;
    } else {
      LocksRun(order, stamps, c, t, k - 1);
      assert stamps + LocksOf(k) == (stamps + LocksOf(k - 1)) + [Lock(k - 1)];
      AfterOne(stamps + LocksOf(k - 1), Lock(k - 1), c);
      LockNext(After(stamps + LocksOf(k - 1), c), order, c, k - 1);
    }
  }

  lemma {:induction false} SomeBound(order: seq<Attempt>) returns (t: nat)
    ensures forall j :: 0 <= j < |order| ==> order[j].at < t
  {
    if order == [] {
      t := 0;
    } else {
      var last := order[|order| - 1];
      var t' := SomeBound(order[..|order| - 1]);
      t := if last.at < t' then t' else last.at + 1;
      assert forall j :: 0 <= j < |order| - 1 ==> order[j] == order[..|order| - 1][j];
    }
  }

  /** Under a clock that never runs back, attempts can take the lock in any order of their stamps whatever. */
  lemma {:induction false} EveryOrderReachable(order: seq<Attempt>, c: Config) returns (events: seq<Event>)
    requires Reachable(order)
    ensures After(events, c).locked == order && After(events, c).table == Run(order, c)
  {
    hide Stamped, After, Run;
    var t := SomeBound(order);
    StampsRun(order, c, t, 0);
    var stamps := StampsBefore(order, t) + StampsAt(order, t, 0);
    LocksRun(order, stamps, c, t, |order|);
    events := stamps + LocksOf(|order|);
    LockOrderDecides(events, c);
    assert order[..|order|] == order;
  }

  // ---------------------------------------------------------------------------------------
  // What attempts locked out of order can do
  // ---------------------------------------------------------------------------------------

  /** A host whose every window lets one attempt through. */
  predicate Single(t: Table, c: Config, host: Host, from: int, n: nat) {
    if host !in t then n == 0
    else
      && t[host].count == 1 && n <= 1
      && (t[host].start < from || c.window <= 0 ==> n == 0)
  }

  lemma {:induction false} StepSingle(t: Table, c: Config, host: Host, from: int, n: nat, e: Attempt)
    requires c.limit <= 1 && Single(t, c, host, from, n)
    requires forall h :: h in t ==> t[h].count == 1
    ensures Single(Next(t, c, e.host, e.at), c, host, from,
                   n + if e.host == host && Within(e.at, from, c) && Allows(t, c, host, e.at) then 1 else 0)
    ensures forall h :: h in Next(t, c, e.host, e.at) ==> Next(t, c, e.host, e.at)[h].count == 1
  {
  }

  lemma {:induction false} RunSingle(order: seq<Attempt>, c: Config, host: Host, from: int)
    requires c.limit <= 1
    ensures Single(Run(order, c), c, host, from, Passed(order, c, host, from))
    ensures forall h :: h in Run(order, c) ==> Run(order, c)[h].count == 1
  {
    assert order == [] ==> Single(Run(order, c), c, host, from, Passed(order, c, host, from));
    hide Next, Single, Allows, Within;
    if order != [] {
      RunSingle(order[..|order| - 1], c, host, from);
      StepSingle(Run(order[..|order| - 1], c), c, host, from, Passed(order[..|order| - 1], c, host, from),
                 order[|order| - 1]);
    }
  }

  /** Every attempt is one of these hosts'. */
  predicate Among(order: seq<Attempt>, hosts: set<Host>) {
    forall j :: 0 <= j < |order| ==> order[j].host in hosts
  }

  lemma {:induction false} RunMore(events: seq<Attempt>, c: Config, e: Attempt)
    ensures Run(events + [e], c) == Next(Run(events, c), c, e.host, e.at)
    ensures FullRun(events + [e], c) == Remember(FullRun(events, c), c, e.host, e.at)
  {
    assert (events + [e])[..|events|] == events;
  }

  /** With few hosts a counted attempt never makes the table too large, or finds no entry but its own. */
  lemma {:induction false} NothingToForget(t: Table, c: Config, hosts: set<Host>, host: Host, at: int)
    requires t.Keys <= hosts && host in hosts && (|hosts| <= c.maxKeys || |hosts| <= 1)
    ensures Next(t, c, host, at) == Remember(t, c, host, at) && Remember(t, c, host, at).Keys <= hosts
  {
    var after := Remember(t, c, host, at);
    assert |after.Keys| <= |hosts| by {
      Smaller(after.Keys, hosts);
    }
    if |hosts| <= 1 {
      forall k | k in after ensures k == host {
        Smaller({k, host}, hosts);
      }
    }
  }

  lemma {:induction false} Smaller(a: set<Host>, b: set<Host>)
    requires a <= b
    ensures |a| <= |b|
  {
    if a != {} {
      var x :| x in a;
      Smaller(a - {x}, b - {x});
    }
  }

  lemma {:induction false} FewHostsForgetNothing(order: seq<Attempt>, c: Config, hosts: set<Host>)
    requires Among(order, hosts) && (|hosts| <= c.maxKeys || |hosts| <= 1)
    ensures Run(order, c) == FullRun(order, c) && Run(order, c).Keys <= hosts
  {
    hide Next, Remember;
    if order != [] {
      var n := |order| - 1;
      FewHostsForgetNothing(order[..n], c, hosts);
      NothingToForget(Run(order[..n], c), c, hosts, order[n].host, order[n].at);
    }
  }

  /** A limit of one counts no second attempt, and only those prune. */
  lemma {:induction false} LowLimitForgetsNothing(order: seq<Attempt>, c: Config)
    requires c.limit <= 1
    ensures Run(order, c) == FullRun(order, c)
  {
    if order != [] {
      var n := |order| - 1;
      LowLimitForgetsNothing(order[..n], c);
      RunSingle(order[..n], c, order[n].host, 0);
    }
  }

  lemma {:induction false} OpensEntry(t: Table, c: Config, host: Host, at: int)
    requires host !in t
    ensures Next(t, c, host, at) == Remember(t, c, host, at) == t[host := AttemptWindow(at, 1)]
  {
  }

  lemma {:induction false} CountsAlone(c: Config, a: Host, first: int, at: int, k: int)
    requires k < c.limit && at - first < c.window
    ensures var t, t' := map[a := AttemptWindow(first, k)], map[a := AttemptWindow(first, k + 1)];
            Next(t, c, a, at) == Remember(t, c, a, at) == t'
  {
    assert Prune(map[a := AttemptWindow(first, k + 1)], c, at) == map[a := AttemptWindow(first, k + 1)];
  }

  /** An order of attempts of these hosts with the table it leads to, remembered whole. */
  predicate Whole(order: seq<Attempt>, c: Config, hosts: set<Host>, t: Table) {
    Run(order, c) == t && FullRun(order, c) == t && Reachable(order) && Among(order, hosts)
  }

  lemma {:induction false} WholeMore(order: seq<Attempt>, c: Config, hosts: set<Host>, t: Table, e: Attempt, t': Table)
    requires Whole(order, c, hosts, t) && e.host in hosts && 0 <= e.at
    requires Next(t, c, e.host, e.at) == Remember(t, c, e.host, e.at) == t'
    ensures Whole(order + [e], c, hosts, t')
  {
    hide Next, Remember;
    RunMore(order, c, e);
  }

  /** The host uses its window up with a first stamp and k more of time zero. */
  lemma {:induction false} Exhausts(c: Config, hosts: set<Host>, a: Host, first: int, k: nat) returns (order: seq<Attempt>)
    requires a in hosts && k < c.limit && first >= 0 && 0 - first < c.window
    ensures Whole(order, c, hosts, map[a := AttemptWindow(first, k + 1)])
  {
    if k == 0 {
      OpensEntry(map[], c, a, first);
      assert map[][a := AttemptWindow(first, 1)] == map[a := AttemptWindow(first, 1)];
      WholeMore([], c, hosts, map[], Attempt(a, first), map[a := AttemptWindow(first, 1)]);
      order := [] + [Attempt(a, first)];
    } else {
      hide Whole;
      var before := Exhausts(c, hosts, a, first, k - 1);
      CountsAlone(c, a, first, 0, k);
      WholeMore(before, c, hosts, map[a := AttemptWindow(first, k)], Attempt(a, 0),
                map[a := AttemptWindow(first, k + 1)]);
      order := before + [Attempt(a, 0)];
    }
  }

  /** Every other host opens a window. */
  lemma {:induction false} AllOpen(
    before: seq<Attempt>, c: Config, hosts: set<Host>, t: Table, others: set<Host>, at: nat)
    returns (order: seq<Attempt>, t': Table)
    requires Whole(before, c, hosts, t) && others !! t.Keys && others <= hosts
    ensures Whole(order, c, hosts, t') && t'.Keys == t.Keys + others
    ensures forall h :: h in t' ==> t'[h] == if h in others then AttemptWindow(at, 1) else t[h]
    decreases others
  {
    hide Whole, Next, Remember;
    if others == {} {
      order, t' := before, t;
    } else {
      var h :| h in others;
      var rest, t1 := AllOpen(before, c, hosts, t, others - {h}, at);
      OpensEntry(t1, c, h, at);
      order, t' := rest + [Attempt(h, at)], t1[h := AttemptWindow(at, 1)];
      WholeMore(rest, c, hosts, t1, Attempt(h, at), t');
    }
  }

  /** A host uses its window up, every other host opens one, and one of them comes back and prunes the first host away:
      an attempt of that host that was overtaken by all this passes, where it should not. */
  lemma {:induction false} PruningShowsOutOfOrder(c: Config, hosts: set<Host>)
    returns (events: seq<Event>, order: seq<Attempt>, a: Host)
    requires c.limit >= 2 && |hosts| > c.maxKeys && |hosts| >= 2
    ensures a in hosts && Among(order, hosts) && Reachable(order)
    ensures After(events, c).locked == order + [Attempt(a, 0)]
    ensures Allows(Run(order, c), c, a, 0) && !Allows(FullRun(order, c), c, a, 0)
  {
    hide Run, FullRun, After, Next, Remember, Allows;
    a :| a in hosts;
    assert |hosts - {a}| == |hosts| - 1;
    var b :| b in hosts - {a};
    var first := if c.window >= 1 then 0 else 1 - c.window;
    var late := first + if c.window >= 1 then c.window else 0;
    var before := Exhausts(c, hosts, a, first, c.limit - 1);
    var all, t := AllOpen(before, c, hosts, map[a := AttemptWindow(first, c.limit)], hosts - {a}, first + late);
    order := all + [Attempt(b, late)];
    RunMore(all, c, Attempt(b, late));
    LastPrunes(t, c, hosts, a, b, first, late);
    events := EveryOrderReachable(order + [Attempt(a, 0)], c);
  }

  lemma {:induction false} LastPrunes(t: Table, c: Config, hosts: set<Host>, a: Host, b: Host, first: int, late: int)
    requires c.limit >= 2 && |hosts| > c.maxKeys && t.Keys == hosts
    requires a in hosts && t[a] == AttemptWindow(first, c.limit)
    requires b in hosts && b != a && t[b] == AttemptWindow(first + late, 1)
    requires 0 - first < c.window <= late - first
    ensures Allows(Next(t, c, b, late), c, a, 0) && !Allows(Remember(t, c, b, late), c, a, 0)
  {
    assert Remember(t, c, b, late).Keys == hosts;
  }

  /** Over all reachable orders of attempts of some hosts, forgetting never shows exactly when the limit is at most one
      or the hosts fit the table. */
  lemma {:induction false} PruningIsInvisibleIff(c: Config, hosts: set<Host>)
    ensures (forall order: seq<Attempt>, host: Host, now: int ::
               Reachable(order) && Among(order, hosts) && host in hosts && 0 <= now ==>
                 Allows(Run(order, c), c, host, now) == Allows(FullRun(order, c), c, host, now))
       <==> c.limit <= 1 || |hosts| <= c.maxKeys || |hosts| <= 1
  {
    hide Run, FullRun, Allows, After;
    if c.limit <= 1 || |hosts| <= c.maxKeys || |hosts| <= 1 {
      forall order: seq<Attempt> | Among(order, hosts) ensures Run(order, c) == FullRun(order, c) {
        if c.limit <= 1 {
          LowLimitForgetsNothing(order, c);
        } else {
          FewHostsForgetNothing(order, c, hosts);
        }
      }
    } else {
      var events, order, a := PruningShowsOutOfOrder(c, hosts);
      assert Allows(Run(order, c), c, a, 0) != Allows(FullRun(order, c), c, a, 0);
    }
  }

  /** A limiter as constructed forgets invisibly exactly up to ten thousand hosts, or when it lets one attempt through. */
  lemma {:induction false} TenThousandHosts(limit: int, window: int, hosts: set<Host>)
    ensures (forall order: seq<Attempt>, host: Host, now: int ::
               Reachable(order) && Among(order, hosts) && host in hosts && 0 <= now ==>
                 Allows(Run(order, Config(limit, window, MAX_KEYS)), Config(limit, window, MAX_KEYS), host, now)
                 == Allows(FullRun(order, Config(limit, window, MAX_KEYS)), Config(limit, window, MAX_KEYS), host, now))
       <==> limit <= 1 || |hosts| <= 10_000
  {
    hide Run, FullRun, Allows;
    PruningIsInvisibleIff(Config(limit, window, MAX_KEYS), hosts);
  }

  /** The start of window k. */
  function WindowStart(c: Config, k: nat): int {
    if k == 0 then 0 else WindowStart(c, k - 1) + c.window
  }

  /** k windows, each opened by an attempt in time and then taking one that was stamped at the very beginning. */
  function Stragglers(c: Config, host: Host, k: nat): seq<Attempt> {
    if k == 0 then [] else Stragglers(c, host, k - 1) + [Attempt(host, WindowStart(c, k))] + [Attempt(host, 0)]
  }

  /** An attempt past the host's window opens a new one, and an old stamp is counted in it. */
  lemma {:induction false} StragglerPasses(before: seq<Attempt>, c: Config, host: Host, at: int)
    requires c.limit >= 2 && c.window >= 1 && at >= c.window && Fresh(Run(before, c), c, host, at)
    ensures var order := before + [Attempt(host, at)] + [Attempt(host, 0)];
            && Passed(order, c, host, 0) == Passed(before, c, host, 0) + 1
            && host in Run(order, c) && Run(order, c)[host].start == at
  {
    hide Next, Allows, Run, Passed, Fresh;
    var reopened := before + [Attempt(host, at)];
    OneMore(before, c, Attempt(host, at), 0);
    FreshEntry(before, c, host, at);
    OneMore(reopened, c, Attempt(host, 0), 0);
    Counted(Run(reopened, c), c, host, 0);
  }

  /** One instant can be let through any number of times. */
  lemma {:induction false} StragglersPass(c: Config, host: Host, k: nat)
    requires c.limit >= 2 && c.window >= 1
    ensures var t := Run(Stragglers(c, host, k), c);
            && Passed(Stragglers(c, host, k), c, host, 0) == k
            && (k == 0 ==> host !in t)
            && (k > 0 ==> host in t && t[host].start == WindowStart(c, k) && t[host].start >= c.window)
    ensures Reachable(Stragglers(c, host, k))
  {
    hide Run, Passed, Next, Allows;
    if k == 0 {
      NothingRun(c, host, 0);
    } else {
      StragglersPass(c, host, k - 1);
      assert WindowStart(c, k) == WindowStart(c, k - 1) + c.window;
      StragglerPasses(Stragglers(c, host, k - 1), c, host, WindowStart(c, k));
    }
  }

  lemma {:induction false} NothingRun(c: Config, host: Host, from: int)
    ensures Run([], c) == map[] && Passed([], c, host, from) == 0
  {
  }

  /** Whatever the order of locking, the bound of twice the limit holds exactly for limits of at most one. */
  lemma {:induction false} BoundForEveryOrderIff(c: Config, host: Host)
    requires c.window >= 1
    ensures (forall order: seq<Attempt>, from: int :: Reachable(order) ==> Passed(order, c, host, from) < 2 * PerWindow(c))
       <==> c.limit <= 1
  {
    hide Run, Passed;
    if c.limit <= 1 {
      forall order, from ensures Passed(order, c, host, from) < 2 * PerWindow(c) {
        RunSingle(order, c, host, from);
      }
    } else {
      var k := 2 * PerWindow(c);
      StragglersPass(c, host, k);
      assert Passed(Stragglers(c, host, k), c, host, 0) == k;
    }
  }
}
