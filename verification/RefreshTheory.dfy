/** Whole-run properties of refresh-token rotation: families are linear chains, exactly when replaying a
    rotated token ends its family, and what sign-out ends. */
module RefreshTheory {
  import opened Wrappers
  import opened RefreshTokens

  // ---------------------------------------------------------------------------------------
  // Every family is one chain
  // ---------------------------------------------------------------------------------------

  /** The i-th token of a family's replacement chain: it carries the root's user and expiry,
      every token but the last names its successor and is revoked. */
  ghost predicate Link(tokens: Table, family: Family, chain: seq<Hash>, i: nat)
    requires i < |chain|
  {
    && chain[i] in tokens && chain[0] in tokens
    && var t, root := tokens[chain[i]], tokens[chain[0]];
       && t.family == family && t.user == root.user && t.expires == root.expires
       && t.replacedBy == (if i + 1 < |chain| then Some(chain[i + 1]) else None)
       && (i + 1 < |chain| ==> t.revoked.Some?)
  }

  ghost predicate IsChain(tokens: Table, family: Family, chain: seq<Hash>) {
    && chain != []
    && (forall i {:trigger Link(tokens, family, chain, i)} :: 0 <= i < |chain| ==> Link(tokens, family, chain, i))
    && (forall i, j :: 0 <= i < j < |chain| ==> chain[i] != chain[j])
  }

  ghost predicate OnChain(tokens: Table, chains: map<Family, seq<Hash>>, h: Hash)
    requires h in tokens
  {
    tokens[h].family in chains && h in chains[tokens[h].family]
  }

  /** `chains` lists every family's tokens in the order they replaced each other. */
  ghost predicate Chained(tokens: Table, chains: map<Family, seq<Hash>>) {
    && (forall f {:trigger IsChain(tokens, f, chains[f])} :: f in chains ==> IsChain(tokens, f, chains[f]))
    && (forall h {:trigger OnChain(tokens, chains, h)} :: h in tokens ==> OnChain(tokens, chains, h))
  }

  /** What a request read is still what the table says, but for its revocation columns. */
  ghost predicate Current(tokens: Table, r: Request) {
    && r.hash in tokens
    && tokens[r.hash].family == r.found.family
    && tokens[r.hash].user == r.found.user
    && tokens[r.hash].expires == r.found.expires
  }

  ghost predicate StampedBy(r: Request, clock: Time) {
    r.stamp.Some? ==> r.stamp.value <= clock
  }

  ghost predicate Sound(s: State, chains: map<Family, seq<Hash>>) {
    && Chained(s.tokens, chains)
    && forall id {:trigger s.requests[id]} :: id in s.requests ==>
         Current(s.tokens, s.requests[id]) && StampedBy(s.requests[id], s.clock)
  }

  /** A table that differs only by revocations. */
  ghost predicate OnlyRevokes(before: Table, after: Table) {
    && before.Keys == after.Keys
    && forall h :: h in before ==>
         && after[h].(revoked := before[h].revoked) == before[h]
         && (before[h].revoked.Some? ==> after[h].revoked.Some?)
  }

  lemma {:induction false} RevocationsKeepChains(before: Table, after: Table, chains: map<Family, seq<Hash>>)
    requires Chained(before, chains) && OnlyRevokes(before, after)
    ensures Chained(after, chains)
  {
    forall f | f in chains
      ensures IsChain(after, f, chains[f])
    {
      assert IsChain(before, f, chains[f]);
      forall i | 0 <= i < |chains[f]|
        ensures Link(after, f, chains[f], i)
      {
        assert Link(before, f, chains[f], i);
      }
    }
    forall h | h in after
      ensures OnChain(after, chains, h)
    {
      assert OnChain(before, chains, h);
    }
  }

  /** The token that may still be rotated is the last one of its chain. */
  lemma {:induction false} UnreplacedIsLast(tokens: Table, chains: map<Family, seq<Hash>>, h: Hash)
    requires Chained(tokens, chains) && h in tokens && tokens[h].replacedBy.None?
    ensures var f := tokens[h].family;
            f in chains && chains[f] != [] && chains[f][|chains[f]| - 1] == h && IsChain(tokens, f, chains[f])
  {
    assert OnChain(tokens, chains, h);
    var f := tokens[h].family;
    var chain := chains[f];
    assert IsChain(tokens, f, chain);
    var i :| 0 <= i < |chain| && chain[i] == h;
    assert Link(tokens, f, chain, i);
  }

  lemma {:induction false} RotationExtendsChain(
    tokens: Table, chains: map<Family, seq<Hash>>, presented: Hash, nextHash: Hash, next: Token, now: Time)
    returns (chains': map<Family, seq<Hash>>)
    requires Chained(tokens, chains)
    requires Rotate(tokens, presented, nextHash, next, now).1.None?
    requires next.expires == tokens[presented].expires
    ensures Chained(Rotate(tokens, presented, nextHash, next, now).0, chains')
  {
    var f := tokens[presented].family;
    var after := Rotate(tokens, presented, nextHash, next, now).0;
    UnreplacedIsLast(tokens, chains, presented);
    var chain := chains[f];
    var n := |chain|;
    chains' := chains[f := chain + [nextHash]];
    assert Link(tokens, f, chain, n - 1) && Link(tokens, f, chain, 0);
    forall g | g in chains'
      ensures IsChain(after, g, chains'[g])
    {
      assert IsChain(tokens, g, chains[g]);
      forall i | 0 <= i < |chains'[g]|
        ensures Link(after, g, chains'[g], i)
      {
        if i < |chains[g]| {
          assert Link(tokens, g, chains[g], i) && Link(tokens, g, chains[g], 0);
          assert g != f ==> chains[g][i] != presented;
        }
      }
      ChainStaysDistinct(tokens, g, chains[g], nextHash);
    }
    forall h | h in after
      ensures OnChain(after, chains', h)
    {
      if h == nextHash {
        assert chains'[f][n] == h;
      } else {
        assert OnChain(tokens, chains, h);
        var i :| 0 <= i < |chains[tokens[h].family]| && chains[tokens[h].family][i] == h;
        assert chains'[tokens[h].family][i] == h;
      }
    }
  }

  lemma {:induction false} ChainStaysDistinct(tokens: Table, f: Family, chain: seq<Hash>, h: Hash)
    requires IsChain(tokens, f, chain) && h !in tokens
    ensures forall i, j :: 0 <= i < j < |chain + [h]| ==> (chain + [h])[i] != (chain + [h])[j]
  {
    forall i | 0 <= i < |chain|
      ensures chain[i] != h
    {
      assert Link(tokens, f, chain, i);
    }
  }

  lemma {:induction false} LoginStartsChain(tokens: Table, chains: map<Family, seq<Hash>>, h: Hash, t: Token)
    returns (chains': map<Family, seq<Hash>>)
    requires Chained(tokens, chains) && h !in tokens && !HasFamily(tokens, t.family)
    requires t.replacedBy.None? && t.revoked.None?
    ensures Chained(tokens[h := t], chains')
  {
    var after := tokens[h := t];
    chains' := chains[t.family := [h]];
    forall f | f in chains'
      ensures IsChain(after, f, chains'[f])
    {
      if f == t.family {
        assert Link(after, f, [h], 0);
      } else {
        assert IsChain(tokens, f, chains[f]);
        forall i | 0 <= i < |chains[f]|
          ensures Link(after, f, chains[f], i)
        {
          assert Link(tokens, f, chains[f], i);
        }
      }
    }
    forall k | k in after
      ensures OnChain(after, chains', k)
    {
      if k != h {
        assert OnChain(tokens, chains, k);
      }
    }
  }

  /** Tokens are never deleted and never change family, user or expiry. */
  ghost predicate KeepsIdentity(before: Table, after: Table) {
    forall h :: h in before ==>
      && h in after && after[h].family == before[h].family
      && after[h].user == before[h].user && after[h].expires == before[h].expires
  }

  lemma {:induction false} StepKeepsIdentity(s: State, e: Event)
    ensures KeepsIdentity(s.tokens, Step(s, e).0.tokens)
    ensures s.clock <= Step(s, e).0.clock
  {
  }

  lemma {:induction false} StepKeepsSound(s: State, e: Event, chains: map<Family, seq<Hash>>)
    returns (chains': map<Family, seq<Hash>>)
    requires Sound(s, chains)
    ensures Sound(Step(s, e).0, chains')
  {
    chains' := chains;
    var after := Step(s, e).0;
    StepKeepsIdentity(s, e);
    if Enabled(s, e) {
      match e
      case Login(user, hash, family, now) =>
        if hash !in s.tokens {
          chains' := LoginStartsChain(s.tokens, chains, hash, FreshToken(family, user, now, now + REFRESH_LIFETIME));
        }
      case BeginRefresh(id, hash) =>
      case StampRefresh(id, userFound, now) =>
      case FinishRefresh(id, nextHash) =>
        var r := s.requests[id];
        var next := NextToken(r, r.stamp.value);
        if Rotate(s.tokens, r.hash, nextHash, next, r.stamp.value).1.None? {
          chains' := RotationExtendsChain(s.tokens, chains, r.hash, nextHash, next, r.stamp.value);
        } else {
          RevocationsKeepChains(s.tokens, after.tokens, chains);
        }
      case Logout(hash, now) => RevocationsKeepChains(s.tokens, after.tokens, chains);
      case LogoutAll(user, now) => RevocationsKeepChains(s.tokens, after.tokens, chains);
    }
  }

  /** After any run of logins, refreshes, logouts and logout-alls, with refreshes interleaved
      in any way, every family is one linear replacement chain. */
  lemma {:induction false} RunKeepsSound(s: State, events: seq<Event>, chains: map<Family, seq<Hash>>)
    returns (chains': map<Family, seq<Hash>>)
    requires Sound(s, chains)
    ensures Sound(Run(s, events), chains')
    decreases |events|
  {
    chains' := chains;
    if events != [] {
      chains' := StepKeepsSound(s, events[0], chains);
      chains' := RunKeepsSound(Step(s, events[0]).0, events[1..], chains');
    }
  }

  lemma {:induction false} EveryRunIsChained(events: seq<Event>) returns (chains: map<Family, seq<Hash>>)
    ensures Sound(Run(State(map[], map[], 0), events), chains)
  {
    chains := RunKeepsSound(State(map[], map[], 0), events, map[]);
  }

  lemma {:induction false} AtMostOneLive(tokens: Table, chains: map<Family, seq<Hash>>, g: Hash, h: Hash)
    requires Chained(tokens, chains)
    requires g in tokens && h in tokens && tokens[g].family == tokens[h].family
    requires tokens[g].revoked.None? && tokens[h].revoked.None?
    ensures g == h
  {
    LiveIsLast(tokens, chains, g);
    LiveIsLast(tokens, chains, h);
  }

  lemma {:induction false} LiveIsLast(tokens: Table, chains: map<Family, seq<Hash>>, h: Hash)
    requires Chained(tokens, chains) && h in tokens && tokens[h].revoked.None?
    ensures tokens[h].replacedBy.None?
    ensures var f := tokens[h].family;
            f in chains && chains[f] != [] && chains[f][|chains[f]| - 1] == h && IsChain(tokens, f, chains[f])
  {
    assert OnChain(tokens, chains, h);
    var f := tokens[h].family;
    var chain := chains[f];
    assert IsChain(tokens, f, chain);
    var i :| 0 <= i < |chain| && chain[i] == h;
    assert Link(tokens, f, chain, i);
    UnreplacedIsLast(tokens, chains, h);
  }

  // ---------------------------------------------------------------------------------------
  // When a refresh succeeds
  // ---------------------------------------------------------------------------------------

  /** A refresh goes through exactly for the live token of its family, stamped before its expiry (with an unused
      next hash); the family/user mismatch is never the reason it fails. */
  lemma {:induction false} RefreshSucceedsIff(s: State, chains: map<Family, seq<Hash>>, id: nat, nextHash: Hash)
    requires Sound(s, chains) && Enabled(s, FinishRefresh(id, nextHash))
    ensures var r := s.requests[id];
            var h, f, stamp := r.hash, r.found.family, r.stamp.value;
            var (after, reaction) := Step(s, FinishRefresh(id, nextHash));
            && h in s.tokens
            && (reaction == Refreshed(f)
                <==> s.tokens[h].revoked.None? && stamp < s.tokens[h].expires && nextHash !in s.tokens)
            && (reaction == Refreshed(f) ==>
                  && after.tokens.Keys == s.tokens.Keys + {nextHash}
                  && after.tokens[nextHash].revoked.None? && after.tokens[nextHash].family == f
                  && after.tokens[nextHash].expires == s.tokens[h].expires
                  && after.tokens[h].revoked == Some(stamp) && after.tokens[h].replacedBy == Some(nextHash))
            && Rotate(s.tokens, h, nextHash, NextToken(r, stamp), stamp).1 != Some(Mismatch)
  {
    var r := s.requests[id];
    assert Current(s.tokens, r);
    if s.tokens[r.hash].revoked.None? {
      LiveIsLast(s.tokens, chains, r.hash);
    }
  }

  /** The whole table a finished refresh leaves: the live token replaced by one of the same family, user and expiry; or,
      behind a replay before the expiry, the family revoked; or no change. */
  lemma {:induction false} FinishStores(s: State, chains: map<Family, seq<Hash>>, id: nat, nextHash: Hash)
    requires Sound(s, chains) && Enabled(s, FinishRefresh(id, nextHash)) && s.requests[id].hash in s.tokens
    ensures var h, stamp := s.requests[id].hash, s.requests[id].stamp.value;
            var t, after := s.tokens[h], Step(s, FinishRefresh(id, nextHash)).0;
            && after.requests == s.requests - {id} && after.clock == s.clock
            && (stamp < t.expires && t.revoked.None? && nextHash !in s.tokens ==>
                  after.tokens == s.tokens[h := Token(t.family, t.user, t.issued, t.expires, Some(stamp), Some(nextHash))]
                                          [nextHash := Token(t.family, t.user, stamp, t.expires, None, None)])
            && (stamp < t.expires && t.replacedBy.Some? ==>
                  && after.tokens.Keys == s.tokens.Keys
                  && forall g :: g in s.tokens ==>
                       after.tokens[g] == if s.tokens[g].family == t.family && s.tokens[g].revoked.None?
                                          then s.tokens[g].(revoked := Some(stamp)) else s.tokens[g])
            && (stamp >= t.expires || (t.revoked.Some? && t.replacedBy.None?) || (t.revoked.None? && nextHash in s.tokens) ==>
                  after.tokens == s.tokens)
  {
    var r := s.requests[id];
    assert Current(s.tokens, r);
    if s.tokens[r.hash].revoked.None? {
      LiveIsLast(s.tokens, chains, r.hash);
    }
  }

  /** Before it finishes a refresh changes no token: it remembers what it read, and then the clock, unless the token is
      unknown or its user gone. */
  lemma {:induction false} BeginningStores(s: State, id: nat, h: Hash, userFound: bool, now: Time)
    ensures Step(s, BeginRefresh(id, h)).0
         == if h in s.tokens then s.(requests := s.requests[id := Request(h, s.tokens[h], None)]) else s
    ensures id in s.requests && s.requests[id].stamp == None && s.clock <= now ==>
              var r := s.requests[id];
              Step(s, StampRefresh(id, userFound, now)).0
              == State(s.tokens, if userFound then s.requests[id := Request(r.hash, r.found, Some(now))] else s.requests - {id}, now)
  {
  }

  /** A session is refreshable for thirty days of seconds from its login on, and no longer. */
  lemma {:induction false} LoginLastsThirtyDays(
    s: State, user: User, h: Hash, family: Family, at: Time, id: nat, later: Time, nextHash: Hash)
    requires Enabled(s, Login(user, h, family, at)) && s.clock <= later
    requires h !in s.tokens && nextHash !in s.tokens && nextHash != h
    ensures var s1 := Step(s, Login(user, h, family, at)).0;
            var s3 := Step(Step(s1, BeginRefresh(id, h)).0, StampRefresh(id, true, later)).0;
            && s1 == s.(tokens := s.tokens[h := Token(family, user, at, at + 2_592_000, None, None)])
            && (Step(s3, FinishRefresh(id, nextHash)).1 == Refreshed(family) <==> later < at + 2_592_000)
            && (Step(s3, FinishRefresh(id, nextHash)).1 == Refused <==> later >= at + 2_592_000)
  {
  }

  // ---------------------------------------------------------------------------------------
  // Dead families
  // ---------------------------------------------------------------------------------------

  /** A request that read the clock before the token's expiry and has not rotated it yet. */
  ghost predicate Early(s: State, id: nat, h: Hash)
    requires h in s.tokens
  {
    && id in s.requests && s.requests[id].hash == h
    && s.requests[id].stamp.Some? && s.requests[id].stamp.value < s.tokens[h].expires
  }

  /** The token may still be rotated: it is not revoked, and the clock or a request in flight is before its expiry. */
  ghost predicate Rotatable(s: State, h: Hash)
    requires h in s.tokens
  {
    s.tokens[h].revoked.None? && (s.clock < s.tokens[h].expires || exists id :: Early(s, id, h))
  }

  ghost predicate Dead(s: State, family: Family) {
    && HasFamily(s.tokens, family)
    && forall h {:trigger Rotatable(s, h)} :: h in s.tokens && s.tokens[h].family == family ==> !Rotatable(s, h)
  }

  lemma {:induction false} DeadStaysDead(s: State, e: Event, chains: map<Family, seq<Hash>>, family: Family)
    requires Sound(s, chains) && Dead(s, family)
    ensures Dead(Step(s, e).0, family)
    ensures Step(s, e).1 != Refreshed(family) && Step(s, e).1 != LoggedIn(family)
  {
    StepKeepsIdentity(s, e);
    var after := Step(s, e).0;
    var g :| g in s.tokens && s.tokens[g].family == family;
    assert g in after.tokens;
    if e.FinishRefresh? && Enabled(s, e) && s.requests[e.id].found.family == family {
      DeadRefusesRotation(s, e.id, e.nextHash, family);
    }
    forall h | h in after.tokens && after.tokens[h].family == family
      ensures !Rotatable(after, h)
    {
      assert h in s.tokens && s.tokens[h].family == family;
      assert !Rotatable(s, h);
      if id :| Early(after, id, h) {
        if id in s.requests && s.requests[id] == after.requests[id] {
          assert Early(s, id, h) || s.tokens[h].revoked.Some? || s.clock < s.tokens[h].expires;
        }
      }
    }
  }

  lemma {:induction false} DeadRefusesRotation(s: State, id: nat, nextHash: Hash, family: Family)
    requires Dead(s, family) && Enabled(s, FinishRefresh(id, nextHash))
    requires Current(s.tokens, s.requests[id]) && s.requests[id].found.family == family
    ensures Step(s, FinishRefresh(id, nextHash)).1 == Refused
  {
    var h := s.requests[id].hash;
    assert !Rotatable(s, h);
    assert s.requests[id].stamp.value < s.tokens[h].expires ==> Early(s, id, h);
  }

  lemma {:induction false} DeadForever(s: State, events: seq<Event>, chains: map<Family, seq<Hash>>, family: Family)
    requires Sound(s, chains) && Dead(s, family)
    ensures Dead(Run(s, events), family)
    ensures Refreshed(family) !in Reactions(s, events) && LoggedIn(family) !in Reactions(s, events)
    decreases |events|
  {
    hide Step, Dead, Sound;
    if events != [] {
      DeadStaysDead(s, events[0], chains, family);
      var chains' := StepKeepsSound(s, events[0], chains);
      DeadForever(Step(s, events[0]).0, events[1..], chains', family);
    }
  }

  /** A family that is not dead can be refreshed: some continuation does it. */
  lemma {:induction false} NotDeadRefreshes(
    s: State, chains: map<Family, seq<Hash>>, family: Family, nextHash: Hash) returns (later: seq<Event>)
    requires Sound(s, chains) && HasFamily(s.tokens, family) && !Dead(s, family) && nextHash !in s.tokens
    ensures Refreshed(family) in Reactions(s, later)
  {
    var h :| h in s.tokens && s.tokens[h].family == family && Rotatable(s, h);
    if id :| Early(s, id, h) {
      assert Current(s.tokens, s.requests[id]);
      RefreshSucceedsIff(s, chains, id, nextHash);
      later := [FinishRefresh(id, nextHash)];
      Reacts(s, later);
    } else {
      var id := 0;
      later := [BeginRefresh(id, h), StampRefresh(id, true, s.clock), FinishRefresh(id, nextHash)];
      var s1 := Step(s, later[0]).0;
      var s2 := Step(s1, later[1]).0;
      assert s1.requests[id] == Request(h, s.tokens[h], None) && s1.tokens == s.tokens;
      assert s2.requests[id] == Request(h, s.tokens[h], Some(s.clock)) && s2.tokens == s.tokens;
      LiveIsLast(s.tokens, chains, h);
      assert Step(s2, later[2]).1 == Refreshed(family);
      Reacts(s, later);
    }
  }

  lemma {:induction false} Reacts(s: State, events: seq<Event>)
    ensures events != [] ==> Step(s, events[0]).1 in Reactions(s, events)
    ensures |events| == 3 ==> Step(Step(Step(s, events[0]).0, events[1]).0, events[2]).1 in Reactions(s, events)
  {
    hide Step;
    if events != [] {
      assert Reactions(s, events)[0] == Step(s, events[0]).1;
    }
    if |events| == 3 {
      var s1 := Step(s, events[0]).0;
      var s2 := Step(s1, events[1]).0;
      var rest := events[1..];
      assert Reactions(s2, rest[1..])[0] == Step(s2, events[2]).1;
      assert Reactions(s1, rest) == [Step(s1, rest[0]).1] + Reactions(s2, rest[1..]);
      assert Reactions(s, events) == [Step(s, events[0]).1] + Reactions(s1, rest);
    }
  }

  /** Dead is exact: while some hash is unused, a family is dead exactly when no continuation refreshes it. */
  lemma {:induction false} DeadIffNeverRefreshed(
    s: State, chains: map<Family, seq<Hash>>, family: Family, nextHash: Hash)
    requires Sound(s, chains) && HasFamily(s.tokens, family) && nextHash !in s.tokens
    ensures Dead(s, family) <==> forall later :: Refreshed(family) !in Reactions(s, later)
  {
    hide Sound, Dead;
    if Dead(s, family) {
      forall later ensures Refreshed(family) !in Reactions(s, later) {
        DeadForever(s, later, chains, family);
      }
    } else {
      var later := NotDeadRefreshes(s, chains, family, nextHash);
    }
  }

  // ---------------------------------------------------------------------------------------
  // Replays
  // ---------------------------------------------------------------------------------------

  /** Some request stamped before the expiry is still to rotate the family's live token. */
  ghost predicate EarlyOnLive(s: State, family: Family) {
    exists id, h :: h in s.tokens && s.tokens[h].family == family && s.tokens[h].revoked.None? && Early(s, id, h)
  }

  lemma {:induction false} RevokedIsDead(s: State, family: Family)
    requires HasFamily(s.tokens, family)
    requires forall h :: h in s.tokens && s.tokens[h].family == family ==> s.tokens[h].revoked.Some?
    ensures Dead(s, family)
  {
  }

  /** Past its expiry a family is dead exactly when no early request is left. */
  lemma {:induction false} ExpiredDeadIff(s: State, family: Family)
    requires HasFamily(s.tokens, family)
    requires forall h :: h in s.tokens && s.tokens[h].family == family ==> s.tokens[h].expires <= s.clock
    ensures Dead(s, family) <==> !EarlyOnLive(s, family)
  {
    forall id, h | h in s.tokens && s.tokens[h].family == family && s.tokens[h].revoked.None? && Early(s, id, h)
      ensures Rotatable(s, h)
    {
    }
    if h :| h in s.tokens && s.tokens[h].family == family && Rotatable(s, h) {
      var id :| Early(s, id, h);
      assert EarlyOnLive(s, family);
    }
  }

  /** A replay that read the clock before the expiry revokes the family: no refresh of it succeeds in any continuation,
      whatever was in flight. A replay that read it at the expiry or later changes no token, and ends the family
      exactly when no earlier-stamped request on the live token is in flight. Other families are untouched. */
  lemma {:induction false} ReplayEndsFamilyIff(s: State, chains: map<Family, seq<Hash>>, id: nat, nextHash: Hash)
    requires Sound(s, chains) && Enabled(s, FinishRefresh(id, nextHash))
    requires s.requests[id].hash in s.tokens && s.tokens[s.requests[id].hash].replacedBy.Some?
    ensures var t, stamp := s.tokens[s.requests[id].hash], s.requests[id].stamp.value;
            var (after, reaction) := Step(s, FinishRefresh(id, nextHash));
            && reaction == Refused
            && (stamp < t.expires ==> Dead(after, t.family))
            && (t.expires <= stamp ==>
                  after.tokens == s.tokens && (Dead(after, t.family) <==> !EarlyOnLive(s, t.family)))
            && (forall h :: h in s.tokens && s.tokens[h].family != t.family ==>
                  h in after.tokens && after.tokens[h] == s.tokens[h])
  {
    var r := s.requests[id];
    assert Current(s.tokens, r);
    var f, stamp := s.tokens[r.hash].family, r.stamp.value;
    var after := Step(s, FinishRefresh(id, nextHash)).0;
    assert after.tokens[r.hash].family == f;
    if stamp < s.tokens[r.hash].expires {
      RevokedIsDead(after, f);
    } else {
      SameExpiry(s.tokens, chains, r.hash);
      ExpiredDeadIff(after, f);
      LateFinishKeepsEarly(s, id, nextHash, f);
    }
  }

  /** After a replay no continuation refreshes the family, exactly when the replay was stamped before the expiry or no
      earlier-stamped request on the live token is in flight. */
  lemma {:induction false} ReplayIsFinalIff(
    s: State, chains: map<Family, seq<Hash>>, id: nat, nextHash: Hash, unused: Hash)
    requires Sound(s, chains) && Enabled(s, FinishRefresh(id, nextHash)) && unused !in s.tokens
    requires s.requests[id].hash in s.tokens && s.tokens[s.requests[id].hash].replacedBy.Some?
    ensures var t := s.tokens[s.requests[id].hash];
            (forall later :: Refreshed(t.family) !in Reactions(Step(s, FinishRefresh(id, nextHash)).0, later))
            <==> s.requests[id].stamp.value < t.expires || !EarlyOnLive(s, t.family)
  {
    hide Dead, Sound, EarlyOnLive;
    var e := FinishRefresh(id, nextHash);
    var after := Step(s, e).0;
    ReplayEndsFamilyIff(s, chains, id, nextHash);
    var chains' := StepKeepsSound(s, e, chains);
    StepKeepsIdentity(s, e);
    assert after.tokens.Keys == s.tokens.Keys;
    DeadIffNeverRefreshed(after, chains', s.tokens[s.requests[id].hash].family, unused);
  }

  /** A finished request that was itself too late leaves the early ones in flight. */
  lemma {:induction false} LateFinishKeepsEarly(s: State, id: nat, nextHash: Hash, family: Family)
    requires Enabled(s, FinishRefresh(id, nextHash)) && Step(s, FinishRefresh(id, nextHash)).0.tokens == s.tokens
    requires s.requests[id].hash in s.tokens && s.tokens[s.requests[id].hash].expires <= s.requests[id].stamp.value
    ensures EarlyOnLive(Step(s, FinishRefresh(id, nextHash)).0, family) <==> EarlyOnLive(s, family)
  {
    var after := Step(s, FinishRefresh(id, nextHash)).0;
    if i, h :| h in s.tokens && s.tokens[h].family == family && s.tokens[h].revoked.None? && Early(s, i, h) {
      assert Early(after, i, h);
    }
    if i, h :| h in after.tokens && after.tokens[h].family == family && after.tokens[h].revoked.None? && Early(after, i, h) {
      assert Early(s, i, h);
    }
  }

  /** A family past its expiry is refreshed at most once more. */
  lemma {:induction false} OneLateRefresh(s: State, chains: map<Family, seq<Hash>>, id: nat, nextHash: Hash)
    requires Sound(s, chains) && Enabled(s, FinishRefresh(id, nextHash))
    requires s.requests[id].hash in s.tokens && s.tokens[s.requests[id].hash].expires <= s.clock
    requires Step(s, FinishRefresh(id, nextHash)).1.Refreshed?
    ensures Dead(Step(s, FinishRefresh(id, nextHash)).0, s.requests[id].found.family)
  {
    var r := s.requests[id];
    assert Current(s.tokens, r);
    RefreshSucceedsIff(s, chains, id, nextHash);
    SameExpiry(s.tokens, chains, r.hash);
    var f := r.found.family;
    var after := Step(s, FinishRefresh(id, nextHash)).0;
    assert after.tokens[nextHash].family == f;
    forall h | h in after.tokens && after.tokens[h].family == f
      ensures !Rotatable(after, h)
    {
      if h == nextHash {
        forall i ensures !Early(after, i, h) {
          if i in after.requests {
            assert Current(s.tokens, s.requests[i]);
          }
        }
      } else if h != r.hash && s.tokens[h].revoked.None? {
        AtMostOneLive(s.tokens, chains, h, r.hash);
      }
    }
  }

  /**
    * The replay that the expiry hides: a request on the live token reads the clock just before the expiry, a replay of
    * a rotated token reads it at the expiry and revokes nothing, and the first request is then refreshed.
    */
  lemma {:induction false} LateReplayMissed(
    s: State, chains: map<Family, seq<Hash>>, rotated: Hash, live: Hash, mine: nat, other: nat, n: Hash, m: Hash)
    requires Sound(s, chains) && mine != other && n !in s.tokens
    requires rotated in s.tokens && live in s.tokens && s.tokens[rotated].family == s.tokens[live].family
    requires s.tokens[rotated].replacedBy.Some? && s.tokens[live].revoked.None?
    requires s.clock < s.tokens[live].expires
    ensures var e := s.tokens[live].expires;
            var before := Run(s, [BeginRefresh(mine, live), StampRefresh(mine, true, e - 1)]
                                 + [BeginRefresh(other, rotated), StampRefresh(other, true, e)]);
            var (replayed, refused) := Step(before, FinishRefresh(other, m));
            && refused == Refused && replayed.tokens == s.tokens
            && Step(replayed, FinishRefresh(mine, n)).1 == Refreshed(s.tokens[live].family)
  {
    var e := s.tokens[live].expires;
    LiveIsLast(s.tokens, chains, live);
    SameExpiry(s.tokens, chains, live);
    RunPairs(s, BeginRefresh(mine, live), StampRefresh(mine, true, e - 1),
             BeginRefresh(other, rotated), StampRefresh(other, true, e));
    var s2 := Step(Step(s, BeginRefresh(mine, live)).0, StampRefresh(mine, true, e - 1)).0;
    assert s2 == State(s.tokens, s.requests[mine := Request(live, s.tokens[live], Some(e - 1))], e - 1);
    var s4 := Step(Step(s2, BeginRefresh(other, rotated)).0, StampRefresh(other, true, e)).0;
    assert s4 == State(s.tokens, s2.requests[other := Request(rotated, s.tokens[rotated], Some(e))], e);
  }

  lemma {:induction false} RunPairs(s: State, a: Event, b: Event, c: Event, d: Event)
    ensures Run(s, [a, b] + [c, d]) == Step(Step(Step(Step(s, a).0, b).0, c).0, d).0
  {
    hide Step;
    var all := [a, b] + [c, d];
    assert all == [a, b, c, d] && all[1..] == [b, c, d] && all[1..][1..] == [c, d];
    assert [c, d][1..] == [d] && [d][1..] == [];
    var s1 := Step(s, a).0;
    var s2 := Step(s1, b).0;
    var s3 := Step(s2, c).0;
    assert Run(s3, [d]) == Run(Step(s3, d).0, []);
    assert Run(s2, [c, d]) == Run(s3, [d]);
    assert Run(s1, [b, c, d]) == Run(s2, [c, d]);
  }

  /** The whole family expires at once. */
  lemma {:induction false} SameExpiry(tokens: Table, chains: map<Family, seq<Hash>>, h: Hash)
    requires Chained(tokens, chains) && h in tokens
    ensures forall g :: g in tokens && tokens[g].family == tokens[h].family ==>
              tokens[g].expires == tokens[h].expires && tokens[g].user == tokens[h].user
  {
    forall g | g in tokens && tokens[g].family == tokens[h].family
      ensures tokens[g].expires == tokens[h].expires && tokens[g].user == tokens[h].user
    {
      LikeRoot(tokens, chains, g);
      LikeRoot(tokens, chains, h);
    }
  }

  lemma {:induction false} LikeRoot(tokens: Table, chains: map<Family, seq<Hash>>, h: Hash)
    requires Chained(tokens, chains) && h in tokens
    ensures var f := tokens[h].family;
            && f in chains && chains[f] != [] && chains[f][0] in tokens
            && tokens[h].expires == tokens[chains[f][0]].expires && tokens[h].user == tokens[chains[f][0]].user
  {
    assert OnChain(tokens, chains, h);
    var chain := chains[tokens[h].family];
    assert IsChain(tokens, tokens[h].family, chain);
    var i :| 0 <= i < |chain| && chain[i] == h;
    assert Link(tokens, tokens[h].family, chain, i);
  }

  // ---------------------------------------------------------------------------------------
  // Sign-out
  // ---------------------------------------------------------------------------------------

  /** Logging out with a token ends its family exactly when that token is the live one or the
      family was over already: an older, replaced token signs nothing out. */
  lemma {:induction false} LogoutEndsFamilyIff(s: State, chains: map<Family, seq<Hash>>, h: Hash, now: Time)
    requires Sound(s, chains) && h in s.tokens
    ensures var f := s.tokens[h].family;
            Dead(Step(s, Logout(h, now)).0, f) <==> s.tokens[h].revoked.None? || Dead(s, f)
  {
    var f := s.tokens[h].family;
    var after := Step(s, Logout(h, now)).0;
    assert h in after.tokens && after.tokens[h].family == f;
    if s.tokens[h].revoked.None? {
      forall g | g in after.tokens && after.tokens[g].family == f
        ensures after.tokens[g].revoked.Some?
      {
        if s.tokens[g].revoked.None? {
          AtMostOneLive(s.tokens, chains, g, h);
        }
      }
      RevokedIsDead(after, f);
    } else {
      assert after.tokens == s.tokens;
    }
  }

  /** Logging out with a token revokes that row and no other; a row revoked before keeps its time. */
  lemma {:induction false} LogoutTouchesOne(s: State, h: Hash, now: Time, g: Hash)
    requires g in s.tokens
    ensures var after := Step(s, Logout(h, now)).0;
            && after.tokens.Keys == s.tokens.Keys && after.requests == s.requests && after.clock == s.clock
            && (after.tokens[g] == if g == h && s.tokens[g].revoked.None? then s.tokens[g].(revoked := Some(now))
                                   else s.tokens[g])
  {
  }

  /** So no other session ends, or comes back. */
  lemma {:induction false} LogoutLeavesOthers(s: State, h: Hash, now: Time, family: Family)
    requires h in s.tokens ==> s.tokens[h].family != family
    ensures Dead(Step(s, Logout(h, now)).0, family) <==> Dead(s, family)
  {
    var after := Step(s, Logout(h, now)).0;
    forall g | g in s.tokens
      ensures g in after.tokens && after.tokens[g].family == s.tokens[g].family
      ensures s.tokens[g].family == family ==> (Rotatable(after, g) <==> Rotatable(s, g))
    {
      LogoutTouchesOne(s, h, now, g);
      forall id ensures s.tokens[g].family == family ==> (Early(after, id, g) <==> Early(s, id, g)) {
      }
    }
    forall g | g in after.tokens ensures g in s.tokens {
    }
  }

  /** Logging out everywhere revokes exactly the user's rows that were not revoked yet. */
  lemma {:induction false} LogoutAllTouchesUser(s: State, user: User, now: Time, g: Hash)
    requires g in s.tokens
    ensures var after := Step(s, LogoutAll(user, now)).0;
            && after.tokens.Keys == s.tokens.Keys && after.requests == s.requests && after.clock == s.clock
            && (after.tokens[g] == if s.tokens[g].user == user && s.tokens[g].revoked.None?
                                   then s.tokens[g].(revoked := Some(now)) else s.tokens[g])
  {
  }

  /** Logging out everywhere ends every family the user has, for good, and nobody else's. */
  lemma {:induction false} LogoutAllEndsUser(
    s: State, chains: map<Family, seq<Hash>>, user: User, now: Time, h: Hash, later: seq<Event>)
    requires Sound(s, chains) && h in s.tokens
    ensures var after := Step(s, LogoutAll(user, now)).0;
            && (s.tokens[h].user == user ==>
                  Dead(after, s.tokens[h].family) && Refreshed(s.tokens[h].family) !in Reactions(after, later))
            && (s.tokens[h].user != user ==> h in after.tokens && after.tokens[h] == s.tokens[h])
  {
    var e := LogoutAll(user, now);
    var after := Step(s, e).0;
    if s.tokens[h].user == user {
      SameExpiry(s.tokens, chains, h);
      assert after.tokens[h].family == s.tokens[h].family;
      var chains' := StepKeepsSound(s, e, chains);
      RevokedIsDead(after, s.tokens[h].family);
      DeadForever(after, later, chains', s.tokens[h].family);
    }
  }
}
