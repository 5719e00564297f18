/** Sliding-window rate limiting. Times are in seconds, as fine as the clock gives them. */
module RateLimiting {
  import opened Numeric

  const WINDOW := 60.0
  const LEAST_RESET := 0.1

  /** The hits inside the window that ends at `now`: `[t for t in hits if t > now - 60]`. */
  function Recent(hits: seq<real>, now: real): seq<real> {
    if hits == [] then []
    else
      var before, t := Recent(hits[..|hits| - 1], now), hits[|hits| - 1];
      if t > now - WINDOW then before + [t] else before
  }

  datatype Verdict = Verdict(allowed: bool, remaining: int, resetAfter: real)

  function MaxInt(a: int, b: int): int { if a > b then a else b }

  /** `max(0.1, round(remaining, 2))`: the delay a denied caller is told. */
  function Announced(remaining: real): real { Max(LEAST_RESET, Round2(remaining)) }

  /** The answer for one request, given the stored hits of its identifier. */
  function Decide(hits: seq<real>, limit: int, now: real): Verdict
    requires limit > 0 || Recent(hits, now) != []
  {
    var recent := Recent(hits, now);
    if |recent| >= limit then Verdict(false, 0, Announced(WINDOW - (now - recent[0])))
    else Verdict(true, MaxInt(0, limit - (|recent| + 1)), WINDOW)
  }

  /** The stored hits after the request. */
  function Kept(hits: seq<real>, limit: int, now: real): seq<real> {
    var recent := Recent(hits, now);
    if |recent| >= limit then recent else recent + [now]
  }

  function HitsOf(history: map<string, seq<real>>, id: string): seq<real> {
    if id in history then history[id] else []
  }

  class RateLimiter {
    const defaultRpm: int
    var history: map<string, seq<real>>

    constructor (defaultRpm: int)
      ensures this.defaultRpm == defaultRpm && history == map[]
    {
      this.defaultRpm := defaultRpm;
      history := map[];
    }

    /** Prune, then grant and log the request or deny it. Without a positive limit on either
        side and without a recent hit the source indexes an empty list, hence the precondition. */
    method IsAllowed(identifier: string, limitRpm: int, now: real) returns (r: Verdict)
      requires limitRpm > 0 || defaultRpm > 0 || Recent(HitsOf(history, identifier), now) != []
      modifies this
      ensures var limit := if limitRpm > 0 then limitRpm else defaultRpm;
        && r == Decide(HitsOf(old(history), identifier), limit, now)
        && history == old(history)[identifier := Kept(HitsOf(old(history), identifier), limit, now)]
    {
      var hits := HitsOf(history, identifier);
      var currentHits := [];
      for i := 0 to |hits|
        invariant currentHits == Recent(hits[..i], now)
      {
        assert hits[..i + 1][..i] == hits[..i];
        if hits[i] > now - WINDOW {
          currentHits := currentHits + [hits[i]];
        }
      }
      assert hits[..|hits|] == hits;
      history := history[identifier := currentHits];
      var limit := if limitRpm > 0 then limitRpm else defaultRpm;
      if |currentHits| >= limit {
        var oldest := currentHits[0];
        return Verdict(false, 0, Announced(WINDOW - (now - oldest)));
      }
      history := history[identifier := currentHits + [now]];
      r := Verdict(true, MaxInt(0, limit - |history[identifier]|), WINDOW);
    }
  }

  // ----- one identifier: what a run of requests is granted

  datatype Log = Log(hits: seq<real>, grants: seq<real>)

  /** Requests of one identifier at the times `ts`, under a fixed limit. */
  function Play(ts: seq<real>, limit: int): Log
    requires limit > 0
  {
    if ts == [] then Log([], []) else Next(Play(ts[..|ts| - 1], limit), limit, ts[|ts| - 1])
  }

  ghost predicate Ordered(ts: seq<real>) {
    forall i, j | 0 <= i <= j < |ts| :: ts[i] <= ts[j]
  }

  /** How many of the grants fall in the window `(w - 60, w]`. */
  function InWindow(grants: seq<real>, w: real): nat {
    if grants == [] then 0
    else
      var t := grants[|grants| - 1];
      InWindow(grants[..|grants| - 1], w) + (if w - 60.0 < t <= w then 1 else 0)
  }

  lemma {:induction false} RecentTwice(hits: seq<real>, a: real, b: real)
    requires a <= b
    ensures Recent(Recent(hits, a), b) == Recent(hits, b)
  {
    if hits == [] {
    } else {
      var n := |hits| - 1;
      RecentTwice(hits[..n], a, b);
      var r := Recent(hits[..n], a);
      assert (r + [hits[n]])[..|r|] == r;
    }
  }

  lemma RecentAppend(hits: seq<real>, t: real, now: real)
    requires t > now - WINDOW
    ensures Recent(hits + [t], now) == Recent(hits, now) + [t]
  {
    assert (hits + [t])[..|hits|] == hits;
  }

  /** With no grant after `now`, the recent ones are those of the window ending at `now`. */
  lemma {:induction false} RecentIsWindow(grants: seq<real>, now: real)
    requires forall i | 0 <= i < |grants| :: grants[i] <= now
    ensures |Recent(grants, now)| == InWindow(grants, now)
  {
    if grants == [] {
    } else {
      RecentIsWindow(grants[..|grants| - 1], now);
    }
  }

  lemma {:induction false} LaterWindowSmaller(grants: seq<real>, now: real, w: real)
    requires now <= w
    ensures InWindow(grants, w) <= |Recent(grants, now)| + CountAfter(grants, now)
    ensures (forall i | 0 <= i < |grants| :: grants[i] <= now) ==> CountAfter(grants, now) == 0
  {
    if grants == [] {
    } else {
      LaterWindowSmaller(grants[..|grants| - 1], now, w);
    }
  }

  function CountAfter(grants: seq<real>, now: real): nat {
    if grants == [] then 0
    else CountAfter(grants[..|grants| - 1], now) + (if grants[|grants| - 1] > now then 1 else 0)
  }

  /** What a run keeps: the stored hits are the recent grants, never more than the limit,
      and no window holds more grants than the limit. */
  ghost predicate Sound(log: Log, limit: int, last: real) {
    && log.hits == Recent(log.grants, last)
    && |log.hits| <= limit
    && Ordered(log.grants)
    && (forall i | 0 <= i < |log.grants| :: log.grants[i] <= last)
    && (forall w :: InWindow(log.grants, w) <= limit)
  }

  lemma GrantKeepsWindows(grants: seq<real>, limit: int, now: real)
    requires forall i | 0 <= i < |grants| :: grants[i] <= now
    requires |Recent(grants, now)| < limit
    requires forall w :: InWindow(grants, w) <= limit
    ensures forall w :: InWindow(grants + [now], w) <= limit
  {
    forall w ensures InWindow(grants + [now], w) <= limit {
      assert (grants + [now])[..|grants|] == grants;
      if now <= w {
        LaterWindowSmaller(grants, now, w);
      }
    }
  }

  lemma {:induction false} RecentShorter(hits: seq<real>, now: real)
    ensures |Recent(hits, now)| <= |hits|
  {
    if hits == [] {
    } else {
      RecentShorter(hits[..|hits| - 1], now);
    }
  }

  /** One request. */
  function Next(before: Log, limit: int, now: real): Log
    requires limit > 0
  {
    Log(Kept(before.hits, limit, now),
        if Decide(before.hits, limit, now).allowed then before.grants + [now] else before.grants)
  }

  lemma NextIsSound(before: Log, limit: int, last: real, now: real)
    requires limit > 0 && Sound(before, limit, last) && last <= now
    ensures Sound(Next(before, limit, now), limit, now)
  {
    RecentTwice(before.grants, last, now);
    RecentShorter(before.hits, now);
    if Decide(before.hits, limit, now).allowed {
      GrantKeepsWindows(before.grants, limit, now);
      RecentAppend(before.grants, now, now);
    }
  }

  lemma {:induction false} RunIsSound(ts: seq<real>, limit: int)
    requires limit > 0 && Ordered(ts)
    ensures ts == [] ==> forall t :: Sound(Play(ts, limit), limit, t)
    ensures ts != [] ==> Sound(Play(ts, limit), limit, ts[|ts| - 1])
  {
    if ts == [] {
    } else {
      var n := |ts| - 1;
      RunIsSound(ts[..n], limit);
      NextIsSound(Play(ts[..n], limit), limit, if n == 0 then ts[n] else ts[n - 1], ts[n]);
    }
  }

  /** Window safety: in every run, every window of 60 seconds holds at most `limit` grants. */
  lemma WindowSafety(ts: seq<real>, limit: int, w: real)
    requires limit > 0 && Ordered(ts)
    ensures InWindow(Play(ts, limit).grants, w) <= limit
  {
    RunIsSound(ts, limit);
  }

  /** At the moment of a request the stored hits that count are the grants of the window. */
  lemma WindowAtRequest(ts: seq<real>, limit: int, now: real)
    requires limit > 0 && Ordered(ts + [now])
    ensures |Recent(Play(ts, limit).hits, now)| == InWindow(Play(ts, limit).grants, now) <= limit
  {
    assert Ordered(ts) by {
      assert forall i | 0 <= i < |ts| :: ts[i] == (ts + [now])[i];
    }
    RunIsSound(ts, limit);
    var log := Play(ts, limit);
    if ts != [] {
      var last := ts[|ts| - 1];
      assert last == (ts + [now])[|ts| - 1] && now == (ts + [now])[|ts|];
      RecentTwice(log.grants, last, now);
    }
    RecentIsWindow(log.grants, now);
  }

  /** Maximal permissiveness: a request is granted exactly when the window ending at it does
      not already hold `limit` grants. */
  lemma GrantedExactly(ts: seq<real>, limit: int, now: real)
    requires limit > 0 && Ordered(ts + [now])
    ensures Decide(Play(ts, limit).hits, limit, now).allowed <==> InWindow(Play(ts, limit).grants, now) < limit
  {
    WindowAtRequest(ts, limit, now);
  }

  /** What a caller is told is left: the limit less the grants in the window, its own included,
      and nothing when it is denied. */
  lemma RemainingIsWhatIsLeft(ts: seq<real>, limit: int, now: real)
    requires limit > 0 && Ordered(ts + [now])
    ensures Decide(Play(ts, limit).hits, limit, now).remaining == limit - InWindow(Play(ts + [now], limit).grants, now)
    ensures Decide(Play(ts, limit).hits, limit, now).allowed ==> Decide(Play(ts, limit).hits, limit, now).resetAfter == 60.0
  {
    GrantedExactly(ts, limit, now);
    PlayNext(ts, limit, now);
    var log := Play(ts, limit);
    assert (log.grants + [now])[..|log.grants|] == log.grants;
    WindowAtRequest(ts, limit, now);
  }

  // ----- retrying after a denial

  lemma {:induction false} RecentFirst(hits: seq<real>, now: real)
    requires Ordered(hits)
    ensures Ordered(Recent(hits, now))
    ensures forall i | 0 <= i < |Recent(hits, now)| :: Recent(hits, now)[i] > now - WINDOW
    ensures Recent(hits, now) != [] ==>
              Recent(hits, now)[|Recent(hits, now)| - 1] == hits[|hits| - 1]
  {
    if hits == [] {
    } else {
      var n := |hits| - 1;
      RecentFirst(hits[..n], now);
      var r := Recent(hits[..n], now);
      if r != [] {
        assert r[|r| - 1] == hits[n - 1] <= hits[n];
      }
    }
  }

  /** Hits strictly later than `oldest`. */
  function LaterThan(hits: seq<real>, oldest: real): nat {
    if hits == [] then 0
    else LaterThan(hits[..|hits| - 1], oldest) + (if hits[|hits| - 1] > oldest then 1 else 0)
  }

  lemma {:induction false} RecentAtExpiry(hits: seq<real>, oldest: real)
    ensures |Recent(hits, oldest + WINDOW)| == LaterThan(hits, oldest)
  {
    if hits == [] {
    } else {
      RecentAtExpiry(hits[..|hits| - 1], oldest);
    }
  }

  lemma {:induction false} NothingPruned(hits: seq<real>, t: real)
    requires forall i | 0 <= i < |hits| :: hits[i] > t - WINDOW
    ensures Recent(hits, t) == hits
  {
    if hits == [] {
    } else {
      var n := |hits| - 1;
      NothingPruned(hits[..n], t);
      assert hits == hits[..n] + [hits[n]];
    }
  }

  lemma {:induction false} OldestPruned(hits: seq<real>, t: real)
    requires hits != [] && hits[0] <= t - WINDOW
    ensures |Recent(hits, t)| < |hits|
  {
    var n := |hits| - 1;
    if n == 0 {
      assert hits[..0] == [];
    } else {
      OldestPruned(hits[..n], t);
    }
  }

  /** The delay after which the oldest hit has left the window. */
  function Remaining(oldest: real, now: real): real { WINDOW - (now - oldest) }

  /** The announcement falls short by at most 5 milliseconds, and exactly when the remaining
      delay is rounded down and is above the least announcement. */
  lemma AnnouncedIsNear(remaining: real)
    ensures remaining <= Announced(remaining) + 0.005
    ensures remaining <= Announced(remaining) <==> remaining <= 0.1 || remaining <= Round2(remaining)
  {
    RoundIsNearest(remaining * 100.0);
  }

  /** A caller denied at `now` that stays quiet is granted at `t` exactly once the oldest hit
      of the window has expired. */
  lemma GrantedFromExpiry(ts: seq<real>, limit: int, now: real, t: real)
    requires limit > 0 && Ordered(ts + [now]) && now <= t
    requires !Decide(Play(ts, limit).hits, limit, now).allowed
    ensures var log := Play(ts + [now], limit);
      && log.hits != []
      && Decide(Play(ts, limit).hits, limit, now).resetAfter == Announced(Remaining(log.hits[0], now))
      && (Decide(log.hits, limit, t).allowed <==> t >= log.hits[0] + WINDOW)
  {
    DeniedState(ts, limit, now);
    var hits := Play(ts + [now], limit).hits;
    AllowedMeans(hits, limit, t);
    DeniedReset(Play(ts, limit).hits, limit, now);
    hide *;
    GrantedAt(hits, limit, t);
  }

  lemma AllowedMeans(hits: seq<real>, limit: int, t: real)
    requires limit > 0
    ensures Decide(hits, limit, t).allowed <==> |Recent(hits, t)| < limit
  {
  }

  lemma DeniedReset(stored: seq<real>, limit: int, now: real)
    requires limit > 0 && !Decide(stored, limit, now).allowed
    ensures Recent(stored, now) != []
    ensures Decide(stored, limit, now).resetAfter == Announced(Remaining(Recent(stored, now)[0], now))
  {
    hide Recent, Announced;
  }

  /** A full window has room again exactly when its oldest hit expires. */
  lemma GrantedAt(hits: seq<real>, limit: int, t: real)
    requires limit > 0 && |hits| == limit && forall i | 0 <= i < |hits| :: hits[0] <= hits[i]
    ensures |Recent(hits, t)| < limit <==> t >= hits[0] + WINDOW
  {
    hide Recent;
    if t >= hits[0] + WINDOW {
      OldestPruned(hits, t);
    } else {
      NothingPruned(hits, t);
    }
  }

  lemma PlayNext(ts: seq<real>, limit: int, now: real)
    requires limit > 0
    ensures Play(ts + [now], limit) == Next(Play(ts, limit), limit, now)
  {
    hide Next;
    assert (ts + [now])[..|ts|] == ts;
  }

  /** What is stored after a denial: `limit` hits of the window, in order. */
  lemma DeniedState(ts: seq<real>, limit: int, now: real)
    requires limit > 0 && Ordered(ts + [now]) && !Decide(Play(ts, limit).hits, limit, now).allowed
    ensures var hits := Play(ts + [now], limit).hits;
      && hits == Recent(Play(ts, limit).hits, now) && |hits| == limit
      && (forall i | 0 <= i < |hits| :: hits[0] <= hits[i])
  {
    var all := ts + [now];
    assert all != [] && all[|all| - 1] == now;
    RunIsSound(all, limit);
    PlayNext(ts, limit, now);
    hide Play, InWindow, Recent;
    RecentFirst(Play(all, limit).grants, now);
  }

  /** The announced moment is rounded to hundredths, so it can come too early: a denied caller
      that stays quiet is granted then if and only if the remaining delay was not rounded down or
      is at most 0.1 seconds. Five milliseconds later it is always granted. */
  lemma RetryIsExact(ts: seq<real>, limit: int, now: real)
    requires limit > 0 && Ordered(ts + [now])
    requires !Decide(Play(ts, limit).hits, limit, now).allowed
    ensures var log := Play(ts + [now], limit);
      var reset := Decide(Play(ts, limit).hits, limit, now).resetAfter;
      && log.hits != []
      && (Decide(log.hits, limit, now + reset).allowed <==>
            var remaining := Remaining(log.hits[0], now);
            remaining <= 0.1 || remaining <= Round2(remaining))
      && Decide(log.hits, limit, now + reset + 0.005).allowed
  {
    hide Play, Decide, Ordered, Announced, Round2;
    var reset := Decide(Play(ts, limit).hits, limit, now).resetAfter;
    GrantedFromExpiry(ts, limit, now, now);
    var log := Play(ts + [now], limit);
    AnnouncedIsNear(Remaining(log.hits[0], now));
    AtLeastZero(Remaining(log.hits[0], now));
    GrantedFromExpiry(ts, limit, now, now + reset);
    GrantedFromExpiry(ts, limit, now, now + reset + 0.005);
  }

  lemma AtLeastZero(remaining: real)
    ensures Announced(remaining) >= 0.1 > 0.0
  {
  }

  /** With times in whole hundredths nothing is rounded, and the announced moment always holds. */
  lemma RetryOnWholeHundredths(ts: seq<real>, limit: int, now: real, oldest: int, at: int)
    requires limit > 0 && Ordered(ts + [now])
    requires !Decide(Play(ts, limit).hits, limit, now).allowed
    requires Play(ts + [now], limit).hits != []
    requires Play(ts + [now], limit).hits[0] == oldest as real / 100.0 && now == at as real / 100.0
    ensures Decide(Play(ts + [now], limit).hits, limit, now + Decide(Play(ts, limit).hits, limit, now).resetAfter).allowed
  {
    hide Play, Decide, Ordered;
    RetryIsExact(ts, limit, now);
    var cents := 6000 - (at - oldest);
    assert Remaining(oldest as real / 100.0, now) * 100.0 == cents as real;
    RoundOfInteger(cents);
  }

  /** A run whose announced moment is too early: under a limit of 1 a hit at 0.004 and a denial
      at 1.0 leave 59.004 seconds; 59.0 are announced, and the retry at 60.0 is denied. */
  lemma RoundedRetryIsDenied()
    ensures var log, v := Play([0.004], 1), Decide(Play([0.004], 1).hits, 1, 1.0);
      && log.hits == [0.004] && !v.allowed && v.resetAfter == 59.0
      && !Decide(Play([0.004, 1.0], 1).hits, 1, 1.0 + v.resetAfter).allowed
  {
    OneHit();
    assert [0.004] + [1.0] == [0.004, 1.0];
    RoundedDown();
    assert Ordered([0.004, 1.0]);
    hide Ordered, Round2, Play, Recent;
    DeniedState([0.004], 1, 1.0);
    RetryIsExact([0.004], 1, 1.0);
  }

  lemma OneHit()
    ensures Play([0.004], 1).hits == [0.004] && Recent([0.004], 1.0) == [0.004]
  {
    PlayNext([], 1, 0.004);
    assert Play([], 1) == Log([], []);
    assert [] + [0.004] == [0.004];
    hide Play, Recent;
    GrantedHit([], 1, 0.004);
    NothingPruned([0.004], 1.0);
  }

  lemma RoundedDown()
    ensures Round2(59.004) == 59.0
  {
    assert 5900.4.Floor == 5900;
  }

  datatype Ask = Ask(now: real, limit: int)

  /** The stored hits after requests of one identifier under limits that change between calls. */
  function Stored(asks: seq<Ask>): seq<real> {
    if asks == [] then []
    else Kept(Stored(asks[..|asks| - 1]), asks[|asks| - 1].limit, asks[|asks| - 1].now)
  }

  /** With limits that change between calls the promise can fail: a caller denied after any run
      is granted at the announced moment exactly when fewer than `limit` of the stored hits are
      still inside the window that ends then. */
  lemma RetryUnderAnyLimit(asks: seq<Ask>, limit: int, now: real)
    requires limit > 0 && !Decide(Stored(asks), limit, now).allowed
    ensures var v, hits := Decide(Stored(asks), limit, now), Stored(asks + [Ask(now, limit)]);
      && hits == Recent(Stored(asks), now) && |hits| >= limit
      && (Decide(hits, limit, now + v.resetAfter).allowed <==> LaterThan(hits, now + v.resetAfter - WINDOW) < limit)
  {
    StoredNext(asks, Ask(now, limit));
    hide Stored;
    RetryFrom(Stored(asks), limit, now);
  }

  lemma StoredNext(asks: seq<Ask>, a: Ask)
    ensures Stored(asks + [a]) == Kept(Stored(asks), a.limit, a.now)
  {
    hide Kept;
    assert (asks + [a])[..|asks|] == asks;
  }

  lemma RetryFrom(stored: seq<real>, limit: int, now: real)
    requires limit > 0 && !Decide(stored, limit, now).allowed
    ensures var v, hits := Decide(stored, limit, now), Kept(stored, limit, now);
      && hits == Recent(stored, now) && |hits| >= limit
      && (Decide(hits, limit, now + v.resetAfter).allowed <==> LaterThan(hits, now + v.resetAfter - WINDOW) < limit)
  {
    hide Recent, LaterThan;
    var hits, t := Recent(stored, now), now + Decide(stored, limit, now).resetAfter;
    RecentAtExpiry(hits, t - WINDOW);
    assert t - WINDOW + WINDOW == t;
  }

  lemma GrantedHit(hits: seq<real>, limit: int, now: real)
    requires |hits| < limit && forall i | 0 <= i < |hits| :: hits[i] > now - WINDOW
    ensures Kept(hits, limit, now) == hits + [now]
  {
    NothingPruned(hits, now);
  }

  const Generous := [Ask(0.0, 3), Ask(1.0, 3), Ask(2.0, 3)]

  lemma GenerousRun()
    ensures Stored(Generous) == [0.0, 1.0, 2.0]
  {
    hide Kept, Recent;
    assert Stored([]) == [];
    hide Stored;
    StoredNext([], Ask(0.0, 3));
    StoredNext([Ask(0.0, 3)], Ask(1.0, 3));
    StoredNext([Ask(0.0, 3), Ask(1.0, 3)], Ask(2.0, 3));
    GrantedHit([], 3, 0.0);
    GrantedHit([0.0], 3, 1.0);
    GrantedHit([0.0, 1.0], 3, 2.0);
    assert Generous == [Ask(0.0, 3), Ask(1.0, 3)] + [Ask(2.0, 3)];
    assert [Ask(0.0, 3), Ask(1.0, 3)] == [Ask(0.0, 3)] + [Ask(1.0, 3)] && [Ask(0.0, 3)] == [] + [Ask(0.0, 3)];
    assert [0.0] == [] + [0.0] && [0.0] + [1.0] == [0.0, 1.0] && [0.0, 1.0] + [2.0] == [0.0, 1.0, 2.0];
  }

  /** Such a run: three requests under a limit of 3, then one under a limit of 1. It is denied,
      and denied again at the moment it was told to come back. */
  lemma LoweredLimitBreaksRetry()
    ensures var v := Decide(Stored(Generous), 1, 3.0);
      && !v.allowed
      && !Decide(Stored(Generous + [Ask(3.0, 1)]), 1, 3.0 + v.resetAfter).allowed
  {
    GenerousRun();
    var hits := [0.0, 1.0, 2.0];
    NothingPruned(hits, 3.0);
    assert LaterThan(hits, 0.0) == 2 by {
      assert hits[..2] == [0.0, 1.0] && hits[..2][..1] == [0.0] && hits[..2][..1][..0] == [];
      assert LaterThan([0.0], 0.0) == 0;
      assert LaterThan([0.0, 1.0], 0.0) == 1;
    }
    DeniedReset(hits, 1, 3.0);
    assert Announced(Remaining(0.0, 3.0)) == 57.0 by { RoundOfInteger(5700); }
    hide Stored, LaterThan, Announced, Recent, Decide, Kept;
    RetryUnderAnyLimit(Generous, 1, 3.0);
  }

  // ----- many identifiers

  /** A request of some identifier; its limit comes with the call. */
  datatype Call = Call(id: string, now: real, limit: int)

  function Histories(calls: seq<Call>): map<string, seq<real>> {
    if calls == [] then map[]
    else
      var before, c := Histories(calls[..|calls| - 1]), calls[|calls| - 1];
      before[c.id := Kept(HitsOf(before, c.id), c.limit, c.now)]
  }

  function AsksOf(calls: seq<Call>, id: string): seq<Ask> {
    if calls == [] then []
    else
      var before, c := AsksOf(calls[..|calls| - 1], id), calls[|calls| - 1];
      if c.id == id then before + [Ask(c.now, c.limit)] else before
  }

  /** Identifiers do not interfere: what is stored for one is what its own requests, under the
      limits they came with, would have left alone, so its verdicts are those of its own run. */
  lemma {:induction false} IdentifiersAreIndependent(calls: seq<Call>, id: string)
    ensures HitsOf(Histories(calls), id) == Stored(AsksOf(calls, id))
  {
    hide Kept;
    if calls == [] {
    } else {
      var n := |calls| - 1;
      IdentifiersAreIndependent(calls[..n], id);
      if calls[n].id == id {
        StoredNext(AsksOf(calls[..n], id), Ask(calls[n].now, calls[n].limit));
      }
    }
  }

  function TimesOf(asks: seq<Ask>): seq<real> { seq(|asks|, i requires 0 <= i < |asks| => asks[i].now) }

  /** Under one limit throughout these are the runs the promises above are about. */
  lemma {:induction false} FixedLimitRun(asks: seq<Ask>, limit: int)
    requires limit > 0 && forall i | 0 <= i < |asks| :: asks[i].limit == limit
    ensures Stored(asks) == Play(TimesOf(asks), limit).hits
  {
    hide Kept, Decide;
    if asks == [] {
    } else {
      var n := |asks| - 1;
      FixedLimitRun(asks[..n], limit);
      assert TimesOf(asks) == TimesOf(asks[..n]) + [asks[n].now];
      PlayNext(TimesOf(asks[..n]), limit, asks[n].now);
    }
  }
}
