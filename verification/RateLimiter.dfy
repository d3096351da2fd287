/**
 The sliding-window rate limiter (kamrui-media-edge/camera-api/server.js): it keeps only
 a pruned list of accepted times, and must agree with the full history.
 */
module RateLimiter {

  datatype Limits = Limits(maxRequests: nat, windowMs: int)

  datatype Entry = Entry(key: string, at: int, accepted: bool)

  /** `filter(t => now - t < windowMs)` */
  function Recent(times: seq<int>, now: int, windowMs: int): (r: seq<int>)
    ensures |r| <= |times|
  {
    if times == [] then []
    else (if now - times[0] < windowMs then [times[0]] else []) + Recent(times[1..], now, windowMs)
  }

  // --- What the history says ---

  function Last(history: seq<Entry>): Entry
    requires history != []
  {
    history[|history| - 1]
  }

  function Before(history: seq<Entry>): seq<Entry>
    requires history != []
  {
    history[..|history| - 1]
  }

  /** The times at which requests of the key were accepted. */
  function Accepted(history: seq<Entry>, key: string): seq<int> {
    if history == [] then []
    else Accepted(Before(history), key) + if Last(history).key == key && Last(history).accepted then [Last(history).at] else []
  }

  /** Fewer than maxRequests earlier accepted requests of the key are younger than the window. */
  predicate ShouldAccept(l: Limits, history: seq<Entry>, key: string, now: int) {
    |Recent(Accepted(history, key), now, l.windowMs)| < l.maxRequests
  }

  /** Every decision is the one that the whole history up to it calls for. */
  predicate FollowsSpec(l: Limits, history: seq<Entry>) {
    history == [] ||
    (var last := Last(history);
     FollowsSpec(l, Before(history)) && last.accepted == ShouldAccept(l, Before(history), last.key, last.at))
  }

  predicate NotBefore(history: seq<Entry>, now: int) {
    history == [] || Last(history).at <= now
  }

  predicate Ordered(history: seq<Entry>) {
    history == [] || (Ordered(Before(history)) && NotBefore(Before(history), Last(history).at))
  }

  // --- Pruning ---

  lemma {:induction false} RecentAppend(a: seq<int>, b: seq<int>, now: int, windowMs: int)
    ensures Recent(a + b, now, windowMs) == Recent(a, now, windowMs) + Recent(b, now, windowMs)
  {
    if a == [] {
      assert a + b == b;
    } else {
      assert (a + b)[1..] == a[1..] + b;
      RecentAppend(a[1..], b, now, windowMs);
    }
  }

  predicate Revives(t: int, pruned: int, now: int, windowMs: int) {
    pruned - t >= windowMs && now - t < windowMs
  }

  /** Pruning at one time is invisible at another exactly when that revives no pruned entry. */
  lemma {:induction false} PruningIsInvisibleIff(times: seq<int>, pruned: int, now: int, windowMs: int)
    ensures |Recent(Recent(times, pruned, windowMs), now, windowMs)| <= |Recent(times, now, windowMs)|
    ensures Recent(Recent(times, pruned, windowMs), now, windowMs) == Recent(times, now, windowMs) <==>
      forall t :: t in times ==> !Revives(t, pruned, now, windowMs)
  {
    if times != [] {
      var t, rest := times[0], times[1..];
      var thinned := Recent(rest, pruned, windowMs);
      PruningIsInvisibleIff(rest, pruned, now, windowMs);
      assert forall x :: x in times <==> x == t || x in rest;
      if pruned - t < windowMs {
        assert Recent(times, pruned, windowMs) == [t] + thinned;
        assert ([t] + thinned)[1..] == thinned;
        var a, b := Recent(thinned, now, windowMs), Recent(rest, now, windowMs);
        assert ([t] + a)[1..] == a && ([t] + b)[1..] == b;
      } else {
        assert Recent(times, pruned, windowMs) == thinned;
        assert Revives(t, pruned, now, windowMs) <==> now - t < windowMs;
        assert Recent(times, now, windowMs) == (if now - t < windowMs then [t] else []) + Recent(rest, now, windowMs);
      }
    }
  }

  /** The object's list for a key: nothing that any later time could miss was pruned. */
  ghost predicate Represents(kept: seq<int>, accepted: seq<int>, from: int, windowMs: int) {
    forall now :: now >= from ==> Recent(kept, now, windowMs) == Recent(accepted, now, windowMs)
  }

  lemma PrunedRepresents(kept: seq<int>, accepted: seq<int>, now: int, windowMs: int)
    requires Represents(kept, accepted, now, windowMs)
    ensures Represents(Recent(kept, now, windowMs) + [now], accepted + [now], now, windowMs)
  {
    forall later | later >= now
      ensures Recent(Recent(kept, now, windowMs) + [now], later, windowMs) == Recent(accepted + [now], later, windowMs)
    {
      RecentAppend(Recent(kept, now, windowMs), [now], later, windowMs);
      RecentAppend(accepted, [now], later, windowMs);
      PruningIsInvisibleIff(kept, now, later, windowMs);
    }
  }

  class Limiter {
    const limits: Limits
    var requests: map<string, seq<int>>
    ghost var history: seq<Entry>

    function Window(key: string): seq<int>
      reads this
    {
      if key in requests then requests[key] else []
    }

    ghost predicate Valid(now: int)
      reads this
    {
      && FollowsSpec(limits, history) && Ordered(history) && NotBefore(history, now)
      && forall key :: Represents(Window(key), Accepted(history, key), now, limits.windowMs)
    }

    constructor (limits: Limits)
      ensures this.limits == limits && history == [] && forall now :: Valid(now)
    {
      this.limits := limits;
      requests := map[];
      history := [];
    }

    /** One request; the clock must not have gone back. */
    method Request(key: string, now: int, ghost clock: int) returns (accepted: bool)
      requires Valid(clock) && clock <= now
      modifies this
      ensures Valid(now)
      ensures history == old(history) + [Entry(key, now, accepted)]
      ensures accepted <==> ShouldAccept(limits, old(history), key, now)
    {
      ghost var before := history;
      var filtered := Recent(Window(key), now, limits.windowMs);
      accepted := |filtered| < limits.maxRequests;
      assert filtered == Recent(Accepted(before, key), now, limits.windowMs);
      PrunedRepresents(Window(key), Accepted(before, key), now, limits.windowMs);
      if accepted {
        requests := requests[key := filtered + [now]];
      }
      history := history + [Entry(key, now, accepted)];
      assert Before(history) == before && Last(history) == Entry(key, now, accepted);
      forall k ensures Represents(Window(k), Accepted(history, k), now, limits.windowMs) {
        assert k != key || !accepted ==> Window(k) == old(Window(k)) && Accepted(history, k) == Accepted(before, k);
      }
    }
  }

  // --- What the specification promises ---

  ghost predicate Increasing(times: seq<int>) {
    forall i, j :: 0 <= i < j < |times| ==> times[i] <= times[j]
  }

  lemma {:induction false} AcceptedIsOrdered(history: seq<Entry>, key: string)
    requires Ordered(history)
    ensures Increasing(Accepted(history, key))
    ensures forall t :: t in Accepted(history, key) ==> history != [] && t <= Last(history).at
  {
    if history != [] {
      AcceptedIsOrdered(Before(history), key);
      var times := Accepted(Before(history), key);
      assert forall i :: 0 <= i < |times| ==> times[i] in times;
    }
  }

  /** If the n-th last of an ordered list is recent, so are the n last. */
  lemma {:induction false} RecentSuffix(times: seq<int>, k: nat, now: int, windowMs: int)
    requires k <= |times| && Increasing(times)
    requires k < |times| ==> now - times[k] < windowMs
    ensures |Recent(times, now, windowMs)| >= |times| - k
  {
    if times != [] {
      if k == 0 {
        assert |times| > 1 ==> times[0] <= times[1];
        RecentSuffix(times[1..], 0, now, windowMs);
      } else {
        RecentSuffix(times[1..], k - 1, now, windowMs);
      }
    }
  }

  /** Any maxRequests + 1 consecutive acceptances of one key span at least the window. */
  lemma {:induction false} AcceptancesSpanTheWindow(l: Limits, history: seq<Entry>, key: string, i: nat)
    requires FollowsSpec(l, history) && Ordered(history)
    requires i + l.maxRequests < |Accepted(history, key)|
    ensures Accepted(history, key)[i + l.maxRequests] - Accepted(history, key)[i] >= l.windowMs
  {
    var before, last := Before(history), Last(history);
    var times := Accepted(before, key);
    if i + l.maxRequests < |times| {
      AcceptancesSpanTheWindow(l, before, key, i);
    } else {
      AcceptedIsOrdered(before, key);
      if last.at - times[i] < l.windowMs {
        RecentSuffix(times, i, last.at, l.windowMs);
      }
    }
  }

  /** With a clock that goes back, the pruned list admits what the history would refuse. */
  lemma ClockGoingBackAdmitsMore()
    ensures var l := Limits(2, 10);
      var kept := Recent([100], 200, l.windowMs) + [200];
      var history := [Entry("k", 100, true), Entry("k", 200, true)];
      && FollowsSpec(l, history)
      && |Recent(kept, 105, l.windowMs)| < l.maxRequests
      && !ShouldAccept(l, history, "k", 105)
  {
    var l := Limits(2, 10);
    var history := [Entry("k", 100, true), Entry("k", 200, true)];
    var first := [Entry("k", 100, true)];
    assert Before(history) == first && Before(first) == [];
    assert Accepted(first, "k") == [100];
    assert Accepted(history, "k") == [100, 200];
    assert [100, 200][1..] == [200];
    assert Recent([200], 105, 10) == [200];
    assert Recent([100, 200], 105, 10) == [100, 200];
    assert Recent([100], 200, 10) == [];
  }
}
