/**
 The asymmetric signal debouncer (kamrui-media-edge/camera-api/live-source-health.js)
 against its history. Times and thresholds are real numbers of milliseconds.
 */
module SignalDebouncer {
  import opened Wrappers

  datatype Observation = Observation(present: bool, at: real)

  datatype Thresholds = Thresholds(on: real, off: real)

  predicate ValidThresholds(h: Thresholds) {
    h.on >= 0.0 && h.off >= 0.0
  }

  function Threshold(h: Thresholds, v: bool): real {
    if v then h.on else h.off
  }

  // --- What the history says ---

  function LastOf(history: seq<Observation>): Observation
    requires history != []
  {
    history[|history| - 1]
  }

  function Before(history: seq<Observation>): seq<Observation>
    requires history != []
  {
    history[..|history| - 1]
  }

  /** When the trailing run of equal observations began. */
  function RunStart(history: seq<Observation>): real
    requires history != []
  {
    var before := Before(history);
    if before != [] && LastOf(before).present == LastOf(history).present then RunStart(before) else LastOf(history).at
  }

  /** Availability flips to v at an update exactly when v differs from it and the trailing
      run of v has lasted v's threshold. */
  predicate FlipsNow(h: Thresholds, history: seq<Observation>)
    requires history != []
    decreases |history|, 0
  {
    var last := LastOf(history);
    last.present != Available(h, Before(history)) && last.at - RunStart(history) >= Threshold(h, last.present)
  }

  predicate Available(h: Thresholds, history: seq<Observation>)
    decreases |history|, 1
  {
    if history == [] then false
    else if FlipsNow(h, history) then LastOf(history).present
    else Available(h, Before(history))
  }

  function Flips(h: Thresholds, history: seq<Observation>): nat {
    if history == [] then 0
    else Flips(h, Before(history)) + if FlipsNow(h, history) then 1 else 0
  }

  function LastFlipAt(h: Thresholds, history: seq<Observation>): Option<real> {
    if history == [] then None
    else if FlipsNow(h, history) then Some(LastOf(history).at)
    else LastFlipAt(h, Before(history))
  }

  datatype Snapshot = Snapshot(
    available: bool, observed: bool, pendingSince: Option<real>, lastUpdatedAt: Option<real>,
    lastChangedAt: Option<real>, transitionCount: nat)

  /** Everything the debouncer remembers, read off the history. */
  function Summary(h: Thresholds, history: seq<Observation>): Snapshot {
    var available := Available(h, history);
    if history == [] then Snapshot(false, false, None, None, None, 0)
    else
      var last := LastOf(history);
      Snapshot(
        available, last.present, if last.present == available then None else Some(RunStart(history)),
        Some(last.at), LastFlipAt(h, history), Flips(h, history))
  }

  /** One more observation, in terms of what is remembered. */
  lemma SummaryStep(h: Thresholds, before: seq<Observation>, o: Observation)
    ensures var s, t := Summary(h, before), Summary(h, before + [o]);
      var since := if o.present != s.observed then Some(o.at) else s.pendingSince;
      var flips := o.present != s.available && since.Some? && o.at - since.value >= Threshold(h, o.present);
      && t == Snapshot(
           if flips then o.present else s.available, o.present,
           if flips || o.present == s.available then None else since, Some(o.at),
           if flips then Some(o.at) else s.lastChangedAt, s.transitionCount + if flips then 1 else 0)
      && (o.present != s.available ==> since.Some?)
  {
    var history := before + [o];
    assert Before(history) == before && LastOf(history) == o;
    assert RunStart(history) == if before != [] && LastOf(before).present == o.present then RunStart(before) else o.at;
    assert FlipsNow(h, history) <==> o.present != Available(h, before) && o.at - RunStart(history) >= Threshold(h, o.present);
    var s := Summary(h, before);
    var since := if o.present != s.observed then Some(o.at) else s.pendingSince;
    assert o.present != s.available ==> since == Some(RunStart(history));
    assert FlipsNow(h, history) <==> o.present != s.available && since.Some? && o.at - since.value >= Threshold(h, o.present);
    assert before == [] ==> LastFlipAt(h, before).None? && Flips(h, before) == 0;
  }

  // --- The object ---

  class Debouncer {
    const thresholds: Thresholds
    var available: bool
    var observed: bool
    var pendingSince: Option<real>
    var lastUpdatedAt: Option<real>
    var lastChangedAt: Option<real>
    var transitionCount: nat
    ghost var history: seq<Observation>

    ghost predicate Valid()
      reads this
    {
      State() == Summary(thresholds, history)
    }

    function State(): Snapshot
      reads this
    {
      Snapshot(available, observed, pendingSince, lastUpdatedAt, lastChangedAt, transitionCount)
    }

    constructor (thresholds: Thresholds)
      ensures this.thresholds == thresholds && history == [] && Valid()
    {
      this.thresholds := thresholds;
      available, observed, pendingSince, lastUpdatedAt, lastChangedAt, transitionCount := false, false, None, None, None, 0;
      history := [];
    }

    method Update(next: bool, now: real) returns (snapshot: Snapshot)
      requires Valid()
      modifies this
      ensures Valid() && history == old(history) + [Observation(next, now)]
      ensures snapshot == Summary(thresholds, history)
    {
      ghost var before := history;
      if next != observed {
        observed := next;
        pendingSince := Some(now);
      } else if pendingSince.None? && next != available {
        pendingSince := Some(now);
      }
      lastUpdatedAt := Some(now);
      if next != available {
        var threshold := if next then thresholds.on else thresholds.off;
        if pendingSince.Some? && now - pendingSince.value >= threshold {
          available := next;
          pendingSince := None;
          lastChangedAt := Some(now);
          transitionCount := transitionCount + 1;
        }
      } else {
        pendingSince := None;
      }
      history := history + [Observation(next, now)];
      SummaryStep(thresholds, before, Observation(next, now));
      hide Summary;
      snapshot := State();
    }
  }

  /** createSignalDebouncer, which refuses negative thresholds. */
  method Create(thresholds: Thresholds) returns (debouncer: Option<Debouncer>)
    ensures debouncer.Some? <==> ValidThresholds(thresholds)
    ensures debouncer.Some? ==>
      fresh(debouncer.value) && debouncer.value.Valid() && debouncer.value.thresholds == thresholds && debouncer.value.history == []
  {
    if thresholds.on < 0.0 || thresholds.off < 0.0 {
      return None;
    }
    var d := new Debouncer(thresholds);
    return Some(d);
  }

  // --- How fast it can flip ---

  ghost predicate Ordered(history: seq<Observation>) {
    forall i, j :: 0 <= i < j < |history| ==> history[i].at <= history[j].at
  }

  function Least(h: Thresholds, n: nat): real {
    if n == 0 then 0.0 else Least(h, n - 1) + Threshold(h, n % 2 == 1)
  }

  function Times(k: nat, x: real): real {
    k as real * x
  }

  lemma TimesStep(k: nat, x: real)
    ensures Times(0, x) == 0.0 && Times(k + 1, x) == Times(k, x) + x
  {
    assert (k + 1) as real == k as real + 1.0;
  }

  lemma {:induction false} LeastClosedForm(h: Thresholds, n: nat)
    ensures Least(h, n) == Times((n + 1) / 2, h.on) + Times(n / 2, h.off)
  {
    hide Times;
    if n == 0 {
      TimesStep(0, h.on);
      TimesStep(0, h.off);
    } else {
      LeastClosedForm(h, n - 1);
      TimesStep(n / 2, h.on);
      TimesStep((n - 1) / 2, h.off);
    }
  }

  /** The trailing run began no earlier than any observation of the other value. */
  lemma {:induction false} RunStartsAfter(history: seq<Observation>, i: nat)
    requires Ordered(history) && i < |history| && (history[i].present != LastOf(history).present || i == 0)
    ensures history[i].at <= RunStart(history) <= LastOf(history).at
  {
    var before := Before(history);
    if before != [] && LastOf(before).present == LastOf(history).present {
      RunStartsAfter(before, i);
    }
  }

  /** The last flip: its place, and that it set the availability. */
  lemma {:induction false} LastFlip(h: Thresholds, history: seq<Observation>) returns (i: nat)
    requires Flips(h, history) > 0
    ensures i < |history| && LastFlipAt(h, history) == Some(history[i].at) && history[i].present == Available(h, history)
  {
    if FlipsNow(h, history) {
      i := |history| - 1;
    } else {
      i := LastFlip(h, Before(history));
    }
  }

  lemma {:induction false} FlipsAlternate(h: Thresholds, history: seq<Observation>)
    ensures Available(h, history) <==> Flips(h, history) % 2 == 1
  {
    if history != [] {
      FlipsAlternate(h, Before(history));
    }
  }

  lemma {:induction false} FlipsTakeTime(h: Thresholds, history: seq<Observation>)
    requires Ordered(history) && Flips(h, history) > 0
    ensures LastFlipAt(h, history).Some?
    ensures LastFlipAt(h, history).value - history[0].at >= Least(h, Flips(h, history))
  {
    var before := Before(history);
    if FlipsNow(h, history) {
      FlipsAlternate(h, history);
      RunStartsAfter(history, 0);
      if Flips(h, before) > 0 {
        FlipsTakeTime(h, before);
        var i := LastFlip(h, before);
        RunStartsAfter(history, i);
      }
    } else {
      FlipsTakeTime(h, before);
    }
  }

  lemma HistoryTakesTime(h: Thresholds, history: seq<Observation>)
    requires Ordered(history) && history != []
    ensures LastOf(history).at - history[0].at >= Least(h, Flips(h, history))
  {
    if Flips(h, history) > 0 {
      FlipsTakeTime(h, history);
      var i := LastFlip(h, history);
      assert history[i].at <= LastOf(history).at;
    } else {
      assert history[0].at <= LastOf(history).at;
    }
  }

  /** N flips take at least half of them, rounded up, times the one threshold, and half of
      them, rounded down, times the other. */
  lemma ManyFlipsTakeTime(h: Thresholds, history: seq<Observation>)
    requires Ordered(history) && history != []
    ensures var n := Flips(h, history);
      LastOf(history).at - history[0].at >= Times((n + 1) / 2, h.on) + Times(n / 2, h.off)
  {
    hide Least, Flips, Ordered;
    HistoryTakesTime(h, history);
    LeastClosedForm(h, Flips(h, history));
  }

  // --- And that no less is promised: the bound is attained ---

  function TwoOf(v: bool, from: real, until: real): seq<Observation> {
    [Observation(v, from), Observation(v, until)]
  }

  /** Each value observed twice: when the last flip happened and its threshold later. */
  function Fastest(h: Thresholds, n: nat): (r: seq<Observation>)
    ensures |r| == 2 * n
  {
    if n == 0 then [] else Fastest(h, n - 1) + TwoOf(n % 2 == 1, Least(h, n - 1), Least(h, n))
  }

  lemma TwoFlipOnce(h: Thresholds, before: seq<Observation>, v: bool, from: real)
    requires ValidThresholds(h) && Available(h, before) == !v && (before == [] || LastOf(before).present == !v)
    ensures var all := before + TwoOf(v, from, from + Threshold(h, v));
      Flips(h, all) == Flips(h, before) + 1 && Available(h, all) == v
  {
    var one := before + [Observation(v, from)];
    var all := before + TwoOf(v, from, from + Threshold(h, v));
    assert Before(one) == before && Before(all) == one;
    assert RunStart(one) == from && RunStart(all) == from;
    assert FlipsNow(h, one) <==> Threshold(h, v) == 0.0;
    assert FlipsNow(h, all) <==> !FlipsNow(h, one);
  }

  lemma {:induction false} FastestIsOrdered(h: Thresholds, n: nat)
    requires ValidThresholds(h)
    ensures Ordered(Fastest(h, n)) && Least(h, n) >= 0.0
    ensures forall o :: o in Fastest(h, n) ==> 0.0 <= o.at <= Least(h, n)
  {
    if n > 0 {
      FastestIsOrdered(h, n - 1);
      var before, two := Fastest(h, n - 1), TwoOf(n % 2 == 1, Least(h, n - 1), Least(h, n));
      var all := before + two;
      forall i, j | 0 <= i < j < |all| ensures all[i].at <= all[j].at {
        assert i < |before| ==> before[i] in before;
      }
    }
  }

  lemma {:induction false} FastestFlips(h: Thresholds, n: nat)
    requires ValidThresholds(h)
    ensures Flips(h, Fastest(h, n)) == n && Available(h, Fastest(h, n)) == (n % 2 == 1)
  {
    if n > 0 {
      FastestFlips(h, n - 1);
      TwoFlipOnce(h, Fastest(h, n - 1), n % 2 == 1, Least(h, n - 1));
    }
  }

  /** N flips within exactly the bound are possible. */
  lemma BoundIsAttained(h: Thresholds, n: nat)
    requires ValidThresholds(h) && n > 0
    ensures var fastest := Fastest(h, n);
      && Ordered(fastest) && Flips(h, fastest) == n
      && LastOf(fastest).at - fastest[0].at == Times((n + 1) / 2, h.on) + Times(n / 2, h.off)
  {
    FastestIsOrdered(h, n);
    FastestFlips(h, n);
    LeastClosedForm(h, n);
    FastestStartsAtZero(h, n);
    hide Least, Flips, Ordered, Fastest;
  }

  lemma {:induction false} FastestStartsAtZero(h: Thresholds, n: nat)
    requires n > 0
    ensures Fastest(h, n)[0].at == 0.0 && LastOf(Fastest(h, n)).at == Least(h, n)
  {
    if n > 1 {
      FastestStartsAtZero(h, n - 1);
    }
  }
}
