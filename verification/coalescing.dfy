/** The decision rules of GroupRequests in common.go, with the goroutines
    and channels taken out: the listener's event-mask filter, the request
    coalescer's rate limit and the coordinator's handling of "work" and
    "poll" ticks. Timestamps are integers in nanoseconds, supplied with each
    event or tick in the order the goroutine sees them. */
module Coalescing {

  /** A file-system change: its operation bits and the time the coalescer
      takes the resulting request off the work queue. */
  datatype Event = Event(op: bv32, time: int)

  // ---------------------------------------------------------------------
  // Listener

  /** The listener's filter: an event is forwarded when its operation
      bits intersect the mask. */
  predicate Selected(e: Event, mask: bv32) {
    e.op & mask != 0
  }

  /** The times of the work requests the listener enqueues: one per event
      whose operation intersects the mask. */
  function Masked(events: seq<Event>, mask: bv32): (times: seq<int>)
    ensures |times| <= |events|
  {
    if events == [] then []
    else
      var rest := Masked(events[1..], mask);
      if Selected(events[0], mask) then [events[0].time] + rest else rest
  }

  /** A time is requested exactly when some event at that time has an
      operation in the mask. */
  lemma {:induction false} MaskedMembers(events: seq<Event>, mask: bv32, t: int)
    ensures t in Masked(events, mask) <==> exists k :: 0 <= k < |events| && Selected(events[k], mask) && events[k].time == t
  {
    if events != [] {
      MaskedMembers(events[1..], mask, t);
      if t in Masked(events[1..], mask) {
        var k :| 0 <= k < |events[1..]| && Selected(events[1..][k], mask) && events[1..][k].time == t;
        assert events[k + 1] == events[1..][k];
      }
      if exists k :: 0 <= k < |events| && Selected(events[k], mask) && events[k].time == t {
        var k :| 0 <= k < |events| && Selected(events[k], mask) && events[k].time == t;
        if k > 0 {
          assert events[1..][k - 1] == events[k];
        }
      }
    }
  }

  lemma {:induction false} MaskedAppend(a: seq<Event>, b: seq<Event>, mask: bv32)
    ensures Masked(a + b, mask) == Masked(a, mask) + Masked(b, mask)
  {
    if a != [] {
      assert (a + b)[1..] == a[1..] + b;
      MaskedAppend(a[1..], b, mask);
    } else {
      assert a + b == b;
    }
  }

  /** The listener loop, proved to enqueue what Masked says. */
  method Listen(events: seq<Event>, mask: bv32) returns (requests: seq<int>)
    ensures requests == Masked(events, mask)
  {
    requests := [];
    var i := 0;
    while i < |events|
      invariant 0 <= i <= |events|
      invariant requests == Masked(events[..i], mask)
    {
      if Selected(events[i], mask) {
        requests := requests + [events[i].time];
      }
      assert events[..i + 1] == events[..i] + [events[i]];
      MaskedAppend(events[..i], [events[i]], mask);
      assert Masked([events[i]], mask) == (if Selected(events[i], mask) then [events[i].time] else []) + Masked([], mask);
      i := i + 1;
    }
    assert events[..i] == events;
  }

  /** Events none of whose operations are in the mask request nothing. */
  lemma {:induction false} UnmaskedEventsRequestNothing(events: seq<Event>, mask: bv32)
    requires forall k :: 0 <= k < |events| ==> !Selected(events[k], mask)
    ensures Masked(events, mask) == []
  {
    if events != [] {
      UnmaskedEventsRequestNothing(events[1..], mask);
    }
  }

  // ---------------------------------------------------------------------
  // Request coalescer

  /** The coalescer's period: 150 * 1000 * 1000 ns, that is 150 ms. */
  const CoalescerPeriod: int := 150 * 1000 * 1000

  /** The "work" ticks the coalescer forwards, given the time of the last
      tick it forwarded: a request is forwarded when at least the period has
      passed since then, and only a forwarded request moves that time. */
  function CoalesceFrom(last: int, times: seq<int>): seq<int>
    decreases |times|
  {
    if times == [] then []
    else if times[0] - last >= CoalescerPeriod then [times[0]] + CoalesceFrom(times[0], times[1..])
    else CoalesceFrom(last, times[1..])
  }

  /** The coalescer goroutine, with lastWorkTime starting at 0. */
  method Coalesce(times: seq<int>) returns (forwarded: seq<int>)
    ensures forwarded == CoalesceFrom(0, times)
  {
    var lastWorkTime := 0;
    forwarded := [];
    var i := 0;
    while i < |times|
      invariant 0 <= i <= |times|
      invariant CoalesceFrom(0, times) == forwarded + CoalesceFrom(lastWorkTime, times[i..])
    {
      var now := times[i];
      assert times[i..][1..] == times[i + 1..];
      if now - lastWorkTime >= CoalescerPeriod {
        forwarded := forwarded + [now];
        lastWorkTime := now;
      }
      i := i + 1;
    }
  }

  /** Each forwarded tick is at least the period after the one before it
      (the first, after `last`). */
  ghost predicate Spaced(last: int, ticks: seq<int>) {
    && (|ticks| > 0 ==> ticks[0] - last >= CoalescerPeriod)
    && (forall k :: 0 < k < |ticks| ==> ticks[k] - ticks[k - 1] >= CoalescerPeriod)
  }

  lemma {:induction false} CoalesceSpaced(last: int, times: seq<int>)
    ensures Spaced(last, CoalesceFrom(last, times))
    decreases |times|
  {
    if times != [] {
      if times[0] - last >= CoalescerPeriod {
        var rest := CoalesceFrom(times[0], times[1..]);
        CoalesceSpaced(times[0], times[1..]);
        assert Spaced(times[0], rest);
        var r := [times[0]] + rest;
        forall k | 0 < k < |r|
          ensures r[k] - r[k - 1] >= CoalescerPeriod
        {
          assert r[k] == rest[k - 1];
          if k > 1 {
            assert r[k - 1] == rest[k - 2];
          }
        }
      } else {
        CoalesceSpaced(last, times[1..]);
      }
    }
  }

  /** Only requests are forwarded. */
  lemma {:induction false} CoalesceFromRequests(last: int, times: seq<int>)
    ensures forall t :: t in CoalesceFrom(last, times) ==> t in times
    decreases |times|
  {
    if times != [] {
      if times[0] - last >= CoalescerPeriod {
        CoalesceFromRequests(times[0], times[1..]);
      } else {
        CoalesceFromRequests(last, times[1..]);
      }
    }
  }

  /** Requests closer than the period to the last forwarded tick are all
      dropped. */
  lemma {:induction false} CoalesceQuiet(last: int, times: seq<int>)
    requires forall k :: 0 <= k < |times| ==> times[k] - last < CoalescerPeriod
    ensures CoalesceFrom(last, times) == []
    decreases |times|
  {
    if times != [] {
      CoalesceQuiet(last, times[1..]);
    }
  }

  /** The first request at least the period after the last forwarded tick
      is forwarded, before any other, and the period then restarts from it. */
  lemma {:induction false} CoalesceForwardsFirstDue(last: int, times: seq<int>, j: nat)
    requires j < |times| && times[j] - last >= CoalescerPeriod
    requires forall k :: 0 <= k < j ==> times[k] - last < CoalescerPeriod
    ensures CoalesceFrom(last, times) == [times[j]] + CoalesceFrom(times[j], times[j + 1..])
    decreases j
  {
    if j > 0 {
      var tail := times[1..];
      assert tail[j - 1] == times[j] && tail[j..] == times[j + 1..];
      assert forall k :: 0 <= k < j - 1 ==> tail[k] == times[k + 1];
      CoalesceForwardsFirstDue(last, tail, j - 1);
    }
  }

  /** Some tick is forwarded exactly when some request comes at least the
      period after the last forwarded tick. */
  lemma {:induction false} CoalesceForwardsIff(last: int, times: seq<int>)
    ensures CoalesceFrom(last, times) != [] <==> exists k :: 0 <= k < |times| && times[k] - last >= CoalescerPeriod
    decreases |times|
  {
    if times != [] {
      if times[0] - last >= CoalescerPeriod {
        CoalesceForwardsFirstDue(last, times, 0);
      } else {
        CoalesceForwardsIff(last, times[1..]);
        assert forall k :: 0 < k < |times| ==> times[1..][k - 1] == times[k];
        assert forall k :: 0 <= k < |times[1..]| ==> times[1..][k] == times[k + 1];
      }
    }
  }

  /** A burst of any number of requests whose times lie within less than
      the period of each other is forwarded as at most one tick. */
  lemma {:induction false} BurstForwardsAtMostOne(last: int, times: seq<int>)
    requires forall i, j :: 0 <= i < |times| && 0 <= j < |times| ==> times[j] - times[i] < CoalescerPeriod
    ensures |CoalesceFrom(last, times)| <= 1
    decreases |times|
  {
    if times != [] {
      if times[0] - last >= CoalescerPeriod {
        assert forall k :: 0 <= k < |times[1..]| ==> times[1..][k] == times[k + 1];
        CoalesceQuiet(times[0], times[1..]);
      } else {
        BurstForwardsAtMostOne(last, times[1..]);
      }
    }
  }

  // ---------------------------------------------------------------------
  // Coordinator

  /** What the coordinator goroutine receives on mergedChan. */
  datatype Tick = Work(now: int) | Poll(now: int)

  /** The coordinator's variables: runningPoller and lastTime. */
  datatype Coordinator = Coordinator(runningPoller: bool, lastTime: int)

  const InitialCoordinator := Coordinator(false, 0)

  /** The coordinator's period as written, `int64(150 * 000 * 000)`: the
      literal 000 is an octal zero, so the period is 0 ns. */
  const AsWrittenPeriod: int := 150 * 0 * 0

  /** The result of one tick: the new state, whether a poller was started
      and whether the work callback was invoked. */
  datatype StepResult = StepResult(next: Coordinator, startedPoller: bool, invokedWork: bool)

  /** One tick. "work": record the time, start the poller unless it runs.
      "poll": when more than `period` has passed since the last "work", call
      the work callback (whose result is `workOk`); success stops the
      poller, failure only leaves the switch, so the poller stays marked
      running. */
  function Step(c: Coordinator, tick: Tick, workOk: bool, period: int): (r: StepResult)
    ensures tick.Work? ==> r.next == Coordinator(true, tick.now) && r.startedPoller == !c.runningPoller && !r.invokedWork
    ensures tick.Poll? ==> !r.startedPoller && r.next.lastTime == c.lastTime
    ensures r.invokedWork <==> tick.Poll? && tick.now - c.lastTime > period
    ensures r.invokedWork && workOk ==> !r.next.runningPoller
    ensures !(r.invokedWork && workOk) && tick.Poll? ==> r.next == c
  {
    match tick
    case Work(now) => StepResult(Coordinator(true, now), !c.runningPoller, false)
    case Poll(now) =>
      if now - c.lastTime > period then
        if workOk then StepResult(c.(runningPoller := false), false, true)
        else StepResult(c, false, true)
      else StepResult(c, false, false)
  }

  /** A whole run of the coordinator: the final state, the times at which
      the work callback ran and the times at which a poller was started.
      `workOk(t)` is what the callback returns when called at time t. */
  datatype Run = Run(final: Coordinator, invoked: seq<int>, starts: seq<int>)

  function RunFrom(c: Coordinator, ticks: seq<Tick>, workOk: int -> bool, period: int): Run
    decreases |ticks|
  {
    if ticks == [] then Run(c, [], [])
    else
      var s := Step(c, ticks[0], workOk(ticks[0].now), period);
      var rest := RunFrom(s.next, ticks[1..], workOk, period);
      Run(rest.final,
          (if s.invokedWork then [ticks[0].now] else []) + rest.invoked,
          (if s.startedPoller then [ticks[0].now] else []) + rest.starts)
  }

  /** Running one more tick extends a run by that tick's step. */
  lemma {:induction false} RunFromSnoc(c: Coordinator, ticks: seq<Tick>, t: Tick, workOk: int -> bool, period: int)
    ensures var r := RunFrom(c, ticks, workOk, period);
            var s := Step(r.final, t, workOk(t.now), period);
            RunFrom(c, ticks + [t], workOk, period)
              == Run(s.next, r.invoked + (if s.invokedWork then [t.now] else []),
                     r.starts + (if s.startedPoller then [t.now] else []))
    decreases |ticks|
  {
    if ticks == [] {
      assert [] + [t] == [t];
    } else {
      assert (ticks + [t])[1..] == ticks[1..] + [t];
      var s := Step(c, ticks[0], workOk(ticks[0].now), period);
      RunFromSnoc(s.next, ticks[1..], t, workOk, period);
    }
  }

  /** The coordinator loop, with its variables updated in place. */
  method Coordinate(ticks: seq<Tick>, workOk: int -> bool, period: int) returns (r: Run)
    ensures r == RunFrom(InitialCoordinator, ticks, workOk, period)
  {
    var runningPoller := false;
    var lastTime := 0;
    var invoked: seq<int> := [];
    var starts: seq<int> := [];
    var i := 0;
    while i < |ticks|
      invariant 0 <= i <= |ticks|
      invariant RunFrom(InitialCoordinator, ticks[..i], workOk, period) == Run(Coordinator(runningPoller, lastTime), invoked, starts)
    {
      ghost var s := Step(Coordinator(runningPoller, lastTime), ticks[i], workOk(ticks[i].now), period);
      ghost var invokedBefore, startsBefore := invoked, starts;
      RunFromSnoc(InitialCoordinator, ticks[..i], ticks[i], workOk, period);
      assert ticks[..i + 1] == ticks[..i] + [ticks[i]];
      match ticks[i] {
        case Work(now) =>
        if !runningPoller {
          runningPoller := true;
          starts := starts + [now];
        }
        lastTime := now;
        case Poll(now) =>
          if now - lastTime > period {
            invoked := invoked + [now];
            if workOk(now) {
              runningPoller := false;
            }
          }
      }
      assert Coordinator(runningPoller, lastTime) == s.next;
      assert invoked == invokedBefore + (if s.invokedWork then [ticks[i].now] else []);
      assert starts == startsBefore + (if s.startedPoller then [ticks[i].now] else []);
      i := i + 1;
    }
    assert ticks[..i] == ticks;
    r := Run(Coordinator(runningPoller, lastTime), invoked, starts);
  }

  function PollTimes(ticks: seq<Tick>): (ts: seq<int>)
    ensures |ts| <= |ticks|
  {
    if ticks == [] then [] else (if ticks[0].Poll? then [ticks[0].now] else []) + PollTimes(ticks[1..])
  }

  function WorkTimes(ticks: seq<Tick>): (ts: seq<int>)
    ensures |ts| <= |ticks|
  {
    if ticks == [] then [] else (if ticks[0].Work? then [ticks[0].now] else []) + WorkTimes(ticks[1..])
  }

  /** The callback runs only on "poll" ticks, at most once per tick, so
      with no "poll" tick it never runs; pollers are started only on "work"
      ticks. */
  lemma {:induction false} RunInvokesOnPolls(c: Coordinator, ticks: seq<Tick>, workOk: int -> bool, period: int)
    ensures var r := RunFrom(c, ticks, workOk, period);
            && |r.invoked| <= |PollTimes(ticks)|
            && (forall t :: t in r.invoked ==> t in PollTimes(ticks))
            && |r.starts| <= |WorkTimes(ticks)|
            && (forall t :: t in r.starts ==> t in WorkTimes(ticks))
    decreases |ticks|
  {
    if ticks != [] {
      var s := Step(c, ticks[0], workOk(ticks[0].now), period);
      RunInvokesOnPolls(s.next, ticks[1..], workOk, period);
    }
  }

  /** As written, the coordinator's period is zero: a "poll" one nanosecond
      after a "work" already runs the callback, long before the burst it
      belongs to has had 150 ms to settle. */
  lemma AsWrittenPollDoesNotWait(t: int, workOk: int -> bool)
    ensures RunFrom(InitialCoordinator, [Work(t), Poll(t + 1)], workOk, AsWrittenPeriod).invoked == [t + 1]
  {
    var ticks := [Work(t), Poll(t + 1)];
    var s0 := Step(InitialCoordinator, Work(t), workOk(t), AsWrittenPeriod);
    assert s0.next == Coordinator(true, t);
    var s1 := Step(s0.next, Poll(t + 1), workOk(t + 1), AsWrittenPeriod);
    assert s1.invokedWork;
    assert ticks[1..] == [Poll(t + 1)];
    assert ticks[1..][1..] == [];
    assert RunFrom(s0.next, ticks[1..], workOk, AsWrittenPeriod).invoked == [t + 1];
  }

  /** The period the coordinator evidently means, 150 ms, the same as the
      coalescer beside it. */
  const IntendedPeriod: int := 150 * 1000 * 1000

  /** With the intended period, a "poll" runs the callback exactly when it
      comes more than 150 ms after the last "work". */
  lemma IntendedPollWaits(t: int, d: int, workOk: int -> bool)
    ensures RunFrom(InitialCoordinator, [Work(t), Poll(t + d)], workOk, IntendedPeriod).invoked
            == (if d > IntendedPeriod then [t + d] else [])
  {
    var ticks := [Work(t), Poll(t + d)];
    var s0 := Step(InitialCoordinator, Work(t), workOk(t), IntendedPeriod);
    assert s0.next == Coordinator(true, t);
    var s1 := Step(s0.next, Poll(t + d), workOk(t + d), IntendedPeriod);
    assert s1.invokedWork <==> d > IntendedPeriod;
    assert ticks[1..] == [Poll(t + d)];
    assert ticks[1..][1..] == [];
    assert RunFrom(s0.next, ticks[1..], workOk, IntendedPeriod).invoked == (if d > IntendedPeriod then [t + d] else []);
  }
}
