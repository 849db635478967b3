/** The poll-interval mailbox between the interval producers and the telemetry loop.

    A producer (`handleConfigChange`, `updateIntervalForLockState`) stores the new interval
    under its mutex and then offers it to `resetChan`, a channel of five values; when the
    channel is full it drains one value and offers again. The telemetry loop takes values
    at any moment and resets its ticker with them. Every mutex region and every channel
    operation is one step, and the steps of all parties interleave freely. */
module Mailbox {
  import opened Prelude

  type Duration = int
  type CallId = nat

  const CAPACITY: nat := 5

  /** How far a producer call has come; every stage is entered after the interval is stored. */
  datatype Call =
    | Offering(value: Duration)
    | Draining(value: Duration)
    | Reoffering(value: Duration)

  datatype State = State(
    interval: Duration,
    queue: seq<Duration>,
    ticker: Duration,
    calls: map<CallId, Call>)

  datatype Action =
    | Begin(id: CallId, value: Duration)
    | Offer(id: CallId)
    | Drain(id: CallId)
    | Reoffer(id: CallId)
    | Consume

  /** Which calls may be in flight together: any, only calls with one value, or one at a time. */
  datatype Discipline = Free | Agreeing | Exclusive

  predicate Allows(d: Discipline, s: State, a: Action) {
    match (d, a)
    case (Agreeing, Begin(_, v)) => forall i :: i in s.calls ==> s.calls[i].value == v
    case (Exclusive, Begin(_, _)) => s.calls == map[]
    case _ => true
  }

  /** One step, or None when it is not enabled. */
  function Next(d: Discipline, s: State, a: Action): Option<State> {
    if !Allows(d, s, a) then None else
    match a
    case Begin(id, v) =>
      if id in s.calls then None
      else Some(s.(interval := v, calls := s.calls[id := Offering(v)]))
    case Offer(id) =>
      if id !in s.calls || !s.calls[id].Offering? then None
      else if |s.queue| < CAPACITY then
        Some(s.(queue := s.queue + [s.calls[id].value], calls := s.calls - {id}))
      else Some(s.(calls := s.calls[id := Draining(s.calls[id].value)]))
    case Drain(id) =>
      if id !in s.calls || !s.calls[id].Draining? then None
      else
        Some(s.(queue := if s.queue == [] then [] else s.queue[1..],
                calls := s.calls[id := Reoffering(s.calls[id].value)]))
    case Reoffer(id) =>
      if id !in s.calls || !s.calls[id].Reoffering? then None
      else if |s.queue| < CAPACITY then
        Some(s.(queue := s.queue + [s.calls[id].value], calls := s.calls - {id}))
      else Some(s.(calls := s.calls - {id}))
    case Consume =>
      if s.queue == [] then None
      else Some(s.(ticker := s.queue[0], queue := s.queue[1..]))
  }

  function Run(d: Discipline, s: State, actions: seq<Action>): Option<State> {
    if actions == [] then Some(s)
    else
      var before := Run(d, s, actions[..|actions| - 1]);
      if before.None? then None else Next(d, before.value, actions[|actions| - 1])
  }

  /** The engine at start: the ticker is created with the configured interval. */
  function Start(interval: Duration): State {
    State(interval, [], interval, map[])
  }

  /** The period the ticker will have once the queue is empty. */
  function Latest(s: State): Duration {
    if s.queue == [] then s.ticker else s.queue[|s.queue| - 1]
  }

  /** No producer is mid-call and the mailbox holds the newest interval. */
  ghost predicate Settled(s: State) {
    && |s.queue| <= CAPACITY
    && s.calls == map[]
    && Latest(s) == s.interval
  }

  // ---------------------------------------------------------------- invariant

  ghost predicate Coherent(s: State) {
    && |s.queue| <= CAPACITY
    && (forall i :: i in s.calls ==> s.calls[i].value == s.interval)
    && (forall i :: i in s.calls && s.calls[i].Reoffering? && |s.queue| == CAPACITY ==>
          Latest(s) == s.interval)
    && (s.calls == map[] ==> Latest(s) == s.interval)
  }

  ghost predicate Alone(s: State) {
    && (forall i, j :: i in s.calls && j in s.calls ==> i == j)
    && (forall i :: i in s.calls && s.calls[i].Reoffering? ==> |s.queue| < CAPACITY)
  }

  lemma CoherentStep(d: Discipline, s: State, a: Action)
    requires !d.Free? && Coherent(s) && Next(d, s, a).Some?
    ensures Coherent(Next(d, s, a).value)
  {
    var t := Next(d, s, a).value;
    match a
    case Begin(id, v) =>
      assert id in t.calls;
      if i :| i in s.calls { assert s.calls[i].value == v; }
    case Offer(id) =>
      if |s.queue| >= CAPACITY { assert id in t.calls; }
    case Drain(id) => assert id in t.calls;
    case Reoffer(id) =>
    case Consume =>
  }

  lemma AloneStep(s: State, a: Action)
    requires Coherent(s) && Alone(s) && Next(Exclusive, s, a).Some?
    ensures Alone(Next(Exclusive, s, a).value)
  {
  }

  lemma {:induction false} CoherentRun(d: Discipline, s: State, actions: seq<Action>)
    requires !d.Free? && Coherent(s) && Run(d, s, actions).Some?
    ensures Coherent(Run(d, s, actions).value)
    ensures d.Exclusive? && Alone(s) ==> Alone(Run(d, s, actions).value)
  {
    if actions != [] {
      var init := actions[..|actions| - 1];
      CoherentRun(d, s, init);
      CoherentStep(d, Run(d, s, init).value, actions[|actions| - 1]);
      if d.Exclusive? && Alone(s) {
        AloneStep(Run(d, s, init).value, actions[|actions| - 1]);
      }
    }
  }

  // ------------------------------------------------------------- main results

  /** Latest-value mailbox: in every interleaving of non-overlapping producer calls with the
      telemetry loop, the queue never exceeds its capacity, a second offer always finds room,
      and between calls the newest interval is the last queued value or already the ticker's. */
  lemma LatestValue(interval: Duration, actions: seq<Action>)
    requires Run(Exclusive, Start(interval), actions).Some?
    ensures var s := Run(Exclusive, Start(interval), actions).value;
            && |s.queue| <= 5
            && (s.calls == map[] ==> Latest(s) == s.interval)
            && (forall i :: i in s.calls && s.calls[i].Reoffering? ==>
                  |s.queue| < 5
                  && Next(Exclusive, s, Reoffer(i)).Some?
                  && Latest(Next(Exclusive, s, Reoffer(i)).value) == s.interval)
  {
    CoherentRun(Exclusive, Start(interval), actions);
  }

  /** Overlapping calls are harmless as long as the calls in flight together agree on the value. */
  lemma AgreeingCallsSettle(s: State, actions: seq<Action>)
    requires Settled(s) && Run(Agreeing, s, actions).Some?
    requires Run(Agreeing, s, actions).value.calls == map[]
    ensures Settled(Run(Agreeing, s, actions).value)
  {
    CoherentRun(Agreeing, s, actions);
  }

  // ------------------------------------------------ overlapping producer calls

  /** Every call begun is call 0 with value `a` or call 1 with value `b`. */
  ghost predicate OnlyCalls(actions: seq<Action>, a: Duration, b: Duration) {
    forall x :: x in actions && x.Begin? ==> x == Begin(0, a) || x == Begin(1, b)
  }

  /** If the schedule runs to the end of every call, the mailbox is settled again. */
  ghost predicate Harmless(s: State, actions: seq<Action>) {
    var r := Run(Free, s, actions);
    r.Some? && r.value.calls == map[] ==> Settled(r.value)
  }

  lemma {:induction false} EqualCallsAgree(s: State, actions: seq<Action>, v: Duration)
    requires s.calls == map[] && OnlyCalls(actions, v, v) && Run(Free, s, actions).Some?
    ensures Run(Agreeing, s, actions) == Run(Free, s, actions)
    ensures var t := Run(Free, s, actions).value;
            forall i :: i in t.calls ==> t.calls[i].value == v
  {
    if actions != [] {
      assert actions[|actions| - 1] in actions;
      EqualCallsAgree(s, actions[..|actions| - 1], v);
    }
  }

  lemma {:induction false} RunConcat(d: Discipline, s: State, xs: seq<Action>, ys: seq<Action>)
    requires Run(d, s, xs).Some?
    ensures Run(d, s, xs + ys) == Run(d, Run(d, s, xs).value, ys)
  {
    if ys == [] {
      assert xs + ys == xs;
    } else {
      var init := ys[..|ys| - 1];
      RunConcat(d, s, xs, init);
      assert (xs + ys)[..|xs + ys| - 1] == xs + init;
    }
  }

  /** The steps that finish a call nothing interferes with. */
  function Finish(s: State, id: CallId): seq<Action> {
    if |s.queue| < CAPACITY then [Offer(id)] else [Offer(id), Drain(id), Reoffer(id)]
  }

  lemma FinishQueuesLast(s: State, id: CallId)
    requires |s.queue| <= CAPACITY && id in s.calls && s.calls[id].Offering?
    ensures var r := Run(Free, s, Finish(s, id));
            && r.Some? && r.value.interval == s.interval && r.value.calls == s.calls - {id}
            && |r.value.queue| <= CAPACITY && r.value.queue != []
            && Latest(r.value) == s.calls[id].value
  {
    var steps := [Offer(id), Drain(id), Reoffer(id)];
    assert Run(Free, s, []) == Some(s);
    assert [Offer(id)][..0] == [];
    assert Run(Free, s, [Offer(id)]) == Next(Free, s, Offer(id));
    if |s.queue| == CAPACITY {
      var s1 := Next(Free, s, Offer(id)).value;
      assert [Offer(id), Drain(id)][..1] == [Offer(id)];
      var s2 := Next(Free, s1, Drain(id)).value;
      assert Run(Free, s, [Offer(id), Drain(id)]) == Some(s2);
      assert steps[..2] == [Offer(id), Drain(id)];
      assert Run(Free, s, steps) == Next(Free, s2, Reoffer(id));
      assert s2.calls - {id} == s.calls - {id};
    }
  }

  /** Two calls that both stored their interval before the later one queued its value first. */
  lemma CrossedCallsLoseTheNewest(s: State, a: Duration, b: Duration)
    returns (actions: seq<Action>)
    requires Settled(s) && a != b
    ensures OnlyCalls(actions, a, b) && !Harmless(s, actions)
  {
    var begins := [Begin(0, a), Begin(1, b)];
    var s1 := s.(interval := a, calls := s.calls[0 := Offering(a)]);
    var s2 := s1.(interval := b, calls := s1.calls[1 := Offering(b)]);
    assert begins[..1] == [Begin(0, a)] && [Begin(0, a)][..0] == [];
    assert Run(Free, s, []) == Some(s);
    assert Run(Free, s, begins[..1]) == Some(s1);
    assert Run(Free, s, begins) == Some(s2);
    FinishQueuesLast(s2, 1);
    var s3 := Run(Free, s2, Finish(s2, 1)).value;
    FinishQueuesLast(s3, 0);
    RunConcat(Free, s, begins, Finish(s2, 1));
    RunConcat(Free, s, begins + Finish(s2, 1), Finish(s3, 0));
    actions := begins + Finish(s2, 1) + Finish(s3, 0);
    assert s3.calls - {0} == map[];
  }

  /** Two calls that may overlap leave the mailbox holding the newest interval in every
      interleaving exactly when they carry the same value. */
  lemma OverlapSafeIffEqual(s: State, a: Duration, b: Duration)
    requires Settled(s)
    ensures (forall actions :: OnlyCalls(actions, a, b) ==> Harmless(s, actions)) <==> a == b
  {
    if a == b {
      forall actions | OnlyCalls(actions, a, b) ensures Harmless(s, actions) {
        var r := Run(Free, s, actions);
        if r.Some? && r.value.calls == map[] {
          EqualCallsAgree(s, actions, a);
          AgreeingCallsSettle(s, actions);
        }
      }
    } else {
      var actions := CrossedCallsLoseTheNewest(s, a, b);
    }
  }

  // ------------------------------------------------------- ticker safety

  /** The bounds the WebSocket reader puts on a requested interval, in milliseconds. */
  function ClampMs(requested: int): (ms: int)
    ensures 100 <= ms <= 10000
    ensures 100 <= requested <= 10000 ==> ms == requested
    ensures requested < 100 ==> ms == 100
    ensures requested > 10000 ==> ms == 10000
  {
    if requested < 100 then 100 else if requested > 10000 then 10000 else requested
  }

  /** Resetting a ticker with a period that is not positive panics. Whatever overlaps, this never
      happens while the start interval and every posted interval are positive. */
  lemma {:induction false} TickerStaysPositive(interval: Duration, actions: seq<Action>)
    requires interval > 0 && (forall a :: a in actions && a.Begin? ==> a.value > 0)
    requires Run(Free, Start(interval), actions).Some?
    ensures var s := Run(Free, Start(interval), actions).value;
            && s.ticker > 0 && s.interval > 0
            && (forall i :: 0 <= i < |s.queue| ==> s.queue[i] > 0)
            && (forall i :: i in s.calls ==> s.calls[i].value > 0)
  {
    if actions != [] {
      TickerStaysPositive(interval, actions[..|actions| - 1]);
      assert actions[|actions| - 1] in actions;
    }
  }

  const MILLISECOND: int := 1_000_000

  /** The action posts an interval requested over WebSocket, or one of the two configured ones. */
  ghost predicate RequestedOr(a: Action, normal: Duration, locked: Duration) {
    a.Begin? ==> a.value == normal || a.value == locked || exists ms :: a.value == ClampMs(ms) * MILLISECOND
  }

  /** So with positive configured intervals no WebSocket client can stop the telemetry loop, whatever it
      asks for. */
  lemma RequestsKeepTickerPositive(normal: Duration, locked: Duration, actions: seq<Action>)
    requires normal > 0 && locked > 0 && (forall a :: a in actions ==> RequestedOr(a, normal, locked))
    requires Run(Free, Start(normal), actions).Some?
    ensures Run(Free, Start(normal), actions).value.ticker > 0
  {
    forall a | a in actions && a.Begin? ensures a.value > 0 {
      assert RequestedOr(a, normal, locked);
    }
    TickerStaysPositive(normal, actions);
  }

  // ------------------------------------------------------- the code in place

  lemma {:induction false} ConsumeRun(d: Discipline, s: State, n: nat)
    requires n <= |s.queue|
    ensures Run(d, s, seq(n, _ => Consume))
            == Some(s.(queue := s.queue[n..], ticker := if n == 0 then s.ticker else s.queue[n - 1]))
  {
    if n != 0 {
      ConsumeRun(d, s, n - 1);
      var all := seq(n, _ => Consume);
      assert all[..n - 1] == seq(n - 1, _ => Consume) && all[n - 1] == Consume;
      assert s.queue[n - 1..][0] == s.queue[n - 1] && s.queue[n - 1..][1..] == s.queue[n..];
    }
  }

  /** The engine's interval, its reset channel and the telemetry ticker. The telemetry loop is
      another goroutine: wherever it can run, a parameter says how many resets it takes there.
      Each method also returns, as a ghost, the steps of the model it has taken since `start`. */
  class IntervalControl {
    var interval: Duration
    var resetChan: seq<Duration>
    var ticker: Duration

    ghost function View(): State
      reads this
    {
      State(interval, resetChan, ticker, map[])
    }

    /** The state while one producer call is in flight. */
    ghost function During(call: Call): State
      reads this
    {
      View().(calls := map[0 := call])
    }

    constructor (updateIntervalMs: int)
      ensures View() == Start(updateIntervalMs * MILLISECOND)
    {
      interval := updateIntervalMs * MILLISECOND;
      resetChan := [];
      ticker := updateIntervalMs * MILLISECOND;
    }

    /** The telemetry loop's reset branch, up to `limit` times. */
    method TakeResets(limit: nat, ghost start: State, ghost past: seq<Action>, ghost call: Call)
      returns (ghost steps: seq<Action>)
      requires Run(Exclusive, start, past) == Some(During(call))
      modifies this`resetChan, this`ticker
      ensures Run(Exclusive, start, steps) == Some(During(call))
      ensures |resetChan| <= |old(resetChan)|
    {
      var taken: nat := 0;
      while taken < limit && resetChan != []
        invariant taken <= limit && taken <= |old(resetChan)|
        invariant resetChan == old(resetChan)[taken..]
        invariant ticker == if taken == 0 then old(ticker) else old(resetChan)[taken - 1]
      {
        ticker, resetChan := resetChan[0], resetChan[1..];
        taken := taken + 1;
      }
      steps := past + seq(taken, _ => Consume);
      ConsumeRun(Exclusive, old(During(call)), taken);
      RunConcat(Exclusive, start, past, seq(taken, _ => Consume));
    }

    /** A non-blocking send on the reset channel. */
    method TrySend(duration: Duration, ghost start: State, ghost past: seq<Action>, ghost first: bool)
      returns (sent: bool, ghost steps: seq<Action>)
      requires Run(Exclusive, start, past)
               == Some(During(if first then Offering(duration) else Reoffering(duration)))
      modifies this`resetChan
      ensures sent == (|old(resetChan)| < CAPACITY)
      ensures resetChan == if sent then old(resetChan) + [duration] else old(resetChan)
      ensures Run(Exclusive, start, steps)
              == Some(if first && !sent then During(Draining(duration)) else View())
    {
      ghost var step := if first then Offer(0) else Reoffer(0);
      steps := past + [step];
      assert steps[..|past|] == past;
      ghost var before := During(if first then Offering(duration) else Reoffering(duration));
      assert before.calls - {0} == map[];
      assert before.calls[0 := Draining(duration)] == map[0 := Draining(duration)];
      sent := |resetChan| < CAPACITY;
      if sent {
        resetChan := resetChan + [duration];
      }
      assert Next(Exclusive, before, step)
          == Some(if first && !sent then During(Draining(duration)) else View());
    }

    /** A non-blocking receive that throws the value away. */
    method DropOldest(ghost duration: Duration, ghost start: State, ghost past: seq<Action>)
      returns (ghost steps: seq<Action>)
      requires Run(Exclusive, start, past) == Some(During(Draining(duration)))
      modifies this`resetChan
      ensures resetChan == if old(resetChan) == [] then [] else old(resetChan)[1..]
      ensures Run(Exclusive, start, steps) == Some(During(Reoffering(duration)))
    {
      steps := past + [Drain(0)];
      assert steps[..|past|] == past;
      ghost var before := During(Draining(duration));
      assert before.calls[0 := Reoffering(duration)] == map[0 := Reoffering(duration)];
      if resetChan != [] {
        resetChan := resetChan[1..];
      }
      assert Next(Exclusive, before, Drain(0)) == Some(During(Reoffering(duration)));
    }

    /** Stores the interval and posts it. Whatever the telemetry loop does meanwhile, the call is
        a run of the step model, and it leaves the mailbox settled on the new interval. */
    method HandleConfigChange(intervalMs: int, beforeOffer: nat, beforeDrain: nat, beforeReoffer: nat)
      returns (ghost steps: seq<Action>)
      requires Settled(View())
      modifies this
      ensures Run(Exclusive, old(View()), steps) == Some(View())
      ensures interval == intervalMs * 1_000_000
      ensures if resetChan == [] then ticker == interval else resetChan[|resetChan| - 1] == interval
      ensures |resetChan| <= 5 && Settled(View())
    {
      var duration := intervalMs * MILLISECOND;
      ghost var start := View();
      interval := duration;
      steps := [Begin(0, duration)];
      assert steps[..0] == [];
      steps := TakeResets(beforeOffer, start, steps, Offering(duration));
      var sent;
      sent, steps := TrySend(duration, start, steps, true);
      if !sent {
        steps := TakeResets(beforeDrain, start, steps, Draining(duration));
        steps := DropOldest(duration, start, steps);
        steps := TakeResets(beforeReoffer, start, steps, Reoffering(duration));
        sent, steps := TrySend(duration, start, steps, false);
      }
      assert sent;
    }
  }
}
