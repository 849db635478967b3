/** Lock-driven throttling from the D-Bus signals to the telemetry ticker.

    Signals of two buses are deduplicated by the lock manager, queued for the engine's lock
    monitor, turned into a poll interval and posted through the mailbox to the telemetry loop.
    The four parties (two bus readers, monitor, telemetry loop) interleave freely. */
module Throttle {
  import opened Prelude
  import Mailbox
  import Transitions

  // ------------------------------------------------------------ bus signals

  datatype Bus = SessionBus | SystemBus
  datatype Argument = Flag(value: bool) | OtherArgument
  datatype BusSignal = BusSignal(bus: Bus, name: string, body: seq<Argument>)

  /** The lock state a signal reports, if it reports one. */
  function Reading(sig: BusSignal): Option<bool> {
    match sig.bus
    case SessionBus =>
      if sig.name == "org.freedesktop.ScreenSaver.ActiveChanged"
         || sig.name == "org.gnome.ScreenSaver.ActiveChanged"
      then
        if |sig.body| > 0 && sig.body[0].Flag? then Some(sig.body[0].value) else None
      else None
    case SystemBus =>
      if sig.name == "org.freedesktop.login1.Session.Lock" then Some(true)
      else if sig.name == "org.freedesktop.login1.Session.Unlock" then Some(false)
      else None
  }

  /** The signal reports this state: a screen saver's ActiveChanged on the session bus with a boolean as
      first argument, or login1's Lock or Unlock on the system bus. */
  predicate Reports(sig: BusSignal, locked: bool) {
    || (&& sig.bus == SessionBus
        && (sig.name == "org.freedesktop.ScreenSaver.ActiveChanged" || sig.name == "org.gnome.ScreenSaver.ActiveChanged")
        && |sig.body| > 0 && sig.body[0] == Flag(locked))
    || (sig.bus == SystemBus && sig.name == "org.freedesktop.login1.Session.Lock" && locked)
    || (sig.bus == SystemBus && sig.name == "org.freedesktop.login1.Session.Unlock" && !locked)
  }

  lemma ReadingMeaning(sig: BusSignal, locked: bool)
    ensures Reading(sig) == Some(locked) <==> Reports(sig, locked)
    ensures Reading(sig).None? <==> !Reports(sig, true) && !Reports(sig, false)
  {
    assert |"org.freedesktop.login1.Session.Lock"| != |"org.freedesktop.login1.Session.Unlock"|;
  }

  // ---------------------------------------------------------------- machine

  /** The two configured poll intervals. */
  datatype Config = Config(updateIntervalMs: int, lockedUpdateIntervalMs: int)

  function Period(c: Config, locked: bool): Mailbox.Duration {
    (if locked then c.lockedUpdateIntervalMs else c.updateIntervalMs) * Mailbox.MILLISECOND
  }

  /** The lock monitor: waiting, holding an event it has cached and broadcast, or posting. */
  datatype Monitor = Waiting | Holding(locked: bool) | Posting

  datatype State = State(
    source: Transitions.State<bool>,
    monitor: Monitor,
    box: Mailbox.State)

  datatype Action =
    | Deliver(sig: BusSignal)
    | Receive
    | Store
    | Offer
    | Drain
    | Reoffer
    | Consume

  function Start(c: Config): State {
    State(Transitions.Start(false), Waiting, Mailbox.Start(Period(c, false)))
  }

  /** One step of the monitor's call into the mailbox. */
  function Post(s: State, a: Mailbox.Action): Option<State> {
    var box := Mailbox.Next(Mailbox.Exclusive, s.box, a);
    if box.None? then None
    else Some(s.(box := box.value, monitor := if box.value.calls == map[] then Waiting else Posting))
  }

  function Next(c: Config, s: State, a: Action): Option<State> {
    match a
    case Deliver(sig) =>
      var reading := Reading(sig);
      if reading.None? then Some(s)
      else
        var source := Transitions.Next(s.source, Transitions.Signal(reading.value));
        if source.None? then None else Some(s.(source := source.value))
    case Receive =>
      var source := Transitions.Next(s.source, Transitions.Receive);
      if !s.monitor.Waiting? || source.None? then None
      else Some(s.(source := source.value, monitor := Holding(s.source.m.out[0])))
    case Store => if s.monitor.Holding? then Post(s, Mailbox.Begin(0, Period(c, s.monitor.locked))) else None
    case Offer => if s.monitor.Posting? then Post(s, Mailbox.Offer(0)) else None
    case Drain => if s.monitor.Posting? then Post(s, Mailbox.Drain(0)) else None
    case Reoffer => if s.monitor.Posting? then Post(s, Mailbox.Reoffer(0)) else None
    case Consume =>
      var box := Mailbox.Next(Mailbox.Exclusive, s.box, Mailbox.Consume);
      if box.None? then None else Some(s.(box := box.value))
  }

  function Run(c: Config, actions: seq<Action>): Option<State> {
    if actions == [] then Some(Start(c))
    else
      var before := Run(c, actions[..|actions| - 1]);
      if before.None? then None else Next(c, before.value, actions[|actions| - 1])
  }

  /** The lock states reported by the delivered signals, in order. */
  function Readings(actions: seq<Action>): seq<bool> {
    if actions == [] then []
    else
      var init, last := Readings(actions[..|actions| - 1]), actions[|actions| - 1];
      if last.Deliver? && Reading(last.sig).Some? then init + [Reading(last.sig).value] else init
  }

  /** The last delivered signal that reports a state reports this one. */
  ghost predicate ReportsLast(actions: seq<Action>, locked: bool) {
    exists i :: 0 <= i < |actions| && actions[i].Deliver? && Reports(actions[i].sig, locked) && NoneAfter(actions, i)
  }

  ghost predicate NoneAfter(actions: seq<Action>, i: int) {
    forall j :: 0 <= j && i < j < |actions| && actions[j].Deliver? ==>
      !Reports(actions[j].sig, true) && !Reports(actions[j].sig, false)
  }

  lemma {:induction false} ReadingsMeaning(actions: seq<Action>, locked: bool)
    ensures Last(Readings(actions)) == Some(locked) <==> ReportsLast(actions, locked)
    ensures Readings(actions) == [] <==> NoneAfter(actions, -1)
  {
    if actions != [] {
      var init, a := actions[..|actions| - 1], actions[|actions| - 1];
      ReadingsMeaning(init, locked);
      if a.Deliver? {
        ReadingMeaning(a.sig, locked);
      }
      LaterSignal(actions, locked);
    }
  }

  lemma SilentLast(actions: seq<Action>, i: int)
    requires actions != [] && -1 <= i < |actions| - 1
    requires var a := actions[|actions| - 1]; a.Deliver? ==> !Reports(a.sig, true) && !Reports(a.sig, false)
    ensures NoneAfter(actions, i) <==> NoneAfter(actions[..|actions| - 1], i)
  {
    var init := actions[..|actions| - 1];
    assert forall j :: 0 <= j < |init| ==> init[j] == actions[j];
  }

  lemma LaterSignal(actions: seq<Action>, locked: bool)
    requires actions != []
    ensures var init, a := actions[..|actions| - 1], actions[|actions| - 1];
            if a.Deliver? && (Reports(a.sig, true) || Reports(a.sig, false)) then
              !NoneAfter(actions, -1) && (ReportsLast(actions, locked) <==> Reports(a.sig, locked))
            else
              (NoneAfter(actions, -1) <==> NoneAfter(init, -1))
              && (ReportsLast(actions, locked) <==> ReportsLast(init, locked))
  {
    var init, n := actions[..|actions| - 1], |actions| - 1;
    assert forall j :: 0 <= j < n ==> init[j] == actions[j];
    if actions[n].Deliver? && (Reports(actions[n].sig, true) || Reports(actions[n].sig, false)) {
      assert NoneAfter(actions, n);
    } else {
      forall i | -1 <= i < n ensures NoneAfter(actions, i) <==> NoneAfter(init, i) {
        SilentLast(actions, i);
      }
      if ReportsLast(init, locked) {
        var i :| 0 <= i < n && init[i].Deliver? && Reports(init[i].sig, locked) && NoneAfter(init, i);
        assert Reports(actions[i].sig, locked) && NoneAfter(actions, i);
      }
      if ReportsLast(actions, locked) {
        var i :| 0 <= i < |actions| && actions[i].Deliver? && Reports(actions[i].sig, locked) && NoneAfter(actions, i);
        assert Reports(init[i].sig, locked) && NoneAfter(init, i);
      }
    }
  }

  /** Nothing is under way between the lock manager and the ticker. */
  ghost predicate Drained(s: State) {
    s.source.m.out == [] && s.monitor.Waiting? && s.box.queue == []
  }

  // -------------------------------------------------------------- invariant

  /** The interval the engine should be at after the events it has received. */
  function Wanted(c: Config, received: seq<bool>): Mailbox.Duration {
    Period(c, received != [] && received[|received| - 1])
  }

  ghost predicate SourceInv(source: Transitions.State<bool>) {
    Transitions.Inv(source) && Transitions.ParityInv(source)
  }

  ghost predicate BoxInv(c: Config, received: seq<bool>, monitor: Monitor, box: Mailbox.State) {
    && Mailbox.Coherent(box)
    && (box.calls == map[] <==> !monitor.Posting?)
    && (monitor.Holding? ==> Last(received) == Some(monitor.locked))
    && (!monitor.Holding? ==> box.interval == Wanted(c, received))
  }

  ghost predicate Inv(c: Config, s: State) {
    SourceInv(s.source) && BoxInv(c, s.source.received, s.monitor, s.box)
  }

  lemma SourceStep(s: Transitions.State<bool>, a: Transitions.Action<bool>)
    requires SourceInv(s) && Transitions.Next(s, a).Some?
    ensures SourceInv(Transitions.Next(s, a).value)
  {
    Transitions.InvStep(s, a);
    Transitions.BooleansTwoValued(s, a);
    Transitions.ParityStep(s, a, false, true);
  }

  lemma PostStep(c: Config, s: State, a: Mailbox.Action)
    requires BoxInv(c, s.source.received, s.monitor, s.box) && Post(s, a).Some? && !a.Consume?
    requires a.Begin? <==> s.monitor.Holding?
    requires a.Begin? ==> a == Mailbox.Begin(0, Period(c, s.monitor.locked))
    ensures var t := Post(s, a).value; BoxInv(c, t.source.received, t.monitor, t.box)
  {
    Mailbox.CoherentStep(Mailbox.Exclusive, s.box, a);
    if a.Begin? {
      assert 0 in Post(s, a).value.box.calls;
    }
  }

  lemma DeliverStep(c: Config, s: State, sig: BusSignal)
    requires Inv(c, s) && Next(c, s, Deliver(sig)).Some?
    ensures Inv(c, Next(c, s, Deliver(sig)).value)
  {
    var reading := Reading(sig);
    if reading.Some? {
      SourceStep(s.source, Transitions.Signal(reading.value));
      assert Next(c, s, Deliver(sig)).value.source.received == s.source.received;
    }
  }

  lemma ReceiveStep(c: Config, s: State)
    requires Inv(c, s) && Next(c, s, Receive).Some?
    ensures Inv(c, Next(c, s, Receive).value)
  {
    SourceStep(s.source, Transitions.Receive);
    var t := Next(c, s, Receive).value;
    assert t.source.received == s.source.received + [s.source.m.out[0]];
  }

  lemma InvStep(c: Config, s: State, a: Action)
    requires Inv(c, s) && Next(c, s, a).Some?
    ensures Inv(c, Next(c, s, a).value)
  {
    match a
    case Deliver(sig) => DeliverStep(c, s, sig);
    case Receive => ReceiveStep(c, s);
    case Store => PostStep(c, s, Mailbox.Begin(0, Period(c, s.monitor.locked)));
    case Offer => PostStep(c, s, Mailbox.Offer(0));
    case Drain => PostStep(c, s, Mailbox.Drain(0));
    case Reoffer => PostStep(c, s, Mailbox.Reoffer(0));
    case Consume => Mailbox.CoherentStep(Mailbox.Exclusive, s.box, Mailbox.Consume);
  }

  lemma InputsStep(c: Config, s: State, a: Action)
    requires Next(c, s, a).Some?
    ensures Next(c, s, a).value.source.inputs
            == s.source.inputs + if a.Deliver? && Reading(a.sig).Some? then [Reading(a.sig).value] else []
  {
  }

  lemma {:induction false} InputsRun(c: Config, actions: seq<Action>)
    requires Run(c, actions).Some?
    ensures Run(c, actions).value.source.inputs == Readings(actions)
  {
    if actions != [] {
      var init := actions[..|actions| - 1];
      InputsRun(c, init);
      InputsStep(c, Run(c, init).value, actions[|actions| - 1]);
    }
  }

  lemma {:induction false} InvRun(c: Config, actions: seq<Action>)
    requires Run(c, actions).Some?
    ensures Inv(c, Run(c, actions).value)
  {
    if actions != [] {
      var init := actions[..|actions| - 1];
      InvRun(c, init);
      InvStep(c, Run(c, init).value, actions[|actions| - 1]);
    }
  }

  // ----------------------------------------------------------- main results

  /** End-to-end throttle: for every sequence of signals on both buses and every interleaving, if no
      event was dropped, then once everything is drained the ticker runs at the locked interval when
      the last reported state was locked, and at the normal interval otherwise. */
  lemma TickerFollowsLock(c: Config, actions: seq<Action>)
    requires Run(c, actions).Some? && Drained(Run(c, actions).value)
    requires |Run(c, actions).value.source.sent| == |Run(c, actions).value.source.accepted|
    ensures Run(c, actions).value.box.ticker
            == if ReportsLast(actions, true) then c.lockedUpdateIntervalMs * 1_000_000
               else c.updateIntervalMs * 1_000_000
  {
    InvRun(c, actions);
    assert Run(c, actions).value.source.trailing == 0;
    TickerFollowsLockIff(c, actions);
  }

  /** The exact condition. With two different intervals and at least one reported state, the drained
      ticker is right if and only if an even number of transitions was dropped after the last one
      that reached the channel. */
  lemma TickerFollowsLockIff(c: Config, actions: seq<Action>)
    requires Run(c, actions).Some? && Drained(Run(c, actions).value)
    ensures var s := Run(c, actions).value;
            var right := s.box.ticker == if ReportsLast(actions, true) then c.lockedUpdateIntervalMs * 1_000_000
                                         else c.updateIntervalMs * 1_000_000;
            && (!ReportsLast(actions, true) && !ReportsLast(actions, false) ==> right)
            && (s.source.trailing % 2 == 0 ==> right)
            && ((ReportsLast(actions, true) || ReportsLast(actions, false))
                && c.updateIntervalMs != c.lockedUpdateIntervalMs ==>
                  (right <==> s.source.trailing % 2 == 0))
  {
    InvRun(c, actions);
    InputsReported(c, actions);
    DrainedTicker(c, Run(c, actions).value);
  }

  lemma InputsReported(c: Config, actions: seq<Action>)
    requires Run(c, actions).Some?
    ensures var inputs := Run(c, actions).value.source.inputs;
            && (Last(inputs) == Some(true) <==> ReportsLast(actions, true))
            && (inputs == [] <==> !ReportsLast(actions, true) && !ReportsLast(actions, false))
  {
    InputsRun(c, actions);
    ReadingsReported(actions);
  }

  lemma ReadingsReported(actions: seq<Action>)
    ensures Last(Readings(actions)) == Some(true) <==> ReportsLast(actions, true)
    ensures Readings(actions) == [] <==> !ReportsLast(actions, true) && !ReportsLast(actions, false)
  {
    ReadingsMeaning(actions, true);
    ReadingsMeaning(actions, false);
    LastIsBoolean(Readings(actions));
  }

  lemma LastIsBoolean(s: seq<bool>)
    ensures s == [] <==> Last(s) != Some(true) && Last(s) != Some(false)
  {
    if s != [] {
      var newest := s[|s| - 1];
      assert newest == true || newest == false;
    }
  }

  lemma DrainedTicker(c: Config, s: State)
    requires Inv(c, s) && Drained(s)
    ensures var right := s.box.ticker == if Last(s.source.inputs) == Some(true) then c.lockedUpdateIntervalMs * 1_000_000
                                         else c.updateIntervalMs * 1_000_000;
            && (s.source.inputs == [] ==> right)
            && (s.source.trailing % 2 == 0 ==> right)
            && (s.source.inputs != [] && c.updateIntervalMs != c.lockedUpdateIntervalMs ==>
                  (right <==> s.source.trailing % 2 == 0))
  {
    assert s.source.sent == s.source.received;
    assert s.box.ticker == Wanted(c, s.source.sent);
    if s.source.inputs == [] {
      SubsequenceLength(s.source.sent, s.source.accepted);
    } else {
      var sent, now := s.source.sent[|s.source.sent| - 1], s.source.m.lastState;
      assert Last(s.source.inputs) == Some(now);
      assert s.box.ticker == Period(c, sent);
      assert sent == now <==> s.source.trailing % 2 == 0;
    }
  }

  // ------------------------------------------------- it can always be drained

  /** The mailbox has no call but the monitor's. */
  ghost predicate OwnCall(s: State) {
    forall i :: i in s.box.calls ==> i == 0
  }

  lemma {:induction false} OwnCallRun(c: Config, actions: seq<Action>)
    requires Run(c, actions).Some?
    ensures OwnCall(Run(c, actions).value)
  {
    if actions != [] {
      OwnCallRun(c, actions[..|actions| - 1]);
    }
  }

  /** How far the monitor is from waiting again. */
  function Stage(s: State): nat {
    match s.monitor
    case Waiting => 0
    case Holding(_) => 4
    case Posting =>
      if 0 !in s.box.calls then 0
      else match s.box.calls[0] case Offering(_) => 3 case Draining(_) => 2 case Reoffering(_) => 1
  }

  /** In every state that is not drained some party can move, and it gets nearer. */
  lemma SomeoneMoves(c: Config, s: State) returns (a: Action)
    requires Inv(c, s) && OwnCall(s) && !Drained(s)
    ensures !a.Deliver? && Next(c, s, a).Some?
    ensures var t := Next(c, s, a).value;
            || |t.source.m.out| < |s.source.m.out|
            || (t.source.m.out == s.source.m.out && Stage(t) < Stage(s))
            || (t.source.m.out == s.source.m.out && Stage(t) == Stage(s) && |t.box.queue| < |s.box.queue|)
  {
    match s.monitor
    case Waiting =>
      a := if s.source.m.out != [] then Receive else Consume;
    case Holding(locked) =>
      a := Store;
      assert 0 in Next(c, s, a).value.box.calls;
    case Posting =>
      assert s.box.calls.Keys <= {0} && s.box.calls != map[];
      assert 0 in s.box.calls;
      match s.box.calls[0]
      case Offering(v) => a := Offer;
      case Draining(v) => a := Drain;
      case Reoffering(v) => a := Reoffer;
  }

  /** So after any run the queues can be drained without another signal, and the promises above are never
      empty. */
  lemma CanDrain(c: Config, actions: seq<Action>) returns (more: seq<Action>)
    requires Run(c, actions).Some?
    ensures Run(c, actions + more).Some? && Drained(Run(c, actions + more).value)
    ensures forall a :: a in more ==> !a.Deliver?
  {
    more := [];
    var all, s := actions, Run(c, actions).value;
    assert actions + more == actions;
    while !Drained(s)
      invariant all == actions + more && Run(c, all) == Some(s)
      invariant forall a :: a in more ==> !a.Deliver?
      decreases |s.source.m.out|, Stage(s), |s.box.queue|
    {
      InvRun(c, all);
      OwnCallRun(c, all);
      var a := SomeoneMoves(c, s);
      var _ := Extend(c, all, s, a);
      all, more, s := all + [a], more + [a], Next(c, s, a).value;
      assert all == actions + more;
    }
  }

  // ------------------------------------------------------ a dropped event

  function LockSignal(locked: bool): BusSignal {
    BusSignal(SystemBus,
              if locked then "org.freedesktop.login1.Session.Lock" else "org.freedesktop.login1.Session.Unlock",
              [])
  }

  lemma LockSignalReads(locked: bool)
    ensures Reading(LockSignal(locked)) == Some(locked)
  {
    var lock, unlock := "org.freedesktop.login1.Session.Lock", "org.freedesktop.login1.Session.Unlock";
    assert |lock| != |unlock|;
  }

  lemma Extend(c: Config, actions: seq<Action>, s: State, a: Action) returns (actions': seq<Action>)
    requires Run(c, actions) == Some(s)
    ensures actions' == actions + [a] && Run(c, actions') == Next(c, s, a)
    ensures Readings(actions') == Readings(actions)
                                  + if a.Deliver? && Reading(a.sig).Some? then [Reading(a.sig).value] else []
  {
    actions' := actions + [a];
    assert actions'[..|actions|] == actions;
  }

  /** One signal that reports a transition. */
  lemma Switch(c: Config, actions: seq<Action>, s: State, locked: bool) returns (actions': seq<Action>, s': State)
    requires Run(c, actions) == Some(s) && Transitions.Accepts(s.source.m, locked)
    ensures Run(c, actions') == Some(s') && Readings(actions') != []
    ensures s'.monitor == s.monitor && s'.box == s.box && s'.source.m.lastState == locked
    ensures !s'.source.m.isFirstEvent
    ensures var sent := Transitions.HasRoom(s.source.m);
            && |s'.source.m.out| == |s.source.m.out| + (if sent then 1 else 0)
            && s'.source.trailing == if sent then 0 else s.source.trailing + 1
  {
    LockSignalReads(locked);
    actions' := Extend(c, actions, s, Deliver(LockSignal(locked)));
    s' := Next(c, s, Deliver(LockSignal(locked))).value;
  }

  /** Nothing is under way behind the channel of lock events. */
  ghost predicate Idle(s: State) {
    s.monitor.Waiting? && s.box.queue == [] && s.box.calls == map[]
  }

  /** The monitor takes one event, posts its interval, and the telemetry loop takes that. */
  lemma Handle(c: Config, actions: seq<Action>, s: State) returns (actions': seq<Action>, s': State)
    requires Run(c, actions) == Some(s) && Idle(s) && s.source.m.out != []
    ensures Run(c, actions') == Some(s') && Idle(s') && Readings(actions') == Readings(actions)
    ensures |s'.source.m.out| == |s.source.m.out| - 1 && s'.source.trailing == s.source.trailing
  {
    var a1 := Extend(c, actions, s, Receive);
    var s1 := Next(c, s, Receive).value;
    var a2 := Extend(c, a1, s1, Store);
    var s2 := Next(c, s1, Store).value;
    assert 0 in s2.box.calls;
    var a3 := Extend(c, a2, s2, Offer);
    var s3 := Next(c, s2, Offer).value;
    assert s2.box.calls - {0} == map[];
    actions' := Extend(c, a3, s3, Consume);
    s' := Next(c, s3, Consume).value;
  }

  /** The failing side is real: with two different intervals, fifty-one alternating signals before the
      monitor runs leave the drained ticker at the interval of the wrong state. */
  lemma DroppedEventSticks(c: Config) returns (actions: seq<Action>)
    requires c.updateIntervalMs != c.lockedUpdateIntervalMs
    ensures Run(c, actions).Some?
    ensures var s := Run(c, actions).value;
            && Drained(s)
            && s.source.trailing == 1
            && (if ReportsLast(actions, true) then s.box.ticker == c.updateIntervalMs * 1_000_000
                else s.box.ticker == c.lockedUpdateIntervalMs * 1_000_000)
  {
    var s := Start(c);
    actions := [];
    var locked := true;
    while s.source.trailing == 0
      invariant Run(c, actions) == Some(s) && Idle(s)
      invariant |s.source.m.out| <= Transitions.CAPACITY && s.source.trailing <= 1
      invariant s.source.m.isFirstEvent || s.source.m.lastState != locked
      invariant s.source.trailing == 1 ==> Readings(actions) != []
      decreases 1 - s.source.trailing, Transitions.CAPACITY - |s.source.m.out|
    {
      actions, s := Switch(c, actions, s, locked);
      locked := !locked;
    }
    while s.source.m.out != []
      invariant Run(c, actions) == Some(s) && Idle(s)
      invariant s.source.trailing == 1 && Readings(actions) != []
      decreases |s.source.m.out|
    {
      actions, s := Handle(c, actions, s);
    }
    Stuck(c, actions, s);
  }

  lemma Stuck(c: Config, actions: seq<Action>, s: State)
    requires c.updateIntervalMs != c.lockedUpdateIntervalMs
    requires Run(c, actions) == Some(s) && Drained(s) && s.source.trailing == 1 && Readings(actions) != []
    ensures if ReportsLast(actions, true) then s.box.ticker == c.updateIntervalMs * 1_000_000
            else s.box.ticker == c.lockedUpdateIntervalMs * 1_000_000
  {
    InvRun(c, actions);
    InputsRun(c, actions);
    InputsReported(c, actions);
    DrainedTicker(c, s);
    WrongIsOther(c, s);
  }

  /** A drained ticker runs at one of the two intervals. */
  lemma WrongIsOther(c: Config, s: State)
    requires Inv(c, s) && Drained(s)
    ensures s.box.ticker == c.updateIntervalMs * 1_000_000 || s.box.ticker == c.lockedUpdateIntervalMs * 1_000_000
  {
    assert s.box.ticker == Wanted(c, s.source.received);
  }
}
