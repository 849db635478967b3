/** Device tracking across streams: the engine's mirror of the active devices, bootstrapping,
    clearing on stream loss, and the retry backoff.

    On each stream a tracker goroutine turns payloads into events and sends them, blocking, on
    a channel of ten; the engine receives them. When the stream is lost the tracker closes the
    channel; the engine drains it, forgets the devices, waits and connects again. */
module AdbTracking {
  import opened Prelude
  import opened AdbDevices

  const CAPACITY: nat := 10

  datatype State = State(
    streaming: bool,
    tracker: set<Serial>,      // the tracker's active devices, after the payload it is working on
    pending: seq<Event>,       // emitted for that payload and not yet sent
    channel: seq<Event>,
    closed: bool,
    serials: set<Serial>,      // the engine's activeSerials
    boots: seq<Serial>,        // every bootstrap ever started, in order
    emitted: seq<Event>,       // all events of the current stream
    received: seq<Event>,      // those the engine has handled
    mark: nat)                 // how many bootstraps had been started before this stream

  datatype Action =
    | Connect
    | ConnectFails
    | Snapshot(entries: seq<Entry>, events: seq<Event>)
    | Send
    | Lose
    | Receive
    | Return

  function Start(): State {
    State(false, {}, [], [], true, {}, [], [], [], 0)
  }

  /** The devices that came online, in order. */
  function Onlines(events: seq<Event>): seq<Serial> {
    if events == [] then []
    else
      var init, e := Onlines(events[..|events| - 1]), events[|events| - 1];
      if e.Online? then init + [e.serial] else init
  }

  ghost function Next(s: State, a: Action): Option<State> {
    match a
    case Connect =>
      if s.streaming then None
      else Some(State(true, {}, [], [], false, s.serials, s.boots, [], [], |s.boots|))
    case ConnectFails => if s.streaming then None else Some(s.(serials := {}))
    case Snapshot(entries, events) =>
      if !s.streaming || s.closed || s.pending != [] || !Emits(s.tracker, entries, events) then None
      else Some(s.(tracker := OnlineSet(entries), pending := events, emitted := s.emitted + events))
    case Send =>
      if s.pending == [] || |s.channel| >= CAPACITY then None
      else Some(s.(pending := s.pending[1..], channel := s.channel + [s.pending[0]]))
    case Lose => if !s.streaming || s.closed || s.pending != [] then None else Some(s.(closed := true))
    case Receive =>
      if !s.streaming || s.channel == [] then None
      else
        var e := s.channel[0];
        Some(s.(channel := s.channel[1..], received := s.received + [e],
                serials := if e.Online? then s.serials + {e.serial} else s.serials - {e.serial},
                boots := if e.Online? then s.boots + [e.serial] else s.boots))
    case Return =>
      if !s.streaming || !s.closed || s.channel != [] then None
      else Some(s.(streaming := false, serials := {}))
  }

  ghost function Run(actions: seq<Action>): Option<State> {
    if actions == [] then Some(Start())
    else
      var before := Run(actions[..|actions| - 1]);
      if before.None? then None else Next(before.value, actions[|actions| - 1])
  }

  // -------------------------------------------------------------- invariant

  ghost predicate Inv(s: State) {
    && |s.channel| <= CAPACITY
    && (!s.streaming ==> s.serials == {})
    && (s.streaming ==>
          && s.emitted == s.received + s.channel + s.pending
          && Genuine({}, s.emitted) && Apply({}, s.emitted) == s.tracker
          && s.serials == Apply({}, s.received)
          && s.mark <= |s.boots| && s.boots[s.mark..] == Onlines(s.received)
          && (s.closed ==> s.pending == []))
  }

  lemma ReceiveStep(s: State)
    requires Inv(s) && Next(s, Receive).Some?
    ensures Inv(Next(s, Receive).value)
  {
    var t, e := Next(s, Receive).value, s.channel[0];
    assert t.received[..|s.received|] == s.received;
    assert t.received + t.channel == s.received + s.channel;
    assert t.boots[s.mark..] == if e.Online? then s.boots[s.mark..] + [e.serial] else s.boots[s.mark..];
  }

  lemma SnapshotStep(s: State, entries: seq<Entry>, events: seq<Event>)
    requires Inv(s) && Next(s, Snapshot(entries, events)).Some?
    ensures Inv(Next(s, Snapshot(entries, events)).value)
  {
    var t := Next(s, Snapshot(entries, events)).value;
    ApplyConcat({}, s.emitted, events);
    assert t.emitted == t.received + t.channel + t.pending;
  }

  lemma SendStep(s: State)
    requires Inv(s) && Next(s, Send).Some?
    ensures Inv(Next(s, Send).value)
  {
    var t := Next(s, Send).value;
    assert t.channel + t.pending == s.channel + s.pending;
    if s.streaming {
      assert t.emitted == t.received + t.channel + t.pending;
    }
  }

  lemma InvStep(s: State, a: Action)
    requires Inv(s) && Next(s, a).Some?
    ensures Inv(Next(s, a).value)
  {
    match a
    case Snapshot(entries, events) => SnapshotStep(s, entries, events);
    case Send => SendStep(s);
    case Receive => ReceiveStep(s);
    case _ =>
  }

  lemma {:induction false} InvRun(actions: seq<Action>)
    requires Run(actions).Some?
    ensures Inv(Run(actions).value)
  {
    if actions != [] {
      InvRun(actions[..|actions| - 1]);
      InvStep(Run(actions[..|actions| - 1]).value, actions[|actions| - 1]);
    }
  }

  // ----------------------------------------------------------- main results

  /** Reconnect refinement: in every run of connects, payloads and stream losses, the engine's set with
      the unread events applied is the tracker's set, and between streams the engine's set is empty. */
  lemma MirrorRefinesTracker(actions: seq<Action>)
    requires Run(actions).Some?
    ensures var s := Run(actions).value;
            && (s.streaming ==> Apply(s.serials, s.channel + s.pending) == s.tracker)
            && (!s.streaming ==> s.serials == {})
            && |s.channel| <= 10
  {
    InvRun(actions);
    var s := Run(actions).value;
    if s.streaming {
      ApplyConcat({}, s.received, s.channel + s.pending);
      assert s.received + (s.channel + s.pending) == s.emitted;
    }
  }

  lemma {:induction false} ActiveCameOnline(events: seq<Event>, serial: Serial)
    requires serial in Apply({}, events)
    ensures serial in Onlines(events)
  {
    var e := events[|events| - 1];
    if e != Online(serial) {
      ActiveCameOnline(events[..|events| - 1], serial);
    }
  }

  /** On each stream a device is bootstrapped exactly once per online event handled, in order; so once
      the events are handled, every device the stream reports as active has been bootstrapped again,
      however often it was bootstrapped on earlier streams. */
  lemma BootstrappedOncePerOnline(actions: seq<Action>)
    requires Run(actions).Some? && Run(actions).value.streaming
    ensures var s := Run(actions).value;
            && s.mark <= |s.boots| && s.boots[s.mark..] == Onlines(s.received)
            && s.received <= s.emitted
            && (s.channel + s.pending == [] ==>
                  && s.boots[s.mark..] == Onlines(s.emitted)
                  && s.serials == s.tracker
                  && (forall x :: x in s.tracker ==> x in s.boots[s.mark..]))
  {
    InvRun(actions);
    var s := Run(actions).value;
    if s.channel + s.pending == [] {
      assert s.channel == [] && s.pending == [];
      assert s.received == s.emitted;
      forall x | x in s.tracker ensures x in s.boots[s.mark..] {
        ActiveCameOnline(s.emitted, x);
      }
    }
  }

  // -------------------------------------------- the state, from the schedule

  /** The engine has a stream: it connected and has not returned since. */
  function Streaming(actions: seq<Action>): bool {
    if actions == [] then false
    else
      var a := actions[|actions| - 1];
      if a.Connect? then true else if a.Return? then false else Streaming(actions[..|actions| - 1])
  }

  /** What has happened since the last connect. */
  function OnStream(actions: seq<Action>): seq<Action> {
    if actions == [] || actions[|actions| - 1].Connect? then []
    else OnStream(actions[..|actions| - 1]) + [actions[|actions| - 1]]
  }

  /** The entries of the newest snapshot. */
  function NewestEntries(actions: seq<Action>): seq<Entry> {
    if actions == [] then []
    else
      var a := actions[|actions| - 1];
      if a.Snapshot? then a.entries else NewestEntries(actions[..|actions| - 1])
  }

  /** The events of all snapshots. */
  function AllEvents(actions: seq<Action>): seq<Event> {
    if actions == [] then []
    else
      var a := actions[|actions| - 1];
      AllEvents(actions[..|actions| - 1]) + if a.Snapshot? then a.events else []
  }

  /** What a step does while it stays on the stream. */
  lemma StreamMoves(s: State, a: Action)
    requires Next(s, a).Some? && !a.Connect?
    ensures var t := Next(s, a).value;
            && t.streaming == (s.streaming && !a.Return?)
            && (if a.Snapshot? then t.tracker == OnlineSet(a.entries) && t.emitted == s.emitted + a.events
                else t.tracker == s.tracker && t.emitted == s.emitted)
            && (t.closed <==> s.closed || a.Lose?)
            && |t.received| == |s.received| + (if a.Receive? then 1 else 0)
            && |t.received| + |t.channel| == |s.received| + |s.channel| + (if a.Send? then 1 else 0)
  {
  }

  lemma ConnectMoves(s: State)
    requires Next(s, Connect).Some?
    ensures var t := Next(s, Connect).value;
            t.streaming && t.tracker == {} && t.emitted == [] && !t.closed && t.received == [] && t.channel == []
  {
  }

  lemma CountLast(init: seq<Action>, a: Action, x: Action)
    ensures multiset(init + [a])[x] == multiset(init)[x] + if a == x then 1 else 0
  {
  }

  ghost predicate FromStream(s: State, since: seq<Action>) {
    && s.tracker == OnlineSet(NewestEntries(since)) && s.emitted == AllEvents(since)
    && (s.closed <==> Lose in since)
    && |s.received| == multiset(since)[Receive]
    && |s.received| + |s.channel| == multiset(since)[Send]
  }

  /** On each stream: the tracker's set is that of the newest snapshot, it has emitted the events of all
      snapshots, the stream is closed once lost, and as many events were sent and received as the schedule
      has sends and receives. With the mirror invariant this leaves nothing open. */
  lemma {:induction false} StreamFromSchedule(actions: seq<Action>)
    requires Run(actions).Some?
    ensures Run(actions).value.streaming == Streaming(actions)
    ensures Streaming(actions) ==> FromStream(Run(actions).value, OnStream(actions))
  {
    if actions != [] {
      var init, a := actions[..|actions| - 1], actions[|actions| - 1];
      var s := Run(init).value;
      StreamFromSchedule(init);
      if a.Connect? {
        ConnectMoves(s);
        assert OnlineSet([]) == {};
      } else {
        StreamMoves(s, a);
        if Streaming(actions) {
          OneMore(s, Next(s, a).value, OnStream(init), a);
        }
      }
    }
  }

  lemma OneMore(s: State, t: State, since: seq<Action>, a: Action)
    requires FromStream(s, since) && !a.Connect?
    requires if a.Snapshot? then t.tracker == OnlineSet(a.entries) && t.emitted == s.emitted + a.events
             else t.tracker == s.tracker && t.emitted == s.emitted
    requires t.closed <==> s.closed || a.Lose?
    requires |t.received| == |s.received| + (if a.Receive? then 1 else 0)
    requires |t.received| + |t.channel| == |s.received| + |s.channel| + (if a.Send? then 1 else 0)
    ensures FromStream(t, since + [a])
  {
    assert (since + [a])[..|since|] == since;
    CountLast(since, a, Receive);
    CountLast(since, a, Send);
  }

  /** Bootstraps are never taken back. */
  lemma BootsGrow(actions: seq<Action>, a: Action)
    requires Run(actions).Some? && Next(Run(actions).value, a).Some?
    ensures Run(actions).value.boots <= Next(Run(actions).value, a).value.boots
  {
  }

  /** From any state on a stream the engine can handle all that was emitted, without any device changing. */
  lemma CanHandleAll(past: seq<Action>, s: State) returns (actions: seq<Action>, t: State)
    requires Run(past) == Some(s) && s.streaming
    ensures Run(actions) == Some(t) && t.streaming && t.tracker == s.tracker && t.channel + t.pending == []
    ensures t.serials == t.tracker
    decreases |s.channel| + 2 * |s.pending|
  {
    InvRun(past);
    if s.channel != [] {
      var u := Next(s, Receive).value;
      Extend(past, s, Receive);
      actions, t := CanHandleAll(past + [Receive], u);
    } else if s.pending != [] {
      var u := Next(s, Send).value;
      Extend(past, s, Send);
      actions, t := CanHandleAll(past + [Send], u);
    } else {
      actions, t := past, s;
      MirrorRefinesTracker(past);
      assert s.channel + s.pending == [];
    }
  }

  /** Events that bring exactly these devices online, from none. */
  lemma EventsTo(target: set<Serial>) returns (events: seq<Event>)
    ensures Genuine({}, events) && Apply({}, events) == target
  {
    if target == {} {
      events := [];
    } else {
      var x :| x in target;
      var before := EventsTo(target - {x});
      ApplyAppend({}, before, Online(x));
      events := before + [Online(x)];
      assert target == (target - {x}) + {x};
    }
  }

  /** However a run between two streams got there, the engine can connect again; whatever the new stream
      reports, every device that is online in it can be bootstrapped again and is then mirrored; and when
      the stream is lost the engine can return with no devices. */
  lemma BootstrapsAgain(past: seq<Action>, s: State, entries: seq<Entry>)
    returns (actions: seq<Action>, t: State, back: seq<Action>, u: State)
    requires Run(past) == Some(s) && !s.streaming
    ensures Run(actions) == Some(t) && t.streaming && t.serials == OnlineSet(entries)
    ensures t.mark <= |t.boots| && forall x :: x in OnlineSet(entries) ==> x in t.boots[t.mark..]
    ensures Run(back) == Some(u) && !u.streaming && u.serials == {}
  {
    Extend(past, s, Connect);
    var s1 := Next(s, Connect).value;
    var events := EventsTo(OnlineSet(entries));
    var snapshot := Snapshot(entries, events);
    Extend(past + [Connect], s1, snapshot);
    var s2 := Next(s1, snapshot).value;
    actions, t := CanHandleAll(past + [Connect] + [snapshot], s2);
    BootstrappedOncePerOnline(actions);
    back, u := CanReturn(actions, t);
  }

  lemma CanReturn(past: seq<Action>, s: State) returns (actions: seq<Action>, t: State)
    requires Run(past) == Some(s) && s.streaming && s.channel + s.pending == []
    ensures Run(actions) == Some(t) && !t.streaming && t.serials == {}
  {
    assert s.channel == [] && s.pending == [];
    if s.closed {
      Extend(past, s, Return);
      actions, t := past + [Return], Next(s, Return).value;
    } else {
      Extend(past, s, Lose);
      var s1 := Next(s, Lose).value;
      Extend(past + [Lose], s1, Return);
      actions, t := past + [Lose] + [Return], Next(s1, Return).value;
    }
  }

  lemma Extend(past: seq<Action>, s: State, a: Action)
    requires Run(past) == Some(s)
    ensures Run(past + [a]) == Next(s, a)
  {
    assert (past + [a])[..|past|] == past;
  }

  // ---------------------------------------------------------------- backoff

  function Pow2(n: nat): (p: nat)
    ensures p > 0
  {
    if n == 0 then 1 else 2 * Pow2(n - 1)
  }

  function Min(a: int, b: int): int {
    if a < b then a else b
  }

  /** How an attempt to track ended: not connected, or connected and lost after these events. */
  datatype Attempt = Refused | Established(events: seq<Event>)

  /** The failed attempts that followed the start or the last established stream. */
  function Failures(attempts: seq<Attempt>, i: nat): nat
    requires i < |attempts|
  {
    if i == 0 || attempts[i].Established? then 0 else Failures(attempts, i - 1) + 1
  }

  /** The wait the retry rule asks for after attempt `i`. */
  function Wait(lo: int, hi: int, attempts: seq<Attempt>, i: nat): int
    requires i < |attempts|
  {
    Min(lo * Pow2(Failures(attempts, i)), hi)
  }

  /** Doubling the wait and capping it is the closed form of the next failure. */
  lemma DoubleThenCap(lo: int, hi: int, attempts: seq<Attempt>, i: nat)
    requires 0 < lo <= hi && i < |attempts|
    ensures lo <= Wait(lo, hi, attempts, i) <= hi
    ensures i + 1 < |attempts| ==>
              Wait(lo, hi, attempts, i + 1)
              == if attempts[i + 1].Established? then lo else Min(2 * Wait(lo, hi, attempts, i), hi)
  {
    var n := Failures(attempts, i);
    Grows(lo, Pow2(n));
    assert lo * Pow2(n + 1) == 2 * (lo * Pow2(n));
    assert lo * Pow2(0) == lo;
  }

  lemma Grows(lo: int, k: nat)
    requires 0 < lo
    ensures k > 0 ==> lo <= lo * k
  {
  }

  /** All bootstraps a list of attempts leads to. */
  function AllOnlines(attempts: seq<Attempt>): seq<Serial> {
    if attempts == [] then []
    else
      var init, last := AllOnlines(attempts[..|attempts| - 1]), attempts[|attempts| - 1];
      if last.Refused? then init else init + Onlines(last.events)
  }

  /** The engine's tracking loop. Each attempt is an input; bootstraps and waits are recorded. */
  class Engine {
    var activeSerials: set<Serial>
    var boots: seq<Serial>

    constructor ()
      ensures activeSerials == {} && boots == []
    {
      activeSerials, boots := {}, [];
    }

    /** Handles the events of one stream until its channel is closed. */
    method TrackDevices(events: seq<Event>)
      modifies this
      ensures activeSerials == Apply(old(activeSerials), events)
      ensures boots == old(boots) + Onlines(events)
    {
      var i := 0;
      while i < |events|
        invariant 0 <= i <= |events|
        invariant activeSerials == Apply(old(activeSerials), events[..i])
        invariant boots == old(boots) + Onlines(events[..i])
      {
        assert events[..i + 1][..i] == events[..i];
        var e := events[i];
        if e.Online? {
          activeSerials := activeSerials + {e.serial};
          boots := boots + [e.serial];
        } else {
          activeSerials := activeSerials - {e.serial};
        }
        i := i + 1;
      }
      assert events[..i] == events;
    }

    /** Backoff closed form: in every run, the wait after an attempt is the minimum doubled once for
        each failed attempt since the start or the last established stream, capped at the maximum.
        After every attempt the devices are forgotten. */
    method Track(attempts: seq<Attempt>, retryMin: int, retryMax: int) returns (waits: seq<int>)
      requires 0 < retryMin <= retryMax
      modifies this
      ensures |waits| == |attempts|
      ensures forall i :: 0 <= i < |waits| ==>
        waits[i] == Wait(retryMin, retryMax, attempts, i) && retryMin <= waits[i] <= retryMax
      ensures attempts != [] ==> activeSerials == {}
      ensures boots == old(boots) + AllOnlines(attempts)
    {
      var backoff := retryMin;
      waits := [];
      var i := 0;
      while i < |attempts|
        invariant 0 <= i <= |attempts| && |waits| == i
        invariant forall k :: 0 <= k < i ==>
          waits[k] == Wait(retryMin, retryMax, attempts, k) && retryMin <= waits[k] <= retryMax
        invariant backoff == if i == 0 then retryMin else Min(2 * waits[i - 1], retryMax)
        invariant i > 0 ==> activeSerials == {}
        invariant boots == old(boots) + AllOnlines(attempts[..i])
      {
        assert attempts[..i + 1][..i] == attempts[..i];
        if attempts[i].Established? {
          TrackDevices(attempts[i].events);
        }
        activeSerials := {};
        if attempts[i].Established? {
          backoff := retryMin;
        }
        if i > 0 {
          DoubleThenCap(retryMin, retryMax, attempts, i - 1);
        }
        DoubleThenCap(retryMin, retryMax, attempts, i);
        assert retryMin * Pow2(0) == retryMin;
        waits := waits + [backoff];
        backoff := Min(backoff * 2, retryMax);
        i := i + 1;
      }
      assert attempts[..i] == attempts;
    }
  }
}
