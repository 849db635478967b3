/** Deduplication of state signals, as the session-lock and DPMS managers do it.

    Every signal is compared with the last state under a mutex; a genuine transition is
    recorded and offered to a channel of fifty events, and dropped when the channel is full.
    The engine takes events from the other end at any moment. The two managers differ only
    in the type of the state (a boolean, or "on"/"off"). */
module Transitions {
  import opened Prelude

  const CAPACITY: nat := 50

  /** The manager's fields and the channel it feeds. */
  datatype Manager<T> = Manager(isFirstEvent: bool, lastState: T, out: seq<T>)

  predicate Accepts<T(==)>(m: Manager<T>, state: T) {
    m.isFirstEvent || m.lastState != state
  }

  predicate HasRoom<T>(m: Manager<T>) {
    |m.out| < CAPACITY
  }

  /** The manager after one signal. */
  function Update<T(==)>(m: Manager<T>, state: T): Manager<T> {
    if Accepts(m, state)
    then Manager(false, state, if HasRoom(m) then m.out + [state] else m.out)
    else m
  }

  /** The manager object. Only `UpdateState`, which holds the mutex, writes its fields. */
  class TransitionManager<T(==)> {
    var isFirstEvent: bool
    var lastState: T
    var out: seq<T>

    ghost function View(): Manager<T>
      reads this
    {
      Manager(isFirstEvent, lastState, out)
    }

    constructor (zero: T)
      ensures View() == Manager(true, zero, [])
    {
      isFirstEvent, lastState, out := true, zero, [];
    }

    method UpdateState(state: T)
      modifies this
      ensures View() == Update(old(View()), state)
    {
      if isFirstEvent || lastState != state {
        isFirstEvent := false;
        lastState := state;
        if |out| < CAPACITY {
          out := out + [state];
        }
      }
    }
  }

  // ------------------------------------------------------------------- runs

  datatype Action<T> = Signal(state: T) | Receive

  /** The manager together with what has happened to it so far. */
  datatype State<T> = State(
    m: Manager<T>,
    inputs: seq<T>,      // every signal, in the order the mutex serialised them
    accepted: seq<T>,    // the transitions
    sent: seq<T>,        // those that found room in the channel
    received: seq<T>,    // those the engine has taken
    trailing: nat)       // how many were dropped since the last one that was sent

  function Start<T>(zero: T): State<T> {
    State(Manager(true, zero, []), [], [], [], [], 0)
  }

  function Next<T(==)>(s: State<T>, a: Action<T>): Option<State<T>> {
    match a
    case Signal(x) =>
      var s' := s.(m := Update(s.m, x), inputs := s.inputs + [x]);
      if !Accepts(s.m, x) then Some(s')
      else if HasRoom(s.m) then
        Some(s'.(accepted := s.accepted + [x], sent := s.sent + [x], trailing := 0))
      else
        Some(s'.(accepted := s.accepted + [x], trailing := s.trailing + 1))
    case Receive =>
      if s.m.out == [] then None
      else Some(s.(m := s.m.(out := s.m.out[1..]), received := s.received + [s.m.out[0]]))
  }

  function Run<T(==)>(s: State<T>, actions: seq<Action<T>>): Option<State<T>> {
    if actions == [] then Some(s)
    else
      var before := Run(s, actions[..|actions| - 1]);
      if before.None? then None else Next(before.value, actions[|actions| - 1])
  }

  /** The signals among the actions. */
  function Signals<T>(actions: seq<Action<T>>): seq<T> {
    if actions == [] then []
    else
      var init, last := Signals(actions[..|actions| - 1]), actions[|actions| - 1];
      if last.Signal? then init + [last.state] else init
  }

  /** A sequence with each stretch of equal neighbours collapsed to one element. */
  function Collapse<T(==)>(s: seq<T>): seq<T> {
    if |s| <= 1 then s
    else
      var init := Collapse(s[..|s| - 1]);
      if s[|s| - 1] == s[|s| - 2] then init else init + [s[|s| - 1]]
  }

  ghost predicate NoRepeats<T>(s: seq<T>) {
    forall i :: 0 < i < |s| ==> s[i - 1] != s[i]
  }

  lemma CollapseAppend<T>(s: seq<T>, x: T)
    ensures Collapse(s + [x]) == if Last(s) == Some(x) then Collapse(s) else Collapse(s) + [x]
  {
    assert (s + [x])[..|s|] == s;
    if s == [] {
      assert s + [x] == [x];
    }
  }

  /** What collapsing means: neighbours differ, the last element is kept, order is kept, nothing is
      invented, and nothing is lost where there was nothing to collapse. */
  lemma {:induction false} CollapseMeaning<T>(s: seq<T>)
    ensures NoRepeats(Collapse(s))
    ensures Last(Collapse(s)) == Last(s)
    ensures IsSubsequence(Collapse(s), s)
    ensures NoRepeats(s) ==> Collapse(s) == s
  {
    if s != [] {
      var init, x := s[..|s| - 1], s[|s| - 1];
      assert s == init + [x];
      CollapseMeaning(init);
      CollapseAppend(init, x);
      SubsequenceExtends(Collapse(init), init, x);
      if NoRepeats(s) {
        NoRepeatsInit(init, x);
      }
    }
  }

  lemma NoRepeatsInit<T>(init: seq<T>, x: T)
    requires NoRepeats(init + [x])
    ensures NoRepeats(init) && Last(init) != Some(x)
  {
    var s := init + [x];
    forall i | 0 < i < |init| ensures init[i - 1] != init[i] {
      assert s[i - 1] == init[i - 1] && s[i] == init[i];
    }
    assert init != [] ==> s[|init| - 1] != s[|init|];
  }

  // -------------------------------------------------------------- invariant

  ghost predicate Inv<T>(s: State<T>) {
    && |s.m.out| <= CAPACITY
    && s.sent == s.received + s.m.out
    && s.accepted == Collapse(s.inputs)
    && IsSubsequence(s.sent, s.accepted)
    && s.m.isFirstEvent == (s.inputs == [])
    && (s.inputs != [] ==> Last(s.inputs) == Some(s.m.lastState) && s.sent != [])
    && (|s.sent| == |s.accepted| ==> s.trailing == 0)
  }

  lemma RepeatStep<T>(s: State<T>, x: T)
    requires Inv(s) && !Accepts(s.m, x)
    ensures Inv(Next(s, Signal(x)).value)
  {
    CollapseAppend(s.inputs, x);
  }

  lemma SendStep<T>(s: State<T>, x: T)
    requires Inv(s) && Accepts(s.m, x) && HasRoom(s.m)
    ensures Inv(Next(s, Signal(x)).value)
  {
    var t := Next(s, Signal(x)).value;
    CollapseAppend(s.inputs, x);
    SubsequenceExtends(s.sent, s.accepted, x);
    SubsequenceLength(s.sent, s.accepted);
    assert t.sent == t.received + t.m.out;
  }

  lemma DropStep<T>(s: State<T>, x: T)
    requires Inv(s) && Accepts(s.m, x) && !HasRoom(s.m)
    ensures Inv(Next(s, Signal(x)).value)
  {
    CollapseAppend(s.inputs, x);
    SubsequenceExtends(s.sent, s.accepted, x);
    SubsequenceLength(s.sent, s.accepted);
  }

  lemma ReceiveStep<T>(s: State<T>)
    requires Inv(s) && s.m.out != []
    ensures Inv(Next(s, Receive).value)
  {
    var t := Next(s, Receive).value;
    assert t.received + t.m.out == s.received + s.m.out;
  }

  lemma InvStep<T>(s: State<T>, a: Action<T>)
    requires Inv(s) && Next(s, a).Some?
    ensures Inv(Next(s, a).value)
  {
    if a.Receive? {
      ReceiveStep(s);
    } else if Accepts(s.m, a.state) {
      if HasRoom(s.m) {
        SendStep(s, a.state);
      } else {
        DropStep(s, a.state);
      }
    } else {
      RepeatStep(s, a.state);
    }
  }

  lemma {:induction false} InvRun<T>(zero: T, actions: seq<Action<T>>)
    requires Run(Start(zero), actions).Some?
    ensures Inv(Run(Start(zero), actions).value)
    ensures Run(Start(zero), actions).value.inputs == Signals(actions)
  {
    if actions != [] {
      var init := actions[..|actions| - 1];
      InvRun(zero, init);
      InvStep(Run(Start(zero), init).value, actions[|actions| - 1]);
    }
  }

  // ----------------------------------------------------------- main results

  /** Deduplication: for every merge of signals and every pace of the engine, the transitions are
      the signals with consecutive repeats collapsed, what is delivered is an in-order part of them
      and all of them unless one was dropped, and the recorded state is always the latest signal. */
  lemma Deduplicates<T>(zero: T, actions: seq<Action<T>>)
    requires Run(Start(zero), actions).Some?
    ensures var s := Run(Start(zero), actions).value;
            && s.accepted == Collapse(Signals(actions))
            && s.received + s.m.out == s.sent && |s.m.out| <= 50
            && IsSubsequence(s.sent, s.accepted)
            && (|s.sent| == |s.accepted| <==> s.sent == s.accepted)
            && (Signals(actions) != [] ==> Last(Signals(actions)) == Some(s.m.lastState))
            && (s.m.isFirstEvent <==> Signals(actions) == [])
  {
    InvRun(zero, actions);
    var s := Run(Start(zero), actions).value;
    SubsequenceLength(s.sent, s.accepted);
  }

  /** An engine that has never been fifty events behind has lost none. */
  ghost predicate NeverFull<T>(zero: T, actions: seq<Action<T>>) {
    forall n :: 0 <= n < |actions| ==>
      var r := Run(Start(zero), actions[..n]);
      r.Some? ==> |r.value.m.out| < 50
  }

  lemma PromptStep<T>(s: State<T>, a: Action<T>)
    requires s.sent == s.accepted && HasRoom(s.m) && Next(s, a).Some?
    ensures Next(s, a).value.sent == Next(s, a).value.accepted
  {
  }

  lemma {:induction false} PromptRun<T>(zero: T, actions: seq<Action<T>>)
    requires Run(Start(zero), actions).Some? && NeverFull(zero, actions)
    ensures Run(Start(zero), actions).value.sent == Run(Start(zero), actions).value.accepted
  {
    if actions != [] {
      var n := |actions| - 1;
      var init := actions[..n];
      forall k | 0 <= k < |init|
        ensures var r := Run(Start(zero), init[..k]); r.Some? ==> |r.value.m.out| < 50
      {
        assert init[..k] == actions[..k];
      }
      PromptRun(zero, init);
      PromptStep(Run(Start(zero), init).value, actions[n]);
    }
  }

  lemma PromptEngineLosesNothing<T>(zero: T, actions: seq<Action<T>>)
    requires Run(Start(zero), actions).Some? && NeverFull(zero, actions)
    ensures var s := Run(Start(zero), actions).value;
            s.received + s.m.out == Collapse(Signals(actions))
  {
    InvRun(zero, actions);
    PromptRun(zero, actions);
  }

  // -------------------------------------------- dropped events of two values

  /** Transitions between two values alternate, so the last event sent still tells the current state
      exactly when an even number of transitions was dropped after it. */
  ghost predicate ParityInv<T>(s: State<T>) {
    s.sent != [] ==> (Last(s.sent) == Some(s.m.lastState) <==> s.trailing % 2 == 0)
  }

  /** The manager has seen and sent only these two values. */
  ghost predicate TwoValued<T>(s: State<T>, a: T, b: T) {
    && (s.inputs != [] ==> s.m.lastState == a || s.m.lastState == b)
    && (s.sent != [] ==> s.sent[|s.sent| - 1] == a || s.sent[|s.sent| - 1] == b)
  }

  lemma ParityStep<T>(s: State<T>, x: Action<T>, a: T, b: T)
    requires Inv(s) && ParityInv(s) && TwoValued(s, a, b) && Next(s, x).Some?
    requires x.Signal? ==> x.state == a || x.state == b
    ensures ParityInv(Next(s, x).value) && TwoValued(Next(s, x).value, a, b)
  {
    if s.inputs == [] {
      SubsequenceLength(s.sent, s.accepted);
      assert s.m.out == [];
    } else if x.Signal? && Accepts(s.m, x.state) && !HasRoom(s.m) {
      var newest := s.sent[|s.sent| - 1];
      assert newest == x.state <==> newest != s.m.lastState;
    }
  }

  /** Booleans take two values anyway. */
  lemma BooleansTwoValued(s: State<bool>, x: Action<bool>)
    ensures TwoValued(s, false, true)
    ensures x.Signal? ==> x.state == false || x.state == true
  {
    var now: bool := s.m.lastState;
    assert now == false || now == true;
    if s.sent != [] {
      var newest: bool := s.sent[|s.sent| - 1];
      assert newest == false || newest == true;
    }
  }

  /** Locked and unlocked, or "on" and "off": for every run whose signals take two values. */
  lemma {:induction false} DropParity<T>(zero: T, actions: seq<Action<T>>, a: T, b: T)
    requires Run(Start(zero), actions).Some?
    requires forall x :: x in actions && x.Signal? ==> x.state == a || x.state == b
    ensures ParityInv(Run(Start(zero), actions).value)
    ensures TwoValued(Run(Start(zero), actions).value, a, b)
  {
    if actions != [] {
      var init := actions[..|actions| - 1];
      assert actions[|actions| - 1] in actions;
      InvRun(zero, init);
      DropParity(zero, init, a, b);
      ParityStep(Run(Start(zero), init).value, actions[|actions| - 1], a, b);
    }
  }
}
