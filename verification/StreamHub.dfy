/** Stream subscriptions of the ConnectRPC server.

    Each stream owns a channel of ten messages. Subscribing, and unsubscribing together with
    closing the channel, happen under the write lock; a broadcast holds the read lock while it
    offers its message to every subscriber in turn and skips the full ones. Several broadcasts
    may hold the read lock at once. Each lock region and each channel operation is one step. */
module StreamHub {
  import opened Prelude

  type Id = nat        // a stream and its channel
  type Writer = nat    // a goroutine that broadcasts

  const CAPACITY: nat := 10

  datatype Msg<V> = Msg(writer: Writer, body: V)

  /** A channel with its history. `joined` and `left` are positions in the log of broadcasts. */
  datatype Channel<V> = Channel(
    joined: nat,
    left: Option<nat>,
    queue: seq<Msg<V>>,
    offered: seq<Msg<V>>,
    accepted: seq<Msg<V>>,
    received: seq<Msg<V>>,
    closes: nat)

  /** A broadcast in progress: its message and the subscribers it has not come to yet. */
  datatype Broadcast<V> = Broadcast(body: V, pending: set<Id>)

  datatype State<V> = State(
    log: seq<Msg<V>>,
    streams: set<Id>,                      // stream goroutines that are running
    subscribers: set<Id>,                  // channels in the server's map
    channels: map<Id, Channel<V>>,         // every channel ever made
    sending: map<Writer, Broadcast<V>>,    // holders of the read lock
    panicked: bool)                        // a send on, or a close of, a closed channel

  datatype Action<V> =
    | Subscribe(id: Id)
    | Begin(writer: Writer, body: V)
    | Deliver(writer: Writer, id: Id)
    | End(writer: Writer)
    | Receive(id: Id)
    | Unsubscribe(id: Id)

  function Start<V>(): State<V> {
    State([], {}, {}, map[], map[], false)
  }

  /** A non-blocking send on an open channel. */
  function Offer<M>(queue: seq<M>, m: M): seq<M> {
    if |queue| < CAPACITY then queue + [m] else queue
  }

  function Offered<V>(c: Channel<V>, m: Msg<V>): Channel<V> {
    c.(queue := Offer(c.queue, m),
       offered := c.offered + [m],
       accepted := if |c.queue| < CAPACITY then c.accepted + [m] else c.accepted)
  }

  function Next<V>(s: State<V>, a: Action<V>): Option<State<V>> {
    match a
    case Subscribe(id) =>
      if id in s.channels || s.sending != map[] then None
      else
        Some(s.(streams := s.streams + {id}, subscribers := s.subscribers + {id},
                channels := s.channels[id := Channel(|s.log|, None, [], [], [], [], 0)]))
    case Begin(w, v) =>
      if w in s.sending then None
      else
        Some(s.(log := s.log + [Msg(w, v)],
                sending := s.sending[w := Broadcast(v, s.subscribers)]))
    case Deliver(w, id) =>
      if w !in s.sending || id !in s.sending[w].pending || id !in s.channels then None
      else if s.channels[id].closes > 0 then Some(s.(panicked := true))
      else
        Some(s.(channels := s.channels[id := Offered(s.channels[id], Msg(w, s.sending[w].body))],
                sending := s.sending[w := s.sending[w].(pending := s.sending[w].pending - {id})]))
    case End(w) =>
      if w !in s.sending || s.sending[w].pending != {} then None
      else Some(s.(sending := s.sending - {w}))
    case Receive(id) =>
      if id !in s.streams || id !in s.channels || s.channels[id].queue == [] then None
      else
        var c := s.channels[id];
        Some(s.(channels := s.channels[id := c.(queue := c.queue[1..], received := c.received + [c.queue[0]])]))
    case Unsubscribe(id) =>
      if id !in s.streams || id !in s.channels || s.sending != map[] then None
      else
        var c := s.channels[id];
        Some(s.(streams := s.streams - {id}, subscribers := s.subscribers - {id},
                channels := s.channels[id := c.(closes := c.closes + 1, left := Some(|s.log|))],
                panicked := s.panicked || c.closes > 0))
  }

  function Run<V>(actions: seq<Action<V>>): Option<State<V>> {
    if actions == [] then Some(Start())
    else
      var before := Run(actions[..|actions| - 1]);
      if before.None? then None else Next(before.value, actions[|actions| - 1])
  }

  // -------------------------------------------------------------- invariant

  /** The messages of one writer, in order. */
  function Of<V>(w: Writer, ms: seq<Msg<V>>): seq<Msg<V>> {
    if ms == [] then []
    else
      var init, last := Of(w, ms[..|ms| - 1]), ms[|ms| - 1];
      if last.writer == w then init + [last] else init
  }

  lemma OfAppend<V>(w: Writer, ms: seq<Msg<V>>, m: Msg<V>)
    ensures Of(w, ms + [m]) == if m.writer == w then Of(w, ms) + [m] else Of(w, ms)
  {
    assert (ms + [m])[..|ms|] == ms;
  }

  /** The broadcasts made while the stream was subscribed. */
  function Window<V>(s: State<V>, id: Id): seq<Msg<V>>
    requires id in s.channels
  {
    var c := s.channels[id];
    var end := if c.left.Some? then c.left.value else |s.log|;
    if c.joined <= end <= |s.log| then s.log[c.joined..end] else []
  }

  /** What writer `w` is about to offer to `id`. */
  function Due<V>(s: State<V>, w: Writer, id: Id): seq<Msg<V>> {
    if w in s.sending && id in s.sending[w].pending then [Msg(w, s.sending[w].body)] else []
  }

  ghost predicate ChannelInv<V>(s: State<V>, id: Id)
    requires id in s.channels
  {
    var c := s.channels[id];
    && |c.queue| <= CAPACITY
    && c.accepted == c.received + c.queue
    && IsSubsequence(c.accepted, c.offered)
    && c.joined <= (if c.left.Some? then c.left.value else |s.log|) <= |s.log|
    && c.closes == (if id in s.subscribers then 0 else 1)
    && (id in s.subscribers <==> c.left.None?)
  }

  ghost predicate WindowInv<V>(s: State<V>, id: Id, w: Writer)
    requires id in s.channels
  {
    Of(w, s.channels[id].offered) + Due(s, w, id) == Of(w, Window(s, id))
  }

  ghost predicate Inv<V>(s: State<V>) {
    && !s.panicked
    && s.streams == s.subscribers
    && s.subscribers <= s.channels.Keys
    && (forall w :: w in s.sending ==> s.sending[w].pending <= s.subscribers)
    && (forall id :: id in s.channels ==> ChannelInv(s, id))
    && (forall id, w :: id in s.channels ==> WindowInv(s, id, w))
  }

  /** A channel whose own record did not change, in a log that only grew. */
  lemma ChannelKept<V>(s: State<V>, t: State<V>, id: Id)
    requires id in s.channels && ChannelInv(s, id)
    requires id in t.channels && t.channels[id] == s.channels[id]
    requires |s.log| <= |t.log| && (id in t.subscribers <==> id in s.subscribers)
    ensures ChannelInv(t, id)
  {
  }

  lemma ChannelOffered<V>(s: State<V>, w: Writer, id: Id)
    requires id in s.channels && ChannelInv(s, id) && Next(s, Deliver(w, id)).Some? && s.channels[id].closes == 0
    ensures ChannelInv(Next(s, Deliver(w, id)).value, id)
  {
    var c, m := s.channels[id], Msg(w, s.sending[w].body);
    SubsequenceExtends(c.accepted, c.offered, m);
    assert c.received + (c.queue + [m]) == c.accepted + [m];
  }

  lemma ChannelReceived<V>(s: State<V>, id: Id)
    requires id in s.channels && ChannelInv(s, id) && Next(s, Receive(id)).Some?
    ensures ChannelInv(Next(s, Receive(id)).value, id)
  {
    var c := s.channels[id];
    assert c.received + [c.queue[0]] + c.queue[1..] == c.received + c.queue;
  }

  lemma ChannelStep<V>(s: State<V>, a: Action<V>, id: Id)
    requires Next(s, a).Some? && id in Next(s, a).value.channels
    requires id in s.channels ==> ChannelInv(s, id)
    requires s.streams == s.subscribers <= s.channels.Keys
    requires a.Deliver? ==> a.id in s.channels && s.channels[a.id].closes == 0
    ensures ChannelInv(Next(s, a).value, id)
  {
    var t := Next(s, a).value;
    if id in s.channels {
      if a.Deliver? && a.id == id {
        ChannelOffered(s, a.writer, id);
      } else if a.Receive? && a.id == id {
        ChannelReceived(s, id);
      } else if !(a.Unsubscribe? && a.id == id) {
        ChannelKept(s, t, id);
      }
    }
  }

  lemma WindowGrows<V>(s: State<V>, m: Msg<V>, id: Id)
    requires id in s.channels && ChannelInv(s, id)
    ensures var t := s.(log := s.log + [m]);
            Window(t, id) == if id in s.subscribers then Window(s, id) + [m] else Window(s, id)
  {
  }

  lemma WindowBegin<V>(s: State<V>, w': Writer, v: V, id: Id, w: Writer)
    requires w' !in s.sending && id in s.channels && ChannelInv(s, id) && WindowInv(s, id, w)
    ensures WindowInv(Next(s, Begin(w', v)).value, id, w)
  {
    var t, m := Next(s, Begin(w', v)).value, Msg(w', v);
    WindowGrows(s, m, id);
    assert Window(t, id) == Window(s.(log := s.log + [m]), id);
    DueBegin(s, w', v, id, w);
    OfAppend(w, Window(s, id), m);
    assert w == w' ==> Due(s, w, id) == [];
    assert Of(w, s.channels[id].offered) + [] == Of(w, s.channels[id].offered);
  }

  lemma DueBegin<V>(s: State<V>, w': Writer, v: V, id: Id, w: Writer)
    requires w' !in s.sending
    ensures Due(Next(s, Begin(w', v)).value, w, id)
            == if w == w' && id in s.subscribers then [Msg(w', v)] else Due(s, w, id)
  {
  }

  lemma WindowDeliver<V>(s: State<V>, w': Writer, id': Id, id: Id, w: Writer)
    requires Next(s, Deliver(w', id')).Some? && s.channels[id'].closes == 0
    requires id in s.channels && WindowInv(s, id, w)
    ensures WindowInv(Next(s, Deliver(w', id')).value, id, w)
  {
    var t := Next(s, Deliver(w', id')).value;
    assert Window(t, id) == Window(s, id);
    if id == id' {
      OfAppend(w, s.channels[id].offered, Msg(w', s.sending[w'].body));
    }
  }

  lemma WindowStep<V>(s: State<V>, a: Action<V>, id: Id, w: Writer)
    requires Inv(s) && Next(s, a).Some? && id in Next(s, a).value.channels
    ensures WindowInv(Next(s, a).value, id, w)
  {
    if id in s.channels {
      assert ChannelInv(s, id) && WindowInv(s, id, w);
    }
    if a.Begin? {
      WindowBegin(s, a.writer, a.body, id, w);
    } else if a.Deliver? {
      assert ChannelInv(s, a.id);
      WindowDeliver(s, a.writer, a.id, id, w);
    } else {
      var t := Next(s, a).value;
      if id in s.channels {
        assert Window(t, id) == Window(s, id);
        assert Due(t, w, id) == Due(s, w, id);
      } else {
        assert Window(t, id) == [];
      }
    }
  }

  lemma InvStep<V>(s: State<V>, a: Action<V>)
    requires Inv(s) && Next(s, a).Some?
    ensures Inv(Next(s, a).value)
  {
    var t := Next(s, a).value;
    if a.Deliver? || a.Unsubscribe? {
      assert ChannelInv(s, a.id);
    }
    forall id | id in t.channels ensures ChannelInv(t, id) {
      assert id in s.channels ==> ChannelInv(s, id);
      ChannelStep(s, a, id);
    }
    forall id, w | id in t.channels ensures WindowInv(t, id, w) { WindowStep(s, a, id, w); }
  }

  lemma {:induction false} InvRun<V>(actions: seq<Action<V>>)
    requires Run(actions).Some?
    ensures Inv(Run(actions).value)
  {
    if actions != [] {
      InvRun(actions[..|actions| - 1]);
      InvStep(Run(actions[..|actions| - 1]).value, actions[|actions| - 1]);
    }
  }

  // ----------------------------------------------------------- main results

  /** Subscriber safety, over every interleaving: nothing is sent on a closed channel and none is
      closed twice; every channel is closed at most once, exactly when its stream has unsubscribed;
      what a stream has received is a first part of what its channel accepted, which is an in-order
      part of what it was offered; and of each writer it was offered every broadcast made while it
      was subscribed, once and in order, save one the writer is about to offer. */
  lemma SubscriberSafety<V>(actions: seq<Action<V>>, id: Id, w: Writer)
    requires Run(actions).Some? && id in Run(actions).value.channels
    ensures var s := Run(actions).value;
            var c := s.channels[id];
            && !s.panicked
            && c.closes == (if id in s.subscribers then 0 else 1)
            && c.received + c.queue == c.accepted
            && |c.queue| <= 10
            && IsSubsequence(c.accepted, c.offered)
            && Of(w, c.offered) + Due(s, w, id) == Of(w, Window(s, id))
  {
    InvRun(actions);
    var s := Run(actions).value;
    assert ChannelInv(s, id) && WindowInv(s, id, w);
  }

  /** In every reachable state, the only way to lose a message is to be offered it with ten waiting. */
  lemma DropsOnlyWhenTenWait<V>(actions: seq<Action<V>>, a: Action<V>, id: Id)
    requires Run(actions).Some? && Next(Run(actions).value, a).Some?
    requires id in Run(actions).value.channels
    ensures var c, c' := Run(actions).value.channels[id], Next(Run(actions).value, a).value.channels[id];
            && c.offered <= c'.offered && |c'.offered| <= |c.offered| + 1
            && (|c'.offered| - |c'.accepted| != |c.offered| - |c.accepted| ==>
                  |c.queue| == 10 && c'.offered != c.offered && c'.accepted == c.accepted)
  {
    InvRun(actions);
    assert ChannelInv(Run(actions).value, id);
    OfferedOrSame(Run(actions).value, a, id);
  }

  /** A step offers the channel one message, or leaves what it was offered alone. */
  lemma OfferedOrSame<V>(s: State<V>, a: Action<V>, id: Id)
    requires Next(s, a).Some? && id in s.channels
    ensures id in Next(s, a).value.channels
    ensures var c, c' := s.channels[id], Next(s, a).value.channels[id];
            || (c'.offered == c.offered && c'.accepted == c.accepted)
            || (a.Deliver? && a.writer in s.sending && c' == Offered(c, Msg(a.writer, s.sending[a.writer].body)))
  {
  }

  // ---------------------------------------------- order across all writers

  /** No broadcast begins while another is under way. */
  ghost predicate Alone<V>(actions: seq<Action<V>>) {
    actions != [] ==>
      var init := actions[..|actions| - 1];
      && Alone(init)
      && (Run(init).Some? && actions[|actions| - 1].Begin? ==> Run(init).value.sending == map[])
  }

  ghost predicate OneSender<V>(s: State<V>) {
    forall w, w' :: w in s.sending && w' in s.sending ==> w == w'
  }

  /** The channel was offered all broadcasts of its window, in order, save one still owed to it. */
  ghost predicate OrderInv<V>(s: State<V>, id: Id)
    requires id in s.channels
  {
    && (forall w :: w in s.sending && id in s.sending[w].pending ==>
          s.channels[id].offered + [Msg(w, s.sending[w].body)] == Window(s, id))
    && ((forall w :: w in s.sending ==> id !in s.sending[w].pending) ==> s.channels[id].offered == Window(s, id))
  }

  lemma OrderBegin<V>(s: State<V>, w: Writer, v: V, id: Id)
    requires s.sending == map[] && id in s.channels && ChannelInv(s, id) && OrderInv(s, id)
    ensures OrderInv(Next(s, Begin(w, v)).value, id)
  {
    var t, m := Next(s, Begin(w, v)).value, Msg(w, v);
    WindowGrows(s, m, id);
    assert Window(t, id) == Window(s.(log := s.log + [m]), id);
    assert w in t.sending && t.sending[w] == Broadcast(v, s.subscribers);
  }

  lemma OrderDeliver<V>(s: State<V>, w: Writer, id': Id, id: Id)
    requires OneSender(s) && Next(s, Deliver(w, id')).Some? && s.channels[id'].closes == 0
    requires id in s.channels && OrderInv(s, id)
    ensures OrderInv(Next(s, Deliver(w, id')).value, id)
  {
    var t := Next(s, Deliver(w, id')).value;
    assert Window(t, id) == Window(s, id);
    assert forall u :: u in t.sending ==> u == w;
    assert t.sending[w].body == s.sending[w].body;
  }

  /** Steps after which the channel was offered the same, has the same window and is owed the same. */
  lemma OrderKept<V>(s: State<V>, t: State<V>, id: Id)
    requires id in s.channels && OrderInv(s, id) && id in t.channels
    requires t.channels[id].offered == s.channels[id].offered && Window(t, id) == Window(s, id)
    requires forall w :: w in t.sending ==> w in s.sending && t.sending[w] == s.sending[w]
    requires forall w :: w in s.sending && w !in t.sending ==> s.sending[w].pending == {}
    ensures OrderInv(t, id)
  {
  }

  lemma OrderOther<V>(s: State<V>, a: Action<V>, id: Id)
    requires Next(s, a).Some? && !a.Begin? && !a.Deliver? && id in s.channels
    requires OrderInv(s, id) && ChannelInv(s, id) && s.streams == s.subscribers
    ensures id in Next(s, a).value.channels && OrderInv(Next(s, a).value, id)
  {
    var t := Next(s, a).value;
    assert t.log == s.log;
    assert Window(t, id) == Window(s, id);
    OrderKept(s, t, id);
  }

  lemma OrderNew<V>(s: State<V>, id: Id)
    requires Next(s, Subscribe(id)).Some?
    ensures OrderInv(Next(s, Subscribe(id)).value, id)
  {
    assert Window(Next(s, Subscribe(id)).value, id) == [];
  }

  lemma OneSenderStep<V>(s: State<V>, a: Action<V>)
    requires OneSender(s) && Next(s, a).Some? && (a.Begin? ==> s.sending == map[])
    ensures OneSender(Next(s, a).value)
  {
  }

  lemma OrderStep<V>(s: State<V>, a: Action<V>, id: Id)
    requires Inv(s) && OneSender(s) && Next(s, a).Some? && (a.Begin? ==> s.sending == map[])
    requires id in s.channels && OrderInv(s, id)
    ensures id in Next(s, a).value.channels && OrderInv(Next(s, a).value, id)
  {
    assert ChannelInv(s, id);
    if a.Begin? {
      OrderBegin(s, a.writer, a.body, id);
    } else if a.Deliver? {
      assert ChannelInv(s, a.id);
      OrderDeliver(s, a.writer, a.id, id);
    } else {
      OrderOther(s, a, id);
    }
  }

  lemma {:induction false} OrderRun<V>(actions: seq<Action<V>>, id: Id)
    requires Run(actions).Some? && Alone(actions)
    ensures OneSender(Run(actions).value)
    ensures id in Run(actions).value.channels ==> OrderInv(Run(actions).value, id)
  {
    if actions != [] {
      var init, a := actions[..|actions| - 1], actions[|actions| - 1];
      var s := Run(init).value;
      OrderRun(init, id);
      OneSenderStep(s, a);
      InvRun(init);
      if id in s.channels {
        OrderStep(s, a, id);
      } else if id in Run(actions).value.channels {
        OrderNew(s, id);
      }
    }
  }

  /** Whatever the schedule, the channel accepted an in-order part of all broadcasts made while its stream
      was subscribed. */
  ghost predicate InOrder<V>(actions: seq<Action<V>>, id: Id) {
    Run(actions).Some? && id in Run(actions).value.channels ==>
      IsSubsequence(Run(actions).value.channels[id].accepted, Window(Run(actions).value, id))
  }

  /** If broadcasts do not overlap, the order holds across all writers: nothing but the broadcasts of the
      window was offered, in their order. */
  lemma InOrderWhenAlone<V>(actions: seq<Action<V>>, id: Id)
    requires Alone(actions)
    ensures InOrder(actions, id)
    ensures Run(actions).Some? && id in Run(actions).value.channels ==>
              Run(actions).value.channels[id].offered <= Window(Run(actions).value, id)
  {
    if Run(actions).Some? && id in Run(actions).value.channels {
      InvRun(actions);
      OrderRun(actions, id);
      var s := Run(actions).value;
      var c := s.channels[id];
      assert ChannelInv(s, id);
      if w :| w in s.sending && id in s.sending[w].pending {
        SubsequenceExtends(c.accepted, c.offered, Msg(w, s.sending[w].body));
      }
    }
  }

  lemma OneStep<V>(past: seq<Action<V>>, s: State<V>, a: Action<V>, t: State<V>)
    requires Run(past) == Some(s) && Next(s, a) == Some(t)
    ensures Run(past + [a]) == Some(t)
  {
    assert (past + [a])[..|past|] == past;
  }

  /** Two broadcasts have begun, and neither has reached the only stream. */
  lemma TwoBegun<V>(a: V, b: V) returns (actions: seq<Action<V>>, s: State<V>)
    ensures Run(actions) == Some(s)
    ensures s == State([Msg(0, a), Msg(1, b)], {0}, {0}, map[0 := Channel(0, None, [], [], [], [], 0)],
                       map[0 := Broadcast(a, {0}), 1 := Broadcast(b, {0})], false)
  {
    var s1 := State([], {0}, {0}, map[0 := Channel(0, None, [], [], [], [], 0)], map[], false);
    assert {} + {0} == {0};
    OneStep([], Start(), Subscribe(0), s1);
    var s2 := s1.(log := [Msg(0, a)], sending := map[0 := Broadcast(a, {0})]);
    assert [] + s2.log == s2.log && s1.sending[0 := Broadcast(a, {0})] == s2.sending;
    OneStep([] + [Subscribe(0)], s1, Begin(0, a), s2);
    s := s2.(log := [Msg(0, a), Msg(1, b)], sending := map[0 := Broadcast(a, {0}), 1 := Broadcast(b, {0})]);
    assert s2.log + [Msg(1, b)] == s.log && s2.sending[1 := Broadcast(b, {0})] == s.sending;
    OneStep([] + [Subscribe(0)] + [Begin(0, a)], s2, Begin(1, b), s);
    actions := [] + [Subscribe(0)] + [Begin(0, a)] + [Begin(1, b)];
  }

  /** Two broadcasts that overlap can reach a stream in the order opposite to the one they began in. */
  lemma OverlapReorders<V>(a: V, b: V) returns (actions: seq<Action<V>>)
    ensures Run(actions).Some? && 0 in Run(actions).value.channels
    ensures Run(actions).value.channels[0].accepted == [Msg(1, b), Msg(0, a)]
    ensures Window(Run(actions).value, 0) == [Msg(0, a), Msg(1, b)]
    ensures !InOrder(actions, 0)
  {
    var past, s := TwoBegun(a, b);
    var t := Next(s, Deliver(1, 0)).value;
    OneStep(past, s, Deliver(1, 0), t);
    var u := Next(t, Deliver(0, 0)).value;
    OneStep(past + [Deliver(1, 0)], t, Deliver(0, 0), u);
    actions := past + [Deliver(1, 0)] + [Deliver(0, 0)];
    assert u.channels[0].accepted == [Msg(1, b), Msg(0, a)];
    assert Window(u, 0) == [Msg(0, a), Msg(1, b)];
    Swapped(Msg(0, a), Msg(1, b));
  }

  lemma Swapped<M>(m: M, n: M)
    requires m != n
    ensures !IsSubsequence([n, m], [m, n])
  {
    assert [n, m][0] != [m, n][0];
    if IsSubsequence([n, m], [m, n]) {
      SubsequenceLength([n, m], [m, n]);
    }
  }

  /** The exact condition: deliveries follow the order of all broadcasts in every run if and only if
      broadcasts do not overlap. */
  lemma InOrderIffAlone<V>(alone: bool, a: V, b: V)
    ensures (forall actions: seq<Action<V>>, id :: (alone ==> Alone(actions)) ==> InOrder(actions, id)) <==> alone
  {
    if alone {
      forall actions: seq<Action<V>>, id | Alone(actions) ensures InOrder(actions, id) {
        InOrderWhenAlone(actions, id);
      }
    } else {
      var actions := OverlapReorders(a, b);
      assert !InOrder(actions, 0);
    }
  }

  // ------------------------------------------------------- the code in place

  lemma DeliverStep<V>(past: seq<Action<V>>, s: State<V>, id: Id, body: V, pending: set<Id>)
    requires Run(past) == Some(s) && id in pending && id in s.channels && s.channels[id].closes == 0
    requires s.sending == map[0 := Broadcast(body, pending)]
    ensures Run(past + [Deliver(0, id)])
            == Some(s.(channels := s.channels[id := Offered(s.channels[id], Msg(0, body))],
                       sending := map[0 := Broadcast(body, pending - {id})]))
  {
    var t := Next(s, Deliver(0, id)).value;
    assert t.sending == map[0 := Broadcast(body, pending - {id})];
    OneStep(past, s, Deliver(0, id), t);
  }

  lemma BeginStep<V>(past: seq<Action<V>>, s: State<V>, body: V)
    requires Run(past) == Some(s) && s.sending == map[]
    ensures Run(past + [Begin(0, body)])
            == Some(s.(log := s.log + [Msg(0, body)], sending := map[0 := Broadcast(body, s.subscribers)]))
  {
    var t := Next(s, Begin(0, body)).value;
    assert t.sending == map[0 := Broadcast(body, s.subscribers)];
    OneStep(past, s, Begin(0, body), t);
  }

  lemma EndStep<V>(past: seq<Action<V>>, s: State<V>, body: V)
    requires Run(past) == Some(s) && s.sending == map[0 := Broadcast(body, {})]
    ensures Run(past + [End(0)]) == Some(s.(sending := map[]))
  {
    assert s.sending - {0} == map[];
    OneStep(past, s, End(0), s.(sending := map[]));
  }

  lemma SubscriberOpen<V>(past: seq<Action<V>>, s: State<V>, id: Id)
    requires Run(past) == Some(s) && id in s.subscribers
    ensures id in s.channels && s.channels[id].closes == 0
  {
    InvRun(past);
    assert ChannelInv(s, id);
  }

  lemma LeaveStep<V>(past: seq<Action<V>>, s: State<V>, id: Id)
    requires Run(past) == Some(s) && s.sending == map[] && id in s.subscribers
    ensures id in s.channels && s.channels[id].closes == 0
    ensures Run(past + [Unsubscribe(id)])
            == Some(s.(streams := s.subscribers - {id}, subscribers := s.subscribers - {id},
                       channels := s.channels[id := s.channels[id].(closes := 1, left := Some(|s.log|))],
                       panicked := false))
  {
    InvRun(past);
    assert ChannelInv(s, id);
    OneStep(past, s, Unsubscribe(id), Next(s, Unsubscribe(id)).value);
  }

  /** A broadcast that began with these channels has offered its message to all subscribers but `rest`. */
  ghost predicate OfferedTo<V>(channels: map<Id, Channel<V>>, channels': map<Id, Channel<V>>,
                               subscribers: set<Id>, rest: set<Id>, m: Msg<V>) {
    && channels'.Keys == channels.Keys
    && (forall id :: id in channels ==>
          channels'[id] == if id in subscribers && id !in rest then Offered(channels[id], m) else channels[id])
  }

  lemma OfferedToStep<V>(channels: map<Id, Channel<V>>, channels': map<Id, Channel<V>>,
                         subscribers: set<Id>, rest: set<Id>, m: Msg<V>, id: Id)
    requires OfferedTo(channels, channels', subscribers, rest, m)
    requires id in rest && id in channels && id in subscribers
    ensures OfferedTo(channels, channels'[id := Offered(channels'[id], m)], subscribers, rest - {id}, m)
  {
  }

  /** One of the server's subscriber maps with the channels of its streams. Each method also records, in
      `actions`, the steps of the model it has taken. */
  class SubscriberMap<V> {
    var subscribers: set<Id>
    var channels: map<Id, Channel<V>>
    var log: seq<Msg<V>>
    ghost var sending: map<Writer, Broadcast<V>>
    ghost var actions: seq<Action<V>>

    ghost function View(): State<V>
      reads this
    {
      State(log, subscribers, subscribers, channels, sending, false)
    }

    /** The object is what the model says after these actions. */
    ghost predicate Valid()
      reads this
    {
      Run(actions) == Some(View()) && subscribers <= channels.Keys
    }

    constructor ()
      ensures Valid() && actions == [] && View() == Start()
    {
      subscribers, channels := {}, map[];
      log, sending, actions := [], map[], [];
    }

    /** A new stream: its channel is open and empty, and it will be offered what is broadcast from now. */
    method Add(id: Id)
      requires Valid() && sending == map[] && id !in channels
      modifies this
      ensures Valid() && actions == old(actions) + [Subscribe(id)] && sending == map[]
      ensures id in subscribers && channels[id].closes == 0 && channels[id].queue == []
      ensures channels[id].joined == |log|
    {
      ghost var t := Next(View(), Subscribe(id)).value;
      OneStep(actions, View(), Subscribe(id), t);
      subscribers := subscribers + {id};
      channels := channels[id := Channel(|log|, None, [], [], [], [], 0)];
      actions := actions + [Subscribe(id)];
    }

    /** The stream ends: its channel is closed, once, after it has left the map, so nothing is sent on it
        any more. */
    method Remove(id: Id)
      requires Valid() && sending == map[] && id in subscribers
      modifies this
      ensures Valid() && actions == old(actions) + [Unsubscribe(id)] && sending == map[]
      ensures id !in subscribers && id in channels && channels[id].closes == 1
      ensures channels[id].received == old(channels)[id].received
    {
      LeaveStep(actions, View(), id);
      subscribers := subscribers - {id};
      channels := channels[id := channels[id].(closes := channels[id].closes + 1, left := Some(|log|))];
      actions := actions + [Unsubscribe(id)];
    }

    /** The stream takes the oldest message waiting for it. */
    method Take(id: Id) returns (m: Msg<V>)
      requires Valid() && id in subscribers && channels[id].queue != []
      modifies this
      ensures Valid() && actions == old(actions) + [Receive(id)] && subscribers == old(subscribers)
      ensures channels == old(channels)[id := channels[id]] && sending == old(sending)
      ensures [m] + channels[id].queue == old(channels)[id].queue
      ensures channels[id].received == old(channels)[id].received + [m]
    {
      OneStep(actions, View(), Receive(id), Next(View(), Receive(id)).value);
      var c := channels[id];
      m := c.queue[0];
      channels := channels[id := c.(queue := c.queue[1..], received := c.received + [m])];
      actions := actions + [Receive(id)];
    }

    /** A non-blocking send: the channel takes the message, or it is dropped. */
    method Put(id: Id, m: Msg<V>)
      requires id in channels
      modifies this`channels
      ensures channels == old(channels)[id := Offered(old(channels)[id], m)]
    {
      var c := channels[id];
      if |c.queue| < CAPACITY {
        channels := channels[id := c.(queue := c.queue + [m], offered := c.offered + [m], accepted := c.accepted + [m])];
      } else {
        channels := channels[id := c.(offered := c.offered + [m])];
      }
    }

    /** Offers the message of the broadcast under way to one subscriber, or drops it. */
    method Send(id: Id, body: V, ghost pending: set<Id>, ghost start: map<Id, Channel<V>>)
      requires Valid() && id in subscribers && id in pending
      requires OfferedTo(start, channels, subscribers, pending, Msg(0, body))
      requires sending == map[0 := Broadcast(body, pending)]
      modifies this
      ensures Valid() && actions == old(actions) + [Deliver(0, id)] && subscribers == old(subscribers)
      ensures sending == map[0 := Broadcast(body, pending - {id})] && log == old(log)
      ensures OfferedTo(start, channels, subscribers, pending - {id}, Msg(0, body))
    {
      OfferedToStep(start, channels, subscribers, pending, Msg(0, body), id);
      SubscriberOpen(actions, View(), id);
      DeliverStep(actions, View(), id, body, pending);
      Put(id, Msg(0, body));
      sending := map[0 := Broadcast(body, pending - {id})];
      actions := actions + [Deliver(0, id)];
    }

    /** The loop over the map, in whatever order it yields the subscribers. */
    method SendAll(body: V)
      requires Valid() && sending == map[0 := Broadcast(body, subscribers)]
      modifies this
      ensures Valid() && sending == map[0 := Broadcast(body, {})] && subscribers == old(subscribers)
      ensures old(actions) <= actions && log == old(log)
      ensures OfferedTo(old(channels), channels, subscribers, {}, Msg(0, body))
    {
      var todo := subscribers;
      while todo != {}
        invariant Valid() && todo <= subscribers == old(subscribers)
        invariant sending == map[0 := Broadcast(body, todo)]
        invariant old(actions) <= actions && log == old(log)
        invariant OfferedTo(old(channels), channels, subscribers, todo, Msg(0, body))
        decreases todo
      {
        var id :| id in todo;
        Send(id, body, todo, old(channels));
        todo := todo - {id};
      }
    }

    /** A whole broadcast: every subscriber is offered the message, once. */
    method Publish(body: V)
      requires Valid() && sending == map[]
      modifies this
      ensures Valid() && sending == map[] && subscribers == old(subscribers)
      ensures old(actions) <= actions && log == old(log) + [Msg(0, body)]
      ensures OfferedTo(old(channels), channels, subscribers, {}, Msg(0, body))
    {
      BeginStep(actions, View(), body);
      log := log + [Msg(0, body)];
      sending, actions := map[0 := Broadcast(body, subscribers)], actions + [Begin(0, body)];
      SendAll(body);
      EndStep(actions, View(), body);
      sending, actions := map[], actions + [End(0)];
    }
  }
}
