/** System-state fan-out over ConnectRPC: cached lock, power and DPMS states, and late joiners.

    A writer (a monitor, or the trigger socket) stores the new state in the cache of its kind and
    then broadcasts it. A joining stream subscribes, reads the three caches one after the other,
    sends what it found, and then forwards its channel. All of it interleaves freely. */
module StateFanout {
  import opened Prelude
  import opened SystemState
  import Hub = StreamHub

  type Id = Hub.Id
  type Writer = Hub.Writer

  /** A writer that has stored its item, and perhaps begun to broadcast it. */
  datatype Writing<V> = Writing(item: Item<V>, published: bool)

  /** A stream: how many caches it has read, what it read there, what of that it has not sent yet, and
      everything it sent. */
  datatype Session<V> = Session(scanned: nat, read: seq<Item<V>>, held: seq<Item<V>>, sent: seq<Item<V>>)

  datatype State<V> = State(
    hub: Hub.State<Item<V>>,
    cache: map<Kind, V>,
    writers: map<Writer, Writing<V>>,
    sessions: map<Id, Session<V>>)

  datatype Action<V> =
    | Store(writer: Writer, item: Item<V>)
    | Publish(writer: Writer)
    | Push(writer: Writer, id: Id)
    | Finish(writer: Writer)
    | Join(id: Id)
    | ReadCache(id: Id)
    | Flush(id: Id)
    | Forward(id: Id)
    | Leave(id: Id)

  function Start<V>(): State<V> {
    State(Hub.Start(), map[], map[], map[])
  }

  predicate KindInFlight<V>(s: State<V>, k: Kind) {
    exists w :: w in s.writers && s.writers[w].item.kind == k
  }

  /** Applies a step of the subscription machinery. */
  function OnHub<V>(s: State<V>, a: Hub.Action<Item<V>>): Option<State<V>> {
    var hub := Hub.Next(s.hub, a);
    if hub.None? then None else Some(s.(hub := hub.value))
  }

  /** What reading the cache of a kind yields. */
  function Found<V>(cache: map<Kind, V>, k: Kind): seq<Item<V>> {
    if k in cache then [Item(k, cache[k])] else []
  }

  /** A stream after it has read the next cache. */
  function AfterRead<V>(cache: map<Kind, V>, z: Session<V>): Session<V> {
    var found := Found(cache, KindAt(z.scanned));
    z.(scanned := z.scanned + 1, read := z.read + found, held := z.held + found)
  }

  /** One step; writers of one kind may be under way together. */
  function Next<V>(s: State<V>, a: Action<V>): Option<State<V>> {
    match a
    case Store(w, item) =>
      if w in s.writers then None
      else
        Some(s.(cache := s.cache[item.kind := item.value],
                writers := s.writers[w := Writing(item, false)]))
    case Publish(w) =>
      if w !in s.writers || s.writers[w].published then None
      else OnHub(s.(writers := s.writers[w := s.writers[w].(published := true)]),
                 Hub.Begin(w, s.writers[w].item))
    case Push(w, id) =>
      if w !in s.writers || !s.writers[w].published || id !in s.hub.channels then None
      else OnHub(s, Hub.Deliver(w, id))
    case Finish(w) =>
      if w !in s.writers || !s.writers[w].published then None
      else OnHub(s.(writers := s.writers - {w}), Hub.End(w))
    case Join(id) =>
      if id in s.sessions then None
      else OnHub(s.(sessions := s.sessions[id := Session(0, [], [], [])]), Hub.Subscribe(id))
    case ReadCache(id) =>
      if id !in s.hub.streams || id !in s.sessions || s.sessions[id].scanned >= 3 then None
      else Some(s.(sessions := s.sessions[id := AfterRead(s.cache, s.sessions[id])]))
    case Flush(id) =>
      if id !in s.hub.streams || id !in s.sessions || s.sessions[id].scanned < 3 || s.sessions[id].held == []
      then None
      else
        var z := s.sessions[id];
        Some(s.(sessions := s.sessions[id := z.(held := z.held[1..], sent := z.sent + [z.held[0]])]))
    case Forward(id) =>
      if id !in s.hub.channels || s.hub.channels[id].queue == [] || id !in s.sessions
         || s.sessions[id].scanned < 3 || s.sessions[id].held != []
      then None
      else
        var z, m := s.sessions[id], s.hub.channels[id].queue[0];
        OnHub(s.(sessions := s.sessions[id := z.(sent := z.sent + [m.body])]), Hub.Receive(id))
    case Leave(id) => OnHub(s, Hub.Unsubscribe(id))
  }

  function Run<V>(actions: seq<Action<V>>): Option<State<V>> {
    if actions == [] then Some(Start())
    else
      var before := Run(actions[..|actions| - 1]);
      if before.None? then None else Next(before.value, actions[|actions| - 1])
  }

  /** Stores no value of kind `k` that differs from one a writer under way has stored. */
  ghost predicate Agrees<V>(s: State<V>, a: Action<V>, k: Kind) {
    a.Store? && a.item.kind == k ==>
      forall w :: w in s.writers && s.writers[w].item.kind == k ==> s.writers[w].item == a.item
  }

  /** Writers of kind `k` that overlap store the same value; a single writer at a time always agrees. */
  ghost predicate Agreeing<V>(actions: seq<Action<V>>, k: Kind) {
    actions != [] ==>
      var init := actions[..|actions| - 1];
      && Agreeing(init, k)
      && (Run(init).Some? ==> Agrees(Run(init).value, actions[|actions| - 1], k))
  }

  function Bodies<V>(ms: seq<Hub.Msg<Item<V>>>): seq<Item<V>> {
    seq(|ms|, i requires 0 <= i < |ms| => ms[i].body)
  }

  function Cached<V>(s: State<V>, k: Kind): Option<V> {
    Lookup(s.cache, k)
  }

  // -------------------------------------------------------------- invariant

  /** A writer of kind `k` has stored its item and still has to offer it to `id`. */
  ghost predicate Awaiting<V>(s: State<V>, id: Id, k: Kind) {
    exists w :: w in s.writers && s.writers[w].item.kind == k
                && (!s.writers[w].published
                    || (w in s.hub.sending && id in s.hub.sending[w].pending))
  }

  ghost predicate CacheHoldsItems<V>(s: State<V>, k: Kind) {
    forall w :: w in s.writers && s.writers[w].item.kind == k ==> Cached(s, k) == Some(s.writers[w].item.value)
  }

  /** The broadcasts under way are those of the writers that have begun to publish. */
  ghost predicate WriterInv<V>(s: State<V>) {
    && (forall w :: w in s.hub.sending <==> w in s.writers && s.writers[w].published)
    && (forall w :: w in s.hub.sending ==> s.hub.sending[w].body == s.writers[w].item)
  }

  /** What a stream was told of kind `k`: if no message is under way, the last item it read or was offered
      is the cached one, and before it read that cache it may have been told nothing. */
  ghost predicate Current<V>(cached: Option<V>, z: Session<V>, offered: seq<Item<V>>, k: Kind) {
    if Rank(k) < z.scanned then LastOf(k, z.read + offered) == cached
    else LastOf(k, offered).None? || LastOf(k, offered) == cached
  }

  ghost predicate OfferInv<V>(s: State<V>, id: Id, k: Kind)
    requires id in s.sessions && id in s.hub.channels
  {
    var z := s.sessions[id];
    && (z.scanned <= Rank(k) ==> LastOf(k, z.read).None?)
    && (!Awaiting(s, id, k) ==> Current(Cached(s, k), z, Bodies(s.hub.channels[id].offered), k))
  }

  /** A stream sends first what it read and then what its channel gives it. */
  ghost predicate SentInv<V>(z: Session<V>, received: seq<Hub.Msg<Item<V>>>) {
    && z.sent + z.held == z.read + Bodies(received)
    && (z.scanned < 3 ==> z.sent == [])
    && (z.scanned < 3 || z.held != [] ==> received == [])
  }

  /** What the steps below need to know about the subscriptions. */
  ghost predicate Shape<V>(s: State<V>) {
    && s.hub.streams == s.hub.subscribers
    && s.hub.subscribers <= s.hub.channels.Keys == s.sessions.Keys
    && (forall w :: w in s.hub.sending ==> s.hub.sending[w].pending <= s.hub.subscribers)
    && (forall id :: id in s.hub.subscribers ==> s.hub.channels[id].closes == 0)
  }

  /** What holds whether or not writers agree. */
  ghost predicate Base<V>(s: State<V>) {
    && Hub.Inv(s.hub)
    && s.hub.channels.Keys == s.sessions.Keys
    && WriterInv(s)
  }

  lemma ShapeFromHub<V>(s: State<V>)
    requires Hub.Inv(s.hub) && s.hub.channels.Keys == s.sessions.Keys
    ensures Shape(s)
  {
    forall id | id in s.hub.subscribers ensures s.hub.channels[id].closes == 0 {
      assert Hub.ChannelInv(s.hub, id);
    }
  }

  lemma CacheStep<V>(s: State<V>, a: Action<V>, k: Kind)
    requires CacheHoldsItems(s, k) && Next(s, a).Some? && Agrees(s, a, k)
    ensures CacheHoldsItems(Next(s, a).value, k)
  {
    var t := Next(s, a).value;
    forall w | w in t.writers && t.writers[w].item.kind == k
      ensures Cached(t, k) == Some(t.writers[w].item.value)
    {
      if a.Store? && a.item.kind == k {
        assert t.writers[w].item == a.item;
      } else {
        assert w in s.writers && t.writers[w].item == s.writers[w].item;
      }
    }
  }

  lemma WriterStore<V>(s: State<V>, w: Writer, item: Item<V>)
    requires WriterInv(s) && Next(s, Store(w, item)).Some?
    ensures WriterInv(Next(s, Store(w, item)).value)
  {
  }

  lemma WriterPublish<V>(s: State<V>, w: Writer)
    requires WriterInv(s) && Next(s, Publish(w)).Some?
    ensures WriterInv(Next(s, Publish(w)).value)
  {
    var t := Next(s, Publish(w)).value;
    assert forall u :: u in t.writers ==> u in s.writers && t.writers[u].item == s.writers[u].item;
  }

  /** A change of the pending sets is of no concern to the writers. */
  lemma WriterSame<V>(s: State<V>, t: State<V>)
    requires WriterInv(s) && t.writers == s.writers && t.cache == s.cache
    requires t.hub.sending.Keys == s.hub.sending.Keys
    requires forall w :: w in s.hub.sending ==> t.hub.sending[w].body == s.hub.sending[w].body
    ensures WriterInv(t)
  {
  }

  lemma DeliverKeepsBodies<M>(h: Hub.State<M>, w: Writer, id: Id)
    requires Hub.Next(h, Hub.Deliver(w, id)).Some?
    ensures var sending := Hub.Next(h, Hub.Deliver(w, id)).value.sending;
            && sending.Keys == h.sending.Keys
            && (forall u :: u in h.sending ==> sending[u].body == h.sending[u].body)
  {
  }

  lemma WriterPush<V>(s: State<V>, w: Writer, id: Id)
    requires WriterInv(s) && Next(s, Push(w, id)).Some?
    ensures WriterInv(Next(s, Push(w, id)).value)
  {
    DeliverKeepsBodies(s.hub, w, id);
    WriterSame(s, Next(s, Push(w, id)).value);
  }

  lemma WriterFinish<V>(s: State<V>, w: Writer)
    requires WriterInv(s) && Next(s, Finish(w)).Some?
    ensures WriterInv(Next(s, Finish(w)).value)
  {
    var t := Next(s, Finish(w)).value;
    assert t.cache == s.cache && t.writers == s.writers - {w} && t.hub.sending == s.hub.sending - {w};
    assert forall u :: u in t.writers ==> u in s.writers && t.writers[u] == s.writers[u];
  }

  /** Steps of a stream touch neither caches nor writers. */
  lemma StreamSteps<V>(s: State<V>, a: Action<V>)
    requires Next(s, a).Some?
    requires a.Join? || a.ReadCache? || a.Flush? || a.Forward? || a.Leave?
    ensures var t := Next(s, a).value;
            t.writers == s.writers && t.cache == s.cache && t.hub.sending == s.hub.sending
  {
  }

  lemma WriterStep<V>(s: State<V>, a: Action<V>)
    requires Shape(s) && WriterInv(s) && Next(s, a).Some?
    ensures WriterInv(Next(s, a).value)
  {
    if a.Store? {
      WriterStore(s, a.writer, a.item);
    } else if a.Publish? {
      WriterPublish(s, a.writer);
    } else if a.Push? {
      WriterPush(s, a.writer, a.id);
    } else if a.Finish? {
      WriterFinish(s, a.writer);
    } else {
      StreamSteps(s, a);
      WriterSame(s, Next(s, a).value);
    }
  }

  /** Steps that change neither what this stream was told nor, for the worse, what it awaits. */
  lemma Unaffected<V>(s: State<V>, t: State<V>, id: Id, k: Kind)
    requires id in s.sessions && id in s.hub.channels && OfferInv(s, id, k)
    requires id in t.sessions && id in t.hub.channels
    requires t.sessions[id].read == s.sessions[id].read && t.sessions[id].scanned == s.sessions[id].scanned
    requires t.hub.channels[id].offered == s.hub.channels[id].offered
    requires !Awaiting(t, id, k) ==> !Awaiting(s, id, k) && Cached(t, k) == Cached(s, k)
    ensures OfferInv(t, id, k)
  {
  }

  lemma StillAwaiting<V>(t: State<V>, w: Writer, id: Id, k: Kind)
    requires w in t.writers && t.writers[w].item.kind == k
    requires !t.writers[w].published || (w in t.hub.sending && id in t.hub.sending[w].pending)
    ensures Awaiting(t, id, k)
  {
  }

  /** The writer a stream is waiting for. */
  lemma AwaitedWriter<V>(s: State<V>, id: Id, k: Kind) returns (w: Writer)
    requires Awaiting(s, id, k)
    ensures w in s.writers && s.writers[w].item.kind == k
    ensures !s.writers[w].published || (w in s.hub.sending && id in s.hub.sending[w].pending)
  {
    w :| w in s.writers && s.writers[w].item.kind == k
         && (!s.writers[w].published || (w in s.hub.sending && id in s.hub.sending[w].pending));
  }

  lemma OfferStore<V>(s: State<V>, w: Writer, item: Item<V>, id: Id, k: Kind)
    requires Next(s, Store(w, item)).Some?
    requires id in s.sessions && id in s.hub.channels && OfferInv(s, id, k)
    ensures OfferInv(Next(s, Store(w, item)).value, id, k)
  {
    var t := Next(s, Store(w, item)).value;
    if item.kind == k {
      StillAwaiting(t, w, id, k);
    } else if Awaiting(s, id, k) {
      var u := AwaitedWriter(s, id, k);
      StillAwaiting(t, u, id, k);
    }
    Unaffected(s, t, id, k);
  }

  lemma OfferPublish<V>(s: State<V>, w: Writer, id: Id, k: Kind)
    requires Next(s, Publish(w)).Some? && id in s.hub.subscribers
    requires id in s.sessions && id in s.hub.channels && OfferInv(s, id, k)
    ensures OfferInv(Next(s, Publish(w)).value, id, k)
  {
    var t := Next(s, Publish(w)).value;
    if Awaiting(s, id, k) {
      var u := AwaitedWriter(s, id, k);
      StillAwaiting(t, u, id, k);
    }
    Unaffected(s, t, id, k);
  }

  lemma OfferFinish<V>(s: State<V>, w: Writer, id: Id, k: Kind)
    requires Next(s, Finish(w)).Some?
    requires id in s.sessions && id in s.hub.channels && OfferInv(s, id, k)
    ensures OfferInv(Next(s, Finish(w)).value, id, k)
  {
    var t := Next(s, Finish(w)).value;
    if Awaiting(s, id, k) {
      var u := AwaitedWriter(s, id, k);
      StillAwaiting(t, u, id, k);
    }
    Unaffected(s, t, id, k);
  }

  /** A push that is not this stream's message of kind `k`. */
  lemma PushElsewhere<V>(s: State<V>, w: Writer, id': Id, id: Id, k: Kind)
    requires Next(s, Push(w, id')).Some? && s.hub.channels[id'].closes == 0
    requires id != id' || s.writers[w].item.kind != k
    ensures Awaiting(s, id, k) ==> Awaiting(Next(s, Push(w, id')).value, id, k)
  {
    var t := Next(s, Push(w, id')).value;
    if Awaiting(s, id, k) {
      var u := AwaitedWriter(s, id, k);
      StillAwaiting(t, u, id, k);
    }
  }

  /** Taken or dropped, what is pushed is the last item the stream was offered. */
  lemma OfferPushed<V>(s: State<V>, w: Writer, id: Id, k: Kind)
    requires WriterInv(s) && CacheHoldsItems(s, k)
    requires Next(s, Push(w, id)).Some? && s.hub.channels[id].closes == 0
    requires id in s.sessions && OfferInv(s, id, k)
    ensures OfferInv(Next(s, Push(w, id)).value, id, k)
  {
    var t, item := Next(s, Push(w, id)).value, s.writers[w].item;
    if item.kind != k {
      PushElsewhere(s, w, id, id, k);
    }
    assert t.hub.channels[id].offered == s.hub.channels[id].offered + [Hub.Msg(w, item)];
    OfferedGrows(s.sessions[id].read, s.hub.channels[id].offered, Hub.Msg(w, item), k);
  }

  /** One more message decides its own kind and leaves the others alone. */
  lemma OfferedGrows<V>(read: seq<Item<V>>, ms: seq<Hub.Msg<Item<V>>>, m: Hub.Msg<Item<V>>, k: Kind)
    ensures var bodies := Bodies(ms + [m]);
            && LastOf(k, bodies) == (if m.body.kind == k then Some(m.body.value) else LastOf(k, Bodies(ms)))
            && LastOf(k, read + bodies)
               == (if m.body.kind == k then Some(m.body.value) else LastOf(k, read + Bodies(ms)))
  {
    assert Bodies(ms + [m]) == Bodies(ms) + [m.body];
    LastOfAppend(k, Bodies(ms), m.body);
    LastOfConcat(k, read, Bodies(ms + [m]));
    LastOfConcat(k, read, Bodies(ms));
  }

  lemma OfferPush<V>(s: State<V>, w: Writer, id': Id, id: Id, k: Kind)
    requires WriterInv(s) && CacheHoldsItems(s, k)
    requires Next(s, Push(w, id')).Some? && s.hub.channels[id'].closes == 0
    requires id in s.sessions && id in s.hub.channels && OfferInv(s, id, k)
    ensures OfferInv(Next(s, Push(w, id')).value, id, k)
  {
    if id == id' {
      OfferPushed(s, w, id, k);
    } else {
      PushElsewhere(s, w, id', id, k);
      Unaffected(s, Next(s, Push(w, id')).value, id, k);
    }
  }

  lemma FoundLast<V>(cache: map<Kind, V>, j: Kind, k: Kind)
    ensures LastOf(k, Found(cache, j)) == if j == k then Lookup(cache, k) else None
  {
    var found := Found(cache, j);
    assert found == [] || found[..0] == [];
  }

  lemma CurrentAfter<V>(cache: map<Kind, V>, z: Session<V>, offered: seq<Item<V>>, k: Kind)
    requires z.scanned < 3 && (z.scanned <= Rank(k) ==> LastOf(k, z.read).None?)
    ensures var z' := AfterRead(cache, z);
            && (z'.scanned <= Rank(k) ==> LastOf(k, z'.read).None?)
            && (Current(Lookup(cache, k), z, offered, k) ==> Current(Lookup(cache, k), z', offered, k))
  {
    var found := Found(cache, KindAt(z.scanned));
    FoundLast(cache, KindAt(z.scanned), k);
    LastOfConcat(k, z.read, found);
    LastOfConcat(k, z.read, offered);
    LastOfConcat(k, z.read + found, offered);
  }

  lemma OfferRead<V>(s: State<V>, id: Id, k: Kind)
    requires Next(s, ReadCache(id)).Some? && id in s.hub.channels && OfferInv(s, id, k)
    ensures OfferInv(Next(s, ReadCache(id)).value, id, k)
  {
    CurrentAfter(s.cache, s.sessions[id], Bodies(s.hub.channels[id].offered), k);
    assert Awaiting(Next(s, ReadCache(id)).value, id, k) == Awaiting(s, id, k);
  }

  /** Any other step of a stream tells this one nothing. */
  lemma OfferOther<V>(s: State<V>, a: Action<V>, id: Id, k: Kind)
    requires Next(s, a).Some? && id in s.sessions && id in s.hub.channels && OfferInv(s, id, k)
    requires a.Join? || a.ReadCache? || a.Flush? || a.Forward? || a.Leave?
    requires a != ReadCache(id)
    ensures id in Next(s, a).value.sessions && id in Next(s, a).value.hub.channels
    ensures OfferInv(Next(s, a).value, id, k)
  {
    StreamSteps(s, a);
    Unaffected(s, Next(s, a).value, id, k);
  }

  lemma OfferStep<V>(s: State<V>, a: Action<V>, id: Id, k: Kind)
    requires Shape(s) && WriterInv(s) && CacheHoldsItems(s, k) && Next(s, a).Some?
    requires id in s.hub.streams && id in s.sessions && id in s.hub.channels && OfferInv(s, id, k)
    ensures id in Next(s, a).value.sessions && id in Next(s, a).value.hub.channels
    ensures OfferInv(Next(s, a).value, id, k)
  {
    match a
    case Store(w, item) => OfferStore(s, w, item, id, k);
    case Publish(w) => OfferPublish(s, w, id, k);
    case Push(w, id') => OfferPush(s, w, id', id, k);
    case Finish(w) => OfferFinish(s, w, id, k);
    case _ =>
      if a == ReadCache(id) {
        OfferRead(s, id, k);
      } else {
        OfferOther(s, a, id, k);
      }
  }

  lemma OfferNew<V>(s: State<V>, id: Id, k: Kind)
    requires Next(s, Join(id)).Some?
    ensures var t := Next(s, Join(id)).value;
            id in t.sessions && id in t.hub.channels && OfferInv(t, id, k)
  {
    assert Bodies<V>([]) == [];
  }

  // --------------------------------------------------------- what was sent

  lemma SentStep<V>(s: State<V>, a: Action<V>, id: Id)
    requires Next(s, a).Some? && id in s.sessions && id in s.hub.channels
    requires SentInv(s.sessions[id], s.hub.channels[id].received)
    ensures id in Next(s, a).value.sessions && id in Next(s, a).value.hub.channels
    ensures SentInv(Next(s, a).value.sessions[id], Next(s, a).value.hub.channels[id].received)
  {
    var t := Next(s, a).value;
    var z, z' := s.sessions[id], t.sessions[id];
    if a == ReadCache(id) {
      SentRead(s.cache, z);
    } else if a == Flush(id) {
      assert z'.sent + z'.held == z.sent + z.held;
    } else if a == Forward(id) {
      SentForward(z, s.hub.channels[id].received, s.hub.channels[id].queue[0]);
    }
  }

  lemma SentForward<V>(z: Session<V>, received: seq<Hub.Msg<Item<V>>>, m: Hub.Msg<Item<V>>)
    requires SentInv(z, received) && z.scanned >= 3 && z.held == []
    ensures SentInv(z.(sent := z.sent + [m.body]), received + [m])
  {
    var z' := z.(sent := z.sent + [m.body]);
    assert z.sent + z.held == z.sent && z'.sent + z'.held == z'.sent;
    assert Bodies(received + [m]) == Bodies(received) + [m.body];
    assert z.read + (Bodies(received) + [m.body]) == z.read + Bodies(received) + [m.body];
  }

  lemma SentRead<V>(cache: map<Kind, V>, z: Session<V>)
    requires SentInv(z, []) && z.scanned < 3
    ensures SentInv(AfterRead(cache, z), [])
  {
    var z', none := AfterRead(cache, z), Bodies<V>([]);
    assert z.sent + z.held == z.held && z.read + none == z.read;
    assert z'.sent + z'.held == z'.held && z'.read + none == z'.read;
  }

  // ------------------------------------------------------------- every run

  lemma HubStep<V>(s: State<V>, a: Action<V>)
    requires Hub.Inv(s.hub) && Next(s, a).Some?
    ensures Hub.Inv(Next(s, a).value.hub)
  {
    match a
    case Publish(w) => Hub.InvStep(s.hub, Hub.Begin(w, s.writers[w].item));
    case Push(w, id) => Hub.InvStep(s.hub, Hub.Deliver(w, id));
    case Finish(w) => Hub.InvStep(s.hub, Hub.End(w));
    case Join(id) => Hub.InvStep(s.hub, Hub.Subscribe(id));
    case Forward(id) => Hub.InvStep(s.hub, Hub.Receive(id));
    case Leave(id) => Hub.InvStep(s.hub, Hub.Unsubscribe(id));
    case _ =>
  }

  lemma KeysStep<V>(s: State<V>, a: Action<V>)
    requires Shape(s) && Next(s, a).Some?
    ensures var t := Next(s, a).value; t.hub.channels.Keys == t.sessions.Keys
  {
  }

  lemma InvStep<V>(s: State<V>, a: Action<V>)
    requires Base(s) && Next(s, a).Some?
    ensures Shape(s) && Base(Next(s, a).value)
  {
    ShapeFromHub(s);
    HubStep(s, a);
    KeysStep(s, a);
    WriterStep(s, a);
  }

  /** A stream was there before the step or has just joined. */
  lemma StreamsStep<V>(s: State<V>, a: Action<V>, id: Id)
    requires Next(s, a).Some? && id in Next(s, a).value.hub.streams
    ensures id in s.hub.streams || a == Join(id)
  {
  }

  lemma {:induction false} BaseRun<V>(actions: seq<Action<V>>)
    requires Run(actions).Some?
    ensures Base(Run(actions).value) && Shape(Run(actions).value)
  {
    if actions != [] {
      BaseRun(actions[..|actions| - 1]);
      InvStep(Run(actions[..|actions| - 1]).value, actions[|actions| - 1]);
    }
    ShapeFromHub(Run(actions).value);
  }

  lemma {:induction false} SentRun<V>(actions: seq<Action<V>>, id: Id)
    requires Run(actions).Some? && id in Run(actions).value.hub.streams
    ensures var s := Run(actions).value;
            id in s.sessions && id in s.hub.channels && SentInv(s.sessions[id], s.hub.channels[id].received)
  {
    var init, a := actions[..|actions| - 1], actions[|actions| - 1];
    var s := Run(init).value;
    StreamsStep(s, a, id);
    if id in s.hub.streams {
      SentRun(init, id);
      SentStep(s, a, id);
    } else {
      assert Bodies<V>([]) == [];
    }
  }

  lemma {:induction false} CacheRun<V>(actions: seq<Action<V>>, k: Kind)
    requires Run(actions).Some? && Agreeing(actions, k)
    ensures CacheHoldsItems(Run(actions).value, k)
  {
    if actions != [] {
      CacheRun(actions[..|actions| - 1], k);
      CacheStep(Run(actions[..|actions| - 1]).value, actions[|actions| - 1], k);
    }
  }

  lemma {:induction false} OfferRun<V>(actions: seq<Action<V>>, id: Id, k: Kind)
    requires Run(actions).Some? && Agreeing(actions, k) && id in Run(actions).value.hub.streams
    ensures var s := Run(actions).value;
            id in s.sessions && id in s.hub.channels && OfferInv(s, id, k)
  {
    var init, a := actions[..|actions| - 1], actions[|actions| - 1];
    var s := Run(init).value;
    BaseRun(init);
    CacheRun(init, k);
    StreamsStep(s, a, id);
    if id in s.hub.streams {
      OfferRun(init, id, k);
      OfferStep(s, a, id, k);
    } else {
      OfferNew(s, id, k);
    }
  }

  // ----------------------------------------------------------- main results

  /** The stream has sent its initial states and emptied its channel, and no writer of kind `k` is under
      way. */
  ghost predicate Settled<V>(s: State<V>, id: Id, k: Kind) {
    && id in s.hub.streams && id in s.sessions && id in s.hub.channels
    && s.sessions[id].scanned == 3 && s.sessions[id].held == []
    && s.hub.channels[id].queue == []
    && !KindInFlight(s, k)
  }

  /** The last item of kind `k` that the stream was sent is the cached one. */
  ghost predicate UpToDate<V>(s: State<V>, id: Id, k: Kind)
    requires id in s.sessions
  {
    LastOf(k, s.sessions[id].sent) == Cached(s, k)
  }

  /** Drops at the stream's full channel did not matter: the last item of kind `k` it read or its channel
      accepted has the value of the last one it read or was offered. */
  ghost predicate DropsHarmless<V>(s: State<V>, id: Id, k: Kind)
    requires id in s.sessions && id in s.hub.channels
  {
    var z, c := s.sessions[id], s.hub.channels[id];
    LastOf(k, z.read + Bodies(c.accepted)) == LastOf(k, z.read + Bodies(c.offered))
  }

  /** The newest message of kind `k` offered to the stream, if any, was not dropped. */
  ghost predicate NewestKept<V>(s: State<V>, id: Id, k: Kind)
    requires id in s.hub.channels
  {
    LastOf(k, Bodies(s.hub.channels[id].accepted)) == LastOf(k, Bodies(s.hub.channels[id].offered))
  }

  lemma SettledSent<V>(actions: seq<Action<V>>, id: Id, k: Kind)
    requires Run(actions).Some? && Settled(Run(actions).value, id, k)
    ensures var s := Run(actions).value;
            s.sessions[id].sent == s.sessions[id].read + Bodies(s.hub.channels[id].accepted)
  {
    var s := Run(actions).value;
    BaseRun(actions);
    SentRun(actions, id);
    assert Hub.ChannelInv(s.hub, id);
    assert s.sessions[id].sent + [] == s.sessions[id].sent;
    assert s.hub.channels[id].received + [] == s.hub.channels[id].received;
  }

  lemma NotAwaiting<V>(s: State<V>, id: Id, k: Kind)
    requires !KindInFlight(s, k)
    ensures !Awaiting(s, id, k)
  {
  }

  /** The exact condition: in every interleaving in which overlapping writers of the kind agree, a settled
      stream is up to date if and only if the drops at its channel were harmless. */
  lemma UpToDateIffDropsHarmless<V>(actions: seq<Action<V>>, id: Id, k: Kind)
    requires Run(actions).Some? && Agreeing(actions, k) && Settled(Run(actions).value, id, k)
    ensures UpToDate(Run(actions).value, id, k) <==> DropsHarmless(Run(actions).value, id, k)
  {
    SettledSent(actions, id, k);
    OfferRun(actions, id, k);
    NotAwaiting(Run(actions).value, id, k);
  }

  /** Late-joiner convergence: in every interleaving in which overlapping writers of the kind agree,
      every settled stream whose newest message of the kind was not dropped is up to date. */
  lemma LateJoinerConverges<V>(actions: seq<Action<V>>, id: Id, k: Kind)
    requires Run(actions).Some? && Agreeing(actions, k)
    requires Settled(Run(actions).value, id, k) && NewestKept(Run(actions).value, id, k)
    ensures UpToDate(Run(actions).value, id, k)
  {
    var s := Run(actions).value;
    UpToDateIffDropsHarmless(actions, id, k);
    LastOfConcat(k, s.sessions[id].read, Bodies(s.hub.channels[id].accepted));
    LastOfConcat(k, s.sessions[id].read, Bodies(s.hub.channels[id].offered));
  }

  // ----------------------------------------------- whatever writers overlap

  /** The stream was told of the item. */
  ghost predicate Told<V>(s: State<V>, id: Id, item: Item<V>)
    requires id in s.sessions && id in s.hub.channels
  {
    item in s.sessions[id].read || item in Bodies(s.hub.channels[id].offered)
  }

  /** A writer of this very item still has to offer it to the stream. */
  ghost predicate Bringing<V>(s: State<V>, id: Id, item: Item<V>) {
    exists w :: w in s.writers && Brings(s, w, id, item)
  }

  ghost predicate Brings<V>(s: State<V>, w: Writer, id: Id, item: Item<V>)
    requires w in s.writers
  {
    && s.writers[w].item == item
    && (!s.writers[w].published || (w in s.hub.sending && id in s.hub.sending[w].pending))
  }

  /** A stream that has read the cache of kind `k` was told of the cached item or will be, because the last
      store is always broadcast by the goroutine that made it. */
  ghost predicate Informed<V>(s: State<V>, id: Id, k: Kind)
    requires id in s.sessions && id in s.hub.channels
  {
    Rank(k) < s.sessions[id].scanned && k in s.cache ==>
      Told(s, id, Item(k, s.cache[k])) || Bringing(s, id, Item(k, s.cache[k]))
  }

  lemma ToldStays<V>(s: State<V>, a: Action<V>, id: Id, item: Item<V>)
    requires Next(s, a).Some? && id in s.sessions && id in s.hub.channels && Told(s, id, item)
    ensures id in Next(s, a).value.sessions && id in Next(s, a).value.hub.channels
    ensures Told(Next(s, a).value, id, item)
  {
    var t := Next(s, a).value;
    var ms, ms' := s.hub.channels[id].offered, t.hub.channels[id].offered;
    assert ms <= ms';
    if item in Bodies(ms) {
      var i :| 0 <= i < |ms| && Bodies(ms)[i] == item;
      assert Bodies(ms')[i] == item;
    }
  }

  lemma BroughtTells<V>(s: State<V>, w: Writer, id: Id)
    requires Shape(s) && WriterInv(s) && Next(s, Push(w, id)).Some? && id in s.hub.subscribers
    ensures var t := Next(s, Push(w, id)).value;
            id in t.sessions && id in t.hub.channels && Told(t, id, s.writers[w].item)
  {
    var ms, m := s.hub.channels[id].offered, Hub.Msg(w, s.writers[w].item);
    assert Next(s, Push(w, id)).value.hub.channels[id].offered == ms + [m];
    assert Bodies(ms + [m])[|ms|] == m.body;
  }

  lemma BringsStays<V>(s: State<V>, a: Action<V>, w: Writer, id: Id, item: Item<V>)
    requires Shape(s) && Next(s, a).Some? && id in s.hub.subscribers
    requires w in s.writers && Brings(s, w, id, item) && a != Push(w, id)
    ensures w in Next(s, a).value.writers && Brings(Next(s, a).value, w, id, item)
  {
  }

  lemma BringingStays<V>(s: State<V>, a: Action<V>, id: Id, item: Item<V>)
    requires Shape(s) && WriterInv(s) && Next(s, a).Some? && id in s.hub.subscribers && Bringing(s, id, item)
    ensures id in Next(s, a).value.sessions && id in Next(s, a).value.hub.channels
    ensures Told(Next(s, a).value, id, item) || Bringing(Next(s, a).value, id, item)
  {
    var w :| w in s.writers && Brings(s, w, id, item);
    if a == Push(w, id) {
      BroughtTells(s, w, id);
    } else {
      BringsStays(s, a, w, id, item);
    }
  }

  lemma InformedStep<V>(s: State<V>, a: Action<V>, id: Id, k: Kind)
    requires Shape(s) && WriterInv(s) && Next(s, a).Some? && id in s.hub.streams
    requires id in s.sessions && id in s.hub.channels && Informed(s, id, k)
    ensures id in Next(s, a).value.sessions && id in Next(s, a).value.hub.channels
    ensures Informed(Next(s, a).value, id, k)
  {
    var t := Next(s, a).value;
    if a.Store? && a.item.kind == k {
      assert a.item == Item(k, t.cache[k]);
      assert a.writer in t.writers && Brings(t, a.writer, id, a.item);
    } else {
      assert Lookup(t.cache, k) == Lookup(s.cache, k);
      if k in s.cache && Rank(k) < s.sessions[id].scanned {
        var item := Item(k, s.cache[k]);
        if Told(s, id, item) {
          ToldStays(s, a, id, item);
        } else {
          BringingStays(s, a, id, item);
        }
      } else if a == ReadCache(id) && KindAt(s.sessions[id].scanned) == k && k in s.cache {
        assert Found(s.cache, k)[0] == Item(k, s.cache[k]);
      }
    }
  }

  lemma {:induction false} InformedRun<V>(actions: seq<Action<V>>, id: Id, k: Kind)
    requires Run(actions).Some? && id in Run(actions).value.hub.streams
    ensures var s := Run(actions).value;
            id in s.sessions && id in s.hub.channels && Informed(s, id, k)
  {
    var init, a := actions[..|actions| - 1], actions[|actions| - 1];
    var s := Run(init).value;
    BaseRun(init);
    StreamsStep(s, a, id);
    if id in s.hub.streams {
      InformedRun(init, id, k);
      InformedStep(s, a, id, k);
    }
  }

  /** Joining misses nothing, whatever overlaps: a settled stream whose channel dropped nothing has been
      sent the currently cached value at least once. */
  lemma StreamMissesNothing<V>(actions: seq<Action<V>>, id: Id, k: Kind)
    requires Run(actions).Some? && Settled(Run(actions).value, id, k)
    requires var c := Run(actions).value.hub.channels[id]; c.accepted == c.offered
    ensures var s := Run(actions).value;
            k in s.cache ==> Item(k, s.cache[k]) in s.sessions[id].sent
  {
    SettledSent(actions, id, k);
    InformedRun(actions, id, k);
    var s := Run(actions).value;
    assert forall w :: w in s.writers ==> s.writers[w].item.kind != k;
  }

  // -------------------------------------------- the state, from the schedule

  /** What an action of the fan-out does to the subscriptions. */
  ghost function ToHub<V>(s: State<V>, a: Action<V>): seq<Hub.Action<Item<V>>> {
    match a
    case Publish(w) => if w in s.writers then [Hub.Begin(w, s.writers[w].item)] else []
    case Push(w, id) => [Hub.Deliver(w, id)]
    case Finish(w) => [Hub.End(w)]
    case Join(id) => [Hub.Subscribe(id)]
    case Forward(id) => [Hub.Receive(id)]
    case Leave(id) => [Hub.Unsubscribe(id)]
    case _ => []
  }

  ghost function HubActions<V>(actions: seq<Action<V>>): seq<Hub.Action<Item<V>>> {
    if actions == [] then []
    else
      var init := actions[..|actions| - 1];
      HubActions(init) + if Run(init).None? then [] else ToHub(Run(init).value, actions[|actions| - 1])
  }

  lemma HubMoves<V>(past: seq<Hub.Action<Item<V>>>, s: State<V>, a: Action<V>)
    requires Hub.Run(past) == Some(s.hub) && Next(s, a).Some?
    ensures Hub.Run(past + ToHub(s, a)) == Some(Next(s, a).value.hub)
  {
    var t := Next(s, a).value;
    if ToHub(s, a) == [] {
      assert past + ToHub(s, a) == past;
    } else {
      Hub.OneStep(past, s.hub, ToHub(s, a)[0], t.hub);
    }
  }

  /** Every run of the fan-out is, for its subscriptions, a run of the stream hub: subscriber safety and the
      order of deliveries hold of it. */
  lemma {:induction false} RefinesHub<V>(actions: seq<Action<V>>)
    requires Run(actions).Some?
    ensures Hub.Run(HubActions(actions)) == Some(Run(actions).value.hub)
  {
    if actions != [] {
      var init := actions[..|actions| - 1];
      RefinesHub(init);
      HubMoves(HubActions(init), Run(init).value, actions[|actions| - 1]);
    }
  }

  /** The value of kind `k` stored last. */
  function LastStored<V>(actions: seq<Action<V>>, k: Kind): Option<V> {
    if actions == [] then None
    else
      var a := actions[|actions| - 1];
      if a.Store? && a.item.kind == k then Some(a.item.value) else LastStored(actions[..|actions| - 1], k)
  }

  lemma {:induction false} CacheFromSchedule<V>(actions: seq<Action<V>>, k: Kind)
    requires Run(actions).Some?
    ensures Cached(Run(actions).value, k) == LastStored(actions, k)
  {
    if actions != [] {
      var init := actions[..|actions| - 1];
      CacheFromSchedule(init, k);
      CacheMoves(Run(init).value, actions[|actions| - 1], k);
    }
  }

  lemma CacheMoves<V>(s: State<V>, a: Action<V>, k: Kind)
    requires Next(s, a).Some?
    ensures Cached(Next(s, a).value, k)
            == if a.Store? && a.item.kind == k then Some(a.item.value) else Cached(s, k)
  {
  }

  /** What a step does to who is there. */
  lemma PresenceMoves<V>(s: State<V>, a: Action<V>, id: Id)
    requires Shape(s) && Next(s, a).Some?
    ensures var t := Next(s, a).value;
            && (id in t.sessions <==> id in s.sessions || a == Join(id))
            && (id in t.hub.streams <==> (id in s.hub.streams && a != Leave(id)) || a == Join(id))
            && (a == Join(id) ==> id !in s.sessions)
            && (a == Leave(id) ==> id in s.hub.streams)
  {
  }

  lemma ShapeRun<V>(actions: seq<Action<V>>)
    requires Run(actions).Some?
    ensures Shape(Run(actions).value)
  {
    BaseRun(actions);
  }

  /** A stream is there exactly from its join to its leave, and neither happens twice. */
  lemma {:induction false} PresentFromJoinToLeave<V>(actions: seq<Action<V>>, id: Id)
    requires Run(actions).Some?
    ensures var s := Run(actions).value;
            && (id in s.sessions <==> Join(id) in actions)
            && (Leave(id) in actions ==> Join(id) in actions)
            && (id in s.hub.streams <==> Join(id) in actions && Leave(id) !in actions)
            && s.hub.subscribers == s.hub.streams
  {
    ShapeRun(actions);
    if actions != [] {
      var init, a := actions[..|actions| - 1], actions[|actions| - 1];
      PresentFromJoinToLeave(init, id);
      ShapeRun(init);
      PresenceMoves(Run(init).value, a, id);
      assert actions == init + [a];
    }
  }

  /** After its leave a stream's channel is closed, once, and out of the map, and whatever happens later
      neither offers it anything nor makes the stream send anything. */
  lemma LeftForGood<V>(actions: seq<Action<V>>, a: Action<V>, id: Id)
    requires Run(actions).Some? && Leave(id) in actions && Next(Run(actions).value, a).Some?
    ensures var s, t := Run(actions).value, Next(Run(actions).value, a).value;
            && id !in s.hub.subscribers && id in s.hub.channels && s.hub.channels[id].closes == 1
            && id in s.sessions && id in t.sessions && id in t.hub.channels
            && t.sessions[id] == s.sessions[id]
            && t.hub.channels[id] == s.hub.channels[id]
  {
    PresentFromJoinToLeave(actions, id);
    BaseRun(actions);
    assert Hub.ChannelInv(Run(actions).value.hub, id);
    GoneUntouched(Run(actions).value, a, id);
  }

  lemma GoneUntouched<V>(s: State<V>, a: Action<V>, id: Id)
    requires Shape(s) && Next(s, a).Some? && id in s.sessions && id in s.hub.channels && id !in s.hub.streams
    ensures var t := Next(s, a).value;
            && id in t.sessions && id in t.hub.channels
            && t.sessions[id] == s.sessions[id] && t.hub.channels[id] == s.hub.channels[id]
  {
  }

  /** What a step does to how far a stream is. */
  lemma ProgressMoves<V>(s: State<V>, a: Action<V>, id: Id)
    requires Next(s, a).Some? && id in s.sessions
    ensures id in Next(s, a).value.sessions
    ensures var z, z' := s.sessions[id], Next(s, a).value.sessions[id];
            && z'.scanned == z.scanned + (if a == ReadCache(id) then 1 else 0)
            && |z'.sent| == |z.sent| + (if a == Flush(id) || a == Forward(id) then 1 else 0)
  {
  }

  lemma CountLast<V>(init: seq<Action<V>>, a: Action<V>, x: Action<V>)
    ensures multiset(init + [a])[x] == multiset(init)[x] + if a == x then 1 else 0
  {
  }

  /** Each read of a stream reads one cache, and each flush and forward sends one item. */
  lemma {:induction false} ProgressFromSchedule<V>(actions: seq<Action<V>>, id: Id)
    requires Run(actions).Some? && id in Run(actions).value.sessions
    ensures var z := Run(actions).value.sessions[id];
            && z.scanned == multiset(actions)[ReadCache(id)]
            && |z.sent| == multiset(actions)[Flush(id)] + multiset(actions)[Forward(id)]
  {
    var init, a := actions[..|actions| - 1], actions[|actions| - 1];
    var s := Run(init).value;
    assert actions == init + [a];
    CountLast(init, a, ReadCache(id));
    CountLast(init, a, Flush(id));
    CountLast(init, a, Forward(id));
    ShapeRun(init);
    PresenceMoves(s, a, id);
    if id in s.sessions {
      ProgressFromSchedule(init, id);
      ProgressMoves(s, a, id);
    } else {
      NeverThere(init, id);
      AbsentIdle(s, a, id);
    }
  }

  lemma AbsentIdle<V>(s: State<V>, a: Action<V>, id: Id)
    requires Next(s, a).Some? && id !in s.sessions
    ensures a != ReadCache(id) && a != Flush(id) && a != Forward(id)
    ensures a == Join(id) ==> Next(s, a).value.sessions[id] == Session(0, [], [], [])
  {
  }

  /** A stream that has not joined has done nothing. */
  lemma {:induction false} NeverThere<V>(actions: seq<Action<V>>, id: Id)
    requires Run(actions).Some? && id !in Run(actions).value.sessions
    ensures multiset(actions)[ReadCache(id)] == 0
    ensures multiset(actions)[Flush(id)] == 0 && multiset(actions)[Forward(id)] == 0
  {
    if actions != [] {
      var init, a := actions[..|actions| - 1], actions[|actions| - 1];
      assert actions == init + [a];
      ShapeRun(init);
      PresenceMoves(Run(init).value, a, id);
      NeverThere(init, id);
      AbsentIdle(Run(init).value, a, id);
      CountLast(init, a, ReadCache(id));
      CountLast(init, a, Flush(id));
      CountLast(init, a, Forward(id));
    }
  }

  /** The stream is there, its channel is empty, and no writer is under way. */
  ghost predicate Undisturbed<V>(s: State<V>, id: Id) {
    && id in s.hub.streams && id in s.sessions && id in s.hub.channels
    && s.hub.channels[id].queue == [] && s.writers == map[]
  }

  lemma JoinOne<V>(past: seq<Action<V>>, s: State<V>, id: Id) returns (t: State<V>)
    requires Run(past) == Some(s) && s.hub.sending == map[] && s.writers == map[]
    requires id !in s.sessions && id !in s.hub.channels
    ensures Run(past + [Join(id)]) == Some(t) && Undisturbed(t, id) && t.cache == s.cache
    ensures t.sessions[id] == Session(0, [], [], [])
  {
    Extend(past, s, Join(id));
    t := Next(s, Join(id)).value;
  }

  lemma ReadOne<V>(past: seq<Action<V>>, s: State<V>, id: Id) returns (t: State<V>)
    requires Run(past) == Some(s) && Undisturbed(s, id) && s.sessions[id].scanned < 3
    ensures Run(past + [ReadCache(id)]) == Some(t) && Undisturbed(t, id) && t.cache == s.cache
    ensures t.sessions[id] == AfterRead(s.cache, s.sessions[id])
  {
    Extend(past, s, ReadCache(id));
    t := Next(s, ReadCache(id)).value;
  }

  lemma FlushOne<V>(past: seq<Action<V>>, s: State<V>, id: Id) returns (t: State<V>)
    requires Run(past) == Some(s) && Undisturbed(s, id) && s.sessions[id].scanned == 3 && s.sessions[id].held != []
    ensures Run(past + [Flush(id)]) == Some(t) && Undisturbed(t, id) && t.cache == s.cache
    ensures var z := s.sessions[id];
            t.sessions[id] == z.(held := z.held[1..], sent := z.sent + [z.held[0]])
  {
    Extend(past, s, Flush(id));
    t := Next(s, Flush(id)).value;
  }

  lemma FlushAll<V>(past: seq<Action<V>>, s: State<V>, id: Id) returns (actions: seq<Action<V>>, t: State<V>)
    requires Run(past) == Some(s) && Undisturbed(s, id) && s.sessions[id].scanned == 3
    ensures Run(actions) == Some(t) && Undisturbed(t, id) && t.cache == s.cache
    ensures t.sessions[id].scanned == 3 && t.sessions[id].held == []
    ensures t.sessions[id].sent == s.sessions[id].sent + s.sessions[id].held
    decreases |s.sessions[id].held|
  {
    var z := s.sessions[id];
    if z.held == [] {
      actions, t := past, s;
      assert z.sent + z.held == z.sent;
    } else {
      var u := FlushOne(past, s, id);
      actions, t := FlushAll(past + [Flush(id)], u, id);
      assert z.sent + [z.held[0]] + z.held[1..] == z.sent + z.held;
    }
  }

  /** After any run, a new stream that is not disturbed is sent every cached state, in order, and settles. */
  lemma JoinerSettles<V>(past: seq<Action<V>>, s: State<V>, id: Id) returns (actions: seq<Action<V>>, t: State<V>)
    requires Run(past) == Some(s) && s.hub.sending == map[] && s.writers == map[]
    requires id !in s.sessions && id !in s.hub.channels
    ensures Run(actions) == Some(t) && t.cache == s.cache
    ensures id in t.sessions && forall k :: Settled(t, id, k)
    ensures t.sessions[id].sent == Found(s.cache, Lock) + Found(s.cache, Power) + Found(s.cache, Dpms)
  {
    var s1 := JoinOne(past, s, id);
    var s2 := ReadOne(past + [Join(id)], s1, id);
    var s3 := ReadOne(past + [Join(id)] + [ReadCache(id)], s2, id);
    var s4 := ReadOne(past + [Join(id)] + [ReadCache(id)] + [ReadCache(id)], s3, id);
    actions, t := FlushAll(past + [Join(id)] + [ReadCache(id)] + [ReadCache(id)] + [ReadCache(id)], s4, id);
    assert s2.sessions[id].held == Found(s.cache, Lock);
    assert s4.sessions[id].held == Found(s.cache, Lock) + Found(s.cache, Power) + Found(s.cache, Dpms);
    assert [] + s4.sessions[id].held == s4.sessions[id].held;
  }

  // ----------------------------------------------------- runs that show it

  lemma Extend<V>(actions: seq<Action<V>>, s: State<V>, a: Action<V>)
    requires Run(actions) == Some(s)
    ensures Run(actions + [a]) == Next(s, a)
    ensures forall k :: Agreeing(actions, k) && Agrees(s, a, k) ==> Agreeing(actions + [a], k)
  {
    assert (actions + [a])[..|actions|] == actions;
  }

  /** The longer schedule stores nothing more, and its writers agree if those of the shorter one do. */
  ghost predicate NoStores<V>(actions: seq<Action<V>>, actions': seq<Action<V>>) {
    && (forall x :: x in actions' && x.Store? ==> x in actions)
    && (forall k :: Agreeing(actions, k) ==> Agreeing(actions', k))
  }

  /** Stream 0 is the only one, is subscribed and has sent all it read. */
  ghost predicate Lone<V>(s: State<V>) {
    && s.hub.subscribers == s.hub.streams == {0}
    && 0 in s.hub.channels && s.hub.channels[0].closes == 0
    && 0 in s.sessions && s.sessions[0].scanned == 3 && s.sessions[0].held == []
  }

  /** A single stream that has found the caches empty, and no writer. */
  lemma LoneStream<V>() returns (actions: seq<Action<V>>, s: State<V>)
    ensures Run(actions) == Some(s) && Lone(s) && NoStores([], actions)
    ensures s.hub.sending == map[] && s.writers == map[] && s.cache == map[]
    ensures s.hub.channels[0] == Hub.Channel(0, None, [], [], [], [], 0) && s.sessions[0] == Session(3, [], [], [])
  {
    var hub := Hub.State([], {0}, {0}, map[0 := Hub.Channel(0, None, [], [], [], [], 0)], map[], false);
    assert {} + {0} == {0};
    Extend([], Start<V>(), Join(0));
    actions := [] + [Join(0)];
    s := State(hub, map[], map[], map[0 := Session(0, [], [], [])]);
    var i := 0;
    while i < 3
      invariant 0 <= i <= 3 && Run(actions) == Some(s) && NoStores([], actions)
      invariant s.hub == hub && s.cache == map[] && s.writers == map[]
      invariant 0 in s.sessions && s.sessions[0] == Session(i, [], [], [])
    {
      Extend(actions, s, ReadCache(0));
      actions, s := actions + [ReadCache(0)], Next(s, ReadCache(0)).value;
      i := i + 1;
    }
  }

  /** A writer stores its item. */
  lemma LoneStore<V>(actions: seq<Action<V>>, s: State<V>, w: Writer, item: Item<V>)
    returns (actions': seq<Action<V>>, s': State<V>)
    requires Run(actions) == Some(s) && Lone(s) && w !in s.writers
    ensures Run(actions') == Some(s') && actions' == actions + [Store(w, item)]
    ensures s' == s.(cache := s.cache[item.kind := item.value], writers := s.writers[w := Writing(item, false)])
    ensures s.writers == map[] ==> forall k :: Agreeing(actions, k) ==> Agreeing(actions', k)
  {
    Extend(actions, s, Store(w, item));
    actions', s' := actions + [Store(w, item)], Next(s, Store(w, item)).value;
  }

  /** Writer `w` broadcasts to the lone stream, whose channel takes the message or drops it. */
  lemma LoneBroadcast<V>(actions: seq<Action<V>>, s: State<V>, w: Writer, item: Item<V>)
    returns (actions': seq<Action<V>>, s': State<V>)
    requires Run(actions) == Some(s) && Lone(s) && s.hub.sending == map[]
    requires w in s.writers && s.writers[w] == Writing(item, false)
    ensures Run(actions') == Some(s') && Lone(s') && NoStores(actions, actions')
    ensures s'.hub.sending == map[w := Hub.Broadcast(item, {})]
    ensures s'.hub.channels[0] == Hub.Offered(s.hub.channels[0], Hub.Msg(w, item))
    ensures s'.sessions == s.sessions && s'.cache == s.cache
    ensures s'.writers == s.writers[w := Writing(item, true)]
  {
    Extend(actions, s, Publish(w));
    var a1, s1 := actions + [Publish(w)], Next(s, Publish(w)).value;
    assert s1.hub.sending == map[w := Hub.Broadcast(item, {0})];
    Extend(a1, s1, Push(w, 0));
    actions', s' := a1 + [Push(w, 0)], Next(s1, Push(w, 0)).value;
    assert {0} - {0} == {};
    assert s'.hub.sending == map[w := Hub.Broadcast(item, {})];
  }

  /** The broadcast ends. */
  lemma LoneFinish<V>(actions: seq<Action<V>>, s: State<V>, w: Writer, item: Item<V>)
    returns (actions': seq<Action<V>>, s': State<V>)
    requires Run(actions) == Some(s) && Lone(s) && s.hub.sending == map[w := Hub.Broadcast(item, {})]
    requires w in s.writers && s.writers[w].published
    ensures Run(actions') == Some(s') && Lone(s') && NoStores(actions, actions')
    ensures s'.hub.sending == map[] && s'.hub.channels == s.hub.channels
    ensures s'.sessions == s.sessions && s'.cache == s.cache && s'.writers == s.writers - {w}
  {
    Extend(actions, s, Finish(w));
    actions', s' := actions + [Finish(w)], Next(s, Finish(w)).value;
    assert s'.hub.sending == map[];
  }

  /** The stream forwards one message. */
  lemma LoneForward<V>(actions: seq<Action<V>>, s: State<V>) returns (actions': seq<Action<V>>, s': State<V>)
    requires Run(actions) == Some(s) && Lone(s) && s.hub.channels[0].queue != []
    ensures Run(actions') == Some(s') && Lone(s') && NoStores(actions, actions')
    ensures s'.hub.sending == s.hub.sending && s'.cache == s.cache && s'.writers == s.writers
    ensures s'.hub.channels[0].queue == s.hub.channels[0].queue[1..]
    ensures s'.hub.channels[0].offered == s.hub.channels[0].offered
    ensures s'.hub.channels[0].accepted == s.hub.channels[0].accepted
    ensures s'.sessions[0].sent == s.sessions[0].sent + [s.hub.channels[0].queue[0].body]
  {
    Extend(actions, s, Forward(0));
    actions', s' := actions + [Forward(0)], Next(s, Forward(0)).value;
  }

  /** A whole broadcast that nothing overlaps. */
  lemma LonePublish<V>(actions: seq<Action<V>>, s: State<V>, item: Item<V>)
    returns (actions': seq<Action<V>>, s': State<V>)
    requires Run(actions) == Some(s) && Lone(s) && s.hub.sending == map[] && s.writers == map[]
    requires forall k :: Agreeing(actions, k)
    ensures Run(actions') == Some(s') && Lone(s') && s'.hub.sending == map[] && s'.writers == map[]
    ensures forall k :: Agreeing(actions', k)
    ensures s'.hub.channels[0] == Hub.Offered(s.hub.channels[0], Hub.Msg(0, item))
    ensures s'.sessions == s.sessions && s'.cache == s.cache[item.kind := item.value]
  {
    var a1, s1 := LoneStore(actions, s, 0, item);
    var a2, s2 := LoneBroadcast(a1, s1, 0, item);
    actions', s' := LoneFinish(a2, s2, 0, item);
    assert s'.writers == map[];
  }

  /** Every message in the queue carries the item. */
  ghost predicate AllCarry<V>(ms: seq<Hub.Msg<Item<V>>>, item: Item<V>) {
    forall i :: 0 <= i < |ms| ==> ms[i].body == item
  }

  /** The stream's channel is filled with ten messages of one item. */
  lemma TenWait<V>(item: Item<V>) returns (actions: seq<Action<V>>, s: State<V>)
    ensures Run(actions) == Some(s) && Lone(s) && s.hub.sending == map[] && s.writers == map[]
    ensures forall k :: Agreeing(actions, k)
    ensures |s.hub.channels[0].queue| == Hub.CAPACITY && AllCarry(s.hub.channels[0].queue, item)
    ensures s.sessions[0].sent == []
  {
    actions, s := LoneStream<V>();
    while |s.hub.channels[0].queue| < Hub.CAPACITY
      invariant Run(actions) == Some(s) && Lone(s) && s.hub.sending == map[] && s.writers == map[]
      invariant forall k :: Agreeing(actions, k)
      invariant |s.hub.channels[0].queue| <= Hub.CAPACITY && AllCarry(s.hub.channels[0].queue, item)
      invariant s.sessions[0].sent == []
      decreases Hub.CAPACITY - |s.hub.channels[0].queue|
    {
      actions, s := LonePublish(actions, s, item);
    }
  }

  /** The stream forwards all that waits in its channel. */
  lemma ForwardAll<V>(actions: seq<Action<V>>, s: State<V>, item: Item<V>)
    returns (actions': seq<Action<V>>, s': State<V>)
    requires Run(actions) == Some(s) && Lone(s) && s.writers == map[] && (forall k :: Agreeing(actions, k))
    requires s.hub.channels[0].queue != [] && AllCarry(s.hub.channels[0].queue, item)
    ensures Run(actions') == Some(s') && Lone(s') && s'.writers == map[] && (forall k :: Agreeing(actions', k))
    ensures s'.hub.channels[0].queue == [] && s'.cache == s.cache
    ensures LastOf(item.kind, s'.sessions[0].sent) == Some(item.value)
  {
    actions', s' := actions, s;
    while s'.hub.channels[0].queue != []
      invariant Run(actions') == Some(s') && Lone(s') && s'.writers == map[] && (forall k :: Agreeing(actions', k))
      invariant AllCarry(s'.hub.channels[0].queue, item) && s'.cache == s.cache
      invariant s'.hub.channels[0].queue == [] ==> LastOf(item.kind, s'.sessions[0].sent) == Some(item.value)
      decreases |s'.hub.channels[0].queue|
    {
      LastOfAppend(item.kind, s'.sessions[0].sent, s'.hub.channels[0].queue[0].body);
      actions', s' := LoneForward(actions', s');
    }
  }

  /** A drop that matters: for any two different values, a stream whose channel was full when the newer one
      was broadcast settles on the older one, and nothing corrects it. */
  lemma DroppedNewestSticks<V>(k: Kind, v1: V, v2: V) returns (actions: seq<Action<V>>)
    requires v1 != v2
    ensures Run(actions).Some? && Agreeing(actions, k)
    ensures var s := Run(actions).value;
            && Settled(s, 0, k) && s.writers == map[]
            && Cached(s, k) == Some(v2) && LastOf(k, s.sessions[0].sent) == Some(v1)
            && !DropsHarmless(s, 0, k)
  {
    var a0, s0 := TenWait(Item(k, v1));
    var a1, s1 := LonePublish(a0, s0, Item(k, v2));
    var a2, s2 := ForwardAll(a1, s1, Item(k, v1));
    actions := a2;
    UpToDateIffDropsHarmless(actions, 0, k);
  }

  /** For any two different values, the trigger socket and a monitor can store in one order and broadcast
      in the other, and a stream that dropped nothing settles on a value that is not the cached one. */
  lemma OverlappingWritersDiverge<V>(k: Kind, v1: V, v2: V) returns (actions: seq<Action<V>>)
    requires v1 != v2
    ensures Run(actions).Some? && OnlyWriters(actions, k, v1, v2)
    ensures var s := Run(actions).value;
            && Settled(s, 0, k) && s.writers == map[]
            && s.hub.channels[0].accepted == s.hub.channels[0].offered
            && Cached(s, k) == Some(v2) && LastOf(k, s.sessions[0].sent) == Some(v1)
  {
    var a0, s0 := LoneStream<V>();
    var a1, s1 := LoneStore(a0, s0, 0, Item(k, v1));
    var a2, s2 := LoneStore(a1, s1, 1, Item(k, v2));
    var a3, s3 := LoneBroadcast(a2, s2, 1, Item(k, v2));
    var a4, s4 := LoneFinish(a3, s3, 1, Item(k, v2));
    var a5, s5 := LoneBroadcast(a4, s4, 0, Item(k, v1));
    var a6, s6 := LoneFinish(a5, s5, 0, Item(k, v1));
    assert s6.hub.channels[0].queue == [Hub.Msg(1, Item(k, v2)), Hub.Msg(0, Item(k, v1))];
    var a7, s7 := LoneForward(a6, s6);
    var a8, s8 := LoneForward(a7, s7);
    LastOfAppend(k, s7.sessions[0].sent, Item(k, v1));
    assert s8.writers == map[];
    actions := a8;
  }

  /** Every item of kind `k` stored is writer 0's `v1` or writer 1's `v2`. */
  ghost predicate OnlyWriters<V>(actions: seq<Action<V>>, k: Kind, v1: V, v2: V) {
    forall x :: x in actions && x.Store? && x.item.kind == k ==>
      x == Store(0, Item(k, v1)) || x == Store(1, Item(k, v2))
  }

  /** Wherever the schedule leads, settled streams that kept their newest message are up to date. */
  ghost predicate Converges<V>(actions: seq<Action<V>>, k: Kind) {
    var r := Run(actions);
    r.Some? ==> forall id :: Settled(r.value, id, k) && NewestKept(r.value, id, k) ==> UpToDate(r.value, id, k)
  }

  lemma {:induction false} EqualWritersAgree<V>(actions: seq<Action<V>>, k: Kind, v: V)
    requires OnlyWriters(actions, k, v, v)
    ensures Agreeing(actions, k)
    ensures Run(actions).Some? ==> AllStored(Run(actions).value, Item(k, v))
  {
    if actions != [] {
      var init, a := actions[..|actions| - 1], actions[|actions| - 1];
      assert a in actions;
      EqualWritersAgree(init, k, v);
      if Run(actions).Some? {
        AllStoredStep(Run(init).value, a, Item(k, v));
      }
    }
  }

  /** Every writer of the item's kind has stored this item. */
  ghost predicate AllStored<V>(s: State<V>, item: Item<V>) {
    forall w :: w in s.writers && s.writers[w].item.kind == item.kind ==> s.writers[w].item == item
  }

  lemma AllStoredStep<V>(s: State<V>, a: Action<V>, item: Item<V>)
    requires AllStored(s, item) && Next(s, a).Some? && (a.Store? && a.item.kind == item.kind ==> a.item == item)
    ensures AllStored(Next(s, a).value, item)
  {
    var t := Next(s, a).value;
    forall w | w in t.writers && t.writers[w].item.kind == item.kind ensures t.writers[w].item == item {
      if !(a.Store? && w == a.writer) {
        assert w in s.writers && t.writers[w].item == s.writers[w].item;
      }
    }
  }

  /** And the exact condition on the writers: two of one kind that may overlap leave every such stream up
      to date in all interleavings if and only if they store the same value. */
  lemma ConvergesIffEqual<V>(k: Kind, v1: V, v2: V)
    ensures (forall actions: seq<Action<V>> :: OnlyWriters(actions, k, v1, v2) ==> Converges(actions, k))
            <==> v1 == v2
  {
    if v1 == v2 {
      forall actions: seq<Action<V>> | OnlyWriters(actions, k, v1, v2) ensures Converges(actions, k) {
        EqualWritersAgree(actions, k, v1);
        if Run(actions).Some? {
          forall id | Settled(Run(actions).value, id, k) && NewestKept(Run(actions).value, id, k)
            ensures UpToDate(Run(actions).value, id, k)
          {
            LateJoinerConverges(actions, id, k);
          }
        }
      }
    } else {
      var actions := OverlappingWritersDiverge(k, v1, v2);
      assert !UpToDate(Run(actions).value, 0, k);
      assert !Converges(actions, k);
    }
  }
}
