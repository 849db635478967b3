/** The WebSocket connection pool: registry, socket lifecycle and state push on connect.

    `Broadcast` copies the registry under the read lock and then writes to each copied client; a
    failed write removes the client. `Add` registers a client and then pushes the cached states
    to it, reading each cache and writing later. Removal takes the write lock, so each of these
    is one step, and all goroutines interleave freely. */
module SocketPool {
  import opened Prelude
  import opened SystemState

  type Id = nat        // a client connection
  type Writer = nat    // a goroutine that broadcasts

  /** A client: how many caches its connect handler has read, the item it is about to write, the
      state items written to it, whether any write to it failed, and how often it was closed. */
  datatype Client<V> = Client(
    scanned: nat,
    held: Option<Item<V>>,
    sent: seq<Item<V>>,
    failed: bool,
    exited: bool,
    closes: nat)

  /** Where a broadcast stands: before the copy, writing, or removing a client it could not reach. */
  datatype Stage = Prepared | Delivering(pending: set<Id>) | Evicting(pending: set<Id>, id: Id)

  /** A broadcaster; `item` is None for messages that are not cached states. */
  datatype Sender<V> = Sender(item: Option<Item<V>>, stage: Stage)

  datatype Pool<V> = Pool(
    registry: set<Id>,
    clients: map<Id, Client<V>>,         // every client ever added
    cache: map<Kind, V>,
    senders: map<Writer, Sender<V>>)

  datatype Action<V> =
    | Store(writer: Writer, item: Item<V>)
    | Prepare(writer: Writer)
    | Copy(writer: Writer)
    | Write(writer: Writer, id: Id, ok: bool)
    | Evict(writer: Writer)
    | Done(writer: Writer)
    | Add(id: Id)
    | Read(id: Id)
    | Greet(id: Id, ok: bool)
    | Exit(id: Id)

  function Start<V>(): Pool<V> {
    Pool({}, map[], map[], map[])
  }

  /** Deletes a registered client and closes its socket; does nothing for any other. */
  function Removed<V>(s: Pool<V>, id: Id): Pool<V> {
    if id in s.registry && id in s.clients then
      s.(registry := s.registry - {id},
         clients := s.clients[id := s.clients[id].(closes := s.clients[id].closes + 1)])
    else s
  }

  predicate Sending<V>(s: Pool<V>, k: Kind) {
    exists w :: w in s.senders && s.senders[w].item.Some? && s.senders[w].item.value.kind == k
  }

  function WithClient<V>(s: Pool<V>, id: Id, c: Client<V>): Pool<V> {
    s.(clients := s.clients[id := c])
  }

  function AtStage<V>(s: Pool<V>, w: Writer, stage: Stage): Pool<V>
    requires w in s.senders
  {
    s.(senders := s.senders[w := s.senders[w].(stage := stage)])
  }

  /** One write of a broadcast. A write on a closed socket cannot succeed. */
  function WriteOne<V>(s: Pool<V>, w: Writer, id: Id, ok: bool): Option<Pool<V>> {
    if w !in s.senders || !s.senders[w].stage.Delivering? || id !in s.senders[w].stage.pending
       || id !in s.clients || (ok && s.clients[id].closes > 0)
    then None
    else
      var rest, item, c := s.senders[w].stage.pending - {id}, s.senders[w].item, s.clients[id];
      if !ok then
        Some(AtStage(WithClient(s, id, c.(failed := true)), w, Evicting(rest, id)))
      else if item.None? then Some(AtStage(s, w, Delivering(rest)))
      else
        Some(AtStage(WithClient(s, id, c.(sent := c.sent + [item.value])), w, Delivering(rest)))
  }

  /** The connect handler reads the next cache. */
  function ReadNext<V>(s: Pool<V>, id: Id): Option<Pool<V>> {
    if id !in s.clients || s.clients[id].scanned >= 3 || s.clients[id].held.Some? then None
    else
      var c := s.clients[id];
      var k := KindAt(c.scanned);
      Some(WithClient(s, id, c.(scanned := c.scanned + 1,
                                held := if k in s.cache then Some(Item(k, s.cache[k])) else None)))
  }

  /** The connect handler writes what it read; it only logs a failure. */
  function GreetOne<V>(s: Pool<V>, id: Id, ok: bool): Option<Pool<V>> {
    if id !in s.clients || s.clients[id].held.None? || (ok && s.clients[id].closes > 0) then None
    else
      var c := s.clients[id];
      if !ok then Some(WithClient(s, id, c.(held := None, failed := true)))
      else Some(WithClient(s, id, c.(held := None, sent := c.sent + [c.held.value])))
  }

  /** One step; broadcasts of one kind may be under way together. */
  function Next<V>(s: Pool<V>, a: Action<V>): Option<Pool<V>> {
    match a
    case Store(w, item) =>
      if w in s.senders then None
      else
        Some(s.(cache := s.cache[item.kind := item.value],
                senders := s.senders[w := Sender(Some(item), Prepared)]))
    case Prepare(w) =>
      if w in s.senders then None
      else Some(s.(senders := s.senders[w := Sender(None, Prepared)]))
    case Copy(w) =>
      if w !in s.senders || !s.senders[w].stage.Prepared? then None
      else Some(AtStage(s, w, Delivering(s.registry)))
    case Write(w, id, ok) => WriteOne(s, w, id, ok)
    case Evict(w) =>
      if w !in s.senders || !s.senders[w].stage.Evicting? then None
      else Some(Removed(AtStage(s, w, Delivering(s.senders[w].stage.pending)), s.senders[w].stage.id))
    case Done(w) =>
      if w !in s.senders || s.senders[w].stage != Delivering({}) then None
      else Some(s.(senders := s.senders - {w}))
    case Add(id) =>
      if id in s.clients then None
      else Some(WithClient(s, id, Client(0, None, [], false, false, 0)).(registry := s.registry + {id}))
    case Read(id) => ReadNext(s, id)
    case Greet(id, ok) => GreetOne(s, id, ok)
    case Exit(id) =>
      if id !in s.clients || s.clients[id].scanned < 3 || s.clients[id].held.Some? || s.clients[id].exited then None
      else Some(Removed(WithClient(s, id, s.clients[id].(exited := true)), id))
  }

  function Run<V>(actions: seq<Action<V>>): Option<Pool<V>> {
    if actions == [] then Some(Start())
    else
      var before := Run(actions[..|actions| - 1]);
      if before.None? then None else Next(before.value, actions[|actions| - 1])
  }

  // -------------------------------------------------------------- lifecycle

  ghost predicate Lifecycle<V>(s: Pool<V>) {
    && s.registry <= s.clients.Keys
    && (forall id :: id in s.clients ==> s.clients[id].closes == if id in s.registry then 0 else 1)
  }

  lemma LifecycleStep<V>(s: Pool<V>, a: Action<V>)
    requires Lifecycle(s) && Next(s, a).Some?
    ensures Lifecycle(Next(s, a).value)
  {
  }

  /** Pool lifecycle: over every interleaving of joins, broadcasts with failing writes and read-loop
      exits, a socket is closed at most once, and it is closed exactly when it was added and is no
      longer registered. */
  lemma {:induction false} ClosedOnceAndOnlyWhenRemoved<V>(actions: seq<Action<V>>)
    requires Run(actions).Some?
    ensures var s := Run(actions).value;
            && s.registry <= s.clients.Keys
            && (forall id :: id in s.clients ==>
                  s.clients[id].closes <= 1 && (s.clients[id].closes == 1 <==> id !in s.registry))
    ensures Lifecycle(Run(actions).value)
  {
    if actions != [] {
      var init := actions[..|actions| - 1];
      ClosedOnceAndOnlyWhenRemoved(init);
      LifecycleStep(Run(init).value, actions[|actions| - 1]);
    }
  }

  // -------------------------------------------- the state, from the schedule

  /** The client that broadcaster `w` failed to reach and has not removed yet. */
  function Failing<V>(actions: seq<Action<V>>, w: Writer): Option<Id> {
    if actions == [] then None
    else
      var a := actions[|actions| - 1];
      if a.Write? && a.writer == w && !a.ok then Some(a.id)
      else if a == Evict(w) then None
      else Failing(actions[..|actions| - 1], w)
  }

  /** Action `i` removes the client: its read loop ends, or a broadcaster that failed to write to it evicts
      it. */
  ghost predicate Removes<V>(actions: seq<Action<V>>, i: int, id: Id) {
    && 0 <= i < |actions|
    && (actions[i] == Exit(id) || (actions[i].Evict? && Failing(actions[..i], actions[i].writer) == Some(id)))
  }

  ghost predicate WasRemoved<V>(actions: seq<Action<V>>, id: Id) {
    exists i :: Removes(actions, i, id)
  }

  /** A broadcaster evicts exactly while the schedule says that it failed. */
  ghost predicate EvictInv<V>(actions: seq<Action<V>>, s: Pool<V>, w: Writer) {
    && (w in s.senders && s.senders[w].stage.Evicting? <==> Failing(actions, w).Some?)
    && (w in s.senders && s.senders[w].stage.Evicting? ==> Failing(actions, w) == Some(s.senders[w].stage.id))
  }

  lemma EvictMoves<V>(s: Pool<V>, a: Action<V>, w: Writer)
    requires Next(s, a).Some?
    ensures var t := Next(s, a).value;
            var was, now := w in s.senders && s.senders[w].stage.Evicting?, w in t.senders && t.senders[w].stage.Evicting?;
            if a.Write? && a.writer == w && !a.ok then now && t.senders[w].stage.id == a.id
            else if a == Evict(w) then !now
            else now == was && (now ==> t.senders[w].stage == s.senders[w].stage)
  {
  }

  lemma {:induction false} EvictRun<V>(actions: seq<Action<V>>, w: Writer)
    requires Run(actions).Some?
    ensures EvictInv(actions, Run(actions).value, w)
  {
    if actions != [] {
      var init := actions[..|actions| - 1];
      EvictRun(init, w);
      EvictMoves(Run(init).value, actions[|actions| - 1], w);
    }
  }

  /** What a step does to who is registered. */
  lemma RegistryMoves<V>(s: Pool<V>, a: Action<V>, id: Id)
    requires s.registry <= s.clients.Keys && Next(s, a).Some?
    ensures var t := Next(s, a).value;
            && (id in t.clients <==> id in s.clients || a == Add(id))
            && (a == Add(id) ==> id !in s.clients)
            && (a == Exit(id) ==> id in s.clients)
            && (id in t.registry <==>
                  a == Add(id)
                  || (id in s.registry && a != Exit(id)
                      && !(a.Evict? && a.writer in s.senders && s.senders[a.writer].stage.Evicting?
                           && s.senders[a.writer].stage.id == id)))
  {
  }

  lemma RemovesBefore<V>(init: seq<Action<V>>, a: Action<V>, id: Id)
    ensures WasRemoved(init + [a], id)
            <==> WasRemoved(init, id) || a == Exit(id) || (a.Evict? && Failing(init, a.writer) == Some(id))
  {
    var actions := init + [a];
    assert actions[..|init|] == init;
    forall i | 0 <= i < |init| ensures Removes(actions, i, id) <==> Removes(init, i, id) {
      assert actions[..i] == init[..i];
    }
    if WasRemoved(init, id) {
      var i :| Removes(init, i, id);
      assert Removes(actions, i, id);
    }
    if a == Exit(id) || (a.Evict? && Failing(init, a.writer) == Some(id)) {
      assert Removes(actions, |init|, id);
    }
  }

  /** Broadcasters only fail to reach clients that were added. */
  lemma {:induction false} FailingWasAdded<V>(actions: seq<Action<V>>, w: Writer)
    requires Run(actions).Some? && Failing(actions, w).Some?
    ensures Failing(actions, w).value in Run(actions).value.clients
  {
    var init, a := actions[..|actions| - 1], actions[|actions| - 1];
    var s := Run(init).value;
    ClosedOnceAndOnlyWhenRemoved(init);
    RegistryMoves(s, a, Failing(actions, w).value);
    if !(a.Write? && a.writer == w && !a.ok) {
      FailingWasAdded(init, w);
    }
  }

  /** A client is registered exactly if it was added and neither its read loop ended nor a broadcast write
      to it failed and was followed by its eviction. No other write and no other failure removes it. */
  lemma {:induction false} RegisteredIff<V>(actions: seq<Action<V>>, id: Id)
    requires Run(actions).Some?
    ensures id in Run(actions).value.clients <==> Add(id) in actions
    ensures id in Run(actions).value.registry <==> Add(id) in actions && !WasRemoved(actions, id)
  {
    if actions != [] {
      var init, a := actions[..|actions| - 1], actions[|actions| - 1];
      var s := Run(init).value;
      assert actions == init + [a];
      RegisteredIff(init, id);
      ClosedOnceAndOnlyWhenRemoved(init);
      RegistryMoves(s, a, id);
      RemovesBefore(init, a, id);
      if a.Evict? {
        EvictRun(init, a.writer);
      }
      if a == Add(id) {
        NeverRemoved(init, id);
      }
    }
  }

  lemma {:induction false} NeverRemoved<V>(actions: seq<Action<V>>, id: Id)
    requires Run(actions).Some? && id !in Run(actions).value.clients
    ensures !WasRemoved(actions, id)
  {
    if actions != [] {
      var init, a := actions[..|actions| - 1], actions[|actions| - 1];
      var s := Run(init).value;
      assert actions == init + [a];
      ClosedOnceAndOnlyWhenRemoved(init);
      RegistryMoves(s, a, id);
      NeverRemoved(init, id);
      RemovesBefore(init, a, id);
      if a.Evict? && Failing(init, a.writer) == Some(id) {
        FailingWasAdded(init, a.writer);
      }
    }
  }

  /** The value of kind `k` stored last. */
  function LastStored<V>(actions: seq<Action<V>>, k: Kind): Option<V> {
    if actions == [] then None
    else
      var a := actions[|actions| - 1];
      if a.Store? && a.item.kind == k then Some(a.item.value) else LastStored(actions[..|actions| - 1], k)
  }

  lemma {:induction false} CacheFromSchedule<V>(actions: seq<Action<V>>, k: Kind)
    requires Run(actions).Some?
    ensures Lookup(Run(actions).value.cache, k) == LastStored(actions, k)
  {
    if actions != [] {
      var init := actions[..|actions| - 1];
      CacheFromSchedule(init, k);
      CacheMoves(Run(init).value, actions[|actions| - 1], k);
    }
  }

  lemma CacheMoves<V>(s: Pool<V>, a: Action<V>, k: Kind)
    requires Next(s, a).Some?
    ensures Lookup(Next(s, a).value.cache, k)
            == if a.Store? && a.item.kind == k then Some(a.item.value) else Lookup(s.cache, k)
  {
  }

  /** What broadcaster `w` is sending: None if it is idle, Some(None) if its message is no cached state. */
  function Announced<V>(actions: seq<Action<V>>, w: Writer): Option<Option<Item<V>>> {
    if actions == [] then None
    else
      var a := actions[|actions| - 1];
      if a.Store? && a.writer == w then Some(Some(a.item))
      else if a == Prepare(w) then Some(None)
      else if a == Done(w) then None
      else Announced(actions[..|actions| - 1], w)
  }

  /** Broadcaster `w` has copied the registry with this client in it, and not written to it since. */
  ghost predicate Owes<V>(actions: seq<Action<V>>, w: Writer, id: Id) {
    actions != [] &&
      var init, a := actions[..|actions| - 1], actions[|actions| - 1];
      if a == Copy(w) then Add(id) in init && !WasRemoved(init, id)
      else if a.Write? && a.writer == w && a.id == id then false
      else Owes(init, w, id)
  }

  lemma SenderMoves<V>(s: Pool<V>, a: Action<V>, w: Writer)
    requires Next(s, a).Some?
    ensures var t := Next(s, a).value;
            if a.Store? && a.writer == w then w !in s.senders && w in t.senders && t.senders[w] == Sender(Some(a.item), Prepared)
            else if a == Prepare(w) then w !in s.senders && w in t.senders && t.senders[w] == Sender(None, Prepared)
            else if a == Done(w) then w in s.senders && s.senders[w].stage == Delivering({}) && w !in t.senders
            else (w in t.senders <==> w in s.senders) && (w in s.senders ==> t.senders[w].item == s.senders[w].item)
  {
  }

  lemma {:induction false} SenderFromSchedule<V>(actions: seq<Action<V>>, w: Writer)
    requires Run(actions).Some?
    ensures var s := Run(actions).value;
            Announced(actions, w) == if w in s.senders then Some(s.senders[w].item) else None
  {
    if actions != [] {
      var init := actions[..|actions| - 1];
      SenderFromSchedule(init, w);
      SenderMoves(Run(init).value, actions[|actions| - 1], w);
    }
  }

  lemma PendingMoves<V>(s: Pool<V>, a: Action<V>, w: Writer, id: Id)
    requires Next(s, a).Some? && w in Next(s, a).value.senders && !Next(s, a).value.senders[w].stage.Prepared?
    ensures w in s.senders
    ensures var now := Next(s, a).value.senders[w].stage.pending;
            if a == Copy(w) then id in now <==> id in s.registry
            else !s.senders[w].stage.Prepared?
                 && (id in now <==> id in s.senders[w].stage.pending && !(a.Write? && a.writer == w && a.id == id))
  {
  }

  /** A broadcast still has to reach exactly the clients that were registered when it copied the registry and
      that it has not written to since; and it ends only when there are none. */
  lemma {:induction false} PendingFromSchedule<V>(actions: seq<Action<V>>, w: Writer, id: Id)
    requires Run(actions).Some?
    requires var s := Run(actions).value; w in s.senders && !s.senders[w].stage.Prepared?
    ensures id in Run(actions).value.senders[w].stage.pending <==> Owes(actions, w, id)
  {
    var init, a := actions[..|actions| - 1], actions[|actions| - 1];
    PendingMoves(Run(init).value, a, w, id);
    if a == Copy(w) {
      RegisteredIff(init, id);
    } else {
      PendingFromSchedule(init, w, id);
    }
  }

  /** What the connect handler of `id` has read and not written yet. */
  function Looked<V>(actions: seq<Action<V>>, id: Id): Option<Item<V>> {
    if actions == [] then None
    else
      var init, a := actions[..|actions| - 1], actions[|actions| - 1];
      if a == Read(id) then
        var k := KindAt(Reads(init, id));
        if LastStored(init, k).Some? then Some(Item(k, LastStored(init, k).value)) else None
      else if a.Greet? && a.id == id then None
      else Looked(init, id)
  }

  /** How many caches the connect handler of `id` has read. */
  function Reads<V>(actions: seq<Action<V>>, id: Id): nat {
    if actions == [] then 0
    else Reads(actions[..|actions| - 1], id) + if actions[|actions| - 1] == Read(id) then 1 else 0
  }

  /** The states written to the client with success: by broadcasts of states, and by its connect handler. */
  function Written<V>(actions: seq<Action<V>>, id: Id): seq<Item<V>> {
    if actions == [] then []
    else
      var init, a := actions[..|actions| - 1], actions[|actions| - 1];
      if a.Write? && a.id == id && a.ok && Announced(init, a.writer).Some? && Announced(init, a.writer).value.Some? then
        Written(init, id) + [Announced(init, a.writer).value.value]
      else if a == Greet(id, true) && Looked(init, id).Some? then Written(init, id) + [Looked(init, id).value]
      else Written(init, id)
  }

  /** The action is a failed write to the client. */
  predicate Fails<V>(a: Action<V>, id: Id) {
    (a.Write? || a.Greet?) && a.id == id && !a.ok
  }

  lemma ClientMoves<V>(s: Pool<V>, a: Action<V>, id: Id)
    requires Next(s, a).Some? && id in s.clients
    ensures id in Next(s, a).value.clients
    ensures var c, c' := s.clients[id], Next(s, a).value.clients[id];
            && (c'.failed <==> c.failed || Fails(a, id))
            && (c'.exited <==> c.exited || a == Exit(id))
            && c'.scanned == c.scanned + (if a == Read(id) then 1 else 0)
            && c'.held == (if a == Read(id) then
                             var k := KindAt(c.scanned);
                             if Lookup(s.cache, k).Some? then Some(Item(k, Lookup(s.cache, k).value)) else None
                           else if a.Greet? && a.id == id then None
                           else c.held)
  {
  }

  lemma WrittenMoves<V>(s: Pool<V>, a: Action<V>, id: Id)
    requires Next(s, a).Some? && id in s.clients
    ensures id in Next(s, a).value.clients
    ensures var c, c' := s.clients[id], Next(s, a).value.clients[id];
            if a.Write? && a.id == id && a.ok && a.writer in s.senders && s.senders[a.writer].item.Some? then
              c'.sent == c.sent + [s.senders[a.writer].item.value]
            else if a == Greet(id, true) then c.held.Some? && c'.sent == c.sent + [c.held.value]
            else c'.sent == c.sent
  {
  }

  /** What a client has been through is what the schedule says: which states were written to it, in order;
      what its connect handler holds; and whether a write to it failed or its read loop ended. */
  lemma {:induction false} ClientFromSchedule<V>(actions: seq<Action<V>>, id: Id)
    requires Run(actions).Some? && id in Run(actions).value.clients
    ensures var c := Run(actions).value.clients[id];
            && c.scanned == Reads(actions, id) && c.held == Looked(actions, id) && c.sent == Written(actions, id)
            && (c.failed <==> exists a :: a in actions && Fails(a, id))
            && (c.exited <==> Exit(id) in actions)
  {
    var init, a := actions[..|actions| - 1], actions[|actions| - 1];
    var s := Run(init).value;
    assert actions == init + [a];
    ClosedOnceAndOnlyWhenRemoved(init);
    RegistryMoves(s, a, id);
    if id in s.clients {
      ClientFromSchedule(init, id);
      ClientMoves(s, a, id);
      WrittenMoves(s, a, id);
      CacheFromSchedule(init, KindAt(s.clients[id].scanned));
      if a.Write? {
        SenderFromSchedule(init, a.writer);
      }
      assert a in actions;
      assert forall x :: x in actions <==> x in init || x == a;
    } else {
      UnaddedIdle(init, id);
      AddedFresh(s, a, id);
      assert forall x :: x in actions <==> x in init || x == a;
    }
  }

  lemma AddedFresh<V>(s: Pool<V>, a: Action<V>, id: Id)
    requires Next(s, a).Some? && id !in s.clients && s.registry <= s.clients.Keys
    ensures !Fails(a, id) && a != Read(id) && a != Exit(id) && !(a.Greet? && a.id == id) && !(a.Write? && a.id == id)
    ensures a == Add(id) ==> id in Next(s, a).value.clients
                             && Next(s, a).value.clients[id] == Client(0, None, [], false, false, 0)
  {
  }

  lemma {:induction false} UnaddedIdle<V>(actions: seq<Action<V>>, id: Id)
    requires Run(actions).Some? && id !in Run(actions).value.clients
    ensures Reads(actions, id) == 0 && Looked(actions, id).None? && Written(actions, id) == []
    ensures (forall a :: a in actions ==> !Fails(a, id)) && Exit(id) !in actions
  {
    if actions != [] {
      var init, a := actions[..|actions| - 1], actions[|actions| - 1];
      assert actions == init + [a];
      ClosedOnceAndOnlyWhenRemoved(init);
      RegistryMoves(Run(init).value, a, id);
      UnaddedIdle(init, id);
      AddedFresh(Run(init).value, a, id);
    }
  }

  // ---------------------------------------------------------- state on join

  /** A broadcast of kind `k` has stored its item and still has to reach `id`. */
  ghost predicate Coming<V>(s: Pool<V>, id: Id, k: Kind) {
    exists w :: w in s.senders && Reaches(s.senders[w], id, k)
  }

  ghost predicate Reaches<V>(x: Sender<V>, id: Id, k: Kind) {
    && x.item.Some? && x.item.value.kind == k
    && (x.stage.Prepared? || id in x.stage.pending)
  }

  /** Stores no value of kind `k` that differs from one a broadcaster under way has stored. */
  ghost predicate Agrees<V>(s: Pool<V>, a: Action<V>, k: Kind) {
    a.Store? && a.item.kind == k ==>
      forall w :: w in s.senders && s.senders[w].item.Some? && s.senders[w].item.value.kind == k ==>
        s.senders[w].item.value == a.item
  }

  /** Broadcasts of kind `k` that overlap carry the same value; one at a time always agrees. */
  ghost predicate Agreeing<V>(actions: seq<Action<V>>, k: Kind) {
    actions != [] ==>
      var init := actions[..|actions| - 1];
      && Agreeing(init, k)
      && (Run(init).Some? ==> Agrees(Run(init).value, actions[|actions| - 1], k))
  }

  ghost predicate SenderInv<V>(s: Pool<V>, k: Kind) {
    forall w :: w in s.senders && s.senders[w].item.Some? && s.senders[w].item.value.kind == k ==>
      Lookup(s.cache, k) == Some(s.senders[w].item.value.value)
  }

  /** The connect handler has dealt with kind `k`. */
  predicate Greeted<V>(c: Client<V>, k: Kind) {
    Rank(k) < c.scanned && (c.held.Some? ==> c.held.value.kind != k)
  }

  /** What the connect handler holds is of the kind it read last. */
  predicate HandlerInv<V>(c: Client<V>) {
    c.scanned <= 3 && (c.held.Some? ==> c.scanned > 0 && c.held.value.kind == KindAt(c.scanned - 1))
  }

  /** What holds of a client once nothing of kind `k` is on its way to it; `late` says that its handler
      wrote an outdated value last. */
  ghost predicate Settled<V>(c: Client<V>, k: Kind, now: Option<V>, late: bool) {
    if Greeted(c, k) then LastOf(k, c.sent) == now <==> !late
    else !late && (LastOf(k, c.sent).None? || LastOf(k, c.sent) == now)
  }

  ghost predicate ClientInv<V>(s: Pool<V>, id: Id, k: Kind, late: bool)
    requires id in s.clients
  {
    var c := s.clients[id];
    && HandlerInv(c)
    && (!Greeted(c, k) ==> !late)
    && (id in s.registry && !c.failed && !Coming(s, id, k) ==> Settled(c, k, Lookup(s.cache, k), late))
  }

  ghost predicate Inv<V>(s: Pool<V>, id: Id, k: Kind, late: bool) {
    && Lifecycle(s)
    && SenderInv(s, k)
    && (if id in s.clients then ClientInv(s, id, k, late) else !late)
  }

  lemma SenderStep<V>(s: Pool<V>, a: Action<V>, k: Kind)
    requires SenderInv(s, k) && Next(s, a).Some? && Agrees(s, a, k)
    ensures SenderInv(Next(s, a).value, k)
  {
    var t := Next(s, a).value;
    if !a.Store? {
      assert t.cache == s.cache;
      assert forall w :: w in t.senders && t.senders[w].item.Some? ==>
        w in s.senders && t.senders[w].item == s.senders[w].item;
    }
  }

  // ------------------------------------------- what the schedule says of it

  /** The connect handler of `id` reads the cache of kind `k`. */
  ghost predicate ReadsKind<V>(s: Pool<V>, a: Action<V>, id: Id, k: Kind) {
    a == Read(id) && id in s.clients && s.clients[id].scanned == Rank(k)
  }

  /** It writes what it read of kind `k`, with success. */
  ghost predicate GreetsKind<V>(s: Pool<V>, a: Action<V>, id: Id, k: Kind) {
    a == Greet(id, true) && id in s.clients && s.clients[id].held.Some? && s.clients[id].held.value.kind == k
  }

  /** A broadcast of kind `k` is written to `id`, with success. */
  ghost predicate WritesKind<V>(s: Pool<V>, a: Action<V>, id: Id, k: Kind) {
    && a.Write? && a.id == id && a.ok && a.writer in s.senders
    && s.senders[a.writer].item.Some? && s.senders[a.writer].item.value.kind == k
  }

  ghost predicate ReadAt<V>(actions: seq<Action<V>>, i: int, id: Id, k: Kind) {
    0 <= i < |actions| && Run(actions[..i]).Some? && ReadsKind(Run(actions[..i]).value, actions[i], id, k)
  }

  ghost predicate GreetAt<V>(actions: seq<Action<V>>, i: int, id: Id, k: Kind) {
    0 <= i < |actions| && Run(actions[..i]).Some? && GreetsKind(Run(actions[..i]).value, actions[i], id, k)
  }

  ghost predicate WriteAt<V>(actions: seq<Action<V>>, i: int, id: Id, k: Kind) {
    0 <= i < |actions| && Run(actions[..i]).Some? && WritesKind(Run(actions[..i]).value, actions[i], id, k)
  }

  /** What the cache of kind `k` holds before action `i`. */
  ghost function CacheAt<V>(actions: seq<Action<V>>, i: int, k: Kind): Option<V>
    requires 0 <= i <= |actions|
  {
    var s := Run(actions[..i]);
    if s.None? then None else Lookup(s.value.cache, k)
  }

  /** The connect handler is overtaken: the cache changes between its read of kind `k` and its write of
      what it read, and no broadcast of that kind is written to the client afterwards. */
  ghost predicate Overtaken<V>(actions: seq<Action<V>>, id: Id, k: Kind) {
    exists r, g :: OvertakenAt(actions, r, g, id, k)
  }

  ghost predicate OvertakenAt<V>(actions: seq<Action<V>>, r: int, g: int, id: Id, k: Kind) {
    && 0 <= r < g < |actions|
    && ReadAt(actions, r, id, k) && GreetAt(actions, g, id, k)
    && CacheAt(actions, r, k) != CacheAt(actions, g, k)
    && forall j :: g < j < |actions| ==> !WriteAt(actions, j, id, k)
  }

  /** Where the handler stands, told by the schedule: it has read kind `k` if and only if some action was
      that read, it holds what the cache held then, and it writes each kind at most once. */
  ghost predicate History<V>(actions: seq<Action<V>>, id: Id, k: Kind) {
    Run(actions).Some? ==>
      var s := Run(actions).value;
      && (id in s.clients ==> HandlerInv(s.clients[id]))
      && (id in s.clients && Rank(k) < s.clients[id].scanned ==> exists r :: ReadAt(actions, r, id, k))
      && (forall r :: ReadAt(actions, r, id, k) ==>
            && id in s.clients && Rank(k) < s.clients[id].scanned
            && (!Greeted(s.clients[id], k) ==>
                  CacheAt(actions, r, k) == Some(s.clients[id].held.value.value)))
      && (forall g :: GreetAt(actions, g, id, k) ==> id in s.clients && Greeted(s.clients[id], k))
  }

  lemma SamePast<V>(init: seq<Action<V>>, a: Action<V>, i: int, id: Id, k: Kind)
    requires 0 <= i <= |init|
    ensures CacheAt(init + [a], i, k) == CacheAt(init, i, k)
    ensures i < |init| ==>
              && (ReadAt(init + [a], i, id, k) <==> ReadAt(init, i, id, k))
              && (GreetAt(init + [a], i, id, k) <==> GreetAt(init, i, id, k))
              && (WriteAt(init + [a], i, id, k) <==> WriteAt(init, i, id, k))
  {
    assert (init + [a])[..i] == init[..i];
  }

  lemma LastAction<V>(init: seq<Action<V>>, a: Action<V>, s: Pool<V>, id: Id, k: Kind)
    requires Run(init) == Some(s)
    ensures Run(init + [a]) == Next(s, a)
    ensures CacheAt(init + [a], |init|, k) == Lookup(s.cache, k)
    ensures ReadAt(init + [a], |init|, id, k) <==> ReadsKind(s, a, id, k)
    ensures GreetAt(init + [a], |init|, id, k) <==> GreetsKind(s, a, id, k)
    ensures WriteAt(init + [a], |init|, id, k) <==> WritesKind(s, a, id, k)
  {
    assert (init + [a])[..|init|] == init;
  }

  /** How a step moves a connect handler: it only goes forward, */
  lemma HandlerForward<V>(s: Pool<V>, a: Action<V>, id: Id, k: Kind)
    requires Next(s, a).Some? && (id in s.clients ==> HandlerInv(s.clients[id]))
    ensures var t := Next(s, a).value;
            && (id in t.clients ==> HandlerInv(t.clients[id]))
            && (id in s.clients ==>
                  && id in t.clients
                  && s.clients[id].scanned <= t.clients[id].scanned
                  && (Greeted(s.clients[id], k) ==> Greeted(t.clients[id], k)))
            && (GreetsKind(s, a, id, k) ==> !Greeted(s.clients[id], k) && Greeted(t.clients[id], k))
  {
  }

  /** and gets past kind `k` by reading that cache, holding what it found. */
  lemma HandlerReads<V>(s: Pool<V>, a: Action<V>, id: Id, k: Kind)
    requires Next(s, a).Some? && id in Next(s, a).value.clients && Rank(k) < Next(s, a).value.clients[id].scanned
    requires id in s.clients ==> HandlerInv(s.clients[id])
    ensures var c := Next(s, a).value.clients[id];
            && id in s.clients
            && (!ReadsKind(s, a, id, k) ==> Rank(k) < s.clients[id].scanned)
            && (!Greeted(c, k) ==>
                  if ReadsKind(s, a, id, k) then Lookup(s.cache, k) == Some(c.held.value.value)
                  else !Greeted(s.clients[id], k) && c.held == s.clients[id].held)
  {
  }

  lemma HandlerStep<V>(s: Pool<V>, a: Action<V>, id: Id, k: Kind)
    requires Next(s, a).Some? && (id in s.clients ==> HandlerInv(s.clients[id]))
    ensures var t := Next(s, a).value;
            && (id in s.clients ==>
                  && id in t.clients && s.clients[id].scanned <= t.clients[id].scanned
                  && (Greeted(s.clients[id], k) ==> Greeted(t.clients[id], k)))
            && (id in t.clients ==> HandlerInv(t.clients[id]))
            && (ReadsKind(s, a, id, k) ==> Rank(k) < t.clients[id].scanned)
            && (GreetsKind(s, a, id, k) ==> !Greeted(s.clients[id], k) && Greeted(t.clients[id], k))
            && (id in t.clients && Rank(k) < t.clients[id].scanned ==>
                  && id in s.clients
                  && (!ReadsKind(s, a, id, k) ==> Rank(k) < s.clients[id].scanned)
                  && (!Greeted(t.clients[id], k) ==>
                        if ReadsKind(s, a, id, k) then Lookup(s.cache, k) == Some(t.clients[id].held.value.value)
                        else !Greeted(s.clients[id], k) && t.clients[id].held == s.clients[id].held))
  {
    var t := Next(s, a).value;
    HandlerForward(s, a, id, k);
    if id in t.clients && Rank(k) < t.clients[id].scanned {
      HandlerReads(s, a, id, k);
    }
  }

  lemma HistoryReads<V>(init: seq<Action<V>>, a: Action<V>, id: Id, k: Kind, r: int)
    requires Run(init).Some? && Next(Run(init).value, a).Some? && History(init, id, k)
    requires ReadAt(init + [a], r, id, k)
    ensures var t := Next(Run(init).value, a).value;
            && id in t.clients && Rank(k) < t.clients[id].scanned
            && (!Greeted(t.clients[id], k) ==>
                  CacheAt(init + [a], r, k) == Some(t.clients[id].held.value.value))
  {
    LastAction(init, a, Run(init).value, id, k);
    HandlerStep(Run(init).value, a, id, k);
    SamePast(init, a, r, id, k);
  }

  lemma HistoryStep<V>(init: seq<Action<V>>, a: Action<V>, id: Id, k: Kind)
    requires Run(init).Some? && Next(Run(init).value, a).Some? && History(init, id, k)
    ensures History(init + [a], id, k)
  {
    var s, t, actions := Run(init).value, Next(Run(init).value, a).value, init + [a];
    LastAction(init, a, s, id, k);
    HandlerStep(s, a, id, k);
    if id in t.clients && Rank(k) < t.clients[id].scanned && !ReadsKind(s, a, id, k) {
      var r :| ReadAt(init, r, id, k);
      SamePast(init, a, r, id, k);
      assert ReadAt(actions, r, id, k);
    }
    forall r | ReadAt(actions, r, id, k)
      ensures id in t.clients && Rank(k) < t.clients[id].scanned
      ensures !Greeted(t.clients[id], k) ==> CacheAt(actions, r, k) == Some(t.clients[id].held.value.value)
    {
      HistoryReads(init, a, id, k, r);
    }
    forall g | GreetAt(actions, g, id, k) ensures id in t.clients && Greeted(t.clients[id], k) {
      SamePast(init, a, g, id, k);
    }
  }

  /** How one more action changes whether the handler is overtaken. */
  ghost predicate LateNext<V>(s: Pool<V>, a: Action<V>, id: Id, k: Kind, late: bool) {
    if WritesKind(s, a, id, k) then false
    else if GreetsKind(s, a, id, k) then Lookup(s.cache, k) != Some(s.clients[id].held.value.value)
    else late
  }

  lemma OvertakenBefore<V>(init: seq<Action<V>>, a: Action<V>, r: int, g: int, id: Id, k: Kind)
    requires Run(init).Some? && 0 <= r < g < |init|
    ensures OvertakenAt(init + [a], r, g, id, k)
            <==> OvertakenAt(init, r, g, id, k) && !WritesKind(Run(init).value, a, id, k)
  {
    var actions := init + [a];
    LastAction(init, a, Run(init).value, id, k);
    SamePast(init, a, r, id, k);
    SamePast(init, a, g, id, k);
    forall j | g < j < |init| ensures WriteAt(actions, j, id, k) <==> WriteAt(init, j, id, k) {
      SamePast(init, a, j, id, k);
    }
    if OvertakenAt(actions, r, g, id, k) {
      assert !WriteAt(actions, |init|, id, k);
      forall j | g < j < |init| ensures !WriteAt(init, j, id, k) {
        assert !WriteAt(actions, j, id, k);
      }
    }
  }

  lemma OvertakenNow<V>(init: seq<Action<V>>, a: Action<V>, r: int, id: Id, k: Kind)
    requires Run(init).Some? && Next(Run(init).value, a).Some? && History(init, id, k)
    requires 0 <= r < |init| && ReadAt(init, r, id, k)
    ensures OvertakenAt(init + [a], r, |init|, id, k)
            <==> GreetsKind(Run(init).value, a, id, k)
                 && Lookup(Run(init).value.cache, k) != Some(Run(init).value.clients[id].held.value.value)
  {
    LastAction(init, a, Run(init).value, id, k);
    HandlerStep(Run(init).value, a, id, k);
    SamePast(init, a, r, id, k);
  }

  lemma OvertakenStep<V>(init: seq<Action<V>>, a: Action<V>, id: Id, k: Kind)
    requires Run(init).Some? && Next(Run(init).value, a).Some? && History(init, id, k)
    ensures Overtaken(init + [a], id, k) <==> LateNext(Run(init).value, a, id, k, Overtaken(init, id, k))
  {
    var s, actions := Run(init).value, init + [a];
    HandlerStep(s, a, id, k);
    if Overtaken(actions, id, k) {
      var r, g :| OvertakenAt(actions, r, g, id, k);
      SamePast(init, a, r, id, k);
      if g < |init| {
        OvertakenBefore(init, a, r, g, id, k);
        assert GreetAt(init, g, id, k);
      } else {
        OvertakenNow(init, a, r, id, k);
      }
    }
    if LateNext(s, a, id, k, Overtaken(init, id, k)) {
      if GreetsKind(s, a, id, k) {
        var r :| ReadAt(init, r, id, k);
        OvertakenNow(init, a, r, id, k);
      } else {
        var r, g :| OvertakenAt(init, r, g, id, k);
        OvertakenBefore(init, a, r, g, id, k);
      }
    }
  }

  // ------------------------------------------------- every step keeps it

  /** Steps that leave the client as it is and take nothing off its way. */
  lemma Unaffected<V>(s: Pool<V>, t: Pool<V>, id: Id, k: Kind, late: bool)
    requires id in s.clients && ClientInv(s, id, k, late)
    requires id in t.clients && t.clients[id] == s.clients[id]
    requires id in t.registry ==> id in s.registry
    requires !Coming(t, id, k) && id in t.registry ==>
               !Coming(s, id, k) && Lookup(t.cache, k) == Lookup(s.cache, k)
    ensures ClientInv(t, id, k, late)
  {
  }

  /** A sender still has to reach the client after a step that was not its write to that client. */
  lemma ComingStays<V>(s: Pool<V>, a: Action<V>, id: Id, k: Kind)
    requires Next(s, a).Some? && Coming(s, id, k)
    requires id in s.registry
    requires a.Write? && a.id == id ==>
               a.writer in s.senders && (s.senders[a.writer].item.None? || s.senders[a.writer].item.value.kind != k)
    ensures Coming(Next(s, a).value, id, k)
  {
    var t := Next(s, a).value;
    var w :| w in s.senders && Reaches(s.senders[w], id, k);
    assert w in t.senders && Reaches(t.senders[w], id, k);
  }

  /** A write of this kind: the client now has the cached value last. */
  lemma ClientWritten<V>(s: Pool<V>, a: Action<V>, id: Id, k: Kind, late: bool)
    requires Next(s, a).Some? && WritesKind(s, a, id, k) && SenderInv(s, k)
    requires id in s.clients && ClientInv(s, id, k, late)
    ensures id in Next(s, a).value.clients && ClientInv(Next(s, a).value, id, k, false)
  {
    var c, item := s.clients[id], s.senders[a.writer].item.value;
    LastOfAppend(k, c.sent, item);
    assert item == Item(k, item.value);
  }

  /** A write of something else. */
  lemma ClientWrittenOther<V>(s: Pool<V>, a: Action<V>, id: Id, k: Kind, late: bool)
    requires Next(s, a).Some? && a.Write? && a.id == id && a.ok && !WritesKind(s, a, id, k)
    requires id in s.clients && ClientInv(s, id, k, late)
    ensures id in Next(s, a).value.clients && ClientInv(Next(s, a).value, id, k, late)
  {
    var c, item := s.clients[id], s.senders[a.writer].item;
    if id in s.registry && Coming(s, id, k) {
      ComingStays(s, a, id, k);
    }
    if item.Some? {
      LastOfAppend(k, c.sent, item.value);
    } else {
      Unaffected(s, Next(s, a).value, id, k, late);
    }
  }

  lemma ClientWrite<V>(s: Pool<V>, a: Action<V>, k: Kind, late: bool)
    requires a.Write? && Next(s, a).Some? && SenderInv(s, k)
    requires a.id in s.clients && ClientInv(s, a.id, k, late)
    ensures a.id in Next(s, a).value.clients
    ensures ClientInv(Next(s, a).value, a.id, k, LateNext(s, a, a.id, k, late))
  {
    if WritesKind(s, a, a.id, k) {
      ClientWritten(s, a, a.id, k, late);
    } else if a.ok {
      ClientWrittenOther(s, a, a.id, k, late);
    }
  }

  lemma ClientReads<V>(s: Pool<V>, id: Id, k: Kind, late: bool)
    requires Next(s, Read(id)).Some? && id in s.clients && ClientInv(s, id, k, late)
    ensures id in Next(s, Read(id)).value.clients && ClientInv(Next(s, Read(id)).value, id, k, late)
  {
    var t := Next(s, Read(id)).value;
    assert t.senders == s.senders && t.cache == s.cache;
    assert Coming(t, id, k) == Coming(s, id, k);
  }

  lemma ClientGreets<V>(s: Pool<V>, id: Id, ok: bool, k: Kind, late: bool)
    requires Next(s, Greet(id, ok)).Some? && id in s.clients && ClientInv(s, id, k, late)
    ensures id in Next(s, Greet(id, ok)).value.clients
    ensures ClientInv(Next(s, Greet(id, ok)).value, id, k, LateNext(s, Greet(id, ok), id, k, late))
  {
    var t := Next(s, Greet(id, ok)).value;
    assert t.senders == s.senders && t.cache == s.cache;
    assert Coming(t, id, k) == Coming(s, id, k);
    LastOfAppend(k, s.clients[id].sent, s.clients[id].held.value);
  }

  /** What a step that is not a write to this client, nor one of its connect handler, leaves alone. */
  lemma OtherFrame<V>(s: Pool<V>, a: Action<V>, id: Id, k: Kind)
    requires Next(s, a).Some? && id in s.clients
    requires !((a.Write? || a.Read? || a.Greet?) && a.id == id)
    ensures var t := Next(s, a).value;
            && id in t.clients
            && t.clients[id].(closes := 0, exited := false) == s.clients[id].(closes := 0, exited := false)
            && (id in t.registry ==> id in s.registry && t.clients[id] == s.clients[id])
            && (Lookup(t.cache, k) == Lookup(s.cache, k) || (a.Store? && a.item.kind == k))
  {
  }

  /** A store is on its way to every client. */
  lemma StoreComes<V>(s: Pool<V>, a: Action<V>, id: Id)
    requires a.Store? && Next(s, a).Some?
    ensures Coming(Next(s, a).value, id, a.item.kind)
  {
    var t := Next(s, a).value;
    assert a.writer in t.senders && Reaches(t.senders[a.writer], id, a.item.kind);
  }

  lemma ClientOther<V>(s: Pool<V>, a: Action<V>, id: Id, k: Kind, late: bool)
    requires Next(s, a).Some? && id in s.clients && ClientInv(s, id, k, late)
    requires !((a.Write? || a.Read? || a.Greet?) && a.id == id)
    ensures id in Next(s, a).value.clients && ClientInv(Next(s, a).value, id, k, late)
  {
    var t := Next(s, a).value;
    OtherFrame(s, a, id, k);
    if id in t.registry {
      if a.Store? {
        StoreComes(s, a, id);
      }
      if Coming(s, id, k) {
        ComingStays(s, a, id, k);
      }
      Unaffected(s, t, id, k, late);
    }
  }

  lemma ClientStep<V>(s: Pool<V>, a: Action<V>, id: Id, k: Kind, late: bool)
    requires SenderInv(s, k) && Next(s, a).Some? && id in s.clients && ClientInv(s, id, k, late)
    ensures id in Next(s, a).value.clients
    ensures ClientInv(Next(s, a).value, id, k, LateNext(s, a, id, k, late))
  {
    if a.Write? && a.id == id {
      ClientWrite(s, a, k, late);
    } else if a.Read? && a.id == id {
      ClientReads(s, id, k, late);
    } else if a.Greet? && a.id == id {
      ClientGreets(s, id, a.ok, k, late);
    } else {
      ClientOther(s, a, id, k, late);
    }
  }

  lemma ClientAdded<V>(s: Pool<V>, a: Action<V>, id: Id, k: Kind)
    requires Next(s, a).Some? && id !in s.clients
    ensures !LateNext(s, a, id, k, false)
    ensures id in Next(s, a).value.clients ==> ClientInv(Next(s, a).value, id, k, false)
  {
  }

  lemma InvStep<V>(s: Pool<V>, a: Action<V>, id: Id, k: Kind, late: bool)
    requires Inv(s, id, k, late) && Next(s, a).Some? && Agrees(s, a, k)
    ensures Inv(Next(s, a).value, id, k, LateNext(s, a, id, k, late))
  {
    LifecycleStep(s, a);
    SenderStep(s, a, k);
    if id in s.clients {
      ClientStep(s, a, id, k, late);
    } else {
      ClientAdded(s, a, id, k);
    }
  }

  lemma {:induction false} InvRun<V>(actions: seq<Action<V>>, id: Id, k: Kind)
    requires Run(actions).Some? && Agreeing(actions, k)
    ensures History(actions, id, k)
    ensures Inv(Run(actions).value, id, k, Overtaken(actions, id, k))
  {
    if actions != [] {
      var init, a := actions[..|actions| - 1], actions[|actions| - 1];
      InvRun(init, id, k);
      assert actions == init + [a];
      HistoryStep(init, a, id, k);
      OvertakenStep(init, a, id, k);
      InvStep(Run(init).value, a, id, k, Overtaken(init, id, k));
    }
  }

  // ----------------------------------------------------------- main results

  /** Nothing of kind `k` is under way and the client's connect handler has finished without a
      failed write. */
  ghost predicate Quiet<V>(s: Pool<V>, id: Id, k: Kind) {
    && id in s.registry && id in s.clients && !s.clients[id].failed
    && s.clients[id].scanned == 3 && s.clients[id].held.None?
    && !Sending(s, k)
  }

  /** The item has been written to the client, or its handler is about to write it. */
  ghost predicate Has<V>(c: Client<V>, item: Item<V>) {
    item in c.sent || c.held == Some(item)
  }

  /** A broadcaster of this very item still has to reach the client. */
  ghost predicate Bringing<V>(s: Pool<V>, id: Id, item: Item<V>) {
    exists w :: w in s.senders && Brings(s.senders[w], id, item)
  }

  ghost predicate Brings<V>(x: Sender<V>, id: Id, item: Item<V>) {
    x.item == Some(item) && (x.stage.Prepared? || id in x.stage.pending)
  }

  /** A client that has read the cache of kind `k` has the cached item or will be brought it, because
      the last store is always broadcast by the goroutine that made it. */
  ghost predicate Informed<V>(s: Pool<V>, id: Id, k: Kind) {
    && id in s.registry && id in s.clients && !s.clients[id].failed
    && Rank(k) < s.clients[id].scanned && k in s.cache
    ==> Has(s.clients[id], Item(k, s.cache[k])) || Bringing(s, id, Item(k, s.cache[k]))
  }

  /** A broadcaster stays on its way until it has written to the client. */
  lemma BringingStays<V>(s: Pool<V>, a: Action<V>, id: Id, item: Item<V>)
    requires Next(s, a).Some? && Bringing(s, id, item) && id in s.registry && id in Next(s, a).value.clients
    ensures var t := Next(s, a).value;
            t.clients[id].failed || item in t.clients[id].sent || Bringing(t, id, item)
  {
    var t := Next(s, a).value;
    var w :| w in s.senders && Brings(s.senders[w], id, item);
    if !(a.Write? && a.writer == w && a.id == id) {
      assert w in t.senders && Brings(t.senders[w], id, item);
    }
  }

  lemma HasStays<V>(s: Pool<V>, a: Action<V>, id: Id, item: Item<V>)
    requires Next(s, a).Some? && id in s.clients && Has(s.clients[id], item)
    ensures var t := Next(s, a).value;
            id in t.clients && (t.clients[id].failed || Has(t.clients[id], item))
  {
  }

  /** Storing the kind sends a broadcaster on its way, and reading its cache yields the cached item. */
  lemma NewlyInformed<V>(s: Pool<V>, a: Action<V>, id: Id, k: Kind)
    requires Next(s, a).Some? && id in s.registry && id in s.clients
    requires (a.Store? && a.item.kind == k) || ReadsKind(s, a, id, k)
    ensures Informed(Next(s, a).value, id, k)
  {
    var t := Next(s, a).value;
    if a.Store? {
      assert a.item == Item(k, t.cache[k]);
      assert a.writer in t.senders && Brings(t.senders[a.writer], id, a.item);
    }
  }

  /** Any other step leaves the cache of the kind alone and reads no new one. */
  lemma NothingNew<V>(s: Pool<V>, a: Action<V>, id: Id, k: Kind)
    requires Next(s, a).Some? && s.registry <= s.clients.Keys && id in Next(s, a).value.registry
    requires !(a.Store? && a.item.kind == k) && !ReadsKind(s, a, id, k) && !(a == Add(id))
    ensures var t := Next(s, a).value;
            && id in s.registry && id in t.clients && Lookup(t.cache, k) == Lookup(s.cache, k)
            && (Rank(k) < t.clients[id].scanned ==> Rank(k) < s.clients[id].scanned)
            && (s.clients[id].failed ==> t.clients[id].failed)
  {
  }

  lemma InformedStep<V>(s: Pool<V>, a: Action<V>, id: Id, k: Kind)
    requires Lifecycle(s) && Informed(s, id, k) && Next(s, a).Some?
    ensures Informed(Next(s, a).value, id, k)
  {
    var t := Next(s, a).value;
    if id in t.registry && a != Add(id) {
      if id in s.registry && ((a.Store? && a.item.kind == k) || ReadsKind(s, a, id, k)) {
        NewlyInformed(s, a, id, k);
      } else {
        NothingNew(s, a, id, k);
        if Rank(k) < t.clients[id].scanned && k in s.cache && !t.clients[id].failed {
          var item := Item(k, s.cache[k]);
          if Has(s.clients[id], item) {
            HasStays(s, a, id, item);
          } else {
            BringingStays(s, a, id, item);
          }
        }
      }
    }
  }

  lemma {:induction false} InformedRun<V>(actions: seq<Action<V>>, id: Id, k: Kind)
    requires Run(actions).Some?
    ensures Informed(Run(actions).value, id, k)
  {
    if actions != [] {
      var init := actions[..|actions| - 1];
      InformedRun(init, id, k);
      ClosedOnceAndOnlyWhenRemoved(init);
      InformedStep(Run(init).value, actions[|actions| - 1], id, k);
    }
  }

  /** Joining misses nothing, whatever overlaps: a quiet client has been sent the currently cached
      value at least once. */
  lemma JoinMissesNothing<V>(actions: seq<Action<V>>, id: Id, k: Kind)
    requires Run(actions).Some? && Quiet(Run(actions).value, id, k)
    ensures var s := Run(actions).value;
            k in s.cache ==> Item(k, s.cache[k]) in s.clients[id].sent
  {
    InformedRun(actions, id, k);
  }

  /** But not always last: the last value of the kind a quiet client was sent is the cached one if
      and only if its connect handler was not overtaken. */
  lemma LastIsCurrentIffNotOvertaken<V>(actions: seq<Action<V>>, id: Id, k: Kind)
    requires Run(actions).Some? && Agreeing(actions, k) && Quiet(Run(actions).value, id, k)
    ensures var s := Run(actions).value;
            LastOf(k, s.clients[id].sent) == Lookup(s.cache, k) <==> !Overtaken(actions, id, k)
  {
    InvRun(actions, id, k);
  }

  lemma OneStep<V>(past: seq<Action<V>>, s: Pool<V>, a: Action<V>, t: Pool<V>)
    requires Run(past) == Some(s) && Next(s, a) == Some(t)
    ensures Run(past + [a]) == Some(t)
    ensures forall k :: Agreeing(past, k) && Agrees(s, a, k) ==> Agreeing(past + [a], k)
  {
    assert (past + [a])[..|past|] == past;
  }

  /** A client after one write of a broadcast, and after its removal if that failed. */
  function AfterWrite<V>(c: Client<V>, item: Item<V>, ok: bool): Client<V> {
    if ok then c.(sent := c.sent + [item]) else c.(failed := true, closes := c.closes + 1)
  }

  /** A broadcast that nothing overlaps: the item is cached and the registry copied. */
  lemma BeginSteps<V>(past: seq<Action<V>>, s: Pool<V>, item: Item<V>)
    requires Run(past) == Some(s) && s.senders == map[]
    ensures Run(past + [Store(0, item), Copy(0)])
            == Some(Pool(s.registry, s.clients, s.cache[item.kind := item.value],
                         map[0 := Sender(Some(item), Delivering(s.registry))]))
    ensures forall k :: Agreeing(past, k) ==> Agreeing(past + [Store(0, item), Copy(0)], k)
  {
    var m := Next(s, Store(0, item)).value;
    assert m == Pool(s.registry, s.clients, s.cache[item.kind := item.value], map[0 := Sender(Some(item), Prepared)]);
    OneStep(past, s, Store(0, item), m);
    var t := Next(m, Copy(0)).value;
    assert t == m.(senders := map[0 := Sender(Some(item), Delivering(s.registry))]);
    OneStep(past + [Store(0, item)], m, Copy(0), t);
    assert past + [Store(0, item)] + [Copy(0)] == past + [Store(0, item), Copy(0)];
  }

  /** A broadcast of a message that is no cached state, such as telemetry: it is announced and the registry
      copied, */
  lemma PlainBegins<V>(past: seq<Action<V>>, s: Pool<V>)
    requires Run(past) == Some(s) && s.senders == map[]
    ensures Run(past + [Prepare(0)] + [Copy(0)])
            == Some(s.(senders := map[0 := Sender(None, Delivering(s.registry))]))
  {
    var m := s.(senders := map[0 := Sender(None, Prepared)]);
    OneStep(past, s, Prepare(0), m);
    assert m.senders[0 := Sender(None, Delivering(s.registry))] == map[0 := Sender(None, Delivering(s.registry))];
    OneStep(past + [Prepare(0)], m, Copy(0), m.(senders := map[0 := Sender(None, Delivering(s.registry))]));
  }

  /** and a successful write leaves the client and the registry as they are. */
  lemma PlainWritten<V>(past: seq<Action<V>>, s: Pool<V>, id: Id, pending: set<Id>)
    requires Run(past) == Some(s) && s.senders == map[0 := Sender(None, Delivering(pending))]
    requires id in pending && id in s.registry
    ensures Run(past + [Write(0, id, true)]) == Some(s.(senders := map[0 := Sender(None, Delivering(pending - {id}))]))
  {
    ClosedOnceAndOnlyWhenRemoved(past);
    var t := s.(senders := map[0 := Sender(None, Delivering(pending - {id}))]);
    assert s.senders[0 := Sender(None, Delivering(pending - {id}))] == t.senders;
    OneStep(past, s, Write(0, id, true), t);
  }

  /** What one write of a broadcast leads to. */
  lemma DeliverSteps<V>(past: seq<Action<V>>, s: Pool<V>, w: Writer, id: Id, item: Item<V>, ok: bool, pending: set<Id>)
    returns (steps: seq<Action<V>>)
    requires Run(past) == Some(s) && Lifecycle(s) && id in s.registry && id in pending
    requires w in s.senders && s.senders[w] == Sender(Some(item), Delivering(pending))
    ensures steps == if ok then [Write(w, id, true)] else [Write(w, id, false), Evict(w)]
    ensures Run(past + steps)
            == Some(Pool(if ok then s.registry else s.registry - {id},
                         s.clients[id := AfterWrite(s.clients[id], item, ok)], s.cache,
                         s.senders[w := Sender(Some(item), Delivering(pending - {id}))]))
    ensures forall k :: Agreeing(past, k) ==> Agreeing(past + steps, k)
  {
    var m := Next(s, Write(w, id, ok)).value;
    OneStep(past, s, Write(w, id, ok), m);
    steps := [Write(w, id, ok)];
    var clients := s.clients[id := AfterWrite(s.clients[id], item, ok)];
    var senders := s.senders[w := Sender(Some(item), Delivering(pending - {id}))];
    if ok {
      assert m == Pool(s.registry, clients, s.cache, senders);
    } else {
      var t := Next(m, Evict(w)).value;
      assert t.senders == senders && t.clients == clients;
      OneStep(past + steps, m, Evict(w), t);
      assert past + steps + [Evict(w)] == past + (steps + [Evict(w)]);
      steps := steps + [Evict(w)];
    }
  }

  lemma EndStep<V>(past: seq<Action<V>>, s: Pool<V>, item: Item<V>)
    requires Run(past) == Some(s) && s.senders == map[0 := Sender(Some(item), Delivering({}))]
    ensures Run(past + [Done(0)]) == Some(s.(senders := map[]))
    ensures forall k :: Agreeing(past, k) ==> Agreeing(past + [Done(0)], k)
  {
    assert s.senders - {0} == map[];
    OneStep(past, s, Done(0), s.(senders := map[]));
  }

  /** The lock state `v` is cached, and nobody is connected. */
  lemma OnlyCached<V>(v: V) returns (actions: seq<Action<V>>, s: Pool<V>)
    ensures Run(actions) == Some(s) && s == Pool({}, map[], map[Lock := v], map[])
    ensures forall k :: Agreeing(actions, k)
  {
    var item := Item(Lock, v);
    BeginSteps([], Start(), item);
    actions := [] + [Store(0, item), Copy(0)];
    EndStep(actions, Pool({}, map[], map[Lock := v], map[0 := Sender(Some(item), Delivering({}))]), item);
    actions, s := actions + [Done(0)], Pool({}, map[], map[Lock := v], map[]);
  }

  /** Client 0 has joined and read the cached lock state `v`, but not written it. */
  lemma JoinedHolding<V>(v: V) returns (actions: seq<Action<V>>, s: Pool<V>)
    ensures Run(actions) == Some(s) && (forall k :: Agreeing(actions, k))
    ensures s == Pool({0}, map[0 := Client(1, Some(Item(Lock, v)), [], false, false, 0)], map[Lock := v], map[])
  {
    var c := Client(0, None, [], false, false, 0);
    var a0, s0 := OnlyCached(v);
    var s1 := Pool({0}, map[0 := c], map[Lock := v], map[]);
    assert {} + {0} == {0} && s0.clients[0 := c] == s1.clients;
    OneStep(a0, s0, Add(0), s1);
    s := s1.(clients := map[0 := c.(scanned := 1, held := Some(Item(Lock, v)))]);
    assert s1.clients[0 := s.clients[0]] == s.clients;
    OneStep(a0 + [Add(0)], s1, Read(0), s);
    actions := a0 + [Add(0)] + [Read(0)];
  }

  /** A newer lock state is broadcast to client 0 while it holds the older one. */
  lemma Overtakes<V>(older: V, newer: V) returns (actions: seq<Action<V>>, s: Pool<V>)
    ensures Run(actions) == Some(s) && (forall k :: Agreeing(actions, k))
    ensures s == Pool({0}, map[0 := Client(1, Some(Item(Lock, older)), [Item(Lock, newer)], false, false, 0)],
                      map[Lock := newer], map[])
  {
    var item := Item(Lock, newer);
    var c := Client(1, Some(Item(Lock, older)), [], false, false, 0);
    var a0, s0 := JoinedHolding(older);
    BeginSteps(a0, s0, item);
    var a1 := a0 + [Store(0, item), Copy(0)];
    var s1 := Pool({0}, map[0 := c], map[Lock := newer], map[0 := Sender(Some(item), Delivering({0}))]);
    assert s0.cache[Lock := newer] == s1.cache;
    var steps := DeliverSteps(a1, s1, 0, 0, item, true, {0});
    s := Pool({0}, map[0 := c.(sent := [item])], map[Lock := newer], map[]);
    assert [] + [item] == [item] && {0} - {0} == {};
    assert s1.clients[0 := s.clients[0]] == s.clients;
    assert s1.senders[0 := Sender(Some(item), Delivering({}))] == map[0 := Sender(Some(item), Delivering({}))];
    EndStep(a1 + steps, s.(senders := map[0 := Sender(Some(item), Delivering({}))]), item);
    actions := a1 + steps + [Done(0)];
  }

  /** The run that shows it: for any two lock states, a client can be sent the newer one by the
      broadcast and then the older one by its connect handler, and end with the older one. */
  lemma JoinCanEndStale<V>(older: V, newer: V) returns (actions: seq<Action<V>>)
    requires older != newer
    ensures Run(actions).Some? && Agreeing(actions, Lock)
    ensures var s := Run(actions).value;
            && Quiet(s, 0, Lock)
            && Lookup(s.cache, Lock) == Some(newer)
            && s.clients[0].sent == [Item(Lock, newer), Item(Lock, older)]
    ensures Overtaken(actions, 0, Lock)
  {
    var a0, s0 := Overtakes(older, newer);
    var s1 := Next(s0, Greet(0, true)).value;
    OneStep(a0, s0, Greet(0, true), s1);
    var a1 := a0 + [Greet(0, true)];
    var s2 := Next(s1, Read(0)).value;
    OneStep(a1, s1, Read(0), s2);
    var a2 := a1 + [Read(0)];
    OneStep(a2, s2, Read(0), Next(s2, Read(0)).value);
    actions := a2 + [Read(0)];
    LastOfAppend(Lock, [Item(Lock, newer)], Item(Lock, older));
    LastIsCurrentIffNotOvertaken(actions, 0, Lock);
  }

  // ------------------------------------------------------- the code in place

  /** A broadcast that began with this registry and these clients has dealt with all but `rest`. */
  ghost predicate Progress<V>(registry: set<Id>, clients: map<Id, Client<V>>, registry': set<Id>,
                              clients': map<Id, Client<V>>, rest: set<Id>, item: Item<V>, succeeds: Id -> bool) {
    && rest <= registry && rest <= registry' && registry <= clients.Keys == clients'.Keys
    && (forall id :: id in registry' <==> id in registry && (id in rest || succeeds(id)))
    && (forall id :: id in clients ==>
          clients'[id] == if id in registry && id !in rest then AfterWrite(clients[id], item, succeeds(id))
                          else clients[id])
  }

  lemma ProgressStep<V>(registry: set<Id>, clients: map<Id, Client<V>>, registry': set<Id>,
                        clients': map<Id, Client<V>>, rest: set<Id>, item: Item<V>, succeeds: Id -> bool, id: Id)
    requires Progress(registry, clients, registry', clients', rest, item, succeeds) && id in rest
    ensures Progress(registry, clients, if succeeds(id) then registry' else registry' - {id},
                     clients'[id := AfterWrite(clients'[id], item, succeeds(id))], rest - {id}, item, succeeds)
  {
  }

  /** The pool object with the engine's caches and what has happened to each client. Each method also
      records, in `actions`, the steps of the model it has taken; `senders` are the broadcasts that are
      under way. */
  class ConnectionPool<V> {
    var connections: set<Id>
    var clients: map<Id, Client<V>>
    var cache: map<Kind, V>
    ghost var senders: map<Writer, Sender<V>>
    ghost var actions: seq<Action<V>>

    ghost function View(): Pool<V>
      reads this
    {
      Pool(connections, clients, cache, senders)
    }

    /** The object is what the model says after these actions. */
    ghost predicate Valid()
      reads this
    {
      Run(actions) == Some(View()) && connections <= clients.Keys
    }

    constructor ()
      ensures Valid() && actions == [] && View() == Start()
    {
      connections, clients, cache := {}, map[], map[];
      senders, actions := map[], [];
    }

    /** Registers a client that was not seen before. */
    method Add(id: Id)
      requires Valid() && id !in clients
      modifies this
      ensures Valid() && actions == old(actions) + [Action.Add(id)]
      ensures id in connections && clients[id].closes == 0 && clients[id].sent == []
    {
      OneStep(actions, View(), Action.Add(id), Next(View(), Action.Add(id)).value);
      connections := connections + {id};
      clients := clients[id := Client(0, None, [], false, false, 0)];
      actions := actions + [Action.Add(id)];
    }

    /** Deletes a registered client and closes its socket; does nothing for any other. */
    method Remove(id: Id)
      requires connections <= clients.Keys
      modifies this`connections, this`clients
      ensures View() == Removed(old(View()), id)
      ensures id !in connections
    {
      if id in connections {
        connections := connections - {id};
        clients := clients[id := clients[id].(closes := clients[id].closes + 1)];
      }
    }

    /** The end of a client's read loop: whoever removed it before, its socket ends up closed once. */
    method HandleExit(id: Id)
      requires Valid() && id in clients && !clients[id].exited
      requires clients[id].scanned == 3 && clients[id].held.None?
      modifies this
      ensures Valid() && actions == old(actions) + [Exit(id)]
      ensures id !in connections && id in clients && clients[id].closes == 1
    {
      ClosedOnceAndOnlyWhenRemoved(actions);
      OneStep(actions, View(), Exit(id), Next(View(), Exit(id)).value);
      clients := clients[id := clients[id].(exited := true)];
      Remove(id);
      actions := actions + [Exit(id)];
    }

    /** The number of clients that were added and whose socket is still open. */
    method Size() returns (n: nat)
      requires Valid()
      ensures n == |set id | id in clients && clients[id].closes == 0|
    {
      ClosedOnceAndOnlyWhenRemoved(actions);
      n := |connections|;
      assert connections == set id | id in clients && clients[id].closes == 0;
    }

    /** Writes to a client and removes it if that fails. */
    method WriteTo(id: Id, item: Item<V>, ok: bool)
      requires id in connections && connections <= clients.Keys
      modifies this`connections, this`clients
      ensures connections == if ok then old(connections) else old(connections) - {id}
      ensures clients == old(clients)[id := AfterWrite(old(clients)[id], item, ok)]
    {
      if ok {
        clients := clients[id := clients[id].(sent := clients[id].sent + [item])];
      } else {
        clients := clients[id := clients[id].(failed := true)];
        Remove(id);
        assert clients == old(clients)[id := AfterWrite(old(clients)[id], item, ok)];
      }
    }

    /** One step of a broadcast: a client that cannot be reached is removed. */
    method Deliver(ghost w: Writer, id: Id, item: Item<V>, ok: bool, ghost pending: set<Id>)
      requires Valid() && id in connections && id in pending
      requires w in senders && senders[w] == Sender(Some(item), Delivering(pending))
      modifies this
      ensures Valid() && cache == old(cache)
      ensures actions == old(actions) + if ok then [Write(w, id, true)] else [Write(w, id, false), Evict(w)]
      ensures senders == old(senders)[w := Sender(Some(item), Delivering(pending - {id}))]
      ensures connections == if ok then old(connections) else old(connections) - {id}
      ensures clients == old(clients)[id := AfterWrite(old(clients)[id], item, ok)]
    {
      ClosedOnceAndOnlyWhenRemoved(actions);
      ghost var steps := DeliverSteps(actions, View(), w, id, item, ok, pending);
      WriteTo(id, item, ok);
      senders := senders[w := Sender(Some(item), Delivering(pending - {id}))];
      actions := actions + steps;
    }

    /** The loop over the copied registry: a lone broadcast leaves exactly the clients whose write
        succeeds, each sent the item once, and closes exactly the others. */
    method Broadcast(item: Item<V>, succeeds: Id -> bool)
      requires Valid() && senders == map[0 := Sender(Some(item), Delivering(connections))]
      modifies this
      ensures Valid() && senders == map[0 := Sender(Some(item), Delivering({}))]
      ensures old(actions) <= actions && cache == old(cache) && clients.Keys == old(clients.Keys)
      ensures connections == set id | id in old(connections) && succeeds(id)
      ensures forall id :: id in clients ==>
        clients[id] == if id in old(connections) then AfterWrite(old(clients)[id], item, succeeds(id))
                       else old(clients)[id]
    {
      var conns := connections;
      while conns != {}
        invariant Valid() && senders == map[0 := Sender(Some(item), Delivering(conns))]
        invariant old(actions) <= actions && cache == old(cache)
        invariant Progress(old(connections), old(clients), connections, clients, conns, item, succeeds)
        decreases conns
      {
        var id :| id in conns;
        ProgressStep(old(connections), old(clients), connections, clients, conns, item, succeeds, id);
        Deliver(0, id, item, succeeds(id), conns);
        conns := conns - {id};
      }
    }

    /** A monitor's work for one state: it caches the item and broadcasts it. */
    method Publish(item: Item<V>, succeeds: Id -> bool)
      requires Valid() && senders == map[]
      modifies this
      ensures Valid() && senders == map[] && old(actions) <= actions
      ensures cache == old(cache)[item.kind := item.value] && clients.Keys == old(clients.Keys)
      ensures connections == set id | id in old(connections) && succeeds(id)
      ensures forall id :: id in connections ==> clients[id].sent == old(clients)[id].sent + [item]
      ensures forall id :: id in old(connections) && id !in connections ==> clients[id].closes == 1
    {
      ClosedOnceAndOnlyWhenRemoved(actions);
      BeginSteps(actions, View(), item);
      cache := cache[item.kind := item.value];
      senders, actions := map[0 := Sender(Some(item), Delivering(connections))], actions + [Store(0, item), Copy(0)];
      Broadcast(item, succeeds);
      EndStep(actions, View(), item);
      senders, actions := map[], actions + [Done(0)];
    }
  }
}
