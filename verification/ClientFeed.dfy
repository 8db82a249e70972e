/** The protocol that feeds the workers' replica caches: file sets and cache fills are queued for
    every registered client, and any number of threads may be asked to bring a client up to date. */
module ClientFeed {
  import opened Trees

  /** One file attribute; its contents do not matter here. */
  type Item = string

  /** A batch handed to the network, not yet acknowledged; `need` is the set id its sender is after. */
  datatype Flight = Flight(thread: nat, batch: seq<Item>, need: nat)

  /** attrCachePending, with a record of what it has been through: everything ever queued for it,
      everything delivered, and for each file set where in the queue it ends. */
  datatype Client = Client(pending: seq<Item>, sentId: nat, pendingId: nat, busy: bool,
                           gone: bool, log: seq<Item>, delivered: seq<Item>, ends: map<nat, nat>,
                           flight: Option<Flight>)

  /** A thread inside Send: waiting for its turn, talking to the network, or returned without error.
      `goal` is how much had been queued in file sets when it called. */
  datatype Thread =
    | Waiting(client: nat, need: nat, goal: nat)
    | Sending(client: nat, need: nat, goal: nat)
    | Returned(client: nat, goal: nat, wasGone: bool)

  /** Clients are numbered by registration, `registry` says who is registered under which name. */
  datatype State = State(clients: map<nat, Client>, registry: map<string, nat>, nextClient: nat,
                         nextFileSetId: nat, threads: map<nat, Thread>)

  datatype Event =
    | AddClient(id: string, snapshot: seq<Item>)
    | RmClient(id: string)
    | Queue(files: seq<Item>)
    | Fill(item: Item)
    | CallSend(thread: nat, id: string)
    | TakeTurn(thread: nat)
    | Acknowledged(thread: nat)

  const INITIAL := State(map[], map[], 0, 1, map[])

  predicate Registered(s: State, n: nat) {
    n in s.registry.Values
  }

  /** The loop condition of Send: another thread is sending and has not reached our file set. */
  predicate MustWait(c: Client, need: nat) {
    c.busy && need > c.sentId
  }

  predicate Enabled(s: State, e: Event) {
    match e
    case AddClient(id, _) => id !in s.registry
    case RmClient(id) => id in s.registry && s.registry[id] in s.clients
    case Queue(_) => true
    case Fill(_) => true
    case CallSend(t, id) => t !in s.threads && id in s.registry && s.registry[id] in s.clients
    case TakeTurn(t) =>
      t in s.threads && s.threads[t].Waiting? && s.threads[t].client in s.clients
      && !MustWait(s.clients[s.threads[t].client], s.threads[t].need)
    case Acknowledged(t) =>
      t in s.threads && s.threads[t].Sending? && s.threads[t].client in s.clients
      && s.clients[s.threads[t].client].flight.Some?
  }

  /** One more set for a client: its items join the queue, and its id is the newest. */
  function Enqueued(c: Client, files: seq<Item>, fsid: nat): Client {
    c.(pending := c.pending + files, pendingId := fsid, log := c.log + files,
       ends := c.ends[fsid := |c.log| + |files|])
  }

  function WithFill(c: Client, item: Item): Client {
    c.(pending := c.pending + [item], log := c.log + [item])
  }

  function Apply(s: State, e: Event): State
    requires Enabled(s, e)
  {
    match e
    case AddClient(id, snapshot) =>
      var c := Client(snapshot, 0, s.nextFileSetId, false, false, snapshot, [],
                      map[s.nextFileSetId := |snapshot|], None);
      s.(clients := s.clients[s.nextClient := c], registry := s.registry[id := s.nextClient],
         nextClient := s.nextClient + 1, nextFileSetId := s.nextFileSetId + 1)
    case RmClient(id) =>
      var n := s.registry[id];
      s.(clients := s.clients[n := s.clients[n].(pending := [], busy := false, gone := true)],
         registry := s.registry - {id})
    case Queue(files) =>
      s.(clients := map n | n in s.clients ::
           if Registered(s, n) then Enqueued(s.clients[n], files, s.nextFileSetId) else s.clients[n],
         nextFileSetId := s.nextFileSetId + 1)
    case Fill(item) =>
      s.(clients := map n | n in s.clients ::
           if Registered(s, n) then WithFill(s.clients[n], item) else s.clients[n])
    case CallSend(t, id) =>
      var c := s.clients[s.registry[id]];
      s.(threads := s.threads[t := Waiting(s.registry[id], c.pendingId,
           if c.pendingId in c.ends then c.ends[c.pendingId] else 0)])
    case TakeTurn(t) =>
      var th := s.threads[t];
      var c := s.clients[th.client];
      if c.pending == [] || th.need <= c.sentId then
        s.(threads := s.threads[t := Returned(th.client, th.goal, c.gone)])
      else
        s.(clients := s.clients[th.client := c.(pending := [], busy := true,
                                     flight := Some(Flight(t, c.pending, th.need)))],
           threads := s.threads[t := Sending(th.client, th.need, th.goal)])
    case Acknowledged(t) =>
      var th := s.threads[t];
      var c := s.clients[th.client];
      s.(clients := s.clients[th.client := c.(busy := false, sentId := th.need,
           delivered := c.delivered + c.flight.value.batch, flight := None)],
         threads := s.threads[t := Returned(th.client, th.goal, c.gone)])
  }

  // ---------------------------------------------------------------- the invariant

  function InFlight(c: Client): seq<Item> {
    if c.flight.Some? then c.flight.value.batch else []
  }

  /** Nothing is lost, repeated or reordered, and the ids keep count of what has been delivered. */
  predicate ClientOk(s: State, c: Client) {
    && c.delivered + InFlight(c) + c.pending == c.log
    && (c.busy <==> c.flight.Some?)
    && c.sentId <= c.pendingId < s.nextFileSetId
    && c.pendingId in c.ends
    && (forall i :: i in c.ends ==> i <= c.pendingId && c.ends[i] <= |c.log|)
    && (forall i, j :: i in c.ends && j in c.ends && i <= j ==> c.ends[i] <= c.ends[j])
    && (forall i :: i in c.ends && i <= c.sentId ==> c.ends[i] <= |c.delivered|)
    && (c.flight.Some? ==>
          && c.flight.value.need in c.ends && c.sentId < c.flight.value.need
          && c.ends[c.flight.value.need] <= |c.delivered| + |c.flight.value.batch|)
  }

  /** A thread that returned while its client was registered had its file sets delivered. */
  predicate ThreadOk(s: State, t: nat)
    requires t in s.threads
  {
    var th := s.threads[t];
    && th.client in s.clients
    && var c := s.clients[th.client];
       match th
       case Waiting(_, need, goal) => !c.gone ==> need in c.ends && c.ends[need] == goal
       case Sending(_, need, goal) =>
         && c.flight.Some? && c.flight.value.thread == t && c.flight.value.need == need
         && (!c.gone ==> need in c.ends && c.ends[need] == goal)
       case Returned(_, goal, wasGone) => !wasGone ==> goal <= |c.delivered|
  }

  predicate ClientInv(s: State, n: nat)
    requires n in s.clients
  {
    var c := s.clients[n];
    && n < s.nextClient
    && (c.gone <==> !Registered(s, n))
    && (c.gone ==> c.pending == [])
    && c.delivered + InFlight(c) <= c.log
    && (!c.gone ==> ClientOk(s, c))
  }

  ghost predicate RegistryOk(s: State) {
    && (forall id :: id in s.registry ==> s.registry[id] in s.clients)
    && (forall a, b :: a in s.registry && b in s.registry && s.registry[a] == s.registry[b] ==> a == b)
  }

  ghost predicate Inv(s: State) {
    && s.nextFileSetId >= 1 && RegistryOk(s)
    && (forall n :: n in s.clients ==> ClientInv(s, n))
    && (forall t :: t in s.threads ==> ThreadOk(s, t))
  }

  lemma AddRegistry(s: State, id: string, snapshot: seq<Item>)
    requires Inv(s) && Enabled(s, AddClient(id, snapshot))
    ensures RegistryOk(Apply(s, AddClient(id, snapshot)))
    ensures s.nextClient !in s.clients && Registered(Apply(s, AddClient(id, snapshot)), s.nextClient)
    ensures forall n :: n in s.clients ==> (Registered(Apply(s, AddClient(id, snapshot)), n) <==> Registered(s, n))
  {
    var s' := Apply(s, AddClient(id, snapshot));
    assert forall n :: n in s.clients ==> ClientInv(s, n) && n < s.nextClient;
    assert s'.registry[id] == s.nextClient;
    forall n | n in s.clients ensures Registered(s', n) <==> Registered(s, n) {
      if Registered(s, n) {
        var a :| a in s.registry && s.registry[a] == n;
        assert s'.registry[a] == n;
      }
    }
  }

  lemma NewClientOk(s: State, snapshot: seq<Item>)
    requires s.nextFileSetId > 1
    ensures ClientOk(s, Client(snapshot, 0, s.nextFileSetId - 1, false, false, snapshot, [],
                               map[s.nextFileSetId - 1 := |snapshot|], None))
  {
    assert [] + [] + snapshot == snapshot;
  }

  lemma AddClientInv(s: State, id: string, snapshot: seq<Item>)
    requires Inv(s) && Enabled(s, AddClient(id, snapshot))
    ensures Inv(Apply(s, AddClient(id, snapshot)))
  {
    var s' := Apply(s, AddClient(id, snapshot));
    AddRegistry(s, id, snapshot);
    NewClientOk(s', snapshot);
    forall n | n in s'.clients
      ensures ClientInv(s', n)
    {
      if n != s.nextClient {
        AddOther(s, id, snapshot, n);
      }
    }
    forall t | t in s'.threads
      ensures ThreadOk(s', t)
    {
      assert ThreadOk(s, t);
    }
  }

  lemma AddOther(s: State, id: string, snapshot: seq<Item>, n: nat)
    requires Inv(s) && Enabled(s, AddClient(id, snapshot)) && n in s.clients && n != s.nextClient
    requires Registered(Apply(s, AddClient(id, snapshot)), n) <==> Registered(s, n)
    ensures ClientInv(Apply(s, AddClient(id, snapshot)), n)
  {
    assert ClientInv(s, n);
  }

  lemma RmClientInv(s: State, id: string)
    requires Inv(s) && Enabled(s, RmClient(id))
    ensures Inv(Apply(s, RmClient(id)))
  {
    var s' := Apply(s, RmClient(id));
    var n0 := s.registry[id];
    forall n | n in s'.clients ensures ClientInv(s', n) {
      assert ClientInv(s, n);
      if Registered(s, n) && n != n0 {
        var a :| a in s.registry && s.registry[a] == n;
        assert s'.registry[a] == n;
      }
    }
    forall t | t in s'.threads ensures ThreadOk(s', t) {
      assert ThreadOk(s, t);
    }
  }

  lemma EnqueuedOk(s: State, s': State, c: Client, files: seq<Item>)
    requires ClientOk(s, c) && s'.nextFileSetId == s.nextFileSetId + 1
    ensures ClientOk(s', Enqueued(c, files, s.nextFileSetId))
  {
    assert c.delivered + InFlight(c) + (c.pending + files) == c.log + files;
  }

  lemma {:induction false} QueueInv(s: State, files: seq<Item>)
    requires Inv(s)
    ensures Inv(Apply(s, Queue(files)))
  {
    var s' := Apply(s, Queue(files));
    forall n | n in s'.clients ensures ClientInv(s', n) {
      assert ClientInv(s, n);
      if !s.clients[n].gone {
        EnqueuedOk(s, s', s.clients[n], files);
      }
    }
    forall t | t in s'.threads ensures ThreadOk(s', t) {
      assert ThreadOk(s, t) && ClientInv(s, s.threads[t].client);
    }
  }

  lemma {:induction false} FillInv(s: State, item: Item)
    requires Inv(s)
    ensures Inv(Apply(s, Fill(item)))
  {
    var s' := Apply(s, Fill(item));
    forall n | n in s'.clients ensures ClientInv(s', n) {
      assert ClientInv(s, n);
      var c := s.clients[n];
      if !c.gone {
        assert c.delivered + InFlight(c) + (c.pending + [item]) == c.log + [item];
      }
    }
    forall t | t in s'.threads ensures ThreadOk(s', t) {
      assert ThreadOk(s, t);
    }
  }

  lemma CallSendInv(s: State, t: nat, id: string)
    requires Inv(s) && Enabled(s, CallSend(t, id))
    ensures Inv(Apply(s, CallSend(t, id)))
  {
    var s' := Apply(s, CallSend(t, id));
    assert ClientInv(s, s.registry[id]);
    forall n | n in s'.clients ensures ClientInv(s', n) {
      assert ClientInv(s, n);
    }
    forall u | u in s'.threads ensures ThreadOk(s', u) {
      if u != t {
        assert ThreadOk(s, u);
      }
    }
  }

  /** A step that concerns one client and one thread on it. */
  lemma {:induction false} OneChange(s: State, s': State, m: nat, t: nat)
    requires Inv(s) && m in s.clients && m in s'.clients && t in s.threads && t in s'.threads
    requires s' == s.(clients := s.clients[m := s'.clients[m]], threads := s.threads[t := s'.threads[t]])
    requires ClientInv(s', m) && ThreadOk(s', t)
    requires var c, c' := s.clients[m], s'.clients[m];
      && c'.ends == c.ends && c'.gone == c.gone && |c.delivered| <= |c'.delivered|
      && (c'.flight == c.flight || c.flight.None? || c.flight.value.thread == t)
    ensures Inv(s')
  {
    forall n | n in s'.clients ensures ClientInv(s', n) {
      if n != m {
        assert ClientInv(s, n);
      }
    }
    forall u | u in s'.threads ensures ThreadOk(s', u) {
      if u != t {
        OtherThread(s, s', m, t, u);
      }
    }
  }

  lemma OtherThread(s: State, s': State, m: nat, t: nat, u: nat)
    requires m in s.clients && m in s'.clients && s'.clients == s.clients[m := s'.clients[m]]
    requires u != t && u in s.threads && u in s'.threads && s'.threads[u] == s.threads[u] && ThreadOk(s, u)
    requires var c, c' := s.clients[m], s'.clients[m];
      && c'.ends == c.ends && c'.gone == c.gone && |c.delivered| <= |c'.delivered|
      && (c'.flight == c.flight || c.flight.None? || c.flight.value.thread == t)
    ensures ThreadOk(s', u)
  {
  }

  lemma TurnSends(s: State, t: nat)
    requires Inv(s) && Enabled(s, TakeTurn(t)) && s.clients[s.threads[t].client].pending != []
    requires s.threads[t].need > s.clients[s.threads[t].client].sentId
    ensures Inv(Apply(s, TakeTurn(t)))
  {
    var s', n := Apply(s, TakeTurn(t)), s.threads[t].client;
    assert ThreadOk(s, t) && ClientInv(s, n);
    SendingOk(s, s.clients[n], t, s.threads[t].need);
    assert s' == s.(clients := s.clients[n := s'.clients[n]], threads := s.threads[t := s'.threads[t]]);
    OneChange(s, s', n, t);
  }

  /** A client all of whose queue is handed to the network. */
  lemma SendingOk(s: State, c: Client, t: nat, need: nat)
    requires ClientOk(s, c) && !c.busy && need in c.ends && c.sentId < need
    ensures ClientOk(s, c.(pending := [], busy := true, flight := Some(Flight(t, c.pending, need))))
  {
    var c' := c.(pending := [], busy := true, flight := Some(Flight(t, c.pending, need)));
    assert c'.delivered + c.pending + [] == c.log;
  }

  lemma TurnEnds(s: State, t: nat)
    requires Inv(s) && Enabled(s, TakeTurn(t))
    requires s.clients[s.threads[t].client].pending == [] || s.threads[t].need <= s.clients[s.threads[t].client].sentId
    ensures Inv(Apply(s, TakeTurn(t)))
  {
    var s', n := Apply(s, TakeTurn(t)), s.threads[t].client;
    assert ThreadOk(s, t) && ClientInv(s, n);
    assert s'.clients == s.clients[n := s.clients[n]];
    OneChange(s, s', n, t);
  }

  /** A thread whose turn has come either has what it wants delivered, or may send. */
  lemma {:induction false} TurnInv(s: State, t: nat)
    requires Inv(s) && Enabled(s, TakeTurn(t))
    ensures Inv(Apply(s, TakeTurn(t)))
  {
    var th := s.threads[t];
    assert ThreadOk(s, t) && ClientInv(s, th.client);
    var c := s.clients[th.client];
    if c.pending != [] && th.need > c.sentId {
      TurnSends(s, t);
    } else {
      TurnEnds(s, t);
    }
  }

  function Acked(c: Client): Client
    requires c.flight.Some?
  {
    c.(busy := false, sentId := c.flight.value.need, delivered := c.delivered + c.flight.value.batch, flight := None)
  }

  lemma AckedOk(s: State, c: Client)
    requires ClientOk(s, c) && c.flight.Some?
    ensures ClientOk(s, Acked(c)) && c.sentId < Acked(c).sentId
  {
    var c' := Acked(c);
    assert c'.delivered + [] + c'.pending == c.log;
  }

  lemma {:induction false} AcknowledgedInv(s: State, t: nat)
    requires Inv(s) && Enabled(s, Acknowledged(t))
    ensures Inv(Apply(s, Acknowledged(t)))
    ensures Apply(s, Acknowledged(t)).clients ==
            s.clients[s.threads[t].client := Acked(s.clients[s.threads[t].client])]
  {
    var s' := Apply(s, Acknowledged(t));
    var m := s.threads[t].client;
    var c := s.clients[m];
    assert ThreadOk(s, t) && ClientInv(s, m);
    assert Acked(c).delivered + [] == c.delivered + InFlight(c);
    if !c.gone {
      AckedOk(s, c);
      assert ClientOk(s', Acked(c));
    }
    OneChange(s, s', m, t);
  }

  lemma {:induction false} StepInv(s: State, e: Event)
    requires Inv(s) && Enabled(s, e)
    ensures Inv(Apply(s, e))
  {
    match e
    case AddClient(id, snapshot) => AddClientInv(s, id, snapshot);
    case RmClient(id) => RmClientInv(s, id);
    case Queue(files) => QueueInv(s, files);
    case Fill(item) => FillInv(s, item);
    case CallSend(t, id) => CallSendInv(s, t, id);
    case TakeTurn(t) => TurnInv(s, t);
    case Acknowledged(t) => AcknowledgedInv(s, t);
  }

  // ---------------------------------------------------------------- every run

  predicate Legal(s: State, es: seq<Event>)
    decreases |es|
  {
    es == [] || (Enabled(s, es[0]) && Legal(Apply(s, es[0]), es[1..]))
  }

  function Run(s: State, es: seq<Event>): State
    requires Legal(s, es)
    decreases |es|
  {
    if es == [] then s else Run(Apply(s, es[0]), es[1..])
  }

  lemma {:induction false} RunInv(s: State, es: seq<Event>)
    requires Inv(s) && Legal(s, es)
    ensures Inv(Run(s, es))
    decreases |es|
  {
    if es != [] {
      StepInv(s, es[0]);
      RunInv(Apply(s, es[0]), es[1..]);
    }
  }

  /** Whatever the interleaving: a registered client has received exactly the beginning of its
      queue; what is on the way and what is waiting are the rest of it, in order. */
  lemma FeedInOrder(es: seq<Event>, n: nat)
    requires Legal(INITIAL, es) && n in Run(INITIAL, es).clients && !Run(INITIAL, es).clients[n].gone
    ensures var c := Run(INITIAL, es).clients[n];
      c.delivered + InFlight(c) + c.pending == c.log && c.sentId <= c.pendingId
  {
    RunInv(INITIAL, es);
    assert ClientInv(Run(INITIAL, es), n);
  }

  /** No two threads send to one client at a time. */
  lemma OneBatchAtATime(es: seq<Event>, t: nat, u: nat)
    requires Legal(INITIAL, es) && t in Run(INITIAL, es).threads && u in Run(INITIAL, es).threads
    requires var s := Run(INITIAL, es);
      s.threads[t].Sending? && s.threads[u].Sending? && s.threads[t].client == s.threads[u].client
    ensures t == u
  {
    RunInv(INITIAL, es);
    var s := Run(INITIAL, es);
    assert ThreadOk(s, t) && ThreadOk(s, u);
  }

  /** A Send that returns while its client is registered has brought about the delivery of every
      file set queued before it was called, whoever did the sending. */
  lemma SendDelivers(es: seq<Event>, t: nat)
    requires Legal(INITIAL, es) && t in Run(INITIAL, es).threads
    requires Run(INITIAL, es).threads[t].Returned? && !Run(INITIAL, es).threads[t].wasGone
    ensures var th := Run(INITIAL, es).threads[t];
      && th.client in Run(INITIAL, es).clients
      && var c := Run(INITIAL, es).clients[th.client];
         th.goal <= |c.delivered| <= |c.log| && c.delivered[..th.goal] == c.log[..th.goal]
  {
    RunInv(INITIAL, es);
    var s := Run(INITIAL, es);
    assert ThreadOk(s, t) && ClientInv(s, s.threads[t].client);
    var c := s.clients[s.threads[t].client];
    assert c.delivered <= c.delivered + InFlight(c);
  }

  /** Nothing that was sent or logged is taken back. */
  predicate Grew(c: Client, c': Client) {
    c.sentId <= c'.sentId && c.delivered <= c'.delivered && c.log <= c'.log
  }

  lemma QueueGrows(s: State, files: seq<Item>, n: nat)
    requires Enabled(s, Queue(files)) && n in s.clients
    ensures n in Apply(s, Queue(files)).clients && Grew(s.clients[n], Apply(s, Queue(files)).clients[n])
  {
  }

  lemma FillGrows(s: State, item: Item, n: nat)
    requires Enabled(s, Fill(item)) && n in s.clients
    ensures n in Apply(s, Fill(item)).clients && Grew(s.clients[n], Apply(s, Fill(item)).clients[n])
  {
  }

  lemma TurnGrows(s: State, t: nat, n: nat)
    requires Enabled(s, TakeTurn(t)) && n in s.clients
    ensures n in Apply(s, TakeTurn(t)).clients && Grew(s.clients[n], Apply(s, TakeTurn(t)).clients[n])
  {
  }

  lemma AcknowledgedGrows(s: State, t: nat, n: nat)
    requires Inv(s) && Enabled(s, Acknowledged(t)) && n in s.clients && !s.clients[n].gone
    ensures n in Apply(s, Acknowledged(t)).clients && Grew(s.clients[n], Apply(s, Acknowledged(t)).clients[n])
  {
    assert ClientInv(s, n) && ThreadOk(s, t);
  }

  lemma RegistryGrows(s: State, e: Event, n: nat)
    requires Inv(s) && Enabled(s, e) && (e.AddClient? || e.RmClient? || e.CallSend?) && n in s.clients
    ensures n in Apply(s, e).clients && Grew(s.clients[n], Apply(s, e).clients[n])
  {
    assert ClientInv(s, n);
  }

  /** The id up to which a client has been served never goes back, nor does what it was sent. */
  lemma SentIdGrows(s: State, e: Event, n: nat)
    requires Inv(s) && Enabled(s, e) && n in s.clients && !s.clients[n].gone
    ensures n in Apply(s, e).clients && Grew(s.clients[n], Apply(s, e).clients[n])
  {
    match e
    case Queue(files) => QueueGrows(s, files, n);
    case Fill(item) => FillGrows(s, item, n);
    case TakeTurn(t) => TurnGrows(s, t, n);
    case Acknowledged(t) => AcknowledgedGrows(s, t, n);
    case _ => RegistryGrows(s, e, n);
  }

  /** Cache fills are not promised: with every file set delivered, a Send returns at once and leaves
      a fill in the queue. */
  lemma {:induction false} FillsMayWait(s: State, id: string, t: nat, item: Item)
    requires Inv(s) && id in s.registry && t !in s.threads
    requires s.clients[s.registry[id]].sentId == s.clients[s.registry[id]].pendingId
    ensures Legal(s, [Fill(item), CallSend(t, id), TakeTurn(t)])
    ensures var n, s' := s.registry[id], Run(s, [Fill(item), CallSend(t, id), TakeTurn(t)]);
      && t in s'.threads && s'.threads[t].Returned? && n in s'.clients
      && s'.clients[n].pending == s.clients[n].pending + [item] && s'.clients[n].delivered == s.clients[n].delivered
  {
    var n := s.registry[id];
    assert ClientInv(s, n) && Registered(s, n);
    var s1 := Apply(s, Fill(item));
    var s2 := Apply(s1, CallSend(t, id));
    RunOfThree(s, Fill(item), CallSend(t, id), TakeTurn(t));
  }

  /** Such a state is reached: a worker comes, is sent the cache, and acknowledges it. */
  lemma FillsCanWait(id: string, first: Item)
    ensures var es := [AddClient(id, [first]), CallSend(0, id), TakeTurn(0), Acknowledged(0)];
      && Legal(INITIAL, es)
      && var s := Run(INITIAL, es);
         && Inv(s) && id in s.registry && 1 !in s.threads
         && s.clients[s.registry[id]].sentId == s.clients[s.registry[id]].pendingId
  {
    var s1 := Apply(INITIAL, AddClient(id, [first]));
    var s2 := Apply(s1, CallSend(0, id));
    var s3 := Apply(s2, TakeTurn(0));
    RunOfThree(s1, CallSend(0, id), TakeTurn(0), Acknowledged(0));
    RunCons(INITIAL, AddClient(id, [first]), [CallSend(0, id), TakeTurn(0), Acknowledged(0)]);
    var es := [AddClient(id, [first]), CallSend(0, id), TakeTurn(0), Acknowledged(0)];
    assert [es[0]] + [CallSend(0, id), TakeTurn(0), Acknowledged(0)] == es;
    RunInv(INITIAL, es);
  }

  lemma RunOfThree(s: State, a: Event, b: Event, c: Event)
    requires Enabled(s, a) && Enabled(Apply(s, a), b) && Enabled(Apply(Apply(s, a), b), c)
    ensures Legal(s, [a, b, c]) && Run(s, [a, b, c]) == Apply(Apply(Apply(s, a), b), c)
  {
    RunCons(Apply(Apply(s, a), b), c, []);
    RunCons(Apply(s, a), b, [c]);
    assert [b] + [c] == [b, c];
    RunCons(s, a, [b, c]);
    assert [a] + [b, c] == [a, b, c];
  }

  lemma RunCons(s: State, e: Event, es: seq<Event>)
    requires Enabled(s, e) && Legal(Apply(s, e), es)
    ensures Legal(s, [e] + es) && Run(s, [e] + es) == Run(Apply(s, e), es)
  {
    assert ([e] + es)[1..] == es;
  }
}
