/** The WebSocket hub: one loop owns the client map and the sending side of every
    client's channel; connections come and go and drain their channels beside it. */
module Hub {
  import opened Common

  type Msg = string

  const CAPACITY := 256

  /** The life of a connection as its handler and its read pump see it. */
  datatype Stage = Created | Registered | Leaving | Left

  /** `send` is the buffer of the channel, `written` what the write pump has taken from
      it, `got` everything ever put into it.  The client takes part in the stream from
      position `joined` of the dequeued broadcasts, until `left` once it is out. */
  datatype Conn = Conn(
    stage: Stage, open: bool, send: seq<Msg>, written: seq<Msg>, got: seq<Msg>, joined: nat, left: nat)

  /** The hub loop waits, or holds the lock and hands a message to the clients in `todo`. */
  datatype Loop = Waiting | Delivering(msg: Msg, todo: set<nat>)

  datatype State = State(
    conns: map<nat, Conn>,
    clients: set<nat>,
    broadcast: seq<Msg>,
    loop: Loop,
    dequeued: seq<Msg>,      // every broadcast the loop has taken
    published: seq<Msg>,     // every message Publish was called with
    panicked: bool)          // a send or a close on a closed channel

  datatype Event =
    | Connect(id: nat)
    | Register(id: nat)
    | ReadFails(id: nat)
    | Unregister(id: nat)
    | Publish(msg: Msg)
    | Dequeue
    | Send(id: nat)
    | Drop(id: nat)
    | EndDelivery
    | Write(id: nat)

  /** A send on the channel does not wait: there is room, or the channel is closed and
      the sender panics. */
  predicate Ready(c: Conn) {
    !c.open || |c.send| < CAPACITY
  }

  predicate Enabled(s: State, e: Event) {
    match e
    case Connect(id) => id !in s.conns
    case Register(id) => s.loop.Waiting? && id in s.conns && s.conns[id].stage == Created
    case ReadFails(id) => id in s.conns && s.conns[id].stage == Registered
    case Unregister(id) => s.loop.Waiting? && id in s.conns && s.conns[id].stage == Leaving
    case Publish(_) => true
    case Dequeue => s.loop.Waiting? && s.broadcast != []
    case Send(id) => s.loop.Delivering? && id in s.loop.todo && id in s.conns && Ready(s.conns[id])
    case Drop(id) => s.loop.Delivering? && id in s.loop.todo && id in s.conns && !Ready(s.conns[id])
    case EndDelivery => s.loop.Delivering? && s.loop.todo == {}
    case Write(id) => id in s.conns && s.conns[id].send != []
  }

  /** Closing the channel of a client and striking it off the map. */
  function Closed(s: State, id: nat, left: nat): State
    requires id in s.conns
  {
    s.(conns := s.conns[id := s.conns[id].(open := false, left := left)],
       clients := s.clients - {id},
       panicked := s.panicked || !s.conns[id].open)
  }

  /** The send that never blocks: into the buffer, or the client is dropped. */
  function Offered(s: State, id: nat, msg: Msg): State
    requires id in s.conns && s.dequeued != []
  {
    var c := s.conns[id];
    if !c.open then s.(panicked := true)
    else if |c.send| < CAPACITY then s.(conns := s.conns[id := c.(send := c.send + [msg], got := c.got + [msg])])
    else Closed(s, id, |s.dequeued| - 1)
  }

  /** The turn of one client. */
  function Served(s: State, id: nat): State
    requires id in s.conns && s.loop.Delivering?
  {
    if s.dequeued == [] then s
    else Offered(s, id, s.loop.msg).(loop := s.loop.(todo := s.loop.todo - {id}))
  }

  /** The message reaches the client if its channel is ready, otherwise it is dropped. */
  function Turn(s: State, id: nat): Event
    requires id in s.conns
  {
    if Ready(s.conns[id]) then Event.Send(id) else Event.Drop(id)
  }

  function Step(s: State, e: Event): State
    requires Enabled(s, e)
  {
    match e
    case Connect(id) => s.(conns := s.conns[id := Conn(Created, true, [], [], [], 0, 0)])
    case Register(id) =>
      s.(conns := s.conns[id := s.conns[id].(stage := Registered, joined := |s.dequeued|)], clients := s.clients + {id})
    case ReadFails(id) => s.(conns := s.conns[id := s.conns[id].(stage := Leaving)])
    case Unregister(id) =>
      var t := if id in s.clients then Closed(s, id, |s.dequeued|) else s;
      t.(conns := t.conns[id := t.conns[id].(stage := Left)])
    case Publish(msg) =>
      s.(published := s.published + [msg],
         broadcast := if |s.broadcast| < CAPACITY then s.broadcast + [msg] else s.broadcast)
    case Dequeue =>
      s.(broadcast := s.broadcast[1..], dequeued := s.dequeued + [s.broadcast[0]],
         loop := Delivering(s.broadcast[0], s.clients))
    case Send(id) => Served(s, id)
    case Drop(id) => Served(s, id)
    case EndDelivery => s.(loop := Waiting)
    case Write(id) =>
      var c := s.conns[id];
      s.(conns := s.conns[id := c.(send := c.send[1..], written := c.written + [c.send[0]])])
  }

  const START := State(map[], {}, [], Waiting, [], [], false)

  // ---- the invariant ----

  /** One sequence can be had from another by leaving elements out. */
  ghost predicate Subsequence(a: seq<Msg>, b: seq<Msg>)
    decreases |b|
  {
    || a == []
    || (b != [] &&
        ((a[|a| - 1] == b[|b| - 1] && Subsequence(a[..|a| - 1], b[..|b| - 1])) || Subsequence(a, b[..|b| - 1])))
  }

  /** Up to which position of the dequeued broadcasts a client has been served. */
  function ServedTo(s: State, id: nat): int
    requires id in s.conns
  {
    if id in s.clients then |s.dequeued| - (if s.loop.Delivering? && id in s.loop.todo then 1 else 0)
    else s.conns[id].left
  }

  ghost predicate ConnOk(s: State, id: nat)
    requires id in s.conns
  {
    var c := s.conns[id];
    && (id in s.clients <==> c.open && (c.stage == Registered || c.stage == Leaving))
    && (c.stage == Created ==> c.open && c.got == [] && c.joined == c.left == 0)
    && (c.stage == Left ==> !c.open)
    && |c.send| <= CAPACITY
    && c.written + c.send == c.got
    && 0 <= c.joined <= ServedTo(s, id) <= |s.dequeued|
    && c.got == s.dequeued[c.joined..ServedTo(s, id)]
  }

  ghost predicate Inv(s: State) {
    && !s.panicked
    && |s.broadcast| <= CAPACITY
    && s.clients <= s.conns.Keys
    && (forall id | id in s.conns :: ConnOk(s, id))
    && (s.loop.Delivering? ==>
          s.loop.todo <= s.clients && s.dequeued != [] && s.dequeued[|s.dequeued| - 1] == s.loop.msg)
    && Subsequence(s.dequeued + s.broadcast, s.published)
  }

  /** A connection a step does not concern. */
  lemma SameConn(s: State, t: State, id: nat)
    requires id in s.conns && ConnOk(s, id) && id in t.conns && t.conns[id] == s.conns[id]
    requires (id in t.clients <==> id in s.clients) && t.dequeued == s.dequeued && ServedTo(t, id) == ServedTo(s, id)
    ensures ConnOk(t, id)
  {
  }

  lemma StepJoin(s: State, e: Event)
    requires Inv(s) && Enabled(s, e) && (e.Connect? || e.Register?)
    ensures Inv(Step(s, e))
  {
    var t := Step(s, e);
    forall id | id in t.conns ensures ConnOk(t, id) {
      if id != e.id {
        SameConn(s, t, id);
      } else if e.Register? {
        assert ConnOk(s, id);
      }
    }
  }

  lemma StepLeave(s: State, e: Event)
    requires Inv(s) && Enabled(s, e) && (e.ReadFails? || e.Unregister?)
    ensures Inv(Step(s, e))
  {
    var t := Step(s, e);
    forall id | id in t.conns ensures ConnOk(t, id) {
      assert ConnOk(s, id);
      if id != e.id { SameConn(s, t, id); }
    }
  }

  lemma StepWrite(s: State, e: Event)
    requires Inv(s) && Enabled(s, e) && e.Write?
    ensures Inv(Step(s, e))
  {
    var t := Step(s, e);
    forall id | id in t.conns ensures ConnOk(t, id) {
      if id == e.id {
        assert ConnOk(s, id);
        assert [s.conns[id].send[0]] + s.conns[id].send[1..] == s.conns[id].send;
      } else {
        SameConn(s, t, id);
      }
    }
  }

  lemma StepEnd(s: State, e: Event)
    requires Inv(s) && Enabled(s, e) && e.EndDelivery?
    ensures Inv(Step(s, e))
  {
    var t := Step(s, e);
    forall id | id in t.conns ensures ConnOk(t, id) {
      SameConn(s, t, id);
    }
  }

  lemma StepPublish(s: State, e: Event)
    requires Inv(s) && e.Publish?
    ensures Inv(Step(s, e))
  {
    var t := Step(s, e);
    forall id | id in t.conns ensures ConnOk(t, id) {
      assert ConnOk(s, id);
    }
    var a := s.dequeued + s.broadcast;
    assert (a + [e.msg])[..|a|] == a;
    assert t.published[..|s.published|] == s.published;
    assert t.broadcast != s.broadcast ==> t.dequeued + t.broadcast == a + [e.msg];
  }

  lemma StepDequeue(s: State, e: Event)
    requires Inv(s) && Enabled(s, e) && e.Dequeue?
    ensures Inv(Step(s, e))
  {
    var t := Step(s, e);
    assert t.dequeued + t.broadcast == s.dequeued + s.broadcast;
    forall id | id in t.conns ensures ConnOk(t, id) {
      assert ConnOk(s, id);
      assert ServedTo(t, id) == ServedTo(s, id) || s.loop.Delivering?;
      assert t.dequeued[..|s.dequeued|] == s.dequeued;
    }
  }

  /** The client whose turn it is. */
  lemma DeliveredConn(s: State, id: nat)
    requires Inv(s) && s.loop.Delivering? && id in s.loop.todo && id in s.conns
    ensures ConnOk(Served(s, id), id) && !Served(s, id).panicked
  {
    assert ConnOk(s, id);
    var n, j := |s.dequeued|, s.conns[id].joined;
    assert s.dequeued[j..n] == s.dequeued[j..n - 1] + [s.dequeued[n - 1]];
  }

  lemma StepServe(s: State, id: nat)
    requires Inv(s) && s.loop.Delivering? && id in s.loop.todo && id in s.conns
    ensures Inv(Served(s, id))
  {
    var t := Served(s, id);
    DeliveredConn(s, id);
    forall i | i in t.conns ensures ConnOk(t, i) {
      if i != id { SameConn(s, t, i); }
    }
  }

  lemma StepInv(s: State, e: Event)
    requires Inv(s) && Enabled(s, e)
    ensures Inv(Step(s, e))
  {
    if e.Publish? {
      StepPublish(s, e);
    } else if e.Dequeue? {
      StepDequeue(s, e);
    } else if e.Send? || e.Drop? {
      StepServe(s, e.id);
    } else if e.Connect? || e.Register? {
      StepJoin(s, e);
    } else if e.ReadFails? || e.Unregister? {
      StepLeave(s, e);
    } else if e.Write? {
      StepWrite(s, e);
    } else {
      StepEnd(s, e);
    }
  }

  // ---- runs ----

  ghost predicate Run(trace: seq<State>, events: seq<Event>) {
    && |trace| == |events| + 1
    && trace[0] == START
    && (forall i {:trigger events[i]} | 0 <= i < |events| ::
          Enabled(trace[i], events[i]) && trace[i + 1] == Step(trace[i], events[i]))
  }

  lemma {:induction false} RunInv(trace: seq<State>, events: seq<Event>, i: nat)
    requires Run(trace, events) && i < |trace|
    ensures Inv(trace[i])
  {
    if i == 0 {
    } else {
      RunInv(trace, events, i - 1);
      StepInv(trace[i - 1], events[i - 1]);
    }
  }

  /** Channel safety: no channel is closed twice and nothing is sent on a closed one; a
      client is in the map exactly when it has been registered and its channel is open. */
  lemma ChannelSafety(trace: seq<State>, events: seq<Event>, i: nat, id: nat)
    requires Run(trace, events) && i < |trace|
    ensures !trace[i].panicked
    ensures id in trace[i].clients <==>
              id in trace[i].conns && trace[i].conns[id].open && trace[i].conns[id].stage in {Registered, Leaving}
  {
    RunInv(trace, events, i);
    assert id in trace[i].conns ==> ConnOk(trace[i], id);
  }

  /** A client takes part in the stream from the moment of its registration. */
  lemma {:induction false} JoinedAt(trace: seq<State>, events: seq<Event>, i: nat, id: nat) returns (r: nat)
    requires Run(trace, events) && i < |trace| && id in trace[i].conns && trace[i].conns[id].stage != Created
    ensures r < i && events[r] == Register(id) && trace[i].conns[id].joined == |trace[r].dequeued|
  {
    if i == 0 {
    } else {
      var s, e := trace[i - 1], events[i - 1];
      assert trace[i] == Step(s, e);
      if e == Register(id) {
        r := i - 1;
      } else {
        r := JoinedAt(trace, events, i - 1, id);
      }
    }
  }

  /** A client whose channel is closed has just been closed, or had been before. */
  lemma StillLeft(s: State, e: Event, id: nat)
    requires Inv(s) && Enabled(s, e) && id in Step(s, e).conns && !Step(s, e).conns[id].open
    ensures var c := Step(s, e).conns[id];
            if (e == Event.Drop(id) || e == Unregister(id)) && id in s.clients then
              c.left == |s.dequeued| - (if e.Drop? then 1 else 0)
            else id in s.conns && !s.conns[id].open && s.conns[id].left == c.left
  {
    assert id in s.conns ==> ConnOk(s, id);
  }

  /** It takes part up to the moment it is dropped, which the message of that moment no
      longer reaches, or up to its departure. */
  lemma {:induction false} LeftAt(trace: seq<State>, events: seq<Event>, i: nat, id: nat) returns (d: nat)
    requires Run(trace, events) && i < |trace| && id in trace[i].conns && !trace[i].conns[id].open
    ensures d < i && id in trace[d].clients
    ensures || (events[d] == Event.Drop(id) && id in trace[d].conns && |trace[d].conns[id].send| == 256
                && trace[i].conns[id].left == |trace[d].dequeued| - 1)
            || (events[d] == Unregister(id) && trace[i].conns[id].left == |trace[d].dequeued|)
  {
    if i == 0 {
    } else {
      var s, e := trace[i - 1], events[i - 1];
      assert trace[i] == Step(s, e);
      RunInv(trace, events, i - 1);
      StillLeft(s, e, id);
      if (e == Event.Drop(id) || e == Unregister(id)) && id in s.clients {
        assert ConnOk(s, id);
        d := i - 1;
      } else {
        d := LeftAt(trace, events, i - 1, id);
      }
    }
  }

  /** Stream contiguity: what a client has been sent is a gap-free stretch of the
      broadcasts the loop took, from its registration to its end or to now, and its
      buffer holds the part not yet written, never more than the capacity. */
  lemma StreamContiguity(trace: seq<State>, events: seq<Event>, i: nat, id: nat)
    requires Run(trace, events) && i < |trace| && id in trace[i].conns
    ensures var s, c := trace[i], trace[i].conns[id];
            && c.written + c.send == c.got && |c.send| <= 256
            && 0 <= c.joined <= ServedTo(s, id) <= |s.dequeued|
            && c.got == s.dequeued[c.joined..ServedTo(s, id)]
            && (id in s.clients && s.loop.Waiting? ==> c.got == s.dequeued[c.joined..])
    ensures var c := trace[i].conns[id];
            c.stage != Created ==>
              exists r :: 0 <= r < i && events[r] == Register(id) && c.joined == |trace[r].dequeued|
    ensures var c := trace[i].conns[id];
            !c.open ==>
              exists d :: 0 <= d < i && id in trace[d].clients &&
                ((events[d] == Event.Drop(id) && id in trace[d].conns && |trace[d].conns[id].send| == 256
                  && c.left == |trace[d].dequeued| - 1) ||
                 (events[d] == Unregister(id) && c.left == |trace[d].dequeued|))
  {
    RunInv(trace, events, i);
    assert ConnOk(trace[i], id);
    if trace[i].conns[id].stage != Created {
      var r := JoinedAt(trace, events, i, id);
    }
    if !trace[i].conns[id].open {
      var d := LeftAt(trace, events, i, id);
    }
  }

  /** What the loop has taken and what still waits are, in order, among the published messages. */
  lemma BroadcastOrder(trace: seq<State>, events: seq<Event>, i: nat)
    requires Run(trace, events) && i < |trace|
    ensures Subsequence(trace[i].dequeued + trace[i].broadcast, trace[i].published)
    ensures |trace[i].broadcast| <= 256
  {
    RunInv(trace, events, i);
  }

  /** While the loop holds the lock it waits for nobody: by as many steps of its own as
      there are clients left to serve, and one more, it gives the lock back, whatever the
      state of their channels. */
  lemma {:induction false} NeverBlocksUnderLock(trace: seq<State>, events: seq<Event>)
    returns (longer: seq<State>, more: seq<Event>)
    requires Run(trace, events) && trace[|events|].loop.Delivering?
    ensures Run(longer, more) && trace <= longer && events <= more
    ensures |more| == |events| + |trace[|events|].loop.todo| + 1
    ensures forall k | |events| <= k < |more| :: more[k].Send? || more[k].Drop? || more[k].EndDelivery?
    ensures longer[|more|].loop.Waiting?
    decreases trace[|events|].loop.todo
  {
    var s := trace[|events|];
    RunInv(trace, events, |events|);
    if s.loop.todo == {} {
      longer, more := trace + [Step(s, EndDelivery)], events + [EndDelivery];
    } else {
      var id :| id in s.loop.todo;
      assert id in s.clients;
      var e := Turn(s, id);
      longer, more := NeverBlocksUnderLock(trace + [Step(s, e)], events + [e]);
    }
  }

  // ---- the hub ----

  class WSHub {
    var conns: map<nat, Conn>
    var clients: set<nat>
    var broadcast: seq<Msg>
    var loop: Loop
    var dequeued: seq<Msg>
    var published: seq<Msg>
    ghost var trace: seq<State>
    ghost var events: seq<Event>

    function View(): State
      reads this
    {
      State(conns, clients, broadcast, loop, dequeued, published, false)
    }

    ghost predicate Valid()
      reads this
    {
      Run(trace, events) && trace[|trace| - 1] == View() && Inv(View())
    }

    constructor ()
      ensures Valid() && View() == START
    {
      conns, clients, broadcast, loop, dequeued, published := map[], {}, [], Waiting, [], [];
      trace, events := [START], [];
    }

    ghost method Record(s: State, e: Event)
      requires Run(trace, events) && trace[|trace| - 1] == s && Inv(s) && Enabled(s, e) && View() == Step(s, e)
      modifies this`trace, this`events
      ensures Valid() && events == old(events) + [e]
    {
      StepInv(s, e);
      trace, events := trace + [View()], events + [e];
    }

    /** Closing a channel; an open one is what it asks for.  The client takes no part
        in the stream from position `left` on. */
    method Close(id: nat, left: nat)
      requires id in conns && conns[id].open
      modifies this`conns
      ensures conns == old(conns)[id := old(conns)[id].(open := false, left := left)]
    {
      conns := conns[id := conns[id].(open := false, left := left)];
    }

    /** The send that does not wait. */
    method TrySend(id: nat, msg: Msg) returns (ok: bool)
      requires id in conns && conns[id].open
      modifies this`conns
      ensures ok <==> |old(conns)[id].send| < 256
      ensures conns == if ok
          then old(conns)[id := old(conns)[id].(send := old(conns)[id].send + [msg], got := old(conns)[id].got + [msg])]
                       else old(conns)
    {
      var c := conns[id];
      ok := |c.send| < CAPACITY;
      if ok { conns := conns[id := c.(send := c.send + [msg], got := c.got + [msg])]; }
    }

    /** Queues a message unless the queue is full. */
    method Publish(msg: Msg)
      requires Valid()
      modifies this
      ensures Valid() && old(events) <= events && loop == old(loop)
      ensures published == old(published) + [msg] && dequeued == old(dequeued)
      ensures clients == old(clients) && conns == old(conns)
      ensures broadcast == if |old(broadcast)| < 256 then old(broadcast) + [msg] else old(broadcast)
    {
      ghost var s := View();
      published := published + [msg];
      if |broadcast| < CAPACITY { broadcast := broadcast + [msg]; }
      Record(s, Event.Publish(msg));
    }

    /** Connections come, drain their channels and go, and messages are published. */
    method Others()
      requires Valid()
      modifies this
      ensures Valid() && old(events) <= events
      ensures loop == old(loop) && dequeued == old(dequeued) && clients == old(clients)
    {
      var steps: nat := *;
      while steps > 0
        invariant Valid() && old(events) <= events
        invariant loop == old(loop) && dequeued == old(dequeued) && clients == old(clients)
      {
        var e: Event := *;
        if (e.Connect? || e.ReadFails? || e.Write?) && Enabled(View(), e) {
          ghost var s := View();
          conns := Step(View(), e).conns;
          Record(s, e);
        } else if e.Publish? {
          Publish(e.msg);
        }
        steps := steps - 1;
      }
    }

    method OnRegister(id: nat)
      requires Valid() && Enabled(View(), Event.Register(id))
      modifies this
      ensures Valid() && old(events) < events && loop == Waiting
      ensures View() == Step(old(View()), Event.Register(id)) && clients == old(clients) + {id}
    {
      ghost var s := View();
      conns := conns[id := conns[id].(stage := Registered, joined := |dequeued|)];
      clients := clients + {id};
      Record(s, Event.Register(id));
    }

    /** A client that was dropped before is no longer in the map and not closed again. */
    method OnUnregister(id: nat)
      requires Valid() && Enabled(View(), Event.Unregister(id))
      modifies this
      ensures Valid() && old(events) < events && loop == Waiting
      ensures View() == Step(old(View()), Event.Unregister(id))
      ensures clients == old(clients) - {id} && id in conns && !conns[id].open
    {
      ghost var s := View();
      assert ConnOk(s, id);
      if id in clients {
        clients := clients - {id};
        Close(id, |dequeued|);
      }
      conns := conns[id := conns[id].(stage := Left)];
      Record(s, Event.Unregister(id));
    }

    /** Offers the message to one client: it is queued for the client, or the client is
        dropped and its channel closed. */
    method OfferTo(id: nat)
      requires Valid() && loop.Delivering? && id in loop.todo && id in conns
      modifies this
      ensures Valid() && View() == Step(old(View()), Turn(old(View()), id))
      ensures events == old(events) + [Turn(old(View()), id)]
    {
      ghost var s := View();
      assert ConnOk(s, id);
      var ok := TrySend(id, loop.msg);
      if !ok {
        Close(id, |dequeued| - 1);
        clients := clients - {id};
      }
      loop := Delivering(loop.msg, loop.todo - {id});
      Record(s, Turn(s, id));
    }

    /** Serves some client whose turn has not come yet, after others had theirs. */
    method OfferNext()
      requires Valid() && loop.Delivering? && loop.todo != {}
      modifies this
      ensures Valid() && old(events) <= events && dequeued == old(dequeued) && clients <= old(clients)
      ensures loop.Delivering? && loop.msg == old(loop.msg) && loop.todo < old(loop.todo)
    {
      Others();
      var id :| id in loop.todo;
      assert id in clients;
      OfferTo(id);
    }

    /** The loop takes the oldest message. */
    method Take()
      requires Valid() && loop == Waiting && broadcast != []
      modifies this
      ensures Valid() && View() == Step(old(View()), Dequeue) && events == old(events) + [Dequeue]
    {
      ghost var s := View();
      var msg := broadcast[0];
      broadcast, dequeued, loop := broadcast[1..], dequeued + [msg], Delivering(msg, clients);
      Record(s, Dequeue);
    }

    /** Hands one message to every client, dropping those whose buffer is full. */
    method OnBroadcast()
      requires Valid() && loop == Waiting && broadcast != []
      modifies this
      ensures Valid() && old(events) < events && loop == Waiting
      ensures dequeued == old(dequeued) + [old(broadcast)[0]]
      ensures clients <= old(clients)
    {
      Take();
      while loop.todo != {}
        invariant Valid() && old(events) <= events && |old(events)| < |events| && loop.Delivering?
        invariant dequeued == old(dequeued) + [old(broadcast)[0]] && clients <= old(clients)
        decreases loop.todo
      {
        OfferNext();
      }
      ghost var s := View();
      loop := Waiting;
      Record(s, EndDelivery);
    }

    /** The loop, for any number of rounds of its select. */
    method RunLoop(rounds: nat)
      requires Valid() && loop == Waiting
      modifies this
      ensures Valid() && loop == Waiting && old(events) <= events
    {
      var i := 0;
      while i < rounds
        invariant Valid() && loop == Waiting && old(events) <= events
      {
        Others();
        var e: Event := *;
        if e.Register? && Enabled(View(), e) {
          OnRegister(e.id);
        } else if e.Unregister? && Enabled(View(), e) {
          OnUnregister(e.id);
        } else if broadcast != [] {
          OnBroadcast();
        }
        i := i + 1;
      }
    }
  }
}
