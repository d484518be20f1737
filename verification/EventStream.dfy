/** The event-stream hub and its clients beside the rule engine: engine steps, publications, connects, catch-ups and
    deliveries in any order. */
module EventStream {
  import opened Model
  import opened Sorting
  import opened AlertRules
  import opened AlertRuns
  import opened AlertEngine
  import opened StreamView
  import opened StreamLosses

  /** One connected stream: the queue the hub fills and the handler that delivers it to a page. */
  class StreamClient {
    var out: seq<Frame>
    var dropped: nat
    var done: bool
    var picture: Picture

    // Since when it is registered, what it was offered, what was delivered, and its catch-up.
    ghost var since: nat
    ghost var offers: seq<Offer>
    ghost var live: seq<Event>
    ghost var caughtUp: Option<CaughtUp>

    ghost function Value(): View
      reads this
    {
      View(since, offers, out, live, dropped, caughtUp, picture)
    }

    constructor (ghost published: nat)
      ensures Value() == NewView(published) && !done
    {
      out, dropped, done, picture := [], 0, false, map[];
      since, offers, live, caughtUp := published, [], [], None;
    }

    /** Puts a frame into the queue without ever blocking; a full queue loses it. */
    method Send(f: Frame) returns (taken: bool)
      modifies this`out, this`dropped
      ensures taken == (|old(out)| < 32)
      ensures out == if taken then old(out) + [f] else old(out)
      ensures dropped == if taken then old(dropped) else old(dropped) + 1
    {
      taken := |out| < CLIENT_QUEUE;
      if taken {
        out := out + [f];
      } else {
        dropped := dropped + 1;
      }
    }

    method PageReceives(e: Event)
      modifies this`picture
      ensures picture == Show(old(picture), e)
    {
      if e.kind == Raised {
        picture := picture[EventKey(e) := e.alert];
      } else {
        picture := map k | k in picture && k != EventKey(e) :: picture[k];
      }
    }

    /** The handler hands the next queued frame to the page. */
    method DeliverNext()
      requires out != []
      modifies this
      ensures Value() == Deliver(old(Value())) && done == old(done)
    {
      var frame := out[0];
      out := out[1..];
      if frame.AlertFrame? {
        PageReceives(frame.event);
        live := live + [frame.event];
      }
    }

    /** The catch-up: one raised event per open alert that can be rendered. */
    method SendCatchUp(active: seq<Alert>, ghost inputs: nat)
      requires caughtUp == None
      modifies this
      ensures Value() == CatchUp(old(Value()), inputs, active) && done == old(done)
    {
      for i := 0 to |active|
        invariant out == old(out) && dropped == old(dropped) && done == old(done)
        invariant since == old(since) && offers == old(offers) && live == old(live) && caughtUp == old(caughtUp)
        invariant picture == ShowAll(old(picture), CatchUpEvents(active[..i]))
      {
        assert active[..i + 1][..i] == active[..i];
        ghost var before := CatchUpEvents(active[..i]);
        if Renderable(active[i]) {
          PageReceives(Event(Raised, active[i]));
          assert (before + [Event(Raised, active[i])])[..|before|] == before;
        } else {
          assert before + [] == before;
        }
      }
      assert active[..|active|] == active;
      caughtUp := Some(CaughtUp(inputs, active));
    }
  }

  // --- newest first ---

  function RaisedAtOf(a: Alert): Time { a.raisedAt }

  predicate NotBefore(a: Time, b: Time) { a >= b }

  /** Sorting the open alerts newest first keeps one per key. */
  lemma NewestFirstIsActive(active: seq<Alert>, st: EngineState)
    requires ListsActive(st, active)
    ensures OneEach(StableSort(active, RaisedAtOf, NotBefore), st)
  {
    hide StableSort;
    StableSortCorrect(active, RaisedAtOf, NotBefore);
    var sorted := StableSort(active, RaisedAtOf, NotBefore);
    forall key: AlertKey ensures ByKey(sorted, KeyOf, key) == OpenList(st, key) {
      assert ByKey(active, KeyOf, key) == OpenList(st, key);
      SortCounts(active, RaisedAtOf, NotBefore, KeyOf, key);
      SameOnly(sorted, active, key);
    }
  }

  lemma NewestFirst(active: seq<Alert>)
    ensures var sorted := StableSort(active, RaisedAtOf, NotBefore);
      forall i, j :: 0 <= i < j < |sorted| ==> sorted[i].raisedAt >= sorted[j].raisedAt
  {
    StableSortCorrect(active, RaisedAtOf, NotBefore);
  }

  lemma SameOnly(a: seq<Alert>, b: seq<Alert>, key: AlertKey)
    requires multiset(a) == multiset(b)
    requires |ByKey(a, KeyOf, key)| == |ByKey(b, KeyOf, key)| <= 1
    ensures ByKey(a, KeyOf, key) == ByKey(b, KeyOf, key)
  {
    var x, y := ByKey(a, KeyOf, key), ByKey(b, KeyOf, key);
    ByKeyMembers(a, KeyOf, key);
    ByKeyMembers(b, KeyOf, key);
    hide ByKey;
    if |x| == 1 {
      assert x[0] in x;
      assert x[0] in multiset(a);
      assert x[0] in b;
      assert x[0] in y;
    }
  }

  // --- the server ---

  class Server {
    const engine: Engine
    var clients: set<StreamClient>
    var closed: bool
    // The events of the last engine step still to be published.
    var unpublished: seq<Event>
    ghost var published: seq<Event>

    ghost predicate Apart()
      reads this, engine, clients
    {
      && this !in engine.Repr
      && forall c :: c in clients ==> c !in engine.Repr
    }

    ghost predicate AllOk()
      reads this, engine, clients
    {
      forall c :: c in clients ==> ViewOk(engine.cfg, engine.inputs, engine.outputs, published, c.Value())
    }

    ghost predicate Valid()
      reads this, engine, engine.Repr, clients
    {
      && Apart() && engine.Valid()
      && published + unpublished == Stream(engine.outputs)
      && AllOk()
      && (closed ==> clients == {})
    }

    constructor (e: Engine)
      requires e.Valid() && e.inputs == []
      ensures Valid() && engine == e && clients == {} && !closed && published == [] && unpublished == []
    {
      engine, clients, closed, unpublished, published := e, {}, false, [], [];
    }

    /** The pipeline's goroutine takes the next snapshot only when the events of the previous step are published. */
    method Snapshot(snap: IslandSnapshot)
      requires Valid() && unpublished == []
      modifies this`unpublished, engine, engine.Repr
      ensures Valid() && fresh(engine.Repr - old(engine.Repr))
      ensures engine.inputs == old(engine.inputs) + [Input.Apply(snap)] && published == old(published)
    {
      hide ViewOk, IsRun, Stream, StateAfter, Separate;
      var events := engine.Apply(snap);
      StreamGrows(old(engine.outputs), events);
      assert published + unpublished == published;
      unpublished := events;
      Continue(old(engine.inputs), old(engine.outputs), Input.Apply(snap), events);
    }

    method ResetEngine(now: Time)
      requires Valid() && unpublished == []
      modifies this`unpublished, engine
      ensures Valid() && fresh(engine.Repr - old(engine.Repr))
      ensures engine.inputs == old(engine.inputs) + [Input.Reset(now)] && published == old(published)
    {
      hide ViewOk, IsRun, Stream, StateAfter, Separate;
      var events := engine.Reset(now);
      StreamGrows(old(engine.outputs), events);
      assert published + unpublished == published;
      unpublished := events;
      Continue(old(engine.inputs), old(engine.outputs), Input.Reset(now), events);
    }

    lemma Continue(inputs: seq<Input>, outputs: seq<seq<Event>>, input: Input, events: seq<Event>)
      requires forall c :: c in clients ==> ViewOk(engine.cfg, inputs, outputs, published, c.Value())
      requires engine.inputs == inputs + [input] && engine.outputs == outputs + [events]
      ensures AllOk()
    {
      hide ViewOk;
      forall c | c in clients ensures ViewOk(engine.cfg, engine.inputs, engine.outputs, published, c.Value()) {
        EngineKept(engine.cfg, inputs, outputs, published, c.Value(), input, events);
      }
    }

    /** Publishes the next event to every client, visited in any order. */
    method PublishNext()
      requires Valid() && unpublished != []
      modifies this`unpublished, this`published, clients
      ensures Valid() && clients == old(clients) && engine.inputs == old(engine.inputs)
      ensures published == old(published) + [old(unpublished)[0]] && unpublished == old(unpublished)[1..]
      ensures forall c :: c in clients ==> c.Value() == OfferAlert(old(c.Value()), old(unpublished)[0])
    {
      hide ViewOk, Stream, Separate, IsRun, StateAfter, IslandValues;
      var e := unpublished[0];
      Broadcast(AlertFrame(e));
      forall c | c in clients
        ensures ViewOk(engine.cfg, engine.inputs, engine.outputs, published + [e], c.Value())
      {
        OfferKept(engine.cfg, engine.inputs, engine.outputs, published, old(c.Value()), e);
      }
      published, unpublished := published + [e], unpublished[1..];
      assert published + unpublished == old(published) + old(unpublished);
    }

    /** Snapshot and status frames share the queues. */
    method PublishOther()
      requires Valid()
      modifies clients
      ensures Valid()
      ensures forall c :: c in clients ==> c.Value() == OfferOther(old(c.Value()))
    {
      hide ViewOk, Stream, Separate, IsRun, StateAfter, IslandValues;
      Broadcast(OtherFrame);
      forall c | c in clients
        ensures ViewOk(engine.cfg, engine.inputs, engine.outputs, published, c.Value())
      {
        OtherKept(engine.cfg, engine.inputs, engine.outputs, published, old(c.Value()));
      }
    }

    method Broadcast(f: Frame)
      modifies clients
      ensures forall c :: c in clients ==> c.Value() == OfferFrame(old(c.Value()), f)
      ensures forall c :: c in clients ==> c.done == old(c.done)
    {
      var todo := clients;
      while todo != {}
        invariant todo <= clients
        invariant forall c :: c in clients ==>
          c.done == old(c.done) && c.Value() == if c in todo then old(c.Value()) else OfferFrame(old(c.Value()), f)
        decreases todo
      {
        var c :| c in todo;
        todo := todo - {c};
        if f.AlertFrame? && !Renderable(f.event.alert) {
          c.offers := c.offers + [Offer(f.event, false)];
        } else {
          var taken := c.Send(f);
          if f.AlertFrame? {
            c.offers := c.offers + [Offer(f.event, taken)];
          }
        }
      }
    }

    /** Registers a client, before its catch-up is built; a closed hub takes none. */
    method Connect() returns (client: StreamClient?)
      requires Valid()
      modifies this`clients
      ensures Valid() && (client == null <==> closed)
      ensures client == null ==> clients == old(clients)
      ensures client != null ==>
        fresh(client) && clients == old(clients) + {client} && client.Value() == NewView(|published|)
    {
      assert |engine.outputs| == |engine.inputs|;
      hide ViewOk, Stream, Separate, IsRun, StateAfter, IslandValues;
      if closed {
        return null;
      }
      var c := new StreamClient(|published|);
      NewViewOk(engine.cfg, engine.inputs, engine.outputs, published);
      clients := clients + {c};
      client := c;
    }

    /** Builds the catch-up from the alerts open at this moment, newest first. */
    method CatchUpClient(c: StreamClient)
      requires Valid() && c in clients && c.caughtUp.None?
      modifies c
      ensures Valid() && c.caughtUp.Some? && OneEach(c.caughtUp.value.active, StateAfter(engine.cfg, engine.inputs))
      ensures c.Value() == CatchUp(old(c.Value()), |engine.inputs|, c.caughtUp.value.active) && c.done == old(c.done)
      ensures var sent := c.caughtUp.value.active;
        forall i, j :: 0 <= i < j < |sent| ==> sent[i].raisedAt >= sent[j].raisedAt
    {
      hide ViewOk, Stream, IsRun, StateAfter, Separate, IslandValues, ListsActive, StableSort, OneEach;
      var active := engine.Active();
      NewestFirstIsActive(active, StateAfter(engine.cfg, engine.inputs));
      NewestFirst(active);
      active := StableSort(active, RaisedAtOf, NotBefore);
      ghost var before := c.Value();
      c.SendCatchUp(active, |engine.inputs|);
      CatchUpKept(engine.cfg, engine.inputs, engine.outputs, published, unpublished, before, active);
    }

    method DeliverTo(c: StreamClient)
      requires Valid() && c in clients && c.caughtUp.Some? && c.out != []
      modifies c
      ensures Valid() && c.Value() == Deliver(old(c.Value()))
    {
      hide ViewOk, Stream, IsRun, StateAfter, Separate, IslandValues;
      ghost var before := c.Value();
      c.DeliverNext();
      DeliverKept(engine.cfg, engine.inputs, engine.outputs, published, before);
    }

    method Disconnect(c: StreamClient)
      requires Valid()
      modifies this`clients
      ensures Valid() && clients == old(clients) - {c}
    {
      hide ViewOk, Stream, IsRun, StateAfter, Separate, IslandValues;
      clients := clients - {c};
    }

    /** Ends every stream and refuses new ones. */
    method CloseAll()
      requires Valid()
      modifies this`clients, this`closed, clients
      ensures Valid() && closed && clients == {}
      ensures forall c :: c in old(clients) ==> c.done
    {
      hide ViewOk, Stream, IsRun, StateAfter, Separate, IslandValues;
      closed := true;
      var all := clients;
      while clients != {}
        invariant clients <= all && all == old(clients) && closed
        invariant engine.Valid()
        invariant forall c :: c in all && c !in clients ==> c.done
        invariant forall c :: c in all ==> c.Value() == old(c.Value())
        decreases clients
      {
        var c :| c in clients;
        c.done := true;
        clients := clients - {c};
      }
    }
  }

  lemma NewViewOk(cfg: Config, inputs: seq<Input>, outputs: seq<seq<Event>>, published: seq<Event>)
    requires |outputs| == |inputs|
    ensures ViewOk(cfg, inputs, outputs, published, NewView(|published|))
  {
    assert published[|published|..] == [];
  }

  function OfferFrame(v: View, f: Frame): View {
    match f case AlertFrame(e) => OfferAlert(v, e) case OtherFrame => OfferOther(v)
  }

  lemma StreamGrows(outputs: seq<seq<Event>>, events: seq<Event>)
    ensures Stream(outputs + [events]) == Stream(outputs) + events
  {
    assert (outputs + [events])[..|outputs|] == outputs;
  }

  /** A connected client at rest: caught up, its queue drained and everything published. */
  lemma AtRest(s: Server, c: StreamClient)
    requires s.Valid() && c in s.clients && s.unpublished == [] && c.caughtUp.Some? && c.out == []
    ensures Settled(s.engine.cfg, s.engine.inputs, s.engine.outputs, c.Value())
  {
    hide ViewOk, Stream, IsRun, StateAfter, Separate, IslandValues;
    assert s.published == s.published + s.unpublished;
  }

  /** Once everything is published and a connected client's queue is drained, its page shows exactly the engine's
      active keys if it lost nothing, which with finite balances its counter tells, and in every case exactly when it
      missed an even number of the key's changes. */
  lemma StreamConverges(s: Server, c: StreamClient, key: AlertKey)
    requires s.Valid() && c in s.clients && s.unpublished == [] && c.caughtUp.Some? && c.out == []
    ensures
      var open := OpenAlert(StateAfter(s.engine.cfg, s.engine.inputs), key);
      && ((key in c.picture <==> open.Some?) <==> Missed(s.engine.outputs, c.Value(), key) % 2 == 0)
      && (Lossless(c.Value()) || (FiniteBalances(s.engine.inputs) && c.dropped == 0) ==>
            (key in c.picture <==> open.Some?) && (key in c.picture ==> c.picture[key].raisedAt == open.value.raisedAt))
  {
    hide Settled, Stream, IsRun, StateAfter, Separate, IslandValues, OpenAlert, Missed, Lossless, FiniteBalances;
    var cfg, inputs, outputs, v := s.engine.cfg, s.engine.inputs, s.engine.outputs, c.Value();
    AtRest(s, c);
    PageIsRightIff(cfg, inputs, outputs, v, key);
    if FiniteBalances(inputs) && v.dropped == 0 {
      LosslessIff(cfg, inputs, outputs, v);
    }
    if Lossless(v) {
      PageConverges(cfg, inputs, outputs, v, key);
    }
  }

  /** Publishes what the last engine step left and delivers every frame at once: nothing is dropped. */
  method PublishPromptly(s: Server, c: StreamClient)
    requires s.Valid() && s.clients == {c} && c.caughtUp.Some? && c.out == [] && c.dropped == 0
    modifies s`unpublished, s`published, c
    ensures s.Valid() && s.unpublished == [] && s.engine.inputs == old(s.engine.inputs)
    ensures c.caughtUp.Some? && c.out == [] && c.dropped == 0 && c.since == old(c.since)
  {
    hide ViewOk, Stream, IsRun, StateAfter, Separate, IslandValues, Renderable, Show, Server.AllOk;
    while s.unpublished != []
      invariant s.Valid() && s.clients == {c} && s.engine.inputs == old(s.engine.inputs)
      invariant c.caughtUp.Some? && c.out == [] && c.dropped == 0 && c.since == old(c.since)
      decreases |s.unpublished|
    {
      s.PublishNext();
      if c.out != [] {
        s.DeliverTo(c);
      }
    }
  }

  /** The running server, in any configuration, strands a page that was connected all along and whose queue dropped
      nothing: it still shows a deficit that ended with balances that are not numbers. */
  method StrandsPage(engine: Engine, scene: Scene) returns (s: Server, c: StreamClient)
    requires engine.Valid() && engine.inputs == [] && scene.Valid()
    modifies engine, engine.Repr
    ensures s.Valid() && c in s.clients && s.unpublished == [] && c.caughtUp.Some? && c.out == [] && c.dropped == 0
    ensures scene.Key() in c.picture && OpenAlert(StateAfter(s.engine.cfg, s.engine.inputs), scene.Key()).None?
  {
    hide ViewOk, Stream, IsRun, StateAfter, Separate, IslandValues, OneEach, Scene.Run, Scene.Valid, Server.AllOk, OpenAlert,
      CatchUpEvents;
    s := new Server(engine);
    c := s.Connect();
    s.CatchUpClient(c);
    var run := scene.Run(engine.cfg);
    for i := 0 to |run|
      invariant s.engine == engine && s.Valid() && s.clients == {c} && s.unpublished == []
      invariant c.caughtUp.Some? && c.out == [] && c.dropped == 0 && c.since == 0
      invariant engine.inputs == run[..i] && fresh(engine.Repr - old(engine.Repr))
    {
      scene.Snapshots(engine.cfg, i);
      s.Snapshot(run[i].snap);
      assert run[..i + 1] == run[..i] + [run[i]];
      PublishPromptly(s, c);
    }
    assert run[..|run|] == run;
    AtRest(s, c);
    NaNClearSticks(scene, engine.cfg, engine.outputs, c.Value());
  }
}
