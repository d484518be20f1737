/** What one event-stream client has been offered, has received and shows, and when that is what is active. */
module StreamView {
  import opened Model
  import opened Sorting
  import opened AlertRules
  import opened AlertRuns

  const CLIENT_QUEUE: nat := 32

  /** JSON has no form for NaN and the infinities: an alert with such a value cannot be sent. */
  predicate Renderable(a: Alert) { a.value.Finite? }

  // --- the page ---

  type Picture = map<AlertKey, Alert>

  /** The page keeps one alert per key: a raised event adds or replaces it, any other takes it away. */
  function Show(p: Picture, e: Event): Picture {
    if e.kind == Raised then p[EventKey(e) := e.alert] else map k | k in p && k != EventKey(e) :: p[k]
  }

  function ShowAll(p: Picture, events: seq<Event>): Picture {
    if events == [] then p else Show(ShowAll(p, events[..|events| - 1]), events[|events| - 1])
  }

  /** A connecting client is sent every open alert that can be sent, as if it had just been raised. */
  function CatchUpEvents(active: seq<Alert>): seq<Event> {
    if active == [] then []
    else
      CatchUpEvents(active[..|active| - 1])
      + if Renderable(active[|active| - 1]) then [Event(Raised, active[|active| - 1])] else []
  }

  // --- the client ---

  datatype Frame = AlertFrame(event: Event) | OtherFrame

  /** An event published while the client was registered, and whether its queue took it. */
  datatype Offer = Offer(event: Event, taken: bool)

  function OfferKey(o: Offer): AlertKey { EventKey(o.event) }

  function Offered(offers: seq<Offer>): seq<Event> {
    seq(|offers|, i requires 0 <= i < |offers| => offers[i].event)
  }

  function Taken(offers: seq<Offer>): seq<Event> {
    if offers == [] then []
    else Taken(offers[..|offers| - 1]) + if offers[|offers| - 1].taken then [offers[|offers| - 1].event] else []
  }

  function Alerts(frames: seq<Frame>): seq<Event> {
    if frames == [] then []
    else
      Alerts(frames[..|frames| - 1]) + match frames[|frames| - 1] case AlertFrame(e) => [e] case OtherFrame => []
  }

  /** Which engine state a client was caught up with: after how many inputs, and the open alerts it was sent. */
  datatype CaughtUp = CaughtUp(inputs: nat, active: seq<Alert>)

  /** A client: since when it is registered, what it was offered since, the queue, what was delivered from it, and
      what the page at the other end shows. */
  datatype View = View(
    since: nat,
    offers: seq<Offer>,
    out: seq<Frame>,
    live: seq<Event>,
    dropped: nat,
    caughtUp: Option<CaughtUp>,
    picture: Picture)

  function NewView(since: nat): View { View(since, [], [], [], 0, None, map[]) }

  /** Publishing an alert event to a client: a full queue loses it and counts it; an event that cannot be rendered
      reaches nobody and is not counted. */
  function OfferAlert(v: View, e: Event): View {
    if !Renderable(e.alert) then v.(offers := v.offers + [Offer(e, false)])
    else if |v.out| < CLIENT_QUEUE then v.(offers := v.offers + [Offer(e, true)], out := v.out + [AlertFrame(e)])
    else v.(offers := v.offers + [Offer(e, false)], dropped := v.dropped + 1)
  }

  function OfferOther(v: View): View {
    if |v.out| < CLIENT_QUEUE then v.(out := v.out + [OtherFrame]) else v.(dropped := v.dropped + 1)
  }

  function Deliver(v: View): View
    requires v.out != []
  {
    match v.out[0]
    case AlertFrame(e) => v.(out := v.out[1..], live := v.live + [e], picture := Show(v.picture, e))
    case OtherFrame => v.(out := v.out[1..])
  }

  function CatchUp(v: View, inputs: nat, active: seq<Alert>): View {
    v.(caughtUp := Some(CaughtUp(inputs, active)), picture := ShowAll(v.picture, CatchUpEvents(active)))
  }

  ghost predicate OneEach(active: seq<Alert>, st: EngineState) {
    forall key: AlertKey :: ByKey(active, KeyOf, key) == OpenList(st, key)
  }

  /** What holds of every registered client at every moment. */
  ghost predicate ViewOk(cfg: Config, inputs: seq<Input>, outputs: seq<seq<Event>>, published: seq<Event>, v: View) {
    && |outputs| == |inputs|
    && v.since <= |published| && Offered(v.offers) == published[v.since..]
    && Taken(v.offers) == v.live + Alerts(v.out)
    && |v.out| <= CLIENT_QUEUE
    && (v.dropped == 0 ==> forall o :: o in v.offers ==> (o.taken <==> Renderable(o.event.alert)))
    && match v.caughtUp
       case None => v.live == [] && v.picture == map[]
       case Some(c) =>
         && c.inputs <= |inputs| && v.since <= |Stream(outputs[..c.inputs])|
         && OneEach(c.active, StateAfter(cfg, inputs[..c.inputs]))
         && v.picture == ShowAll(ShowAll(map[], CatchUpEvents(c.active)), v.live)
  }

  // --- every step keeps it ---

  lemma OfferedGrows(offers: seq<Offer>, o: Offer)
    ensures Offered(offers + [o]) == Offered(offers) + [o.event]
  {
  }

  lemma TakenGrows(offers: seq<Offer>, o: Offer)
    ensures Taken(offers + [o]) == Taken(offers) + if o.taken then [o.event] else []
  {
    assert (offers + [o])[..|offers|] == offers;
  }

  lemma AlertsGrow(frames: seq<Frame>, f: Frame)
    ensures Alerts(frames + [f]) == Alerts(frames) + match f case AlertFrame(e) => [e] case OtherFrame => []
  {
    assert (frames + [f])[..|frames|] == frames;
  }

  lemma OfferKept(cfg: Config, inputs: seq<Input>, outputs: seq<seq<Event>>, published: seq<Event>, v: View, e: Event)
    requires ViewOk(cfg, inputs, outputs, published, v)
    ensures ViewOk(cfg, inputs, outputs, published + [e], OfferAlert(v, e))
  {
    hide OneEach, ShowAll, CatchUpEvents, Stream, StateAfter, Renderable, Offered, Taken, Alerts;
    var taken := Renderable(e.alert) && |v.out| < CLIENT_QUEUE;
    assert (published + [e])[v.since..] == published[v.since..] + [e];
    OfferedGrows(v.offers, Offer(e, taken));
    TakenGrows(v.offers, Offer(e, taken));
    AlertsGrow(v.out, AlertFrame(e));
    assert v.live + Alerts(v.out) + [e] == v.live + (Alerts(v.out) + [e]);
    assert Taken(v.offers) + [] == Taken(v.offers);
  }

  lemma OtherKept(cfg: Config, inputs: seq<Input>, outputs: seq<seq<Event>>, published: seq<Event>, v: View)
    requires ViewOk(cfg, inputs, outputs, published, v)
    ensures ViewOk(cfg, inputs, outputs, published, OfferOther(v))
  {
    hide OneEach, ShowAll, CatchUpEvents, Stream, StateAfter, Offered, Taken;
    assert (v.out + [OtherFrame])[..|v.out|] == v.out;
    assert Alerts(v.out) + [] == Alerts(v.out);
  }

  lemma {:induction false} AlertsFirst(frames: seq<Frame>)
    requires frames != []
    ensures Alerts(frames) == (match frames[0] case AlertFrame(e) => [e] case OtherFrame => []) + Alerts(frames[1..])
  {
    if |frames| > 1 {
      AlertsFirst(frames[..|frames| - 1]);
      assert frames[1..][..|frames| - 2] == frames[..|frames| - 1][1..];
    }
  }

  lemma DeliverKept(cfg: Config, inputs: seq<Input>, outputs: seq<seq<Event>>, published: seq<Event>, v: View)
    requires ViewOk(cfg, inputs, outputs, published, v) && v.out != [] && v.caughtUp.Some?
    ensures ViewOk(cfg, inputs, outputs, published, Deliver(v))
  {
    hide OneEach, CatchUpEvents, Stream, StateAfter, Offered, Taken, Alerts, Show;
    AlertsFirst(v.out);
    if v.out[0].AlertFrame? {
      var e := v.out[0].event;
      assert (v.live + [e])[..|v.live|] == v.live;
      assert v.live + [e] + Alerts(v.out[1..]) == v.live + ([e] + Alerts(v.out[1..]));
    }
  }

  lemma CatchUpKept(cfg: Config, inputs: seq<Input>, outputs: seq<seq<Event>>, published: seq<Event>, rest: seq<Event>,
                    v: View, active: seq<Alert>)
    requires ViewOk(cfg, inputs, outputs, published, v) && v.caughtUp.None?
    requires published + rest == Stream(outputs) && OneEach(active, StateAfter(cfg, inputs))
    ensures ViewOk(cfg, inputs, outputs, published, CatchUp(v, |inputs|, active))
  {
    hide OneEach, CatchUpEvents, Stream, StateAfter, Offered, Taken, Alerts, Show;
    assert inputs[..|inputs|] == inputs && outputs[..|inputs|] == outputs;
    assert |published| <= |Stream(outputs)|;
  }

  lemma EngineKept(cfg: Config, inputs: seq<Input>, outputs: seq<seq<Event>>, published: seq<Event>, v: View,
                   input: Input, events: seq<Event>)
    requires ViewOk(cfg, inputs, outputs, published, v)
    ensures ViewOk(cfg, inputs + [input], outputs + [events], published, v)
  {
    hide OneEach, CatchUpEvents, Stream, StateAfter, Offered, Taken, Alerts, Show;
    if v.caughtUp.Some? {
      var n := v.caughtUp.value.inputs;
      assert (inputs + [input])[..n] == inputs[..n] && (outputs + [events])[..n] == outputs[..n];
    }
  }

  // --- what a page shows ---

  /** The last event of a key decides; without one, what was shown stays. */
  lemma {:induction false} ShownIsLast(p: Picture, events: seq<Event>, key: AlertKey)
    ensures
      var own := ByKey(events, EventKey, key);
      var shown := ShowAll(p, events);
      if own == [] then (key in shown <==> key in p) && (key in p ==> shown[key] == p[key])
      else (key in shown <==> own[|own| - 1].kind == Raised) && (key in shown ==> shown[key] == own[|own| - 1].alert)
  {
    if events != [] {
      var init, last := events[..|events| - 1], events[|events| - 1];
      ShownIsLast(p, init, key);
      assert events == init + [last];
      ByKeyAppend(init, [last], EventKey, key);
      assert ByKey([last], EventKey, key) == if EventKey(last) == key then [last] else [];
    }
  }

  lemma {:induction false} CatchUpByKey(active: seq<Alert>, key: AlertKey)
    requires |ByKey(active, KeyOf, key)| <= 1
    ensures ByKey(CatchUpEvents(active), EventKey, key) ==
      var own := ByKey(active, KeyOf, key);
      if own != [] && Renderable(own[0]) then [Event(Raised, own[0])] else []
  {
    if active != [] {
      var init, last := active[..|active| - 1], active[|active| - 1];
      assert active == init + [last];
      ByKeyAppend(init, [last], KeyOf, key);
      assert ByKey([last], KeyOf, key) == if KeyOf(last) == key then [last] else [];
      CatchUpByKey(init, key);
      var more := if Renderable(last) then [Event(Raised, last)] else [];
      ByKeyAppend(CatchUpEvents(init), more, EventKey, key);
      assert ByKey(more, EventKey, key) == if Renderable(last) && KeyOf(last) == key then more else [];
    }
  }

  // --- what a client missed ---

  /** How many offers at the end of the list were not taken. */
  function Trailing(offers: seq<Offer>): (n: nat)
    ensures n <= |offers|
    ensures n < |offers| ==> offers[|offers| - 1 - n].taken
    ensures forall i :: |offers| - n <= i < |offers| ==> !offers[i].taken
  {
    if offers == [] || offers[|offers| - 1].taken then 0 else Trailing(offers[..|offers| - 1]) + 1
  }

  /** What came out of the engine after its first n inputs. */
  function Since(outputs: seq<seq<Event>>, n: nat): seq<seq<Event>> {
    if n <= |outputs| then outputs[n..] else []
  }

  /** The alert a catch-up holds for a key. */
  function CaughtUpWith(v: View, key: AlertKey): seq<Alert> {
    match v.caughtUp case None => [] case Some(c) => ByKey(c.active, KeyOf, key)
  }

  function CaughtUpAt(v: View): nat {
    match v.caughtUp case None => 0 case Some(c) => c.inputs
  }

  /** The changes of a key the page has not seen since it last heard of it: the events missed since the last one it
      received or, if it received none, those since it was caught up, and one more if the catch-up had to leave the
      key's open alert out. */
  function Missed(outputs: seq<seq<Event>>, v: View, key: AlertKey): nat {
    var offers, own := ByKey(v.offers, OfferKey, key), CaughtUpWith(v, key);
    if Trailing(offers) < |offers| then Trailing(offers)
    else
      |ByKey(Stream(Since(outputs, CaughtUpAt(v))), EventKey, key)|
      + if own != [] && !Renderable(own[0]) then 1 else 0
  }

  lemma {:induction false} StreamJoin(a: seq<seq<Event>>, b: seq<seq<Event>>)
    ensures Stream(a + b) == Stream(a) + Stream(b)
  {
    if b == [] {
      assert a + b == a;
    } else {
      assert (a + b)[..|a + b| - 1] == a + b[..|b| - 1];
      StreamJoin(a, b[..|b| - 1]);
    }
  }

  lemma {:induction false} OfferedByKey(offers: seq<Offer>, key: AlertKey)
    ensures ByKey(Offered(offers), EventKey, key) == Offered(ByKey(offers, OfferKey, key))
  {
    if offers != [] {
      OfferedByKey(offers[1..], key);
      assert Offered(offers) == [offers[0].event] + Offered(offers[1..]);
      assert Offered(offers)[1..] == Offered(offers[1..]);
    }
  }

  lemma {:induction false} TakenByKey(offers: seq<Offer>, key: AlertKey)
    ensures ByKey(Taken(offers), EventKey, key) == Taken(ByKey(offers, OfferKey, key))
  {
    if offers != [] {
      var init, last := offers[..|offers| - 1], offers[|offers| - 1];
      assert offers == init + [last];
      TakenByKey(init, key);
      ByKeyAppend(init, [last], OfferKey, key);
      assert ByKey([last], OfferKey, key) == if OfferKey(last) == key then [last] else [];
      var more := if last.taken then [last.event] else [];
      ByKeyAppend(Taken(init), more, EventKey, key);
      assert ByKey(more, EventKey, key) == if OfferKey(last) == key then more else [];
      TakenGrows(ByKey(init, OfferKey, key), last);
      assert ByKey(init, OfferKey, key) + [] == ByKey(init, OfferKey, key);
      assert Taken(ByKey(init, OfferKey, key)) + [] == Taken(ByKey(init, OfferKey, key));
    }
  }

  /** What the queue took last is the last offer before the trailing ones. */
  lemma {:induction false} LastTaken(offers: seq<Offer>)
    ensures
      var n := Trailing(offers);
      if n == |offers| then Taken(offers) == []
      else Taken(offers) != [] && Taken(offers)[|Taken(offers)| - 1] == offers[|offers| - 1 - n].event
  {
    if offers != [] && !offers[|offers| - 1].taken {
      LastTaken(offers[..|offers| - 1]);
    }
  }

  /** A client that is caught up, with everything published and its queue drained. */
  ghost predicate Settled(cfg: Config, inputs: seq<Input>, outputs: seq<seq<Event>>, v: View) {
    && IsRun(cfg, inputs, outputs)
    && ViewOk(cfg, inputs, outputs, Stream(outputs), v)
    && v.caughtUp.Some? && v.out == []
  }

  /** The key's events up to a point of the run: their number tells whether it is active. */
  lemma ActiveIsOdd(cfg: Config, inputs: seq<Input>, outputs: seq<seq<Event>>, n: nat, key: AlertKey)
    requires IsRun(cfg, inputs, outputs) && n <= |inputs| == |outputs|
    ensures OpenAlert(StateAfter(cfg, inputs[..n]), key).Some? <==> |ByKey(Stream(outputs[..n]), EventKey, key)| % 2 == 1
  {
    hide IsRun, StateAfter, OpenAlert, HearAll;
    RunPrefix(cfg, inputs, outputs, n);
    RunHeard(cfg, inputs[..n], outputs[..n], key);
    HeardAlternates(ByKey(Stream(outputs[..n]), EventKey, key));
  }

  lemma KindIsParity(cfg: Config, inputs: seq<Input>, outputs: seq<seq<Event>>, key: AlertKey, i: nat)
    requires IsRun(cfg, inputs, outputs) && i < |ByKey(Stream(outputs), EventKey, key)|
    ensures ByKey(Stream(outputs), EventKey, key)[i].kind == Raised <==> i % 2 == 0
  {
    hide IsRun;
    EventsAlternate(cfg, inputs, outputs, key);
  }

  /** What a settled page shows of a key, read off its offers and its catch-up. */
  ghost predicate Shows(v: View, key: AlertKey) {
    var offers, own := ByKey(v.offers, OfferKey, key), CaughtUpWith(v, key);
    var n := Trailing(offers);
    if n < |offers| then
      var last := offers[|offers| - 1 - n].event;
      (key in v.picture <==> last.kind == Raised) && (key in v.picture ==> v.picture[key] == last.alert)
    else
      (key in v.picture <==> own != [] && Renderable(own[0])) && (key in v.picture ==> v.picture[key] == own[0])
  }

  lemma SettledShows(cfg: Config, inputs: seq<Input>, outputs: seq<seq<Event>>, v: View, key: AlertKey)
    requires Settled(cfg, inputs, outputs, v)
    ensures Shows(v, key)
  {
    hide Renderable, Taken, ByKey, ShowAll, CatchUpEvents, Trailing, Settled, OpenAlert, StateAfter;
    SettledFacts(cfg, inputs, outputs, v, key);
    var offers, active := ByKey(v.offers, OfferKey, key), v.caughtUp.value.active;
    CatchUpByKey(active, key);
    ShownIsLast(map[], CatchUpEvents(active), key);
    ShownIsLast(ShowAll(map[], CatchUpEvents(active)), v.live, key);
    TakenByKey(v.offers, key);
    LastTaken(offers);
  }

  lemma SettledFacts(cfg: Config, inputs: seq<Input>, outputs: seq<seq<Event>>, v: View, key: AlertKey)
    requires Settled(cfg, inputs, outputs, v)
    ensures v.caughtUp.Some?
    ensures
      var c := v.caughtUp.value;
      && Taken(v.offers) == v.live
      && v.picture == ShowAll(ShowAll(map[], CatchUpEvents(c.active)), v.live)
      && c.inputs <= |inputs| && ByKey(c.active, KeyOf, key) == OpenList(StateAfter(cfg, inputs[..c.inputs]), key)
  {
    hide IsRun, StateAfter, Stream, ShowAll, CatchUpEvents, OpenList, ByKey;
    assert Taken(v.offers) == v.live + Alerts([]) == v.live;
  }

  /** The offers of a key are the last of all its events. */
  ghost predicate IsTail(offers: seq<Offer>, all: seq<Event>) {
    && |offers| <= |all|
    && forall i :: 0 <= i < |offers| ==> offers[i].event == all[|all| - |offers| + i]
  }

  lemma SettledOffers(cfg: Config, inputs: seq<Input>, outputs: seq<seq<Event>>, v: View)
    requires Settled(cfg, inputs, outputs, v)
    ensures v.since <= |Stream(outputs)| && Offered(v.offers) == Stream(outputs)[v.since..]
  {
    hide IsRun, StateAfter, Stream, Offered;
  }

  lemma OfferedIsTail(cfg: Config, inputs: seq<Input>, outputs: seq<seq<Event>>, v: View, key: AlertKey)
    requires Settled(cfg, inputs, outputs, v)
    ensures v.since <= |Stream(outputs)|
    ensures IsTail(ByKey(v.offers, OfferKey, key), ByKey(Stream(outputs), EventKey, key))
    ensures |ByKey(Stream(outputs), EventKey, key)|
         == |ByKey(Stream(outputs)[..v.since], EventKey, key)| + |ByKey(v.offers, OfferKey, key)|
  {
    hide Settled, Stream, ByKey;
    SettledOffers(cfg, inputs, outputs, v);
    var stream := Stream(outputs);
    assert stream == stream[..v.since] + stream[v.since..];
    ByKeyAppend(stream[..v.since], stream[v.since..], EventKey, key);
    OfferedByKey(v.offers, key);
  }

  lemma CatchUpSplit(cfg: Config, inputs: seq<Input>, outputs: seq<seq<Event>>, v: View, key: AlertKey)
    requires Settled(cfg, inputs, outputs, v)
    ensures var later := |ByKey(Stream(Since(outputs, CaughtUpAt(v))), EventKey, key)|;
      && later <= |ByKey(Stream(outputs), EventKey, key)|
      && (CaughtUpWith(v, key) != [] <==> (|ByKey(Stream(outputs), EventKey, key)| - later) % 2 == 1)
  {
    hide IsRun, StateAfter, Stream, ByKey, OpenAlert;
    var n := v.caughtUp.value.inputs;
    assert outputs == outputs[..n] + outputs[n..];
    StreamJoin(outputs[..n], outputs[n..]);
    ByKeyAppend(Stream(outputs[..n]), Stream(outputs[n..]), EventKey, key);
    assert ByKey(v.caughtUp.value.active, KeyOf, key) == OpenList(StateAfter(cfg, inputs[..n]), key);
    ActiveIsOdd(cfg, inputs, outputs, n, key);
  }

  lemma ActiveAtEnd(cfg: Config, inputs: seq<Input>, outputs: seq<seq<Event>>, v: View, key: AlertKey)
    requires Settled(cfg, inputs, outputs, v)
    ensures OpenAlert(StateAfter(cfg, inputs), key).Some? <==> |ByKey(Stream(outputs), EventKey, key)| % 2 == 1
  {
    hide IsRun, StateAfter, OpenAlert, Stream, ByKey;
    assert inputs[..|inputs|] == inputs && outputs[..|inputs|] == outputs;
    ActiveIsOdd(cfg, inputs, outputs, |inputs|, key);
  }

  /** The kind of the last event the client's queue took, as a parity. */
  lemma LastTakenKind(cfg: Config, inputs: seq<Input>, outputs: seq<seq<Event>>, v: View, key: AlertKey)
    requires Settled(cfg, inputs, outputs, v)
    ensures
      var all := ByKey(Stream(outputs), EventKey, key);
      var offers := ByKey(v.offers, OfferKey, key);
      var n := Trailing(offers);
      n < |offers| ==> (offers[|offers| - 1 - n].event.kind == Raised <==> (|all| - 1 - n) % 2 == 0)
  {
    var all, offers := ByKey(Stream(outputs), EventKey, key), ByKey(v.offers, OfferKey, key);
    hide Settled, StateAfter, Stream, ByKey, IsRun, Trailing;
    OfferedIsTail(cfg, inputs, outputs, v, key);
    SettledIsRun(cfg, inputs, outputs, v);
    var n := Trailing(offers);
    if n < |offers| {
      KindIsParity(cfg, inputs, outputs, key, |all| - 1 - n);
    }
  }

  /** Exactly when a page is right about a key once everything is published and drained: when the number of changes
      it missed since it last heard of the key is even. */
  lemma PageIsRightIff(cfg: Config, inputs: seq<Input>, outputs: seq<seq<Event>>, v: View, key: AlertKey)
    requires Settled(cfg, inputs, outputs, v)
    ensures (key in v.picture <==> OpenAlert(StateAfter(cfg, inputs), key).Some?) <==> Missed(outputs, v, key) % 2 == 0
  {
    hide Settled, StateAfter, Stream, OpenAlert, ByKey, Trailing, Renderable, CaughtUpWith, Since;
    ActiveAtEnd(cfg, inputs, outputs, v, key);
    SettledShows(cfg, inputs, outputs, v, key);
    CatchUpSplit(cfg, inputs, outputs, v, key);
    LastTakenKind(cfg, inputs, outputs, v, key);
    var shown, active := key in v.picture, OpenAlert(StateAfter(cfg, inputs), key).Some?;
    var all := |ByKey(Stream(outputs), EventKey, key)|;
    var later := |ByKey(Stream(Since(outputs, CaughtUpAt(v))), EventKey, key)|;
    var own := CaughtUpWith(v, key);
    SeenParity(shown, active, all, Trailing(ByKey(v.offers, OfferKey, key)));
    UnseenParity(shown, active, all, later, own != [], own != [] && !Renderable(own[0]));
  }

  lemma SeenParity(shown: bool, active: bool, all: nat, trailing: nat)
    ensures (shown <==> (all - 1 - trailing) % 2 == 0) && (active <==> all % 2 == 1) ==>
      ((shown <==> active) <==> trailing % 2 == 0)
  {
  }

  lemma UnseenParity(shown: bool, active: bool, all: nat, later: nat, open: bool, skipped: bool)
    requires skipped ==> open
    ensures (shown <==> open && !skipped) && (open <==> (all - later) % 2 == 1) && (active <==> all % 2 == 1) ==>
      ((shown <==> active) <==> (later + if skipped then 1 else 0) % 2 == 0)
  {
  }

  lemma SettledIsRun(cfg: Config, inputs: seq<Input>, outputs: seq<seq<Event>>, v: View)
    requires Settled(cfg, inputs, outputs, v)
    ensures IsRun(cfg, inputs, outputs)
  {
  }

  /** A client that lost nothing: nothing was dropped from its queue, and every event and every alert it was caught up
      with could be rendered. */
  ghost predicate Lossless(v: View) {
    && v.dropped == 0
    && (forall o :: o in v.offers ==> Renderable(o.event.alert))
    && (v.caughtUp.Some? ==> forall a :: a in v.caughtUp.value.active ==> Renderable(a))
  }

  lemma NothingMissed(cfg: Config, inputs: seq<Input>, outputs: seq<seq<Event>>, v: View, key: AlertKey)
    requires Settled(cfg, inputs, outputs, v) && Lossless(v)
    ensures Missed(outputs, v, key) == 0
  {
    hide IsRun, StateAfter, Stream;
    var offers, n := ByKey(v.offers, OfferKey, key), v.caughtUp.value.inputs;
    ByKeyMembers(v.offers, OfferKey, key);
    ByKeyMembers(v.caughtUp.value.active, KeyOf, key);
    assert forall i :: 0 <= i < |offers| ==> offers[i] in offers;
    if offers == [] {
      OfferedIsTail(cfg, inputs, outputs, v, key);
      PrefixByKey(outputs, v.since, n, key);
    }
  }

  /** What was published since a point within the first n outputs includes all that came after them. */
  lemma PrefixByKey(outputs: seq<seq<Event>>, since: nat, n: nat, key: AlertKey)
    requires n <= |outputs| && since <= |Stream(outputs[..n])|
    requires since <= |Stream(outputs)|
    requires |ByKey(Stream(outputs), EventKey, key)| == |ByKey(Stream(outputs)[..since], EventKey, key)|
    ensures |ByKey(Stream(Since(outputs, n)), EventKey, key)| == 0
  {
    hide Stream, ByKey;
    var first := Stream(outputs[..n]);
    assert outputs == outputs[..n] + outputs[n..];
    StreamJoin(outputs[..n], outputs[n..]);
    ByKeyAppend(first, Stream(outputs[n..]), EventKey, key);
    assert Stream(outputs)[..since] == first[..since];
    assert first == first[..since] + first[since..];
    ByKeyAppend(first[..since], first[since..], EventKey, key);
  }

  /** A client that registers before its catch-up is built and loses nothing ends, in every interleaving, with exactly
      the engine's active keys, each raised when the engine says it was. */
  lemma PageConverges(cfg: Config, inputs: seq<Input>, outputs: seq<seq<Event>>, v: View, key: AlertKey)
    requires Settled(cfg, inputs, outputs, v) && Lossless(v)
    ensures key in v.picture <==> OpenAlert(StateAfter(cfg, inputs), key).Some?
    ensures key in v.picture ==> v.picture[key].raisedAt == OpenAlert(StateAfter(cfg, inputs), key).value.raisedAt
  {
    hide Settled, StateAfter, Stream, OpenAlert, ByKey, Missed, Lossless;
    NothingMissed(cfg, inputs, outputs, v, key);
    PageIsRightIff(cfg, inputs, outputs, v, key);
    if key in v.picture {
      RaisedAtAgrees(cfg, inputs, outputs, v, key);
    }
  }

  lemma RaisedAtAgrees(cfg: Config, inputs: seq<Input>, outputs: seq<seq<Event>>, v: View, key: AlertKey)
    requires Settled(cfg, inputs, outputs, v) && Lossless(v)
    requires key in v.picture && OpenAlert(StateAfter(cfg, inputs), key).Some?
    ensures v.picture[key].raisedAt == OpenAlert(StateAfter(cfg, inputs), key).value.raisedAt
  {
    hide IsRun, StateAfter, Stream, OpenAlert, ByKey, Settled, Lossless, HearAll, Trailing, IsTail, CaughtUpWith;
    SettledShows(cfg, inputs, outputs, v, key);
    NothingMissed(cfg, inputs, outputs, v, key);
    var offers := ByKey(v.offers, OfferKey, key);
    if Trailing(offers) < |offers| {
      LastOfferIsLast(cfg, inputs, outputs, v, key);
      SettledIsRun(cfg, inputs, outputs, v);
      EventsAlternate(cfg, inputs, outputs, key);
    } else {
      CaughtUpAgrees(cfg, inputs, outputs, v, key);
    }
  }

  lemma LastOfferIsLast(cfg: Config, inputs: seq<Input>, outputs: seq<seq<Event>>, v: View, key: AlertKey)
    requires Settled(cfg, inputs, outputs, v) && ByKey(v.offers, OfferKey, key) != []
    ensures
      var offers, all := ByKey(v.offers, OfferKey, key), ByKey(Stream(outputs), EventKey, key);
      all != [] && offers[|offers| - 1].event == all[|all| - 1]
  {
    hide Settled, Stream, ByKey;
    OfferedIsTail(cfg, inputs, outputs, v, key);
  }

  /** A key without changes since the catch-up is shown as it was caught up with, and still open as it was then. */
  lemma CaughtUpAgrees(cfg: Config, inputs: seq<Input>, outputs: seq<seq<Event>>, v: View, key: AlertKey)
    requires Settled(cfg, inputs, outputs, v) && CaughtUpWith(v, key) != []
    requires |ByKey(Stream(Since(outputs, CaughtUpAt(v))), EventKey, key)| == 0
    requires OpenAlert(StateAfter(cfg, inputs), key).Some?
    ensures CaughtUpWith(v, key)[0].raisedAt == OpenAlert(StateAfter(cfg, inputs), key).value.raisedAt
  {
    SettledFacts(cfg, inputs, outputs, v, key);
    SettledIsRun(cfg, inputs, outputs, v);
    hide Settled, IsRun, StateAfter, Stream, OpenAlert, ByKey;
    UnchangedSince(cfg, inputs, outputs, v.caughtUp.value.inputs, key);
  }

  lemma NothingSince(outputs: seq<seq<Event>>, n: nat, key: AlertKey)
    requires n <= |outputs| && |ByKey(Stream(Since(outputs, n)), EventKey, key)| == 0
    ensures ByKey(Stream(outputs), EventKey, key) == ByKey(Stream(outputs[..n]), EventKey, key)
  {
    hide Stream, ByKey;
    var before := outputs[..n];
    StreamJoin(before, Since(outputs, n));
    assert outputs == before + Since(outputs, n);
    ByKeyAppend(Stream(before), Stream(Since(outputs, n)), EventKey, key);
  }

  /** While a key has no events, its alert stays as raised. */
  lemma UnchangedSince(cfg: Config, inputs: seq<Input>, outputs: seq<seq<Event>>, n: nat, key: AlertKey)
    requires IsRun(cfg, inputs, outputs) && n <= |inputs| && |ByKey(Stream(Since(outputs, n)), EventKey, key)| == 0
    ensures MonitorOf(OpenAlert(StateAfter(cfg, inputs[..n]), key)) == MonitorOf(OpenAlert(StateAfter(cfg, inputs), key))
  {
    assert |outputs| == |inputs|;
    NothingSince(outputs, n, key);
    hide IsRun, StateAfter, Stream, OpenAlert, ByKey, HearAll, MonitorOf;
    RunPrefix(cfg, inputs, outputs, n);
    RunHeard(cfg, inputs[..n], outputs[..n], key);
    RunHeard(cfg, inputs, outputs, key);
  }

  // --- what a missed event leaves ---

  /** A page that received a raise and misses the clear behind it shows an alert that is over. */
  lemma MissedClearSticks(cfg: Config, inputs: seq<Input>, outputs: seq<seq<Event>>, v: View, key: AlertKey)
    requires Settled(cfg, inputs, outputs, v)
    requires var offers := ByKey(v.offers, OfferKey, key);
      |offers| >= 2 && !offers[|offers| - 1].taken && offers[|offers| - 2].taken && offers[|offers| - 2].event.kind == Raised
    ensures key in v.picture && OpenAlert(StateAfter(cfg, inputs), key).None?
  {
    hide Settled, StateAfter, Stream, OpenAlert, ByKey;
    var offers := ByKey(v.offers, OfferKey, key);
    assert Trailing(offers) == 1 by { assert Trailing(offers[..|offers| - 1]) == 0; }
    SettledShows(cfg, inputs, outputs, v, key);
    PageIsRightIff(cfg, inputs, outputs, v, key);
  }
}
