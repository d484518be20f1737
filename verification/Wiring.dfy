/** The ingest pipeline and its consumers: every frame handled goes on to the history and the rule engine before the next
    one is taken. What the engine is given, and so every alert, is a function of the frames. */
module Wiring {
  import opened Model
  import opened AlertRules
  import opened AlertRuns
  import opened AlertEngine
  import opened HistoryTables
  import opened BatchLog
  import opened BatchWriter
  import opened EndToEnd
  import Dedup
  import Delivery
  import Ingest
  import WireFormat

  /** The engine's inputs and the records ahead of their events are the calls: a snapshot as it was stored, and a reset
      for each session boundary. */
  predicate Answers(call: Ingest.Call, input: Input, head: Record) {
    match call
    case Nothing => false
    case OnSnapshot(s) => input == Input.Apply(s) && head == Snapshot(s)
    case OnSessionStart(headline, at) =>
      input.Reset? && head.SessionStart? && head.start == at && head.headline == headline
    case OnSessionEnd(at) => input.Reset? && head == SessionEnd(at)
  }

  ghost predicate Answered(calls: seq<Ingest.Call>, inputs: seq<Input>, heads: seq<Record>) {
    && |calls| == |inputs| == |heads|
    && forall i :: 0 <= i < |calls| ==> Answers(calls[i], inputs[i], heads[i])
  }

  // --- what each frame gives, on the frames alone ---

  /** Frames that the engine and the history hear of: stored statistics and session boundaries. */
  predicate Heard(h: Ingest.Handled) {
    (Ingest.IsStatistics(h.frame) && h.stored) || Ingest.IsBoundary(h.frame)
  }

  /** A frame gives the engine its snapshot, with one entry per good, or a reset; and the history the snapshot as well, or
      the boundary with the frame's headline and receive time and the version in force. */
  ghost predicate Gives(log: seq<Ingest.Handled>, i: nat, input: Input, head: Record)
    requires i < |log| && Heard(log[i]) && log[i].since <= i
  {
    var f := log[i].frame;
    match Ingest.Meaning(f).value
    case Version(_) => false
    case SessionStart(headline) =>
      input.Reset? && head == Record.SessionStart(headline, f.receivedAt, Ingest.VersionAt(log, i))
    case SessionEnd => input.Reset? && head == Record.SessionEnd(f.receivedAt)
    case AreaStatistics(s) =>
      && input.Apply? && head == Snapshot(input.snap)
      && input.snap.(products := s.products) == s && Dedup.KeepsLast(s.products, input.snap.products)
  }

  /** Every frame heard of gives one input and one record, in order, and no other frame gives any. */
  ghost predicate Given(log: seq<Ingest.Handled>, inputs: seq<Input>, heads: seq<Record>)
    requires Ingest.Counted(log)
  {
    if log == [] then inputs == [] && heads == []
    else
      var last := |log| - 1;
      if Heard(log[last]) then
        && inputs != [] && heads != []
        && Gives(log, last, inputs[|inputs| - 1], heads[|heads| - 1])
        && Given(log[..last], inputs[..|inputs| - 1], heads[..|heads| - 1])
      else Given(log[..last], inputs, heads)
  }

  lemma GivenGrows(log: seq<Ingest.Handled>, h: Ingest.Handled, inputs: seq<Input>, heads: seq<Record>)
    requires Ingest.Counted(log + [h]) && Ingest.Counted(log) && Given(log, inputs, heads)
    ensures !Heard(h) ==> Given(log + [h], inputs, heads)
    ensures forall input, head :: Heard(h) && Gives(log + [h], |log|, input, head) ==> Given(log + [h], inputs + [input], heads + [head])
  {
    hide Gives, Heard;
    assert (log + [h])[..|log|] == log && (log + [h])[|log|].since <= |log|;
    forall input, head | Heard(h) && Gives(log + [h], |log|, input, head)
      ensures Given(log + [h], inputs + [input], heads + [head])
    {
      assert (inputs + [input])[..|inputs|] == inputs && (heads + [head])[..|heads|] == heads;
    }
  }

  lemma CallsGrow(log: seq<Ingest.Handled>, h: Ingest.Handled)
    ensures Ingest.Calls(log + [h]) == Ingest.Calls(log) + if Ingest.Told(h) == Ingest.Nothing then [] else [Ingest.Told(h)]
  {
    assert (log + [h])[..|log|] == log;
  }

  lemma LogIsCounted(i: Ingest.Pipeline)
    requires i.Valid()
    ensures Ingest.Counted(i.log) && forall n :: 0 <= n < |i.log| ==> Ingest.Lawful(i.log[n])
  {
  }

  /** What is told of a frame is what it must give. */
  lemma CallGives(log: seq<Ingest.Handled>, i: nat, version: int32)
    requires i < |log| && log[i].since <= i
    requires Ingest.IsBoundary(log[i].frame) ==> version == Ingest.VersionAt(log, i)
    requires Ingest.Lawful(log[i])
    ensures match Ingest.Told(log[i])
      case Nothing => !Heard(log[i])
      case OnSnapshot(s) => Heard(log[i]) && Gives(log, i, Input.Apply(s), Snapshot(s))
      case OnSessionStart(headline, at) =>
        Heard(log[i]) && forall now :: Gives(log, i, Input.Reset(now), Record.SessionStart(headline, at, version))
      case OnSessionEnd(at) => Heard(log[i]) && forall now :: Gives(log, i, Input.Reset(now), Record.SessionEnd(at))
  {
    hide WireFormat.Decode, Ingest.VersionAt, Dedup.Collapsed, Dedup.KeepsLast;
    if Ingest.IsStatistics(log[i].frame) {
      Dedup.CollapsedKeepsLast(Ingest.Meaning(log[i].frame).value.snapshot.products);
    }
  }

  class Program {
    const ingest: Ingest.Pipeline
    const delivery: Delivery.Pipeline

    ghost function Side(): set<object>
      reads ingest, ingest.state
    {
      {this, ingest, ingest.state} + ingest.state.Repr
    }

    ghost predicate Apart()
      reads this, ingest, ingest.state, delivery, delivery.engine, delivery.history
    {
      && delivery !in Side() && delivery.engine !in Side() && delivery.history !in Side() && delivery.history.store !in Side()
      && delivery.engine.Repr !! Side() && this !in {ingest, ingest.state} + ingest.state.Repr
    }

    ghost predicate Valid()
      reads this, ingest, ingest.state, ingest.state.Repr
      reads delivery, delivery.engine, delivery.engine.Repr, delivery.history, delivery.history.store
    {
      && Apart() && ingest.Valid() && delivery.Valid()
      && Answered(Ingest.Calls(ingest.log), delivery.engine.inputs, delivery.heads)
      && Given(ingest.log, delivery.engine.inputs, delivery.heads)
    }

    constructor (i: Ingest.Pipeline, d: Delivery.Pipeline)
      requires i.Valid() && i.log == [] && d.Valid() && d.engine.inputs == [] && d.heads == []
      requires {d, d.engine, d.history, d.history.store} + d.engine.Repr !! {i, i.state} + i.state.Repr
      ensures Valid() && ingest == i && delivery == d
    {
      hide Ingest.Pipeline.Valid, Delivery.Pipeline.Valid, Gives, Heard, Answers;
      ingest, delivery := i, d;
    }

    /** Handles the frame in flight: the state first, then the history, the engine and its events. */
    method HandleFrame(now: Time)
      requires Valid() && ingest.inFlight.Some?
      modifies ingest, ingest.state, ingest.state.Repr
      modifies delivery, delivery.engine, delivery.engine.Repr, delivery.history, delivery.history.store
      ensures Valid() && |ingest.log| == |old(ingest.log)| + 1 && ingest.log[..|old(ingest.log)|] == old(ingest.log)
      ensures fresh(ingest.state.Repr - old(ingest.state.Repr))
      ensures fresh(delivery.engine.Repr - old(delivery.engine.Repr))
    {
      hide Ingest.Pipeline.Valid, Delivery.Pipeline.Valid, Ingest.Told, Ingest.Calls, Given, Gives, Heard, Ingest.Lawful,
        Ingest.IsBoundary, Ingest.VersionAt;
      ghost var before, inputs, heads := ingest.log, delivery.engine.inputs, delivery.heads;
      LogIsCounted(ingest);
      var stored, call := ingest.Handle();
      LogIsCounted(ingest);
      ghost var h := ingest.log[|before|];
      CallsGrow(before, h);
      assert ingest.log == before + [h];
      CallGives(ingest.log, |before|, ingest.protocolVersion);
      GivenGrows(before, h, inputs, heads);
      match call {
        case Nothing =>
        case OnSnapshot(s) =>
          delivery.OnSnapshot(s);
        case OnSessionStart(headline, at) =>
          delivery.OnBoundary(SessionStart(headline, at, ingest.protocolVersion), now);
        case OnSessionEnd(at) =>
          delivery.OnBoundary(SessionEnd(at), now);
      }
    }
  }

  // --- what follows ---

  /** The engine's inputs as the calls fix them; a reset's wall-clock time is left open. */
  function InputsOf(calls: seq<Ingest.Call>): seq<Input> {
    seq(|calls|, i requires 0 <= i < |calls| => if calls[i].OnSnapshot? then Input.Apply(calls[i].snap) else Input.Reset(ZeroTime))
  }

  ghost predicate SameUpToClock(a: seq<Input>, b: seq<Input>) {
    |a| == |b| && forall i :: 0 <= i < |a| ==> a[i] == b[i] || (a[i].Reset? && b[i].Reset?)
  }

  /** The wall clock shows in no state. */
  lemma {:induction false} SameState(cfg: Config, a: seq<Input>, b: seq<Input>)
    requires SameUpToClock(a, b)
    ensures StateAfter(cfg, a) == StateAfter(cfg, b)
  {
    if a != [] {
      SameState(cfg, a[..|a| - 1], b[..|b| - 1]);
    }
  }

  /** After any frames, on any connections: the engine's state is what the calls the frames made amount to. */
  lemma StateIsOfFrames(p: Program)
    requires p.Valid()
    ensures StateAfter(p.delivery.engine.cfg, p.delivery.engine.inputs)
      == StateAfter(p.delivery.engine.cfg, InputsOf(Ingest.Calls(p.ingest.log)))
  {
    hide StateAfter, Ingest.Pipeline.Valid, Delivery.Pipeline.Valid, Ingest.Calls;
    SameState(p.delivery.engine.cfg, p.delivery.engine.inputs, InputsOf(Ingest.Calls(p.ingest.log)));
  }

  /** These frames are the ones heard of, in order. */
  ghost predicate HeardAt(log: seq<Ingest.Handled>, at: seq<nat>) {
    && (forall a :: 0 <= a < |at| ==> at[a] < |log| && Heard(log[at[a]]))
    && (forall a, b :: 0 <= a < b < |at| ==> at[a] < at[b])
    && forall i :: 0 <= i < |log| && Heard(log[i]) ==> i in at
  }

  /** Each of these frames gives the input and the record in its place. */
  ghost predicate GivesEach(log: seq<Ingest.Handled>, at: seq<nat>, inputs: seq<Input>, heads: seq<Record>)
    requires Ingest.Counted(log) && HeardAt(log, at)
  {
    |at| == |inputs| == |heads| && forall a :: 0 <= a < |at| ==> Gives(log, at[a], inputs[a], heads[a])
  }

  lemma HeardGrows(log: seq<Ingest.Handled>, h: Ingest.Handled, at: seq<nat>)
    requires HeardAt(log, at)
    ensures HeardAt(log + [h], if Heard(h) then at + [|log|] else at)
  {
    hide Heard;
    var more := log + [h];
    assert forall i :: 0 <= i < |log| ==> more[i] == log[i];
    var next := if Heard(h) then at + [|log|] else at;
    forall i | 0 <= i < |more| && Heard(more[i]) ensures i in next {
      if i == |log| { assert next[|at|] == i; }
    }
  }

  lemma SameGives(log: seq<Ingest.Handled>, h: Ingest.Handled, i: nat, input: Input, head: Record)
    requires i < |log| && Heard(log[i]) && log[i].since <= i
    ensures Gives(log, i, input, head) <==> Gives(log + [h], i, input, head)
  {
    hide Ingest.Meaning, Ingest.InForce, Dedup.KeepsLast;
    assert (log + [h])[i - log[i].since..i] == log[i - log[i].since..i];
  }

  lemma EachKept(log: seq<Ingest.Handled>, h: Ingest.Handled, at: seq<nat>, inputs: seq<Input>, heads: seq<Record>)
    requires Ingest.Counted(log) && HeardAt(log, at) && GivesEach(log, at, inputs, heads)
    requires Ingest.Counted(log + [h])
    ensures forall a :: 0 <= a < |at| ==>
      at[a] < |log| && Heard((log + [h])[at[a]]) && Gives(log + [h], at[a], inputs[a], heads[a])
  {
    hide Gives, Heard;
    forall a | 0 <= a < |at|
      ensures at[a] < |log| && Heard((log + [h])[at[a]]) && Gives(log + [h], at[a], inputs[a], heads[a])
    {
      assert (log + [h])[at[a]] == log[at[a]];
      SameGives(log, h, at[a], inputs[a], heads[a]);
    }
  }

  lemma EachSkips(log: seq<Ingest.Handled>, h: Ingest.Handled, at: seq<nat>, inputs: seq<Input>, heads: seq<Record>)
    requires Ingest.Counted(log) && HeardAt(log, at) && GivesEach(log, at, inputs, heads)
    requires Ingest.Counted(log + [h]) && !Heard(h)
    ensures HeardAt(log + [h], at) && GivesEach(log + [h], at, inputs, heads)
  {
    hide Gives, Heard, HeardAt;
    HeardGrows(log, h, at);
    EachKept(log, h, at, inputs, heads);
  }

  lemma EachAdds(log: seq<Ingest.Handled>, h: Ingest.Handled, at: seq<nat>, inputs: seq<Input>, heads: seq<Record>,
                 input: Input, head: Record)
    requires Ingest.Counted(log) && HeardAt(log, at) && GivesEach(log, at, inputs, heads)
    requires Ingest.Counted(log + [h]) && Heard(h) && h.since <= |log| && Gives(log + [h], |log|, input, head)
    ensures HeardAt(log + [h], at + [|log|])
    ensures GivesEach(log + [h], at + [|log|], inputs + [input], heads + [head])
  {
    hide Gives, Heard, HeardAt;
    HeardGrows(log, h, at);
    EachKept(log, h, at, inputs, heads);
  }

  lemma {:induction false} GivenEach(log: seq<Ingest.Handled>, inputs: seq<Input>, heads: seq<Record>) returns (at: seq<nat>)
    requires Ingest.Counted(log) && Given(log, inputs, heads)
    ensures HeardAt(log, at) && GivesEach(log, at, inputs, heads)
    decreases |log|
  {
    hide Gives, Heard, HeardAt, GivesEach;
    if log == [] {
      at := [];
      NoneHeard();
    } else {
      var init, h := log[..|log| - 1], log[|log| - 1];
      assert log == init + [h];
      if Heard(h) {
        var i := |inputs| - 1;
        at := GivenEach(init, inputs[..i], heads[..|heads| - 1]);
        EachAdds(init, h, at, inputs[..i], heads[..|heads| - 1], inputs[i], heads[|heads| - 1]);
        assert inputs == inputs[..i] + [inputs[i]] && heads == heads[..|heads| - 1] + [heads[|heads| - 1]];
        at := at + [|init|];
      } else {
        at := GivenEach(init, inputs, heads);
        EachSkips(init, h, at, inputs, heads);
      }
    }
  }

  lemma NoneHeard()
    ensures HeardAt([], []) && GivesEach([], [], [], [])
  {
  }

  /** Over every run of frames: the engine's inputs are, in order, one snapshot for each stored statistics frame and one
      reset for each boundary frame, and nothing else, and the history gets that snapshot, or that boundary with its
      frame's headline and receive time and the version in force. */
  lemma InputsAreFrames(p: Program) returns (at: seq<nat>)
    requires p.Valid()
    ensures Ingest.Counted(p.ingest.log) && HeardAt(p.ingest.log, at)
    ensures GivesEach(p.ingest.log, at, p.delivery.engine.inputs, p.delivery.heads)
  {
    hide Ingest.Calls, Given, Gives, Heard, HeardAt, GivesEach, Delivery.Pipeline.Valid;
    LogIsCounted(p.ingest);
    at := GivenEach(p.ingest.log, p.delivery.engine.inputs, p.delivery.heads);
  }

  /** Right after a session boundary, start or end, no alert is open. */
  lemma BoundaryClosesAll(p: Program, key: AlertKey)
    requires p.Valid() && p.ingest.log != [] && Ingest.IsBoundary(p.ingest.log[|p.ingest.log| - 1].frame)
    ensures OpenAlert(StateAfter(p.delivery.engine.cfg, p.delivery.engine.inputs), key).None?
  {
    hide Ingest.Calls, Delivery.Pipeline.Valid, WireFormat.Decode;
    LogIsCounted(p.ingest);
  }

  /** From the frames to the database: with the queue empty, nothing refused and no write failed, a key has one open alert
      row, with the time of its raise, exactly when the frames handled so far leave its alert open, and none otherwise. */
  lemma TableShowsFrames(p: Program, key: AlertKey)
    requires p.Valid()
    requires var h := p.delivery.history;
      h.queue == [] && h.refused == [] && AllOk(h.log) && WellFormed(h.start) && NoOpenRows(h.start)
    ensures
      var open := OpenAlert(StateAfter(p.delivery.engine.cfg, InputsOf(Ingest.Calls(p.ingest.log))), key);
      var rows := OpenRows(p.delivery.history.store.Contents(), key);
      if open.None? then rows == [] else |rows| == 1 && rows[0].raisedAt == Millis(open.value.raisedAt)
  {
    hide StateAfter, Ingest.Pipeline.Valid, Delivery.Pipeline.Valid, Ingest.Calls, OpenAlert, OpenRows, AllOk, WellFormed,
      NoOpenRows, Answered;
    StateIsOfFrames(p);
    Delivery.TableMatches(p.delivery, key);
  }
}
