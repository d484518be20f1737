/** The ingest pipeline's version gate across reconnects. The source's goroutine connects and hands frames over; the
    pipeline's goroutine handles one frame at a time. A frame that was handed over may be handled after the next
    connection has begun. */
module Ingest {
  import opened Model
  import opened Sorting
  import opened WireFormat
  import WireCodec
  import WireLayout
  import TickTracker
  import Dedup

  datatype Frame = Frame(receivedAt: Time, payload: bytes)

  datatype Stats = Stats(frames: nat, snapshots: nat, decodeErrors: nat, versionDropped: nat, duplicateProducts: nat)

  function Meaning(f: Frame): Result<Message, DecodeError> { WireFormat.Decode(f.payload, f.receivedAt) }

  /** What handling a frame does: nothing can be made of it, or one of the message kinds. */
  predicate IsVersion(f: Frame) { Meaning(f).Ok? && Meaning(f).value.Version? }

  predicate IsBoundary(f: Frame) { Meaning(f).Ok? && (Meaning(f).value.SessionStart? || Meaning(f).value.SessionEnd?) }

  predicate IsStatistics(f: Frame) { Meaning(f).Ok? && Meaning(f).value.AreaStatistics? }

  /** The version a connection announced last among its first frames. */
  function Announced(frames: seq<Frame>): Option<int32> {
    if frames == [] then None
    else if IsVersion(frames[|frames| - 1]) then Some(Meaning(frames[|frames| - 1]).value.version)
    else Announced(frames[..|frames| - 1])
  }

  /** A frame as it was handled: whether its connection was still the newest, what that connection had announced before
      it, whether its statistics were stored, and how many frames had been handled since the newest connection began. */
  datatype Handled = Handled(frame: Frame, stale: bool, announced: Option<int32>, stored: bool, since: nat)

  /** The version that the last of these frames announced, of whatever connection; zero before any. */
  function InForce(log: seq<Handled>): int32 {
    if log == [] then 0
    else if IsVersion(log[|log| - 1].frame) then Meaning(log[|log| - 1].frame).value.version
    else InForce(log[..|log| - 1])
  }

  /** The version in force when a frame was handled. */
  function VersionAt(log: seq<Handled>, i: nat): int32
    requires i < |log| && log[i].since <= i
  {
    InForce(log[i - log[i].since..i])
  }

  /** No frame was handled since a connection that began before all of them. */
  ghost predicate Counted(log: seq<Handled>) {
    forall i :: 0 <= i < |log| ==> log[i].since <= i
  }

  /** The gate's law. A statistics frame of the newest connection, once that has announced a version, is stored exactly
      when the version is supported; a frame left over from an older connection is always stored. */
  predicate Lawful(h: Handled) {
    if !IsStatistics(h.frame) then !h.stored
    else if h.stale then h.stored
    else h.announced.Some? ==> (h.stored <==> h.announced.value == SUPPORTED_VERSION)
  }

  /** What the state is given: one entry per good. */
  function Cleaned(s: IslandSnapshot): IslandSnapshot { s.(products := Dedup.Collapsed(s.products)) }

  /** What the pipeline tells those that listen to it. */
  datatype Call =
    | Nothing
    | OnSnapshot(snap: IslandSnapshot)
    | OnSessionStart(headline: seq<byte>, at: Time)
    | OnSessionEnd(at: Time)

  /** A stored snapshot is handed on with one entry per good; a session's start and end carry the frame's time. */
  function Told(h: Handled): Call {
    if Meaning(h.frame).Err? then Nothing
    else
      match Meaning(h.frame).value
      case Version(_) => Nothing
      case SessionStart(headline) => OnSessionStart(headline, h.frame.receivedAt)
      case SessionEnd => OnSessionEnd(h.frame.receivedAt)
      case AreaStatistics(s) => if h.stored then OnSnapshot(Cleaned(s)) else Nothing
  }

  /** The calls that the frames handled so far made, in order. */
  function Calls(log: seq<Handled>): seq<Call> {
    if log == [] then []
    else
      Calls(log[..|log| - 1]) + if Told(log[|log| - 1]) == Nothing then [] else [Told(log[|log| - 1])]
  }

  function Count(t: Stats, h: Handled): Stats {
    var seen := t.(frames := t.frames + 1);
    if Meaning(h.frame).Err? then seen.(decodeErrors := t.decodeErrors + 1)
    else if !IsStatistics(h.frame) then seen
    else if h.stored then
      seen.(snapshots := t.snapshots + 1,
            duplicateProducts := t.duplicateProducts + Dropped(Meaning(h.frame).value.snapshot.products))
    else seen.(versionDropped := t.versionDropped + 1)
  }

  function Tally(log: seq<Handled>): Stats {
    if log == [] then Stats(0, 0, 0, 0, 0) else Count(Tally(log[..|log| - 1]), log[|log| - 1])
  }

  function Dropped(products: seq<ProductStat>): nat
    ensures Dropped(products) == |products| - |Dedup.Collapsed(products)|
  {
    Dedup.KeptCount(products, |products|);
    |products| - |Dedup.Collapsed(products)|
  }

  function PutNext(puts: seq<IslandSnapshot>, h: Handled): seq<IslandSnapshot> {
    if IsBoundary(h.frame) then []
    else if IsStatistics(h.frame) && h.stored then puts + [Cleaned(Meaning(h.frame).value.snapshot)]
    else puts
  }

  /** Everything put into the state since the last session boundary. */
  function PutsOf(log: seq<Handled>): seq<IslandSnapshot> {
    if log == [] then [] else PutNext(PutsOf(log[..|log| - 1]), log[|log| - 1])
  }

  lemma LogGrows(log: seq<Handled>, h: Handled)
    ensures Tally(log + [h]) == Count(Tally(log), h)
    ensures PutsOf(log + [h]) == PutNext(PutsOf(log), h)
  {
    assert (log + [h])[..|log|] == log;
  }

  class Pipeline {
    const state: TickTracker.State
    var versionRejected: bool
    var protocolVersion: int32
    var stats: Stats
    var inFlight: Option<Frame>

    // The newest connection's frames so far, what the frame in flight follows on its own connection, and whether that
    // connection has been replaced.
    ghost var handed: seq<Frame>
    ghost var inFlightAfter: seq<Frame>
    ghost var inFlightStale: bool
    ghost var log: seq<Handled>
    // How many frames were handled since the newest connection began.
    ghost var since: nat

    /** The newest connection's frames that have been handled. */
    ghost function Done(): seq<Frame>
      reads this
    {
      if inFlight.Some? && !inFlightStale then inFlightAfter else handed
    }

    ghost predicate Gate()
      reads this
    {
      && (inFlight.Some? && !inFlightStale ==> handed == inFlightAfter + [inFlight.value])
      && (inFlight.Some? && inFlightStale ==> handed == [] && !versionRejected)
      && (Announced(Done()).Some? ==> (versionRejected <==> Announced(Done()).value != SUPPORTED_VERSION))
      && since <= |log| && protocolVersion == InForce(log[|log| - since..])
    }

    ghost predicate Valid()
      reads this, state, state.Repr
    {
      && this !in state.Repr && state.Valid()
      && Gate()
      && (forall h :: h in log ==> Lawful(h)) && Counted(log)
      && stats == Tally(log)
      && state.puts == PutsOf(log)
    }

    constructor (s: TickTracker.State)
      requires s.Valid() && s.puts == []
      ensures Valid() && state == s && log == [] && inFlight == None && protocolVersion == 0
    {
      hide Announced, InForce, Tally, PutsOf, TickTracker.State.Valid, Meaning;
      NothingHandled();
      state := s;
      versionRejected, protocolVersion, stats, inFlight := false, 0, Stats(0, 0, 0, 0, 0), None;
      handed, inFlightAfter, inFlightStale, log, since := [], [], false, [], 0;
      new;
      assert this !in s.Repr;
    }

    /** The source is connected: the gate opens before any frame of the new connection is handed over. */
    method Connected()
      requires Valid()
      modifies this
      ensures Valid() && log == old(log) && inFlight == old(inFlight) && inFlightAfter == old(inFlightAfter)
      ensures inFlight.Some? ==> inFlightStale
      ensures handed == []
    {
      hide Announced, Tally, PutsOf, Lawful, TickTracker.State.Valid;
      versionRejected, protocolVersion, since := false, 0, 0;
      handed := [];
      inFlightStale := true;
      NothingAnnounced();
    }

    /** The source hands over the next frame of its connection: the pipeline takes one at a time. */
    method Hand(f: Frame)
      requires Valid() && inFlight.None?
      modifies this
      ensures Valid() && log == old(log) && inFlight == Some(f) && !inFlightStale
      ensures inFlightAfter == old(handed) && handed == old(handed) + [f]
    {
      hide Announced, Tally, PutsOf, Lawful, TickTracker.State.Valid;
      inFlight, inFlightStale, inFlightAfter := Some(f), false, handed;
      handed := handed + [f];
    }

    /** What has become of the frame in flight. */
    ghost function Outcome(stored: bool): Handled
      requires inFlight.Some?
      reads this
    {
      Handled(inFlight.value, inFlightStale, Announced(inFlightAfter), stored, since)
    }

    /** Records, decodes and applies the frame in flight. */
    method Handle() returns (stored: bool, call: Call)
      requires Valid() && inFlight.Some?
      modifies this, state, state.Repr
      ensures Valid() && fresh(state.Repr - old(state.Repr))
      ensures inFlight.None? && handed == old(handed)
      ensures log == old(log) + [old(Outcome(false)).(stored := stored)]
      ensures call == Told(log[|log| - 1])
      ensures IsBoundary(log[|log| - 1].frame) ==> protocolVersion == VersionAt(log, |log| - 1)
    {
      hide WireLayout.Carries, Announced, InForce, VersionAt, Counted, Tally, PutsOf, Dedup.Collapsed, Cleaned, Dropped,
        WireFormat.Decode, TickTracker.State.Valid, Lawful;
      var frame := inFlight.value;
      stats := stats.(frames := stats.frames + 1);
      var decoded := WireCodec.Decode(frame.payload, frame.receivedAt);
      stored, call := false, Nothing;
      if decoded.Ok? {
        stored, call := HandleMessage(decoded.value, frame.receivedAt);
      } else {
        stats := stats.(decodeErrors := stats.decodeErrors + 1);
      }
      ghost var h := old(Outcome(false)).(stored := stored);
      GateIsLaw(h, old(versionRejected));
      Conclude(h);
    }

    /** The frame in flight is done with. */
    method Conclude(ghost h: Handled)
      requires inFlight.Some? && this !in state.Repr && state.Valid() && h == Outcome(h.stored)
      requires if inFlightStale then handed == [] else handed == inFlightAfter + [inFlight.value]
      requires IsVersion(h.frame) ==> (versionRejected <==> Meaning(h.frame).value.version != SUPPORTED_VERSION)
      requires !IsVersion(h.frame) && !inFlightStale && Announced(inFlightAfter).Some? ==>
        (versionRejected <==> Announced(inFlightAfter).value != SUPPORTED_VERSION)
      requires since <= |log| && Counted(log) && Lawful(h) && forall x :: x in log ==> Lawful(x)
      requires protocolVersion
        == if IsVersion(h.frame) then Meaning(h.frame).value.version else InForce(log[|log| - since..])
      requires stats == Count(Tally(log), h) && state.puts == PutNext(PutsOf(log), h)
      modifies this`log, this`since, this`inFlight
      ensures Valid() && inFlight.None? && log == old(log) + [h]
      ensures IsBoundary(h.frame) ==> protocolVersion == VersionAt(log, |log| - 1)
    {
      hide Announced, InForce, VersionAt, Counted, Tally, Count, PutsOf, PutNext, TickTracker.State.Valid, Lawful, Meaning;
      NoBoundaryIsVersion(h.frame);
      LogGrows(log, h);
      VersionGrows(log, since, h);
      AnnouncedGrows(inFlightAfter, inFlight.value);
      NothingAnnounced();
      since := since + 1;
      log := log + [h];
      inFlight := None;
    }

    method HandleMessage(m: Message, at: Time) returns (stored: bool, call: Call)
      requires this !in state.Repr && state.Valid()
      modifies this`versionRejected, this`protocolVersion, this`stats, state, state.Repr
      ensures state.Valid() && fresh(state.Repr - old(state.Repr)) && this !in state.Repr
      ensures versionRejected <==> if m.Version? then m.version != SUPPORTED_VERSION else old(versionRejected)
      ensures protocolVersion == if m.Version? then m.version else old(protocolVersion)
      ensures stored == (m.AreaStatistics? && !old(versionRejected))
      ensures call == match m
        case Version(_) => Nothing
        case SessionStart(headline) => OnSessionStart(headline, at)
        case SessionEnd => OnSessionEnd(at)
        case AreaStatistics(s) => if stored then OnSnapshot(Cleaned(s)) else Nothing
      ensures state.puts == match m
        case Version(_) => old(state.puts)
        case SessionStart(_) => []
        case SessionEnd => []
        case AreaStatistics(s) => if stored then old(state.puts) + [Cleaned(s)] else old(state.puts)
      ensures stats ==
        if !m.AreaStatistics? then old(stats)
        else if stored then
          old(stats).(snapshots := old(stats).snapshots + 1,
                      duplicateProducts := old(stats).duplicateProducts + Dropped(m.snapshot.products))
        else old(stats).(versionDropped := old(stats).versionDropped + 1)
    {
      hide Dedup.Collapsed, Cleaned, Dropped, TickTracker.State.Valid;
      stored, call := false, Nothing;
      match m {
        case Version(v) =>
          HandleVersion(v);
        case SessionStart(headline) =>
          state.Reset();
          call := OnSessionStart(headline, at);
        case SessionEnd =>
          state.Reset();
          call := OnSessionEnd(at);
        case AreaStatistics(s) =>
          stored, call := HandleStatistics(s);
      }
    }

    method HandleVersion(v: int32)
      modifies this`versionRejected, this`protocolVersion
      ensures versionRejected <==> v != SUPPORTED_VERSION
      ensures protocolVersion == v
    {
      versionRejected := v != SUPPORTED_VERSION;
      protocolVersion := v;
    }

    /** Stores the snapshot, one entry per good, unless the gate is shut. */
    method HandleStatistics(s: IslandSnapshot) returns (stored: bool, call: Call)
      requires this !in state.Repr && state.Valid()
      modifies this`stats, state, state.Repr
      ensures state.Valid() && fresh(state.Repr - old(state.Repr)) && this !in state.Repr
      ensures stored == !versionRejected && call == if stored then OnSnapshot(Cleaned(s)) else Nothing
      ensures state.puts == if stored then old(state.puts) + [Cleaned(s)] else old(state.puts)
      ensures stats == if stored then
          old(stats).(snapshots := old(stats).snapshots + 1,
                      duplicateProducts := old(stats).duplicateProducts + Dropped(s.products))
        else old(stats).(versionDropped := old(stats).versionDropped + 1)
    {
      hide Dedup.Collapsed, TickTracker.Receiving, TickTracker.Complete;
      if versionRejected {
        stats := stats.(versionDropped := stats.versionDropped + 1);
        return false, Nothing;
      }
      stats := stats.(snapshots := stats.snapshots + 1);
      var products := new ProductStat[|s.products|](i requires 0 <= i < |s.products| => s.products[i]);
      assert products[..] == s.products;
      var kept, dropped := Dedup.CollapseDuplicates(products);
      stats := stats.(duplicateProducts := stats.duplicateProducts + dropped);
      var cleaned := s.(products := products[..kept]);
      state.Put(cleaned);
      return true, OnSnapshot(cleaned);
    }
  }

  lemma GateIsLaw(h: Handled, rejected: bool)
    requires h.stored == (IsStatistics(h.frame) && !rejected)
    requires h.stale ==> !rejected
    requires !h.stale && h.announced.Some? ==> (rejected <==> h.announced.value != SUPPORTED_VERSION)
    ensures Lawful(h)
  {
    hide Meaning;
  }

  lemma NoBoundaryIsVersion(f: Frame)
    ensures IsBoundary(f) ==> !IsVersion(f)
  {
    hide Meaning;
  }

  lemma NothingHandled()
    ensures Announced([]) == None && InForce([]) == 0 && Tally([]) == Stats(0, 0, 0, 0, 0) && PutsOf([]) == []
  {
  }

  lemma NothingAnnounced()
    ensures Announced([]) == None
  {
  }

  lemma {:induction false} InForceIs(log: seq<Handled>, j: nat)
    requires j <= |log| && forall k :: j < k < |log| ==> !IsVersion(log[k].frame)
    ensures j < |log| && IsVersion(log[j].frame) ==> InForce(log) == Meaning(log[j].frame).value.version
    ensures j == |log| && (forall k :: 0 <= k < |log| ==> !IsVersion(log[k].frame)) ==> InForce(log) == 0
  {
    hide Meaning;
    if log != [] && !IsVersion(log[|log| - 1].frame) {
      InForceIs(log[..|log| - 1], if j < |log| then j else j - 1);
    }
  }

  /** The version in force is that of the last version frame handled since the newest connection began, and zero while
      there is none. */
  lemma VersionIs(log: seq<Handled>, i: nat, j: nat)
    requires i < |log| && log[i].since <= i && i - log[i].since <= j <= i
    requires forall k :: j < k < i ==> !IsVersion(log[k].frame)
    ensures j < i && IsVersion(log[j].frame) ==> VersionAt(log, i) == Meaning(log[j].frame).value.version
    ensures j == i && (forall k :: i - log[i].since <= k < i ==> !IsVersion(log[k].frame)) ==> VersionAt(log, i) == 0
  {
    hide IsVersion, Meaning;
    var from := i - log[i].since;
    var recent := log[from..i];
    assert forall k :: 0 <= k < |recent| ==> recent[k] == log[from + k];
    InForceIs(recent, j - from);
  }

  lemma VersionGrows(log: seq<Handled>, since: nat, h: Handled)
    requires Counted(log) && since == h.since && since <= |log|
    ensures Counted(log + [h]) && VersionAt(log + [h], |log|) == InForce(log[|log| - since..])
    ensures InForce((log + [h])[|log| - since..])
      == if IsVersion(h.frame) then Meaning(h.frame).value.version else InForce(log[|log| - since..])
  {
    var recent := log[|log| - since..];
    assert (log + [h])[|log| - since..] == recent + [h] && (recent + [h])[..|recent|] == recent;
    assert (log + [h])[|log| - since..|log|] == recent;
    hide Meaning;
  }

  lemma AnnouncedGrows(frames: seq<Frame>, f: Frame)
    ensures Announced(frames + [f]) == if IsVersion(f) then Some(Meaning(f).value.version) else Announced(frames)
  {
    assert (frames + [f])[..|frames|] == frames;
  }

  /** What became of a frame: nothing could be made of it, it announced a version or a session's start or end, or its
      statistics were stored or refused. */
  datatype Class = Undecodable | Control | Stored | Refused

  function ClassOf(h: Handled): Class {
    if Meaning(h.frame).Err? then Undecodable
    else if !IsStatistics(h.frame) then Control
    else if h.stored then Stored
    else Refused
  }

  /** The frames of one class, in the order in which they were handled. */
  function OfClass(log: seq<Handled>, c: Class): seq<Handled> { ByKey(log, ClassOf, c) }

  /** The frames handled since the last session boundary. */
  function SinceBoundary(log: seq<Handled>): seq<Handled> {
    if log == [] || IsBoundary(log[|log| - 1].frame) then [] else SinceBoundary(log[..|log| - 1]) + [log[|log| - 1]]
  }

  lemma ClassGrows(log: seq<Handled>, h: Handled, c: Class)
    ensures OfClass(log + [h], c) == OfClass(log, c) + if ClassOf(h) == c then [h] else []
  {
    hide ClassOf;
    ByKeyAppend(log, [h], ClassOf, c);
    assert [h][1..] == [];
  }

  /** How many entries of these stored messages have a later one of the same good in their message. */
  ghost function Superseded(stored: seq<Handled>): nat {
    if stored == [] then 0
    else
      var m := Meaning(stored[|stored| - 1].frame);
      Superseded(stored[..|stored| - 1])
      + if m.Ok? && m.value.AreaStatistics? then |Dedup.SupersededIn(m.value.snapshot.products)| else 0
  }

  lemma SupersededGrows(stored: seq<Handled>, h: Handled)
    requires IsStatistics(h.frame)
    ensures Superseded(stored + [h]) == Superseded(stored) + |Dedup.SupersededIn(Meaning(h.frame).value.snapshot.products)|
  {
    assert (stored + [h])[..|stored|] == stored;
  }

  lemma CountsDuplicates(t: Stats, h: Handled)
    ensures Count(t, h).duplicateProducts == t.duplicateProducts
      + if ClassOf(h) == Stored then |Dedup.SupersededIn(Meaning(h.frame).value.snapshot.products)| else 0
  {
    hide Meaning;
    if ClassOf(h) == Stored {
      Dedup.SupersededAre(Meaning(h.frame).value.snapshot.products);
    }
  }

  lemma StoredIsStatistics(h: Handled)
    ensures ClassOf(h) == Stored ==> IsStatistics(h.frame)
  {
    hide Meaning;
  }

  /** Every entry of a stored message that a later one of its good replaced is counted. */
  lemma {:induction false} DuplicatesAccounted(log: seq<Handled>)
    ensures Tally(log).duplicateProducts == Superseded(OfClass(log, Stored))
  {
    if log != [] {
      hide OfClass, Count, ClassOf, IsStatistics, Superseded;
      var init, h := log[..|log| - 1], log[|log| - 1];
      assert log == init + [h];
      DuplicatesAccounted(init);
      ClassGrows(init, h, Stored);
      CountsDuplicates(Tally(init), h);
      StoredIsStatistics(h);
      if ClassOf(h) == Stored {
        SupersededGrows(OfClass(init, Stored), h);
      } else {
        assert OfClass(init, Stored) + [] == OfClass(init, Stored);
      }
    } else {
      NothingSuperseded();
    }
  }

  lemma NothingSuperseded()
    ensures Superseded(OfClass([], Stored)) == 0
  {
  }

  /** Every frame is counted as handled and, unless it announced something, in exactly one of the other counters. */
  lemma {:induction false} FramesAccounted(log: seq<Handled>)
    ensures var t := Tally(log);
      && t.frames == |log|
      && t.decodeErrors == |OfClass(log, Undecodable)|
      && t.snapshots == |OfClass(log, Stored)|
      && t.versionDropped == |OfClass(log, Refused)|
      && |log| == t.decodeErrors + t.snapshots + t.versionDropped + |OfClass(log, Control)|
  {
    if log != [] {
      var init, h := log[..|log| - 1], log[|log| - 1];
      assert log == init + [h];
      FramesAccounted(init);
      ClassGrows(init, h, Undecodable);
      ClassGrows(init, h, Stored);
      ClassGrows(init, h, Refused);
      ClassGrows(init, h, Control);
      hide OfClass, Meaning, Dropped;
    }
  }

  /** The state was given exactly the snapshots counted as stored since the last session boundary, in order, each with
      one entry per good. */
  lemma {:induction false} PutsAreStored(log: seq<Handled>)
    ensures var stored := OfClass(SinceBoundary(log), Stored);
      && |PutsOf(log)| == |stored|
      && forall i :: 0 <= i < |stored| ==>
           IsStatistics(stored[i].frame) && PutsOf(log)[i] == Cleaned(Meaning(stored[i].frame).value.snapshot)
  {
    if log != [] {
      var init, h := log[..|log| - 1], log[|log| - 1];
      PutsAreStored(init);
      ClassGrows(SinceBoundary(init), h, Stored);
      hide OfClass, Meaning, Cleaned;
    }
  }

  /** The gate's law over a whole run: a decodable statistics frame handled while its own connection is the newest, and
      after that connection announced a version, is stored exactly when the version is supported. */
  lemma GateLaw(p: Pipeline, h: Handled)
    requires p.Valid() && h in p.log && IsStatistics(h.frame)
    ensures !h.stale && h.announced.Some? ==> (h.stored <==> h.announced.value == 2)
    ensures h.stale ==> h.stored
  {
    hide Tally, PutsOf;
    assert Lawful(h);
  }

  /** Why the law is limited to the newest connection: a frame received on a connection whose version is not supported
      is stored when it is handled after the next connection has begun. */
  method StaleFrameIsStored(p: Pipeline, version: Frame, statistics: Frame) returns (stored: bool)
    requires p.Valid() && p.inFlight.None? && p.log == []
    requires IsVersion(version) && Meaning(version).value.version != SUPPORTED_VERSION && IsStatistics(statistics)
    modifies p, p.state, p.state.Repr
    ensures p.Valid() && stored
    ensures |p.log| == 2 && p.log[1].frame == statistics && p.log[1].announced == Some(Meaning(version).value.version)
  {
    hide Tally, PutsOf, Meaning, Announced, InForce, VersionAt, Counted, Told, Pipeline.Gate, TickTracker.State.Valid;
    p.Connected();
    p.Hand(version);
    var first, told := p.Handle();
    p.Hand(statistics);
    p.Connected();
    stored, told := p.Handle();
    AnnouncedGrows([], version);
    assert [] + [version] == [version];
    assert p.log[1] in p.log;
    assert Lawful(p.log[1]);
  }
}
