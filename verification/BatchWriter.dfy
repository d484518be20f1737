/** The batch writer: a bounded queue any number of producers fill, and one goroutine that empties it into the
    database. Each method is one atomic step; what Valid says holds in every interleaving of them. */
module BatchWriter {
  import opened Model
  import opened HistoryTables
  import opened BatchLog
  import AlertRules

  const BATCH_QUEUE: nat := 1024
  const BATCH_SIZE: nat := 64

  /** Drained is after the queue was found empty following the stop signal; nothing is taken from it any more. */
  datatype Phase = Running | Draining | Drained | Returned

  class Batcher {
    const store: HistoryStore
    var queue: seq<Record>
    var pending: seq<IslandSnapshot>
    var sessionId: RowId
    var sessionUp: bool
    var dropped: nat
    var lastErr: Option<Op>
    var phase: Phase

    ghost const start: Db
    // Submitted by the producers, accepted by the queue, taken from it, refused by it.
    ghost var submitted: seq<Record>
    ghost var accepted: seq<Record>
    ghost var taken: seq<Record>
    ghost var refused: seq<Record>
    ghost var log: seq<Attempt>
    // When the session still running at the end was ended.
    ghost var closing: Time

    ghost predicate Sound()
      reads this, store
    {
      && accepted == taken + queue && |queue| <= BATCH_QUEUE
      && Submitted(accepted, refused, submitted)
      && Accounts(start, log, store.Contents(), |refused|, dropped, lastErr, sessionId, sessionUp)
    }

    ghost predicate Valid()
      reads this, store
    {
      && Sound()
      && (phase != Returned ==> |pending| < BATCH_SIZE && Ordered(log, pending, taken, sessionUp))
      && (phase == Returned ==>
            pending == [] && !sessionUp && Tried(log) == SnapshotsOf(taken) && TriedAlerts(log) == AlertsOf(taken)
            && (AllOk(log) ==> Flat(log) == Effects(taken).0 + if Effects(taken).1 then [Ended(closing)] else []))
    }

    constructor (s: HistoryStore)
      ensures Valid() && store == s && start == s.Contents() && phase == Running
      ensures submitted == [] && accepted == [] && refused == [] && log == []
    {
      store, start := s, s.Contents();
      queue, pending, sessionId, sessionUp, dropped, lastErr, phase := [], [], 0, false, 0, None, Running;
      submitted, accepted, taken, refused, log, closing := [], [], [], [], [], ZeroTime;
      NothingSubmitted();
    }

    /** Nothing but the log, the losses and the database changes while a record is being written. */
    twostate predicate OnlyWrites()
      reads this
    {
      queue == old(queue) && accepted == old(accepted) && taken == old(taken) && refused == old(refused) && phase == old(phase)
      && submitted == old(submitted)
    }

    // --- producers ---

    /** Never blocks: a full queue drops the record and counts it. */
    method Enqueue(r: Record)
      requires Valid()
      modifies this`queue, this`dropped, this`submitted, this`accepted, this`refused
      ensures Valid() && submitted == old(submitted) + [r]
      ensures if |old(queue)| < 1024 then
                queue == old(queue) + [r] && accepted == old(accepted) + [r] && refused == old(refused)
              else queue == old(queue) && accepted == old(accepted) && refused == old(refused) + [r]
    {
      hide Submitted, Accounts, Ordered, Flat, Effects, Tried, TriedAlerts, SnapshotsOf, AlertsOf, AllOk;
      SubmittedGrows(accepted, refused, submitted, r);
      submitted := submitted + [r];
      assert accepted + [r] == taken + (queue + [r]);
      if |queue| < BATCH_QUEUE {
        queue := queue + [r];
        accepted := accepted + [r];
      } else {
        DropCounted(start, log, store.Contents(), |refused|, dropped, lastErr, sessionId, sessionUp);
        dropped := dropped + 1;
        refused := refused + [r];
      }
    }

    // --- the writing goroutine ---

    method Flush() returns (ok: bool)
      requires Sound()
      modifies this, store
      ensures Sound() && OnlyWrites() && sessionUp == old(sessionUp) && sessionId == old(sessionId)
      ensures pending == []
      ensures log == old(log) + if old(pending) == [] then [] else [Attempt(Store(old(pending)), ok)]
    {
      hide Submitted, Accounts, Applied;
      if pending == [] {
        return true;
      }
      ghost var before := store.Contents();
      ok := store.WriteSnapshots(pending);
      AccountsWrite(start, log, before, |refused|, dropped, lastErr, sessionId, sessionUp, Attempt(Store(pending), ok));
      log := log + [Attempt(Store(pending), ok)];
      if !ok {
        dropped, lastErr := dropped + |pending|, Some(Store(pending));
      }
      pending := [];
    }

    method EndSession(at: Time) returns (ok: bool)
      requires Sound()
      modifies this, store
      ensures Sound() && OnlyWrites() && pending == old(pending)
      ensures !sessionUp && store.lastSample == old(store.lastSample)
      ensures log == old(log) + EndAttempts(old(sessionUp), old(sessionId), at, ok)
    {
      hide Submitted, Accounts, Applied;
      if !sessionUp {
        return true;
      }
      sessionUp := false;
      ghost var before := store.Contents();
      ok := store.EndSession(sessionId, at);
      AccountsEnd(start, log, before, |refused|, dropped, lastErr, sessionId, at, ok);
      log := log + [Attempt(Finish(sessionId, at), ok)];
      if !ok {
        dropped, lastErr := dropped + 1, Some(Finish(sessionId, at));
      }
    }

    method StartSession(r: Record) returns (ended: bool, ok: bool)
      requires Sound() && r.SessionStart?
      modifies this, store
      ensures Sound() && OnlyWrites() && pending == old(pending)
      ensures sessionUp == ok
      ensures log == old(log) + EndAttempts(old(sessionUp), old(sessionId), r.start, ended)
                     + [Attempt(Begin(r.start, r.version, r.headline), ok)]
    {
      hide Submitted, Accounts, Applied, EndAttempts;
      ended := EndSession(r.start);
      ghost var before := store.Contents();
      var id;
      id, ok := store.StartSession(r.start, r.version, r.headline);
      AccountsBegin(start, log, before, |refused|, dropped, lastErr, sessionId, r.start, r.version, r.headline, ok);
      log := log + [Attempt(Begin(r.start, r.version, r.headline), ok)];
      if ok {
        sessionId, sessionUp := id, true;
      } else {
        dropped, lastErr := dropped + 1, Some(Begin(r.start, r.version, r.headline));
      }
    }

    method WriteAlert(e: AlertRules.Event) returns (ok: bool)
      requires Sound()
      modifies this, store
      ensures Sound() && OnlyWrites() && pending == old(pending) && sessionUp == old(sessionUp)
      ensures log == old(log) + [Attempt(AlertOp(e), ok)]
    {
      hide Submitted, Accounts, Applied;
      ghost var before := store.Contents();
      match e.kind {
        case Raised => ok := store.RaiseAlert(e.alert);
        case Cleared => ok := store.ClearAlert(e.alert);
      }
      AccountsWrite(start, log, before, |refused|, dropped, lastErr, sessionId, sessionUp, Attempt(AlertOp(e), ok));
      log := log + [Attempt(AlertOp(e), ok)];
      if !ok {
        dropped, lastErr := dropped + 1, Some(AlertOp(e));
      }
    }

    /** A flush between records: it never shows in the order. */
    method FlushInOrder()
      requires Valid() && phase != Returned
      modifies this, store
      ensures Valid() && OnlyWrites() && pending == [] && sessionUp == old(sessionUp) && sessionId == old(sessionId)
      ensures old(log) <= log
    {
      hide Submitted, Accounts, Ordered;
      var ok := Flush();
      if old(pending) != [] {
        OrderedFlush(old(log), old(pending), taken, sessionUp, ok);
      } else {
        assert log == old(log);
      }
    }

    /** Records one taken record. Session boundaries and alerts flush the snapshots that came before them. */
    method Apply(r: Record)
      requires Sound() && phase != Returned
      requires |pending| < BATCH_SIZE && taken != [] && taken[|taken| - 1] == r
      requires Ordered(log, pending, taken[..|taken| - 1], sessionUp)
      modifies this, store
      ensures Valid() && OnlyWrites() && old(log) <= log
      ensures pending == if r.Snapshot? && |old(pending)| < 63 then old(pending) + [r.snap] else []
    {
      hide Submitted, Accounts, Ordered, EndAttempts, Flat, Effects, Tried, TriedAlerts, SnapshotsOf, AlertsOf, AllOk;
      ghost var before := taken[..|taken| - 1];
      assert taken == before + [r];
      if r.Snapshot? {
        OrderedSnapshot(log, pending, before, sessionUp, r.snap);
        pending := pending + [r.snap];
        if |pending| >= BATCH_SIZE {
          OrderedFlush(log, pending, taken, sessionUp, false);
          OrderedFlush(log, pending, taken, sessionUp, true);
          var ok := Flush();
        }
        return;
      }
      if pending != [] {
        OrderedFlush(log, pending, before, sessionUp, false);
        OrderedFlush(log, pending, before, sessionUp, true);
      }
      var flushed := Flush();
      assert old(pending) == [] ==> log == old(log);
      ghost var flushedLog, up, id := log, sessionUp, sessionId;
      assert Ordered(flushedLog, [], before, up);
      match r {
        case SessionStart(_, _, _) =>
          var ended, ok := StartSession(r);
          OrderedStart(flushedLog, before, up, id, r, ended, ok);
        case SessionEnd(at) =>
          var ok := EndSession(at);
          OrderedEnd(flushedLog, before, up, id, at, ok);
        case AlertRecord(e) =>
          var ok := WriteAlert(e);
          OrderedAlert(flushedLog, before, up, e, ok);
      }
    }

    method Receive()
      requires Valid() && (phase == Running || phase == Draining) && queue != []
      modifies this, store
      ensures Valid() && phase == old(phase) && accepted == old(accepted) && refused == old(refused)
      ensures submitted == old(submitted)
      ensures queue == old(queue)[1..] && taken == old(taken) + [old(queue)[0]] && old(log) <= log
      ensures pending == if old(queue)[0].Snapshot? && |old(pending)| < 63 then old(pending) + [old(queue)[0].snap] else []
    {
      hide Submitted, Accounts, Ordered;
      var r := queue[0];
      queue := queue[1..];
      taken := taken + [r];
      assert taken + queue == old(taken) + old(queue);
      assert taken[..|taken| - 1] == old(taken);
      Apply(r);
    }

    method Tick()
      requires Valid() && phase == Running
      modifies this, store
      ensures Valid() && OnlyWrites()
    {
      FlushInOrder();
    }

    /** The stop signal was seen: from now on the queue is only drained. */
    method Cancel()
      requires Valid() && phase == Running
      modifies this`phase
      ensures Valid() && phase == Draining
    {
      phase := Draining;
    }

    method QueueEmpty()
      requires Valid() && phase == Draining && queue == []
      modifies this`phase
      ensures Valid() && phase == Drained && taken == accepted
    {
      phase := Drained;
    }

    /** Ends the session still open at the newest stored sample, or at the wall clock. */
    method CloseSession(now: Time) returns (ok: bool)
      requires Sound()
      modifies this, store
      ensures Sound() && OnlyWrites() && pending == old(pending) && !sessionUp
      ensures store.lastSample == old(store.lastSample)
      ensures log == old(log) + EndAttempts(old(sessionUp), old(sessionId), ClosingTime(store.lastSample, now), ok)
    {
      hide Submitted, Accounts;
      if !sessionUp {
        return true;
      }
      var at := store.LastSampleTime();
      ok := EndSession(if at.Some? then at.value else now);
    }

    /** Writes what is left, closes the session and reports the last write that failed. */
    method Return(now: Time) returns (error: Option<Op>)
      requires Valid() && phase == Drained
      modifies this, store
      ensures Valid() && phase == Returned && queue == old(queue) && taken == old(taken) && refused == old(refused)
      ensures submitted == old(submitted)
      ensures error == LastFailed(log)
      ensures closing == if store.lastSample == 0 then now else store.lastSample * 1_000_000
      ensures OpenSessions(store.sessions) == OpenSessions(start.sessions) + FailedEnds(log)
    {
      hide Flat, Effects, Tried, SnapshotsOf, TriedAlerts, AlertsOf, AllOk;
      FlushInOrder();
      ghost var flushed, up, id := log, sessionUp, sessionId;
      var ok := CloseSession(now);
      EndGrows(flushed, up, id, ClosingTime(store.lastSample, now), ok);
      NoneKept();
      phase, closing := Returned, ClosingTime(store.lastSample, now);
      return lastErr;
    }
  }

  function ClosingTime(lastSample: int, now: Time): Time {
    if lastSample == 0 then now else lastSample * MILLISECOND
  }

  lemma NoneKept()
    ensures Keeps([]) == []
  {
  }

  lemma DropCounted(start: Db, log: seq<Attempt>, db: Db, refused: nat, dropped: nat, lastErr: Option<Op>,
                    sessionId: RowId, sessionUp: bool)
    requires Accounts(start, log, db, refused, dropped, lastErr, sessionId, sessionUp)
    ensures Accounts(start, log, db, refused + 1, dropped + 1, lastErr, sessionId, sessionUp)
  {
  }

  // --- whole runs ---

  /** What can happen while the writer waits: a record arrives, it takes one, or its timer ticks. */
  datatype Move = Arrive(record: Record) | Take | TimerTick

  function Arrived(moves: seq<Move>): seq<Record> {
    if moves == [] then []
    else
      Arrived(moves[..|moves| - 1]) + match moves[|moves| - 1] case Arrive(r) => [r] case _ => []
  }

  method Work(b: Batcher, moves: seq<Move>)
    requires b.Valid() && b.phase == Running && b.submitted == []
    modifies b, b.store
    ensures b.Valid() && b.phase == Draining && b.submitted == Arrived(moves)
  {
    hide Batcher.Sound, Ordered;
    for i := 0 to |moves|
      invariant b.Valid() && b.phase == Running && b.submitted == Arrived(moves[..i])
    {
      assert moves[..i + 1][..i] == moves[..i];
      match moves[i] {
        case Arrive(r) => b.Enqueue(r);
        case Take => if b.queue != [] { b.Receive(); }
        case TimerTick => b.Tick();
      }
    }
    assert moves[..|moves|] == moves;
    b.Cancel();
  }

  /** Empties the queue while some more records arrive; those behind the first n of them come too late. */
  method Drain(b: Batcher, late: seq<Record>, ghost arrived: seq<Record>) returns (n: nat)
    requires b.Valid() && b.phase == Draining && b.submitted == arrived
    modifies b, b.store
    ensures b.Valid() && b.phase == Drained && b.taken == b.accepted && b.queue == []
    ensures n <= |late| && b.submitted == arrived + late[..n]
  {
    hide Batcher.Sound, Ordered;
    n := 0;
    assert arrived + late[..0] == arrived;
    while true
      invariant b.Valid() && b.phase == Draining && n <= |late|
      invariant b.submitted == arrived + late[..n]
      decreases 2 * (|late| - n) + |b.queue|
    {
      var arrives: bool := *;
      if n < |late| && arrives {
        b.Enqueue(late[n]);
        assert arrived + late[..n + 1] == arrived + late[..n] + [late[n]];
        n := n + 1;
      } else if b.queue != [] {
        b.Receive();
      } else {
        break;
      }
    }
    b.QueueEmpty();
  }

  /** Records that arrive when nothing is taken any more: they stay in the queue, or are refused. */
  method Strand(b: Batcher, late: seq<Record>, ghost before: seq<Record>) returns (ghost refused: seq<Record>)
    requires b.Valid() && b.phase == Drained && b.queue == [] && b.submitted == before
    modifies b, b.store
    ensures b.Valid() && b.phase == Drained && b.taken == old(b.taken)
    ensures b.submitted == before + late && b.refused == old(b.refused) + refused
    ensures Submitted(b.queue, refused, late)
  {
    hide Batcher.Sound, Ordered, Submitted;
    refused := [];
    NothingSubmitted();
    assert late[..0] == [] && before + late[..0] == before;
    for j := 0 to |late|
      invariant b.Valid() && b.phase == Drained && b.taken == old(b.taken)
      invariant b.submitted == before + late[..j] && b.refused == old(b.refused) + refused
      invariant Submitted(b.queue, refused, late[..j])
    {
      SubmittedGrows(b.queue, refused, late[..j], late[j]);
      assert late[..j + 1] == late[..j] + [late[j]];
      assert before + late[..j + 1] == before + late[..j] + [late[j]];
      if |b.queue| >= BATCH_QUEUE {
        refused := refused + [late[j]];
      }
      b.Enqueue(late[j]);
    }
    assert late[..|late|] == late;
  }

  /** A whole run against any schedule: arrivals, takes and ticks until the stop signal, then arrivals in between
      the draining and after it. It ends with nothing pending and no session running. The first arrivals, up to the end
      of the drain, were taken or refused; the others are in the queue or refused. Every snapshot that arrived is stored,
      lost in a failed write, in the queue or refused. With no write failing, the writes are what the records taken
      mean. */
  method Run(b: Batcher, moves: seq<Move>, late: seq<Record>, now: Time)
    returns (error: Option<Op>, ghost drained: nat, ghost refused: nat)
    requires b.Valid() && b.phase == Running && b.submitted == []
    modifies b, b.store
    ensures b.Valid() && b.phase == Returned && b.submitted == Arrived(moves) + late
    ensures error == LastFailed(b.log) && (error == None <==> AllOk(b.log))
    ensures |Arrived(moves)| <= drained <= |b.submitted| && refused <= |b.refused|
    ensures Submitted(b.taken, b.refused[..refused], b.submitted[..drained])
    ensures Submitted(b.queue, b.refused[refused..], b.submitted[drained..])
    ensures Stored(b.log) + LostSnapshots(b.log) + |SnapshotsOf(b.queue)| + |SnapshotsOf(b.refused)|
         == |SnapshotsOf(Arrived(moves) + late)|
    ensures multiset(Tried(b.log)) + multiset(SnapshotsOf(b.queue)) + multiset(SnapshotsOf(b.refused))
         == multiset(SnapshotsOf(Arrived(moves) + late))
    ensures b.closing == if b.store.lastSample == 0 then now else b.store.lastSample * 1_000_000
    ensures error == None ==>
      && Flat(b.log) == Effects(b.taken).0 + (if Effects(b.taken).1 then [Ended(b.closing)] else [])
      && OpenSessions(b.store.sessions) == OpenSessions(b.start.sessions)
      && b.dropped == |b.refused|
      && b.store.Contents() == Replay(b.start, b.log)
  {
    hide Submitted, Batcher.Valid, Flat, Effects, Tried, SnapshotsOf, Stored, LostSnapshots, AllOk, LastFailed, Replay,
      OpenSessions;
    Work(b, moves);
    ghost var arrived := Arrived(moves);
    var n := Drain(b, late, arrived);
    DrainedSays(b);
    drained, refused := |b.submitted|, |b.refused|;
    ghost var first, lost := b.submitted, b.refused;
    ghost var more := Strand(b, late[n..], first);
    error := b.Return(now);
    assert first + late[n..] == arrived + late by { assert late[..n] + late[n..] == late; }
    assert b.submitted[..drained] == first && b.submitted[drained..] == late[n..];
    assert b.refused[..refused] == lost && b.refused[refused..] == more;
    ReturnedSays(b);
  }

  lemma DrainedSays(b: Batcher)
    requires b.Valid() && b.phase == Drained && b.taken == b.accepted
    ensures Submitted(b.taken, b.refused, b.submitted)
  {
    hide Submitted, Accounts, Ordered;
  }

  /** What holds of a writer that has returned. */
  lemma ReturnedSays(b: Batcher)
    requires b.Valid() && b.phase == Returned
    ensures LastFailed(b.log) == None <==> AllOk(b.log)
    ensures Stored(b.log) + LostSnapshots(b.log) + |SnapshotsOf(b.queue)| + |SnapshotsOf(b.refused)| == |SnapshotsOf(b.submitted)|
    ensures multiset(Tried(b.log)) + multiset(SnapshotsOf(b.queue)) + multiset(SnapshotsOf(b.refused))
         == multiset(SnapshotsOf(b.submitted))
    ensures AllOk(b.log) ==>
      && Flat(b.log) == Effects(b.taken).0 + (if Effects(b.taken).1 then [Ended(b.closing)] else [])
      && OpenSessions(b.store.sessions) == OpenSessions(b.start.sessions)
      && b.dropped == |b.refused|
      && b.store.Contents() == Replay(b.start, b.log)
  {
    hide Submitted, Accounts, Ordered, Flat, Effects, Tried, SnapshotsOf;
    NothingLost(b.log);
    AccountsSay(b.start, b.log, b.store.Contents(), |b.refused|, b.dropped, b.lastErr, b.sessionId, b.sessionUp);
    SnapshotsConserved(b);
    assert multiset(b.pending) == multiset{};
  }

  lemma AccountsSay(start: Db, log: seq<Attempt>, db: Db, refused: nat, dropped: nat, lastErr: Option<Op>,
                    sessionId: RowId, sessionUp: bool)
    requires Accounts(start, log, db, refused, dropped, lastErr, sessionId, sessionUp)
    ensures db == Replay(start, log) && dropped == refused + Lost(log)
    ensures OpenSessions(db.sessions) == OpenSessions(start.sessions) + FailedEnds(log) + (if sessionUp then 1 else 0)
  {
  }

  /** On a database whose earlier sessions are closed, at most one session row is open exactly when no end of a session
      failed to be written, or one did and no session is running. */
  lemma OneSessionIff(b: Batcher)
    requires b.Valid() && OpenSessions(b.start.sessions) == 0
    ensures OpenSessions(b.store.sessions) <= 1
      <==> FailedEnds(b.log) == 0 || (FailedEnds(b.log) == 1 && !b.sessionUp)
  {
    hide Submitted, Accounts, Ordered, Flat, Effects, Tried, TriedAlerts, SnapshotsOf, AlertsOf, OpenSessions, FailedEnds;
    AccountsSay(b.start, b.log, b.store.Contents(), |b.refused|, b.dropped, b.lastErr, b.sessionId, b.sessionUp);
  }

  /** At every moment, whatever fails: every snapshot ever submitted is stored, lost in a failed write, pending, queued
      or refused. */
  lemma SnapshotsConserved(b: Batcher)
    requires b.Valid()
    ensures multiset(Tried(b.log)) + multiset(b.pending) + multiset(SnapshotsOf(b.queue)) + multiset(SnapshotsOf(b.refused))
         == multiset(SnapshotsOf(b.submitted))
    ensures Stored(b.log) + LostSnapshots(b.log) + |b.pending| + |SnapshotsOf(b.queue)| + |SnapshotsOf(b.refused)|
         == |SnapshotsOf(b.submitted)|
  {
    hide Tried, SnapshotsOf, Submitted, Accounts, TriedAlerts, AlertsOf, Flat, Effects, Stored, LostSnapshots;
    assert b.phase == Returned ==> Tried(b.log) + [] == Tried(b.log);
    SnapshotsAccounted(b.log, b.pending, b.taken, b.queue, b.refused, b.submitted);
  }
}
