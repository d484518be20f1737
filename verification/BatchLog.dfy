/** What a batch writer must do with the records it accepts, as functions and laws on its log of writes. */
module BatchLog {
  import opened Model
  import opened HistoryTables
  import AlertRules

  /** One thing to record. */
  datatype Record =
    | Snapshot(snap: IslandSnapshot)
    | SessionStart(headline: seq<byte>, start: Time, version: int32)
    | SessionEnd(end: Time)
    | AlertRecord(event: AlertRules.Event)

  /** A write and whether the database took it. */
  datatype Attempt = Attempt(op: Op, ok: bool)

  /** The writes one by one, batches taken apart. */
  datatype Entry =
    | Kept(snap: IslandSnapshot)
    | Began(start: Time, version: int32, headline: seq<byte>)
    | Ended(end: Time)
    | Alerted(event: AlertRules.Event)

  function Keeps(snaps: seq<IslandSnapshot>): seq<Entry> {
    seq(|snaps|, i requires 0 <= i < |snaps| => Kept(snaps[i]))
  }

  function EntriesOf(op: Op): seq<Entry> {
    match op
    case Store(snaps) => Keeps(snaps)
    case Begin(at, version, headline) => [Began(at, version, headline)]
    case Finish(_, at) => [Ended(at)]
    case Raise(a) => [Alerted(AlertRules.Event(AlertRules.Raised, a))]
    case Clear(a) => [Alerted(AlertRules.Event(AlertRules.Cleared, a))]
  }

  function Flat(log: seq<Attempt>): seq<Entry> {
    if log == [] then [] else Flat(log[..|log| - 1]) + EntriesOf(log[|log| - 1].op)
  }

  /** What one record means, and whether a session is running after it. A start while one is running ends it first;
      an end without one means nothing. */
  function EffectOf(r: Record, up: bool): (seq<Entry>, bool) {
    match r
    case Snapshot(s) => ([Kept(s)], up)
    case SessionStart(headline, at, version) => ((if up then [Ended(at)] else []) + [Began(at, version, headline)], true)
    case SessionEnd(at) => (if up then [Ended(at)] else [], false)
    case AlertRecord(e) => ([Alerted(e)], up)
  }

  /** What records mean in the order they arrived. */
  function Effects(records: seq<Record>): (seq<Entry>, bool) {
    if records == [] then ([], false)
    else
      var (before, up) := Effects(records[..|records| - 1]);
      var (more, next) := EffectOf(records[|records| - 1], up);
      (before + more, next)
  }

  // --- what is counted ---

  function Replay(db: Db, log: seq<Attempt>): Db {
    if log == [] then db
    else
      var before := Replay(db, log[..|log| - 1]);
      if log[|log| - 1].ok then Applied(before, log[|log| - 1].op) else before
  }

  predicate AllOk(log: seq<Attempt>) {
    forall a :: a in log ==> a.ok
  }

  /** The snapshots of every batch that was tried, in order. */
  function Tried(log: seq<Attempt>): seq<IslandSnapshot> {
    if log == [] then []
    else Tried(log[..|log| - 1]) + match log[|log| - 1].op case Store(snaps) => snaps case _ => []
  }

  function SnapshotsOf(records: seq<Record>): seq<IslandSnapshot> {
    if records == [] then []
    else SnapshotsOf(records[..|records| - 1]) + match records[|records| - 1] case Snapshot(s) => [s] case _ => []
  }

  function TriedAlerts(log: seq<Attempt>): seq<AlertRules.Event> {
    if log == [] then []
    else
      TriedAlerts(log[..|log| - 1]) +
      match log[|log| - 1].op
      case Raise(a) => [AlertRules.Event(AlertRules.Raised, a)]
      case Clear(a) => [AlertRules.Event(AlertRules.Cleared, a)]
      case _ => []
  }

  function AlertsOf(records: seq<Record>): seq<AlertRules.Event> {
    if records == [] then []
    else AlertsOf(records[..|records| - 1]) + match records[|records| - 1] case AlertRecord(e) => [e] case _ => []
  }

  function BatchSize(op: Op): nat { match op case Store(snaps) => |snaps| case _ => 0 }

  /** Snapshots the database took. */
  function Stored(log: seq<Attempt>): nat {
    if log == [] then 0 else Stored(log[..|log| - 1]) + if log[|log| - 1].ok then BatchSize(log[|log| - 1].op) else 0
  }

  /** Snapshots in batches the database refused. */
  function LostSnapshots(log: seq<Attempt>): nat {
    if log == [] then 0 else LostSnapshots(log[..|log| - 1]) + if log[|log| - 1].ok then 0 else BatchSize(log[|log| - 1].op)
  }

  /** Records in failed writes: a batch counts every snapshot, any other write one. */
  function Lost(log: seq<Attempt>): nat {
    if log == [] then 0
    else
      Lost(log[..|log| - 1]) +
      if log[|log| - 1].ok then 0 else match log[|log| - 1].op case Store(snaps) => |snaps| case _ => 1
  }

  function FailedEnds(log: seq<Attempt>): nat {
    if log == [] then 0 else FailedEnds(log[..|log| - 1]) + if !log[|log| - 1].ok && log[|log| - 1].op.Finish? then 1 else 0
  }

  function LastFailed(log: seq<Attempt>): Option<Op> {
    if log == [] then None
    else if !log[|log| - 1].ok then Some(log[|log| - 1].op)
    else LastFailed(log[..|log| - 1])
  }

  function OpenSessions(sessions: seq<SessionRow>): nat {
    if sessions == [] then 0
    else OpenSessions(sessions[..|sessions| - 1]) + if sessions[|sessions| - 1].endedAt.None? then 1 else 0
  }

  // --- the laws ---

  /** Only the newest session is ever ended. */
  ghost predicate EndsNewest(start: Db, log: seq<Attempt>) {
    log == []
    || (EndsNewest(start, log[..|log| - 1])
        && (log[|log| - 1].op.Finish? ==> log[|log| - 1].op.id == |Replay(start, log[..|log| - 1]).sessions|))
  }

  /** The database is the writes that succeeded; losses and the last error are accounted for; every open session row
      is the running session or one whose end could not be written. */
  ghost predicate Accounts(start: Db, log: seq<Attempt>, db: Db, refused: nat, dropped: nat, lastErr: Option<Op>,
                           sessionId: RowId, sessionUp: bool)
  {
    && db == Replay(start, log)
    && dropped == refused + Lost(log)
    && lastErr == LastFailed(log)
    && OpenSessions(db.sessions) == OpenSessions(start.sessions) + FailedEnds(log) + (if sessionUp then 1 else 0)
    && (sessionUp ==> 1 <= sessionId == |db.sessions| && db.sessions[sessionId - 1].endedAt.None?)
    && EndsNewest(start, log)
  }

  /** Snapshots and alerts are tried in the order they were taken, each once; with no write failing, the writes taken
      apart, followed by the pending batch, are what the records taken mean. */
  ghost predicate Ordered(log: seq<Attempt>, pending: seq<IslandSnapshot>, taken: seq<Record>, up: bool) {
    && Tried(log) + pending == SnapshotsOf(taken)
    && TriedAlerts(log) == AlertsOf(taken)
    && (AllOk(log) ==> Flat(log) + Keeps(pending) == Effects(taken).0 && up == Effects(taken).1)
  }

  lemma LogGrows(log: seq<Attempt>, a: Attempt)
    ensures (log + [a])[..|log + [a]| - 1] == log && (log + [a])[|log + [a]| - 1] == a
    ensures AllOk(log + [a]) <==> AllOk(log) && a.ok
  {
    assert forall x :: x in log + [a] <==> x in log || x == a;
  }

  lemma TakenGrows(taken: seq<Record>, r: Record)
    ensures (taken + [r])[..|taken + [r]| - 1] == taken && (taken + [r])[|taken + [r]| - 1] == r
  {
  }

  lemma KeepsJoin(a: seq<IslandSnapshot>, b: seq<IslandSnapshot>)
    ensures Keeps(a + b) == Keeps(a) + Keeps(b)
  {
  }

  lemma OrderedFlush(log: seq<Attempt>, pending: seq<IslandSnapshot>, taken: seq<Record>, up: bool, ok: bool)
    requires Ordered(log, pending, taken, up)
    ensures Ordered(log + [Attempt(Store(pending), ok)], [], taken, up)
  {
    LogGrows(log, Attempt(Store(pending), ok));
    hide Effects, SnapshotsOf, AlertsOf, AllOk;
    assert Keeps([]) == [];
  }

  lemma OrderedSnapshot(log: seq<Attempt>, pending: seq<IslandSnapshot>, taken: seq<Record>, up: bool, s: IslandSnapshot)
    requires Ordered(log, pending, taken, up)
    ensures Ordered(log, pending + [s], taken + [Snapshot(s)], up)
  {
    TakenGrows(taken, Snapshot(s));
    KeepsJoin(pending, [s]);
    hide AllOk, Flat, Tried, TriedAlerts;
    assert Keeps([s]) == [Kept(s)];
    assert Tried(log) + pending + [s] == Tried(log) + (pending + [s]);
    assert Flat(log) + Keeps(pending) + [Kept(s)] == Flat(log) + (Keeps(pending) + [Kept(s)]);
  }

  /** Ending the running session, if there is one. */
  function EndAttempts(up: bool, id: RowId, at: Time, ok: bool): seq<Attempt> {
    if up then [Attempt(Finish(id, at), ok)] else []
  }

  lemma EndGrows(log: seq<Attempt>, up: bool, id: RowId, at: Time, ok: bool)
    ensures var more := log + EndAttempts(up, id, at, ok);
      && Tried(more) == Tried(log) && TriedAlerts(more) == TriedAlerts(log)
      && Flat(more) == Flat(log) + (if up then [Ended(at)] else [])
      && (AllOk(more) ==> AllOk(log))
  {
    if up { LogGrows(log, Attempt(Finish(id, at), ok)); } else { assert log + [] == log; }
  }

  lemma OrderedEnd(log: seq<Attempt>, taken: seq<Record>, up: bool, id: RowId, at: Time, ok: bool)
    requires Ordered(log, [], taken, up)
    ensures Ordered(log + EndAttempts(up, id, at, ok), [], taken + [SessionEnd(at)], false)
  {
    TakenGrows(taken, SessionEnd(at));
    EndGrows(log, up, id, at, ok);
    hide AllOk, Flat, Tried, TriedAlerts;
    assert Keeps([]) == [];
  }

  lemma OrderedStart(log: seq<Attempt>, taken: seq<Record>, up: bool, id: RowId, r: Record, endOk: bool, ok: bool)
    requires Ordered(log, [], taken, up) && r.SessionStart?
    ensures Ordered(log + EndAttempts(up, id, r.start, endOk) + [Attempt(Begin(r.start, r.version, r.headline), ok)],
                    [], taken + [r], ok)
  {
    TakenGrows(taken, r);
    EndGrows(log, up, id, r.start, endOk);
    StartTaken(taken, up, r);
    hide Effects, SnapshotsOf, AlertsOf;
    var ended, begin := log + EndAttempts(up, id, r.start, endOk), Attempt(Begin(r.start, r.version, r.headline), ok);
    LogGrows(ended, begin);
    BeginGrows(ended, begin);
    hide AllOk, Flat, Tried, TriedAlerts, EndAttempts;
    assert Keeps([]) == [];
  }

  /** A session start means the end of a running session, then its own beginning. */
  lemma StartTaken(taken: seq<Record>, up: bool, r: Record)
    requires r.SessionStart?
    ensures SnapshotsOf(taken + [r]) == SnapshotsOf(taken) && AlertsOf(taken + [r]) == AlertsOf(taken)
    ensures Effects(taken).1 == up ==>
      Effects(taken + [r]).0
        == Effects(taken).0 + (if up then [Ended(r.start)] else []) + [Began(r.start, r.version, r.headline)]
      && Effects(taken + [r]).1
  {
    TakenGrows(taken, r);
    assert AlertsOf(taken) + [] == AlertsOf(taken) && SnapshotsOf(taken) + [] == SnapshotsOf(taken);
    hide AlertsOf, SnapshotsOf;
    var before, ended, began := Effects(taken).0, if up then [Ended(r.start)] else [], [Began(r.start, r.version, r.headline)];
    assert before + (ended + began) == before + ended + began;
  }

  lemma BeginGrows(log: seq<Attempt>, a: Attempt)
    requires a.op.Begin?
    ensures var more := log + [a];
      && Tried(more) == Tried(log) && TriedAlerts(more) == TriedAlerts(log)
      && Flat(more) == Flat(log) + [Began(a.op.start, a.op.version, a.op.headline)]
  {
    LogGrows(log, a);
  }

  /** The write an alert event asks for. */
  function AlertOp(e: AlertRules.Event): Op {
    match e.kind case Raised => Raise(e.alert) case Cleared => Clear(e.alert)
  }

  lemma OrderedAlert(log: seq<Attempt>, taken: seq<Record>, up: bool, e: AlertRules.Event, ok: bool)
    requires Ordered(log, [], taken, up)
    ensures Ordered(log + [Attempt(AlertOp(e), ok)], [], taken + [AlertRecord(e)], up)
  {
    TakenGrows(taken, AlertRecord(e));
    LogGrows(log, Attempt(AlertOp(e), ok));
    hide AllOk;
    assert Keeps([]) == [];
    assert EntriesOf(AlertOp(e)) == [Alerted(e)];
  }

  // --- every write keeps the accounts ---

  lemma {:induction false} EndedRow(sessions: seq<SessionRow>, id: RowId, at: int)
    requires 1 <= id <= |sessions| && sessions[id - 1].endedAt.None?
    ensures OpenSessions(EndRow(sessions, id, at)) == OpenSessions(sessions) - 1
    decreases |sessions|
  {
    var init, ended := sessions[..|sessions| - 1], EndRow(sessions, id, at);
    if id == |sessions| {
      assert ended[..|sessions| - 1] == init;
    } else {
      EndedRow(init, id, at);
      assert ended[..|sessions| - 1] == EndRow(init, id, at);
    }
  }

  lemma SessionAdded(sessions: seq<SessionRow>, row: SessionRow)
    requires row.endedAt.None?
    ensures OpenSessions(sessions + [row]) == OpenSessions(sessions) + 1
  {
    assert (sessions + [row])[..|sessions|] == sessions;
  }

  lemma OpsKeepSessions(db: Db, op: Op)
    ensures op.Store? || op.Raise? || op.Clear? ==> Applied(db, op).sessions == db.sessions
  {
    hide StoreOne;
    if op.Store? { StoreKeepsSessions(db, op.snaps); }
  }

  lemma {:induction false} StoreKeepsSessions(db: Db, snaps: seq<IslandSnapshot>)
    ensures StoreAll(db, snaps).sessions == db.sessions && StoreAll(db, snaps).alerts == db.alerts
  {
    if snaps != [] { StoreKeepsSessions(db, snaps[..|snaps| - 1]); }
  }

  function LossOf(a: Attempt): nat {
    if a.ok then 0 else match a.op case Store(snaps) => |snaps| case _ => 1
  }

  lemma AccountsWrite(start: Db, log: seq<Attempt>, db: Db, refused: nat, dropped: nat, lastErr: Option<Op>,
                      sessionId: RowId, sessionUp: bool, a: Attempt)
    requires Accounts(start, log, db, refused, dropped, lastErr, sessionId, sessionUp)
    requires a.op.Store? || a.op.Raise? || a.op.Clear?
    ensures Accounts(start, log + [a], if a.ok then Applied(db, a.op) else db, refused, dropped + LossOf(a),
                     if a.ok then lastErr else Some(a.op), sessionId, sessionUp)
  {
    LogGrows(log, a);
    OpsKeepSessions(db, a.op);
    hide Applied;
  }

  lemma AccountsEnd(start: Db, log: seq<Attempt>, db: Db, refused: nat, dropped: nat, lastErr: Option<Op>,
                    sessionId: RowId, at: Time, ok: bool)
    requires Accounts(start, log, db, refused, dropped, lastErr, sessionId, true)
    ensures var a := Attempt(Finish(sessionId, at), ok);
      Accounts(start, log + [a], if ok then Applied(db, a.op) else db, refused, dropped + LossOf(a),
               if ok then lastErr else Some(a.op), sessionId, false)
  {
    LogGrows(log, Attempt(Finish(sessionId, at), ok));
    EndedRow(db.sessions, sessionId, Millis(at));
  }

  lemma AccountsBegin(start: Db, log: seq<Attempt>, db: Db, refused: nat, dropped: nat, lastErr: Option<Op>,
                      sessionId: RowId, at: Time, version: int32, headline: seq<byte>, ok: bool)
    requires Accounts(start, log, db, refused, dropped, lastErr, sessionId, false)
    ensures var a := Attempt(Begin(at, version, headline), ok);
      var after := if ok then Applied(db, a.op) else db;
      Accounts(start, log + [a], after, refused, dropped + LossOf(a), if ok then lastErr else Some(a.op),
               if ok then |after.sessions| else sessionId, ok)
  {
    LogGrows(log, Attempt(Begin(at, version, headline), ok));
    SessionAdded(db.sessions, SessionRow(Millis(at), None, version, headline));
  }

  /** A session, its end that cannot be written, and the next session. */
  function Overlapping(id: RowId, at: Time, version: int32, headline: seq<byte>): seq<Attempt> {
    [Attempt(Begin(at, version, headline), true), Attempt(Finish(id, at), false), Attempt(Begin(at, version, headline), true)]
  }

  /** Two session rows are open at once. */
  lemma SessionsOverlap(start: Db, id: RowId, at: Time, version: int32, headline: seq<byte>)
    requires OpenSessions(start.sessions) == 0
    ensures OpenSessions(Replay(start, Overlapping(id, at, version, headline)).sessions) == 2
  {
    var log, row := Overlapping(id, at, version, headline), SessionRow(Millis(at), None, version, headline);
    assert log[..2][..1] == [log[0]] && [log[0]][..0] == [] && log[..2][1] == log[1];
    assert Replay(start, [log[0]]).sessions == start.sessions + [row];
    assert Replay(start, log[..2]) == Replay(start, [log[0]]);
    hide OpenSessions;
    SessionAdded(start.sessions, row);
    SessionAdded(start.sessions + [row], row);
  }

  // --- what the counts count ---

  /** How many records an attempt is about: a batch every snapshot, any other write one. */
  function Weight(op: Op): nat { match op case Store(snaps) => |snaps| case _ => 1 }

  /** The records in writes that failed, each by its write and its place in it. */
  ghost function LostAt(log: seq<Attempt>): set<(int, int)> {
    set i, j | 0 <= i < |log| && 0 <= j < Weight(log[i].op) && !log[i].ok :: (i, j)
  }

  /** The snapshots that were stored, each by its write and its place in it. */
  ghost function StoredPlaces(log: seq<Attempt>): set<(int, int)> {
    set i, j | 0 <= i < |log| && 0 <= j < Weight(log[i].op) && log[i].ok && log[i].op.Store? :: (i, j)
  }

  ghost function Places(i: int, n: nat): set<(int, int)> { set j | 0 <= j < n :: (i, j) }

  lemma {:induction false} PlacesCount(i: int, n: nat)
    ensures |Places(i, n)| == n
  {
    if n > 0 {
      PlacesCount(i, n - 1);
      assert Places(i, n) == Places(i, n - 1) + {(i, n - 1)};
    } else {
      assert Places(i, n) == {};
    }
  }

  lemma LostGrows(log: seq<Attempt>, a: Attempt)
    ensures LostAt(log + [a]) == LostAt(log) + if a.ok then {} else Places(|log|, Weight(a.op))
    ensures LostAt(log) !! Places(|log|, Weight(a.op))
  {
    hide Weight;
    var more, n := log + [a], |log|;
    assert more[n] == a && forall i :: 0 <= i < n ==> more[i] == log[i];
  }

  lemma StoredGrows(log: seq<Attempt>, a: Attempt)
    ensures StoredPlaces(log + [a]) == StoredPlaces(log) + if a.ok && a.op.Store? then Places(|log|, Weight(a.op)) else {}
    ensures StoredPlaces(log) !! Places(|log|, Weight(a.op))
  {
    hide Weight;
    var more, n := log + [a], |log|;
    assert more[n] == a && forall i :: 0 <= i < n ==> more[i] == log[i];
  }

  /** The losses are the records in failed writes, and the snapshots stored are those in batches that succeeded. */
  lemma {:induction false} LossesAre(log: seq<Attempt>)
    ensures Lost(log) == |LostAt(log)| && Stored(log) == |StoredPlaces(log)|
  {
    hide LostAt, StoredPlaces, Places;
    if log != [] {
      var init, a := log[..|log| - 1], log[|log| - 1];
      assert log == init + [a];
      LossesAre(init);
      LostGrows(init, a);
      StoredGrows(init, a);
      PlacesCount(|init|, Weight(a.op));
    } else {
      NothingLostYet();
    }
  }

  lemma NothingLostYet()
    ensures LostAt([]) == {} && StoredPlaces([]) == {}
  {
  }

  ghost function OpenAt(sessions: seq<SessionRow>): set<int> { set i | 0 <= i < |sessions| && sessions[i].endedAt.None? }

  ghost function FailedEndsAt(log: seq<Attempt>): set<int> { set i | 0 <= i < |log| && !log[i].ok && log[i].op.Finish? }

  lemma OpenGrows(sessions: seq<SessionRow>, row: SessionRow)
    ensures OpenAt(sessions + [row]) == OpenAt(sessions) + if row.endedAt.None? then {|sessions|} else {}
    ensures |sessions| !in OpenAt(sessions)
  {
    assert forall i :: 0 <= i < |sessions| ==> (sessions + [row])[i] == sessions[i];
  }

  lemma {:induction false} OpenSessionsAre(sessions: seq<SessionRow>)
    ensures OpenSessions(sessions) == |OpenAt(sessions)|
  {
    hide OpenAt;
    if sessions != [] {
      var init, row := sessions[..|sessions| - 1], sessions[|sessions| - 1];
      assert sessions == init + [row];
      OpenSessionsAre(init);
      OpenGrows(init, row);
    } else {
      NothingOpen();
    }
  }

  lemma NothingOpen()
    ensures OpenAt([]) == {} && FailedEndsAt([]) == {}
  {
  }

  lemma FailedEndsGrow(log: seq<Attempt>, a: Attempt)
    ensures FailedEndsAt(log + [a]) == FailedEndsAt(log) + if !a.ok && a.op.Finish? then {|log|} else {}
    ensures |log| !in FailedEndsAt(log)
  {
    assert forall i :: 0 <= i < |log| ==> (log + [a])[i] == log[i];
  }

  lemma {:induction false} FailedEndsAre(log: seq<Attempt>)
    ensures FailedEnds(log) == |FailedEndsAt(log)|
  {
    hide FailedEndsAt;
    if log != [] {
      var init, a := log[..|log| - 1], log[|log| - 1];
      assert log == init + [a];
      FailedEndsAre(init);
      FailedEndsGrow(init, a);
    } else {
      NothingOpen();
    }
  }

  /** The last write that failed has only writes that succeeded behind it. */
  lemma {:induction false} LastFailedIs(log: seq<Attempt>, i: nat)
    requires i < |log| && !log[i].ok && forall j :: i < j < |log| ==> log[j].ok
    ensures LastFailed(log) == Some(log[i].op)
  {
    if i < |log| - 1 {
      LastFailedIs(log[..|log| - 1], i);
    }
  }

  // --- what follows from the laws ---

  lemma {:induction false} TriedIsStoredOrLost(log: seq<Attempt>)
    ensures |Tried(log)| == Stored(log) + LostSnapshots(log)
  {
    if log != [] { TriedIsStoredOrLost(log[..|log| - 1]); }
  }

  lemma {:induction false} NothingLost(log: seq<Attempt>)
    ensures LastFailed(log) == None <==> AllOk(log)
    ensures AllOk(log) ==> Lost(log) == 0 && FailedEnds(log) == 0 && LostSnapshots(log) == 0
  {
    if log != [] {
      var init := log[..|log| - 1];
      NothingLost(init);
      assert log == init + [log[|log| - 1]];
    }
  }

  // --- what was submitted ---

  lemma {:induction false} SnapshotsJoin(a: seq<Record>, b: seq<Record>)
    ensures SnapshotsOf(a + b) == SnapshotsOf(a) + SnapshotsOf(b)
  {
    if b == [] {
      assert a + b == a;
    } else {
      assert (a + b)[..|a + b| - 1] == a + b[..|b| - 1];
      SnapshotsJoin(a, b[..|b| - 1]);
    }
  }

  /** Every record submitted was either accepted or refused, and both kept the order in which they were submitted. */
  ghost predicate Submitted(accepted: seq<Record>, refused: seq<Record>, submitted: seq<Record>)
    decreases |submitted|
  {
    if submitted == [] then accepted == [] && refused == []
    else
      var init, r := submitted[..|submitted| - 1], submitted[|submitted| - 1];
      || (accepted != [] && accepted[|accepted| - 1] == r && Submitted(accepted[..|accepted| - 1], refused, init))
      || (refused != [] && refused[|refused| - 1] == r && Submitted(accepted, refused[..|refused| - 1], init))
  }

  lemma SubmittedGrows(accepted: seq<Record>, refused: seq<Record>, submitted: seq<Record>, r: Record)
    requires Submitted(accepted, refused, submitted)
    ensures Submitted(accepted + [r], refused, submitted + [r])
    ensures Submitted(accepted, refused + [r], submitted + [r])
  {
    assert (accepted + [r])[..|accepted|] == accepted;
    assert (refused + [r])[..|refused|] == refused;
    assert (submitted + [r])[..|submitted|] == submitted;
  }

  lemma SnapshotsLast(records: seq<Record>)
    requires records != []
    ensures multiset(SnapshotsOf(records))
      == multiset(SnapshotsOf(records[..|records| - 1])) + multiset(SnapshotsOf([records[|records| - 1]]))
  {
    hide SnapshotsOf;
    var init, last := records[..|records| - 1], [records[|records| - 1]];
    SnapshotsJoin(init, last);
    assert records == init + last;
  }

  /** The snapshots among them went the same ways. */
  lemma {:induction false} SubmittedSnapshots(accepted: seq<Record>, refused: seq<Record>, submitted: seq<Record>)
    requires Submitted(accepted, refused, submitted)
    ensures multiset(SnapshotsOf(accepted)) + multiset(SnapshotsOf(refused)) == multiset(SnapshotsOf(submitted))
    decreases |submitted|
  {
    if submitted != [] {
      hide SnapshotsOf;
      var init, r := submitted[..|submitted| - 1], submitted[|submitted| - 1];
      SnapshotsLast(submitted);
      if accepted != [] && accepted[|accepted| - 1] == r && Submitted(accepted[..|accepted| - 1], refused, init) {
        hide Submitted;
        SubmittedSnapshots(accepted[..|accepted| - 1], refused, init);
        SnapshotsLast(accepted);
      } else {
        assert refused != [] && refused[|refused| - 1] == r && Submitted(accepted, refused[..|refused| - 1], init);
        hide Submitted;
        SubmittedSnapshots(accepted, refused[..|refused| - 1], init);
        SnapshotsLast(refused);
      }
    }
  }

  /** While nothing was refused, everything was accepted in order. */
  lemma {:induction false} NoneRefused(accepted: seq<Record>, submitted: seq<Record>)
    ensures Submitted(accepted, [], submitted) <==> accepted == submitted
    decreases |submitted|
  {
    if submitted != [] && accepted != [] {
      NoneRefused(accepted[..|accepted| - 1], submitted[..|submitted| - 1]);
      assert accepted == accepted[..|accepted| - 1] + [accepted[|accepted| - 1]];
      assert submitted == submitted[..|submitted| - 1] + [submitted[|submitted| - 1]];
    }
  }

  lemma NothingSubmitted()
    ensures Submitted([], [], [])
  {
  }

  /** Every snapshot ever submitted is stored, lost in a failed write, pending, queued or refused: none goes missing and
      none is counted twice, whatever fails. */
  lemma SnapshotsAccounted(log: seq<Attempt>, pending: seq<IslandSnapshot>, taken: seq<Record>,
                           queue: seq<Record>, refused: seq<Record>, submitted: seq<Record>)
    requires Tried(log) + pending == SnapshotsOf(taken) && Submitted(taken + queue, refused, submitted)
    ensures multiset(Tried(log)) + multiset(pending) + multiset(SnapshotsOf(queue)) + multiset(SnapshotsOf(refused))
         == multiset(SnapshotsOf(submitted))
    ensures Stored(log) + LostSnapshots(log) + |pending| + |SnapshotsOf(queue)| + |SnapshotsOf(refused)|
         == |SnapshotsOf(submitted)|
  {
    SubmittedSnapshots(taken + queue, refused, submitted);
    hide Tried, SnapshotsOf, Stored, LostSnapshots, Submitted;
    SnapshotsJoin(taken, queue);
    TriedIsStoredOrLost(log);
    var all, gone := SnapshotsOf(taken + queue), SnapshotsOf(refused);
    assert multiset(all) == multiset(Tried(log)) + multiset(pending) + multiset(SnapshotsOf(queue));
    assert |multiset(all) + multiset(gone)| == |all| + |gone|;
    assert |multiset(SnapshotsOf(submitted))| == |SnapshotsOf(submitted)|;
  }
}
