/** The LAN listener's life: enable, disable and the final close, at the granularity of the two locks. Every method
    that ends in Step is one critical section or one system call; anything the other goroutines may do happens between
    two of them. */
module LanListener {
  import opened Model

  /** A bound listener, and the server that serves it. */
  type Id = nat

  /** Who holds opMu, and how far it has come. */
  datatype Op =
    | Free
    | EnableEntered
    | EnableBinding(port: nat)
    | EnablePublishing(bound: Id)
    | EnableDropping(dropped: Id)
    | EnableSpawning(published: Id)
    | DisableEntered(last: bool)
    | DisableClosing(final: bool, detached: Option<Id>)
  {
    /** The listener the operation has in hand: bound and not published, or detached and not closed. */
    function Hand(): Option<Id> {
      match this
      case EnablePublishing(id) => Some(id)
      case EnableDropping(id) => Some(id)
      case DisableClosing(_, id) => id
      case _ => None
    }

    function Rank(): nat {
      match this
      case Free => 0
      case EnableEntered => 4
      case EnableBinding(_) => 3
      case EnablePublishing(_) => 2
      case EnableDropping(_) => 1
      case EnableSpawning(_) => 1
      case DisableEntered(_) => 2
      case DisableClosing(_, _) => 1
    }
  }

  /** The system's side: listeners that are bound, goroutines about to call Serve, servers that accept connections, and
      servers that were closed. */
  datatype Net = Net(open: set<Id>, pending: set<Id>, serving: set<Id>, shut: set<Id>, next: Id)

  /** Where one listener can be. */
  predicate Tracked(server: Option<Id>, op: Op, net: Net, id: Id) {
    // Open: published, in somebody's hand, or left behind by a server that closed before Serve was called.
    && (id in net.open <==> server == Some(id) || op.Hand() == Some(id) || (id in net.pending && id in net.shut))
    && (server == Some(id) ==>
          id !in net.shut && op.Hand() != Some(id)
          && (if op == EnableSpawning(id) then id !in net.pending && id !in net.serving
              else id in net.pending || id in net.serving))
    && (op.Hand() == Some(id) ==>
          id !in net.shut
          && (if op.DisableClosing? then id in net.pending || id in net.serving
              else id !in net.pending && id !in net.serving))
    && (op == EnableSpawning(id) ==> server == Some(id))
    && (id in net.serving ==> id !in net.pending && (server == Some(id) || op.Hand() == Some(id)))
    && (id in net.pending ==> server == Some(id) || op.Hand() == Some(id) || id in net.shut)
    && (id in net.open || id in net.pending || id in net.shut ==> id < net.next)
  }

  ghost predicate AllTracked(server: Option<Id>, op: Op, net: Net) {
    forall id: Id :: Tracked(server, op, net, id)
  }

  // --- every step keeps track ---

  lemma OpKept(server: Option<Id>, op: Op, next: Op, net: Net)
    requires AllTracked(server, op, net) && op.Hand().None? && next.Hand().None? && !op.EnableSpawning? && !next.EnableSpawning?
    ensures AllTracked(server, next, net)
  {
    forall id: Id ensures Tracked(server, next, net, id) { assert Tracked(server, op, net, id); }
  }

  function Bound(net: Net): Net { net.(open := net.open + {net.next}, next := net.next + 1) }

  lemma BindKept(op: Op, net: Net)
    requires AllTracked(None, op, net) && op.EnableBinding?
    ensures AllTracked(None, EnablePublishing(net.next), Bound(net))
  {
    forall id: Id ensures Tracked(None, EnablePublishing(net.next), Bound(net), id) { assert Tracked(None, op, net, id); }
  }

  lemma PublishKept(op: Op, net: Net)
    requires AllTracked(None, op, net) && op.EnablePublishing?
    ensures AllTracked(None, EnableDropping(op.bound), net)
    ensures AllTracked(Some(op.bound), EnableSpawning(op.bound), net)
  {
    forall id: Id
      ensures Tracked(None, EnableDropping(op.bound), net, id) && Tracked(Some(op.bound), EnableSpawning(op.bound), net, id)
    {
      assert Tracked(None, op, net, id);
    }
  }

  lemma DropKept(op: Op, net: Net)
    requires AllTracked(None, op, net) && op.EnableDropping?
    ensures AllTracked(None, Free, net.(open := net.open - {op.dropped}))
  {
    forall id: Id ensures Tracked(None, Free, net.(open := net.open - {op.dropped}), id) { assert Tracked(None, op, net, id); }
  }

  lemma SpawnKept(server: Option<Id>, op: Op, net: Net)
    requires AllTracked(server, op, net) && op.EnableSpawning?
    ensures AllTracked(server, Free, net.(pending := net.pending + {op.published}))
  {
    forall id: Id ensures Tracked(server, Free, net.(pending := net.pending + {op.published}), id) {
      assert Tracked(server, op, net, id);
      assert Tracked(server, op, net, op.published);
    }
  }

  lemma DetachKept(server: Option<Id>, op: Op, net: Net, last: bool)
    requires AllTracked(server, op, net) && op.DisableEntered?
    ensures AllTracked(None, DisableClosing(last, server), net)
  {
    forall id: Id ensures Tracked(None, DisableClosing(last, server), net, id) { assert Tracked(server, op, net, id); }
  }

  function IdSet(id: Option<Id>): set<Id> { match id case None => {} case Some(x) => {x} }

  /** Closing a server ends the listener it tracks; one that Serve was not called for yet is not tracked. */
  function Shut(net: Net, id: Option<Id>): Net {
    net.(open := net.open - net.serving * IdSet(id), serving := net.serving - IdSet(id), shut := net.shut + IdSet(id))
  }

  lemma CloseKept(op: Op, net: Net)
    requires AllTracked(None, op, net) && op.DisableClosing?
    ensures AllTracked(None, Free, Shut(net, op.detached))
  {
    forall id: Id ensures Tracked(None, Free, Shut(net, op.detached), id) { assert Tracked(None, op, net, id); }
  }

  /** A goroutine calls Serve: on a closed server it returns at once and closes the listener. */
  function Served(net: Net, id: Id): Net {
    if id in net.shut then net.(pending := net.pending - {id}, open := net.open - {id})
    else net.(pending := net.pending - {id}, serving := net.serving + {id})
  }

  lemma ServeKept(server: Option<Id>, op: Op, net: Net, started: Id)
    requires AllTracked(server, op, net) && started in net.pending
    ensures AllTracked(server, op, Served(net, started))
  {
    forall id: Id ensures Tracked(server, op, Served(net, started), id) {
      assert Tracked(server, op, net, id);
      assert Tracked(server, op, net, started);
    }
  }

  datatype Answer = Done | ShuttingDown | NoAddress | NotListening | CannotBind

  class LanMode {
    // The fields mu guards.
    var port: nat
    var enabled: bool
    var server: Option<Id>
    var closed: bool

    // Who holds opMu, and the system.
    var op: Op
    var net: Net

    // A final close has returned.
    ghost var final: bool

    ghost predicate Valid()
      reads this
    {
      && (enabled <==> server.Some?)
      && AllTracked(server, op, net)
      && (op.EnableBinding? || op.EnablePublishing? || op.EnableDropping? || op.DisableClosing? ==> !enabled)
      && (op.DisableEntered? && op.last ==> closed)
      && (op.DisableClosing? && op.final ==> closed)
      // Once the final close has returned, nothing is published and nothing on the way to be.
      && (final ==> closed && !enabled && op.Hand().None? && !op.EnableBinding? && !op.EnableSpawning?)
    }

    /** After the final close no listener ever opens again, and the flag never goes back. */
    twostate predicate NoneOpens()
      reads this
    {
      (old(final) ==> final && net.open <= old(net.open)) && (old(closed) ==> closed)
    }

    constructor ()
      ensures Valid() && op == Free && !enabled && !closed && net.open == {} && !final
    {
      port, enabled, server, closed, op := 0, false, None, false, Free;
      net, final := Net({}, {}, {}, {}, 0), false;
    }

    method SetPort(p: nat)
      requires Valid()
      modifies this`port
      ensures Valid() && NoneOpens() && port == p
    {
      port := p;
    }

    // --- enable ---

    method EnableLockStep()
      requires Valid() && op.Free?
      modifies this`op
      ensures Valid() && NoneOpens() && op == EnableEntered
    {
      hide AllTracked;
      OpKept(server, op, EnableEntered, net);
      op := EnableEntered;
    }

    /** First look at the fields: shutting down, already enabled, or a port to bind. */
    method EnableCheckStep() returns (answer: Answer)
      requires Valid() && op.EnableEntered?
      modifies this`op
      ensures Valid() && NoneOpens()
      ensures if closed then answer == ShuttingDown && op == Free
              else if enabled then answer == Done && op == Free
              else answer == Done && op == EnableBinding(port)
    {
      hide AllTracked;
      OpKept(server, op, Free, net);
      OpKept(server, op, EnableBinding(port), net);
      if closed {
        op := Free;
        return ShuttingDown;
      }
      if enabled {
        op := Free;
        return Done;
      }
      op := EnableBinding(port);
      return Done;
    }

    /** Resolves the address and binds it. */
    method EnableBindStep(hasAddress: bool, canBind: bool) returns (answer: Answer)
      requires Valid() && op.EnableBinding?
      modifies this`op, this`net
      ensures Valid() && NoneOpens()
      ensures answer == if !hasAddress then NoAddress
                        else if old(op).port == 0 then NotListening
                        else if !canBind then CannotBind
                        else Done
      ensures if answer == Done then op == EnablePublishing(old(net).next) && net == Bound(old(net))
              else op == Free && net == old(net)
    {
      hide AllTracked;
      OpKept(server, op, Free, net);
      BindKept(op, net);
      if !hasAddress {
        op := Free;
        return NoAddress;
      }
      if op.port == 0 {
        op := Free;
        return NotListening;
      }
      if !canBind {
        op := Free;
        return CannotBind;
      }
      op, net := EnablePublishing(net.next), Bound(net);
      return Done;
    }

    /** Second look: a final close that came in between is not overtaken. */
    method EnablePublishStep() returns (published: bool)
      requires Valid() && op.EnablePublishing?
      modifies this`op, this`enabled, this`server
      ensures Valid() && NoneOpens()
      ensures published <==> !closed
      ensures if published then op == EnableSpawning(old(op).bound) && enabled && server == Some(old(op).bound)
              else op == EnableDropping(old(op).bound) && !enabled
    {
      hide AllTracked;
      PublishKept(op, net);
      var id := op.bound;
      if closed || enabled {
        op := EnableDropping(id);
        return false;
      }
      enabled, server := true, Some(id);
      op := EnableSpawning(id);
      return true;
    }

    method EnableDropStep()
      requires Valid() && op.EnableDropping?
      modifies this`op, this`net
      ensures Valid() && NoneOpens() && op == Free && net == old(net).(open := old(net).open - {old(op).dropped})
    {
      hide AllTracked;
      DropKept(op, net);
      net := net.(open := net.open - {op.dropped});
      op := Free;
    }

    method EnableSpawnStep()
      requires Valid() && op.EnableSpawning?
      modifies this`op, this`net
      ensures Valid() && NoneOpens() && op == Free && net == old(net).(pending := old(net).pending + {old(op).published})
    {
      hide AllTracked;
      SpawnKept(server, op, net);
      net := net.(pending := net.pending + {op.published});
      op := Free;
    }

    // --- disable ---

    /** last is the disable at the end of the final close, which has set the closed flag before. */
    method DisableLockStep(last: bool)
      requires Valid() && op.Free? && (last ==> closed)
      modifies this`op
      ensures Valid() && NoneOpens() && op == DisableEntered(last)
    {
      hide AllTracked;
      OpKept(server, op, DisableEntered(last), net);
      op := DisableEntered(last);
    }

    method DisableDetachStep()
      requires Valid() && op.DisableEntered?
      modifies this`op, this`enabled, this`server
      ensures Valid() && NoneOpens() && op == DisableClosing(old(op).last, old(server)) && !enabled
    {
      hide AllTracked;
      DetachKept(server, op, net, op.last);
      op := DisableClosing(op.last, server);
      enabled, server := false, None;
    }

    method DisableCloseStep()
      requires Valid() && op.DisableClosing?
      modifies this`op, this`net, this`final
      ensures Valid() && NoneOpens() && op == Free
      ensures final == (old(final) || old(op).final)
      ensures net == Shut(old(net), old(op).detached)
    {
      hide AllTracked;
      CloseKept(op, net);
      net := Shut(net, op.detached);
      final := final || op.final;
      op := Free;
    }

    // --- the rest of the system ---

    method SetClosedStep()
      requires Valid()
      modifies this`closed
      ensures Valid() && NoneOpens() && closed
    {
      closed := true;
    }

    method ServeStep(id: Id)
      requires Valid() && id in net.pending
      modifies this`net
      ensures Valid() && NoneOpens() && net == Served(old(net), id)
    {
      hide AllTracked;
      ServeKept(server, op, net, id);
      net := Served(net, id);
    }

    /** What others can do while opMu is held elsewhere: set the closed flag or the port, and start serving. */
    method Others()
      requires Valid()
      modifies this
      ensures Valid() && NoneOpens() && op == old(op) && final == old(final)
      ensures enabled == old(enabled) && server == old(server)
      ensures net.open <= old(net.open)
    {
      hide AllTracked, Served;
      var steps: int := *;
      var i := 0;
      while i < steps
        invariant Valid() && NoneOpens() && op == old(op) && final == old(final)
        invariant enabled == old(enabled) && server == old(server)
        invariant net.open <= old(net.open)
      {
        OtherStep();
        i := i + 1;
      }
    }

    method OtherStep()
      requires Valid()
      modifies this`closed, this`port, this`net
      ensures Valid() && NoneOpens() && net.open <= old(net.open)
    {
      hide AllTracked;
      var choice: int, p: int := *, *;
      if choice == 0 {
        SetClosedStep();
      } else if choice == 1 {
        SetPort(if p >= 0 then p else 0);
      } else if net.pending != {} {
        var id :| id in net.pending;
        ServeStep(id);
      }
    }

    /** The next step of whoever holds opMu. */
    method HolderStep()
      requires Valid() && !op.Free?
      modifies this
      ensures Valid() && NoneOpens()
      ensures op.Rank() < old(op).Rank()
    {
      hide AllTracked, Bound, Shut;
      match op {
        case EnableEntered =>
          var answer := EnableCheckStep();
        case EnableBinding(_) =>
          var hasAddress: bool, canBind: bool := *, *;
          var answer := EnableBindStep(hasAddress, canBind);
        case EnablePublishing(_) =>
          var published := EnablePublishStep();
        case EnableDropping(_) =>
          EnableDropStep();
        case EnableSpawning(_) =>
          EnableSpawnStep();
        case DisableEntered(_) =>
          DisableDetachStep();
        case DisableClosing(_, _) =>
          DisableCloseStep();
      }
    }

    /** Other callers enable and disable any number of times, and then the lock is free. */
    method WaitForLock()
      requires Valid()
      modifies this
      ensures Valid() && NoneOpens() && op.Free?
    {
      hide AllTracked;
      var calls: int := *;
      var i := 0;
      while i < calls || !op.Free?
        invariant Valid() && NoneOpens()
        decreases if calls > i then calls - i else 0, op.Rank()
      {
        Others();
        if !op.Free? {
          HolderStep();
        } else {
          i := i + 1;
          var enables: bool, last: bool := *, *;
          if enables {
            EnableLockStep();
          } else {
            DisableLockStep(last && closed);
          }
        }
      }
    }

    // --- the three operations, against everything the others may do ---

    /** unset says whether the port was still unknown when the fields were looked at. */
    method Enable(hasAddress: bool, canBind: bool) returns (answer: Answer, ghost unset: bool)
      requires Valid()
      modifies this
      ensures Valid() && NoneOpens() && op.Free?
      ensures answer == Done ==> enabled || closed
      ensures answer == ShuttingDown ==> closed
      ensures answer == NoAddress ==> !hasAddress
      ensures answer == NotListening ==> hasAddress && unset
      ensures answer == CannotBind ==> hasAddress && !unset && !canBind
    {
      hide AllTracked, Bound;
      WaitForLock();
      EnableLockStep();
      Others();
      unset := port == 0;
      answer := EnableCheckStep();
      if op.Free? {
        return;
      }
      Others();
      answer := EnableBindStep(hasAddress, canBind);
      if op.Free? {
        return;
      }
      Others();
      var published := EnablePublishStep();
      Others();
      if published {
        EnableSpawnStep();
      } else {
        EnableDropStep();
      }
    }

    method Disable(last: bool)
      requires Valid() && (last ==> closed)
      modifies this
      ensures Valid() && NoneOpens() && op.Free? && !enabled && (last ==> final)
    {
      hide AllTracked, Shut;
      WaitForLock();
      DisableLockStep(last);
      Others();
      DisableDetachStep();
      Others();
      DisableCloseStep();
    }

    /** The final close: the flag first, then whatever listener there is. */
    method CloseAll()
      requires Valid()
      modifies this
      ensures Valid() && NoneOpens() && final && !enabled && op.Free?
    {
      hide AllTracked;
      SetClosedStep();
      Disable(true);
    }
  }

  /** Whenever opMu is free: LAN mode is enabled exactly when there is a server, whose listener is open and the only
      published one; any other open listener belongs to a closed server whose goroutine has not called Serve yet. */
  lemma EnabledIsOpen(m: LanMode)
    requires m.Valid() && m.op.Free?
    ensures m.enabled <==> m.server.Some?
    ensures m.net.open == IdSet(m.server) + m.net.pending * m.net.shut
    ensures m.net.pending * m.net.shut == {} <==> |m.net.open| == if m.enabled then 1 else 0
  {
    forall id: Id ensures id in m.net.open <==> m.server == Some(id) || (id in m.net.pending && id in m.net.shut) {
      assert Tracked(m.server, m.op, m.net, id);
    }
    var late := m.net.pending * m.net.shut;
    assert IdSet(m.server) !! late by {
      if m.server.Some? { assert Tracked(m.server, m.op, m.net, m.server.value); }
    }
    assert m.net.open == IdSet(m.server) + late;
    assert |m.net.open| == |IdSet(m.server)| + |late|;
  }

  /** After the final close has returned, a listener is open exactly while its goroutine has not called Serve yet, and
      nothing ever opens again (see NoneOpens, which every step keeps). */
  lemma FinalIsClosedIff(m: LanMode)
    requires m.Valid() && m.final
    ensures !m.enabled && m.net.open == m.net.pending
    ensures m.net.open == {} <==> m.net.pending == {}
  {
    forall id: Id ensures id in m.net.open <==> id in m.net.pending {
      assert Tracked(m.server, m.op, m.net, id);
    }
    assert m.net.open == m.net.pending;
  }

  /** A listener that is still open after the final close: its goroutine is not scheduled until later. */
  method LingersAfterClose() returns (m: LanMode)
    ensures m.Valid() && m.final && m.net.open != {}
  {
    hide AllTracked;
    m := new LanMode();
    m.SetPort(8117);
    m.EnableLockStep();
    var answer := m.EnableCheckStep();
    answer := m.EnableBindStep(true, true);
    var published := m.EnablePublishStep();
    m.EnableSpawnStep();
    m.SetClosedStep();
    m.DisableLockStep(true);
    m.DisableDetachStep();
    m.DisableCloseStep();
    FinalIsClosedIff(m);
  }
}
