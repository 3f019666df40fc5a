/**
  An asynchronous procedure of a dataflow graph and its ports.

  A procedure owns an append-only list of ports. Each port has a `ready` and
  an `active` flag; the procedure counts the ports that are active and not
  ready in `blockedPortsCount`. When a port change brings that counter to
  zero the procedure fires, like a Petri-net transition: it moves to
  Running, closes its control port again and submits its run step to the
  executor exactly once. The control port is the first port, registered by
  the procedure itself, and opened only by `Start`.

  Every public operation of the source runs under the procedure's monitor,
  so each is modelled as one sequential step. Calls into code outside this
  class become ghost records:
    - `submissions` counts the run steps handed to the executor,
    - `reports` lists the completions handed to the completion facility,
    - `leaves` counts the calls that take the procedure out of its parent graph.
  The flags of the ports are kept, in registration order, in the
  procedure's own sequence `ports`; a `Port` object is a handle on one
  position of that sequence.
*/
module AsyncProcs {
  import opened PortCount

  datatype ActorState = Created | Blocked | Running | Completed

  /** The error thrown by the user action, as far as the model needs it. */
  datatype Throwable = Throwable(message: string)

  /** What the user action did: returned, or threw `ex`. */
  datatype ActionOutcome = Returned | Threw(ex: Throwable)

  /** A completion reported to the completion facility. */
  datatype Report = Normal | Error(ex: Throwable)

  class AsyncProc {
    var state: ActorState
    var daemon: bool
    var ports: seq<PortFlags>
    var blockedPortsCount: int
    var controlport: Port?

    ghost var submissions: nat
    ghost var reports: seq<Report>
    ghost var leaves: nat

    /** The control port is a handle on the first registered port. */
    ghost predicate HasControl()
      reads this
    {
      1 <= |ports| && controlport != null && controlport.parent == this && controlport.index == 0
    }

    /** Until completion, the counter is the number of blocking ports. */
    ghost predicate Counted()
      reads this
    {
      state != Completed ==> blockedPortsCount == BlockedCount(ports)
    }

    /** Until completion the control port stays active, and it is ready
        exactly while the procedure is Blocked; a Blocked procedure always
        has a blocking port, so it cannot miss its firing. `starting` admits
        the one moment inside `Start` where the state is already Blocked
        and the control port not yet opened. */
    ghost predicate Controlled(starting: bool)
      reads this
    {
      1 <= |ports| &&
      (state != Completed ==>
        ports[0].active &&
        (ports[0].ready <==> state == Blocked && !starting) &&
        (state == Blocked ==> blockedPortsCount > 0))
    }

    /** The executor has been handed the run step at most once: not before
        firing, exactly once while Running. A completion is reported exactly
        when the procedure is Completed, and at most once. */
    ghost predicate Accounted()
      reads this
    {
      submissions <= 1 && |reports| <= 1 &&
      (state == Created || state == Blocked ==> submissions == 0) &&
      (state == Running ==> submissions == 1) &&
      (reports == [] <==> state != Completed)
    }

    ghost predicate Inv(starting: bool)
      reads this
    {
      HasControl() && Counted() && Controlled(starting) && Accounted()
    }

    /** The class invariant. */
    ghost predicate Valid()
      reads this
    {
      Inv(false)
    }

    /** The completion flag of the completion facility. */
    predicate IsCompleted()
      reads this
    {
      state == Completed
    }

    /** A fresh procedure is Created, with its control port registered
        not ready and active, so the counter starts at 1. */
    constructor ()
      ensures Valid()
      ensures state == Created && !daemon
      ensures ports == [PortFlags(false, true)] && blockedPortsCount == 1
      ensures submissions == 0 && reports == [] && leaves == 0
    {
      state := Created;
      daemon := false;
      ports := [];
      blockedPortsCount := 0;
      controlport := null;
      submissions := 0;
      reports := [];
      leaves := 0;
      new;
      controlport := new Port(this, false, true);
      assert ports == [PortFlags(false, true)];
    }

    /** Daemon status is one-way: once set, later calls do nothing; before
        that the argument is stored and the procedure leaves its parent. */
    method SetDaemon(daemon': bool)
      requires Valid()
      modifies this
      ensures Valid()
      ensures daemon == (old(daemon) || daemon')
      ensures leaves == old(leaves) + (if old(daemon) then 0 else 1)
      ensures state == old(state) && ports == old(ports) && blockedPortsCount == old(blockedPortsCount)
      ensures controlport == old(controlport) && submissions == old(submissions) && reports == old(reports)
    {
      if daemon {
        return;
      }
      daemon := daemon';
      leaves := leaves + 1;
    }

    /** Passes the control token: only the first call in state Created has an
        effect. It then opens the control port, which fires at once when the
        control port was the only blocking port, and otherwise leaves the
        procedure Blocked with one blocking port fewer. */
    method Start()
      requires Valid()
      modifies this
      ensures Valid()
      ensures controlport == old(controlport) && daemon == old(daemon)
      ensures reports == old(reports) && leaves == old(leaves)
      ensures old(state) != Created ==>
        state == old(state) && ports == old(ports) &&
        blockedPortsCount == old(blockedPortsCount) && submissions == old(submissions)
      ensures old(state) == Created && old(blockedPortsCount) == 1 ==>
        state == Running && ports == old(ports) && blockedPortsCount == 1 && submissions == 1
      ensures old(state) == Created && old(blockedPortsCount) > 1 ==>
        state == Blocked && ports == old(ports)[0 := PortFlags(true, true)] &&
        blockedPortsCount == old(blockedPortsCount) - 1 && submissions == 0
    {
      if state != Created {
        return;
      }
      ControlportUnblock();
    }

    /** Finishes normally: the first completion sets Completed and reports
        it; later completions are ignored. */
    method OnComplete()
      requires Valid()
      modifies this
      ensures Valid()
      ensures state == Completed
      ensures reports == if old(state) == Completed then old(reports) else [Normal]
      ensures ports == old(ports) && controlport == old(controlport)
      ensures blockedPortsCount == old(blockedPortsCount) && daemon == old(daemon)
      ensures submissions == old(submissions) && leaves == old(leaves)
    {
      if IsCompleted() {
        return;
      }
      state := Completed;
      reports := reports + [Normal];
    }

    /** Finishes with an error: the first completion sets Completed and
        reports `ex`; later completions are ignored. */
    method OnError(ex: Throwable)
      requires Valid()
      modifies this
      ensures Valid()
      ensures state == Completed
      ensures reports == if old(state) == Completed then old(reports) else [Error(ex)]
      ensures ports == old(ports) && controlport == old(controlport)
      ensures blockedPortsCount == old(blockedPortsCount) && daemon == old(daemon)
      ensures submissions == old(submissions) && leaves == old(leaves)
    {
      if IsCompleted() {
        return;
      }
      state := Completed;
      reports := reports + [Error(ex)];
    }

    /** The consistency check at the firing moment: scans the ports in order;
        the first active port whose readiness is wrong for its role (the
        control port must be not ready, every other port ready) yields
        WrongPortState, and otherwise a counter that disagrees with the
        recount yields CountMismatch. */
    method CheckPorts() returns (verdict: PortCheck)
      requires HasControl()
      ensures verdict == Passed <==>
        (forall k :: 0 <= k < |ports| ==> Placed(ports, k)) &&
        BlockedCount(ports) == blockedPortsCount
      ensures verdict.WrongPortState? ==>
        verdict.position < |ports| && !Placed(ports, verdict.position) &&
        forall k :: 0 <= k < verdict.position ==> Placed(ports, k)
      ensures verdict.CountMismatch? ==>
        (forall k :: 0 <= k < |ports| ==> Placed(ports, k)) &&
        verdict.actual == BlockedCount(ports) && verdict.expected == blockedPortsCount &&
        verdict.actual != verdict.expected
    {
      var actual := 0;
      var k := 0;
      while k < |ports|
        invariant 0 <= k <= |ports|
        invariant actual == BlockedCount(ports[..k])
        invariant forall j :: 0 <= j < k ==> Placed(ports, j)
      {
        assert ports[..k + 1][..k] == ports[..k];
        var port := ports[k];
        if port.active {
          if !port.ready {
            actual := actual + 1;
          }
          var mustBeBlocked := k == controlport.index;
          if mustBeBlocked == port.ready {
            assert !Placed(ports, k);
            return WrongPortState(k);
          }
        }
        k := k + 1;
      }
      assert ports[..k] == ports;
      if actual != blockedPortsCount {
        return CountMismatch(actual, blockedPortsCount);
      }
      return Passed;
    }

    /** Hands the run step to the executor, after the consistency check.
        Called only at the firing moment, when the control port is the one
        blocking port; the check then passes, so the source's
        IllegalStateException is never thrown. */
    method Fire()
      requires HasControl() && state == Running
      requires Blocking(ports[0]) && BlockedCount(ports) == 1 && blockedPortsCount == 1
      modifies this`submissions
      ensures submissions == old(submissions) + 1
    {
      FiringPortsPlaced(ports);
      var verdict := CheckPorts();
      if verdict != Passed {
        // the source throws IllegalStateException here
        assert false;
      }
      submissions := submissions + 1;
    }

    /** Alive means not completed; for a valid procedure, exactly while no
        completion has been reported. */
    function IsAlive(): (alive: bool)
      reads this
      ensures Accounted() ==> (alive <==> reports == [])
    {
      !IsCompleted()
    }

    /** Moves to Blocked and opens the control port; used by `Start` only. */
    method ControlportUnblock()
      requires Valid() && state == Created
      modifies this
      ensures Valid()
      ensures controlport == old(controlport) && daemon == old(daemon)
      ensures reports == old(reports) && leaves == old(leaves)
      ensures old(blockedPortsCount) == 1 ==>
        state == Running && ports == old(ports) && blockedPortsCount == 1 && submissions == 1
      ensures old(blockedPortsCount) > 1 ==>
        state == Blocked && ports == old(ports)[0 := PortFlags(true, true)] &&
        blockedPortsCount == old(blockedPortsCount) - 1 && submissions == 0
    {
      NoneBlocking(ports);
      state := Blocked;
      var cp := controlport;
      cp.Unblock();
    }

    /** Moves to Running and closes the control port again, so that the
        counter is back at 1 and no other port change can fire a second
        time. Used at the firing moment only. */
    method ControlportBlock()
      requires HasControl() && state == Blocked
      requires blockedPortsCount == 0 && BlockedCount(ports) == 0 && ports[0].active
      modifies this
      ensures HasControl() && state == Running
      ensures ports == old(ports)[0 := PortFlags(false, true)]
      ensures blockedPortsCount == 1 && BlockedCount(ports) == 1
      ensures controlport == old(controlport) && daemon == old(daemon)
      ensures submissions == old(submissions) && reports == old(reports) && leaves == old(leaves)
    {
      NoneBlocking(ports);
      state := Running;
      var cp := controlport;
      cp.Block();
      BlockedCountUpdate(old(ports), 0, PortFlags(false, true));
    }

    /** One blocking port fewer, after a port has stopped blocking (the
        common tail of `Port.Unblock` and `Port.SetActive`): a counter already
        at zero is the source's IllegalStateException, ruled out by the
        invariant; a counter that reaches zero fires the procedure. */
    method CountDown()
      requires HasControl() && Accounted() && state != Completed
      requires blockedPortsCount == BlockedCount(ports) + 1
      requires ports[0].active && (ports[0].ready <==> state == Blocked)
      modifies this
      ensures Valid()
      ensures controlport == old(controlport) && daemon == old(daemon)
      ensures reports == old(reports) && leaves == old(leaves)
      ensures old(blockedPortsCount) == 1 ==>
        old(state) == Blocked &&
        ports == old(ports)[0 := PortFlags(false, true)] && state == Running &&
        blockedPortsCount == 1 && submissions == old(submissions) + 1
      ensures old(blockedPortsCount) != 1 ==>
        ports == old(ports) && state == old(state) &&
        blockedPortsCount == old(blockedPortsCount) - 1 && submissions == old(submissions)
    {
      if blockedPortsCount == 0 {
        // the source throws IllegalStateException here
        assert false;
      }
      blockedPortsCount := blockedPortsCount - 1;
      if blockedPortsCount == 0 {
        NoneBlocking(ports);
        ControlportBlock();
        Fire();
      }
    }

    /** The run step: performs the user action (whose outcome is the
        parameter) and completes normally or with the thrown error. The
        procedure ends Completed in every case. */
    method Run(outcome: ActionOutcome)
      requires Valid()
      modifies this
      ensures Valid()
      ensures state == Completed
      ensures reports == if old(state) == Completed then old(reports)
                         else if outcome.Returned? then [Normal] else [Error(outcome.ex)]
      ensures ports == old(ports) && controlport == old(controlport)
      ensures blockedPortsCount == old(blockedPortsCount) && daemon == old(daemon)
      ensures submissions == old(submissions) && leaves == old(leaves)
    {
      match outcome
      case Returned => OnComplete();
      case Threw(ex) => OnError(ex);
    }
  }

  /** The result of the consistency check. */
  datatype PortCheck = Passed | WrongPortState(position: nat) | CountMismatch(actual: nat, expected: int)

  /** A port of `parent`: a handle on position `index` of `parent.ports`,
      where its two flags live. The control port is the port at position 0. */
  class Port {
    const parent: AsyncProc
    const index: nat

    ghost predicate Registered()
      reads parent
    {
      index < |parent.ports|
    }

    /** Registers a new port with `parent`: appends its flags, and counts it
        when it starts active and not ready. */
    constructor (parent: AsyncProc, ready: bool, active: bool)
      modifies parent
      ensures this.parent == parent && index == old(|parent.ports|) && Registered()
      ensures parent.ports == old(parent.ports) + [PortFlags(ready, active)]
      ensures parent.blockedPortsCount == old(parent.blockedPortsCount) + (if !ready && active then 1 else 0)
      ensures old(parent.Counted()) ==> parent.Counted()
      ensures old(parent.Valid()) ==> parent.Valid()
      ensures parent.state == old(parent.state) && parent.controlport == old(parent.controlport)
      ensures parent.daemon == old(parent.daemon) && parent.submissions == old(parent.submissions)
      ensures parent.reports == old(parent.reports) && parent.leaves == old(parent.leaves)
    {
      this.parent := parent;
      this.index := |parent.ports|;
      new;
      BlockedCountAppend(parent.ports, PortFlags(ready, active));
      parent.ports := parent.ports + [PortFlags(ready, active)];
      if !ready && active {
        parent.blockedPortsCount := parent.blockedPortsCount + 1;
      }
    }

    /** Readiness of the port. The control port of a valid procedure is
        ready exactly while the procedure is Blocked. */
    function IsReady(): (r: bool)
      reads parent
      requires Registered()
      ensures parent.Valid() && index == 0 && parent.state != Completed ==>
        (r <==> parent.state == Blocked)
    {
      parent.ports[index].ready
    }

    /** Activity of the port. The control port of a valid procedure stays
        active until the procedure completes. */
    function IsActive(): (r: bool)
      reads parent
      requires Registered()
      ensures parent.Valid() && index == 0 && parent.state != Completed ==> r
    {
      parent.ports[index].active
    }

    /** Sets the port not ready. Never fires: it counts the port as blocking
        when it was ready and is active, unless the procedure has completed. */
    method Block()
      requires Registered() && parent.Counted()
      modifies parent
      ensures parent.Counted()
      ensures parent.ports == old(parent.ports)[index := PortFlags(false, old(parent.ports[index].active))]
      ensures parent.blockedPortsCount == old(parent.blockedPortsCount) +
        (if old(parent.ports[index] == PortFlags(true, true) && parent.state != Completed) then 1 else 0)
      ensures index != 0 && old(parent.Valid()) ==> parent.Valid()
      ensures parent.controlport == old(parent.controlport) && parent.state == old(parent.state)
      ensures parent.daemon == old(parent.daemon) && parent.submissions == old(parent.submissions)
      ensures parent.reports == old(parent.reports) && parent.leaves == old(parent.leaves)
    {
      var port := parent.ports[index];
      if !port.ready {
        return;
      }
      BlockedCountUpdate(parent.ports, index, PortFlags(false, port.active));
      parent.ports := parent.ports[index := PortFlags(false, port.active)];
      if !port.active {
        return;
      }
      if parent.IsCompleted() {
        return;
      }
      parent.blockedPortsCount := parent.blockedPortsCount + 1;
    }

    /** The port is active, not ready, and its procedure not completed:
        opening it removes one blocking port from the count. */
    ghost predicate CountsOnUnblock()
      reads parent
      requires Registered()
    {
      Blocking(parent.ports[index]) && parent.state != Completed
    }

    /** Sets the port ready. When the port is active and the procedure not
        completed, one blocking port fewer is counted; when that was the
        last one, the procedure fires: it becomes Running, its control port
        is closed again (the counter goes back to 1) and one run step is
        submitted. Other ports call this only on a valid procedure; the
        control port is opened only by `Start`, just after the move to
        Blocked. */
    method Unblock()
      requires Registered()
      requires if index == 0 then parent.Inv(true) && parent.state == Blocked else parent.Valid()
      modifies parent
      ensures parent.Valid()
      ensures parent.controlport == old(parent.controlport) && parent.daemon == old(parent.daemon)
      ensures parent.reports == old(parent.reports) && parent.leaves == old(parent.leaves)
      ensures old(CountsOnUnblock()) && old(parent.blockedPortsCount) == 1 ==>
        old(parent.state) == Blocked &&
        parent.ports == old(parent.ports)[index := PortFlags(true, true)][0 := PortFlags(false, true)] &&
        parent.state == Running && parent.blockedPortsCount == 1 &&
        parent.submissions == old(parent.submissions) + 1
      ensures old(CountsOnUnblock()) && old(parent.blockedPortsCount) != 1 ==>
        parent.ports == old(parent.ports)[index := PortFlags(true, true)] &&
        parent.state == old(parent.state) && parent.blockedPortsCount == old(parent.blockedPortsCount) - 1 &&
        parent.submissions == old(parent.submissions)
      ensures !old(CountsOnUnblock()) ==>
        parent.ports == old(parent.ports)[index := PortFlags(true, old(parent.ports[index].active))] &&
        parent.state == old(parent.state) && parent.blockedPortsCount == old(parent.blockedPortsCount) &&
        parent.submissions == old(parent.submissions)
    {
      var port := parent.ports[index];
      if port.ready {
        return;
      }
      BlockedCountUpdate(parent.ports, index, PortFlags(true, port.active));
      parent.ports := parent.ports[index := PortFlags(true, port.active)];
      if !port.active {
        return;
      }
      if parent.IsCompleted() {
        return;
      }
      parent.CountDown();
    }

    /** Switching the activity of a not-ready port of a procedure that has
        not completed changes its contribution to the count. */
    ghost predicate CountsOnSetActive(active': bool)
      reads parent
      requires Registered()
    {
      parent.ports[index].active != active' && !parent.ports[index].ready && parent.state != Completed
    }

    /** Includes the port in, or excludes it from, the firing rule. Nothing
        happens when the flag is unchanged. The flag is stored even after
        completion, but the count changes only for a not-ready port of a
        procedure that has not completed: activating counts one blocking
        port more, deactivating one fewer, and the last one fires the
        procedure. The control port is never switched. */
    method SetActive(active': bool)
      requires Registered() && index != 0 && parent.Valid()
      modifies parent
      ensures parent.Valid()
      ensures parent.controlport == old(parent.controlport) && parent.daemon == old(parent.daemon)
      ensures parent.reports == old(parent.reports) && parent.leaves == old(parent.leaves)
      ensures old(CountsOnSetActive(active')) && !active' && old(parent.blockedPortsCount) == 1 ==>
        old(parent.state) == Blocked &&
        parent.ports == old(parent.ports)[index := PortFlags(false, false)][0 := PortFlags(false, true)] &&
        parent.state == Running && parent.blockedPortsCount == 1 &&
        parent.submissions == old(parent.submissions) + 1
      ensures old(CountsOnSetActive(active')) && !active' && old(parent.blockedPortsCount) != 1 ==>
        parent.ports == old(parent.ports)[index := PortFlags(false, false)] &&
        parent.state == old(parent.state) && parent.blockedPortsCount == old(parent.blockedPortsCount) - 1 &&
        parent.submissions == old(parent.submissions)
      ensures old(CountsOnSetActive(active')) && active' ==>
        parent.ports == old(parent.ports)[index := PortFlags(false, true)] &&
        parent.state == old(parent.state) && parent.blockedPortsCount == old(parent.blockedPortsCount) + 1 &&
        parent.submissions == old(parent.submissions)
      ensures !old(CountsOnSetActive(active')) ==>
        parent.ports == old(parent.ports)[index := PortFlags(old(parent.ports[index].ready), active')] &&
        parent.state == old(parent.state) && parent.blockedPortsCount == old(parent.blockedPortsCount) &&
        parent.submissions == old(parent.submissions)
    {
      var port := parent.ports[index];
      var wasActive := port.active;
      if wasActive == active' {
        return;
      }
      BlockedCountUpdate(parent.ports, index, PortFlags(port.ready, active'));
      parent.ports := parent.ports[index := PortFlags(port.ready, active')];
      var wasBlocked := !port.ready && wasActive;
      var needBlocked := !port.ready && active';
      if wasBlocked == needBlocked {
        return;
      }
      if parent.IsCompleted() {
        return;
      }
      if needBlocked {
        parent.blockedPortsCount := parent.blockedPortsCount + 1;
        return;
      }
      parent.CountDown();
    }
  }
}
