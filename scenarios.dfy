/**
  Client programs that drive an asynchronous procedure through its public
  operations and check, from the operations' contracts alone, when it fires
  and how it ends.
*/
module Scenarios {
  import opened PortCount
  import opened AsyncProcs

  /** No port besides the control port: starting fires at once; the run
      step completes the procedure normally. */
  method StartAloneFires() {
    var proc := new AsyncProc();
    proc.Start();
    assert proc.state == Running && proc.submissions == 1;
    proc.Run(Returned);
    assert proc.state == Completed && proc.reports == [Normal];
    proc.Start();
    assert proc.state == Completed && proc.submissions == 1;
  }

  /** Two ports created not ready: starting does not fire, opening the
      first does not fire, opening the second does. Later port changes do
      not fire again. */
  method LastUnblockFires() {
    var proc := new AsyncProc();
    var a := new Port(proc, false, true);
    var b := new Port(proc, false, true);
    assert proc.blockedPortsCount == 3;
    proc.Start();
    assert proc.state == Blocked && proc.blockedPortsCount == 2;
    a.Unblock();
    assert proc.state == Blocked && proc.blockedPortsCount == 1 && proc.submissions == 0;
    b.Unblock();
    assert proc.state == Running && proc.blockedPortsCount == 1 && proc.submissions == 1;
    a.Block();
    a.Unblock();
    assert proc.state == Running && proc.submissions == 1;
  }

  /** A port opened before `Start` only lowers the count; deactivating the
      last blocking port fires the procedure. */
  method DeactivationFires() {
    var proc := new AsyncProc();
    var a := new Port(proc, true, true);
    var b := new Port(proc, false, true);
    a.Block();
    a.Unblock();
    proc.Start();
    assert proc.state == Blocked && proc.blockedPortsCount == 1;
    b.SetActive(true);
    assert proc.state == Blocked && proc.blockedPortsCount == 1;
    b.SetActive(false);
    assert proc.state == Running && proc.submissions == 1;
  }

  /** A throwing user action still completes the procedure, with the error
      reported once; a later normal completion is ignored. */
  method FailingActionCompletes(ex: Throwable) {
    var proc := new AsyncProc();
    proc.Start();
    proc.Run(Threw(ex));
    assert proc.state == Completed && proc.reports == [Error(ex)];
    proc.OnComplete();
    assert proc.reports == [Error(ex)];
  }

  /** Setting daemon twice leaves the parent graph once. */
  method DaemonOnce() {
    var proc := new AsyncProc();
    proc.SetDaemon(true);
    proc.SetDaemon(true);
    assert proc.daemon && proc.leaves == 1;
  }
}
