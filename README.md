# df4j asynchronous procedure: the firing rule

This project models the core of df4j's dataflow primitive, the class
`AsyncProc` and its nested classes `Port` and `ControlPort`
(`df4j-core/src/main/java/org/df4j/core/dataflow/AsyncProc.java`), in Dafny,
and proves the properties its firing rule depends on.

An `AsyncProc` is an asynchronous procedure that fires like a Petri-net
transition. It owns an append-only list of ports. Each port has a `ready` flag
and an `active` flag. The procedure counts the ports that are active and not
ready in `blockedPortsCount`. Its lifecycle is Created → Blocked → Running →
Completed. The constructor registers a private control port that is not ready
and active, so the count starts at 1. `start()` moves to Blocked and opens the
control port. Whenever `unblock` or `setActive` brings the count to zero, the
procedure fires. It moves to Running, closes the control port again (the count
goes back to 1) and submits its `run` step to the executor. `run` performs the
user action and then completes normally or with the error the action threw.

Files:

- `port_count.dfy`, module `PortCount`: the flags of a port (`PortFlags`),
  "blocking" (active and not ready), the number of blocking ports
  (`BlockedCount`), and the lemmas about it that the bookkeeping relies on.
- `async_proc.dfy`, module `AsyncProcs`: the classes `AsyncProc` and `Port`,
  with one method per operation of the source, all proved against the class
  invariant `Valid()`.
- `scenarios.dfy`, module `Scenarios`: client programs that drive a procedure
  through the public operations. They show, from the contracts alone, when it
  fires and how it ends.

How the model is built:

- The source runs every public operation under the procedure's monitor, so
  each operation is one sequential step of a Dafny method.
- The flags of all ports live in the procedure's field `ports: seq<PortFlags>`,
  in registration order. A `Port` object is a handle: its owner and its
  position in that sequence. The control port is position 0, because the
  `controlport` field initializer runs before any subclass can register a port.
- Calls into code that is not part of this model become ghost records on the
  procedure:
  - `submissions` counts the `run` steps handed to the executor;
  - `reports` lists the completions passed to the superclass's
    `onComplete`/`onError`;
  - `leaves` counts calls to `leaveParent`.
- The superclass's `isCompleted()` is `state == Completed`.
- The class invariant `Valid()` has four parts:
  - `HasControl`: the control port is registered at position 0.
  - `Counted`: until completion, `blockedPortsCount` equals the number of
    active, not-ready ports.
  - `Controlled`: until completion, the control port is active, and it is
    ready exactly while the procedure is Blocked. A Blocked procedure always
    has a blocking port, so a firing cannot be missed.
  - `Accounted`: no run step is submitted before firing, and exactly one has
    been submitted while Running, so the procedure fires at most once. A
    completion is reported exactly once the procedure is Completed, and only
    once.
- Every operation preserves `Valid()`. From it follow the properties below.
  - Neither `IllegalStateException` "count == 0" branch can be reached
    (`CountDown`).
  - The consistency check in `checkPorts` passes at every firing (`Fire`,
    `FiringPortsPlaced`).
  - A second `start()` changes nothing.
  - No port change after firing can fire again.
- The control port is private in the source. Only `start()` opens it, and
  only the firing step closes it again. The model states this in the
  preconditions of the port methods:
  - `SetActive` requires a port other than the control port;
  - `Unblock` on the control port requires the state that `start()` has just
    set up.
- Two details of the source that the model keeps:
  - `setDaemon(false)` on a procedure that is not yet a daemon still stores
    `false` and calls `leaveParent` (AsyncProc.java:56-60).
  - `setActive` stores the new flag (AsyncProc.java:251) before it checks
    completion (AsyncProc.java:257), so on a completed procedure only the
    count is left alone.

## Model

| member | source | states |
|---|---|---|
| `PortCount.BlockedCountIsCardinality` | df4j-core/src/main/java/org/df4j/core/dataflow/AsyncProc.java:111-119 | the count is the number of positions whose port is active and not ready, the number `checkPorts` recomputes by scanning |
| `PortCount.BlockedCountAppend` | df4j-core/src/main/java/org/df4j/core/dataflow/AsyncProc.java:208-216 | registering a port raises the count by one exactly when the port is created active and not ready |
| `PortCount.BlockedCountUpdate` | df4j-core/src/main/java/org/df4j/core/dataflow/AsyncProc.java:277-318 | changing one port's flags changes the count by the difference of its old and new blocking status, and nothing else |
| `PortCount.NoneBlocking` | df4j-core/src/main/java/org/df4j/core/dataflow/AsyncProc.java:313-316 | the count is zero exactly when no port is active and not ready (the firing condition), in both directions |
| `PortCount.SoleBlocker` | df4j-core/src/main/java/org/df4j/core/dataflow/AsyncProc.java:117-123 | with a count of one, a blocking port is the only one |
| `PortCount.ActivityLikeReadiness` | df4j-core/src/main/java/org/df4j/core/dataflow/AsyncProc.java:245-272 | deactivating a not-ready port counts like opening it, activating it like closing it; a ready port's activity does not affect the count |
| `PortCount.FiringPortsPlaced` | df4j-core/src/main/java/org/df4j/core/dataflow/AsyncProc.java:117-124 | when the control port is the one blocking port, every active port passes the per-port test of `checkPorts` (control port not ready, every other port ready) |
| `AsyncProcs.AsyncProc.constructor` | df4j-core/src/main/java/org/df4j/core/dataflow/AsyncProc.java:32-49 | a new procedure is Created, not a daemon, with only the control port registered, not ready and active, count 1, nothing submitted or reported |
| `AsyncProcs.AsyncProc.SetDaemon` | df4j-core/src/main/java/org/df4j/core/dataflow/AsyncProc.java:55-61 | once daemon, nothing changes; otherwise the argument is stored and the procedure leaves its parent exactly once |
| `AsyncProcs.AsyncProc.Start` | df4j-core/src/main/java/org/df4j/core/dataflow/AsyncProc.java:75-80 | outside Created nothing changes; in Created the control port opens: with count 1 it fires (Running, one submission, count back to 1), else Blocked with one blocking port fewer; the invariant is kept |
| `AsyncProcs.AsyncProc.OnComplete` | df4j-core/src/main/java/org/df4j/core/dataflow/AsyncProc.java:85-93 | ends Completed; the first call reports a normal completion, later calls change nothing |
| `AsyncProcs.AsyncProc.OnError` | df4j-core/src/main/java/org/df4j/core/dataflow/AsyncProc.java:99-107 | ends Completed; the first call reports the error, later calls change nothing |
| `AsyncProcs.AsyncProc.CheckPorts` | df4j-core/src/main/java/org/df4j/core/dataflow/AsyncProc.java:109-129 | Passed exactly when every active port has the readiness its role requires and the recount equals the counter; otherwise the first misplaced port, or the two disagreeing counts |
| `AsyncProcs.AsyncProc.Fire` | df4j-core/src/main/java/org/df4j/core/dataflow/AsyncProc.java:138-141 | at the firing moment the check passes (its exception is unreachable) and exactly one run step is submitted |
| `AsyncProcs.AsyncProc.IsAlive` | df4j-core/src/main/java/org/df4j/core/dataflow/AsyncProc.java:143-146 | alive exactly while no completion has been reported |
| `AsyncProcs.AsyncProc.ControlportUnblock` | df4j-core/src/main/java/org/df4j/core/dataflow/AsyncProc.java:148-151 | from Created, moves to Blocked and opens the control port, firing when it was the last blocking port |
| `AsyncProcs.AsyncProc.ControlportBlock` | df4j-core/src/main/java/org/df4j/core/dataflow/AsyncProc.java:153-156 | at the firing moment, moves to Running and closes the control port again, so the count is back at 1 and the control port is the only blocking port |
| `AsyncProcs.AsyncProc.CountDown` | df4j-core/src/main/java/org/df4j/core/dataflow/AsyncProc.java:264-270 | the tail shared with lines 310-316: the counter is never already zero (the exception is unreachable); it drops by one, and on reaching zero the procedure fires |
| `AsyncProcs.AsyncProc.Run` | df4j-core/src/main/java/org/df4j/core/dataflow/AsyncProc.java:162-169 | always ends Completed, reporting a normal completion when the action returned and its error when it threw, unless already completed |
| `AsyncProcs.Port.constructor` | df4j-core/src/main/java/org/df4j/core/dataflow/AsyncProc.java:208-219 | appends the port's flags to the owner's ports and raises the count exactly when the port is not ready and active; keeps the invariant |
| `AsyncProcs.Port.IsReady` | df4j-core/src/main/java/org/df4j/core/dataflow/AsyncProc.java:233-237 | the control port of a live procedure is ready exactly while the procedure is Blocked |
| `AsyncProcs.Port.IsActive` | df4j-core/src/main/java/org/df4j/core/dataflow/AsyncProc.java:239-243 | the control port of a live procedure is always active |
| `AsyncProcs.Port.SetActive` | df4j-core/src/main/java/org/df4j/core/dataflow/AsyncProc.java:245-272 | no-op when the flag is unchanged; the flag is always stored; the count moves only for a not-ready port of a live procedure, up on activation, down on deactivation, firing when it reaches zero |
| `AsyncProcs.Port.Block` | df4j-core/src/main/java/org/df4j/core/dataflow/AsyncProc.java:277-291 | never fires or changes the state; a ready port becomes not ready, and the count rises only when the port is active and the procedure live |
| `AsyncProcs.Port.Unblock` | df4j-core/src/main/java/org/df4j/core/dataflow/AsyncProc.java:298-318 | no-op on a ready port; otherwise the port becomes ready, and for an active port of a live procedure the count drops by one, firing (Running, control port closed, one submission) when it reaches zero |

## Left out

- Concurrency: the monitors (`synchronized`) are not modelled. Each public
  operation is one atomic step. So the model cannot show the window in
  `onComplete`/`onError` between setting `Completed` under the lock and
  calling the superclass outside it.
- The executor (`getExecutor().execute`) is not part of this model. Firing
  records a submission in the ghost counter `submissions`.
- `Node`, `Dataflow` and the completion superclass are not part of this model.
  `leaveParent` is recorded in the ghost counter `leaves`, and
  `super.onComplete`/`super.onError` in the ghost list `reports`.
  `isCompleted()` is `state == Completed`. The constructor's `Dataflow`
  argument and graph registration are dropped.
- The user action `runAction` is not modelled. Its outcome (returned or threw)
  is the parameter of `Run`.
- `ControlPort` as a separate subclass: Dafny has no class inheritance without
  traits. The control port is the `Port` that the procedure's constructor
  registers first, not ready and active, which is exactly what
  `ControlPort(parent)` does.
- The constructors `Port(parent, ready)` and `Port(parent)` only supply
  defaults (`active = true`, and `ready = false`). Dafny constructors cannot
  delegate, so they are the three-argument constructor called with those
  values.
- Port identity: a port's flags live in its owner's `ports` sequence, and a
  `Port` object is a handle on one position of it. Sharing a `Port` object is
  therefore not modelled as aliasing of mutable fields.
- `getState()`, `isDaemon()` and `getParent()` are plain field reads in the
  model. The interface `PortI` only declares `block`, `unblock` and `isReady`.
- `toString`, `portsToString` and the `checkingMode` constant are diagnostics.
  `checkingMode` is taken as true, so `checkPorts` always scans.
- `blockedPortsCount` is a Java `int`. The model uses an unbounded integer,
  because the count never exceeds the number of ports.
- `AsyncProcs.Port.Block` promises the full invariant only for ports other than
  the control port. The source closes the control port only from
  `_controlportBlock`, whose own contract states the result.
- `df4j-nio2/src/test/java/org/df4j/nio2/net/echo/EchoServerConnection.java` is
  a network echo test client built on classes that are not part of this model.
