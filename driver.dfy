/**
 * The driver loop of src/main.rs: after `setup`, loop forever, re-running the connect-and-handshake
 * step while `do_handshake` is set, then receiving and handling one message and reacting to the
 * classified result. The peer's behaviour is abstract: each iteration observes one `Outcome`.
 */
module Driver {
  import opened Wrappers
  import opened BitcoinError

  /** Why the process panicked. */
  datatype Panic = SetupFailed(message: string) | ReceiveFailed(recvError: Error) | HandleFailed(handleError: Error)

  /** The loop is running with its `do_handshake` flag, or the process has panicked. */
  datatype DriverState = Running(doHandshake: bool) | Fatal(panic: Panic)

  /**
   * What one iteration would observe: whether `connect_handshake_backoff` succeeds, what
   * `recv_message` returns, and what `handle_message` returns for the received message.
   * Each is consulted only if the iteration gets that far.
   */
  datatype Outcome = Outcome(handshakeOk: bool, received: Result<(), Error>, handled: Result<(), Error>)

  /** Which of the three calls an iteration made. */
  datatype Actions = Actions(handshook: bool, received: bool, handled: bool)

  datatype StepResult = StepResult(next: DriverState, did: Actions)

  /** An outcome that panics the loop if its receive is reached. */
  predicate CarriesFatalError(o: Outcome) {
    || (o.received.Err? && o.received.error != ConnectionBroken)
    || (o.received.Ok? && o.handled.Err? && o.handled.error != UnhandledMessage && o.handled.error != ConnectionBroken)
  }

  /** `setup(...).unwrap()` before the loop, then a flag that starts out set. */
  function Start(setup: Result<(), string>): (s: DriverState)
    ensures setup.Ok? ==> s == Running(true)
    ensures setup.Err? ==> s == Fatal(SetupFailed(setup.error))
  {
    match setup
    case Ok(_) => Running(true)
    case Err(msg) => Fatal(SetupFailed(msg))
  }

  /** One iteration of the loop, from the flag it starts with. */
  function Step(doHandshake: bool, o: Outcome): (r: StepResult)
    // the handshake runs exactly when the flag is set; a failed one skips the rest of the iteration
    ensures r.did.handshook == doHandshake
    ensures doHandshake && !o.handshakeOk ==> r == StepResult(Running(true), Actions(true, false, false))
    // a message is received only once the flag is clear, and handled only if it was received
    ensures r.did.received <==> !doHandshake || o.handshakeOk
    ensures r.did.handled <==> r.did.received && o.received.Ok?
    // ConnectionBroken from either call sets the flag again
    ensures r.did.received && o.received == Err(ConnectionBroken) ==> r.next == Running(true)
    ensures r.did.handled && o.handled == Err(ConnectionBroken) ==> r.next == Running(true)
    // success and UnhandledMessage from handling keep the (clear) flag and the loop going
    ensures r.did.handled && (o.handled.Ok? || o.handled == Err(UnhandledMessage)) ==> r.next == Running(false)
    // every other error from either call panics, and nothing else does
    ensures r.next.Fatal? <==> r.did.received && CarriesFatalError(o)
    ensures r.next.Fatal? && o.received.Err? ==> r.next.panic == ReceiveFailed(o.received.error)
    ensures r.next.Fatal? && o.received.Ok? ==> r.next.panic == HandleFailed(o.handled.error)
  {
    if doHandshake && !o.handshakeOk then
      StepResult(Running(true), Actions(true, false, false))
    else
      match o.received
      case Err(e) =>
        if e == ConnectionBroken then StepResult(Running(true), Actions(doHandshake, true, false))
        else StepResult(Fatal(ReceiveFailed(e)), Actions(doHandshake, true, false))
      case Ok(_) =>
        var did := Actions(doHandshake, true, true);
        match o.handled
        case Ok(_) => StepResult(Running(false), did)
        case Err(e) =>
          if e == UnhandledMessage then StepResult(Running(false), did)
          else if e == ConnectionBroken then StepResult(Running(true), did)
          else StepResult(Fatal(HandleFailed(e)), did)
  }

  /** The loop over a finite run of outcomes; a panic ends it. */
  function Run(s: DriverState, trace: seq<Outcome>): (r: DriverState)
    ensures trace == [] ==> r == s
    // a panic inside the loop comes from receiving or handling, never from setup
    ensures s.Running? && r.Fatal? ==> r.panic.ReceiveFailed? || r.panic.HandleFailed?
    decreases |trace|
  {
    if trace == [] || s.Fatal? then s else Run(Step(s.doHandshake, trace[0]).next, trace[1..])
  }

  lemma {:induction false} RunAppend(s: DriverState, a: seq<Outcome>, b: seq<Outcome>)
    ensures Run(s, a + b) == Run(Run(s, a), b)
    decreases |a|
  {
    if a != [] && s.Running? {
      assert (a + b)[1..] == a[1..] + b;
      RunAppend(Step(s.doHandshake, a[0]).next, a[1..], b);
    } else if a == [] {
      assert a + b == b;
    }
  }

  /** Once panicked, the process stays panicked. */
  lemma {:induction false} RunFatalStays(s: DriverState, trace: seq<Outcome>)
    requires s.Fatal?
    ensures Run(s, trace) == s
  {
  }

  /** The loop panics only if some outcome carries an error other than the tolerated ones. */
  lemma {:induction false} PanicNeedsFatalError(flag: bool, trace: seq<Outcome>)
    requires Run(Running(flag), trace).Fatal?
    ensures exists i :: 0 <= i < |trace| && CarriesFatalError(trace[i])
    decreases |trace|
  {
    var o := trace[0];
    var next := Step(flag, o).next;
    if next.Running? {
      PanicNeedsFatalError(next.doHandshake, trace[1..]);
      var i :| 0 <= i < |trace[1..]| && CarriesFatalError(trace[1..][i]);
      assert trace[i + 1] == trace[1..][i];
    } else {
      assert CarriesFatalError(trace[0]);
    }
  }

  /** A peer that never reports a fatal error keeps the loop running over every finite trace. */
  lemma NoFatalErrorKeepsRunning(flag: bool, trace: seq<Outcome>)
    requires forall i :: 0 <= i < |trace| ==> !CarriesFatalError(trace[i])
    ensures Run(Running(flag), trace).Running?
  {
    if Run(Running(flag), trace).Fatal? {
      PanicNeedsFatalError(flag, trace);
    }
  }

  /**
   * `main`: the loop itself, over the first `|trace|` iterations of the peer's behaviour. It stops
   * early only on a panic, and its result is the specification `Run` applied to the whole trace
   * (and to the prefix it consumed).
   */
  method Drive(setup: Result<(), string>, trace: seq<Outcome>) returns (final: DriverState, iterations: nat)
    ensures final == Run(Start(setup), trace)
    ensures iterations <= |trace| && final == Run(Start(setup), trace[..iterations])
    ensures final.Running? ==> iterations == |trace|
  {
    if setup.Err? {
      return Fatal(SetupFailed(setup.error)), 0;
    }
    var doHandshake := true;
    var i := 0;
    while i < |trace|
      invariant 0 <= i <= |trace|
      invariant Run(Start(setup), trace[..i]) == Running(doHandshake)
    {
      var o := trace[i];
      ghost var before := doHandshake;
      RunAppend(Start(setup), trace[..i], [o]);
      assert trace[..i + 1] == trace[..i] + [o];
      i := i + 1;
      if doHandshake {
        if o.handshakeOk {
          doHandshake := false;
        } else {
          continue;
        }
      }
      match o.received {
        case Ok(_) =>
          match o.handled {
            case Ok(_) =>
            case Err(UnhandledMessage) =>
            case Err(ConnectionBroken) =>
              doHandshake := true;
            case Err(e) =>
              final, iterations := Fatal(HandleFailed(e)), i;
              FatalAt(setup, trace, i);
              return;
          }
        case Err(ConnectionBroken) =>
          doHandshake := true;
        case Err(e) =>
          final, iterations := Fatal(ReceiveFailed(e)), i;
          FatalAt(setup, trace, i);
          return;
      }
    }
    assert trace[..i] == trace;
    return Running(doHandshake), i;
  }

  /** A panic after the first k outcomes is also the result of the whole trace. */
  lemma FatalAt(setup: Result<(), string>, trace: seq<Outcome>, k: nat)
    requires k <= |trace| && Run(Start(setup), trace[..k]).Fatal?
    ensures Run(Start(setup), trace) == Run(Start(setup), trace[..k])
  {
    assert trace == trace[..k] + trace[k..];
    RunAppend(Start(setup), trace[..k], trace[k..]);
    RunFatalStays(Run(Start(setup), trace[..k]), trace[k..]);
  }
}
