/**
 * The documentation-server supervisor (pkg/doceng/engine.go).
 *
 * The background loop launches a pkgsite runtime, then waits for either the
 * context to be done (kill the runtime and return) or a command: a "reload"
 * kills the current runtime and launches a new one with the same working
 * directory and address. A failed launch, or a failed kill during a reload,
 * sends one fatal error and ends the loop; a failed kill on context done is
 * only logged.
 *
 * Runtimes are numbered by generation in launch order; `Run` and `Kill` are
 * abstract fallible operations whose outcomes are inputs, and the model
 * records which of them were invoked (RuntimeOp). Go's `select` is an input
 * schedule (DocStep).
 */
module Doceng {
  import opened Errors
  import Sync

  datatype Command = Command(kind: string)

  const ReloadKind := "reload"

  /** An invocation of the runtime collaborator: launching generation `generation`, or killing it. */
  datatype RuntimeOp = Launch(generation: nat, workdir: string, addr: string) | Kill(generation: nat)

  /**
   * One turn of the control loop's select, with the outcomes of the runtime
   * operations it may invoke: the context is done (and the kill answers
   * `kill`), or a command arrives (a reload's kill answers `kill`, its launch
   * answers `launch`).
   */
  datatype DocStep = ContextDone(kill: Outcome) | Received(command: Command, kill: Outcome, launch: Outcome)

  /**
   * The supervisor's bookkeeping: how many runtimes have been launched (the
   * current one is generation launched - 1), which generations have had Kill
   * called, every runtime operation in order, and the fatal errors sent.
   */
  datatype Supervisor = Supervisor(launched: nat, killed: set<nat>, ops: seq<RuntimeOp>, errors: seq<Error>)

  /** Whether the loop is still running after a step, or has returned. */
  datatype Control = Running(state: Supervisor) | Returned(state: Supervisor)

  const Initial := Supervisor(0, {}, [], [])

  // ---------------------------------------------------------------------------
  // Specification of the control loop
  // ---------------------------------------------------------------------------

  /** pkgsite.Run for the next generation; a failure sends a fatal error and returns. */
  function LaunchNext(workdir: string, addr: string, s: Supervisor, outcome: Outcome): Control {
    var attempted := s.(ops := s.ops + [Launch(s.launched, workdir, addr)]);
    if outcome.Failure? then Returned(attempted.(errors := s.errors + [LaunchFailed(outcome.cause)]))
    else Running(attempted.(launched := s.launched + 1))
  }

  /** runtime.Kill on the current runtime. */
  function KillCurrent(s: Supervisor): Supervisor
    requires s.launched >= 1
  {
    s.(ops := s.ops + [Kill(s.launched - 1)], killed := s.killed + {s.launched - 1})
  }

  /** One turn of the loop, from a state in which a runtime is current. */
  function Step(workdir: string, addr: string, s: Supervisor, step: DocStep): (c: Control)
    requires s.launched >= 1
    ensures c.state.launched >= s.launched
  {
    match step
    case ContextDone(_) => Returned(KillCurrent(s))
    case Received(command, kill, launch) =>
      if command.kind != ReloadKind then Running(s)
      else if kill.Failure? then Returned(KillCurrent(s).(errors := s.errors + [KillFailed(kill.cause)]))
      else LaunchNext(workdir, addr, KillCurrent(s), launch)
  }

  /** The loop over a schedule, until it returns or the schedule ends. */
  function Loop(workdir: string, addr: string, s: Supervisor, steps: seq<DocStep>): Control
    requires s.launched >= 1
    decreases |steps|
  {
    if steps == [] then Running(s)
    else
      match Step(workdir, addr, s, steps[0])
      case Returned(s') => Returned(s')
      case Running(s') => Loop(workdir, addr, s', steps[1..])
  }

  /** The background goroutine: the first launch, then the loop. */
  function Supervise(workdir: string, addr: string, first: Outcome, steps: seq<DocStep>): Control {
    match LaunchNext(workdir, addr, Initial, first)
    case Returned(s) => Returned(s)
    case Running(s) => Loop(workdir, addr, s, steps)
  }

  /** One turn of the loop, seen from the middle of a schedule. */
  lemma LoopAt(workdir: string, addr: string, s: Supervisor, steps: seq<DocStep>, i: nat)
    requires s.launched >= 1 && i < |steps|
    ensures Step(workdir, addr, s, steps[i]).Returned? ==>
              Loop(workdir, addr, s, steps[i..]) == Step(workdir, addr, s, steps[i])
    ensures Step(workdir, addr, s, steps[i]).Running? ==>
              Loop(workdir, addr, s, steps[i..]) == Loop(workdir, addr, Step(workdir, addr, s, steps[i]).state, steps[i + 1..])
  {
    assert steps[i..][0] == steps[i];
    assert steps[i..][1..] == steps[i + 1..];
  }

  // ---------------------------------------------------------------------------
  // The engine
  // ---------------------------------------------------------------------------

  class DocEngine {
    const workdir: string
    const addr: string
    const fatalErrCh: Sync.Channel<Error>
    /** The bookkeeping of the background loop's runtime (a local variable of the Go loop). */
    var launched: nat
    var killed: set<nat>
    var ops: seq<RuntimeOp>

    /** NewDocEngine. */
    constructor (workdir: string, addr: string, fatalErrCh: Sync.Channel<Error>)
      ensures this.workdir == workdir && this.addr == addr && this.fatalErrCh == fatalErrCh
      ensures launched == 0 && killed == {} && ops == []
    {
      this.workdir := workdir;
      this.addr := addr;
      this.fatalErrCh := fatalErrCh;
      launched := 0;
      killed := {};
      ops := [];
    }

    /** Start launches Background as a goroutine and reports no error. */
    method Start() returns (err: Option<Error>)
      ensures err == None
    {
      err := None;
    }

    method Stop() returns (err: Option<Error>)
      ensures err == None
    {
      err := None;
    }

    /** The bookkeeping as a Supervisor value, with no errors of its own. */
    function Current(): Supervisor
      reads this
    {
      Supervisor(launched, killed, ops, [])
    }

    /** pkgsite.Run with this engine's working directory and address. */
    method LaunchRuntime(outcome: Outcome) returns (ok: bool)
      modifies this, fatalErrCh
      ensures ok == outcome.Success?
      ensures ok ==> LaunchNext(workdir, addr, old(Current()), outcome) == Running(Current())
      ensures !ok ==> LaunchNext(workdir, addr, old(Current()), outcome) == Returned(Current().(errors := [LaunchFailed(outcome.cause)]))
      ensures fatalErrCh.sent == old(fatalErrCh.sent) + (if ok then [] else [LaunchFailed(outcome.cause)])
    {
      ops := ops + [Launch(launched, workdir, addr)];
      if outcome.Failure? {
        fatalErrCh.Send(LaunchFailed(outcome.cause));
        return false;
      }
      launched := launched + 1;
      return true;
    }

    /** runtime.Kill on the current runtime. */
    method KillRuntime()
      requires launched >= 1
      modifies this
      ensures Current() == KillCurrent(old(Current()))
    {
      ops := ops + [Kill(launched - 1)];
      killed := killed + {launched - 1};
    }

    /**
     * The background goroutine over a schedule of select outcomes, with
     * `first` the outcome of the initial launch. The runtime bookkeeping
     * starts afresh, as the Go loop's runtime is a local variable. It returns,
     * calling wg.Done once, exactly when the specification returns.
     */
    method Background(wg: Sync.WaitGroup, first: Outcome, steps: seq<DocStep>) returns (returned: bool)
      modifies this, fatalErrCh, wg
      ensures var c := Supervise(workdir, addr, first, steps);
              && Current() == c.state.(errors := [])
              && fatalErrCh.sent == old(fatalErrCh.sent) + c.state.errors
              && returned == c.Returned?
      ensures wg.counter == old(wg.counter) - (if returned then 1 else 0)
    {
      launched, killed, ops := 0, {}, [];
      var ok := LaunchRuntime(first);
      if !ok {
        wg.Done();
        return true;
      }
      assert steps[0..] == steps;
      var i := 0;
      while i < |steps|
        invariant 0 <= i <= |steps| && launched >= 1
        invariant Loop(workdir, addr, Current(), steps[i..]) == Supervise(workdir, addr, first, steps)
        invariant fatalErrCh.sent == old(fatalErrCh.sent)
        invariant wg.counter == old(wg.counter)
      {
        LoopAt(workdir, addr, Current(), steps, i);
        match steps[i]
        case ContextDone(_) =>
          // A failed kill is only logged.
          KillRuntime();
          wg.Done();
          return true;
        case Received(command, kill, launch) =>
          if command.kind == ReloadKind {
            KillRuntime();
            if kill.Failure? {
              fatalErrCh.Send(KillFailed(kill.cause));
              wg.Done();
              return true;
            }
            ok := LaunchRuntime(launch);
            if !ok {
              wg.Done();
              return true;
            }
          }
          i := i + 1;
      }
      returned := false;
    }
  }

  // ---------------------------------------------------------------------------
  // Properties of one step
  // ---------------------------------------------------------------------------

  /** If the first launch fails, one fatal error is sent and no command is handled. */
  lemma FirstLaunchFailure(workdir: string, addr: string, cause: string, steps: seq<DocStep>)
    ensures Supervise(workdir, addr, Failure(cause), steps)
         == Returned(Supervisor(0, {}, [Launch(0, workdir, addr)], [LaunchFailed(cause)]))
  {
  }

  /** A reload kills the current runtime, then launches the next generation with the same workdir and address. */
  lemma ReloadKillsThenLaunches(workdir: string, addr: string, s: Supervisor, command: Command, launch: Outcome)
    requires s.launched >= 1 && command.kind == ReloadKind
    ensures var c := Step(workdir, addr, s, Received(command, Success, launch));
            && c.state.ops == s.ops + [Kill(s.launched - 1), Launch(s.launched, workdir, addr)]
            && c.state.killed == s.killed + {s.launched - 1}
            && (c.Running? <==> launch.Success?)
            && (launch.Success? ==> c.state.launched == s.launched + 1 && c.state.errors == s.errors)
            && (launch.Failure? ==> c.state.launched == s.launched && c.state.errors == s.errors + [LaunchFailed(launch.cause)])
  {
  }

  /** A kill failure during a reload sends one fatal error and returns without launching. */
  lemma KillFailureEndsLoop(workdir: string, addr: string, s: Supervisor, command: Command, cause: string, launch: Outcome)
    requires s.launched >= 1 && command.kind == ReloadKind
    ensures Step(workdir, addr, s, Received(command, Failure(cause), launch))
         == Returned(Supervisor(s.launched, s.killed + {s.launched - 1}, s.ops + [Kill(s.launched - 1)], s.errors + [KillFailed(cause)]))
  {
  }

  /** A command of any other kind leaves the runtime and everything else unchanged. */
  lemma OtherCommandIgnored(workdir: string, addr: string, s: Supervisor, command: Command, kill: Outcome, launch: Outcome)
    requires s.launched >= 1 && command.kind != ReloadKind
    ensures Step(workdir, addr, s, Received(command, kill, launch)) == Running(s)
  {
  }

  /** On context done the current runtime is killed and the loop returns with no fatal error, whatever the kill answers. */
  lemma ContextDoneKillsQuietly(workdir: string, addr: string, s: Supervisor, kill: Outcome)
    requires s.launched >= 1
    ensures Step(workdir, addr, s, ContextDone(kill))
         == Returned(Supervisor(s.launched, s.killed + {s.launched - 1}, s.ops + [Kill(s.launched - 1)], s.errors))
  {
  }

  // ---------------------------------------------------------------------------
  // The generation invariant
  // ---------------------------------------------------------------------------

  /** The generations below n. */
  function Below(n: nat): set<nat> {
    if n == 0 then {} else Below(n - 1) + {n - 1}
  }

  /** The runtime operations of n launches and n - 1 reloads: launch 0, then kill g and launch g + 1 for each g. */
  function History(workdir: string, addr: string, n: nat): seq<RuntimeOp>
    requires n >= 1
  {
    if n == 1 then [Launch(0, workdir, addr)]
    else History(workdir, addr, n - 1) + [Kill(n - 2), Launch(n - 1, workdir, addr)]
  }

  /**
   * While the loop runs: a runtime is current, every earlier generation and
   * no other has had Kill called, the operations are exactly the launch/reload
   * history, and no fatal error has been sent.
   */
  predicate Inv(workdir: string, addr: string, s: Supervisor) {
    && s.launched >= 1
    && s.killed == Below(s.launched - 1)
    && s.ops == History(workdir, addr, s.launched)
    && s.errors == []
  }

  /**
   * When the loop has returned: every generation launched has had Kill
   * called, and at most one fatal error was sent.
   */
  predicate Finished(s: Supervisor) {
    s.killed == Below(s.launched) && |s.errors| <= 1
  }

  function Reloads(steps: seq<DocStep>): nat {
    if steps == [] then 0
    else (if steps[0].Received? && steps[0].command.kind == ReloadKind then 1 else 0) + Reloads(steps[1..])
  }

  function ContextDones(steps: seq<DocStep>): nat {
    if steps == [] then 0 else (if steps[0].ContextDone? then 1 else 0) + ContextDones(steps[1..])
  }

  lemma StepKeepsInv(workdir: string, addr: string, s: Supervisor, step: DocStep)
    requires Inv(workdir, addr, s)
    ensures var c := Step(workdir, addr, s, step);
            && (c.Running? ==> Inv(workdir, addr, c.state) && step.Received?)
            && (c.Running? ==> c.state.launched == s.launched + (if step.command.kind == ReloadKind then 1 else 0))
            && (c.Returned? ==> Finished(c.state))
            && (c.Returned? ==> (c.state.errors == [] <==> step.ContextDone?))
  {
    var c := Step(workdir, addr, s, step);
    if c.Running? && step.command.kind == ReloadKind {
      assert c.state.ops == History(workdir, addr, s.launched) + [Kill(s.launched - 1), Launch(s.launched, workdir, addr)];
    }
  }

  /**
   * Over any schedule the loop keeps Inv while it runs, with launches = 1 +
   * reloads handled and no context done seen; once it has returned, every
   * runtime it launched has had Kill called and at most one fatal error was
   * sent, exactly one if no done context was scheduled.
   */
  lemma {:induction false} LoopKeepsInv(workdir: string, addr: string, s: Supervisor, steps: seq<DocStep>)
    requires Inv(workdir, addr, s)
    decreases |steps|
    ensures var c := Loop(workdir, addr, s, steps);
            && (c.Running? ==> Inv(workdir, addr, c.state) && c.state.launched == s.launched + Reloads(steps))
            && (c.Running? ==> ContextDones(steps) == 0)
            && (c.Returned? ==> Finished(c.state))
            && (c.Returned? && ContextDones(steps) == 0 ==> |c.state.errors| == 1)
  {
    if steps != [] {
      StepKeepsInv(workdir, addr, s, steps[0]);
      var c := Step(workdir, addr, s, steps[0]);
      if c.Running? {
        LoopKeepsInv(workdir, addr, c.state, steps[1..]);
      }
    }
  }

  /**
   * The background goroutine over any schedule: launches = 1 + reloads while
   * it runs; every runtime killed once it returns, with exactly one fatal
   * error if no done context was scheduled.
   */
  lemma SuperviseKeepsInv(workdir: string, addr: string, first: Outcome, steps: seq<DocStep>)
    ensures var c := Supervise(workdir, addr, first, steps);
            && (c.Running? ==> Inv(workdir, addr, c.state) && c.state.launched == 1 + Reloads(steps))
            && (c.Running? ==> ContextDones(steps) == 0)
            && (c.Returned? ==> Finished(c.state))
            && (c.Returned? && ContextDones(steps) == 0 ==> |c.state.errors| == 1)
  {
    if first.Success? {
      var s := LaunchNext(workdir, addr, Initial, first).state;
      assert Inv(workdir, addr, s);
      LoopKeepsInv(workdir, addr, s, steps);
    }
  }
}
