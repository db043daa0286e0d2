/**
 * The coordinator's decisions (cmd/watchpkgsite/app/root/run.go): the bridge
 * that turns the watcher's events into the supervisor's commands, and the
 * loop that decides, from the exit channel and the signals, when the program
 * returns and with which code.
 */
module Root {
  import opened Errors
  import Sync
  import Giteng
  import Doceng

  // ---------------------------------------------------------------------------
  // Event-to-command bridge
  // ---------------------------------------------------------------------------

  /** The commands the bridge sends for one event: a reload for an update, nothing otherwise. */
  function CommandFor(event: Giteng.Event): seq<Doceng.Command> {
    if event.kind == Giteng.UpdateKind then [Doceng.Command(Doceng.ReloadKind)] else []
  }

  /** The commands the bridge sends for a sequence of events, in order. */
  function CommandsFor(events: seq<Giteng.Event>): seq<Doceng.Command> {
    if events == [] then [] else CommandFor(events[0]) + CommandsFor(events[1..])
  }

  /** How many update events a sequence holds. */
  function Updates(events: seq<Giteng.Event>): nat {
    if events == [] then 0
    else (if events[0].kind == Giteng.UpdateKind then 1 else 0) + Updates(events[1..])
  }

  /** The bridge goroutine, ranging over the events it receives. */
  method Bridge(events: seq<Giteng.Event>, commandsCh: Sync.Channel<Doceng.Command>)
    modifies commandsCh
    ensures commandsCh.sent == old(commandsCh.sent) + CommandsFor(events)
  {
    var i := 0;
    while i < |events|
      invariant 0 <= i <= |events|
      invariant commandsCh.sent + CommandsFor(events[i..]) == old(commandsCh.sent) + CommandsFor(events)
    {
      assert events[i..][1..] == events[i + 1..];
      if events[i].kind == Giteng.UpdateKind {
        commandsCh.Send(Doceng.Command(Doceng.ReloadKind));
      }
      i := i + 1;
    }
  }

  /** N update events give N commands, every one a reload; other events give nothing. */
  lemma {:induction false} OneReloadPerUpdate(events: seq<Giteng.Event>)
    ensures |CommandsFor(events)| == Updates(events)
    ensures forall c :: c in CommandsFor(events) ==> c == Doceng.Command(Doceng.ReloadKind)
  {
    if events != [] {
      OneReloadPerUpdate(events[1..]);
    }
  }

  /** The bridge preserves order: the commands for a + b are those for a, then those for b. */
  lemma {:induction false} CommandsForAppend(a: seq<Giteng.Event>, b: seq<Giteng.Event>)
    ensures CommandsFor(a + b) == CommandsFor(a) + CommandsFor(b)
  {
    if a == [] {
      assert a + b == b;
    } else {
      assert (a + b)[0] == a[0];
      assert (a + b)[1..] == a[1..] + b;
      CommandsForAppend(a[1..], b);
      assert CommandsFor(a + b) == CommandFor(a[0]) + (CommandsFor(a[1..]) + CommandsFor(b));
    }
  }

  // ---------------------------------------------------------------------------
  // Exit decision
  // ---------------------------------------------------------------------------

  /** What the decision loop's select may receive: a value on the exit channel (nil or an error), SIGINT/SIGTERM, or SIGHUP. */
  datatype Trigger = ExitValue(err: Option<Error>) | Interrupt | Hangup

  /** The decision for one trigger: the code to return, or None to keep waiting. */
  function Decide(t: Trigger): (code: Option<int>)
    ensures code.None? <==> t.Hangup?
    ensures code == Some(1) <==> t.ExitValue? && t.err.Some?
    ensures code == Some(0) <==> t == ExitValue(None) || t == Interrupt
  {
    match t
    case ExitValue(err) => if err.None? then Some(0) else Some(1)
    case Interrupt => Some(0)
    case Hangup => None
  }

  /** The decision over a sequence of triggers: the first one that is not a SIGHUP decides. */
  function ExitCode(triggers: seq<Trigger>): Option<int> {
    if triggers == [] then None
    else if triggers[0].Hangup? then ExitCode(triggers[1..])
    else Decide(triggers[0])
  }

  /**
   * The decision loop. Every return cancels the context first, exactly once;
   * while only SIGHUPs arrive the context is left alone and the loop goes on.
   */
  method AwaitExit(ctx: Sync.CancelContext, triggers: seq<Trigger>) returns (code: Option<int>)
    modifies ctx
    ensures code == ExitCode(triggers)
    ensures code.Some? ==> ctx.cancelled && ctx.cancelCalls == old(ctx.cancelCalls) + 1
    ensures code.None? ==> ctx.cancelled == old(ctx.cancelled) && ctx.cancelCalls == old(ctx.cancelCalls)
  {
    var i := 0;
    while i < |triggers|
      invariant 0 <= i <= |triggers|
      invariant ExitCode(triggers[i..]) == ExitCode(triggers)
      invariant ctx.cancelled == old(ctx.cancelled) && ctx.cancelCalls == old(ctx.cancelCalls)
    {
      assert triggers[i..][1..] == triggers[i + 1..];
      match triggers[i]
      case ExitValue(err) =>
        ctx.Cancel();
        if err.None? {
          return Some(0);
        }
        return Some(1);
      case Interrupt =>
        ctx.Cancel();
        return Some(0);
      case Hangup =>
        i := i + 1;
    }
    assert triggers[i..] == [];
    code := None;
  }

  /**
   * The loop returns exactly when some trigger is not a SIGHUP, and then the
   * first such trigger alone decides the code.
   */
  lemma {:induction false} FirstDecisiveTrigger(triggers: seq<Trigger>)
    ensures ExitCode(triggers).Some? <==> exists k :: 0 <= k < |triggers| && !triggers[k].Hangup?
    ensures forall k :: 0 <= k < |triggers| && !triggers[k].Hangup? && (forall j :: 0 <= j < k ==> triggers[j].Hangup?) ==>
              ExitCode(triggers) == Decide(triggers[k])
  {
    if triggers != [] {
      FirstDecisiveTrigger(triggers[1..]);
      if triggers[0].Hangup? {
        forall k | 0 <= k < |triggers| && !triggers[k].Hangup? && (forall j :: 0 <= j < k ==> triggers[j].Hangup?)
          ensures ExitCode(triggers) == Decide(triggers[k])
        {
          assert triggers[1..][k - 1] == triggers[k];
          assert forall j :: 0 <= j < k - 1 ==> triggers[1..][j] == triggers[j + 1];
        }
        if exists k :: 0 <= k < |triggers| && !triggers[k].Hangup? {
          var k :| 0 <= k < |triggers| && !triggers[k].Hangup?;
          assert triggers[1..][k - 1] == triggers[k];
        }
      }
    }
  }

  /** Whatever follows, the exit code is 0 or 1. */
  lemma {:induction false} ExitCodeIsZeroOrOne(triggers: seq<Trigger>)
    ensures ExitCode(triggers) == None || ExitCode(triggers) == Some(0) || ExitCode(triggers) == Some(1)
  {
    if triggers != [] && triggers[0].Hangup? {
      ExitCodeIsZeroOrOne(triggers[1..]);
    }
  }

  /** SIGHUPs received before a trigger change nothing about the decision. */
  lemma {:induction false} HangupsAreIgnored(hangups: seq<Trigger>, rest: seq<Trigger>)
    requires forall j :: 0 <= j < |hangups| ==> hangups[j] == Hangup
    ensures ExitCode(hangups + rest) == ExitCode(rest)
  {
    if hangups == [] {
      assert hangups + rest == rest;
    } else {
      assert (hangups + rest)[0] == hangups[0];
      assert (hangups + rest)[1..] == hangups[1..] + rest;
      HangupsAreIgnored(hangups[1..], rest);
    }
  }
}
