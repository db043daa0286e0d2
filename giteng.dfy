/**
 * The repository watcher (pkg/giteng/engine.go).
 *
 * Each time the interval timer fires, the engine runs `git fetch`, then
 * `git status`, then dispatches on the parsed sync state: a branch behind its
 * remote is merged and an "update" event is sent, a branch ahead of it is a
 * fatal error, an up-to-date branch needs nothing. Fetch and status failures
 * only skip the rest of the tick.
 *
 * The subprocesses are collaborators: what `git fetch` and `git merge` return
 * and what `git.GitStatus` returns (Git.GitStatus applied to the output of the
 * `git status` subprocess) are inputs (TickInput), and `calls` records which
 * subprocesses the engine invoked, in order. Go's `select` between the
 * context and the timer is an input schedule (Step).
 */
module Giteng {
  import opened Errors
  import Git
  import Sync

  datatype Event = Event(kind: string)

  const UpdateKind := "update"

  /** The git subprocesses the engine runs. */
  datatype GitCall = Fetch | Status | Merge(args: seq<string>)

  /** What the collaborators answer during one tick. */
  datatype TickInput = TickInput(fetch: Outcome, status: Result<Git.GitStatusResult, Git.StatusError>, merge: Outcome)

  /** One turn of the polling loop's select: the context is done, or the interval timer fired. */
  datatype Step = ContextDone | TimerFired(input: TickInput)

  /** What the engine does to the outside world: subprocesses run, events sent, fatal errors sent. */
  datatype Effects = Effects(calls: seq<GitCall>, events: seq<Event>, errors: seq<Error>)

  const NoEffects := Effects([], [], [])

  function Then(a: Effects, b: Effects): Effects {
    Effects(a.calls + b.calls, a.events + b.events, a.errors + b.errors)
  }

  // ---------------------------------------------------------------------------
  // Specification of one tick and of the polling loop
  // ---------------------------------------------------------------------------

  /** The `onGitStatus` closure: the dispatch on the sync state of a parsed status. */
  function Dispatch(r: Git.GitStatusResult, merge: Outcome): Effects {
    match r.syncState
    case UpToDate => NoEffects
    case Behind =>
      if merge.Failure? then Effects([Merge([r.remoteBranch])], [], [MergeFailed(merge.cause)])
      else Effects([Merge([r.remoteBranch])], [Event(UpdateKind)], [])
    case Ahead => Effects([], [], [LocalAhead])
  }

  /** The body of the timer case: fetch, then status, then dispatch. */
  function TickEffects(t: TickInput): Effects {
    if t.fetch.Failure? then Effects([Fetch], [], [])
    else
      match t.status
      case Err(_) => Effects([Fetch, Status], [], [])
      case Ok(r) => Then(Effects([Fetch, Status], [], []), Dispatch(r, t.merge))
  }

  /** The effects of the polling loop over a schedule: every tick up to the first ContextDone. */
  function Polling(steps: seq<Step>): Effects {
    if steps == [] then NoEffects
    else
      match steps[0]
      case ContextDone => NoEffects
      case TimerFired(t) => Then(TickEffects(t), Polling(steps[1..]))
  }

  /**
   * One turn of the loop, seen from the middle of a schedule with `before`
   * already done: a done context adds nothing; a timer firing adds one
   * tick's effects ahead of the rest of the schedule.
   */
  lemma PollingAt(steps: seq<Step>, i: nat, before: Effects)
    requires i < |steps|
    ensures steps[i].ContextDone? ==> Then(before, Polling(steps[i..])) == before
    ensures steps[i].TimerFired? ==>
              Then(before, Polling(steps[i..])) == Then(Then(before, TickEffects(steps[i].input)), Polling(steps[i + 1..]))
  {
    assert steps[i..][0] == steps[i];
    assert steps[i..][1..] == steps[i + 1..];
    if steps[i].ContextDone? {
      assert Polling(steps[i..]) == NoEffects;
      assert Then(before, NoEffects) == before;
    } else {
      var tick := TickEffects(steps[i].input);
      assert Polling(steps[i..]) == Then(tick, Polling(steps[i + 1..]));
      ThenAssoc(before, tick, Polling(steps[i + 1..]));
    }
  }

  lemma ThenAssoc(a: Effects, b: Effects, c: Effects)
    ensures Then(Then(a, b), c) == Then(a, Then(b, c))
  {
    assert (a.calls + b.calls) + c.calls == a.calls + (b.calls + c.calls);
    assert (a.events + b.events) + c.events == a.events + (b.events + c.events);
    assert (a.errors + b.errors) + c.errors == a.errors + (b.errors + c.errors);
  }

  // ---------------------------------------------------------------------------
  // The engine
  // ---------------------------------------------------------------------------

  class GitEngine {
    const workdir: string
    const interval: nat
    const fatalErrCh: Sync.Channel<Error>
    /** The git subprocesses this engine has run, in order. */
    var calls: seq<GitCall>

    /** NewGitEngine. */
    constructor (workdir: string, interval: nat, fatalErrCh: Sync.Channel<Error>)
      ensures this.workdir == workdir && this.interval == interval && this.fatalErrCh == fatalErrCh
      ensures calls == []
    {
      this.workdir := workdir;
      this.interval := interval;
      this.fatalErrCh := fatalErrCh;
      calls := [];
    }

    /** Start launches Background as a goroutine and reports no error. */
    method Start() returns (err: Option<Error>)
      ensures err == None
    {
      err := None;
    }

    method Stop() returns (err: Option<Error>)
      ensures err == None
    {
      err := None;
    }

    /** What the engine has done so far: the subprocesses it ran, the events and the fatal errors it sent. */
    function Log(eventsCh: Sync.Channel<Event>): Effects
      reads this, eventsCh, fatalErrCh
    {
      Effects(calls, eventsCh.sent, fatalErrCh.sent)
    }

    /** The `onGitStatus` closure. */
    method OnGitStatus(eventsCh: Sync.Channel<Event>, r: Git.GitStatusResult, merge: Outcome)
      modifies this, eventsCh, fatalErrCh
      ensures Log(eventsCh) == Then(old(Log(eventsCh)), Dispatch(r, merge))
    {
      match r.syncState
      case UpToDate =>
        return;
      case Behind =>
        calls := calls + [Merge([r.remoteBranch])];
        if merge.Failure? {
          fatalErrCh.Send(MergeFailed(merge.cause));
          return;
        }
        eventsCh.Send(Event(UpdateKind));
      case Ahead =>
        fatalErrCh.Send(LocalAhead);
        return;
    }

    /** One firing of the interval timer. */
    method Tick(eventsCh: Sync.Channel<Event>, t: TickInput)
      modifies this, eventsCh, fatalErrCh
      ensures Log(eventsCh) == Then(old(Log(eventsCh)), TickEffects(t))
    {
      calls := calls + [Fetch];
      if t.fetch.Failure? {
        return;
      }
      calls := calls + [Status];
      if t.status.Err? {
        return;
      }
      OnGitStatus(eventsCh, t.status.value, t.merge);
    }

    /**
     * The background goroutine: the polling loop over a schedule of select
     * outcomes. It returns, calling wg.Done once, at the first ContextDone; a
     * schedule without one leaves it still polling.
     */
    method Background(wg: Sync.WaitGroup, eventsCh: Sync.Channel<Event>, steps: seq<Step>) returns (exited: bool)
      modifies this, eventsCh, fatalErrCh, wg
      ensures Log(eventsCh) == Then(old(Log(eventsCh)), Polling(steps))
      ensures exited <==> ContextDone in steps
      ensures wg.counter == old(wg.counter) - (if exited then 1 else 0)
    {
      var i := 0;
      while i < |steps|
        invariant 0 <= i <= |steps|
        invariant ContextDone !in steps[..i]
        invariant Then(Log(eventsCh), Polling(steps[i..])) == Then(old(Log(eventsCh)), Polling(steps))
        invariant wg.counter == old(wg.counter)
      {
        PollingAt(steps, i, Log(eventsCh));
        assert steps[..i + 1] == steps[..i] + [steps[i]];
        if steps[i].ContextDone? {
          wg.Done();
          return true;
        }
        Tick(eventsCh, steps[i].input);
        i := i + 1;
      }
      assert steps[..i] == steps;
      assert Then(Log(eventsCh), NoEffects) == Log(eventsCh);
      exited := false;
    }
  }

  // ---------------------------------------------------------------------------
  // Properties of a tick
  // ---------------------------------------------------------------------------

  /** A fetch error ends the tick: no status, no merge, no event, no fatal error. */
  lemma FetchFailureEndsTick(t: TickInput)
    requires t.fetch.Failure?
    ensures TickEffects(t) == Effects([Fetch], [], [])
  {
  }

  /** A status error (exec or parse) ends the tick after the status call. */
  lemma StatusFailureEndsTick(t: TickInput)
    requires t.fetch.Success? && t.status.Err?
    ensures TickEffects(t) == Effects([Fetch, Status], [], [])
  {
  }

  /** The dispatch table of onGitStatus, for a tick whose fetch and status succeed. */
  lemma TickDispatch(t: TickInput)
    requires t.fetch.Success? && t.status.Ok?
    ensures var r := t.status.value;
            var e := TickEffects(t);
            && (r.syncState == Git.UpToDate ==> e == Effects([Fetch, Status], [], []))
            && (r.syncState == Git.Behind && t.merge.Success? ==>
                  e == Effects([Fetch, Status, Merge([r.remoteBranch])], [Event(UpdateKind)], []))
            && (r.syncState == Git.Behind && t.merge.Failure? ==>
                  e == Effects([Fetch, Status, Merge([r.remoteBranch])], [], [MergeFailed(t.merge.cause)]))
            && (r.syncState == Git.Ahead ==> e == Effects([Fetch, Status], [], [LocalAhead]))
  {
  }

  /**
   * Within a tick fetch comes first and status second; a merge is attempted
   * only after them, only for a branch behind, with exactly the remote
   * branch as argument; and a tick sends at most one event or fatal error.
   */
  lemma TickShape(t: TickInput)
    ensures var e := TickEffects(t);
            && 1 <= |e.calls| <= 3 && e.calls[0] == Fetch
            && (|e.calls| >= 2 ==> e.calls[1] == Status)
            && (forall k :: 0 <= k < |e.calls| && e.calls[k].Merge? ==>
                  k == 2 && t.status.Ok? && t.status.value.syncState == Git.Behind
                  && e.calls[k].args == [t.status.value.remoteBranch])
            && |e.events| + |e.errors| <= 1
            && (e.events != [] ==> e.events == [Event(UpdateKind)] && |e.calls| == 3 && t.merge.Success?)
  {
  }

  // ---------------------------------------------------------------------------
  // Properties of the polling loop
  // ---------------------------------------------------------------------------

  /** The ticks the loop runs: the timer firings before the first ContextDone. */
  function Ticks(steps: seq<Step>): nat {
    if steps == [] || steps[0].ContextDone? then 0 else 1 + Ticks(steps[1..])
  }

  function CountFetches(calls: seq<GitCall>): nat {
    if calls == [] then 0 else (if calls[0] == Fetch then 1 else 0) + CountFetches(calls[1..])
  }

  function CountMerges(calls: seq<GitCall>): nat {
    if calls == [] then 0 else (if calls[0].Merge? then 1 else 0) + CountMerges(calls[1..])
  }

  lemma {:induction false} CountsAppend(a: seq<GitCall>, b: seq<GitCall>)
    ensures CountFetches(a + b) == CountFetches(a) + CountFetches(b)
    ensures CountMerges(a + b) == CountMerges(a) + CountMerges(b)
  {
    if a == [] {
      assert a + b == b;
    } else {
      assert (a + b)[1..] == a[1..] + b;
      CountsAppend(a[1..], b);
    }
  }

  /**
   * The bookkeeping of one tick: exactly one fetch; one merge per event or
   * merge failure; every event an "update".
   */
  lemma TickCounts(t: TickInput)
    ensures CountFetches(TickEffects(t).calls) == 1
    ensures CountMerges(TickEffects(t).calls) == |TickEffects(t).events| + |MergeFailures(TickEffects(t).errors)|
    ensures forall e :: e in TickEffects(t).events ==> e == Event(UpdateKind)
  {
    var e := TickEffects(t);
    CountOne(Fetch);
    CountOne(Status);
    CountsAppend([Fetch], [Status]);
    assert [Fetch] + [Status] == [Fetch, Status];
    if t.fetch.Success? && t.status.Ok? && t.status.value.syncState == Git.Behind {
      var m := Merge([t.status.value.remoteBranch]);
      CountOne(m);
      assert e.calls == [Fetch, Status] + [m];
      CountsAppend([Fetch, Status], [m]);
      if t.merge.Failure? {
        MergeFailuresOne(MergeFailed(t.merge.cause));
      }
    } else {
      assert e.events == [];
      assert e.errors == [] || e.errors == [LocalAhead];
      MergeFailuresOne(LocalAhead);
    }
    assert MergeFailures([]) == [];
  }

  lemma CountOne(call: GitCall)
    ensures CountFetches([call]) == (if call == Fetch then 1 else 0)
    ensures CountMerges([call]) == (if call.Merge? then 1 else 0)
  {
    assert [call][1..] == [];
  }

  lemma MergeFailuresOne(e: Error)
    ensures MergeFailures([e]) == (if e.MergeFailed? then [e] else [])
  {
    assert [e][1..] == [];
  }

  /**
   * A fatal error does not end the loop: every timer firing before the
   * context is done runs a fetch, whatever earlier ticks sent.
   */
  lemma {:induction false} EveryTickFetches(steps: seq<Step>)
    ensures CountFetches(Polling(steps).calls) == Ticks(steps)
  {
    if steps != [] && steps[0].TimerFired? {
      var t := steps[0].input;
      EveryTickFetches(steps[1..]);
      CountsAppend(TickEffects(t).calls, Polling(steps[1..]).calls);
      TickCounts(t);
    }
  }

  /** Every event the loop sends is an "update", and each one follows its own successful merge. */
  lemma {:induction false} EventsFollowMerges(steps: seq<Step>)
    ensures forall e :: e in Polling(steps).events ==> e == Event(UpdateKind)
    ensures |Polling(steps).events| + |MergeFailures(Polling(steps).errors)| == CountMerges(Polling(steps).calls)
  {
    if steps != [] && steps[0].TimerFired? {
      var t := steps[0].input;
      var rest := Polling(steps[1..]);
      EventsFollowMerges(steps[1..]);
      TickCounts(t);
      CountsAppend(TickEffects(t).calls, rest.calls);
      MergeFailuresAppend(TickEffects(t).errors, rest.errors);
    }
  }

  /** The merge failures among a sequence of fatal errors. */
  function MergeFailures(errors: seq<Error>): seq<Error> {
    if errors == [] then []
    else (if errors[0].MergeFailed? then [errors[0]] else []) + MergeFailures(errors[1..])
  }

  lemma {:induction false} MergeFailuresAppend(a: seq<Error>, b: seq<Error>)
    ensures MergeFailures(a + b) == MergeFailures(a) + MergeFailures(b)
  {
    if a == [] {
      assert a + b == b;
    } else {
      assert (a + b)[0] == a[0];
      assert (a + b)[1..] == a[1..] + b;
      MergeFailuresAppend(a[1..], b);
    }
  }

  /** Once the context is done the loop returns: nothing scheduled after the first ContextDone has an effect. */
  lemma {:induction false} NothingAfterContextDone(before: seq<Step>, after: seq<Step>)
    requires ContextDone !in before
    ensures Polling(before + [ContextDone] + after) == Polling(before)
  {
    if before == [] {
      assert before + [ContextDone] + after == [ContextDone] + after;
      assert Polling(before) == NoEffects;
    } else {
      assert (before + [ContextDone] + after)[1..] == before[1..] + [ContextDone] + after;
      assert before[0] in before;
      NothingAfterContextDone(before[1..], after);
    }
  }
}
