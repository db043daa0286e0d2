/**
 * End-to-end runs of the model: the watcher's ticks, the bridge, the
 * supervisor and the exit decision, composed. Each tick sees the status of
 * branch "main" tracking "origin/main", which is what GitStatusCases.UpToDateStatus,
 * BehindStatus and AheadStatus prove Git.GitStatus returns for the parser's
 * three test outputs.
 */
module Scenarios {
  import opened Errors
  import Git
  import Giteng
  import Doceng
  import Root
  import GitStatusCases

  /** A tick whose fetch and merge succeed and whose status is `state` for main tracking origin/main. */
  function TickOn(state: Git.BranchSyncState, raw: string): Giteng.TickInput {
    Giteng.TickInput(Success, Ok(Git.GitStatusResult("main", "origin/main", state, raw)), Success)
  }

  /** Three ticks on an up-to-date branch: three fetches and three status calls, nothing else. */
  lemma UpToDateTicksAreQuiet(raw: string)
    ensures var t := Giteng.TimerFired(TickOn(Git.UpToDate, raw));
            Giteng.Polling([t, t, t]) == Giteng.Effects([Giteng.Fetch, Giteng.Status, Giteng.Fetch, Giteng.Status, Giteng.Fetch, Giteng.Status], [], [])
  {
    var t := Giteng.TimerFired(TickOn(Git.UpToDate, raw));
    var tick := Giteng.Effects([Giteng.Fetch, Giteng.Status], [], []);
    assert Giteng.TickEffects(t.input) == tick;
    assert [t][1..] == [];
    assert Giteng.Polling([t]) == tick;
    assert [t, t][1..] == [t];
    assert Giteng.Polling([t, t]) == Giteng.Then(tick, tick);
    assert [t, t, t][1..] == [t, t];
    assert Giteng.Polling([t, t, t]) == Giteng.Then(tick, Giteng.Then(tick, tick));
  }

  /**
   * A tick on a branch behind "origin/main" merges it and sends one update;
   * the bridge turns that into one reload; a running supervisor kills its
   * current runtime and launches the next with the same workdir and address.
   */
  lemma BehindTickReloadsDocServer(raw: string, workdir: string, addr: string, s: Doceng.Supervisor)
    requires Doceng.Inv(workdir, addr, s)
    ensures var e := Giteng.TickEffects(TickOn(Git.Behind, raw));
            && e == Giteng.Effects([Giteng.Fetch, Giteng.Status, Giteng.Merge(["origin/main"])], [Giteng.Event("update")], [])
            && Root.CommandsFor(e.events) == [Doceng.Command("reload")]
            && Doceng.Loop(workdir, addr, s, [Doceng.Received(Doceng.Command("reload"), Success, Success)])
               == Doceng.Running(Doceng.Supervisor(s.launched + 1, s.killed + {s.launched - 1},
                                                   s.ops + [Doceng.Kill(s.launched - 1), Doceng.Launch(s.launched, workdir, addr)], []))
  {
    BehindTickMerges(Ok(Git.GitStatusResult("main", "origin/main", Git.Behind, raw)), raw);
    var step := Doceng.Received(Doceng.Command("reload"), Success, Success);
    assert [step][1..] == [];
  }

  /** A tick on a branch ahead of its remote sends LocalAhead, and the watcher keeps polling. */
  lemma AheadTickKeepsPolling(raw: string, rest: seq<Giteng.Step>)
    ensures var t := Giteng.TimerFired(TickOn(Git.Ahead, raw));
            && Giteng.Polling([t] + rest).errors == [LocalAhead] + Giteng.Polling(rest).errors
            && Giteng.Polling([t] + rest).calls == [Giteng.Fetch, Giteng.Status] + Giteng.Polling(rest).calls
            && Giteng.Polling([t] + rest).events == Giteng.Polling(rest).events
  {
    var t := Giteng.TimerFired(TickOn(Git.Ahead, raw));
    assert ([t] + rest)[1..] == rest;
  }

  /**
   * The coordinator, whatever SIGHUPs came first, returns 1 on the first
   * error the watcher sent after an ahead tick.
   */
  lemma AheadTickExitsWithOne(raw: string, rest: seq<Giteng.Step>, hangups: seq<Root.Trigger>)
    requires forall j :: 0 <= j < |hangups| ==> hangups[j] == Root.Hangup
    ensures var e := Giteng.Polling([Giteng.TimerFired(TickOn(Git.Ahead, raw))] + rest).errors;
            e != [] && Root.ExitCode(hangups + [Root.ExitValue(Some(e[0]))]) == Some(1)
  {
    AheadTickKeepsPolling(raw, rest);
    Root.HangupsAreIgnored(hangups, [Root.ExitValue(Some(LocalAhead))]);
  }

  /**
   * The parser's behind test output, fed to the watcher as what `git status`
   * printed: the tick merges origin/main and sends one update, and the bridge
   * turns it into one reload.
   */
  lemma BehindOutputReloads()
    ensures var t := Giteng.TickInput(Success, Git.GitStatus(Git.Output(GitStatusCases.BehindOutput)), Success);
            && Giteng.TickEffects(t) == Giteng.Effects([Giteng.Fetch, Giteng.Status, Giteng.Merge(["origin/main"])], [Giteng.Event("update")], [])
            && Root.CommandsFor(Giteng.TickEffects(t).events) == [Doceng.Command("reload")]
  {
    GitStatusCases.BehindStatus();
    BehindTickMerges(Git.GitStatus(Git.Output(GitStatusCases.BehindOutput)), GitStatusCases.BehindOutput);
  }

  /**
   * A tick on any status equal to "main behind origin/main" merges it, sends
   * one update, and the bridge makes one reload. Taking the status as a
   * parameter keeps Git.GitStatus folded when BehindOutputReloads uses it.
   */
  lemma BehindTickMerges(status: Result<Git.GitStatusResult, Git.StatusError>, raw: string)
    requires status == Ok(Git.GitStatusResult("main", "origin/main", Git.Behind, raw))
    ensures var t := Giteng.TickInput(Success, status, Success);
            && Giteng.TickEffects(t) == Giteng.Effects([Giteng.Fetch, Giteng.Status, Giteng.Merge(["origin/main"])], [Giteng.Event("update")], [])
            && Root.CommandsFor(Giteng.TickEffects(t).events) == [Doceng.Command("reload")]
  {
  }
}
