/** `_run_job`: connect, dispatch on the payload, close, and reduce every
    exception to `None`. */
module Executor {
  import opened Base
  import opened Jobs
  import opened Transport

  /** The value `_run_job` returns. `Absent` is the `None` of the `except`
      clause and of the empty fall-through; an interaction that itself
      returns `None` gives `Interacted` of that value instead. */
  datatype Outcome<V> =
    | Absent
    | Single(result: ExecResult)
    | Many(results: seq<ExecResult>)
    | Interacted(value: V)

  /** One execution of a job: its return value, the client's final state and
      the transport calls made. */
  datatype JobRun<V> = JobRun(outcome: Outcome<V>, client: ClientState, trace: seq<Event>)

  /** The branch of the `if`/`elif` chain a job takes once connected. */
  datatype Branch =
    | RunSingle(command: string)
    | RunMany(commands: seq<string>)
    | RunInteraction(handler: Handler)
    | NoBranch

  /** The connect call `_run_job` makes for a job. */
  function ConnectFor(job: Job): (e: Event) {
    Connect(job.hostname, job.username, job.password, job.keyFilename, job.connectTimeout)
  }

  /** The commands a branch runs, in order. */
  function CommandsOf(b: Branch): (cs: seq<string>) {
    match b
    case RunSingle(c) => [c]
    case RunMany(cs) => cs
    case _ => []
  }

  /** Command `i` of `cs` run on channel `i`, for every `i`, in order. */
  function ExecTrace(cs: seq<string>): (trace: seq<Event>) {
    seq(|cs|, i requires 0 <= i < |cs| => Exec(i, cs[i]))
  }

  /** The `if`/`elif` chain of `_run_job`: a truthy `str` command first, then
      any other truthy command, then the interaction. */
  function Dispatch(job: Job): (b: Branch)
    ensures b.RunSingle? || b.RunMany? <==> CommandTruthy(job.command)
    ensures b.RunSingle? <==> CommandTruthy(job.command) && job.command.Str?
    ensures b.RunInteraction? <==> !CommandTruthy(job.command) && job.interaction.Some?
    ensures b.NoBranch? <==> !HasPayload(job.command, job.interaction)
    ensures b.RunSingle? ==> CommandsOf(b) == [job.command.text]
    ensures b.RunMany? ==> CommandsOf(b) == job.command.items
    ensures b.RunInteraction? ==> job.interaction == Some(b.handler)
  {
    if job.command.Str? && job.command.text != "" then RunSingle(job.command.text)
    else if CommandTruthy(job.command) then RunMany(job.command.items)
    else if job.interaction.Some? then RunInteraction(job.interaction.value)
    else NoBranch
  }

  /** The commands run so far and, unless one raised, their results. */
  datatype Execution = Execution(trace: seq<Event>, results: Option<seq<ExecResult>>)

  /** The first `n` iterations of the `for` loop over a command sequence:
      command `i` runs on channel `i`; its result is appended to `output`; the
      first call that raises ends the loop and drops `output`. */
  function ExecPrefix<V>(cs: seq<string>, t: Oracle<V>, n: nat): (r: Execution)
    requires n <= |cs|
    ensures |r.trace| <= n
    ensures forall i :: 0 <= i < |r.trace| ==> r.trace[i] == Exec(i, cs[i])
    ensures forall i :: 0 <= i < |r.trace| - 1 ==> t.exec(i, cs[i]).Some?
    ensures r.results.Some? <==> forall i :: 0 <= i < n ==> t.exec(i, cs[i]).Some?
    ensures r.results.Some? ==>
              && |r.trace| == n
              && |r.results.value| == n
              && forall i :: 0 <= i < n ==> t.exec(i, cs[i]) == Some(r.results.value[i])
    ensures r.results.None? ==> 0 < |r.trace| && t.exec(|r.trace| - 1, cs[|r.trace| - 1]).None?
    decreases n
  {
    if n == 0 then Execution([], Some([]))
    else
      var before := ExecPrefix(cs, t, n - 1);
      if before.results.None? then before
      else
        var trace := before.trace + [Exec(n - 1, cs[n - 1])];
        match t.exec(n - 1, cs[n - 1])
        case None => Execution(trace, None)
        case Some(x) => Execution(trace, Some(before.results.value + [x]))
  }

  /** The `except` clause: attempt a close, swallow its failure, return `None`. */
  function Recover<V>(trace: seq<Event>, t: Oracle<V>): (r: JobRun<V>) {
    JobRun(Absent, if t.closeRaises then Open else Closed, trace + [Close])
  }

  /** `client.close()` inside the `try`, then return `out`; a raising close
      falls into the `except` clause. */
  function CloseAndReturn<V>(trace: seq<Event>, out: Outcome<V>, t: Oracle<V>): (r: JobRun<V>) {
    if t.closeRaises then Recover(trace + [Close], t)
    else JobRun(out, Closed, trace + [Close])
  }

  /** When `_run_job` returns something other than `Absent`: it connected, every
      call of the branch it took returned, and, on the command paths, the
      final close returned too. */
  ghost predicate Succeeds<V>(job: Job, t: Oracle<V>) {
    && t.connects
    && match Dispatch(job)
       case RunSingle(c) => t.exec(0, c).Some? && !t.closeRaises
       case RunMany(cs) => (forall i :: 0 <= i < |cs| ==> t.exec(i, cs[i]).Some?) && !t.closeRaises
       case RunInteraction(h) => t.interact(h, job.hostname).Some?
       case NoBranch => false
  }

  /** The paths on which `_run_job` returns without calling `close`: the
      interaction returned, or (unreachable through `add_ssh_job`) there was
      nothing to run. */
  ghost predicate LeavesOpen<V>(job: Job, t: Oracle<V>) {
    && t.connects
    && match Dispatch(job)
       case RunInteraction(h) => t.interact(h, job.hostname).Some?
       case NoBranch => true
       case _ => false
  }

  /** The interaction function returned after closing the client itself. */
  ghost predicate HandlerClosed<V>(job: Job, t: Oracle<V>) {
    && t.connects
    && Dispatch(job).RunInteraction?
    && t.interact(Dispatch(job).handler, job.hostname).Some?
    && t.interact(Dispatch(job).handler, job.hostname).value.closedClient
  }

  /** `_run_job` against the transport `t`. */
  function RunJob<V>(job: Job, t: Oracle<V>): (r: JobRun<V>)
    // The client connects first, with the job's own connection details.
    ensures 0 < |r.trace| && r.trace[0] == ConnectFor(job)
    // Absent exactly when something raised or there was no payload.
    ensures r.outcome.Absent? <==> !Succeeds(job, t)
  {
    var connect := ConnectFor(job);
    if !t.connects then Recover([connect], t)
    else
      match Dispatch(job)
      case RunSingle(c) =>
        var trace := [connect, Exec(0, c)];
        (match t.exec(0, c)
         case None => Recover(trace, t)
         case Some(x) => CloseAndReturn(trace, Single(x), t))
      case RunMany(cs) =>
        var e := ExecPrefix(cs, t, |cs|);
        if e.results.None? then Recover([connect] + e.trace, t)
        else CloseAndReturn([connect] + e.trace, Many(e.results.value), t)
      case RunInteraction(h) =>
        var trace := [connect, Interact(h, job.hostname)];
        (match t.interact(h, job.hostname)
         case None => Recover(trace, t)
         case Some(Handled(v, closed)) => JobRun(Interacted(v), if closed then Closed else Open, trace))
      case NoBranch => JobRun(Absent, Open, [connect])
  }

  /** The value returned: one tuple for a `str` command, a list in command
      order for a command sequence, the interaction's value verbatim. */
  lemma RunJobResultShape<V>(job: Job, t: Oracle<V>)
    ensures var r := RunJob(job, t);
      && (r.outcome.Single? ==>
            Dispatch(job).RunSingle? && t.exec(0, Dispatch(job).command) == Some(r.outcome.result))
      && (r.outcome.Many? ==>
            && Dispatch(job).RunMany?
            && |r.outcome.results| == |Dispatch(job).commands|
            && forall i :: 0 <= i < |r.outcome.results| ==>
                 t.exec(i, Dispatch(job).commands[i]) == Some(r.outcome.results[i]))
      && (r.outcome.Interacted? ==>
            && Dispatch(job).RunInteraction?
            && t.interact(Dispatch(job).handler, job.hostname).Some?
            && t.interact(Dispatch(job).handler, job.hostname).value.value == r.outcome.value)
  {
  }

  /** Commands run in list order, each on a fresh channel; a `str` command
      uses one channel; a sequence that completes runs every command exactly
      once, between the connect and the close. */
  lemma RunJobCommandOrder<V>(job: Job, t: Oracle<V>)
    ensures var r := RunJob(job, t);
      && (forall k :: 1 <= k < |r.trace| && r.trace[k].Exec? ==>
            k - 1 < |CommandsOf(Dispatch(job))| && r.trace[k] == Exec(k - 1, CommandsOf(Dispatch(job))[k - 1]))
      && (r.outcome.Single? || r.outcome.Many? ==>
            r.trace == [ConnectFor(job)]
                       + ExecTrace(CommandsOf(Dispatch(job)))
                       + [Close])
  {
    var r := RunJob(job, t);
    if r.outcome.Many? {
      var cs := Dispatch(job).commands;
      var e := ExecPrefix(cs, t, |cs|);
      assert e.trace == ExecTrace(cs);
    }
  }

  /** The interaction is called, with the hostname, only when connected and
      the command is falsy. */
  lemma RunJobInteractionCall<V>(job: Job, t: Oracle<V>)
    ensures var r := RunJob(job, t);
      forall k :: 0 <= k < |r.trace| && r.trace[k].Interact? ==>
        t.connects && Dispatch(job).RunInteraction? && r.trace[k] == Interact(Dispatch(job).handler, job.hostname)
  {
  }

  /** A close is attempted last on every path except the two that return
      without one, and the client ends closed exactly when that close returned
      or, on a returning interaction, when the interaction function closed it. */
  lemma RunJobClosePaths<V>(job: Job, t: Oracle<V>)
    ensures var r := RunJob(job, t);
      && (r.trace[|r.trace| - 1] == Close <==> !LeavesOpen(job, t))
      && (r.client == Closed <==>
            (r.trace[|r.trace| - 1] == Close && !t.closeRaises) || HandlerClosed(job, t))
  {
  }

  /** A command sequence whose `i`-th call raises: commands `0..i-1` were run
      and command `i` attempted, in order (its channel may have failed to open
      before the command was sent); the results of the first `i` are dropped,
      a close is attempted and the job yields `None`. */
  lemma PartialSequenceDiscarded<V>(job: Job, t: Oracle<V>, i: nat)
    requires t.connects && Dispatch(job).RunMany?
    requires i < |job.command.items|
    requires forall j :: 0 <= j < i ==> t.exec(j, job.command.items[j]).Some?
    requires t.exec(i, job.command.items[i]).None?
    ensures RunJob(job, t).outcome == Absent
    ensures RunJob(job, t).trace
            == [ConnectFor(job)]
               + seq(i + 1, j requires 0 <= j <= i => Exec(j, job.command.items[j]))
               + [Close]
  {
  }

  /** A non-zero exit status is a result, not a failure: when every channel
      returns, every command runs and each result is that command's own. */
  lemma NonZeroExitDoesNotStop<V>(job: Job, t: Oracle<V>)
    requires t.connects && !t.closeRaises && Dispatch(job).RunMany?
    requires forall j :: 0 <= j < |job.command.items| ==> t.exec(j, job.command.items[j]).Some?
    ensures RunJob(job, t).outcome.Many?
    ensures |RunJob(job, t).outcome.results| == |job.command.items|
    ensures forall j :: 0 <= j < |job.command.items| ==>
              RunJob(job, t).outcome.results[j] == t.exec(j, job.command.items[j]).value
    ensures RunJob(job, t).client == Closed
  {
  }

  /** When the interaction returns, its value is passed back and `_run_job`
      never closes the client on that path: the client stays open unless the
      interaction function closed it itself. */
  lemma InteractionSuccessNeverCloses<V>(job: Job, t: Oracle<V>)
    requires t.connects && Dispatch(job).RunInteraction?
    requires t.interact(Dispatch(job).handler, job.hostname).Some?
    ensures RunJob(job, t).outcome == Interacted(t.interact(Dispatch(job).handler, job.hostname).value.value)
    ensures Close !in RunJob(job, t).trace
    ensures RunJob(job, t).client == Open <==> !t.interact(Dispatch(job).handler, job.hostname).value.closedClient
  {
  }

  /** A Python 2 `unicode` command is not a `str`: it takes the sequence
      branch, and each of its characters is run as a command of its own, in
      order, one channel per character. */
  lemma UnicodeCommandRunsPerCharacter<V>(job: Job, t: Oracle<V>, u: string)
    requires job.command == PyUnicode(u) && u != "" && t.connects
    ensures Dispatch(job) == RunMany(PyUnicode(u).items)
    ensures (forall i :: 0 <= i < |u| ==> t.exec(i, [u[i]]).Some?) ==>
              && RunJob(job, t).trace[1..|u| + 1] == seq(|u|, i requires 0 <= i < |u| => Exec(i, [u[i]]))
              && (t.closeRaises ==> RunJob(job, t).outcome == Absent)
              && (!t.closeRaises ==>
                    && RunJob(job, t).outcome.Many?
                    && |RunJob(job, t).outcome.results| == |u|
                    && forall i :: 0 <= i < |u| ==> t.exec(i, [u[i]]) == Some(RunJob(job, t).outcome.results[i]))
  {
    var cs := PyUnicode(u).items;
    assert Dispatch(job) == RunMany(cs);
    if forall i :: 0 <= i < |u| ==> t.exec(i, [u[i]]).Some? {
      assert forall i :: 0 <= i < |cs| ==> cs[i] == [u[i]];
      var e := ExecPrefix(cs, t, |cs|);
      assert e.results.Some?;
      assert e.trace == seq(|u|, i requires 0 <= i < |u| => Exec(i, [u[i]]));
    }
  }
}
