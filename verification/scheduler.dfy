/** `MultiSSHRunner.run`, reduced to its sequential meaning. The process pool
    is modelled by the order in which its workers finish the jobs; the
    network by one transport oracle per job, indexed by registration order. */
module Scheduler {
  import opened Base
  import opened Jobs
  import opened Transport
  import opened Executor

  /** The `processes` argument given to the pool: never more workers than jobs. */
  function WorkerCount(processes: int, jobCount: nat): (w: int)
    ensures w <= processes && w <= jobCount
    ensures w == processes || w == jobCount
  {
    if processes < jobCount then processes else jobCount
  }

  /** `map(_run_job, job_details)`: job `i` against its own transport `net(i)`. */
  function SequentialRun<V>(jobs: seq<Job>, net: nat -> Oracle<V>): (rs: seq<Outcome<V>>)
    ensures |rs| == |jobs|
    ensures forall i :: 0 <= i < |jobs| ==> rs[i] == RunJob(jobs[i], net(i)).outcome
    decreases |jobs|
  {
    if jobs == [] then []
    else SequentialRun(jobs[..|jobs| - 1], net) + [RunJob(jobs[|jobs| - 1], net(|jobs| - 1)).outcome]
  }

  /** `run`: submit every job, let the workers finish them in the order
      `completion`, then collect the results positionally. `completion` lists
      each job index exactly once. */
  method Run<V>(runner: Runner, net: nat -> Oracle<V>, completion: seq<nat>)
    returns (workers: int, results: seq<Outcome<V>>)
    requires |completion| == |runner.jobDetails|
    requires forall k :: 0 <= k < |completion| ==> completion[k] < |runner.jobDetails|
    requires forall i :: 0 <= i < |runner.jobDetails| ==> i in completion
    ensures workers <= runner.processes && workers <= |runner.jobDetails|
    ensures workers == runner.processes || workers == |runner.jobDetails|
    ensures |results| == |runner.jobDetails|
    ensures forall i :: 0 <= i < |results| ==> results[i] == RunJob(runner.jobDetails[i], net(i)).outcome
    ensures results == SequentialRun(runner.jobDetails, net)
  {
    var jobs := runner.jobDetails;
    workers := WorkerCount(runner.processes, |jobs|);

    // One result slot per submitted job, filled when its worker finishes.
    var slots: seq<Option<Outcome<V>>> := seq(|jobs|, _ => None);
    var k := 0;
    while k < |completion|
      invariant 0 <= k <= |completion|
      invariant |slots| == |jobs|
      invariant forall i :: 0 <= i < |jobs| && i in completion[..k] ==>
                  slots[i] == Some(RunJob(jobs[i], net(i)).outcome)
    {
      var i := completion[k];
      slots := slots[i := Some(RunJob(jobs[i], net(i)).outcome)];
      assert completion[..k + 1] == completion[..k] + [i];
      k := k + 1;
    }
    assert completion[..k] == completion;

    // `[job.get() for job in jobs]`: read the slots in submission order.
    results := [];
    var j := 0;
    while j < |jobs|
      invariant 0 <= j <= |jobs|
      invariant |results| == j
      invariant forall i :: 0 <= i < j ==> results[i] == RunJob(jobs[i], net(i)).outcome
    {
      results := results + [slots[j].value];
      j := j + 1;
    }
  }

  /** Jobs share nothing: a job's result depends only on the job and its own
      transport, so a host that cannot be reached yields `None` at its own
      index and leaves every other index as it would otherwise be. */
  lemma FailureIsolation<V>(jobs: seq<Job>, net: nat -> Oracle<V>, net': nat -> Oracle<V>, down: nat)
    requires down < |jobs| && !net'(down).connects
    requires forall i :: 0 <= i < |jobs| && i != down ==> net'(i) == net(i)
    ensures SequentialRun(jobs, net')[down] == Absent
    ensures forall i :: 0 <= i < |jobs| && i != down ==>
              SequentialRun(jobs, net')[i] == SequentialRun(jobs, net)[i]
  {
  }

  /** Every job a runner accepted takes one of the three payload branches;
      the fall-through that returns `None` without closing is never reached. */
  lemma RegisteredJobsDispatch(runner: Runner)
    requires ValidRegistry(runner)
    ensures forall i :: 0 <= i < |runner.jobDetails| ==> !Dispatch(runner.jobDetails[i]).NoBranch?
  {
  }
}
