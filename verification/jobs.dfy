/** The job registry of `MultiSSHRunner`: job records and `add_ssh_job`. */
module Jobs {
  import opened Base

  /** The `command` argument of a job. Python accepts `None`, a `str`, or any
      iterable of commands; only a value of type `str` takes the single-command
      path. Under Python 2 a `unicode` string is not a `str`, so it is an
      iterable of one-character commands and is written `Cmds` here (see
      `PyUnicode`). */
  datatype Command =
    | NoCommand
    | Str(text: string)
    | Cmds(items: seq<string>)

  /** Python truthiness of the `command` argument: `None`, `''` and `[]` are false. */
  predicate CommandTruthy(c: Command) {
    match c
    case NoCommand => false
    case Str(s) => s != ""
    case Cmds(cs) => cs != []
  }

  /** A Python 2 `unicode` command: iterating it yields its characters. */
  function PyUnicode(u: string): (c: Command) {
    Cmds(seq(|u|, i requires 0 <= i < |u| => [u[i]]))
  }

  /** One entry of `job_details`: the dictionary built by `add_ssh_job`. */
  datatype Job = Job(
    hostname: string,
    username: Option<string>,
    password: Option<string>,
    command: Command,
    interaction: Option<Handler>,
    keyFilename: Option<string>,
    connectTimeout: Option<real>)

  /** The default of `connect_timeout`, in seconds. `connect_timeout` is passed
      to paramiko as it is: any number of seconds, or `None` for no timeout. */
  const DefaultConnectTimeout: Option<real> := Some(60.0)

  /** The guard of `add_ssh_job`: `command or interaction`. */
  predicate HasPayload(command: Command, interaction: Option<Handler>) {
    CommandTruthy(command) || interaction.Some?
  }

  /** The state of a `MultiSSHRunner` object. */
  datatype Runner = Runner(processes: int, jobDetails: seq<Job>)

  /** `MultiSSHRunner(processes)`: no jobs yet, so the registry invariant
      holds from the start. */
  function NewRunner(processes: int): (r: Runner)
    ensures r.processes == processes && |r.jobDetails| == 0
    ensures ValidRegistry(r)
  {
    Runner(processes, [])
  }

  /** The exception `add_ssh_job` raises when no payload is given. */
  datatype RegistrationError = MissingJobCommand

  /** The runner after an `add_ssh_job` call, with the exception it raised, if any. */
  datatype Registration = Registration(runner: Runner, raised: Option<RegistrationError>)

  /** `add_ssh_job`, with the same optional arguments and defaults. */
  function AddSshJob(
    runner: Runner,
    hostname: string,
    username: Option<string> := None,
    password: Option<string> := None,
    command: Command := NoCommand,
    interaction: Option<Handler> := None,
    keyFilename: Option<string> := None,
    connectTimeout: Option<real> := DefaultConnectTimeout): (r: Registration)
    ensures r.raised.None? <==> (CommandTruthy(command) || interaction.Some?)
    ensures r.runner.processes == runner.processes
    ensures r.raised.None? ==>
              && |r.runner.jobDetails| == |runner.jobDetails| + 1
              && r.runner.jobDetails[..|runner.jobDetails|] == runner.jobDetails
              && r.runner.jobDetails[|runner.jobDetails|]
                 == Job(hostname, username, password, command, interaction, keyFilename, connectTimeout)
    ensures r.raised.Some? ==> r.runner.jobDetails == runner.jobDetails
  {
    if HasPayload(command, interaction) then
      var job := Job(hostname, username, password, command, interaction, keyFilename, connectTimeout);
      Registration(Runner(runner.processes, runner.jobDetails + [job]), None)
    else
      Registration(runner, Some(MissingJobCommand))
  }

  /** Every registered job carries a payload. */
  ghost predicate ValidRegistry(runner: Runner) {
    forall i :: 0 <= i < |runner.jobDetails| ==>
      HasPayload(runner.jobDetails[i].command, runner.jobDetails[i].interaction)
  }

  /** `add_ssh_job` called with the fields of `job`, as a caller that catches
      the exception would. */
  function Register(runner: Runner, job: Job): (r: Runner) {
    AddSshJob(runner, job.hostname, job.username, job.password, job.command,
              job.interaction, job.keyFilename, job.connectTimeout).runner
  }

  /** A sequence of `add_ssh_job` calls, one per element of `jobs`, in order. */
  function RegisterEach(runner: Runner, jobs: seq<Job>): (r: Runner)
    decreases |jobs|
  {
    if jobs == [] then runner
    else RegisterEach(Register(runner, jobs[0]), jobs[1..])
  }

  /** The jobs of `jobs` that `add_ssh_job` accepts, in order. */
  function Accepted(jobs: seq<Job>): (acc: seq<Job>)
    decreases |jobs|
  {
    if jobs == [] then []
    else if HasPayload(jobs[0].command, jobs[0].interaction) then [jobs[0]] + Accepted(jobs[1..])
    else Accepted(jobs[1..])
  }

  /** Registration appends exactly the accepted jobs, in call order, after the
      jobs already present; rejected jobs never appear, and the registry
      invariant is kept. */
  lemma {:induction false} RegisterEachAppendsAccepted(runner: Runner, jobs: seq<Job>)
    ensures RegisterEach(runner, jobs).jobDetails == runner.jobDetails + Accepted(jobs)
    ensures RegisterEach(runner, jobs).processes == runner.processes
    ensures ValidRegistry(runner) ==> ValidRegistry(RegisterEach(runner, jobs))
    decreases |jobs|
  {
    if jobs != [] {
      var next := Register(runner, jobs[0]);
      RegisterEachAppendsAccepted(next, jobs[1..]);
      if HasPayload(jobs[0].command, jobs[0].interaction) {
        assert next.jobDetails == runner.jobDetails + [jobs[0]];
        assert runner.jobDetails + [jobs[0]] + Accepted(jobs[1..])
            == runner.jobDetails + ([jobs[0]] + Accepted(jobs[1..]));
        if ValidRegistry(runner) {
          assert ValidRegistry(next) by {
            forall i | 0 <= i < |next.jobDetails|
              ensures HasPayload(next.jobDetails[i].command, next.jobDetails[i].interaction)
            {
              if i < |runner.jobDetails| {
                assert next.jobDetails[i] == runner.jobDetails[i];
              }
            }
          }
        }
      }
    }
  }

  /** A job given only a hostname and a command is stored with no credentials,
      no interaction, no key file and a 60-second connect timeout. */
  lemma AddSshJobDefaults(runner: Runner, hostname: string, command: Command)
    requires CommandTruthy(command)
    ensures AddSshJob(runner, hostname, command := command).raised == None
    ensures AddSshJob(runner, hostname, command := command).runner.jobDetails
            == runner.jobDetails + [Job(hostname, None, None, command, None, None, Some(60.0))]
  {
  }
}
