# multissh job engine

This project models the core of multissh's `MultiSSHRunner`, which runs SSH jobs against many hosts at once. It covers three parts:

- the job registry (`add_ssh_job`);
- the per-job executor (`_run_job`): connect, dispatch on the payload, close, and turn every exception into `None`;
- the aggregation done by `run`: the worker count, and one result per job in registration order.

Paramiko is replaced by a transport oracle (`Transport.Oracle`) with four parts:

- whether `connect` returns;
- for the `n`-th channel and a command, either `(exit status, stdout, stderr)` or a raise;
- for an interaction function and a hostname, either a raise or an opaque return value together with whether the function closed the client it was handed;
- whether `close` raises.

The executor returns three things: the value `_run_job` returns (`Executor.Outcome`, where `Absent` is the `None` of the `except` clause and of the empty fall-through), the client's final state (`Open` or `Closed`), and the ordered trace of transport calls. The trace is what lets the contracts talk about channel order and about which paths call `close`.

Modules: `Base` (option, byte and interaction-handler types), `Jobs` (job records and the registry), `Transport` (the oracle and its events), `Executor` (`_run_job`), `Scheduler` (`run`).

The model follows the code as written, including these behaviours a reader might not expect:

- **The interaction path does not close the client.** When the interaction function returns, `_run_job` returns its value without calling `close` (multissh.py:177-179). The client stays open unless the interaction function closed it itself. `Executor.InteractionSuccessNeverCloses` states this.
- **Partial sequence output is discarded.** An exception partway through a command sequence drops the partial `output` list and returns `None` (multissh.py:165-185). `Executor.PartialSequenceDiscarded` states this.
- **Both payloads may be given.** The code accepts a job with both a command and an interaction, and the command takes precedence (`Executor.Dispatch`).
- **A Python 2 `unicode` command is not a `str`.** It therefore takes the sequence branch and runs one command per character (`Executor.UnicodeCommandRunsPerCharacter`).
- **The registration error is a plain `Exception`.** The code does not raise a dedicated error type. The model's `MissingJobCommand` stands for it.

## Model

| member | source | states |
|---|---|---|
| Jobs.AddSshJob | multissh.py:38-71 | A job is accepted exactly when `command or interaction` is truthy, so `None`, `''` and `[]` count as missing. On acceptance, exactly one record holding the given fields is appended and earlier records stay unchanged. Otherwise the exception is raised and `job_details` stays unchanged. |
| Jobs.AddSshJobDefaults | multissh.py:38-39 | A job given only a hostname and a command gets no username, password, interaction or key file, and a `connect_timeout` of 60 seconds. |
| Jobs.RegisterEachAppendsAccepted | multissh.py:62-71 | A sequence of `add_ssh_job` calls leaves `job_details` equal to the old list followed by exactly the accepted jobs, in call order. Rejected jobs never appear. Every stored job carries a payload. |
| Jobs.NewRunner | multissh.py:35-36 | A new runner keeps `processes` and starts with no jobs, so every stored job carrying a payload holds from the start. |
| Executor.Dispatch | multissh.py:155-179 | A truthy `str` command takes the single-command branch. Any other truthy command takes the sequence branch. The interaction is used only when the command is falsy. The empty fall-through happens exactly when neither payload is truthy. |
| Executor.ExecPrefix | multissh.py:165-173 | The command loop runs command `i` on channel `i`, in list order. It stops at the first call that raises, and then yields no results. When nothing raises, it yields one result per command, in order, each being that channel's own result. |
| Executor.RunJob | multissh.py:120-185 | The client first connects with the job's hostname, credentials, key file and timeout. `Absent` is returned exactly when something raised or there was no payload: the connect, a channel, the interaction or the in-`try` close raised, or neither payload was truthy. It never raises. |
| Executor.RunJobResultShape | multissh.py:133-136 | A single command yields that channel's `(exit, stdout, stderr)`. A sequence yields a list of the same length and order. An interaction yields its own return value verbatim. |
| Executor.RunJobCommandOrder | multissh.py:155-175 | Every exec in the trace is command `k` of the job on fresh channel `k`. When a command path returns a result, the calls were exactly: the connect, command `i` on channel `i` for every command in order, then the close. A `str` command therefore uses exactly one channel. |
| Executor.RunJobInteractionCall | multissh.py:177-179 | The interaction is called only after connecting and when the command is falsy, with that job's handler and hostname. |
| Executor.RunJobClosePaths | multissh.py:161-185 | A close is the last call on every path except a returning interaction and the empty fall-through. The client ends closed exactly when that close did not raise, or when a returning interaction function closed the client itself. |
| Executor.PartialSequenceDiscarded | multissh.py:165-185 | If the `i`-th command of a sequence raises, commands `0..i-1` have run and command `i` was attempted, in order. A close is attempted, and the job yields `None`. The earlier results are dropped. |
| Executor.NonZeroExitDoesNotStop | multissh.py:165-175 | When every channel returns, every command runs whatever its exit status, each result is that command's own, and the client ends closed. |
| Executor.UnicodeCommandRunsPerCharacter | multissh.py:155-169 | A connected job whose command is a non-empty Python 2 `unicode` string takes the sequence branch. When every channel returns, character `i` runs alone on channel `i`, in order. The job then yields one result per character, or `None` if the final close raises. |
| Executor.InteractionSuccessNeverCloses | multissh.py:177-179 | A returning interaction's value is passed back verbatim, and `_run_job` makes no close call. The client stays open unless the interaction function closed it itself. |
| Scheduler.WorkerCount | multissh.py:91-94 | The pool size is `min(processes, len(job_details))`. |
| Scheduler.SequentialRun | multissh.py:96-99 | Running the jobs yields one result per job, and result `i` is `_run_job` of job `i` against its own host. |
| Scheduler.Run | multissh.py:73-114 | For every order in which the workers finish, `run` returns one result per registered job, in registration order. Result `i` comes from job `i`, and the whole list equals the sequential map. The worker count is `min(processes, number of jobs)`. |
| Scheduler.FailureIsolation | multissh.py:96-114 | A host that cannot be reached yields `None` at its own index and leaves every other index unchanged. |
| Scheduler.RegisteredJobsDispatch | multissh.py:62-71 | Every job accepted by `add_ssh_job` takes one of the three payload branches of `_run_job`. |

## Left out

- Process pool mechanics are not modelled: `apply_async`, `close`, `wait`, `join` and `terminate` (multissh.py:92-117). The pool is represented only by the order in which jobs finish.
- The `KeyboardInterrupt`/`terminate` path is not modelled. Its purpose is concurrent cancellation.
- `_init_pool` is not modelled: `Crypto.Random.atfork` and the SIGINT handler (multissh.py:81-89) are process-level workarounds.
- Paramiko internals are abstracted into the transport oracle: host-key policy, `connect`, channels, `recv_exit_status` and the `makefile` reads (multissh.py:141-160). A failure of `load_system_host_keys` is folded into a failed connect.
- A failure of the `SSHClient()` constructor itself is not modelled. In that case `client` is unbound, the `except` clause's `close` raises `NameError`, and the error is swallowed. The outcome is `None`, as for a failed connect.
- Scheduler.Run: does not model `multiprocessing.Pool` raising when the worker count is below 1. That happens when `processes < 1`, including zero registered jobs; the model still returns one result per job. Nor does it model Python 2's `min(None, n)` when `processes` is `None`. Both behaviours belong to `multiprocessing`.
- Executor.RunJob: an interaction that returns `None` gives `Interacted(v)` with `v` being that `None`. In Python this is the same value as `Absent`, so a caller of `run` cannot tell it from a failed job. The model keeps the two apart, and its "`Absent` exactly when something raised or there was no payload" holds only for the tag.
- Scheduler.Run: a transport call or interaction function that never returns is not modelled. Every oracle call either returns or raises, but the code has no per-command timeout. A job that hangs, such as an interaction that tails a log forever, makes `run` block for ever at `job.wait` (multissh.py:108), whereas the model always returns.
- Executor.RunJob: a close that raises is taken to leave the client open, even if an interaction function closed the client before raising. The oracle fixes for the whole job whether `close` raises, so the retried close in the `except` clause raises too.
- The demo scripts under `examples/` and `setup.py` are left out. They are I/O drivers and packaging metadata.
