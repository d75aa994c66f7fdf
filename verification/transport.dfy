/** The SSH transport seen by `_run_job`, reduced to an oracle. Paramiko's
    client, channels and host-key handling are not modelled; what the
    executor observes of them is whether each call returns or raises. */
module Transport {
  import opened Base

  /** What one channel yields: `recv_exit_status()` and the two `makefile` reads. */
  datatype ExecResult = ExecResult(exitStatus: int, stdout: Bytes, stderr: Bytes)

  /** The behaviour of one host for one job.
      - `connects`: whether `client.connect` (and the host-key set-up before it) returns.
      - `exec(n, c)`: running `c` on the `n`-th channel opened on the client
        (0-based); `None` when opening the channel, executing or reading raises.
      - `interact(h, host)`: calling the interaction function `h` with the client
        and the hostname; `None` when it raises, otherwise its return value and
        whether the function itself closed the client it was handed.
      - `closeRaises`: whether `client.close()` raises. */
  datatype Oracle<V> = Oracle(
    connects: bool,
    exec: (nat, string) -> Option<ExecResult>,
    interact: (Handler, string) -> Option<Handled<V>>,
    closeRaises: bool)

  /** What a returning interaction function hands back. */
  datatype Handled<V> = Handled(value: V, closedClient: bool)

  /** Whether the client still holds its connection: closed by a close call
      that returned, whether `_run_job`'s or the interaction function's. A
      close attempt that raises leaves it open. */
  datatype ClientState = Open | Closed

  /** The calls `_run_job` makes on the transport, in order. */
  datatype Event =
    | Connect(hostname: string, username: Option<string>, password: Option<string>,
              keyFilename: Option<string>, timeout: Option<real>)
    | Exec(channel: nat, command: string)
    | Interact(handler: Handler, host: string)
    | Close
}
