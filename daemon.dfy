/** The container daemon as the run controller sees it. Every answer the
    daemon (and the network, and the clock) gives to one pair's run is fixed in
    advance in a `Script`; every request the controller makes is recorded as an
    `Action`, in order. */
module Daemon {
  import opened Wrappers

  /** What an inspect reports: the container's run state, its exit code and
      its address on the bridge network. */
  datatype Inspection = Inspection(running: bool, exitCode: int, ip: string)

  /** One round of the readiness poll: the answer to the inspect of the
      client, and whether a TCP dial to it would be accepted. */
  datatype Tick = Tick(inspect: Result<Inspection>, dialOk: bool)

  /** The daemon's answers to one pair's run, in the order they are asked for.
      `clock(n)` is what the wall clock reads after the controller has made
      `n` requests. */
  datatype Script = Script(
    clock: nat -> int,
    createClient: Result<string>,        // client container ID
    runClient: Option<string>,           // error starting the client, if any
    inspectClient: Result<Inspection>,   // gives the client IP
    ticks: seq<Tick>,                    // the readiness poll, one tick per round
    createValidator: Result<string>,     // validator container ID
    copyEnode: Option<string>,           // error copying the identity script
    runValidator: Option<string>,        // error starting the validator, if any
    inspectValidator: Result<Inspection>,  // before the wait
    exitStatus: Result<Inspection>,      // after the wait: the exit code
    removeClient: Option<string>,        // error removing the client
    removeValidator: Option<string>)     // error removing the validator

  /** A request of the controller to the daemon, the network or a log stream. */
  datatype Action =
    | CreateClient(image: string, validator: string, overrides: seq<string>)
    | CreateValidator(image: string, env: seq<string>)
    | StartContainer(id: string, logFile: string)
    | Inspect(id: string)
    | Dial(host: string, port: int)
    | Hangup(host: string, port: int)   // close an accepted probe connection
    | Sleep
    | CopyFile(src: string, dst: string, path: string)
    | WaitExit(id: string)
    | CloseLogs(id: string)
    | Remove(id: string, force: bool)

  /** A wall clock that never runs backwards. */
  ghost predicate Monotone(clock: nat -> int)
  {
    forall i: nat, j: nat :: i <= j ==> clock(i) <= clock(j)
  }

  /** The daemon hands out distinct container IDs. */
  predicate DistinctIds(s: Script)
  {
    s.createClient.Ok? && s.createValidator.Ok? ==> s.createClient.value != s.createValidator.value
  }

  /** The client's RPC port that the readiness poll dials. */
  const RpcPort: int := 8545

  /** The identity script handed from the client to the validator. */
  const EnodeScript: string := "/enode.sh"
}
