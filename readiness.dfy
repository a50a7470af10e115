/** The readiness poll of the client (validator.go's `for {}` loop): each
    round inspects the client, gives up if the inspect fails or the client is
    no longer running, and otherwise dials the RPC port, stopping on the first
    accepted connection and sleeping before the next round. The functions
    here say what a scripted poll yields; `Poll` runs the loop, one `Probe`
    per round. */
module Readiness {
  import opened Wrappers
  import opened Daemon

  /** How the wait for the client ended. */
  datatype Outcome = Ready | ProcessExited | ProbeError(error: string)

  /** The error recorded when the client stops running during the wait. */
  const Terminated: string := "terminated unexpectedly"

  /** A round after which the loop does not go on. */
  predicate Terminal(t: Tick)
  {
    t.inspect.Err? || !t.inspect.value.running || t.dialOk
  }

  /** The scripted poll, from round `i` on, reaches a round that ends it.
      (Without one the source loops for ever.) */
  predicate EndsFrom(ticks: seq<Tick>, i: nat)
    decreases |ticks| - i
  {
    i < |ticks| && (Terminal(ticks[i]) || EndsFrom(ticks, i + 1))
  }

  /** The scripted poll reaches a round that ends it. */
  predicate Ends(ticks: seq<Tick>)
  {
    EndsFrom(ticks, 0)
  }

  /** The index of the first round from `i` on that ends the poll. */
  function FirstTerminalFrom(ticks: seq<Tick>, i: nat): (k: nat)
    requires EndsFrom(ticks, i)
    ensures i <= k < |ticks| && Terminal(ticks[k])
    ensures forall j :: i <= j < k ==> !Terminal(ticks[j])
    decreases |ticks| - i
  {
    if Terminal(ticks[i]) then i else FirstTerminalFrom(ticks, i + 1)
  }

  /** The index of the round that ends the poll. */
  function FirstTerminal(ticks: seq<Tick>): (k: nat)
    requires Ends(ticks)
    ensures k < |ticks| && Terminal(ticks[k])
    ensures forall j :: 0 <= j < k ==> !Terminal(ticks[j])
  {
    FirstTerminalFrom(ticks, 0)
  }

  /** The outcome a terminal round gives. */
  function TickOutcome(t: Tick): Outcome
    requires Terminal(t)
  {
    match t.inspect
    case Err(e) => ProbeError(e)
    case Ok(c) => if !c.running then ProcessExited else Ready
  }

  /** The outcome of the poll from round `i` on. */
  function OutcomeFrom(ticks: seq<Tick>, i: nat): Outcome
    requires EndsFrom(ticks, i)
    decreases |ticks| - i
  {
    if Terminal(ticks[i]) then TickOutcome(ticks[i]) else OutcomeFrom(ticks, i + 1)
  }

  /** The outcome of the whole poll. */
  function PollOutcome(ticks: seq<Tick>): Outcome
    requires Ends(ticks)
  {
    OutcomeFrom(ticks, 0)
  }

  /** The requests one round makes: the inspect, then (only for a running
      client) the dial at the freshly inspected address, then the close of an
      accepted connection or, after a refused dial, the sleep. */
  function TickTrace(id: string, t: Tick): seq<Action>
  {
    match t.inspect
    case Err(_) => [Inspect(id)]
    case Ok(c) =>
      if !c.running then [Inspect(id)]
      else if t.dialOk then [Inspect(id), Dial(c.ip, RpcPort), Hangup(c.ip, RpcPort)]
      else [Inspect(id), Dial(c.ip, RpcPort), Sleep]
  }

  /** The requests of the poll from round `i` on. */
  function TraceFrom(id: string, ticks: seq<Tick>, i: nat): seq<Action>
    requires EndsFrom(ticks, i)
    decreases |ticks| - i
  {
    if Terminal(ticks[i]) then TickTrace(id, ticks[i])
    else TickTrace(id, ticks[i]) + TraceFrom(id, ticks, i + 1)
  }

  /** The requests of the whole poll. */
  function PollTrace(id: string, ticks: seq<Tick>): seq<Action>
    requires Ends(ticks)
  {
    TraceFrom(id, ticks, 0)
  }

  /** From any round on, the poll's outcome is decided by its first terminal
      round: ready exactly when that round found the client running and the
      dial accepted, exited exactly when the client was found not running, an
      error exactly when the inspect failed, with that inspect's error. */
  lemma {:induction false} OutcomeFromFirstTerminal(ticks: seq<Tick>, i: nat)
    requires EndsFrom(ticks, i)
    ensures var t := ticks[FirstTerminalFrom(ticks, i)];
      && OutcomeFrom(ticks, i) == TickOutcome(t)
      && (OutcomeFrom(ticks, i) == Ready <==> t.inspect.Ok? && t.inspect.value.running && t.dialOk)
      && (OutcomeFrom(ticks, i) == ProcessExited <==> t.inspect.Ok? && !t.inspect.value.running)
      && (OutcomeFrom(ticks, i).ProbeError? <==> t.inspect.Err?)
      && (t.inspect.Err? ==> OutcomeFrom(ticks, i) == ProbeError(t.inspect.error))
    decreases |ticks| - i
  {
    if !Terminal(ticks[i]) {
      OutcomeFromFirstTerminal(ticks, i + 1);
    }
  }

  /** The poll's outcome is decided by its first terminal round. */
  lemma OutcomeOfFirstTerminal(ticks: seq<Tick>)
    requires Ends(ticks)
    ensures var t := ticks[FirstTerminal(ticks)];
      && PollOutcome(ticks) == TickOutcome(t)
      && (PollOutcome(ticks) == Ready <==> t.inspect.Ok? && t.inspect.value.running && t.dialOk)
      && (PollOutcome(ticks) == ProcessExited <==> t.inspect.Ok? && !t.inspect.value.running)
      && (PollOutcome(ticks).ProbeError? <==> t.inspect.Err?)
      && (t.inspect.Err? ==> PollOutcome(ticks) == ProbeError(t.inspect.error))
  {
    OutcomeFromFirstTerminal(ticks, 0);
  }

  /** The shape of the poll's requests from any round on: they open with an
      inspect of the client; they are nothing but inspects of the client,
      dials of the RPC port, closes of an accepted connection and sleeps;
      every dial comes right after an inspect of the client in the same
      round, and every close right after the dial it closes; and they end
      with a close exactly when the client is ready (so with the accepted
      dial and its close), and with the inspect (no dial in that round)
      otherwise. */
  lemma {:induction false} TraceFromShape(id: string, ticks: seq<Tick>, i: nat)
    requires EndsFrom(ticks, i)
    ensures var tr := TraceFrom(id, ticks, i);
      && |tr| > 0 && tr[0] == Inspect(id)
      && (forall a :: a in tr ==> a == Inspect(id) || a == Sleep || ((a.Dial? || a.Hangup?) && a.port == RpcPort))
      && (forall j :: 0 <= j < |tr| && tr[j].Dial? ==> 0 < j && tr[j - 1] == Inspect(id))
      && (forall j :: 0 <= j < |tr| && tr[j].Hangup? ==> 0 < j && tr[j - 1] == Dial(tr[j].host, tr[j].port))
      && (OutcomeFrom(ticks, i) == Ready <==> tr[|tr| - 1].Hangup?)
      && (OutcomeFrom(ticks, i) != Ready ==> tr[|tr| - 1] == Inspect(id))
    decreases |ticks| - i
  {
    var tr := TraceFrom(id, ticks, i);
    var head := TickTrace(id, ticks[i]);
    if !Terminal(ticks[i]) {
      var rest := TraceFrom(id, ticks, i + 1);
      TraceFromShape(id, ticks, i + 1);
      assert tr == head + rest;
      forall j | 0 <= j < |tr| && tr[j].Dial?
        ensures 0 < j && tr[j - 1] == Inspect(id)
      {
        if j >= |head| {
          assert rest[j - |head|].Dial?;
        }
      }
      forall j | 0 <= j < |tr| && tr[j].Hangup?
        ensures 0 < j && tr[j - 1] == Dial(tr[j].host, tr[j].port)
      {
        if j >= |head| {
          assert rest[j - |head|].Hangup?;
        }
      }
    }
  }

  /** The shape of the poll's requests. */
  lemma PollTraceShape(id: string, ticks: seq<Tick>)
    requires Ends(ticks)
    ensures var tr := PollTrace(id, ticks);
      && |tr| > 0 && tr[0] == Inspect(id)
      && (forall a :: a in tr ==> a == Inspect(id) || a == Sleep || ((a.Dial? || a.Hangup?) && a.port == RpcPort))
      && (forall j :: 0 <= j < |tr| && tr[j].Dial? ==> 0 < j && tr[j - 1] == Inspect(id))
      && (forall j :: 0 <= j < |tr| && tr[j].Hangup? ==> 0 < j && tr[j - 1] == Dial(tr[j].host, tr[j].port))
      && (PollOutcome(ticks) == Ready <==> tr[|tr| - 1].Hangup?)
      && (PollOutcome(ticks) != Ready ==> tr[|tr| - 1] == Inspect(id))
  {
    TraceFromShape(id, ticks, 0);
  }

  /** From any round on, the poll inspects the client exactly once per round
      it runs. */
  lemma {:induction false} OneInspectPerRoundFrom(id: string, ticks: seq<Tick>, i: nat)
    requires EndsFrom(ticks, i)
    ensures multiset(TraceFrom(id, ticks, i))[Inspect(id)] == FirstTerminalFrom(ticks, i) - i + 1
    decreases |ticks| - i
  {
    var head := TickTrace(id, ticks[i]);
    assert multiset(head)[Inspect(id)] == 1;
    if !Terminal(ticks[i]) {
      OneInspectPerRoundFrom(id, ticks, i + 1);
      assert TraceFrom(id, ticks, i) == head + TraceFrom(id, ticks, i + 1);
    }
  }

  /** The poll inspects the client exactly once per round it runs. */
  lemma OneInspectPerRound(id: string, ticks: seq<Tick>)
    requires Ends(ticks)
    ensures multiset(PollTrace(id, ticks))[Inspect(id)] == FirstTerminal(ticks) + 1
  {
    OneInspectPerRoundFrom(id, ticks, 0);
  }

  /** One round of the poll: inspect the client, give up if the inspect
      fails or the client has stopped, dial its RPC port at the address just
      inspected, and sleep after a refused dial. `over` is the outcome when the
      round ends the poll. */
  method Probe(id: string, tick: Tick) returns (over: Option<Outcome>, requests: seq<Action>)
    ensures over.Some? <==> Terminal(tick)
    ensures over.Some? ==> over.value == TickOutcome(tick)
    ensures requests == TickTrace(id, tick)
  {
    requests := [Inspect(id)];
    match tick.inspect {
      case Err(e) =>
        return Some(ProbeError(e)), requests;
      case Ok(info) =>
        if !info.running {
          return Some(ProcessExited), requests;
        }
        requests := requests + [Dial(info.ip, RpcPort)];
        if tick.dialOk {
          requests := requests + [Hangup(info.ip, RpcPort)];
          return Some(Ready), requests;
        }
    }
    requests := requests + [Sleep];
    over := None;
  }

  /** The poll itself: one round after another until a round ends it. */
  method Poll(id: string, ticks: seq<Tick>) returns (outcome: Outcome, trace: seq<Action>)
    requires Ends(ticks)
    ensures outcome == PollOutcome(ticks)
    ensures trace == PollTrace(id, ticks)
  {
    trace := [];
    var i := 0;
    while true
      invariant EndsFrom(ticks, i)
      invariant PollOutcome(ticks) == OutcomeFrom(ticks, i)
      invariant PollTrace(id, ticks) == trace + TraceFrom(id, ticks, i)
      decreases |ticks| - i
    {
      var over, requests := Probe(id, ticks[i]);
      trace := trace + requests;
      if over.Some? {
        return over.value, trace;
      }
      i := i + 1;
    }
  }
}
