/** One budgeted tool loop in two implementations: the episode driver and the tool server. */
module Episode {
  import opened Options

  type Call(==, !new)
  type World(==, !new)
  type Verdict(==, !new)

  datatype Result = Result(content: string, isError: bool, terminal: bool)
  datatype Step = Step(call: Call, result: Result)

  /** A tool call acts on the world; tools never raise, errors are results. */
  type Tools = (World, Call) -> (World, Result)

  // ---------------------------------------------------------------- what should be executed

  datatype Execution = Execution(steps: seq<Step>, world: World, ended: bool)

  function Budget(maxSteps: int): (n: nat)
    ensures n >= 1
  {
    if maxSteps < 1 then 1 else maxSteps
  }

  /** A budget of one step or more is what it says; any other allows one step. */
  lemma BudgetFacts(maxSteps: int)
    ensures maxSteps >= 1 ==> Budget(maxSteps) == maxSteps
    ensures maxSteps <= 1 ==> Budget(maxSteps) == 1
  {
  }

  /** Calls in order, until one is terminal or the budget is spent. */
  function Execute(run: Tools, w: World, calls: seq<Call>, maxSteps: int): Execution {
    if calls == [] then Execution([], w, false) else
      var e := Execute(run, w, calls[..|calls| - 1], maxSteps);
      if e.ended then e else
        var call := calls[|calls| - 1];
        var r := run(e.world, call);
        var steps := e.steps + [Step(call, r.1)];
        Execution(steps, r.0, r.1.terminal || |steps| >= Budget(maxSteps))
  }

  /** The executed calls are a prefix: up to and including the first terminal one, or as many as the budget allows. */
  lemma {:induction false} ExecutesAPrefix(run: Tools, w: World, calls: seq<Call>, maxSteps: int)
    ensures var e := Execute(run, w, calls, maxSteps);
            && |e.steps| <= |calls| && |e.steps| <= Budget(maxSteps)
            && (forall i :: 0 <= i < |e.steps| ==> e.steps[i].call == calls[i])
            && (forall i :: 0 <= i < |e.steps| - 1 ==> !e.steps[i].result.terminal)
            && (e.ended <==> e.steps != [] && (e.steps[|e.steps| - 1].result.terminal || |e.steps| == Budget(maxSteps)))
            && (!e.ended ==> |e.steps| == |calls|)
    decreases |calls|
  {
    if calls == [] {
    } else {
      ExecutesAPrefix(run, w, calls[..|calls| - 1], maxSteps);
    }
  }

  /** `worlds` are the worlds the steps go through, the first and the last included. */
  predicate Through(run: Tools, worlds: seq<World>, steps: seq<Step>) {
    && |worlds| == |steps| + 1
    && forall i :: 0 <= i < |steps| ==> run(worlds[i], steps[i].call) == (worlds[i + 1], steps[i].result)
  }

  /** Every executed call acts on the world that the one before it left, and its result is recorded with it. */
  lemma {:induction false} StepsFollow(run: Tools, w: World, calls: seq<Call>,
                                       maxSteps: int) returns (worlds: seq<World>)
    ensures var e := Execute(run, w, calls, maxSteps);
            Through(run, worlds, e.steps) && worlds[0] == w && worlds[|e.steps|] == e.world
    decreases |calls|
  {
    if calls == [] {
      worlds := [w];
    } else {
      var e := Execute(run, w, calls[..|calls| - 1], maxSteps);
      worlds := StepsFollow(run, w, calls[..|calls| - 1], maxSteps);
      if !e.ended {
        worlds := worlds + [run(e.world, calls[|calls| - 1]).0];
      }
    }
  }

  lemma {:induction false} NothingAfterTheEnd(run: Tools, w: World, calls: seq<Call>, more: seq<Call>, maxSteps: int)
    requires Execute(run, w, calls, maxSteps).ended
    ensures Execute(run, w, calls + more, maxSteps) == Execute(run, w, calls, maxSteps)
    decreases |more|
  {
    if more == [] {
      assert calls + more == calls;
    } else {
      NothingAfterTheEnd(run, w, calls, more[..|more| - 1], maxSteps);
      assert (calls + more)[..|calls + more| - 1] == calls + more[..|more| - 1];
    }
  }

  // ---------------------------------------------------------------- the episode driver

  /** What the agent answers to the i-th request, or that asking it failed. */
  datatype Turn = Turn(calls: seq<Call>, stop: bool, tokens: nat) | Crash

  datatype Reason = AgentStopped | Resolved | MaxSteps | TokenBudget | AgentError

  function Calls(agent: nat -> Turn, turns: nat): seq<Call> {
    if turns == 0 then [] else Calls(agent, turns - 1) + if agent(turns - 1).Crash? then [] else agent(turns - 1).calls
  }

  function Tokens(agent: nat -> Turn, turns: nat): nat {
    if turns == 0 then 0 else Tokens(agent, turns - 1) + if agent(turns - 1).Crash? then 0 else agent(turns - 1).tokens
  }

  lemma {:induction false} OneMoreCall(run: Tools, w: World, calls: seq<Call>, turn: seq<Call>, k: nat, maxSteps: int)
    requires k < |turn|
    ensures var e := Execute(run, w, calls + turn[..k], maxSteps);
            Execute(run, w, calls + turn[..k + 1], maxSteps) ==
            if e.ended then e else
              var r := run(e.world, turn[k]);
              var steps := e.steps + [Step(turn[k], r.1)];
              Execution(steps, r.0, r.1.terminal || |steps| >= Budget(maxSteps))
  {
    var all := calls + turn[..k + 1];
    assert all[..|all| - 1] == calls + turn[..k] && all[|all| - 1] == turn[k];
  }

  /** A turn without tool calls. */
  predicate Silent(agent: nat -> Turn, i: nat) {
    agent(i).Turn? && agent(i).calls == []
  }

  lemma {:induction false} NothingYet(agent: nat -> Turn, run: Tools, w: World, maxSteps: int)
    ensures Calls(agent, 0) == [] && Tokens(agent, 0) == 0 && Execute(run, w, [], maxSteps) == Execution([], w, false)
  {
  }

  lemma OneMoreTurn(agent: nat -> Turn, turns: nat)
    ensures Calls(agent, turns + 1) == Calls(agent, turns) + if agent(turns).Crash? then [] else agent(turns).calls
    ensures Tokens(agent, turns + 1) == Tokens(agent, turns) + if agent(turns).Crash? then 0 else agent(turns).tokens
  {
  }

  /** The agent is done: a turn without tool calls that says so, or the second one without. */
  ghost predicate Stops(agent: nat -> Turn, i: nat) {
    Silent(agent, i) && (agent(i).stop || exists t :: 0 <= t < i && Silent(agent, t))
  }

  /** The loop of an episode.  It ends: every round uses up a step, or the one nudge. */
  method RunEpisode(agent: nat -> Turn, run: Tools, w0: World, maxSteps: int, tokenBudget: int)
    returns (reason: Reason, steps: seq<Step>, w: World, turns: nat)
    ensures 0 < turns <= Budget(maxSteps) + 1
    ensures var e := Execute(run, w0, Calls(agent, turns), maxSteps);
            && steps == e.steps && w == e.world && (e.ended <==> reason in {Resolved, MaxSteps})
            && (reason == TokenBudget <==> !e.ended && agent(turns - 1).Turn? && !Silent(agent, turns - 1)
                                           && Tokens(agent, turns) > tokenBudget)
    ensures forall t :: 0 <= t < turns ==> !Execute(run, w0, Calls(agent, t), maxSteps).ended
    ensures reason == Resolved <==> steps != [] && steps[|steps| - 1].result.terminal
    ensures reason == AgentError <==> agent(turns - 1).Crash?
    ensures reason == AgentStopped <==> Stops(agent, turns - 1)
    ensures forall t :: 0 <= t < turns - 1 ==>
              agent(t).Turn? && !Stops(agent, t) && (Silent(agent, t) || Tokens(agent, t + 1) <= tokenBudget)
  {
    hide Execute, Calls, Tokens;
    steps, w, turns := [], w0, 0;
    NothingYet(agent, run, w0, maxSteps);
    var tokens, nudged := 0, false;
    while true
      invariant Execute(run, w0, Calls(agent, turns), maxSteps) == Execution(steps, w, false)
      invariant |steps| < Budget(maxSteps) && (steps != [] ==> !steps[|steps| - 1].result.terminal)
      invariant tokens == Tokens(agent, turns)
      invariant turns <= |steps| + if nudged then 1 else 0
      invariant nudged <==> exists t :: 0 <= t < turns && Silent(agent, t)
      invariant forall t :: 0 <= t < turns ==>
                  agent(t).Turn? && !Stops(agent, t) && (Silent(agent, t) || Tokens(agent, t + 1) <= tokenBudget)
      invariant forall t :: 0 <= t < turns ==> !Execute(run, w0, Calls(agent, t), maxSteps).ended
      decreases Budget(maxSteps) - |steps|, if nudged then 0 else 1
    {
      var turn := agent(turns);
      ghost var before := Calls(agent, turns);
      OneMoreTurn(agent, turns);
      turns := turns + 1;
      if turn.Crash? {
        assert before + [] == before;
        return AgentError, steps, w, turns;
      }
      tokens := tokens + turn.tokens;
      if turn.calls == [] {
        assert before + [] == before;
        if turn.stop || nudged {
          return AgentStopped, steps, w, turns;
        }
        nudged := true;
        assert Silent(agent, turns - 1);
        continue;
      }
      ghost var was := |steps|;
      assert before + turn.calls[..0] == before;
      for k := 0 to |turn.calls|
        invariant Execute(run, w0, before + turn.calls[..k], maxSteps) == Execution(steps, w, false)
        invariant |steps| < Budget(maxSteps) && |steps| == was + k
        invariant steps != [] ==> !steps[|steps| - 1].result.terminal
      {
        OneMoreCall(run, w0, before, turn.calls, k, maxSteps);
        var r := run(w, turn.calls[k]);
        w := r.0;
        steps := steps + [Step(turn.calls[k], r.1)];
        if r.1.terminal || |steps| >= maxSteps {
          SkippedCalls(run, w0, before, turn.calls, k + 1, maxSteps);
          reason := if r.1.terminal then Resolved else MaxSteps;
          return;
        }
      }
      assert turn.calls[..|turn.calls|] == turn.calls;
      if tokens > tokenBudget {
        return TokenBudget, steps, w, turns;
      }
    }
  }

  /** The calls a turn still held when the loop broke out of it are not executed. */
  lemma {:induction false} SkippedCalls(run: Tools, w: World, before: seq<Call>, turn: seq<Call>, k: nat, maxSteps: int)
    requires k <= |turn| && Execute(run, w, before + turn[..k], maxSteps).ended
    ensures Execute(run, w, before + turn, maxSteps) == Execute(run, w, before + turn[..k], maxSteps)
  {
    NothingAfterTheEnd(run, w, before + turn[..k], turn[k..], maxSteps);
    assert before + turn[..k] + turn[k..] == before + turn;
  }

  // ---------------------------------------------------------------- the tool server

  type Verify = (World, seq<Step>) -> Verdict

  datatype Session = Session(steps: seq<Step>, world: World, verdict: Option<Verdict>)

  function ServerCall(run: Tools, verify: Verify, s: Session, call: Call, maxSteps: int): Session {
    if s.verdict.Some? then s else
      var r := run(s.world, call);
      var steps := s.steps + [Step(call, r.1)];
      Session(steps, r.0, if r.1.terminal || |steps| >= maxSteps then Some(verify(r.0, steps)) else None)
  }

  class OnCallToolset {
    const maxSteps: int
    var world: World
    var steps: seq<Step>
    var verdict: Option<Verdict>
    var done: bool
    var stepsUsed: nat

    function State(): Session
      reads this
    {
      Session(steps, world, verdict)
    }

    ghost predicate Valid()
      reads this
    {
      done == verdict.Some? && stepsUsed == |steps|
    }

    constructor (w: World, maxSteps: int)
      ensures Valid() && State() == Session([], w, None) && this.maxSteps == maxSteps
    {
      world, steps, verdict, done, stepsUsed := w, [], None, false, 0;
      this.maxSteps := maxSteps;
    }

    method Call(run: Tools, verify: Verify, call: Call) returns (content: string)
      requires Valid()
      modifies this
      ensures Valid() && State() == ServerCall(run, verify, old(State()), call, maxSteps)
      ensures content == if old(verdict).Some?
                         then "error: the incident session has ended " + "(step budget exhausted or already resolved)"
                         else run(old(world), call).1.content
    {
      if verdict.Some? {
        return "error: the incident session has ended " + "(step budget exhausted or already resolved)";
      }
      var r := run(world, call);
      world := r.0;
      steps := steps + [Step(call, r.1)];
      stepsUsed := |steps|;
      if r.1.terminal {
        Finish(verify);
      } else if |steps| >= maxSteps {
        Finish(verify);
      }
      content := r.1.content;
    }

    method Finish(verify: Verify)
      modifies this
      ensures verdict == Some(verify(world, steps)) && done
      ensures world == old(world) && steps == old(steps) && stepsUsed == old(stepsUsed)
    {
      verdict := Some(verify(world, steps));
      done := true;
    }
  }

  function ServerRun(run: Tools, verify: Verify, w: World, calls: seq<Call>, maxSteps: int): Session {
    if calls == [] then Session([], w, None)
    else ServerCall(run, verify, ServerRun(run, verify, w, calls[..|calls| - 1], maxSteps), calls[|calls| - 1],
                    maxSteps)
  }

  /** The server executes the same prefix, gives its verdict on the world and the steps at that moment, and neither
      executes anything nor changes its verdict afterwards. */
  lemma {:induction false} ServerExecutesThePrefix(run: Tools, verify: Verify, w: World, calls: seq<Call>,
                                                   maxSteps: int)
    ensures var s, e := ServerRun(run, verify, w, calls, maxSteps), Execute(run, w, calls, maxSteps);
            s == Session(e.steps, e.world, if e.ended then Some(verify(e.world, e.steps)) else None)
    decreases |calls|
  {
    if calls == [] {
    } else {
      ServerExecutesThePrefix(run, verify, w, calls[..|calls| - 1], maxSteps);
    }
  }

  /** Driver and server agree: given the calls of the turns the driver consumed, and any later calls when it ended by
      itself, the server ends with the driver's steps and the driver's world. */
  lemma {:induction false} DriverAndServerAgree(agent: nat -> Turn, run: Tools, verify: Verify, w: World,
                                                maxSteps: int, turns: nat, later: seq<Call>)
    requires later == [] || Execute(run, w, Calls(agent, turns), maxSteps).ended
    ensures var e := Execute(run, w, Calls(agent, turns), maxSteps);
            var s := ServerRun(run, verify, w, Calls(agent, turns) + later, maxSteps);
            && s.steps == e.steps && s.world == e.world
            && s.verdict == if e.ended then Some(verify(e.world, e.steps)) else None
  {
    ServerExecutesThePrefix(run, verify, w, Calls(agent, turns) + later, maxSteps);
    if later == [] {
      assert Calls(agent, turns) + later == Calls(agent, turns);
    } else {
      NothingAfterTheEnd(run, w, Calls(agent, turns), later, maxSteps);
    }
  }
}
