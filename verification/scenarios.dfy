/** The scenarios of the agent's unit tests, stated as clients of the agent:
    each one builds an agent over collaborators with fixed answers, runs it and
    reports what the collaborators saw. */
module Scenarios {

  import opened Protocol
  import opened DdpgAgent

  /** How many times the environment was stepped in the history `h`. */
  function StepCount<S, A, G>(h: History<S, A, G>): nat {
    multiset(EnvEvents(h))[Step(false)] + multiset(EnvEvents(h))[Step(true)]
  }

  /** The test fixture: the environment resets to 1.0 and every step leads to
      2.0 with reward 5; the actor proposes 0, the critic's gradient is -1, the
      target actor proposes 4 and the target critic values it at 7. */
  function Fixture(): Collaborators<real, int, int> {
    Collaborators(
      Environment(h => 1.0, (h, a) => Transition(2.0, 5, false)),
      Actor((h, s) => 0),
      Critic((h, s, a) => -1),
      Some(TargetActor((h, s) => 4)),
      Some(TargetCritic((h, s, a) => 7)))
  }

  /** The fixture with an environment whose `k`-th step is terminal. */
  function TerminalFixture(k: int): Collaborators<real, int, int> {
    Fixture().(env := Environment(h => 1.0, (h, a) => Transition(2.0, 5, StepCount(h) + 1 == k)))
  }

  /** `run()` with its defaults, one episode of one step: the environment is
      stepped with the predicted action 0, the target networks are asked about
      the next state 2.0, the critic is trained on (1.0, 0) toward 5 + 7 = 12,
      and the actor on (1.0) with the critic's gradient. */
  method DefaultRun() returns (trace: History<real, int, int>)
    ensures trace == [EnvReset(1.0), EnvReset(1.0),
                      ActorPredict(1.0, 0), EnvStep(0, 2.0, 5, false),
                      TargetActorPredict(2.0, 4), TargetCriticPredict(2.0, 4, 7),
                      CriticTrain(1.0, 0, 12), CriticComputeGradient(1.0, 0, -1),
                      ActorTrain(1.0, -1)]
  {
    var f := Fixture();
    var agent := new Agent(f.env, f.actor, f.critic, targetActor := f.targetActor, targetCritic := f.targetCritic);
    agent.Run();
    trace := agent.calls;
    ghost var h := [EnvReset(1.0), EnvReset(1.0)];
    assert HeldState(h) == 1.0 by {
      assert h[..1] == [EnvReset(1.0)];
    }
    assert EpisodeSteps(f, h, 0) == [];
  }

  /** Runs `agent` and counts the resets and the steps the environment saw
      during the run: with no terminal step, one reset per episode and
      `episodeMaxLength` steps per episode. */
  method CountedRun<S(!new), A(!new), G(!new)>(agent: Agent<S, A, G>, episodes: int, episodeMaxLength: int)
    returns (resets: nat, steps: nat)
    requires agent.Valid() && agent.Peers().Bootstraps()
    requires NeverDone(agent.env)
    modifies agent
    ensures resets == Iterations(episodes) && steps == Iterations(episodes) * Iterations(episodeMaxLength)
  {
    var start := |agent.calls|;
    ghost var h := agent.calls;
    agent.Run(episodes, episodeMaxLength);
    resets := multiset(EnvEvents(agent.calls[start..]))[Reset];
    steps := StepCount(agent.calls[start..]);
    assert agent.calls[start..] == RunCalls(agent.Peers(), h, episodes, episodeMaxLength);
    RunResetCount(agent.Peers(), h, episodes, episodeMaxLength);
    RunStepCountWithoutDone(agent.Peers(), h, episodes, episodeMaxLength);
  }

  /** `run(episodes=10, episode_max_length=100)` with no terminal step:
      after construction, 10 resets and 10 * 100 steps. */
  method RunWithEpisodes() returns (resets: nat, steps: nat)
    ensures resets == 10 && steps == 1000
  {
    var f := Fixture();
    var agent := new Agent(f.env, f.actor, f.critic, targetActor := f.targetActor, targetCritic := f.targetCritic);
    resets, steps := CountedRun(agent, 10, 100);
  }

  /** Runs `agent` for one episode under an environment whose `k`-th step is
      terminal, `k` being within the episode's reach: the environment is reset,
      stepped without a terminal state up to the `k`-th step, and no further. */
  method RunToTerminal<S(!new), A(!new), G(!new)>(agent: Agent<S, A, G>, k: int, episodeMaxLength: int)
    returns (events: seq<EnvEvent>)
    requires agent.Valid() && agent.Peers().Bootstraps()
    requires TerminalAt(agent.env, k)
    requires StepCount(agent.calls) < k <= StepCount(agent.calls) + episodeMaxLength
    modifies agent
    ensures events == [Reset] + NonTerminalSteps(k - 1 - old(StepCount(agent.calls))) + [Step(true)]
  {
    var start := |agent.calls|;
    ghost var h := agent.calls;
    agent.Run(1, episodeMaxLength);
    events := EnvEvents(agent.calls[start..]);
    ghost var c := agent.Peers();
    assert agent.calls[start..] == RunCalls(c, h, 1, episodeMaxLength);
    ghost var reset := [EnvReset(c.env.reset(h))];
    RunEventsSplit(c, h, 1, episodeMaxLength);
    assert StepCount(h + reset) == StepCount(h) by {
      EnvEventsAppend(h, reset);
    }
    EpisodeEndsAtKthStep(c, k, h + reset, episodeMaxLength);
  }

  /** One episode of at most 100 steps whose third step is terminal: the
      environment is reset, stepped twice without a terminal state, stepped a
      third time into one, and not stepped again. */
  method EpisodeStopsAtTerminalState() returns (events: seq<EnvEvent>)
    ensures events == [Reset, Step(false), Step(false), Step(true)]
  {
    var f := TerminalFixture(3);
    var agent := new Agent(f.env, f.actor, f.critic, targetActor := f.targetActor, targetCritic := f.targetCritic);
    assert StepCount(agent.calls) == 0 by {
      assert EnvEvents(agent.calls) == [Reset] + EnvEvents(agent.calls[1..]);
    }
    events := RunToTerminal(agent, 3, 100);
    assert NonTerminalSteps(2) == [Step(false), Step(false)];
  }

  /** A step after the calls `h` adds one to the step count and asks the
      environment after exactly as many steps as `h` holds. */
  lemma StepCountOfStep<S, A, G>(c: Collaborators<S, A, G>, h: History<S, A, G>)
    requires Started(h) && c.Bootstraps()
    ensures var b := StepCalls(c, h);
      StepCount(h + b[..1]) == StepCount(h) && StepCount(h + b) == StepCount(h) + 1
  {
    var b := StepCalls(c, h);
    StepEvents(c, h);
    EnvEventsAppend(h, b);
    EnvEventsAppend(h, b[..1]);
    NoEnvEvents(b[..1]);
  }

  /** An environment whose `k`-th step, counted over the whole history, is
      the one that reports a terminal state. */
  ghost predicate TerminalAt<S(!new), A(!new), G(!new)>(env: Environment<S, A, G>, k: int) {
    forall h, a :: StepIsDone(env, h, a) == (StepCount(h) + 1 == k)
  }

  /** Whether stepping the environment after the calls `h` with action `a`
      reports a terminal state. */
  predicate StepIsDone<S, A, G>(env: Environment<S, A, G>, h: History<S, A, G>, a: A) {
    env.step(h, a).done
  }

  /** Under such an environment, the step after the calls `h` is terminal
      exactly when it is the `k`-th. */
  lemma StepDoneAt<S(!new), A(!new), G(!new)>(c: Collaborators<S, A, G>, k: int, h: History<S, A, G>)
    requires Started(h) && c.Bootstraps() && TerminalAt(c.env, k)
    ensures var b := StepCalls(c, h);
      b[1].done == (StepCount(h) + 1 == k) && StepCount(h + b) == StepCount(h) + 1
  {
    var b := StepCalls(c, h);
    StepCountOfStep(c, h);
    assert StepIsDone(c.env, h + b[..1], b[1].action) == b[1].done;
  }

  lemma PrependNonTerminal(m: nat)
    ensures [Step(false)] + NonTerminalSteps(m) == NonTerminalSteps(m + 1)
  {
  }

  /** With an environment whose `k`-th step is terminal, an episode started
      after fewer than `k` steps, with room to reach the `k`-th, makes
      non-terminal steps up to it and stops there. */
  lemma {:induction false} EpisodeEndsAtKthStep<S(!new), A(!new), G(!new)>(c: Collaborators<S, A, G>, k: int, h: History<S, A, G>, n: int)
    requires Started(h) && c.Bootstraps() && TerminalAt(c.env, k)
    requires StepCount(h) < k <= StepCount(h) + n
    ensures EnvEvents(EpisodeSteps(c, h, n))
      == NonTerminalSteps(k - 1 - StepCount(h)) + [Step(true)]
    decreases n
  {
    var b := StepCalls(c, h);
    StepDoneAt(c, k, h);
    StepEvents(c, h);
    if b[1].done {
      assert EpisodeSteps(c, h, n) == b;
      assert NonTerminalSteps(k - 1 - StepCount(h)) == [];
      assert EnvEvents(EpisodeSteps(c, h, n)) == [] + [Step(true)];
    } else {
      var rest := EpisodeSteps(c, h + b, n - 1);
      assert EpisodeSteps(c, h, n) == b + rest;
      EpisodeEndsAtKthStep(c, k, h + b, n - 1);
      EnvEventsAppend(b, rest);
      var m := k - 1 - StepCount(h + b);
      PrependNonTerminal(m);
      AppendAssociates([Step(false)], NonTerminalSteps(m), [Step(true)]);
      var tail := EnvEvents(rest);
      assert tail == NonTerminalSteps(m) + [Step(true)];
      assert EnvEvents(b + rest) == [Step(false)] + tail;
    }
  }
}
