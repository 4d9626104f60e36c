# DDPG agent training loop, modelled in Dafny

This project models the training-loop controller of a DDPG-style
actor-critic agent: the `Agent` class of `agent.py`. The agent holds the
current state of an environment. It drives five collaborators: the
environment, the actor, the critic, the target actor and the target critic.
One interaction step works like this:

1. ask the actor for an action in the current state;
2. step the environment with that action;
3. ask the target actor for the next state's action, and the target critic
   for that pair's value;
4. train the critic toward the temporal-difference target: the reward alone
   at a terminal transition, otherwise the reward plus the target critic's
   value;
5. train the actor along the critic's gradient;
6. move to the next state and report whether it is terminal.

`run` repeats episodes. Each episode resets the environment and then takes
steps until one is terminal or the step cap is reached.

## How the model is built

- `protocol.dfy` (module `Protocol`)
  - Every call into a collaborator is a `Call` value, carrying its arguments
    and the answer it received.
  - A collaborator may change with every call (an actor changes when
    trained; an environment advances). So each one is a function of the
    whole call history so far.
  - Pure functions give the calls of one interaction step (`StepCalls`),
    of one episode (`EpisodeSteps`) and of a whole run (`RunCalls`). Lemmas
    state what the loop promises about them.
  - `HeldState` is the state the agent holds after a history: the next state
    of the latest environment step, or before any step the constructor's
    reset observation.
- `agent.dfy` (module `DdpgAgent`)
  - The class `Agent` has the fields the source keeps (the five
    collaborators and `state`), plus `calls`, the record of every call made
    so far. The source keeps no such record. `calls` is a real field, not a
    ghost one, because each collaborator's answer is a function of it.
  - Its methods record each call as it is made. Each is proved to produce
    exactly the calls the specification functions give, and to keep the
    invariant `Valid`: the history follows the protocol, and `state` is the
    history's held state.
  - The inner loop of `run` is a method of its own, `RunEpisode`.
- `scenarios.dfy` (module `Scenarios`)
  - The unit tests' scenarios are methods that build an agent over fixed
    collaborators, run it, and state what the collaborators saw.

The per-episode reset follows the code. The comment at `agent.py:48` says
episodes must start in the initial state, and the comment at
`agent_test.py:93` says every new episode starts with the output of
`env.reset`. The code does not do this: `agent.py:49` calls `reset` and
drops what it returns. So every episode, the first one included, starts
from the state the agent held before that episode's reset: the
constructor's reset observation, or the next state of the latest step. The
model keeps the code's behaviour (`Protocol.ResetKeepsHeldState`).

## Model

| member | source | states |
|---|---|---|
| Protocol.HeldState | agent.py:12-42 | the value of the agent's state after a history: the next state of the latest environment step, or before any step the observation of the constructor's reset; properties in `StepMovesHeldState`, `HeldStateIgnoresNonSteps` and `ResetKeepsHeldState` |
| Protocol.TdTarget | agent.py:27 | the critic's training target: the reward alone when the transition is terminal, otherwise the reward plus the target critic's value of the next state; used by `IsStepBlock` in the contract of `StepCalls` |
| Protocol.EpisodeSteps | agent.py:50-52 | the calls of the inner loop: up to `n` interaction steps, stopping after the first terminal one; properties in `EpisodeStopsAtFirstDone`, `EpisodeEndsAtTerminalStep` and `EpisodeLengthWithoutDone` |
| Protocol.RunCalls | agent.py:47-52 | the calls of the outer loop: per episode, one reset and then the episode's steps; properties in `RunResetCount`, `RunStepCountWithoutDone` and `RunDoneThenReset` |
| Protocol.StepCalls | agent.py:17-39 | an interaction step makes seven calls, in a fixed order: actor predict in the held state, environment step with the predicted action, target actor on the next state, target critic on the next state and that action, critic train on (state, action, TD target), critic gradient on (state, action), actor train on (state, gradient); each recorded answer is the collaborator's answer to that call |
| Protocol.StepMovesHeldState | agent.py:42-44 | after a step, the held state is the step's next state |
| Protocol.HeldStateIgnoresNonSteps | agent.py:12-42 | calls other than environment steps never change the held state |
| Protocol.ResetKeepsHeldState | agent.py:47-49 | the reset that opens an episode leaves the held state as it was |
| Protocol.EpisodeStopsAtFirstDone | agent.py:50-52 | an episode only steps the environment, at most `n` times; every step but the last is non-terminal; an episode shorter than `n` steps ends with a terminal one |
| Protocol.EpisodeEndsAtTerminalStep | agent.py:50-52 | if the k-th step of an episode is terminal, the episode made exactly k steps |
| Protocol.RunEventsSplit | agent.py:47-52 | what the environment sees of a run is the first episode's reset, its steps, then the rest of the run |
| Protocol.RunResetCount | agent.py:47-49 | a run of E episodes resets the environment exactly max(E, 0) times, however the episodes end |
| Protocol.EpisodeLengthWithoutDone | agent.py:50-52 | when no step is terminal, an episode makes exactly max(n, 0) non-terminal steps |
| Protocol.RunStepCountWithoutDone | agent.py:46-52 | when no step is terminal, a run of E episodes of at most M steps makes exactly max(E,0)·max(M,0) steps, none terminal |
| Protocol.RunDoneThenReset | agent.py:46-52 | in a run, a terminal step is followed by a reset or ends the run, and the run starts with a reset |
| Protocol.ResetKeepsProtocol | agent.py:49 | a reset keeps a history within the protocol |
| Protocol.StepKeepsProtocol | agent.py:14-44 | an interaction step keeps a history within the protocol |
| Protocol.EveryStepKeepsProtocol | agent.py:14-52 | in a history that keeps the protocol, every environment step sits inside a complete seven-call step taken from the state held just before it |
| DdpgAgent.Agent.constructor | agent.py:3-12 | the collaborators are stored as given, with both target networks absent by default; the environment is reset once and its observation becomes the state |
| DdpgAgent.Agent.RunHelper | agent.py:14-44 | the history grows by exactly the step's seven calls; the new state is the step's next state; the result is the step's terminal flag; the protocol invariant is kept |
| DdpgAgent.Agent.Run | agent.py:46-52 | the history grows by exactly the run's calls: per episode, one reset and then the episode's steps; the protocol invariant is kept |
| DdpgAgent.Agent.RunEpisode | agent.py:50-52 | the history grows by exactly the episode's steps, stopping after the first terminal one or after `episodeMaxLength` steps; the protocol invariant is kept |
| Scenarios.DefaultRun | agent_test.py:55-83 | with the test fixture `Fixture` (the constants and `setUp` of agent_test.py:10-53), `run()` makes the constructor's reset, one episode reset and one step; the environment is stepped with the predicted action 0; the critic is trained on (1.0, 0, 5 + 7 = 12); the actor is trained on (1.0, -1); the same trace also has the target actor asked about the next state 2.0 and the target critic about (2.0, 4), which the tests at agent_test.py:117-123 check |
| Scenarios.CountedRun | agent_test.py:85-98 | with an environment that is never terminal, a run of E episodes of at most M steps resets max(E, 0) times and steps max(E, 0)·max(M, 0) times |
| Scenarios.RunWithEpisodes | agent_test.py:85-98 | `run(10, 100)` with the fixture resets 10 times and steps 1000 times |
| Scenarios.EpisodeEndsAtKthStep | agent.py:50-52 | under an environment whose k-th step is terminal, an episode that can reach that step makes non-terminal steps up to it, then the terminal one, and stops |
| Scenarios.RunToTerminal | agent_test.py:100-115 | one episode under an environment whose k-th step is terminal: one reset, k − 1 non-terminal steps, one terminal step, nothing more |
| Scenarios.EpisodeStopsAtTerminalState | agent_test.py:100-115 | with `TerminalFixture(3)` (the fixture whose environment answers like the `side_effect` list of agent_test.py:105-109), `run(1, 100)`: the environment sees a reset, two non-terminal steps and one terminal step |

## Left out

- The networks and the environment themselves are not modelled. Each is a function of the call history, so any deterministic behaviour, including behaviour that changes after training, is covered. Randomness inside them is not.
- Floating point is not modelled. Rewards and critic values are integers. States, actions and gradients are type parameters, and the scenarios use `real` states.
- Exceptions raised by a collaborator, which the source passes on to the caller, are not modelled.
- DdpgAgent.Agent.RunHelper: requires both target networks to be present. With either one absent, the source fails with an attribute error on `None` partway through the step.
- DdpgAgent.Agent.Run: requires both target networks only when at least one step can happen (`episodes > 0` and `episodeMaxLength > 0`). With no step the source never touches them.
- The `episodes` and `episode_max_length` parameters of `_run_helper` are never read by the source, so `RunHelper` has none.
- The fourth item of the environment's step result (the info value) is dropped.
- `critic.predict`, `target_actor.train` and `target_critic.train` are never called by the agent. `Call` has no constructor for them, so no history can contain such a call.
- In the terminal-state scenario, the test's mock would raise an error on a fourth environment step. The model's environment keeps answering instead. The episode stops after the third step either way.
- The test counts calls on mock objects. The scenarios count them in the recorded history from the point the test starts counting.
