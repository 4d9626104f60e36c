/** The training-loop controller: the agent that holds the current state and
    drives its collaborators through interaction steps, episode by episode.

    The agent records every call it makes in `calls`.  The collaborators answer
    as functions of that history (see module Protocol), so the record is what
    the collaborators have seen, not extra state of the agent's own.
 */
module DdpgAgent {

  import opened Protocol

  class Agent<S, A, G> {
    const env: Environment<S, A, G>
    const actor: Actor<S, A, G>
    const critic: Critic<S, A, G>
    const targetActor: Option<TargetActor<S, A, G>>
    const targetCritic: Option<TargetCritic<S, A, G>>

    /** The current observed state. */
    var state: S
    /** Every call made so far into a collaborator, the constructor's reset first. */
    var calls: History<S, A, G>

    function Peers(): Collaborators<S, A, G> {
      Collaborators(env, actor, critic, targetActor, targetCritic)
    }

    /** The history keeps the protocol, and the held state is the one the
        history determines. */
    ghost predicate Valid()
      reads this
    {
      FollowsProtocol(calls) && state == HeldState(calls)
    }

    /** Stores the collaborators and takes the initial state from a reset of
        the environment.  The target networks may be episodeMaxLength - j out. */
    constructor (env: Environment<S, A, G>, actor: Actor<S, A, G>, critic: Critic<S, A, G>,
                 targetActor: Option<TargetActor<S, A, G>> := None,
                 targetCritic: Option<TargetCritic<S, A, G>> := None)
      ensures this.env == env && this.actor == actor && this.critic == critic
      ensures this.targetActor == targetActor && this.targetCritic == targetCritic
      ensures calls == [EnvReset(env.reset([]))] && state == env.reset([])
      ensures Valid()
    {
      this.env := env;
      this.actor := actor;
      this.critic := critic;
      this.targetActor := targetActor;
      this.targetCritic := targetCritic;
      var observation := env.reset([]);
      calls := [EnvReset(observation)];
      state := observation;
    }

    /** One interaction step: act, step the environment, train the critic toward
        the bootstrapped target and the actor along the critic's gradient, then
        move to the next state and report whether it is terminal. */
    method RunHelper() returns (done: bool)
      requires Valid() && Peers().Bootstraps()
      modifies this
      ensures Valid()
      ensures var b := StepCalls(Peers(), old(calls));
        calls == old(calls) + b && state == b[1].nextState && done == b[1].done
    {
      ghost var h := calls;
      var action := actor.predict(calls, state);
      calls := calls + [ActorPredict(state, action)];
      var t := env.step(calls, action);
      calls := calls + [EnvStep(action, t.nextState, t.reward, t.done)];
      ghost var h2 := calls;
      var nextAction := targetActor.value.predict(calls, t.nextState);
      calls := calls + [TargetActorPredict(t.nextState, nextAction)];
      ghost var h3 := calls;
      var nextValue := targetCritic.value.predict(calls, t.nextState, nextAction);
      calls := calls + [TargetCriticPredict(t.nextState, nextAction, nextValue)];
      var target := if t.done then t.reward else t.reward + nextValue;
      calls := calls + [CriticTrain(state, action, target)];
      ghost var h5 := calls;
      var gradient := critic.computeGradient(calls, state, action);
      calls := calls + [CriticComputeGradient(state, action, gradient)];
      calls := calls + [ActorTrain(state, gradient)];
      state := t.nextState;
      done := t.done;

      ghost var b := StepCalls(Peers(), h);
      assert h2 == h + b[..2] && h3 == h + b[..3] && h5 == h + b[..5];
      assert calls == h + b;
      StepMovesHeldState(Peers(), h);
      StepKeepsProtocol(Peers(), h);
    }

    /** Runs `episodes` episodes of at most `episodeMaxLength` steps each; every
        episode resets the environment first, which leaves the held state as it
        was. */
    method Run(episodes: int := 1, episodeMaxLength: int := 1)
      requires Valid()
      requires episodes > 0 && episodeMaxLength > 0 ==> Peers().Bootstraps()
      modifies this
      ensures Valid()
      ensures calls == old(calls) + RunCalls(Peers(), old(calls), episodes, episodeMaxLength)
    {
      var remaining := episodes;
      while remaining > 0
        invariant Valid()
        invariant old(calls) + RunCalls(Peers(), old(calls), episodes, episodeMaxLength)
          == calls + RunCalls(Peers(), calls, remaining, episodeMaxLength)
      {
        ghost var before := calls;
        var observation := env.reset(calls);
        calls := calls + [EnvReset(observation)];
        ResetKeepsHeldState(before, observation);
        ResetKeepsProtocol(before, observation);
        RunEpisode(episodeMaxLength);
        RunCallsContinue(Peers(), before, remaining, episodeMaxLength);
        remaining := remaining - 1;
      }
    }

    /** The inner loop of `run`: up to `episodeMaxLength` interaction steps,
        left early after the first one that reports a terminal state. */
    method RunEpisode(episodeMaxLength: int)
      requires Valid()
      requires episodeMaxLength > 0 ==> Peers().Bootstraps()
      modifies this
      ensures Valid()
      ensures calls == old(calls) + EpisodeSteps(Peers(), old(calls), episodeMaxLength)
    {
      var left := episodeMaxLength;
      while left > 0
        invariant Valid()
        invariant old(calls) + EpisodeSteps(Peers(), old(calls), episodeMaxLength)
          == calls + EpisodeSteps(Peers(), calls, left)
      {
        ghost var h := calls;
        var done := RunHelper();
        if done {
          assert EpisodeSteps(Peers(), h, left) == calls[|h|..];
          AppendAssociates(h, calls[|h|..], []);
          break;
        }
        EpisodeStepsContinue(Peers(), h, left);
        left := left - 1;
      }
    }
  }
}
