/** The interaction-and-update protocol of the DDPG training loop, on values.

    Every call the agent makes into one of its collaborators (the environment,
    the actor, the critic and the two target networks) is recorded as a `Call`,
    with its arguments and, where the collaborator answers, what it answered.
    A collaborator is an arbitrary object that may change with every call it
    receives, so each one is modelled as a function of the whole call history so
    far: the actor answers differently after it was trained, the environment
    advances with every step.  The functions below compute the calls one
    interaction step, one episode and one whole run make, and the lemmas state
    what the training loop promises about them.
 */
module Protocol {

  datatype Option<T> = None | Some(value: T)

  /** What the environment's `step` answers; the fourth item (info) is dropped. */
  datatype Transition<S> = Transition(nextState: S, reward: int, done: bool)

  /** One call into a collaborator.  There is no constructor for training a
      target network: the agent has no way to make such a call. */
  datatype Call<S, A, G> =
    | EnvReset(observation: S)
    | ActorPredict(state: S, action: A)
    | EnvStep(action: A, nextState: S, reward: int, done: bool)
    | TargetActorPredict(state: S, action: A)
    | TargetCriticPredict(state: S, action: A, value: int)
    | CriticTrain(state: S, action: A, target: int)
    | CriticComputeGradient(state: S, action: A, gradient: G)
    | ActorTrain(state: S, gradient: G)

  type History<S, A, G> = seq<Call<S, A, G>>

  datatype Environment<!S, !A, !G> = Environment(reset: History<S, A, G> -> S, step: (History<S, A, G>, A) -> Transition<S>)
  datatype Actor<!S, !A, !G> = Actor(predict: (History<S, A, G>, S) -> A)
  datatype Critic<!S, !A, !G> = Critic(computeGradient: (History<S, A, G>, S, A) -> G)
  datatype TargetActor<!S, !A, !G> = TargetActor(predict: (History<S, A, G>, S) -> A)
  datatype TargetCritic<!S, !A, !G> = TargetCritic(predict: (History<S, A, G>, S, A) -> int)

  /** The five collaborators an agent holds; the target networks may be absent. */
  datatype Collaborators<!S, !A, !G> = Collaborators(
    env: Environment<S, A, G>,
    actor: Actor<S, A, G>,
    critic: Critic<S, A, G>,
    targetActor: Option<TargetActor<S, A, G>>,
    targetCritic: Option<TargetCritic<S, A, G>>)
  {
    /** Both target networks are present, so a training target can be computed. */
    predicate Bootstraps() {
      targetActor.Some? && targetCritic.Some?
    }
  }

  /** An environment whose `step` never reports a terminal state. */
  ghost predicate NeverDone<S(!new), A(!new), G(!new)>(env: Environment<S, A, G>) {
    forall h, a :: !env.step(h, a).done
  }

  /** The history of an agent: it opens with the reset made at construction. */
  predicate Started<S, A, G>(h: History<S, A, G>) {
    |h| > 0 && h[0].EnvReset?
  }

  /** The state the agent holds after the calls `h`: the next state of the most
      recent environment step, or, before any step, the observation of the reset
      made at construction.  Later resets do not change it. */
  function HeldState<S, A, G>(h: History<S, A, G>): S
    requires Started(h)
    decreases |h|
  {
    var last := h[|h| - 1];
    if last.EnvStep? then last.nextState
    else if |h| == 1 then h[0].observation
    else HeldState(h[..|h| - 1])
  }

  /** The training target: the reward alone at a terminal transition, otherwise
      the reward plus the target critic's value of the next state. */
  function TdTarget(reward: int, done: bool, nextValue: int): int {
    if done then reward else reward + nextValue
  }

  /** The seven calls of one interaction step taken from state `s`, in their
      order, with the data flow between them. */
  ghost predicate IsStepBlock<S, A, G>(b: History<S, A, G>, s: S) {
    |b| == 7 &&
    b[0].ActorPredict? && b[0].state == s &&
    b[1].EnvStep? && b[1].action == b[0].action &&
    b[2].TargetActorPredict? && b[2].state == b[1].nextState &&
    b[3].TargetCriticPredict? && b[3].state == b[1].nextState && b[3].action == b[2].action &&
    b[4].CriticTrain? && b[4].state == s && b[4].action == b[0].action &&
    b[4].target == TdTarget(b[1].reward, b[1].done, b[3].value) &&
    b[5].CriticComputeGradient? && b[5].state == s && b[5].action == b[0].action &&
    b[6].ActorTrain? && b[6].state == s && b[6].gradient == b[5].gradient
  }

  /** Every answer recorded in the step block `b`, made after the calls `h`, is
      what its collaborator answers to that call after the calls before it. */
  ghost predicate Answered<S, A, G>(c: Collaborators<S, A, G>, h: History<S, A, G>, b: History<S, A, G>)
    requires |b| == 7 && c.Bootstraps()
    requires b[0].ActorPredict? && b[1].EnvStep? && b[2].TargetActorPredict?
    requires b[3].TargetCriticPredict? && b[5].CriticComputeGradient?
  {
    b[0].action == c.actor.predict(h, b[0].state) &&
    c.env.step(h + b[..1], b[1].action) == Transition(b[1].nextState, b[1].reward, b[1].done) &&
    b[2].action == c.targetActor.value.predict(h + b[..2], b[2].state) &&
    b[3].value == c.targetCritic.value.predict(h + b[..3], b[3].state, b[3].action) &&
    b[5].gradient == c.critic.computeGradient(h + b[..5], b[5].state, b[5].action)
  }

  /** The calls of one interaction step after the calls `h`. */
  function StepCalls<S, A, G>(c: Collaborators<S, A, G>, h: History<S, A, G>): (b: History<S, A, G>)
    requires Started(h) && c.Bootstraps()
    ensures IsStepBlock(b, HeldState(h))
    ensures Answered(c, h, b)
  {
    var s := HeldState(h);
    var action := c.actor.predict(h, s);
    var b1 := [ActorPredict(s, action)];
    var t := c.env.step(h + b1, action);
    var b2 := b1 + [EnvStep(action, t.nextState, t.reward, t.done)];
    var nextAction := c.targetActor.value.predict(h + b2, t.nextState);
    var b3 := b2 + [TargetActorPredict(t.nextState, nextAction)];
    var nextValue := c.targetCritic.value.predict(h + b3, t.nextState, nextAction);
    var b4 := b3 + [TargetCriticPredict(t.nextState, nextAction, nextValue)];
    var b5 := b4 + [CriticTrain(s, action, TdTarget(t.reward, t.done, nextValue))];
    var gradient := c.critic.computeGradient(h + b5, s, action);
    var b6 := b5 + [CriticComputeGradient(s, action, gradient)];
    var b := b6 + [ActorTrain(s, gradient)];
    assert b[..1] == b1 && b[..2] == b2 && b[..3] == b3 && b[..5] == b5;
    b
  }

  /** The calls of the inner loop of `run`: up to `n` interaction steps after the
      calls `h`, stopping after the first step that reports a terminal state. */
  function EpisodeSteps<S, A, G>(c: Collaborators<S, A, G>, h: History<S, A, G>, n: int): History<S, A, G>
    requires Started(h) && (n > 0 ==> c.Bootstraps())
    decreases n
  {
    if n <= 0 then []
    else
      var b := StepCalls(c, h);
      if b[1].done then b else b + EpisodeSteps(c, h + b, n - 1)
  }

  /** The calls of `run(episodes, maxLength)` after the calls `h`: per episode,
      one reset and then the episode's steps. */
  function RunCalls<S, A, G>(c: Collaborators<S, A, G>, h: History<S, A, G>, episodes: int, maxLength: int): History<S, A, G>
    requires Started(h) && (episodes > 0 && maxLength > 0 ==> c.Bootstraps())
    decreases episodes
  {
    if episodes <= 0 then []
    else
      var reset := [EnvReset(c.env.reset(h))];
      var episode := reset + EpisodeSteps(c, h + reset, maxLength);
      episode + RunCalls(c, h + episode, episodes - 1, maxLength)
  }

  /** The calls `cs` is a history whose every call after the first reset is a
      reset or belongs to a complete interaction step taken from the state held
      just before it. */
  ghost predicate FollowsProtocol<S, A, G>(cs: History<S, A, G>)
    decreases |cs|
  {
    Started(cs) &&
    (|cs| == 1 ||
     (cs[|cs| - 1].EnvReset? && FollowsProtocol(cs[..|cs| - 1])) ||
     (|cs| > 7 && FollowsProtocol(cs[..|cs| - 7]) && IsStepBlock(cs[|cs| - 7..], HeldState(cs[..|cs| - 7]))))
  }

  /** How many times a Python `for _ in range(n)` loop runs. */
  function Iterations(n: int): nat {
    if n > 0 then n else 0
  }

  /** What the environment sees of a history. */
  datatype EnvEvent = Reset | Step(done: bool)

  /** `n` steps, each reporting a non-terminal state. */
  function NonTerminalSteps(n: nat): seq<EnvEvent> {
    seq(n, _ => Step(false))
  }

  function EnvEvents<S, A, G>(cs: History<S, A, G>): seq<EnvEvent> {
    if cs == [] then []
    else
      var rest := EnvEvents(cs[1..]);
      match cs[0]
      case EnvReset(_) => [Reset] + rest
      case EnvStep(_, _, _, done) => [Step(done)] + rest
      case _ => rest
  }

  // ---------------------------------------------------------------------
  // Lemmas about the held state

  /** What the environment sees of two histories in a row. */
  lemma {:induction false} EnvEventsAppend<S, A, G>(a: History<S, A, G>, b: History<S, A, G>)
    ensures EnvEvents(a + b) == EnvEvents(a) + EnvEvents(b)
  {
    if a == [] {
      assert a + b == b;
    } else {
      assert (a + b)[0] == a[0];
      assert (a + b)[1..] == a[1..] + b;
      EnvEventsAppend(a[1..], b);
    }
  }

  /** Calls other than environment steps leave the held state as it was. */
  lemma {:induction false} HeldStateIgnoresNonSteps<S, A, G>(h: History<S, A, G>, tail: History<S, A, G>)
    requires Started(h)
    requires forall k :: 0 <= k < |tail| ==> !tail[k].EnvStep?
    ensures HeldState(h + tail) == HeldState(h)
  {
    if tail != [] {
      var t := tail[..|tail| - 1];
      assert (h + tail)[|h + tail| - 1] == tail[|tail| - 1];
      assert (h + tail)[..|h + tail| - 1] == h + t;
      HeldStateIgnoresNonSteps(h, t);
    } else {
      assert h + tail == h;
    }
  }

  /** The reset at the start of every episode does not change the held state. */
  lemma ResetKeepsHeldState<S, A, G>(h: History<S, A, G>, observation: S)
    requires Started(h)
    ensures HeldState(h + [EnvReset(observation)]) == HeldState(h)
  {
    HeldStateIgnoresNonSteps(h, [EnvReset(observation)]);
  }

  /** After an interaction step the agent holds the step's next state. */
  lemma StepMovesHeldState<S, A, G>(c: Collaborators<S, A, G>, h: History<S, A, G>)
    requires Started(h) && c.Bootstraps()
    ensures var b := StepCalls(c, h); HeldState(h + b) == b[1].nextState
  {
    var b := StepCalls(c, h);
    assert h + b == (h + b[..2]) + b[2..];
    assert (h + b[..2])[|h| + 1] == b[1];
    HeldStateIgnoresNonSteps(h + b[..2], b[2..]);
  }

  /** The environment sees one step, and nothing else, of an interaction step. */
  lemma StepEvents<S, A, G>(c: Collaborators<S, A, G>, h: History<S, A, G>)
    requires Started(h) && c.Bootstraps()
    ensures var b := StepCalls(c, h); EnvEvents(b) == [Step(b[1].done)]
  {
    var b := StepCalls(c, h);
    assert b == [b[0]] + [b[1]] + b[2..];
    EnvEventsAppend([b[0]] + [b[1]], b[2..]);
    EnvEventsAppend([b[0]], [b[1]]);
    NoEnvEvents(b[2..]);
  }

  /** Calls into the networks are invisible to the environment. */
  lemma {:induction false} NoEnvEvents<S, A, G>(cs: History<S, A, G>)
    requires forall k :: 0 <= k < |cs| ==> !cs[k].EnvStep? && !cs[k].EnvReset?
    ensures EnvEvents(cs) == []
  {
    if cs != [] {
      NoEnvEvents(cs[1..]);
    }
  }

  // ---------------------------------------------------------------------
  // Lemmas about episodes and runs

  /** Concatenation is associative; a named step for the loop proofs. */
  lemma AppendAssociates<T>(a: seq<T>, b: seq<T>, c: seq<T>)
    ensures a + (b + c) == (a + b) + c
  {
  }

  /** The inner loop of `run` after one step that did not reach a terminal state. */
  lemma EpisodeStepsContinue<S, A, G>(c: Collaborators<S, A, G>, h: History<S, A, G>, n: int)
    requires Started(h) && n > 0 && c.Bootstraps() && !StepCalls(c, h)[1].done
    ensures h + EpisodeSteps(c, h, n) == (h + StepCalls(c, h)) + EpisodeSteps(c, h + StepCalls(c, h), n - 1)
  {
    AppendAssociates(h, StepCalls(c, h), EpisodeSteps(c, h + StepCalls(c, h), n - 1));
  }

  /** The outer loop of `run` after one episode. */
  lemma RunCallsContinue<S, A, G>(c: Collaborators<S, A, G>, h: History<S, A, G>, episodes: int, maxLength: int)
    requires Started(h) && episodes > 0 && (maxLength > 0 ==> c.Bootstraps())
    ensures var opening := h + [EnvReset(c.env.reset(h))];
      var after := opening + EpisodeSteps(c, opening, maxLength);
      h + RunCalls(c, h, episodes, maxLength) == after + RunCalls(c, after, episodes - 1, maxLength)
  {
    var reset := [EnvReset(c.env.reset(h))];
    var steps := EpisodeSteps(c, h + reset, maxLength);
    AppendAssociates(h, reset, steps);
    AppendAssociates(h, reset + steps, RunCalls(c, h + reset + steps, episodes - 1, maxLength));
  }

  /** Within an episode the environment is only stepped, at most `n` times;
      every step but the last reports a non-terminal state, and the episode is
      cut short of `n` steps only by a terminal one. */
  lemma {:induction false} EpisodeStopsAtFirstDone<S, A, G>(c: Collaborators<S, A, G>, h: History<S, A, G>, n: int)
    requires Started(h) && (n > 0 ==> c.Bootstraps())
    ensures var ev := EnvEvents(EpisodeSteps(c, h, n));
      |ev| <= Iterations(n) &&
      (forall k :: 0 <= k < |ev| ==> ev[k].Step?) &&
      (forall k :: 0 <= k < |ev| - 1 ==> ev[k] == Step(false)) &&
      (|ev| > 0 ==> ev[|ev| - 1].Step?) &&
      (|ev| < n ==> |ev| > 0 && ev[|ev| - 1] == Step(true))
    decreases n
  {
    if n > 0 {
      var b := StepCalls(c, h);
      StepEvents(c, h);
      if !b[1].done {
        var rest := EpisodeSteps(c, h + b, n - 1);
        assert EpisodeSteps(c, h, n) == b + rest;
        EpisodeStopsAtFirstDone(c, h + b, n - 1);
        EnvEventsAppend(b, rest);
        NonTerminalThenEpisode(EnvEvents(rest), n - 1);
      }
    }
  }

  /** A non-terminal step followed by an episode of at most `n` steps that
      stops only at a terminal one is such an episode of at most `n + 1`. */
  lemma NonTerminalThenEpisode(ev: seq<EnvEvent>, n: nat)
    requires |ev| <= n
    requires forall k :: 0 <= k < |ev| ==> ev[k].Step?
    requires forall k :: 0 <= k < |ev| - 1 ==> ev[k] == Step(false)
    requires |ev| > 0 ==> ev[|ev| - 1].Step?
    requires |ev| < n ==> |ev| > 0 && ev[|ev| - 1] == Step(true)
    ensures var all := [Step(false)] + ev;
      |all| <= n + 1 &&
      (forall k :: 0 <= k < |all| ==> all[k].Step?) &&
      (forall k :: 0 <= k < |all| - 1 ==> all[k] == Step(false)) &&
      (|all| > 0 ==> all[|all| - 1].Step?) &&
      (|all| < n + 1 ==> |all| > 0 && all[|all| - 1] == Step(true))
  {
    var all := [Step(false)] + ev;
    forall k | 0 <= k < |all|
      ensures all[k].Step? && (k < |all| - 1 ==> all[k] == Step(false))
    {
      if k > 0 {
        assert all[k] == ev[k - 1];
      }
    }
  }

  /** If the k-th step of an episode reports a terminal state, the episode made
      exactly k steps. */
  lemma EpisodeEndsAtTerminalStep<S, A, G>(c: Collaborators<S, A, G>, h: History<S, A, G>, n: int, k: nat)
    requires Started(h) && (n > 0 ==> c.Bootstraps())
    requires 1 <= k <= |EnvEvents(EpisodeSteps(c, h, n))|
    requires EnvEvents(EpisodeSteps(c, h, n))[k - 1] == Step(true)
    ensures |EnvEvents(EpisodeSteps(c, h, n))| == k
  {
    EpisodeStopsAtFirstDone(c, h, n);
  }

  /** What the environment sees of a run: the first episode's reset, its
      steps, then the rest of the run. */
  lemma RunEventsSplit<S, A, G>(c: Collaborators<S, A, G>, h: History<S, A, G>, episodes: int, maxLength: int)
    requires Started(h) && episodes > 0 && (maxLength > 0 ==> c.Bootstraps())
    ensures var reset := [EnvReset(c.env.reset(h))];
      var steps := EpisodeSteps(c, h + reset, maxLength);
      EnvEvents(RunCalls(c, h, episodes, maxLength))
        == [Reset] + EnvEvents(steps) + EnvEvents(RunCalls(c, h + (reset + steps), episodes - 1, maxLength))
  {
    var reset := [EnvReset(c.env.reset(h))];
    var steps := EpisodeSteps(c, h + reset, maxLength);
    var rest := RunCalls(c, h + (reset + steps), episodes - 1, maxLength);
    EnvEventsAppend(reset, steps);
    EnvEventsAppend(reset + steps, rest);
  }

  /** An episode's events add one reset to the count of what follows them. */
  lemma ResetCountOfEpisode(s: seq<EnvEvent>, r: seq<EnvEvent>)
    requires forall k :: 0 <= k < |s| ==> s[k].Step?
    ensures multiset([Reset] + s + r)[Reset] == 1 + multiset(r)[Reset]
  {
    assert Reset !in s;
    assert multiset([Reset] + s + r) == multiset([Reset]) + multiset(s) + multiset(r);
  }

  /** A run of `episodes` episodes resets the environment exactly once per
      episode, however the episodes end. */
  lemma {:induction false} RunResetCount<S, A, G>(c: Collaborators<S, A, G>, h: History<S, A, G>, episodes: int, maxLength: int)
    requires Started(h) && (episodes > 0 && maxLength > 0 ==> c.Bootstraps())
    ensures multiset(EnvEvents(RunCalls(c, h, episodes, maxLength)))[Reset] == Iterations(episodes)
    decreases episodes
  {
    if episodes > 0 {
      var reset := [EnvReset(c.env.reset(h))];
      var steps := EpisodeSteps(c, h + reset, maxLength);
      var episode := reset + steps;
      EpisodeStopsAtFirstDone(c, h + reset, maxLength);
      var rest := RunCalls(c, h + episode, episodes - 1, maxLength);
      RunEventsSplit(c, h, episodes, maxLength);
      ResetCountOfEpisode(EnvEvents(steps), EnvEvents(rest));
      RunResetCount(c, h + episode, episodes - 1, maxLength);
    }
  }

  /** If no step ever reports a terminal state, an episode makes exactly `n`
      steps. */
  lemma {:induction false} EpisodeLengthWithoutDone<S(!new), A(!new), G(!new)>(c: Collaborators<S, A, G>, h: History<S, A, G>, n: int)
    requires Started(h) && (n > 0 ==> c.Bootstraps()) && NeverDone(c.env)
    ensures EnvEvents(EpisodeSteps(c, h, n)) == NonTerminalSteps(Iterations(n))
    decreases n
  {
    if n > 0 {
      var b := StepCalls(c, h);
      StepEvents(c, h);
      assert !b[1].done by {
        assert c.env.step(h + b[..1], b[1].action).done == b[1].done;
      }
      EpisodeLengthWithoutDone(c, h + b, n - 1);
      EnvEventsAppend(b, EpisodeSteps(c, h + b, n - 1));
    }
  }

  /** If no step ever reports a terminal state, `run(E, M)` resets E times and
      steps exactly E * M times. */
  lemma {:induction false} RunStepCountWithoutDone<S(!new), A(!new), G(!new)>(c: Collaborators<S, A, G>, h: History<S, A, G>, episodes: int, maxLength: int)
    requires Started(h) && (episodes > 0 && maxLength > 0 ==> c.Bootstraps()) && NeverDone(c.env)
    ensures var ev := multiset(EnvEvents(RunCalls(c, h, episodes, maxLength)));
      ev[Step(false)] == Iterations(episodes) * Iterations(maxLength) &&
      ev[Step(true)] == 0
    decreases episodes
  {
    if episodes > 0 {
      var reset := [EnvReset(c.env.reset(h))];
      var steps := EpisodeSteps(c, h + reset, maxLength);
      var episode := reset + steps;
      var rest := RunCalls(c, h + episode, episodes - 1, maxLength);
      EpisodeLengthWithoutDone(c, h + reset, maxLength);
      StepsMultiset(Iterations(maxLength));
      RunEventsSplit(c, h, episodes, maxLength);
      RunStepCountWithoutDone(c, h + episode, episodes - 1, maxLength);
      var e, m := Iterations(episodes), Iterations(maxLength);
      assert Iterations(episodes - 1) == e - 1;
      assert e * m == m + (e - 1) * m;
      var ev := [Reset] + EnvEvents(steps) + EnvEvents(rest);
      assert multiset(ev) == multiset([Reset]) + multiset(EnvEvents(steps)) + multiset(EnvEvents(rest));
    }
  }

  /** How many of each event `n` non-terminal steps hold. */
  lemma {:induction false} StepsMultiset(n: nat)
    ensures multiset(NonTerminalSteps(n))[Step(false)] == n
    ensures multiset(NonTerminalSteps(n))[Step(true)] == 0
    ensures multiset(NonTerminalSteps(n))[Reset] == 0
  {
    if n > 0 {
      assert NonTerminalSteps(n) == NonTerminalSteps(n - 1) + [Step(false)];
      StepsMultiset(n - 1);
    }
  }

  /** Every terminal step in `ev` is followed by a reset or ends `ev`, and a
      non-empty `ev` starts with a reset. */
  predicate ResetsAfterDone(ev: seq<EnvEvent>) {
    (|ev| > 0 ==> ev[0] == Reset) &&
    (forall k :: 0 <= k < |ev| - 1 && ev[k] == Step(true) ==> ev[k + 1] == Reset)
  }

  /** An episode (a reset, then steps of which only the last may be terminal)
      followed by events that keep `ResetsAfterDone` keeps it too. */
  lemma EpisodeThenResetsAfterDone(s: seq<EnvEvent>, r: seq<EnvEvent>)
    requires forall k :: 0 <= k < |s| - 1 ==> s[k] == Step(false)
    requires ResetsAfterDone(r)
    ensures ResetsAfterDone([Reset] + s + r)
  {
    var ev := [Reset] + s + r;
    forall k | 0 <= k < |ev| - 1 && ev[k] == Step(true)
      ensures ev[k + 1] == Reset
    {
      if k > |s| {
        assert ev[k] == r[k - 1 - |s|];
        assert ev[k + 1] == r[k - |s|];
      } else if k > 0 {
        assert ev[k] == s[k - 1];
        assert ev[k + 1] == r[0];
      }
    }
  }

  /** In a run, a step that reports a terminal state is followed by a reset or
      by the end of the run, and a run that resets at all starts with one. */
  lemma {:induction false} RunDoneThenReset<S, A, G>(c: Collaborators<S, A, G>, h: History<S, A, G>, episodes: int, maxLength: int)
    requires Started(h) && (episodes > 0 && maxLength > 0 ==> c.Bootstraps())
    ensures ResetsAfterDone(EnvEvents(RunCalls(c, h, episodes, maxLength)))
    decreases episodes
  {
    if episodes > 0 {
      var reset := [EnvReset(c.env.reset(h))];
      var steps := EpisodeSteps(c, h + reset, maxLength);
      var episode := reset + steps;
      var rest := RunCalls(c, h + episode, episodes - 1, maxLength);
      EpisodeStopsAtFirstDone(c, h + reset, maxLength);
      RunDoneThenReset(c, h + episode, episodes - 1, maxLength);
      RunEventsSplit(c, h, episodes, maxLength);
      EpisodeThenResetsAfterDone(EnvEvents(steps), EnvEvents(rest));
    }
  }

  // ---------------------------------------------------------------------
  // The protocol, all along a history

  /** The environment step at index `i` of `cs` sits in a complete interaction
      step taken from the state held just before it. */
  ghost predicate StepInBlock<S, A, G>(cs: History<S, A, G>, i: int)
    requires 0 <= i < |cs|
  {
    Started(cs) && 2 <= i && i + 5 < |cs| && IsStepBlock(cs[i - 1..i + 6], HeldState(cs[..i - 1]))
  }

  /** Extending a history keeps the steps already complete in it complete. */
  lemma StepInBlockExtends<S, A, G>(p: History<S, A, G>, cs: History<S, A, G>, i: int)
    requires |p| <= |cs| && cs[..|p|] == p
    requires 0 <= i < |p| && StepInBlock(p, i)
    ensures StepInBlock(cs, i)
  {
    assert cs[i - 1..i + 6] == p[i - 1..i + 6];
    assert cs[..i - 1] == p[..i - 1];
  }

  /** A reset keeps a history within the protocol. */
  lemma ResetKeepsProtocol<S, A, G>(h: History<S, A, G>, observation: S)
    requires FollowsProtocol(h)
    ensures FollowsProtocol(h + [EnvReset(observation)])
  {
    assert (h + [EnvReset(observation)])[..|h|] == h;
  }

  /** An interaction step keeps a history within the protocol. */
  lemma StepKeepsProtocol<S, A, G>(c: Collaborators<S, A, G>, h: History<S, A, G>)
    requires FollowsProtocol(h) && c.Bootstraps()
    ensures FollowsProtocol(h + StepCalls(c, h))
  {
    var cs := h + StepCalls(c, h);
    assert cs[..|cs| - 7] == h && cs[|cs| - 7..] == StepCalls(c, h);
  }

  /** Every environment step in a history that keeps the protocol sits in a
      complete interaction step taken from the state held just before it. */
  lemma {:induction false} EveryStepKeepsProtocol<S, A, G>(cs: History<S, A, G>)
    requires FollowsProtocol(cs)
    ensures forall i :: 0 <= i < |cs| && cs[i].EnvStep? ==> StepInBlock(cs, i)
    decreases |cs|
  {
    if |cs| > 1 {
      var n := if cs[|cs| - 1].EnvReset? && FollowsProtocol(cs[..|cs| - 1]) then |cs| - 1 else |cs| - 7;
      var p := cs[..n];
      EveryStepKeepsProtocol(p);
      forall i | 0 <= i < |cs| && cs[i].EnvStep?
        ensures StepInBlock(cs, i)
      {
        if i < n {
          assert p[i] == cs[i];
          StepInBlockExtends(p, cs, i);
        } else {
          assert n == |cs| - 7 && cs[n..][i - n] == cs[i];
          assert i == n + 1;
          assert cs[..i - 1] == p;
        }
      }
    }
  }
}
