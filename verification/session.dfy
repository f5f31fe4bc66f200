/** Many hands in a row between the same two players, each hand consuming
    its own draws and starting from the states the previous hand left. */
module Session {
  import opened GameTypes
  import PlayerA
  import Bandit
  import opened Round
  import opened Rates

  /** The state after a run of hands: both players, and A's rewards and
      both players' actions, one entry per hand in playing order. */
  datatype Run = Run(
    a: PlayerA.AState,
    b: Bandit.BState,
    rewards: seq<int>,
    actionsA: seq<Action>,
    actionsB: seq<Action>)

  /** Plays one hand per element of `ds`, in order. */
  function PlayHands(a: PlayerA.AState, b: Bandit.BState, ds: seq<Draws>): (r: Run)
    ensures |r.rewards| == |ds| && |r.actionsA| == |ds| && |r.actionsB| == |ds|
    decreases |ds|
  {
    if |ds| == 0 then Run(a, b, [], [], [])
    else Extend(PlayHands(a, b, ds[..|ds| - 1]), ds[|ds| - 1])
  }

  /** A run extended by one more hand, played from the states the run left. */
  function Extend(r: Run, d: Draws): Run
  {
    var h := PlayHand(r.a, r.b, d);
    Run(h.a, h.b, r.rewards + [h.reward], r.actionsA + [h.actionA], r.actionsB + [h.actionB])
  }

  /** A run is the empty run extended once per set of draws. */
  lemma {:induction false} PlayHandsIterates(a: PlayerA.AState, b: Bandit.BState, ds: seq<Draws>)
    ensures PlayHands(a, b, ds) == Iterate(Extend, Run(a, b, [], [], []), ds)
    decreases |ds|
  {
    if |ds| > 0 {
      PlayHandsIterates(a, b, ds[..|ds| - 1]);
    }
  }

  /** Hand i of a run is resolved from its own draws: A's action comes from
      its card and red-card draw, B's action is B's decision from the state
      the first i hands left, and A's reward comes from the game's rules. */
  lemma {:induction false} RunHand(a: PlayerA.AState, b: Bandit.BState, ds: seq<Draws>, i: nat)
    requires i < |ds|
    ensures var r := PlayHands(a, b, ds);
      && r.actionsA[i] == PlayerA.Strategy(ds[i].card, ds[i].redDraw)
      && r.actionsB[i] == Bandit.Strategy(PlayHands(a, b, ds[..i]).b, r.actionsA[i], ds[i].u, ds[i].coin).action
      && r.rewards[i] == Resolve(ds[i].card, r.actionsA[i], r.actionsB[i])
    decreases |ds|
  {
    var pre := ds[..|ds| - 1];
    if i < |pre| {
      RunHand(a, b, pre, i);
      assert ds[i] == pre[i] && ds[..i] == pre[..i];
    } else {
      assert ds[..i] == pre;
    }
  }

  /** Every hand of a run follows the rules, and so gives A one of the four
      payoffs. */
  lemma RunFollowsTheRules(a: PlayerA.AState, b: Bandit.BState, ds: seq<Draws>)
    ensures var r := PlayHands(a, b, ds);
      forall i :: 0 <= i < |ds| ==>
        && r.actionsA[i] == PlayerA.Strategy(ds[i].card, ds[i].redDraw)
        && r.actionsB[i] == Bandit.Strategy(PlayHands(a, b, ds[..i]).b, r.actionsA[i], ds[i].u, ds[i].coin).action
        && r.rewards[i] == Resolve(ds[i].card, r.actionsA[i], r.actionsB[i])
        && r.rewards[i] in Payoffs
  {
    forall i | 0 <= i < |ds|
      ensures var r := PlayHands(a, b, ds);
        && r.actionsA[i] == PlayerA.Strategy(ds[i].card, ds[i].redDraw)
        && r.actionsB[i] == Bandit.Strategy(PlayHands(a, b, ds[..i]).b, r.actionsA[i], ds[i].u, ds[i].coin).action
        && r.rewards[i] == Resolve(ds[i].card, r.actionsA[i], r.actionsB[i])
    {
      RunHand(a, b, ds, i);
    }
  }

  /** The calls a run makes to the players: those of each hand, in order. */
  function RunCalls(a: PlayerA.AState, b: Bandit.BState, ds: seq<Draws>): (t: seq<Event>)
    ensures |t| == 4 * |ds|
    ensures |ds| > 0 ==>
      var prev := PlayHands(a, b, ds[..|ds| - 1]);
      && t[..4 * (|ds| - 1)] == RunCalls(a, b, ds[..|ds| - 1])
      && t[4 * (|ds| - 1)..] == Calls(ds[|ds| - 1], PlayHand(prev.a, prev.b, ds[|ds| - 1]))
    decreases |ds|
  {
    if |ds| == 0 then []
    else
      var prev := PlayHands(a, b, ds[..|ds| - 1]);
      RunCalls(a, b, ds[..|ds| - 1]) + Calls(ds[|ds| - 1], PlayHand(prev.a, prev.b, ds[|ds| - 1]))
  }

  /** B is asked for a decision exactly once per hand, whatever A did. */
  lemma {:induction false} RunAsksBOncePerHand(a: PlayerA.AState, b: Bandit.BState, ds: seq<Draws>)
    ensures AsksOfB(RunCalls(a, b, ds)) == |ds|
    decreases |ds|
  {
    if |ds| > 0 {
      var pre := ds[..|ds| - 1];
      var prev := PlayHands(a, b, pre);
      RunAsksBOncePerHand(a, b, pre);
      AsksOfBAppend(RunCalls(a, b, pre), Calls(ds[|ds| - 1], PlayHand(prev.a, prev.b, ds[|ds| - 1])));
    }
  }

  /** One more hand extends a run by exactly that hand. */
  lemma PlayHandsSnoc(a: PlayerA.AState, b: Bandit.BState, ds: seq<Draws>, d: Draws)
    ensures var prev := PlayHands(a, b, ds);
      var h := PlayHand(prev.a, prev.b, d);
      PlayHands(a, b, ds + [d])
        == Run(h.a, h.b, prev.rewards + [h.reward], prev.actionsA + [h.actionA], prev.actionsB + [h.actionB])
  {
    assert (ds + [d])[..|ds|] == ds;
  }

  /** The repeated-play loop: plays the hands one by one and collects A's
      rewards, ending in the same states as `PlayHands`. */
  method RunHands(a0: PlayerA.AState, b0: Bandit.BState, ds: seq<Draws>)
    returns (rewards: seq<int>, a: PlayerA.AState, b: Bandit.BState)
    ensures rewards == PlayHands(a0, b0, ds).rewards
    ensures a == PlayHands(a0, b0, ds).a && b == PlayHands(a0, b0, ds).b
    ensures |rewards| == |ds|
  {
    rewards, a, b := [], a0, b0;
    var i := 0;
    while i < |ds|
      invariant 0 <= i <= |ds|
      invariant rewards == PlayHands(a0, b0, ds[..i]).rewards
      invariant a == PlayHands(a0, b0, ds[..i]).a && b == PlayHands(a0, b0, ds[..i]).b
    {
      PlayHandsSnoc(a0, b0, ds[..i], ds[i]);
      assert ds[..i] + [ds[i]] == ds[..i + 1];
      var h := PlayHand(a, b, ds[i]);
      rewards := rewards + [h.reward];
      a, b := h.a, h.b;
      i := i + 1;
    }
    assert ds[..i] == ds;
  }

  /** Over a run B's decay factors never change. */
  lemma {:induction false} RunKeepsDecayFactors(a: PlayerA.AState, b: Bandit.BState, ds: seq<Draws>)
    ensures PlayHands(a, b, ds).b.epsilonDecay == b.epsilonDecay
    ensures PlayHands(a, b, ds).b.alphaDecay == b.alphaDecay
    decreases |ds|
  {
    if |ds| > 0 {
      var pre := ds[..|ds| - 1];
      RunKeepsDecayFactors(a, b, pre);
      var prev := PlayHands(a, b, pre);
      HandUpdatesStates(prev.a, prev.b, ds[|ds| - 1]);
    }
  }

  /** Every hand decays B's epsilon and alpha once and keeps their decay
      factors: `Round.HandUpdatesStates` for every run and every draws, in
      the quantified form `Rates.IterateDecays` takes as its premise. Proving
      it apart keeps the hand's arithmetic out of the two lemmas below. */
  lemma ExtendDecaysRates()
    ensures forall t: Run, d: Draws ::
      && Extend(t, d).b.epsilonDecay == t.b.epsilonDecay
      && Extend(t, d).b.epsilon == t.b.epsilon * t.b.epsilonDecay
      && Extend(t, d).b.alphaDecay == t.b.alphaDecay
      && Extend(t, d).b.alpha == t.b.alpha * t.b.alphaDecay
  {
    forall t: Run, d: Draws
      ensures Extend(t, d).b.epsilonDecay == t.b.epsilonDecay
      ensures Extend(t, d).b.epsilon == t.b.epsilon * t.b.epsilonDecay
      ensures Extend(t, d).b.alphaDecay == t.b.alphaDecay
      ensures Extend(t, d).b.alpha == t.b.alpha * t.b.alphaDecay
    {
      HandUpdatesStates(t.a, t.b, d);
    }
  }

  /** Over a run B's epsilon decays once per hand. */
  lemma RunDecaysEpsilon(a: PlayerA.AState, b: Bandit.BState, ds: seq<Draws>)
    ensures PlayHands(a, b, ds).b.epsilon == Decayed(b.epsilon, b.epsilonDecay, |ds|)
  {
    ExtendDecaysRates();
    PlayHandsIterates(a, b, ds);
    IterateDecays(Extend, (t: Run) => t.b.epsilon, (t: Run) => t.b.epsilonDecay, Run(a, b, [], [], []), ds);
  }

  /** Over a run B's alpha decays once per hand. */
  lemma RunDecaysAlpha(a: PlayerA.AState, b: Bandit.BState, ds: seq<Draws>)
    ensures PlayHands(a, b, ds).b.alpha == Decayed(b.alpha, b.alphaDecay, |ds|)
  {
    ExtendDecaysRates();
    PlayHandsIterates(a, b, ds);
    IterateDecays(Extend, (t: Run) => t.b.alpha, (t: Run) => t.b.alphaDecay, Run(a, b, [], [], []), ds);
  }

  /** After n hands B's history has grown by n snapshots, and A has counted
      n more hands and recorded exactly the rewards the run returned. */
  lemma {:induction false} RunBookkeeping(a: PlayerA.AState, b: Bandit.BState, ds: seq<Draws>)
    ensures var r := PlayHands(a, b, ds);
      && |r.b.history| == |b.history| + |ds|
      && r.a.counter == a.counter + |ds|
      && r.a.rewards == a.rewards + r.rewards
    decreases |ds|
  {
    if |ds| > 0 {
      var pre := ds[..|ds| - 1];
      RunBookkeeping(a, b, pre);
      var prev := PlayHands(a, b, pre);
      var h := PlayHand(prev.a, prev.b, ds[|ds| - 1]);
      HandUpdatesStates(prev.a, prev.b, ds[|ds| - 1]);
      assert a.rewards + prev.rewards + [h.reward] == a.rewards + (prev.rewards + [h.reward]);
    }
  }

  /** A's bookkeeping invariant holds after any number of hands. */
  lemma RunKeepsAConsistent(a: PlayerA.AState, b: Bandit.BState, ds: seq<Draws>)
    requires PlayerA.Consistent(a)
    ensures PlayerA.Consistent(PlayHands(a, b, ds).a)
  {
    RunBookkeeping(a, b, ds);
  }

  /** Lowest and highest reward B can be told: the negations of A's payoffs. */
  const BLow: real := -30.0
  const BHigh: real := 40.0

  /** Every reward B is told lies in [BLow, BHigh]. */
  lemma BRewardInRange(reward: int)
    requires reward in Payoffs
    ensures BLow <= (-reward) as real <= BHigh
  {
  }

  /** Rates in [0, 1] and both estimates within the range of B's rewards. */
  predicate Bounded(b: Bandit.BState)
  {
    && 0.0 <= b.alpha <= 1.0
    && 0.0 <= b.alphaDecay <= 1.0
    && BLow <= b.q.resign <= BHigh
    && BLow <= b.q.play <= BHigh
  }

  /** Scaling a rate in [0, 1] by a factor in [0, 1] keeps it in [0, 1]. */
  lemma ShrinkStaysInUnit(x: real, k: real)
    requires 0.0 <= x <= 1.0 && 0.0 <= k <= 1.0
    ensures 0.0 <= x * k <= x
  {
    assert x - x * k == x * (1.0 - k);
    assert 0.0 <= x * (1.0 - k);
  }

  /** A hand keeps a bounded learner bounded: each update is a convex
      combination of an estimate in range and a reward in range. */
  lemma HandKeepsBounded(a: PlayerA.AState, b: Bandit.BState, d: Draws)
    requires Bounded(b)
    ensures Bounded(PlayHand(a, b, d).b)
  {
    var h := PlayHand(a, b, d);
    var b1 := Bandit.Strategy(b, h.actionA, d.u, d.coin).next;
    assert h.b == Bandit.Observe(b1, -h.reward).value;
    BRewardInRange(h.reward);
    Bandit.ObserveKeepsRange(b1, -h.reward, BLow, BHigh);
    HandUpdatesStates(a, b, d);
    ShrinkStaysInUnit(b.alpha, b.alphaDecay);
  }

  /** A fresh learner with alpha and its decay in [0, 1] is bounded: its
      estimates start at zero, inside the range of B's rewards. */
  lemma InitBounded(alpha: real, epsilon: real, epsilonDecay: real, alphaDecay: real)
    requires 0.0 <= alpha <= 1.0 && 0.0 <= alphaDecay <= 1.0
    ensures Bounded(Bandit.Init(alpha, epsilon, epsilonDecay, alphaDecay))
  {
  }

  /** B's estimates stay within the range of its rewards over any run that
      starts bounded, such as a fresh learner with rates in [0, 1]. */
  lemma {:induction false} RunKeepsBounded(a: PlayerA.AState, b: Bandit.BState, ds: seq<Draws>)
    requires Bounded(b)
    ensures Bounded(PlayHands(a, b, ds).b)
    decreases |ds|
  {
    if |ds| > 0 {
      var pre := ds[..|ds| - 1];
      RunKeepsBounded(a, b, pre);
      var prev := PlayHands(a, b, pre);
      HandKeepsBounded(prev.a, prev.b, ds[|ds| - 1]);
    }
  }

  /** A learner that neither explores nor learns (epsilon and alpha zero)
      keeps its estimates for ever and always takes the greedy action, as
      long as the uniform draws are non-negative. */
  lemma {:induction false} FrozenLearner(a: PlayerA.AState, b: Bandit.BState, ds: seq<Draws>)
    requires b.alpha == 0.0 && b.epsilon == 0.0
    requires forall i :: 0 <= i < |ds| ==> 0.0 <= ds[i].u
    ensures var r := PlayHands(a, b, ds);
      && r.b.q == b.q
      && r.b.alpha == 0.0 && r.b.epsilon == 0.0
      && forall i :: 0 <= i < |ds| ==> r.actionsB[i] == Bandit.Greedy(b.q)
    decreases |ds|
  {
    if |ds| > 0 {
      var pre := ds[..|ds| - 1];
      FrozenLearner(a, b, pre);
      var prev := PlayHands(a, b, pre);
      var d := ds[|ds| - 1];
      var h := PlayHand(prev.a, prev.b, d);
      var dec := Bandit.Strategy(prev.b, h.actionA, d.u, d.coin);
      assert dec.action == Bandit.Greedy(b.q) by {
        Bandit.GreedyIsTheFirstMax(prev.b.q, dec.action);
      }
      Bandit.ObserveWithZeroAlpha(dec.next, -h.reward);
    }
  }

  /** A fresh learner with epsilon and alpha zero stays at its initial
      estimates of zero for any number of hands, always resigns (the tie
      between two equal estimates goes to index 0), and so A wins 10 on
      every hand it holds and loses 20 on every hand it resigns. */
  lemma FrozenFreshLearnerAlwaysResigns(
    a: PlayerA.AState, epsilonDecay: real, alphaDecay: real, ds: seq<Draws>)
    requires forall i :: 0 <= i < |ds| ==> 0.0 <= ds[i].u
    ensures var r := PlayHands(a, Bandit.Init(0.0, 0.0, epsilonDecay, alphaDecay), ds);
      && r.b.q == Bandit.QValues(0.0, 0.0)
      && (forall i :: 0 <= i < |ds| ==> r.actionsB[i] == Resign)
      && (forall i :: 0 <= i < |ds| ==> r.rewards[i] == (if r.actionsA[i] == Play then 10 else -20))
  {
    var b := Bandit.Init(0.0, 0.0, epsilonDecay, alphaDecay);
    FrozenLearner(a, b, ds);
    RunFollowsTheRules(a, b, ds);
  }

  /** The two learners the simulation plays against, one with decaying alpha
      and one with a fixed alpha and no exploration, keep their estimates in
      [-30, 40] over any run. */
  lemma DriverLearnersStayBounded(a: PlayerA.AState, ds: seq<Draws>)
    ensures Bounded(PlayHands(a, Bandit.Init(0.1, 0.999, 0.99, 0.99), ds).b)
    ensures Bounded(PlayHands(a, Bandit.Init(0.001, 0.0, 0.9999, 1.0), ds).b)
  {
    InitBounded(0.1, 0.999, 0.99, 0.99);
    RunKeepsBounded(a, Bandit.Init(0.1, 0.999, 0.99, 0.99), ds);
    InitBounded(0.001, 0.0, 0.9999, 1.0);
    RunKeepsBounded(a, Bandit.Init(0.001, 0.0, 0.9999, 1.0), ds);
  }
}
