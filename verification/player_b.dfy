/** Player B: a single-state, two-armed epsilon-greedy bandit. It keeps one
    value estimate per action, explores with probability epsilon, otherwise
    takes the first maximum, and learns by an exponential moving average
    whose rate alpha decays after every observation. Values and rates are
    exact reals. */
module Bandit {
  import opened GameTypes

  /** The two value estimates, indexed by B's action. */
  datatype QValues = QValues(resign: real, play: real) {

    function Get(a: Action): real
    {
      match a
      case Resign => resign
      case Play => play
    }

    /** Replaces the estimate of one action, keeping the other. */
    function Set(a: Action, v: real): (q: QValues)
      ensures q.Get(a) == v
      ensures q.Get(Other(a)) == Get(Other(a))
    {
      match a
      case Resign => QValues(v, play)
      case Play => QValues(resign, v)
    }
  }

  /** B's learner state. `lastAction` is absent until the first decision;
      `history` holds a snapshot of the estimates after every observation. */
  datatype BState = BState(
    q: QValues,
    alpha: real,
    epsilon: real,
    epsilonDecay: real,
    alphaDecay: real,
    lastAction: Option<Action>,
    history: seq<QValues>)

  /** Observing before any decision fails: there is no last action to credit. */
  datatype BanditError = NoLastAction

  /** A fresh learner: both estimates zero, nothing decided or observed yet.
      The rates are taken as given; nothing checks that they lie in [0, 1]. */
  function Init(alpha: real, epsilon: real, epsilonDecay: real, alphaDecay: real): (b: BState)
    ensures b.q.Get(Resign) == 0.0 && b.q.Get(Play) == 0.0
    ensures b.alpha == alpha && b.epsilon == epsilon
    ensures b.epsilonDecay == epsilonDecay && b.alphaDecay == alphaDecay
    ensures b.lastAction == None && b.history == []
  {
    BState(QValues(0.0, 0.0), alpha, epsilon, epsilonDecay, alphaDecay, None, [])
  }

  /** The learner built with no arguments: alpha 0.02, epsilon 0.9,
      epsilon decay 0.9, alpha decay 0.99. */
  function Default(): (b: BState)
    ensures b.alpha == 0.02 && b.epsilon == 0.9 && b.epsilonDecay == 0.9 && b.alphaDecay == 0.99
    ensures b.q == QValues(0.0, 0.0) && b.lastAction == None && b.history == []
  {
    Init(0.02, 0.9, 0.9, 0.99)
  }

  /** `a` is the first index holding the largest estimate: neither estimate
      is larger, and if the estimate at index 0 (resign) is equal then `a`
      is that index. */
  predicate IsFirstMax(q: QValues, a: Action)
  {
    && q.Get(Resign) <= q.Get(a) && q.Get(Play) <= q.Get(a)
    && (q.Get(Resign) == q.Get(a) ==> a == Resign)
  }

  /** The greedy choice: the index of the first maximum, so a tie goes to 0. */
  function Greedy(q: QValues): (a: Action)
    ensures IsFirstMax(q, a)
    ensures q.Get(Resign) == q.Get(Play) ==> a == Resign
  {
    if q.play > q.resign then Play else Resign
  }

  /** The first maximum is unique, so `Greedy` is the only action meeting it. */
  lemma GreedyIsTheFirstMax(q: QValues, a: Action)
    ensures IsFirstMax(q, a) <==> a == Greedy(q)
  {
  }

  /** The action B takes and its state afterwards. */
  datatype Decision = Decision(action: Action, next: BState)

  /** B's decision. `u` is the uniform draw compared with epsilon and `coin`
      the uniformly drawn action used when exploring. A's action is accepted
      but plays no part. Epsilon decays and the action is remembered. */
  function Strategy(b: BState, actionA: Action, u: real, coin: Action): (d: Decision)
    ensures u < b.epsilon ==> d.action == coin
    ensures b.epsilon <= u ==> IsFirstMax(b.q, d.action)
    ensures d.next.epsilon == b.epsilon * b.epsilonDecay
    ensures d.next.lastAction == Some(d.action)
    ensures d.next.q == b.q && d.next.alpha == b.alpha && d.next.history == b.history
    ensures d.next.epsilonDecay == b.epsilonDecay && d.next.alphaDecay == b.alphaDecay
  {
    var action := if u < b.epsilon then coin else Greedy(b.q);
    Decision(action, b.(epsilon := b.epsilon * b.epsilonDecay, lastAction := Some(action)))
  }

  /** B's decision does not depend on A's action. */
  lemma StrategyIgnoresActionA(b: BState, a1: Action, a2: Action, u: real, coin: Action)
    ensures Strategy(b, a1, u, coin) == Strategy(b, a2, u, coin)
  {
  }

  /** The moving-average step: the old estimate weighted by 1 - alpha plus
      the reward weighted by alpha. */
  function Blend(prev: real, reward: real, alpha: real): real
  {
    prev * (1.0 - alpha) + reward * alpha
  }

  /** B observes its reward. The estimate of the last action moves towards
      the reward, the other estimate stays, a snapshot of the new estimates
      is appended to the history, and alpha decays. Without a previous
      decision there is no last action and the observation fails. */
  function Observe(b: BState, reward: int): (r: Result<BState, BanditError>)
    ensures r.Ok? <==> b.lastAction.Some?
    ensures r.Ok? ==>
      var a := b.lastAction.value;
      && r.value.q.Get(a) == b.q.Get(a) * (1.0 - b.alpha) + reward as real * b.alpha
      && r.value.q.Get(Other(a)) == b.q.Get(Other(a))
      && r.value.history == b.history + [r.value.q]
      && r.value.alpha == b.alpha * b.alphaDecay
      && r.value.epsilon == b.epsilon && r.value.lastAction == b.lastAction
      && r.value.epsilonDecay == b.epsilonDecay && r.value.alphaDecay == b.alphaDecay
  {
    match b.lastAction
    case None => Err(NoLastAction)
    case Some(a) => Ok(Learn(b, a, reward))
  }

  /** The update of `Observe`, crediting the reward to action `a`: that
      estimate moves towards the reward by the moving average, the other
      stays, a snapshot is appended and alpha decays; nothing else changes. */
  function Learn(b: BState, a: Action, reward: int): (b': BState)
    ensures b'.q.Get(a) == b.q.Get(a) * (1.0 - b.alpha) + reward as real * b.alpha
    ensures b'.q.Get(Other(a)) == b.q.Get(Other(a))
    ensures b'.history == b.history + [b'.q]
    ensures b'.alpha == b.alpha * b.alphaDecay
    ensures b'.epsilon == b.epsilon && b'.lastAction == b.lastAction
    ensures b'.epsilonDecay == b.epsilonDecay && b'.alphaDecay == b.alphaDecay
  {
    var q' := b.q.Set(a, Blend(b.q.Get(a), reward as real, b.alpha));
    b.(q := q', history := b.history + [q'], alpha := b.alpha * b.alphaDecay)
  }

  function Min(x: real, y: real): real { if x <= y then x else y }
  function Max(x: real, y: real): real { if x <= y then y else x }

  /** With a weight in [0, 1], the blend is a convex combination and lies
      between the old value and the reward. */
  lemma BlendBetween(prev: real, reward: real, alpha: real)
    requires 0.0 <= alpha <= 1.0
    ensures Min(prev, reward) <= Blend(prev, reward, alpha) <= Max(prev, reward)
  {
    var d := reward - prev;
    assert Blend(prev, reward, alpha) == prev + alpha * d;
    if d >= 0.0 {
      assert 0.0 <= alpha * d;
      assert (1.0 - alpha) * d >= 0.0;
    } else {
      assert alpha * d <= 0.0;
      assert (1.0 - alpha) * d <= 0.0;
    }
  }

  /** An observation with alpha in [0, 1] leaves the updated estimate
      between its old value and the reward. */
  lemma ObserveIsConvex(b: BState, reward: int)
    requires b.lastAction.Some?
    requires 0.0 <= b.alpha <= 1.0
    ensures var a := b.lastAction.value;
      && Min(b.q.Get(a), reward as real) <= Observe(b, reward).value.q.Get(a)
      && Observe(b, reward).value.q.Get(a) <= Max(b.q.Get(a), reward as real)
  {
    BlendBetween(b.q.Get(b.lastAction.value), reward as real, b.alpha);
  }

  /** An observation with alpha in [0, 1] and a reward in [lo, hi] keeps
      both estimates in [lo, hi] if they started there. */
  lemma ObserveKeepsRange(b: BState, reward: int, lo: real, hi: real)
    requires b.lastAction.Some?
    requires 0.0 <= b.alpha <= 1.0
    requires lo <= reward as real <= hi
    requires lo <= b.q.resign <= hi && lo <= b.q.play <= hi
    ensures var q' := Observe(b, reward).value.q;
      lo <= q'.resign <= hi && lo <= q'.play <= hi
  {
    BlendBetween(b.q.Get(b.lastAction.value), reward as real, b.alpha);
    match b.lastAction.value
    case Resign =>
    case Play =>
  }

  /** With alpha zero an observation leaves both estimates unchanged, and
      alpha stays zero. */
  lemma ObserveWithZeroAlpha(b: BState, reward: int)
    requires b.lastAction.Some?
    requires b.alpha == 0.0
    ensures Observe(b, reward).value.q == b.q
    ensures Observe(b, reward).value.alpha == 0.0
  {
    var a := b.lastAction.value;
    var q' := Observe(b, reward).value.q;
    assert q'.Get(a) == b.q.Get(a);
    assert q'.Get(Other(a)) == b.q.Get(Other(a));
    assert q'.resign == b.q.resign && q'.play == b.q.play by {
      match a
      case Resign =>
      case Play =>
    }
  }
}
