/** Player A: the reference strategy (always hold on black, a drawn choice
    on red) and its bookkeeping of hands played and rewards received. */
module PlayerA {
  import opened GameTypes

  /** A's state: the number of hands observed and the rewards seen, in order. */
  datatype AState = AState(counter: int, rewards: seq<int>)

  /** The bookkeeping invariant: one recorded reward per counted hand. */
  predicate Consistent(a: AState)
  {
    a.counter == |a.rewards|
  }

  /** A fresh player: nothing played, nothing recorded. */
  function Init(): (a: AState)
    ensures Consistent(a)
    ensures a.counter == 0 && a.rewards == []
  {
    AState(0, [])
  }

  /** A's decision for a card. On red, the game draws the action at random;
      that draw is the parameter `redDraw`. A's history plays no part. */
  function Strategy(card: Card, redDraw: Action): (act: Action)
    ensures card == Black ==> act == Play
    ensures card == Red ==> act == redDraw
  {
    match card
    case Black => Play
    case Red => redDraw
  }

  /** A resigns only when the card is red, and only if the draw says so. */
  lemma ResignsOnlyOnRed(card: Card, redDraw: Action)
    ensures Strategy(card, redDraw) == Resign <==> card == Red && redDraw == Resign
  {
  }

  /** A observes its own reward and B's action: the counter goes up by one,
      the reward is appended, and B's action is ignored. */
  function Observe(a: AState, reward: int, actionB: Action): (a': AState)
    ensures a'.counter == a.counter + 1
    ensures a'.rewards == a.rewards + [reward]
    ensures Consistent(a) ==> Consistent(a')
  {
    AState(a.counter + 1, a.rewards + [reward])
  }

  /** What A observes does not depend on B's action. */
  lemma ObserveIgnoresActionB(a: AState, reward: int, b1: Action, b2: Action)
    ensures Observe(a, reward, b1) == Observe(a, reward, b2)
  {
  }
}
