/** One hand of mini-poker: the payoff table, the decision tree that
    resolves A's reward, and the order in which the two players are asked
    to act and told the outcome. */
module Round {
  import opened GameTypes
  import PlayerA
  import Bandit

  /** A's reward when A holds and B sees a black card. */
  const BSeesBlack: int := 30
  /** A's reward when A holds and B sees a red card. */
  const BSeesRed: int := -40
  /** A's reward when A holds and B resigns. */
  const BResigns: int := 10
  /** A's reward when A resigns. */
  const AResigns: int := -20

  /** Every reward a hand can give A. */
  const Payoffs: set<int> := {BSeesBlack, BSeesRed, BResigns, AResigns}

  /** The game's rules, one row per outcome, as the game describes them. */
  predicate GameRule(card: Card, actionA: Action, actionB: Action, reward: int)
  {
    || (actionA == Resign && reward == -20)
    || (actionA == Play && actionB == Resign && reward == 10)
    || (actionA == Play && actionB == Play && card == Red && reward == -40)
    || (actionA == Play && actionB == Play && card == Black && reward == 30)
  }

  /** A's reward for a hand, by the game's decision tree: A's action first,
      then B's, then the card. */
  function Resolve(card: Card, actionA: Action, actionB: Action): (reward: int)
    ensures reward in Payoffs
    ensures GameRule(card, actionA, actionB, reward)
  {
    if actionA == Resign then AResigns
    else if actionB == Resign then BResigns
    else if card == Red then BSeesRed
    else BSeesBlack
  }

  /** The rules determine the reward: the decision tree gives exactly the
      reward the rules allow, and no other. */
  lemma ResolveIsTheRule(card: Card, actionA: Action, actionB: Action, reward: int)
    ensures Resolve(card, actionA, actionB) == reward <==> GameRule(card, actionA, actionB, reward)
  {
  }

  /** A resignation by A costs A 20 whatever the card and B's action. */
  lemma ResignationIgnoresCardAndB(card: Card, actionB: Action)
    ensures Resolve(card, Resign, actionB) == -20
  {
  }

  /** The decision tree as the game writes it, on integer codes that it
      tests by truthiness: 0 is false and any other value is true. */
  function ResolveCodes(card: int, actionA: int, actionB: int): (reward: int)
    ensures reward in Payoffs
  {
    if actionA == 0 then AResigns
    else if actionB == 0 then BResigns
    else if card != 0 then BSeesRed
    else BSeesBlack
  }

  /** The integer tree gives, for every integer input, the reward of the
      card and actions those integers are read as. */
  lemma ResolveCodesIsResolve(card: int, actionA: int, actionB: int)
    ensures ResolveCodes(card, actionA, actionB)
      == Resolve(CardOfInt(card), ActionOfInt(actionA), ActionOfInt(actionB))
  {
  }

  /** The random draws one hand consumes: the card dealt, A's choice if the
      card is red, B's uniform draw, and B's action if it explores. */
  datatype Draws = Draws(card: Card, redDraw: Action, u: real, coin: Action)

  /** The calls one hand makes to the players, in order. */
  datatype Event =
    | AskA(card: Card)
    | AskB(actionA: Action)
    | TellB(rewardB: int)
    | TellA(rewardA: int, actionB: Action)

  /** Everything a hand produces: A's reward, both players' new states and
      both actions. */
  datatype Hand = Hand(
    reward: int,
    a: PlayerA.AState,
    b: Bandit.BState,
    actionA: Action,
    actionB: Action)

  /** How many events of a trace ask B for a decision. */
  function AsksOfB(trace: seq<Event>): (n: nat)
    ensures n <= |trace|
  {
    if |trace| == 0 then 0
    else (if trace[0].AskB? then 1 else 0) + AsksOfB(trace[1..])
  }

  /** Counting B's decisions distributes over concatenation. */
  lemma {:induction false} AsksOfBAppend(s: seq<Event>, t: seq<Event>)
    ensures AsksOfB(s + t) == AsksOfB(s) + AsksOfB(t)
    decreases |s|
  {
    if |s| == 0 {
      assert s + t == t;
    } else {
      AsksOfBAppend(s[1..], t);
      assert (s + t)[0] == s[0] && (s + t)[1..] == s[1..] + t;
    }
  }

  /** Plays one hand. B is asked for a decision even when A has resigned;
      B then observes the negation of A's reward, and A observes its reward
      together with B's action. */
  function PlayHand(a: PlayerA.AState, b: Bandit.BState, d: Draws): (h: Hand)
    ensures h.reward in Payoffs
    ensures h.actionA == PlayerA.Strategy(d.card, d.redDraw)
    ensures h.actionB == Bandit.Strategy(b, h.actionA, d.u, d.coin).action
    ensures h.reward == Resolve(d.card, h.actionA, h.actionB)
    ensures h.b.lastAction == Some(h.actionB)
  {
    var actionA := PlayerA.Strategy(d.card, d.redDraw);
    var decision := Bandit.Strategy(b, actionA, d.u, d.coin);
    var actionB := decision.action;
    var reward := Resolve(d.card, actionA, actionB);
    // B has just decided, so its last action is `actionB` and its
    // observation is the update `Bandit.Learn` (see `HandTraceReplays`).
    var b' := Bandit.Learn(decision.next, actionB, -reward);
    var a' := PlayerA.Observe(a, reward, actionB);
    Hand(reward, a', b', actionA, actionB)
  }

  /** The calls a hand makes to the players, in the order it makes them:
      A is asked, then B (whatever A did), then B is told its reward, then A
      is told its own. */
  function Calls(d: Draws, h: Hand): (t: seq<Event>)
    ensures |t| == 4 && AsksOfB(t) == 1
    ensures t[0] == AskA(d.card) && t[1] == AskB(h.actionA)
    ensures t[2] == TellB(-h.reward) && t[3] == TellA(h.reward, h.actionB)
  {
    var t := [AskA(d.card), AskB(h.actionA), TellB(-h.reward), TellA(h.reward, h.actionB)];
    assert AsksOfB(t) == 1 by {
      assert t[1..][1..] == [TellB(-h.reward), TellA(h.reward, h.actionB)];
      assert AsksOfB(t[1..][1..]) == 0;
    }
    t
  }

  /** What a hand does to the players' states: B's epsilon and alpha each
      decay once and its history gains a snapshot of its new estimates; A
      counts the hand and records its reward. */
  lemma HandUpdatesStates(a: PlayerA.AState, b: Bandit.BState, d: Draws)
    ensures var h := PlayHand(a, b, d);
      && h.b.epsilon == b.epsilon * b.epsilonDecay && h.b.epsilonDecay == b.epsilonDecay
      && h.b.alpha == b.alpha * b.alphaDecay && h.b.alphaDecay == b.alphaDecay
      && |h.b.history| == |b.history| + 1 && h.b.history[|b.history|] == h.b.q
      && h.a.counter == a.counter + 1 && h.a.rewards == a.rewards + [h.reward]
  {
  }

  /** Applies a sequence of calls to the two players' states, drawing from
      `d` whenever B decides. Fails if B is told a reward before it has ever
      decided. */
  function Replay(a: PlayerA.AState, b: Bandit.BState, d: Draws, trace: seq<Event>)
    : (r: Result<(PlayerA.AState, Bandit.BState), Bandit.BanditError>)
    decreases |trace|
  {
    if |trace| == 0 then Ok((a, b))
    else
      match trace[0]
      case AskA(_) => Replay(a, b, d, trace[1..])
      case AskB(x) => Replay(a, Bandit.Strategy(b, x, d.u, d.coin).next, d, trace[1..])
      case TellB(r) =>
        (match Bandit.Observe(b, r)
         case Err(e) => Err(e)
         case Ok(b') => Replay(a, b', d, trace[1..]))
      case TellA(r, x) => Replay(PlayerA.Observe(a, r, x), b, d, trace[1..])
  }

  /** The trace of a hand is a faithful log: replaying its calls from the
      starting states gives exactly the hand's final states. */
  lemma {:induction false} HandTraceReplays(a: PlayerA.AState, b: Bandit.BState, d: Draws)
    ensures var h := PlayHand(a, b, d);
      Replay(a, b, d, Calls(d, h)) == Ok((h.a, h.b))
  {
    var h := PlayHand(a, b, d);
    var t := Calls(d, h);
    var b1 := Bandit.Strategy(b, h.actionA, d.u, d.coin).next;
    assert Replay(a, b, d, t) == Replay(a, b, d, t[1..]);
    assert Replay(a, b, d, t[1..]) == Replay(a, b1, d, t[2..]);
    assert Bandit.Observe(b1, -h.reward) == Ok(h.b);
    assert Replay(a, b1, d, t[2..]) == Replay(a, h.b, d, t[3..]);
    assert Replay(a, h.b, d, t[3..]) == Replay(h.a, h.b, d, t[4..]);
  }

  /** B's and A's observations touch disjoint states, so telling A first
      would leave both players in the same states; the order is visible
      only in the trace. */
  lemma {:induction false} ObservationOrderCommutes(a: PlayerA.AState, b: Bandit.BState, d: Draws)
    ensures var h := PlayHand(a, b, d);
      var t := Calls(d, h);
      var swapped := [t[0], t[1], t[3], t[2]];
      Replay(a, b, d, swapped) == Ok((h.a, h.b))
  {
    var h := PlayHand(a, b, d);
    var c := Calls(d, h);
    var t := [c[0], c[1], c[3], c[2]];
    var b1 := Bandit.Strategy(b, h.actionA, d.u, d.coin).next;
    assert Replay(a, b, d, t) == Replay(a, b, d, t[1..]);
    assert Replay(a, b, d, t[1..]) == Replay(a, b1, d, t[2..]);
    assert Replay(a, b1, d, t[2..]) == Replay(h.a, b1, d, t[3..]);
    assert Bandit.Observe(b1, -h.reward) == Ok(h.b);
    assert Replay(h.a, b1, d, t[3..]) == Replay(h.a, h.b, d, t[4..]);
  }

  /** Even when A resigns, B is asked for a decision and learns from the
      hand: its last action is what it decided, its estimate for that action
      moves towards +20, and its history grows. */
  lemma ResignedHandStillTrainsB(a: PlayerA.AState, b: Bandit.BState, d: Draws)
    requires PlayerA.Strategy(d.card, d.redDraw) == Resign
    ensures var h := PlayHand(a, b, d);
      && h.reward == -20
      && Calls(d, h)[1] == AskB(Resign)
      && Calls(d, h)[2] == TellB(20)
      && h.b.lastAction == Some(h.actionB)
      && h.b.q.Get(h.actionB) == b.q.Get(h.actionB) * (1.0 - b.alpha) + 20.0 * b.alpha
      && |h.b.history| == |b.history| + 1
  {
  }

  /** The hand is zero-sum and B hears first: whatever A is told, B is told
      its negation, at an earlier position in the trace. */
  lemma ZeroSumAndBFirst(a: PlayerA.AState, b: Bandit.BState, d: Draws)
    ensures var t := Calls(d, PlayHand(a, b, d));
      forall i, j :: 0 <= i < |t| && 0 <= j < |t| && t[i].TellB? && t[j].TellA? ==>
        t[i].rewardB + t[j].rewardA == 0 && i < j
  {
  }
}
