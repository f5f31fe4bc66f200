# Mini-poker: hand resolution and an epsilon-greedy bandit, in Dafny

This project models the core of a small mini-poker simulator. The game is dealt as follows:

- A gets a black (0) or red (1) card.
- A resigns (0) or holds (1).
- B resigns (0) or sees (1).
- A's reward then comes from a fixed payoff table: +30, -40, +10 or -20.

Player B learns from these rewards as a single-state, two-armed bandit:

- **Deciding.** B explores with probability epsilon. Otherwise it takes the first maximum of its two value estimates, so a tie goes to index 0. Epsilon then decays.
- **Learning.** B moves the estimate of its last action towards the observed reward by an exponential moving average. It records a snapshot of both estimates, and alpha then decays.

Player A holds on black. On red, A's action is a random draw.

Every random draw is a parameter of the model. A `Draws` record carries, for one hand:

- the card;
- A's action if the card is red;
- B's uniform number, which is compared with epsilon;
- B's action if it explores.

With the draws given, everything is deterministic and pure. Values and rates are exact `real`s.

Modules:

- `GameTypes` (`game_types.dfy`): cards and actions and their 0/1 encodings. An integer is read the way the game tests it: 0 is false, and any other value is true.
- `PlayerA` (`player_a.dfy`): A's strategy and its bookkeeping, a hand counter plus a reward list.
- `Bandit` (`player_b.dfy`): B's state, its greedy choice, its decision and its update.
- `Round` (`hand.dfy`): the payoff constants, the decision tree, one hand, and the calls that hand makes in order (`Calls`). `Replay` re-applies such a call sequence to the two states.
- `Rates` (`rates.dfy`): a rate decayed n times by the same factor, its closed form as a power, and a generic step-by-step iteration used to reason about whole runs.
- `Session` (`session.dfy`): many hands in a row (`PlayHands`) and the loop that plays them (`RunHands`), with properties that hold over whole runs.

Behaviour kept from the code:

- B's strategy is called even when A has resigned. B then also observes the hand, with reward +20.
- B observes before A.
- Observing before B has ever decided has no last action to credit. The code would fail there with a missing attribute; the model returns `Err(NoLastAction)`.
- Nothing checks that the rates lie in [0, 1]. Properties that need this take it as a precondition.

## Model

| member | source | states |
|---|---|---|
| GameTypes.CardCode | minipoker.py:120 | a card is encoded 0 exactly when it is black, and the code is 0 or 1 |
| GameTypes.ActionCode | minipoker.py:118-119 | an action is encoded 0 exactly when it is a resignation, and the code is 0 or 1 |
| GameTypes.ActionOfInt | minipoker.py:156-159 | an integer action is read by truthiness: it means resign exactly when it is 0 |
| GameTypes.CardOfInt | minipoker.py:162-165 | an integer card is read by truthiness: it means black exactly when it is 0 |
| GameTypes.ActionCodeRoundTrip | minipoker.py:118-119 | encoding an action and reading it back gives the same action; a code 0 or 1 survives the reverse trip |
| GameTypes.CardCodeRoundTrip | minipoker.py:120 | encoding a card and reading it back gives the same card; a code 0 or 1 survives the reverse trip |
| PlayerA.Init | minipoker.py:40-42 | a new A has counted no hands and recorded no rewards, so its bookkeeping is consistent |
| PlayerA.Strategy | minipoker.py:66-69 | A always holds on black; on red, A's action is the drawn one |
| PlayerA.ResignsOnlyOnRed | minipoker.py:66-69 | A resigns exactly when the card is red and the draw is to resign |
| PlayerA.Observe | minipoker.py:71-73 | the counter goes up by one and the reward is appended, so counter equal to the number of rewards is preserved |
| PlayerA.ObserveIgnoresActionB | minipoker.py:71-73 | what A records does not depend on B's action |
| Bandit.Init | minipoker.py:78-84 | a new learner has both estimates zero, the rates as given, an empty history and no last action |
| Bandit.Default | minipoker.py:78 | the learner built without arguments has alpha 0.02, epsilon 0.9, epsilon decay 0.9 and alpha decay 0.99, estimates of zero, no last action and no history |
| Bandit.Greedy | minipoker.py:103 | the greedy action is a first maximum of the estimates; on a tie it is resign (index 0) |
| Bandit.GreedyIsTheFirstMax | minipoker.py:103 | an action is a first maximum exactly when it is the greedy action, so the argmax is unique |
| Bandit.Strategy | minipoker.py:100-106 | a draw below epsilon picks the explored action, otherwise a first maximum; epsilon is multiplied by its decay; the action is remembered as the last action; nothing else changes |
| Bandit.StrategyIgnoresActionA | minipoker.py:86-93 | B's decision does not depend on A's action |
| Bandit.Observe | minipoker.py:108-112 | the update succeeds exactly when there is a last action; that estimate becomes the old one times 1 - alpha plus the reward times alpha; the other estimate is unchanged; the history gains a snapshot of the new estimates; alpha is multiplied by its decay |
| Bandit.Learn | minipoker.py:110-112 | crediting a reward to an action moves that estimate to the old one times 1 - alpha plus the reward times alpha, keeps the other estimate, appends a snapshot of the new estimates, decays alpha once and changes nothing else |
| Bandit.BlendBetween | minipoker.py:110 | with alpha in [0, 1], the moving-average step lies between the old value and the reward |
| Bandit.ObserveIsConvex | minipoker.py:110 | with alpha in [0, 1], the updated estimate lies between its old value and the reward |
| Bandit.ObserveKeepsRange | minipoker.py:110 | with alpha in [0, 1], an observation whose reward and starting estimates lie in one interval leaves both estimates in that interval |
| Bandit.ObserveWithZeroAlpha | minipoker.py:110-112 | with alpha zero, an observation changes neither estimate and alpha stays zero |
| Round.Resolve | minipoker.py:148-165 | A's reward is one of 30, -40, 10, -20 and is the one the game's rules assign to the card and the two actions |
| Round.ResolveCodes | minipoker.py:148-165 | the decision tree on integer codes read by truthiness always gives one of the four payoffs |
| Round.ResolveCodesIsResolve | minipoker.py:156-165 | for all integers, the integer tree gives the reward of the card and actions those integers are read as |
| Round.ResolveIsTheRule | minipoker.py:139-145 | the decision tree gives a reward exactly when the game's rules allow that reward, in both directions |
| Round.ResignationIgnoresCardAndB | minipoker.py:156-157 | when A resigns the reward is -20, whatever the card and B's action |
| Round.PlayHand | minipoker.py:153-169 | a hand's reward is one of the four payoffs; A's action comes from its strategy, B's action is the one B's strategy returns, the reward is the rules' reward for the dealt card and those two actions, and B's last action afterwards is the action that decided the reward |
| Round.AsksOfBAppend | minipoker.py:155 | the number of times B is asked in two call sequences put together is the sum of the two counts |
| Round.Calls | minipoker.py:154-168 | a hand makes four calls: A is asked, then B exactly once whatever A did, then B is told the negated reward, then A is told its reward and B's action |
| Round.HandUpdatesStates | minipoker.py:167-168 | one hand decays B's epsilon and alpha once and adds one snapshot equal to the new estimates; A's counter goes up by one and its reward is appended |
| Round.HandTraceReplays | minipoker.py:153-168 | replaying the hand's calls in order from the starting states gives exactly the hand's final states |
| Round.ObservationOrderCommutes | minipoker.py:167-168 | telling A before B would leave both states the same; the order B then A is visible only in the call sequence |
| Round.ResignedHandStillTrainsB | minipoker.py:155-157 | when A resigns, B is still asked and still learns: the reward is -20, B is told +20, and B's estimate for its action moves towards +20 |
| Round.ZeroSumAndBFirst | minipoker.py:167-168 | in every hand, B's reward is the negation of A's, and B hears its reward before A does |
| Session.PlayHands | minipoker.py:176-178 | a run of hands yields one reward and one action per player for each set of draws |
| Session.RunHand | minipoker.py:153-178 | hand i of a run takes A's action from its own card and draw, B's action from B's decision in the state the first i hands left, and the reward from the rules |
| Session.RunFollowsTheRules | minipoker.py:176-178 | every hand of a run follows those rules, so every reward is one of the four payoffs |
| Session.RunCalls | minipoker.py:176-178 | a run of n hands makes 4n calls to the players: those of the first n - 1 hands, then the four calls of the last hand played from the states they left |
| Session.RunAsksBOncePerHand | minipoker.py:155 | over a run B is asked for a decision exactly once per hand, whatever A did |
| Session.RunHands | minipoker.py:175-178 | the loop that plays the hands one by one collects the same rewards and ends in the same states as the run |
| Session.RunKeepsDecayFactors | minipoker.py:104-112 | over any run B's two decay factors never change |
| Session.RunDecaysEpsilon | minipoker.py:104 | after n hands, B's epsilon has been multiplied by its decay exactly n times |
| Session.RunDecaysAlpha | minipoker.py:112 | after n hands, B's alpha has been multiplied by its decay exactly n times |
| Rates.DecayedIsPower | minipoker.py:104 | n decays by k multiply the starting rate by k to the n-th power |
| Session.RunBookkeeping | minipoker.py:167-168 | after n hands, B's history has n more snapshots, A has counted n more hands, and A's rewards are the old ones followed by the run's rewards |
| Session.RunKeepsAConsistent | minipoker.py:71-73 | A's counter equals the number of its recorded rewards after any run that starts that way |
| Session.InitBounded | minipoker.py:78-84 | a fresh learner with alpha and its decay in [0, 1] starts with its estimates in [-30, 40] |
| Session.HandKeepsBounded | minipoker.py:110-112 | with alpha and its decay in [0, 1], one hand keeps both estimates in [-30, 40], the range of B's rewards, and keeps alpha in [0, 1] |
| Session.RunKeepsBounded | minipoker.py:110-112 | that bound holds after any run that starts within it |
| Session.DriverLearnersStayBounded | minipoker.py:173-177 | the decaying learner the simulation builds keeps its estimates in [-30, 40] over any run; so does the second one, built at line 188 with a fixed alpha and no exploration |
| Session.FrozenLearner | minipoker.py:100-112 | with epsilon and alpha zero and uniform draws at least 0, B's estimates never change and every decision is the greedy one |
| Session.FrozenFreshLearnerAlwaysResigns | minipoker.py:79 | a fresh learner with epsilon and alpha zero keeps estimates of zero and always resigns by the tie-break; A then gets +10 when it holds and -20 when it resigns |

## Left out

- Randomness: the random card, A's red-card choice and B's uniform number and exploration choice are parameters. Their distributions are not modelled: 50/50 for the card and for exploring, 0.4/0.6 for A on red. A verifier cannot check probabilistic claims.
- A's red-card draw produces a one-element array in the code. It is modelled as a single action, which is how the game reads it.
- Floating point: estimates and rates are exact reals, so there is no IEEE rounding.
- The argmax with NaN estimates: reals have no NaN.
- The simulation driver: the mean over 200,000 hands and the win/loss messages are I/O and statistics. The loop that plays hands and collects rewards is modelled by `Session.PlayHands` and `Session.RunHands`. The two learner configurations of lines 173 and 188 appear only in `Session.DriverLearnersStayBounded`.
- The numeric, plotting and machine-learning imports: nothing in the core uses them.
- The empty `Player` base class and its call-through dispatch are replaced by direct calls to each player's functions.
- Validation of the rates: the code accepts any values, so the model does too. No configuration error is raised.
- An option to skip B's turn when A resigns: the code has no such option and always asks B.
- Convergence or optimality of B's learned policy: the code promises neither.
- Bandit.Strategy: "returns 0 or 1" holds by the `Action` type, which has only two values with codes 0 and 1 (see `GameTypes.ActionCode`). It is not a separate clause.
