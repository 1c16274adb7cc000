# QLearning bookkeeping in Dafny

This project models the tabular Q-learning agents of the QLearning
repository. The repository trains agents for board games run by the Ludii
engine. The engine is not modelled; only the agents' own bookkeeping is.

- **QLearningAI** (`QLearning`). A table maps a board hash to one value per
  legal move. `selectAction` chooses epsilon-greedily and records every
  decision of an episode in a deque of (hash, choice, number of legal
  moves) triples. At the end of the episode `updateQBackwards` replays the
  deque and applies the update
  `(1 - alpha) * old + alpha * (reward + gamma * max)`.
- **LesserQLearningAI** (`LesserQLearning`). A one-step variant whose state
  is the list of legal moves itself. It remembers the moves and the index
  of its last turn. `updateQ` revises that one slot.
- **EpisodicGamePlayer** (`Learning`), integer bookkeeping only:
  - the rank-to-reward mapping of `rewardAIs`;
  - the win/loss/draw tallies, which are kept by seat;
  - the seat swap;
  - the report ticks of `performTrainingVSRandomAI` and the win-rate
    array they fill.
- **util/Utils** (`Utils`):
  - the occupancy hash of a board: replay the trial, salt the second
    half, apply `Arrays.deepHashCode`;
  - the digit counter `widthOfNumber`.
- **AI/Utils** (`LegacyUtils`): the legacy hash, a double-valued sum of
  `what * 10^to` narrowed back to an `int`.
- **Tuple** (`Tuples`): the immutable triple and its `toString`.
- Shared modules:
  - `JavaInt`: the 32-bit `int`, wrap-around, and Java's truncating `/`
    and `%`;
  - `JavaErrors`: the exceptions the code can throw, as `Result` and
    `Outcome` values;
  - `Trial`: the move record.

Each stateful Java class is a Dafny class whose methods change the fields
named in their `modifies` clauses. Each method is proved against a
reference function:
- `Backward` and `ReplayHistory` for the replay of `updateQBackwards`;
- `Select` for `selectAction`;
- `Decide` and `Learn` for the two methods of LesserQLearningAI;
- `Advance` and `Train` for the episode loop;
- `HashOf` and `LegacyHash` for the two hashes.

The lemmas beside each function state what those functions mean.

The code's behaviour differs from its own comments in one place, and the
model follows the code. The comments of `updateQBackwards` and
`selectAction` say the history is replayed newest first. However,
`ConcurrentLinkedDeque.add` appends at the tail and `pop` takes from the
head, so the OLDEST decision is popped first. Each later decision is
written using the max of the row of the decision before it. The terminal
reward is therefore credited to the second decision of the episode
(`FullRateStoresReward`), and the first decision's slot is never written
(`FirstDecisionUntouched`).

Modelling choices:
- **Values.** Q-values are `real`. The scan start value
  `-(Double.MAX_VALUE - 1)` is the exact real `-Double.MAX_VALUE`, because
  the subtraction rounds away in double arithmetic.
- **Integers.** Integer results the source computes in 32 bits are
  wrapped explicitly:
  - the salt product and the `deepHashCode` fold;
  - `numTimesReport + 1`;
  - the report divisor.
- **Randomness.** The `ThreadLocalRandom` draws are parameters: the random
  index, and the coin in [0, 1).
- **Engine inputs.** What the Ludii engine supplies is a parameter:
  - the legal moves;
  - the trial (its moves, oldest first);
  - the board size;
  - each episode's ranking;
  - each episode's `playerToAgent` map, read from the state that episode's
    play leaves behind, since the context restarts every episode.
- **Table keys.** LesserQLearningAI's keys are compared by value.
- **Exceptions.** A thrown exception ends the call with `Err`/`Fail`, and
  the state is left as the Java code leaves it at that point.

## Model

| member | source | states |
|---|---|---|
| JavaInt.Wrap | src/qlearning/util/Utils.java:44 | the 32-bit result agrees with the exact one modulo 2^32 and equals it whenever the exact one is in range |
| JavaInt.WrapMulAdd | src/qlearning/util/Utils.java:48 | wrapping the running hash before the next `31 * h + e` step gives the same `int` as wrapping only at the end |
| JavaInt.DivRemIdentity | src/qlearning/learning/EpisodicGamePlayer.java:123 | Java's `/` and `%` put the dividend back together; the remainder is below the divisor in magnitude and never of the opposite sign to the dividend |
| JavaInt.DivRemNatural | src/qlearning/util/Utils.java:97-99 | for a non-negative dividend and a positive divisor, Java's `/` and `%` are the Euclidean ones |
| Utils.BoardToHashcode | src/qlearning/util/Utils.java:21-49 | the method returns the `deepHashCode` of the occupancy vector and its salted copy, or an index exception when a move lands outside the 2 * numSites vector |
| Utils.Occupant | src/qlearning/util/Utils.java:31-39 | the site's value after the newest-first replay: the `what` of the first move in the trial going to it, or 0 |
| Utils.Board | src/qlearning/util/Utils.java:27-44 | the hashed vector: occupancy in the first numSites slots, the salted occupancy in the second numSites |
| Utils.DeepHashCode | src/qlearning/util/Utils.java:48 | `Arrays.deepHashCode` of the vector: start at 1, then 31 * h + e for each element in order, in 32-bit arithmetic |
| Utils.HashOf | src/qlearning/util/Utils.java:21-48 | the reference hash: an index exception when some non-pass move lands outside the vector, otherwise the `deepHashCode` of the hashed vector |
| Utils.Replay | src/qlearning/util/Utils.java:31-39 | the newest-to-oldest replay throws exactly when some non-pass move lands outside the vector; otherwise every slot holds the occupant of its site |
| Utils.SaltSecondHalf | src/qlearning/util/Utils.java:43-44 | afterwards the array is the hashed vector: occupancy in the first half, 331319 times it (wrapped) in the second |
| Utils.BoardSalted | src/qlearning/util/Utils.java:43-44 | slot s + numSites of the hashed vector is 331319 times slot s in 32-bit arithmetic |
| Utils.OccupantUntouched | src/qlearning/util/Utils.java:27-39 | a site no move goes to stays 0 |
| Utils.OccupantEarliest | src/qlearning/util/Utils.java:31-39 | a site holds the `what` of the earliest move to it, since the overwrites of the newest-first replay leave the oldest one last |
| Utils.OccupantSkipsPass | src/qlearning/util/Utils.java:36-38 | inserting a pass anywhere in the trial changes no site |
| Utils.PassIgnored | src/qlearning/util/Utils.java:36-38 | inserting a pass anywhere in the trial leaves the hash, and whether it throws, unchanged |
| Utils.OccupantUnique | src/qlearning/util/Utils.java:31-39 | when no first-half site is reached twice, each move's site holds that move's `what` |
| Utils.OccupantPermutation | src/qlearning/util/Utils.java:31-39 | two orderings of one multiset of moves, each reaching every site at most once, give every site the same occupant |
| Utils.HashPermutation | src/qlearning/util/Utils.java:17-48 | two orderings of one multiset of moves, each reaching every site at most once, hash alike |
| Utils.DeepHashCodeZeros | src/qlearning/util/Utils.java:48 | an all-zero vector of length k hashes to 31^k wrapped to 32 bits |
| Utils.EmptyTrialHash | src/qlearning/util/Utils.java:27-48 | an empty trial hashes to 31^(2 * numSites) wrapped, a value fixed by the board size alone |
| Utils.Width | src/qlearning/util/Utils.java:94-102 | the reference width: how many times num can be divided by 10 while the quotient stays positive |
| Utils.WidthBounds | src/qlearning/util/Utils.java:94-102 | for num >= 1 the width w satisfies 10^w <= num < 10^(w+1): it is the digit count minus one |
| Utils.DivTen | src/qlearning/util/Utils.java:97 | the loop test `num / 10 > 0` holds exactly for num >= 10, negatives included, and the Java quotient is then the true one |
| Utils.WidthOfNumber | src/qlearning/util/Utils.java:94-102 | the loop returns the recursive width; it is 0 for every num < 10, negatives included, and the digit count minus one for num >= 1 |
| LegacyUtils.Pow10 | src/qlearning/AI/Utils.java:19 | `Math.pow(10, to)` as an exact real, the reciprocal for a negative exponent |
| LegacyUtils.Accumulate | src/qlearning/AI/Utils.java:19 | one compound assignment: the hash plus what * 10^to, narrowed back to an `int` |
| LegacyUtils.LegacyHash | src/qlearning/AI/Utils.java:13-23 | the reference hash: 0 for an empty trial, otherwise the newest moves' hash with the oldest move added by one compound assignment |
| LegacyUtils.ToInt | src/qlearning/AI/Utils.java:19 | narrowing the compound assignment's double keeps an in-range integer value exactly |
| LegacyUtils.BoardToHashcode | src/qlearning/AI/Utils.java:13-23 | the loop over the reverse iterator computes the fold that adds the oldest move last; an empty trial gives 0 |
| LegacyUtils.AccumulateExact | src/qlearning/AI/Utils.java:19 | one `+=` with a non-negative exponent and an in-range sum adds exactly what * 10^to |
| LegacyUtils.LegacyHashExact | src/qlearning/AI/Utils.java:16-22 | when every destination is in 0..308, so that `Math.pow` stays finite, and every partial sum fits an `int`, the hash is the exact sum of what * 10^to |
| LegacyUtils.EmptyTrial | src/qlearning/AI/Utils.java:16-22 | an empty move history hashes to 0 |
| LegacyUtils.ZeroWhatIgnored | src/qlearning/AI/Utils.java:19 | with exact reals, a move placing id 0 contributes nothing wherever it is in the trial, even a pass |
| LegacyUtils.TermsPermutation | src/qlearning/AI/Utils.java:15-20 | the exact sum of the terms depends only on the multiset of moves |
| LegacyUtils.OrderIndependent | src/qlearning/AI/Utils.java:15-20 | under the exactness condition on both orders, the order in which the iterator visits the moves does not change the hash |
| LegacyUtils.TermsAreDigits | src/qlearning/AI/Utils.java:19 | on a trial placing ids 0..9 on sites 0..8 at most once each, the exact sum is the decimal number whose digit s is the id on site s |
| LegacyUtils.NineSiteTrialExact | src/qlearning/AI/Utils.java:17-20 | such a trial meets the exactness condition: every partial sum fits an `int` |
| LegacyUtils.DigitIsOccupant | src/qlearning/AI/Utils.java:19 | on such a trial, (hash / 10^s) % 10 is the id on site s |
| QLearning.Zeros | src/qlearning/AI/QLearningAI.java:255 | a new row of n doubles is n zeros |
| QLearning.GetOrCreate | src/qlearning/AI/QLearningAI.java:249-264 | a present key gives its stored row whatever length is asked; a missing key gets an all-zero row of the asked length, or throws on a negative one; the key set only gains that key and no other row changes |
| QLearning.RowMax | src/qlearning/AI/QLearningAI.java:272-282 | the max scan returns an upper bound of the row that is an entry of the row or the sentinel |
| QLearning.ArgMaxOf | src/qlearning/AI/QLearningAI.java:290-303 | the argmax scan returns -1 exactly when no entry is above the sentinel, and otherwise the lowest index holding the maximum |
| QLearning.MaxAtArgMax | src/qlearning/AI/QLearningAI.java:272-303 | for a row with an entry above the sentinel, max is the entry at argmax |
| QLearning.Updated | src/qlearning/AI/QLearningAI.java:219 | the Q-learning update (1 - alpha) * old + alpha * (reward + gamma * max of the current row) |
| QLearning.Backward | src/qlearning/AI/QLearningAI.java:200-235 | the reference replay: pop the oldest remaining entry as the previous decision, update its slot from the current decision's row, the reward on the first turn only and 0 after, and make it the current decision; a missing table or a failing turn stops with the popped entry gone and the rows already fetched or created kept |
| QLearning.ReplayHistory | src/qlearning/AI/QLearningAI.java:195-235 | the replay of a non-empty history: its head, the oldest decision, is popped first and is the first current decision |
| QLearning.UpdatedForms | src/qlearning/AI/QLearningAI.java:219 | the update is old + alpha * (target - old); alpha 0 keeps the old value, and alpha 1 with gamma 0 stores the reward |
| QLearning.StepUpdate | src/qlearning/AI/QLearningAI.java:208-227 | one turn of the replay loop adds at most the current and previous boards as keys and removes none |
| QLearning.StepUpdateFrame | src/qlearning/AI/QLearningAI.java:208-227 | one turn keeps every row's length, gives each new row its recorded length, and changes no slot but the previous decision's; new rows are zero elsewhere |
| QLearning.StepUpdateWrite | src/qlearning/AI/QLearningAI.java:208-227 | one turn succeeds exactly when both rows can be had and the previous choice indexes its row; it then stores the update of the old value, bootstrapped from the max of the current decision's row |
| QLearning.ReplayDrains | src/qlearning/AI/QLearningAI.java:195-238 | a replay that completes leaves the history empty; one that throws has popped at least one entry and leaves exactly the unpopped tail of the history, in order; the table stays null or non-null as it was |
| QLearning.BackwardFrame | src/qlearning/AI/QLearningAI.java:200-235 | the replay removes no key and changes no row's length; only slots named by decisions after the first can change |
| QLearning.FirstDecisionUntouched | src/qlearning/AI/QLearningAI.java:195-235 | the slot of the first recorded decision is never written unless a later decision names it |
| QLearning.BackwardNewRows | src/qlearning/AI/QLearningAI.java:208-217 | every row the replay adds belongs to a recorded board and has the length recorded at the first decision made there |
| QLearning.ZeroRateKeepsValues | src/qlearning/AI/QLearningAI.java:219-230 | with learning rate 0 the replay keeps every stored row and adds only all-zero rows |
| QLearning.FullRateStoresReward | src/qlearning/AI/QLearningAI.java:219-230 | with learning rate 1 and no discount, a completed replay stores the reward in the slot of the second decision and 0 in each other written slot (last write wins) |
| QLearning.Select | src/qlearning/AI/QLearningAI.java:109-139 | a chosen index is always a legal move index |
| QLearning.SelectExplores | src/qlearning/AI/QLearningAI.java:123-125 | a coin below epsilon plays the pre-drawn random index and leaves the table alone |
| QLearning.SelectExploits | src/qlearning/AI/QLearningAI.java:126-139 | otherwise the row is fetched or created and the lowest index of its maximum is played |
| QLearning.SelectFreshBoard | src/qlearning/AI/QLearningAI.java:127-138 | on a never-seen board the greedy branch inserts a zero row and plays index 0 |
| QLearning.QLearningAI.constructor | src/qlearning/AI/QLearningAI.java:51-57 | the rates and the learn flag are the arguments; no table and no history yet |
| QLearning.QLearningAI.Learning | src/qlearning/AI/QLearningAI.java:65-67 | the three-argument constructor makes an agent that learns |
| QLearning.QLearningAI.FromModel | src/qlearning/AI/QLearningAI.java:77-82 | the table is the one loaded from the model file |
| QLearning.QLearningAI.Default | src/qlearning/AI/QLearningAI.java:40-42 | rates 0.01 and 0.80, no exploration, not learning, table loaded |
| QLearning.QLearningAI.InitAI | src/qlearning/AI/QLearningAI.java:90-96 | the table is empty after every call; a history is created only when there is none |
| QLearning.QLearningAI.SetEpsilon | src/qlearning/AI/QLearningAI.java:322-324 | epsilon becomes the argument |
| QLearning.QLearningAI.CloseAI | src/qlearning/AI/QLearningAI.java:316-320 | the table and the history are dropped |
| QLearning.QLearningAI.GetQ | src/qlearning/AI/QLearningAI.java:305-308 | the table when it exists, an assertion error otherwise |
| QLearning.QLearningAI.GetQValues | src/qlearning/AI/QLearningAI.java:249-264 | the table and the returned row follow GetOrCreate; a missing table throws |
| QLearning.QLearningAI.Max | src/qlearning/AI/QLearningAI.java:272-282 | the loop computes RowMax |
| QLearning.QLearningAI.ArgMax | src/qlearning/AI/QLearningAI.java:290-303 | the loop computes ArgMaxOf |
| QLearning.QLearningAI.SelectAction | src/qlearning/AI/QLearningAI.java:99-158 | no legal moves throws; an out-of-vector move in the trial throws; otherwise the table and the move follow Select, and when learning exactly one (hash, choice, n) triple is appended at the tail of the history |
| QLearning.QLearningAI.UpdateQBackwards | src/qlearning/AI/QLearningAI.java:168-239 | nothing changes when not learning; a missing or empty history throws; otherwise the table, the outcome and the remaining history are those of the oldest-first replay, an empty history on completion |
| LesserQLearning.Fetch | src/qlearning/AI/LesserQLearningAI.java:141-148 | a present move list gives its stored row; a missing one gets a zero row of one entry per move; no key is removed and no other row changes |
| LesserQLearning.ScanMax | src/qlearning/AI/LesserQLearningAI.java:71-78 | the greedy scan's value is at least 0, bounds every entry, and is an entry when positive |
| LesserQLearning.ScanIndex | src/qlearning/AI/LesserQLearningAI.java:71-82 | when the scan's value is positive, its index is the lowest index holding that maximum |
| LesserQLearning.Bootstrap | src/qlearning/AI/LesserQLearningAI.java:109-117 | the best value is min(0, min of the row): at most 0, at most every entry, and 0 or an entry |
| LesserQLearning.BestQValue | src/qlearning/AI/LesserQLearningAI.java:109-117 | the loop computes Bootstrap |
| LesserQLearning.Decide | src/qlearning/AI/LesserQLearningAI.java:61-86 | the reference choice: below 1 - epsilon the random index; otherwise a missing table throws, and the row is fetched or created and its positive maximum's lowest index replaces the random one |
| LesserQLearning.DecideExplores | src/qlearning/AI/LesserQLearningAI.java:61-65 | below 1 - epsilon the random index is kept and the table is untouched |
| LesserQLearning.DecideExploits | src/qlearning/AI/LesserQLearningAI.java:65-83 | in the greedy branch a strictly positive maximum is played at its lowest index, and a row without a positive entry keeps the random index |
| LesserQLearning.DecideFreshList | src/qlearning/AI/LesserQLearningAI.java:65-83 | a move list never seen before keeps the random index |
| LesserQLearning.DecideInRange | src/qlearning/AI/LesserQLearningAI.java:61-86 | when every row fits its key, the kept index is a legal index and the rows still fit |
| LesserQLearning.Observe | src/qlearning/AI/LesserQLearningAI.java:108-117 | no row is fetched when there are no current moves; otherwise the current row is fetched |
| LesserQLearning.ExtendsFetch | src/qlearning/AI/LesserQLearningAI.java:141-148 | getQValues only adds its key with a zero row |
| LesserQLearning.ExtendsObserve | src/qlearning/AI/LesserQLearningAI.java:112-117 | the bootstrap fetch only adds the current move list, and only when it is non-empty |
| LesserQLearning.Revised | src/qlearning/AI/LesserQLearningAI.java:125 | the update old + alpha * (reward + gamma * best - old) |
| LesserQLearning.Learn | src/qlearning/AI/LesserQLearningAI.java:108-131 | the reference update: a missing table throws; the current row is fetched when there are current moves and the last turn's row always; slot lastMoveMade is revised when it indexes that row, and left alone otherwise |
| LesserQLearning.LearnTable | src/qlearning/AI/LesserQLearningAI.java:108-131 | updateQ's table is the two fetches followed by at most one write to the last turn's row |
| LesserQLearning.LearnKeys | src/qlearning/AI/LesserQLearningAI.java:108-131 | updateQ adds exactly the last and (non-empty) current move lists as keys and keeps every row's fit to its key |
| LesserQLearning.LearnWritesOneSlot | src/qlearning/AI/LesserQLearningAI.java:120-131 | updateQ keeps every row's length and changes at most slot lastMoveMade of the last turn's row; rows it adds are zero elsewhere |
| LesserQLearning.LearnValue | src/qlearning/AI/LesserQLearningAI.java:120-131 | when lastMoveMade indexes the last turn's row, that slot gets old + alpha * (reward + gamma * best - old) |
| LesserQLearning.BootstrapNeverPositive | src/qlearning/AI/LesserQLearningAI.java:109-117 | the best value is at most 0, and 0 for a move list never seen before |
| LesserQLearning.LearnZeroRate | src/qlearning/AI/LesserQLearningAI.java:123-131 | with learning rate 0 updateQ changes no stored row |
| LesserQLearning.LesserQLearningAI.constructor | src/qlearning/AI/LesserQLearningAI.java:34-39 | the rates are the arguments; no table and no last turn |
| LesserQLearning.LesserQLearningAI.InitAI | src/qlearning/AI/LesserQLearningAI.java:42-46 | the table is empty after every call |
| LesserQLearning.LesserQLearningAI.GetQValues | src/qlearning/AI/LesserQLearningAI.java:141-148 | the table and the returned row follow Fetch; a missing table throws |
| LesserQLearning.LesserQLearningAI.SelectAction | src/qlearning/AI/LesserQLearningAI.java:49-87 | the last turn's moves become an element-wise copy of the allowed moves; no moves throws; otherwise the table and the kept index follow Decide, and the returned move is the one at the kept index, which is legal on a well-formed table |
| LesserQLearning.LesserQLearningAI.UpdateQ | src/qlearning/AI/LesserQLearningAI.java:89-134 | without a last turn or current moves nothing changes; otherwise the table and the outcome follow Learn; the rows keep fitting their keys |
| Learning.RewardFor | src/qlearning/learning/EpisodicGamePlayer.java:201-206 | rank 1 earns exactly +1, rank 2 exactly -1, any other rank 0 |
| Learning.Winner | src/qlearning/learning/EpisodicGamePlayer.java:193-198 | the winner is the last player 1..n ranked 1.0, or 0 exactly when nobody is |
| Learning.Initialises | src/qlearning/learning/EpisodicGamePlayer.java:166-167 | every seat 1..numPlayers that initAI is called on exists in the agent list |
| Learning.InBounds | src/qlearning/learning/EpisodicGamePlayer.java:196-198 | every ranking and agent read of rewardAIs is in bounds |
| Learning.Calls | src/qlearning/learning/EpisodicGamePlayer.java:196-208 | the log of rewardAIs: one (agent index, reward) call per player 1..n, in order, whose agent is a Q-learning one |
| Learning.CallsAreLearners | src/qlearning/learning/EpisodicGamePlayer.java:196-208 | every updateQBackwards call goes to some player's Q-learning agent with that player's reward, and every such player gets one |
| Learning.OneCallForTheLearner | src/qlearning/learning/EpisodicGamePlayer.java:196-208 | with one learning seat among two players, rewardAIs calls updateQBackwards exactly once, for that seat, with its rank's reward |
| Learning.Bump | src/qlearning/learning/EpisodicGamePlayer.java:211-216 | each game adds exactly one to the three tallies together |
| Learning.Tally | src/qlearning/learning/EpisodicGamePlayer.java:65-68 | after e episodes from the reset the tallies are non-negative and add up to e |
| Learning.TallyGrows | src/qlearning/learning/EpisodicGamePlayer.java:211-212 | seat-1 wins grow by at most one per episode and never shrink |
| Learning.Swapped | src/qlearning/learning/EpisodicGamePlayer.java:114-118 | the agent list with entries 1 and 2 exchanged |
| Learning.SwapProperties | src/qlearning/learning/EpisodicGamePlayer.java:114-118 | the swap exchanges entries 1 and 2, keeps entry 0, the length and later entries, and two swaps restore the list |
| Learning.SwapSeats | src/qlearning/learning/EpisodicGamePlayer.java:114-118 | the in-place swap leaves Swapped of the old list, or throws on a list shorter than 3 |
| Learning.LoadAIs | src/qlearning/learning/EpisodicGamePlayer.java:228-236 | a null placeholder, then a Q-learning agent exactly for each name "QLearningAI" |
| Learning.Seating | src/qlearning/learning/EpisodicGamePlayer.java:113-118 | the agent list keeps its three entries through the episodes |
| Learning.SeatingAlternates | src/qlearning/learning/EpisodicGamePlayer.java:114-118 | when switching sides the learner sits at seat 1 in even episodes and at seat 2 in odd ones; otherwise always at seat 1 |
| Learning.Tick | src/qlearning/learning/EpisodicGamePlayer.java:123 | the report test throws exactly when it divides by zero; episode 500 always ticks and episode 0 never does |
| Learning.TickAtMultiples | src/qlearning/learning/EpisodicGamePlayer.java:123 | with more episodes than reports, both positive, episode e ticks iff it is a positive multiple of numEpisodes / numTimesReport or is 500 |
| Learning.TickEpisodes | src/qlearning/learning/EpisodicGamePlayer.java:123 | the ticked episodes before e are at most e, each below e |
| Learning.TicksGrow | src/qlearning/learning/EpisodicGamePlayer.java:92-131 | the ticks so far are a prefix of the ticks of any longer run |
| Learning.DenseReports | src/qlearning/learning/EpisodicGamePlayer.java:123-129 | when numTimesReport < numEpisodes < 2 * numTimesReport every episode but the first ticks, so the unguarded store at line 128 overruns once numEpisodes > numTimesReport + 2 |
| Learning.ReportedStore | src/qlearning/learning/EpisodicGamePlayer.java:128-129 | storing the rate in the next free slot records one more tick |
| Learning.TicksStep | src/qlearning/learning/EpisodicGamePlayer.java:123-129 | each tick advances reportIndex by exactly one and stores the seat-1 rate after that episode |
| Learning.ReportedFinal | src/qlearning/learning/EpisodicGamePlayer.java:140-141 | the guarded trailing store puts the final rate in the first free slot, if one is left |
| Learning.Advance | src/qlearning/learning/EpisodicGamePlayer.java:92-131 | apart from the logged updateQBackwards calls, an episode throws only an index exception or an arithmetic one |
| Learning.Train | src/qlearning/learning/EpisodicGamePlayer.java:71-131 | apart from the logged updateQBackwards calls, the episode loop throws only on a negative array size, an index or a division by zero |
| Learning.AdvanceOk | src/qlearning/learning/EpisodicGamePlayer.java:107-130 | an episode that gets through found every player in initAI and rewardAIs, divided safely, found a slot on a tick, and adds its winner, its calls and on a tick its rate |
| Learning.AdvanceCalls | src/qlearning/learning/EpisodicGamePlayer.java:108-111 | an episode that gets through appends its rewardAIs calls |
| Learning.AdvanceTallies | src/qlearning/learning/EpisodicGamePlayer.java:111 | an episode that gets through adds its winner to the tallies |
| Learning.AdvanceReports | src/qlearning/learning/EpisodicGamePlayer.java:123-129 | on a tick the next slot exists and gets the new seat-1 wins over e + 1 games, and reportIndex advances by one; otherwise both stay |
| Learning.AdvanceErr | src/qlearning/learning/EpisodicGamePlayer.java:107-130 | apart from the logged updateQBackwards calls, an episode throws only when initAI misses a player, rewardAIs misses a player or agent, the report test divides by zero, or a tick finds no slot |
| Learning.TrainPrevious | src/qlearning/learning/EpisodicGamePlayer.java:92-131 | a run that gets through e episodes got through e - 1 and then through episode e - 1 |
| Learning.TrainOkBefore | src/qlearning/learning/EpisodicGamePlayer.java:92-131 | a run that gets through e' episodes got through every shorter prefix |
| Learning.TrainTallies | src/qlearning/learning/EpisodicGamePlayer.java:65-120 | after e episodes the counters are the closed-form tallies, by seat |
| Learning.TrainCalls | src/qlearning/learning/EpisodicGamePlayer.java:108-111 | after e episodes the calls are all episodes' rewardAIs calls in order, and each episode found every player |
| Learning.ReportsStep | src/qlearning/learning/EpisodicGamePlayer.java:123-129 | one episode keeps the array at numTimesReport + 1 slots with reportIndex counting the ticks and the tick rates stored |
| Learning.TrainReports | src/qlearning/learning/EpisodicGamePlayer.java:71-130 | after e episodes the array has numTimesReport + 1 slots, reportIndex is the number of ticks, and slot j holds the rate at the j-th tick |
| Learning.TrainStart | src/qlearning/learning/EpisodicGamePlayer.java:71-72 | before the first episode the array holds numTimesReport + 1 zero rates and reportIndex is 0 |
| Learning.StopsInInit | src/qlearning/learning/EpisodicGamePlayer.java:166-167 | with three or more players every episode throws an index exception in its initAI loop, so a run with episodes does not complete |
| Learning.StopsInRewards | src/qlearning/learning/EpisodicGamePlayer.java:196-198 | an episode whose rewardAIs reads out of bounds means the run does not complete |
| Learning.StopsInReport | src/qlearning/learning/EpisodicGamePlayer.java:128 | a tick after the array is full means the run does not complete |
| Learning.TrainStops | src/qlearning/learning/EpisodicGamePlayer.java:92-131 | a run that throws within its episodes does not complete |
| Learning.StopsInEpisode | src/qlearning/learning/EpisodicGamePlayer.java:92-131 | an episode that throws means the run does not complete |
| Learning.TrainCompletes | src/qlearning/learning/EpisodicGamePlayer.java:61-151 | a run that gets through completes, with the closed-form tallies, the calls of every episode, and the win rates of every tick plus the final rate |
| Learning.EpisodicGamePlayer.constructor | src/qlearning/learning/EpisodicGamePlayer.java:39-50 | the player count is the game's; the counters start at 0 |
| Learning.EpisodicGamePlayer.RewardAIs | src/qlearning/learning/EpisodicGamePlayer.java:185-217 | an out-of-bounds ranking or agent read throws with the tallies unchanged; otherwise the calls are those of Calls and exactly the winner's tally is bumped; size mismatches only print |
| Learning.EpisodicGamePlayer.PlayEpisode | src/qlearning/learning/EpisodicGamePlayer.java:108-120 | rewardAIs, then the seat swap when asked, then one more game counted |
| Learning.EpisodicGamePlayer.TrainEpisode | src/qlearning/learning/EpisodicGamePlayer.java:92-130 | one pass of the episode loop leaves the state Advance gives, or its exception, with the seats of the next episode; with three or more players it throws in the initAI loop before any bookkeeping |
| Learning.EpisodicGamePlayer.PlayEpisodes | src/qlearning/learning/EpisodicGamePlayer.java:92-131 | the loop leaves the state Train gives after every episode; when it throws, the run does not complete; with episodes and three or more players it throws an index exception with the counters at 0 |
| Learning.EpisodicGamePlayer.PerformTrainingVSRandomAI | src/qlearning/learning/EpisodicGamePlayer.java:61-151 | a negative array size throws after the reset; with three or more players the first episode's initAI loop throws an index exception with the counters still reset; a run of no episodes, or of a game without players, throws an assertion error at getQ, because no initAI created the learner's table; the run returns an array exactly when there are episodes, there are players and the loop completes, with numTimesReport + 1 slots, the counters reset and then the tallies of every episode, every episode's calls, and the tick rates plus the guarded final rate |
| Tuples.ItemsOfConstruction | src/qlearning/util/Tuple.java:9-25 | the getters give back exactly the constructor's key, value and element |
| Tuples.ToString | src/qlearning/util/Tuple.java:27-29 | the string is 6 longer than the three shown components together, opens with "(" and closes with ")" |
| Tuples.Pieces | src/qlearning/util/Tuple.java:28 | a string read back as a shown triple has the given component lengths |
| Tuples.PiecesOfToString | src/qlearning/util/Tuple.java:27-29 | the three shown components can be read back from toString |
| Tuples.PiecesRebuild | src/qlearning/util/Tuple.java:28 | whatever is read back, put together again, is the string read |
| Tuples.CommasOfToString | src/qlearning/util/Tuple.java:28 | when key and value show without commas, the first comma ends the key and the next ends the value |
| Tuples.ToStringInjective | src/qlearning/util/Tuple.java:27-29 | when key and value show without commas, equal strings mean equal shown components |

## Left out

- The Ludii engine is not modelled:
  - `Game`, `Context`, `Model.startNewStep`, `game.moves`, `trial.ranking`,
    `playerToAgent`, `AIUtils.extractMovesForMover`, `RandomAI`,
    `GameLoader`;
  - what they return becomes a parameter (legal moves, trial, board size,
    each episode's ranking and `playerToAgent` map);
  - `performOneEpisode` is modelled only by its `initAI` loop (lines
    166-167), which reads the agent list at every seat 1..numPlayers; an
    agent's `initAI` effect on its own table is not part of the training
    run's state. The game start, the play loop and the ranking it returns
    are engine calls.
  - `QLearningAI.supportsGame` only asks the engine's `Game` whether it
    alternates moves, so it is left out.
- `ThreadLocalRandom`: the draws are parameters with range preconditions.
  The assertion at QLearningAI.java lines 112-114 cannot fire within those
  ranges.
- IEEE doubles: values are `real`. Rounding, NaN and Infinity are not
  modelled.
  - LegacyUtils: `Math.pow` and the double sum are exact reals, so the
    model does not capture the rounding of a double sum whose integer part
    needs more than 53 bits.
- LegacyUtils.LegacyHashExact: nothing is promised for a trial with a
  destination of 309 or more. There `Math.pow(10, to)` is Infinity, and a
  move placing id 0 resets the hash to 0 through NaN, so the exactness
  condition excludes such trials.
- LegacyUtils.OrderIndependent: for the same reason it says nothing about
  trials with a destination of 309 or more, where the iteration order can
  change the hash in the source.
- LegacyUtils.ZeroWhatIgnored: holds for exact reals only. In the source a
  destination of 309 or more makes `Math.pow(10, to)` overflow to Infinity.
  Then 0 * Infinity is NaN, and narrowing NaN gives 0, so such a move
  resets the hash to 0 instead of leaving it alone.
- The epsilon schedule of `performTrainingVSRandomAI` (lines 95-104) is
  left out, because it uses `Math.cos` on doubles.
- The win rates are stored as a numerator/denominator pair (`Ratio`)
  instead of the double division.
- Console output is left out (prints and the formatted width of the
  report line). The size-mismatch checks of `rewardAIs` only print, so
  they do not appear.
- `saveAI` and `loadAI` in both Utils files, the save of the table at the
  end of the training run, and the model-file constructors' loading are
  file I/O and Java serialization. The loaded table is a constructor
  parameter. The `getQ` call that fetches the table for the save is
  modelled.
- Concurrency is not modelled: `volatile` fields, `ConcurrentLinkedDeque`,
  Guava `HashBiMap`. They are a sequential sequence and map. BiMap's
  value-uniqueness check never fires, because every row is a distinct
  array object.
- Array aliasing: Java returns the stored row and mutates it in place. The
  model writes the changed row back into the map, which gives the same
  table.
- LesserQLearning: `FastArrayList` keys are compared by value, not by
  `equals` on engine moves.
- LesserQLearning.LesserQLearningAI.UpdateQ: the legacy hash computed at
  line 133 is discarded by the source, so it is not called.
- Learning.EpisodicGamePlayer.RewardAIs: returns the `updateQBackwards`
  calls it makes as a log (agent index, reward) instead of running them on
  the agents. The replay those calls start is
  `QLearning.QLearningAI.UpdateQBackwards`.
- Learning.Advance: the `updateQBackwards` calls of `rewardAIs`
  (EpisodicGamePlayer.java line 207) are logged, not run, so the exceptions
  they can throw are not in its error set. In the source they end the run:
  an assertion error when the learner has no history or an empty one
  (QLearningAI.java lines 180-182), and the replay's index and negative
  array size exceptions.
- Learning.Train: the same calls are left out of the run's error set.
- Learning.AdvanceErr: the same calls are left out of the causes it lists.
- Learning.EpisodicGamePlayer.PerformTrainingVSRandomAI: the same calls are
  left out of its error set. A training run whose replay throws returns
  `Ok` here.
- Learning: the training run's unused values are not modelled: the
  `alpha`, `gamma`, `epsilon` and `outputTrainingData` parameters, the
  width `maxWidth`, and the `game`, `gameLocation` and `AIName` fields.
- Tuples: null components, and the `NullPointerException` their
  `toString` throws, are not modelled. Each component's `toString` is a
  function parameter.
- `src/qlearning/Main.java`, `src/qlearning/TestGame.java` and
  `process_data.py` are drivers and plotting scripts; they are not part of
  this model.
