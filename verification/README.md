# Poker: hands, bets, pots and ledgers

A Dafny model of the parts of the poker server where money and cards are decided, with proofs that they are decided
right. Verify everything with `dafny verify dfyconfig.toml`.

## What is modelled

**Hands.** The server solves a hand greedily, one pass per category over five to seven cards; the table client tries
every five-card combination. `BestHand` and `ClientEvaluator` model the client, `HandSolver` the server with its Hand
objects, `Greedy` says what each pass looks for, and `Refinement`, `CategoryProofs` and `SolverTheorem` prove that the
server's answer is the client's, in category, in the first five ranks and in every comparison. Ranks are on the
server's scale (deuce 1, ace 13). The server's full house of two triples is six cards long; its comparison reads five,
and the theorems are about those.

**Betting.** `Tables` and `Betting` give the engine's operations as functions on a table value. `Players` and `Engine`
are the engine as it runs: player objects and a game record updated in place, in the loops and the mutual recursion of
the server, each method tied to its function. `BettingInvariants`, `HandProgress`, `HandStart` and `Sessions` prove
what every action keeps, that no hand gets stuck while nobody leaves it, that every hand ends, who is dealt in, and
what many hands in a row keep. `RoundEnds`, `FirstTurns`, `Blinds`, `DecisionEffects` and `Requests` say in terms of
seats and chips alone when a street closes, whose turn it is, where the button and the blinds go, and what a decision
takes. Clients may send any integer with a call or a raise, and the theorems hold for all.

**Side pots and showdown.** `SidePots`, `Showdowns` and their proofs give every live player exactly what they matched,
and the exact books of a payout. Two facts of the code are kept as they are: `k` tied winners are listed `k` times
each, so a pot is split in `k * k` parts and the remainder stays unpaid; and a layer whose contributors have all folded
is paid to nobody.

**Cards.** `Shuffles` shows that every arrangement of the deck comes out, each for one sequence of choices. `Dealing`
shows that deck, board and hands never share a card, and that the reshuffle test leaves enough cards for every hand of
up to twenty-three seats.

**Money.** `Wallets`, `Commissions`, `Seating`, `TableMoney` and `GameService` follow chips from wallet to table and
back, `Rakes` says what house and referrer take of a pot, `TableRules` when each request to a table succeeds, and
`SiteRuns` runs any events at any tables. Players may leave a hand in the middle of it, and a table's host may start a
new hand during one. `AbandonedHands` says what holds all the same: the leaver's bets stay in the pot and are nobody's,
so a showdown may leave them undistributed; and a new hand drops whatever is in the pot (`RestartLosesPot`).
`MoneyConserved` accounts for both exactly, event by event. A hand nobody has left keeps all its books
(`StaysInOrder`); one that somebody has left may wait for a player who has folded, and then answers nobody
(`LeaverStalls`).

**Withdrawals.** `Withdrawals` lets the statements of any number of transactions interleave, with row locks held from a
write to the end of its transaction, the partial unique index on pending rows, and nothing uncommitted visible to
others. `WithdrawalService` is the service itself, with its checks in order.

**Gateway deposits** and **the one-time-code throttle** are runs of events. The throttle's clock counts nanoseconds
while its rows hold whole seconds, so two sends may be up to a second short of a minute apart; `FullMinuteExactly` says
when.

**Numbers.** `HandScores` covers the bots' one-number score of a hand, over real numbers, and the combination count.

## How the pieces depend on each other

The pure layer (functions and lemmas) carries the properties; the classes are proved to compute it. A property of the
running engine is read off by combining the two: for instance `Engine.GameEngine.HumanAction` gives the table of
`Betting.HumanAction`, which `HumanActionPlays` turns into one or two legal decisions, which `EveryHandEnds` bounds.

## Model

| member | source | states |
|---|---|---|
| BestHand.ParsersAgree | go-poker/frontend/src/lib/bestHand.ts:28-33 | On every card of the deck the client reads the rank the server reads (one unit apart on their scales), and the server parses a valid card |
| BestHand.CombinationsSound | go-poker/frontend/src/lib/bestHand.ts:73-78 | Every list produced is a selection of `k` different items of the input |
| BestHand.CombinationsComplete | go-poker/frontend/src/lib/bestHand.ts:73-78 | Every selection of `k` items is produced, up to its order |
| BestHand.CompareLoop | go-poker/frontend/src/lib/bestHand.ts:64-71 | The loop over tiebreaks, missing entries read as 0, returns the first difference after the category |
| ClientEvaluator.GroupsAndRanks | go-poker/frontend/src/lib/bestHand.ts:36-42 | The map of groups, sorted bigger first and then by rank, and the sorted set of ranks |
| Refinement.StraightHighExactly | go-poker/frontend/src/lib/bestHand.ts:41-47 | Five cards are a straight ending at a rank, the wheel at its five, exactly when the test on their sorted ranks reports that rank |
| ClientEvaluator.EvaluateFiveCards | go-poker/frontend/src/lib/bestHand.ts:35-62 | The loops and the chain of conditions compute the evaluation that the refinement proofs are about; the cards shown are all five of a straight or a flush, else exactly those sharing their rank with another |
| ClientEvaluator.BestFive | go-poker/frontend/src/lib/bestHand.ts:95-99 | The scan over all combinations ends on five of the cards that no other five beat, with their evaluation and the cards shown of them |
| ClientEvaluator.ReadsCodes | go-poker/frontend/src/lib/bestHand.ts:28-33 | Every code of the deck, in upper or lower case, is read as the card it is written for |
| ClientEvaluator.MadeHandCodes | go-poker/frontend/src/lib/bestHand.ts:85-101 | Missing, hidden and unreadable codes play no part; of the others exactly the codes of the cards that make the hand are lifted |
| ClientEvaluator.MadeHandCards | go-poker/frontend/src/lib/bestHand.ts:88-101 | Under five cards: exactly those sharing their rank with another; from five on: the cards shown of five that no other five beat |
| HandOrder.CompareTransitive | go-poker/frontend/src/lib/bestHand.ts:64-71 | The client comparison is transitive |
| HandOrder.CompareOpposite | go-poker/frontend/src/lib/bestHand.ts:64-71 | Exchanging the hands changes the sign, so the comparison is a total preorder |
| HandOrder.BestOfIsMaximum | go-poker/frontend/src/lib/bestHand.ts:96-100 | The running best is one of the evaluations and none compares higher |
| HandOrder.SameEvaluation | go-poker/frontend/src/lib/bestHand.ts:35-62 | An evaluation depends on the five cards only, not on their order |
| Refinement.Reading | go-poker/frontend/src/lib/bestHand.ts:35-62 | What each category and tiebreak of an evaluation says about how often which rank occurs |
| CategoryProofs.CategoryReached | go-poker/hand_evaluator_rules.go:7-246 | If five cards of a pool evaluate to a category, the solver pass of that category or of a higher one succeeds on the pool |
| CategoryProofs.BestStraightFlush | go-poker/hand_evaluator_rules.go:7-56 | The straight-flush pass returns five cards no selection beats when one suit can flush |
| CategoryProofs.BestQuads | go-poker/hand_evaluator_rules.go:58-92 | Four of a kind with the best card left over is unbeaten once the pass above fails |
| CategoryProofs.BestFullHouse | go-poker/hand_evaluator_rules.go:94-148 | The highest triple with the highest other pair or triple is unbeaten on its first five cards, also when two triples make the list six long |
| CategoryProofs.BestFlush | go-poker/hand_evaluator_rules.go:150-176 | The five highest cards of the flush suit are unbeaten |
| CategoryProofs.BestStraight | go-poker/hand_evaluator_rules.go:178-246 | The highest run, or the wheel when there is no other, is unbeaten |
| CategoryProofs.BestTrips | go-poker/hand_evaluator_solver.go:156-180 | Three of a kind with its two best kickers is unbeaten |
| CategoryProofs.BestTwoPair | go-poker/hand_evaluator_solver.go:134-154 | The two highest pairs with the best card left over are unbeaten |
| CategoryProofs.BestPair | go-poker/hand_evaluator_solver.go:102-132 | The highest pair with its three best kickers is unbeaten |
| CategoryProofs.BestHighCard | go-poker/hand_evaluator_solver.go:90-100 | The five highest cards are unbeaten when every pass fails |
| SolverTheorem.FoundIsBest | go-poker/hand_evaluator_solver.go:42-66 | The first pass to succeed, in the solver's order, returns a hand no five cards of the pool beat, and reports its category |
| SolverTheorem.BestIsExhaustive | go-poker/frontend/src/lib/bestHand.ts:85-101 | A hand no selection beats has exactly the value the exhaustive scan arrives at |
| SolverTheorem.FirstFoundDecides | go-poker/hand_evaluator_solver.go:18-67 | The greedy solver refines the exhaustive evaluator: same category and same tiebreak on the first five cards, for any five or more distinct cards with at most one suit held five times |
| SolverTheorem.SmallPools | go-poker/hand_evaluator_solver.go:18-67 | Up to nine distinct cards always satisfy that condition, so every hand of the game does |
| SolverTheorem.ComparisonsAgree | go-poker/hand_evaluator.go:244-260 | Two hands shaped as the passes shape them compare on the server exactly as their values compare in the client |
| SolverTheorem.DecidedComparison | go-poker/hand_evaluator.go:244-260 | Solved hands compare as the exhaustive values of the cards they were solved from |
| SolverTheorem.CompareHandsOpposite | go-poker/hand_evaluator.go:244-260 | The server comparison is antisymmetric |
| SolverTheorem.CompareHandsTransitive | go-poker/hand_evaluator.go:244-260 | The server comparison is transitive on hands of five cards or more |
| SolverTheorem.MoreCardsNeverHurt | go-poker/frontend/src/lib/bestHand.ts:85-101 | The best value over more cards is at least the best value over some of them |
| SolverTheorem.SolvedNeverWorse | go-poker/hand_evaluator_solver.go:18-67 | A hand solved from more cards never loses to one solved from fewer of them |
| HandSolver.Hand.constructor | go-poker/hand_evaluator.go:198-242 | A new hand holds the sorted pool and its index by suit and by rank |
| HandSolver.IndexCards | go-poker/hand_evaluator.go:217-227 | The two indexes list exactly the cards of each suit and of each rank, in order |
| HandSolver.OrderKeys | go-poker/hand_evaluator.go:229-233 | The value order lists every rank held, once, highest first, whatever order the map yields |
| HandSolver.UnusedCards | go-poker/hand_evaluator_solver.go:76-88 | The kickers are the pool without the cards of the hand, best first |
| HandSolver.BestRun | go-poker/hand_evaluator_rules.go:188-218 | The run search returns the highest five-card run, and nothing exactly when there is none |
| HandSolver.TakeWheel | go-poker/hand_evaluator_rules.go:220-234 | The wheel is five, four, trey, deuce and ace, in that order |
| HandSolver.Hand.SolveStraightFlush | go-poker/hand_evaluator_rules.go:7-56 | The pass succeeds exactly when some suit of five or more cards holds a straight, and finds the best one there |
| HandSolver.Hand.SolveFourOfAKind | go-poker/hand_evaluator_rules.go:58-92 | The pass succeeds exactly when a rank is held four times; what it collects |
| HandSolver.Hand.SolveFullHouse | go-poker/hand_evaluator_rules.go:94-148 | The pass succeeds exactly when the highest exact triple has another rank held twice or more; what it collects |
| HandSolver.Hand.SolveFlush | go-poker/hand_evaluator_rules.go:150-176 | The pass succeeds exactly when a suit is held five times; what it collects |
| HandSolver.Hand.SolveStraight | go-poker/hand_evaluator_rules.go:178-246 | The pass succeeds exactly when there is a run or a wheel; what it collects |
| HandSolver.Hand.SolveThreeOfAKind | go-poker/hand_evaluator_solver.go:156-180 | The pass succeeds exactly when a rank is held three times; what it collects |
| HandSolver.Hand.SolveTwoPair | go-poker/hand_evaluator_solver.go:134-154 | The pass succeeds exactly when two ranks are held twice; what it collects |
| HandSolver.Hand.SolveOnePair | go-poker/hand_evaluator_solver.go:102-132 | The pass succeeds exactly when a rank is held twice; what it collects |
| HandSolver.Hand.SolveHighCard | go-poker/hand_evaluator_solver.go:90-100 | The pass always succeeds with the five highest cards |
| HandSolver.FirstPossible | go-poker/hand_evaluator_solver.go:42-66 | The first successful category in order: every pass above it fails on the pool |
| HandSolver.Solve | go-poker/hand_evaluator_solver.go:18-67 | A solved hand is possible exactly when no code repeats, and then carries the exhaustive value whenever one suit at most can flush |
| HandSolver.Winners | go-poker/hand_evaluator.go:329-346 | The winners are the hands that tie with the champion of the scan, in their order and never none of some; of hands of five cards or more they are exactly those no other beats |
| HandScores.HandTiebreaker | go-poker/bot.go:103-112 | The accumulating loop computes the base-15 fraction of the ranks |
| HandScores.TailBound | go-poker/bot.go:103-112 | All digits together stay below 13/14 |
| HandScores.ScoreKeepsOrder | go-poker/bot.go:103-119 | A hand that compares better scores strictly higher, whatever the lengths; equal five-card hands score equally |
| HandScores.ScoreIsComparison | go-poker/bot.go:103-119 | On five cards the score decides exactly as the comparison does |
| HandScores.Absorb | go-poker/engine.go:54-57 | Each step of the loop divides without remainder |
| HandScores.CombinationCount | go-poker/engine.go:46-59 | The loop returns the binomial coefficient for every `n` and `k`, 0 out of range |
| BettingInvariants.PlaceBetOk | go-poker/engine_betting.go:146-158 | A bet of any size moves the same chips off the stack and into both bets, and leaves the player all in exactly at zero |
| BettingInvariants.FoldKeeps | go-poker/engine_betting.go:421-423 | A fold keeps the books and brings the round nearer its end |
| BettingInvariants.CheckKeeps | go-poker/engine_betting.go:424-425 | A legal check does |
| BettingInvariants.CallKeeps | go-poker/engine_betting.go:426-433 | A call with any integer amount does, whether it under-calls, over-calls or takes an excess back |
| BettingInvariants.RaiseKeeps | go-poker/engine_betting.go:452-466 | A bet beyond the call raises the bet to match, within all the money of the table |
| BettingInvariants.RaiseOrAllInKeeps | go-poker/engine_betting.go:434-445 | A raise of any amount, or all in, keeps the books and brings the round nearer its end |
| BettingInvariants.DecisionKeeps | go-poker/engine_betting.go:415-466 | Any legal decision with any amount: pot equals bets, stacks and pot together unchanged, bets nested, nobody below zero, live players all in exactly at zero, and progress |
| DecisionEffects.CallTakes | go-poker/engine_betting.go:426-433 | A call takes min(stack, current bet less round bet), or min(stack, amount) when an amount is sent, from that one stack into the pot, and changes nothing else |
| DecisionEffects.CallMatches | go-poker/engine_betting.go:426-433 | After a plain call the player has matched the bet, or is all in below it |
| DecisionEffects.NothingMoves | go-poker/engine_betting.go:421-425 | A fold and a check move no chip |
| DecisionEffects.RaiseTakes | go-poker/engine_betting.go:434-466 | A raise takes min(stack, amount), or the call and the last raise without an amount; beyond the call the raiser's round bet becomes the current bet, the increase the last raise, and everybody else who can act has another turn; otherwise both stay |
| DecisionEffects.AllInTakes | go-poker/engine_betting.go:434-466 | All in takes the stack, with the same consequences |
| DecisionEffects.ActTakes | go-poker/engine_betting.go:387-466 | While the hand goes on, a legal action moves exactly that amount from that stack into the pot and no other chip, whatever streets it closes |
| RoundEnds.CompleteMeans | go-poker/engine_betting.go:308-333 | A round is complete exactly if all but one have folded, or everybody neither folded nor all in has acted and put in at least the current bet |
| RoundEnds.StreetCloses | go-poker/engine_betting.go:387-413 | A legal action moves the hand to a later street or to its end exactly if it leaves that |
| RoundEnds.StreetsClose | go-poker/engine_betting.go:387-413 | Over every run of actions no street ever closes over an unmatched bet, and none stays open without one |
| RoundEnds.UnderCallStaysOpen | go-poker/engine_betting.go:426-433 | A call for less than the bet never closes a street that others are still in |
| RoundEnds.UnderCallExample | go-poker/engine_betting.go:308-333 | Three players, blinds of 5 and 10: the dealer calls with 1, the small blind calls, the big blind checks, and the dealer has the turn again |
| Clockwise.NextIsFirst | go-poker/engine_betting.go:335-348 | The search for the next player finds the first one clockwise who can act, from wherever it starts |
| FirstTurns.SettledMeans | go-poker/engine_betting.go:293-306 | The test for an all-in board holds exactly if nobody who can act has put in less than somebody still in |
| FirstTurns.RoundGoes | go-poker/engine_betting.go:216-291 | A round is played exactly if more than one player is in and not all but one are all in with nothing to match; then the turn is with the first who can act: of two at the table the dealer, before the flop, else the first behind the big blind, later the first behind the dealer |
| FirstTurns.NextStreet | go-poker/engine_betting.go:173-291 | Whichever street the hand moves on to, the first player clockwise behind the dealer who can act opens it, with no bet to match |
| FirstTurns.DealerNotFirst | go-poker/engine_betting.go:280-291 | A dealer who is not alone in being able to act does not open a later street |
| FirstTurns.AfterTurn | go-poker/engine_betting.go:387-413 | After a legal action the turn goes clockwise to the next player who can act, or on a later street to the first behind the dealer |
| FirstTurns.TurnsGo | go-poker/engine_betting.go:387-413 | So it does over every run of actions |
| FirstTurns.FirstOfHand | go-poker/engine_betting.go:30-105 | Who is first to act in a new hand, and that its first round is passed over exactly if nobody has a decision to take |
| HandProgress.NextLands | go-poker/engine_betting.go:335-348 | If a seat owes an action, the search ends on a seat that can act, no farther from the owing one |
| HandProgress.SomeoneOwes | go-poker/engine_betting.go:308-333 | An unfinished round has a player who can act and owes an action |
| HandProgress.TurnFound | go-poker/engine_betting.go:335-348 | In an unfinished round the search finds a player who can act |
| HandProgress.RoundOpens | go-poker/engine_betting.go:216-291 | Opening a round leads to the showdown or to a player who can act; skipped rounds are passed through |
| HandProgress.StreetAdvances | go-poker/engine_betting.go:173-205 | Closing a street leads to the showdown or to a later street with a player who can act, with stakes unchanged and a full board at every contested showdown |
| HandProgress.ActKeeps | go-poker/engine_betting.go:387-413 | After any legal action the hand is over, or someone who can act is to act, the money is the same and the lexicographic measure is lower |
| HandProgress.RankFalls | go-poker/engine_betting.go:173-205 | The measure (streets, room to raise, bets owed, distance to the next owing seat) as one number strictly falls |
| HandProgress.EveryHandEnds | go-poker/engine_betting.go:173-348 | No more actions than the measure are ever accepted, and each leaves a table in play or the end of the hand |
| HandStart.NextSeatsFresh | go-poker/engine_betting.go:51-77 | The seats of the next hand: unbet, dealt out exactly without chips or sitting out, all chips kept |
| HandStart.BustedBotsLeave | go-poker/engine_betting.go:51-77 | Exactly the bots without chips lose their seat |
| HandStart.RotateKeeps | go-poker/engine_betting.go:107-144 | The blinds open the hand's books with all the chips of the stacks, and nothing from whoever is dealt out |
| HandStart.ButtonMoves | go-poker/engine_betting.go:114-128 | One dealer: the dealt-in seat whose turn it is in the orbit |
| Blinds.BlindsGo | go-poker/engine_betting.go:107-158 | With three or more dealt in nobody dealt in sits between the dealer and the small blind, nor between the small and the big blind; of two the dealer is the small blind. Each blind's stack drops by the blind or all there is of it, nobody else's moves, the flags are on exactly those seats, and the bet to match and the last raise are the big blind |
| HandStart.StartHandPlays | go-poker/engine_betting.go:30-105 | A hand starts exactly with two dealt-in players; it then waits for a player who can act or is already settled; otherwise nothing changes |
| HandStart.SettledBalance | go-poker/engine_showdown.go:93-153 | After any showdown the stacks hold all the money but the exact loss, which is never negative |
| HandStart.WholeHand | go-poker/engine_betting.go:30-105 | From the deal to the last payout: chips plus pot constant at every decision, and the exact balance at the end |
| HandStart.HumanActionGate | go-poker/engine_betting.go:483-515 | At any table a request is accepted exactly from the player to act for a legal action, and a refused one changes nothing |
| HandStart.HumanActionPlays | go-poker/engine_betting.go:483-515 | An accepted request is one legal decision, or two when a bot replies at once |
| Requests.LegalWords | go-poker/engine_betting.go:468-481 | The words a client may send, and that a check needs nothing to call |
| Requests.RequestTakes | go-poker/engine_betting.go:483-515 | Among people, an accepted request takes exactly what its word and amount come to, and folds exactly if it says so |
| HandStart.AutomaticStep | go-poker/engine_betting.go:350-385 | An automatic step of a hand in play lets a bot to act decide and waits for a person; after it the hand is over or someone who can act is to act |
| HandStart.AutomaticStart | go-poker/engine_betting.go:350-364 | Between hands an automatic step starts one where two can be dealt in; during a pause it does nothing |
| RoundEnds.StepCloses | go-poker/engine_betting.go:350-364 | At a finished round it closes the street |
| HandStart.TimeoutAccepted | go-poker/services/game_service_actions.go:162-166 | What the turn clock does for an absent player is always accepted |
| Requests.TimeoutSpares | go-poker/services/game_service_actions.go:162-166 | It folds them exactly if there is a bet to call, and never moves a chip |
| Dealing.BuildFullDeck | go-poker/engine.go:22-30 | The loops build the deck suit by suit |
| Dealing.ShuffleDeck | go-poker/engine.go:32-36 | The loop makes the exchanges of `Rearranged` for any random choices, and so holds the same cards |
| Shuffles.EveryArrangement | go-poker/engine.go:32-36 | Every arrangement of the deck comes out for some choices |
| Shuffles.OneWay | go-poker/engine.go:32-36 | Different choices within range give different arrangements, so none is favoured |
| Dealing.FullDeckSound | go-poker/engine.go:22-36 | Fifty-two cards, every card once |
| Dealing.BoardLeft | go-poker/engine_betting.go:97-102 | A fresh deck leaves a whole board exactly up to twenty-three hands |
| Dealing.HoleCardsDealt | go-poker/engine_betting.go:160-171 | With enough cards in the deck every dealt-in seat gets two, and no card is lost or doubled |
| Dealing.StreetDealt | go-poker/engine_betting.go:185-214 | A street moves its cards from deck to board and keeps deck, board and hands pairwise distinct |
| Dealing.ShowdownHandSolvable | go-poker/hand_evaluator_solver.go:28-36 | Every live hand with a full board is seven different cards, so the duplicate branch is not reached and the solver decides |
| Sessions.DealtSound | go-poker/engine_betting.go:97-102 | However much of the deck was left, the reshuffle test covers the whole hand, up to twenty-three seats |
| Sessions.DeckGoesOn | go-poker/engine_betting.go:97-102 | The cards of a hand come off the top of the deck left over, while it covers a full table and a board, else of a fresh one |
| Sessions.ContestedHands | go-poker/engine_showdown.go:212-219 | At every contested showdown the board has five cards and every live hand is solvable |
| Sessions.ShowdownStack | go-poker/engine_showdown.go:93-276 | A showdown takes from no stack and gives nothing to a folded seat |
| Sessions.HandKeepsReady | go-poker/engine_betting.go:30-105 | A completed hand leaves a table ready for the next with no more chips than before |
| Sessions.HandsKeepReady | go-poker/engine_betting.go:30-105 | Nor does any number of hands double a card or create a chip |
| Sessions.SittingOutIsSafe | go-poker/engine_betting.go:7-14 | Whoever is dealt out keeps the same stack, bets nothing, holds no cards and is never to act, to the end of the hand |
| Sessions.PostOfHand | go-poker/engine_betting.go:114-137 | The button and each blind of a hand are with the dealt-in players the orbit has come to |
| Sessions.PostsRotate | go-poker/engine_betting.go:114-137 | Over as many hands as there are dealt-in players each holds the button exactly once, the small blind exactly once and the big blind exactly once |
| SidePotProofs.SidePotFairness | go-poker/engine_showdown.go:18-59 | Any live player, with a bet or without, is eligible for exactly the sum over all players of the smaller of the two total bets, after merging |
| SidePotProofs.LayersShare | go-poker/engine_showdown.go:24-35 | The same before merging, layer by layer |
| SidePotProofs.SameLiveMeans | go-poker/engine_showdown.go:51-51 | Equal counts and a subset test together find exactly the pots with the same live players |
| SidePotProofs.MergeKeepsShare | go-poker/engine_showdown.go:37-58 | Merging moves no chip into or out of a live player's reach |
| SidePotProofs.SidePotsComplete | go-poker/engine_showdown.go:18-59 | The pots hold every chip bet, and form a strict chain |
| SidePotProofs.StrictlyNested | go-poker/engine_showdown.go:37-58 | Of two surviving pots the later has strictly fewer live players, all live in the earlier |
| ShowdownProofs.SettlePotPays | go-poker/engine_showdown.go:161-250 | A sole live player takes the pot; `k` tied players get `k` times the amount divided by `k` squared each; the payout list says the same |
| ShowdownProofs.ShowdownPays | go-poker/engine_showdown.go:93-276 | Every stack grows by exactly its shares of the pots, which is what the payouts list for it |
| ShowdownProofs.UndistributedExactly | go-poker/engine_showdown.go:168-170 | What nobody receives: bets above the top live bet and the remainders of the splits |
| ShowdownProofs.ShowdownAccounting | go-poker/engine_showdown.go:155-276 | Credits equal the bets up to the top live bet less the sum of the remainders modulo `k` squared; no chips are created |
| ShowdownProofs.SurvivorTakesPot | go-poker/engine_showdown.go:115-147 | The last live player takes exactly the pot |
| ShowdownSteps.CutLayers | go-poker/engine_showdown.go:24-35 | The layering loop with its search for the first contender cuts the specified layers |
| ShowdownSteps.IsSubset | go-poker/engine_showdown.go:61-72 | The map test decides inclusion |
| ShowdownSteps.MergePots | go-poker/engine_showdown.go:37-57 | The in-place merge ends, with the specified merge |
| ShowdownSteps.BuildPots | go-poker/engine_showdown.go:18-59 | Sorting, layering and merging together |
| ShowdownSteps.PotWinners | go-poker/engine_showdown.go:212-234 | Solving, picking winners and the nested loop list every unbeaten player once per winning hand, so `k` times each |
| Players.SettleOne | go-poker/engine_showdown.go:161-250 | The loop over one pot credits the players and appends the payouts of the specified settlement |
| Players.SettleAll | go-poker/engine_showdown.go:161-276 | And over all pots in order |
| Players.Player.PlaceBet | go-poker/engine_betting.go:146-158 | The player object after a bet |
| Players.CommitSeats | go-poker/engine_betting.go:452-466 | The bet and the turns it reopens for everyone else who can act |
| Players.DropBustedBots | go-poker/engine_betting.go:69-79 | Bots without chips leave the list, everyone else stays in order |
| Engine.GameEngine.CommitBet | go-poker/engine_betting.go:452-466 | The engine after a committed bet |
| Engine.GameEngine.ApplyDecision | go-poker/engine_betting.go:415-446 | The engine after a decision is the specified table |
| Engine.GameEngine.IsBettingRoundComplete | go-poker/engine_betting.go:308-333 | The counting loops decide the specified condition |
| Engine.GameEngine.FindNextActionablePlayer | go-poker/engine_betting.go:335-348 | The loop finds the specified seat |
| Engine.GameEngine.DealCommunityCards | go-poker/engine_betting.go:207-214 | Cards move from deck to board, as many as there are |
| Engine.GameEngine.StartBettingRound | go-poker/engine_betting.go:216-291 | Opening a round, through to the next street or the showdown |
| Engine.GameEngine.AdvancePhase | go-poker/engine_betting.go:173-205 | Closing a street; the mutual recursion ends |
| Engine.GameEngine.DoShowdown | go-poker/engine_showdown.go:93-153 | The engine after the showdown is the specified table |
| Engine.GameEngine.ResolveSidePots | go-poker/engine_showdown.go:155-276 | Pots settled, pot emptied, intermission begun |
| Engine.GameEngine.RotateDealerAndBlinds | go-poker/engine_betting.go:107-144 | Buttons and blinds on the player objects |
| Engine.GameEngine.DealHoleCards | go-poker/engine_betting.go:160-171 | Two cards to each seat in the hand |
| Engine.GameEngine.StartHand | go-poker/engine_betting.go:30-105 | The whole start of a hand, refusing exactly when the specification does |
| Engine.GameEngine.ProcessCurrentPlayer | go-poker/engine_betting.go:366-385 | A bot to act takes its decision; idle seats are passed |
| Engine.GameEngine.HumanAction | go-poker/engine_betting.go:483-515 | A request on the objects gives the specified table and answer |
| Engine.GameEngine.AdvanceOneStep | go-poker/engine_betting.go:350-364 | One step of an automatic game |
| Wallets.WalletService.Debit | go-poker/services/wallet_service.go:110-136 | A debit happens exactly if the wallet covers it |
| Wallets.WalletService.ProcessHandPayout | go-poker/services/wallet_service.go:207-289 | The branches compute the specified split and move exactly its parts |
| Wallets.SplitExact | go-poker/services/wallet_service.go:218-251 | Net, rake and referral cut make up the payout and none is negative, for settings within their ranges |
| Wallets.PartsArrive | go-poker/services/wallet_service.go:258-267 | The wallets gain exactly what leaves the winner's stack |
| Rakes.SplitIs | go-poker/services/wallet_service.go:207-256 | The site takes the small blind as far as the pot goes, or the whole part of the rate; the referrer is a user with the winner's code, found exactly when there is one, and takes the whole part of the mode's own rate as far as the rake leaves it, nothing exactly without a referrer or when that comes to nothing |
| Rakes.WalletsGain | go-poker/services/wallet_service.go:258-267 | The house's wallet gains exactly the rake, the referrer's exactly the cut, and no other moves |
| Rakes.AwardRaked | go-poker/services/game_service_actions.go:190-243 | For one award the winner's stack, and no other, pays exactly rake and cut |
| Commissions.RakeTaken | go-poker/services/game_service_actions.go:228-241 | The stop at zero never takes effect: the whole rake leaves the winner's stack |
| Commissions.CommissionExact | go-poker/services/game_service_actions.go:190-243 | Commission moves chips into wallets and loses none on the way |
| Commissions.ShowdownCovered | go-poker/services/game_service_actions.go:190-243 | Whatever a showdown pays is on the winners' stacks when commission is taken |
| Seating.JoinAgrees | go-poker/services/game_service.go:292-311 | Joining keeps the user map the inverse of the seat list |
| Seating.LeaveAgrees | go-poker/services/game_service.go:558-581 | So does leaving, with everyone behind renumbered |
| Seating.SameSeatsAgree | go-poker/services/game_service.go:292-311 | So does any hand, which moves nobody |
| AbandonedHands.DecisionCarries | go-poker/engine_betting.go:415-466 | Any action with any amount from any seat keeps people, rules and money, also in a hand somebody has left |
| AbandonedHands.RoundReaches | go-poker/engine_betting.go:216-291 | From any hand, however it was left, opening a round leads on to a turn or to a showdown over the same money |
| AbandonedHands.RequestReaches | go-poker/engine_betting.go:483-515 | Whatever anybody asks for, the hand goes on with the same people and money, or is over |
| AbandonedHands.ClosedBalance | go-poker/engine_showdown.go:93-276 | The exact books of any showdown, also with bets in the pot that are nobody's: the loss is what was nobody's, what no live player matched and the remainders of splits |
| AbandonedHands.AnswersSomebody | go-poker/engine_betting.go:483-515 | At any table some request is accepted exactly if the turn is with somebody who can act |
| AbandonedHands.LeaverStalls | go-poker/services/game_service.go:558-571 | A hand in play in which the player to act gets up and nobody's request is accepted any more |
| TableMoneyProofs.NewTableOk | go-poker/services/game_service.go:117-153 | A new table is in order |
| TableMoneyProofs.JoinKeeps | go-poker/services/game_service.go:256-311 | Joining a table, in every outcome, keeps all invariants and all money |
| TableRules.JoinExactly | go-poker/services/game_service.go:256-311 | A seat is given exactly if the user has none there, no hand is being played, there is room and both balances cover the buy-in, 2000 where none is set: the last seat, holding the buy-in that the wallet pays |
| TableMoneyProofs.RefillKeeps | go-poker/services/game_service.go:485-533 | So does a refill, even by a folded player during a hand |
| TableRules.RefillExactly | go-poker/services/game_service.go:485-533 | A refill is taken exactly from somebody seated, where allowed, for at least the big blind, outside any hand the player is still in, as far as the wallet covers it |
| TableMoneyProofs.LeaveKeeps | go-poker/services/game_service.go:549-602 | So does leaving at any time; between hands it leaves no bet behind |
| TableRules.LeaveExactly | go-poker/services/game_service.go:549-602 | Whoever leaves takes exactly the stack along; everybody behind moves up, and a hand goes on exactly while two are left |
| TableMoneyProofs.LeaverBets | go-poker/services/game_service.go:549-571 | In the middle of a hand the pot keeps the bets of whoever leaves, which are then nobody's |
| TableMoneyProofs.DealKeeps | go-poker/services/game_service_actions.go:42-75 | Dealing a hand, on whichever cue, drops the pot left over, and costs the exact loss of a showdown at once; a hand that starts puts the table in order |
| TableRules.TimersWait | go-poker/services/game_service.go:369-391 | The timers never interrupt a hand and drop no chip at a table in order; only a host can |
| TableRules.DealExactly | go-poker/services/game_service_actions.go:42-75 | A hand starts exactly if two can be dealt in, after a pause, with the countdown before any hand, for the host at any time; if none starts after a pause the table waits again |
| TableMoneyProofs.SubmitKeeps | go-poker/services/game_service_actions.go:77-109 | An action, with the commission that follows a finished hand, keeps the money less the exact loss of the showdown it leads to |
| TableRules.SubmitExactly | go-poker/services/game_service_actions.go:77-109 | An action is taken exactly in a hand, from the player to act, with one of the five words, a check only with nothing to call; otherwise nothing changes |
| TableRules.HandCleared | go-poker/services/game_service_actions.go:100-109 | When a hand has paid somebody its payouts are raked off the stacks, and exactly whoever then has no chips is sat out besides |
| TableRules.BustedSitOut | go-poker/services/game_service.go:539-547 | After a hand exactly those people without chips are sat out |
| TableMoneyProofs.ExpireKeeps | go-poker/services/game_service_actions.go:139-188 | So does the turn clock running out |
| TableRules.AbsentSitsOut | go-poker/services/game_service_actions.go:139-188 | Whoever lets the clock run out is sat out, also when that ends the hand |
| TableMoneyProofs.RestartLosesPot | go-poker/services/game_service.go:604-632 | A manual start is refused exactly with fewer than two players to deal in; otherwise the pot is lost and whatever an immediate showdown loses. With chips in the pot the money is kept exactly if the start is refused |
| TableMoneyProofs.RestartExample | go-poker/services/game_service.go:604-632 | A hand in play with fifteen chips in the pot, and a start that loses them |
| SiteRuns.LeaveOthersKeeps | go-poker/services/game_service.go:234-251 | Leaving all other tables, hands in play or not, keeps all invariants and all money |
| SiteRuns.AnyOrder | go-poker/services/game_service.go:234-251 | The order in which other tables are left makes no difference |
| SiteRuns.EventKeeps | go-poker/services/game_service.go:234-632 | What one event does to the money of the whole site: nothing, unless a new hand drops a pot or a hand ends in a showdown, and then exactly that; all invariants are kept |
| SiteRuns.MoneyConserved | go-poker/services/game_service.go:234-632 | Over every run of joins, leaves, refills, starts, actions and timeouts at any number of tables, at any time: nobody below zero; event by event, money is lost exactly where a new hand drops a pot or a hand ends, and exactly that pot and what the showdown leaves undistributed |
| SiteRuns.WithoutHands | go-poker/services/game_service.go:234-602 | Runs without starts, actions and timeouts keep the money of wallets and tables unchanged |
| SiteRuns.EventOrdered | go-poker/services/game_service.go:234-632 | An event keeps a table in order unless it takes somebody out of a hand being played there; a hand that starts restores order |
| SiteRuns.StaysInOrder | go-poker/services/game_service.go:234-632 | While nobody leaves a hand at a table, every hand there is in play with all its books, waiting for somebody who can act, and between hands the pot is empty |
| SiteRuns.SeatsAlwaysAgree | go-poker/services/game_service.go:234-632 | After any sequence of joins, leaves, saves, refills and hands, started and left at any time, at any tables, the user map of every table is the inverse of its seat list |
| SiteRuns.NeverTwoTables | go-poker/services/game_service.go:234-317 | Joining leaves all other tables first, so over any such sequence nobody is ever seated at two |
| GameService.GameService.JoinTable | go-poker/services/game_service.go:261-311 | The checks in order and the seating |
| GameService.GameService.RefillStack | go-poker/services/game_service.go:485-525 | The checks in order and the refill |
| GameService.GameService.LeaveTable | go-poker/services/game_service.go:549-591 | The removal and renumbering loops and the cash-out |
| GameService.GameService.DealNextHand | go-poker/services/game_service_actions.go:42-75 | The guards of the cue, the start, and going back to waiting |
| GameService.GameService.HandleTurnTimeout | go-poker/services/game_service_actions.go:139-188 | Check or fold for the absent player, who is sat out, then the commission |
| GameService.GameService.HandlePotCommission | go-poker/services/game_service_actions.go:190-243 | The loop over payouts rakes each as specified |
| GameService.GameService.SubmitAction | go-poker/services/game_service_actions.go:77-109 | Turn check, action, commission and sitting out the busted |
| WithdrawalProofs.StepSafe | go-poker/services/withdrawal_service.go:161-213 | Every statement of every transaction, in any state of the others, keeps the system safe |
| WithdrawalProofs.WithdrawalsSafe | go-poker/services/withdrawal_service.go:129-317 | Under any interleaving: one pending request a user, wallets never negative, each request debited once and refunded once exactly if rejected or cancelled, every wallet accounted for |
| WithdrawalProofs.FinalStays | go-poker/repository/withdrawals.sql.go:247-256 | No request is lost and a final status never changes |
| WithdrawalProofs.RequestCommits | go-poker/services/withdrawal_service.go:161-213 | No open transaction but its own has touched the wallet or the index slot of a committing request, and the commit keeps the whole system safe |
| WithdrawalProofs.RefundCommits | go-poker/services/withdrawal_service.go:281-317 | No open transaction but its own has touched the row or the wallet of a committing refund, and the commit keeps the whole system safe |
| WithdrawalProofs.RequestAlone | go-poker/services/withdrawal_service.go:161-213 | Run on its own, the transaction of a request does what the request promises |
| WithdrawalProofs.RefundAlone | go-poker/services/withdrawal_service.go:281-317 | And that of a refund |
| WithdrawalService.WithdrawalService.Request | go-poker/services/withdrawal_service.go:129-216 | The first failing check in order decides the answer; only an accepted request changes anything |
| WithdrawalService.RequestAnswers | go-poker/services/withdrawal_service.go:129-216 | Every answer to a request, and exactly when it is given |
| WithdrawalService.WithdrawalService.Cancel | go-poker/services/withdrawal_service.go:225-246 | Only the owner's pending request is cancelled and paid back |
| WithdrawalService.WithdrawalService.Complete | go-poker/services/withdrawal_service.go:250-265 | A pending request is marked paid and no money moves |
| WithdrawalService.WithdrawalService.Reject | go-poker/services/withdrawal_service.go:270-276 | A pending request is closed and paid back, with a reason that is more than spaces (`Text.BlankExactly`) |
| WithdrawalService.ServiceRequest | go-poker/services/withdrawal_service.go:129-216 | What the service commits is what the statements of its transaction commit |
| GatewayDeposits.WholeAmounts | go-poker/services/gateway_deposit_service.go:264-278 | Every whole amount up to the largest 64-bit number is read back, spaces around and zeros behind the point allowed; larger numbers and any other fraction are refused |
| GatewayDeposits.GatewayDepositService.ApplyEvent | go-poker/services/gateway_deposit_service.go:183-247 | The branches change the deposit, wallet and ledger as specified |
| GatewayDeposits.EventKeeps | go-poker/services/gateway_deposit_service.go:183-247 | An event keeps one ledger credit for each credited deposit and none for others, and moves a wallet only by its ledger entry |
| GatewayDeposits.PendingBecomes | go-poker/services/gateway_deposit_service.go:183-247 | What each event of the gateway, named by its word, leaves of a pending deposit |
| GatewayDeposits.ClosedStays | go-poker/services/gateway_deposit_service.go:183-247 | A closed deposit is only ever reopened by a payment, and a credited one never changes |
| GatewayDeposits.CreditedOnce | go-poker/services/gateway_deposit_service.go:183-247 | Over any sequence of events a deposit is credited, once and with its stored amount, exactly if a success without a conflicting amount was delivered |
| GatewayDeposits.OrderIrrelevant | go-poker/services/gateway_deposit_service.go:183-247 | Order and repetition of the events make no difference to that |
| OtpThrottle.ThrottleStore.ConsumeSendAllowance | go-poker/services/auth_otp.go:467-515 | The checks in order; other phones and purposes untouched, and nothing changed by a refusal |
| OtpThrottle.ThrottleStore.SweepStale | go-poker/services/auth_otp.go:521-531 | Exactly the stale rows go |
| OtpThrottle.SweepInvisible | go-poker/services/auth_otp.go:521-531 | Whatever is swept and whenever, every send is answered as if nothing were |
| OtpThrottle.TenSends | go-poker/services/auth_otp.go:491-514 | Any ten accepted sends span an hour |
| OtpThrottle.ThrottleHolds | go-poker/services/auth_otp.go:463-531 | Over every run: stamps of accepted sends a minute apart, and at most nine in any half-open hour |
| OtpThrottle.AcceptedExactly | go-poker/services/auth_otp.go:483-514 | After any history the next send is accepted exactly if a minute has passed since the last stamp, and the hour of its window has or fewer than five were sent in it |
| OtpThrottle.WaitIsExact | go-poker/services/auth_otp.go:483-505 | The wait a refusal names is exact, and after a full window the next send is then accepted |
| OtpThrottle.FirstFive | go-poker/services/auth_otp.go:463-514 | Up to five sends of one hour, a minute apart, are all accepted |
| OtpThrottle.SixthRefused | go-poker/services/auth_otp.go:497-505 | A sixth in that hour is refused |
| OtpThrottle.CooldownExact | go-poker/services/auth_otp.go:483-488 | The next send is refused as too soon exactly until a minute after the stamp of the last |
| OtpThrottle.FullMinuteExactly | go-poker/services/auth_otp.go:463-488 | The full sixty seconds are kept exactly after sends on a whole second |
| OtpThrottle.JustUnderAMinute | go-poker/services/auth_otp.go:463-488 | Two accepted sends less than sixty seconds apart |

## Left out

- Wild cards and codes the parser does not know: unreachable under the standard rules with a dealt deck.
- Hand descriptions, the headline winner, awards shown to clients, notifications, statistics, the straight-flush length and the card graveyard.
- HandSolver.Solve: codes the parser does not recognise, which the source would keep apart as wild cards; no deck holds one.
- HandSolver.Hand.constructor: the same codes.
- TableMoneyProofs.JoinKeeps: the automatic leave from other tables, which is part of the joining event in `SiteRuns.EventKeeps` and `SiteRuns.NeverTwoTables`.
- ClientEvaluator.MadeHandCodes: the readable codes are taken to be different cards of the deck, as at any table.
- GameService.GameService.DealNextHand: who may ask on which cue (host, private room, timers), so the host's cue stands for any request at any time.
- GameService.GameService.HandlePotCommission: skipping a payout whose settings cannot be read or whose crediting fails.
- SolverTheorem.FirstFoundDecides: pools in which two suits hold five cards each, which need ten cards and cannot arise with seven.
- HandStart.HumanActionPlays: the engine itself does not look at the intermission flag; the game service does before calling it, and what follows an accepted request is proved for a hand in progress.
- Bot strategy: a bot's decision is any legal decision.
- Player names are assumed different at one table, and blinds ordered (0, small, big), as the services ensure.
- Side pots name contenders by seat position instead of by object.
- A player's `SeatIndex` is kept beside the seats in `Seating`, where it matters.
- The branch of `StartHand` for fewer than two seats left, which cannot be reached once two players are dealt in (`Engine.StartCases`).
- Timers, the clock and random choices are parameters or steps; the database is maps and sequences with the stated guards, indexes and row locks.
- Wallets.WalletService.ProcessHandPayout: percentages are taken over real numbers, so the rounding of binary fractions is not modelled; ledger rows of the table money and failures of single statements are not either.
- WithdrawalService.WithdrawalService.Request: the checks of destination and cooldown enter as two flags, and the names are taken as already trimmed.
- Bank deposits with receipt review, sessions, passwords, one-time codes themselves, HTTP and event streams.
- The start of a gateway checkout: deposits begin as it leaves them, with a positive amount and a known user.
- Chips and amounts are unbounded integers; 64-bit overflow is not modelled outside the amount parser.
