# otree-experiments core, modelled in Dafny

This project models the core of the otree-experiments repository in Dafny:
a set of oTree apps for real-effort tasks and stimulus/response experiments.
Their server-side live handlers are per-player state machines over trial
records. The model also covers the puzzle engine of the sliding-tile
demos, the helper protocol in `common/live_utils.py`, and the
Ref/Changes/Timers engine of the `otree-front` JavaScript library.

Every handler is written twice:

- as a pure function from (state, message, clock reading, random picks) to
  (new state, reply or error);
- as a `class` whose methods update fields and records in place, one
  statement of the source at a time. Each method ensures that its new state
  and reply equal the function's.

The properties are lemmas about the functions:

- invariants that every message preserves (counters agree with the records,
  trials numbered in order, at most one unanswered trial);
- exact error conditions;
- replies that mean what they say;
- round-trips and generator bounds.

Exceptions are `Err` results. A change made before a Python `raise` is
kept in the new state; whether oTree commits it depends on its runtime,
which is outside this model (see "Left out"). Randomness is an oracle
parameter, and `now` is a parameter.

Modules, with their source files:

- shared helpers, which have no source file of their own: `Wrappers`
  (Option, Result, error kinds), `Json` (JSON / JavaScript values),
  `Text` (ASCII string helpers), `Assoc` (insertion-ordered dicts),
  `PyList`, `Records` (filters over a model's rows);
- `PuzzleUtils` is `common/puzzle_utils.py`;
- `PuzzleUtilsJs` is `demo_puzzle/static/demo_puzzle_utils.js`;
- `LiveUtils` and `LiveTrials` are `common/live_utils.py`;
- `NonwordUtils` is `ldt_core/nonword_utils.py`;
- `LdtPriming` is `ldt_priming/__init__.py`;
- `RealEffort`, `TaskMatrix`, `TaskDecoding` and `TaskTranscription` are
  `real_effort/`;
- `Transcription`, `Colors`, `Arithmetics`, `Symmatrices`, `Matrices`,
  `Iat`/`IatBlocks` and `Sliders`/`TaskSliders` are the apps of the same
  names;
- `DemoTrials`, `DemoTrialsLive`, `DemoStimuli`, `DemoPuzzleLive`,
  `DemoPuzzlesLocal`, `TicTacToe` (`demo_multiplayer_2`) and `Auction`
  (`demo_multiplayer_N`) are the demos;
- `GenericCore`, `GenericStimuli` and `StimuliUtils` are `generic/`;
- `Ref`, `Changes`, `Timers` and `Page` are `_static/otree-front-1.0.0.js`.

## Model

| member | source | states |
|---|---|---|
| Arithmetics.GeneratePuzzle | arithmetics/__init__.py:57-65 | a new puzzle has no answer, no verdict, no tries and iteration 0 |
| Arithmetics.OperandDigits | arithmetics/__init__.py:59-62 | an operand made of two drawn digits lies in 11..99, has no zero digit and prints as those two digits |
| Arithmetics.PuzzleShape | arithmetics/__init__.py:57-65 | the puzzle reads `"a + b = "` with two two-digit operands, ten characters in all, and its solution is their sum, between 22 and 198 |
| Arithmetics.CheckAnswerMeans | arithmetics/__init__.py:82-87 | an empty answer is a ValueError that stores nothing; any other answer is stored, a JSON `null` as `None` (no answer) and then the TypeError of `int(None)` with the earlier verdict kept; an answer is judged exactly when Python's `int()` accepts it, and correct exactly when that integer is the solution; no answer changes the tries; the solution in decimal is correct |
| Arithmetics.Game.constructor | arithmetics/__init__.py:30-34 | a new player has zero totals and no trials |
| Arithmetics.Game.PlayGame | arithmetics/__init__.py:99-141 | the in-place `play_game` yields exactly the state and reply of the play function |
| Arithmetics.Game.Answer | arithmetics/__init__.py:133-138 | the in-place `answer` branch yields exactly the answer function |
| Arithmetics.Game.Finish | arithmetics/__init__.py:193-195 | the in-place `before_next_page` yields exactly the finishing function |
| Arithmetics.NextGuards | arithmetics/__init__.py:115-130 | `next` within the trial delay is a RuntimeError and over an unsolved puzzle under `force_solve` a ValueError, both changing nothing; otherwise a puzzle numbered one past the newest (or 1) is appended, stamped with the time, and shown |
| Arithmetics.AnswerAlwaysRetries | arithmetics/__init__.py:133-138 | there is no retry guard: each answer that converts is judged anew on the newest trial and adds a try |
| Arithmetics.AnswerRefused | arithmetics/__init__.py:133-138 | an answer without a trial fails, an empty one is a ValueError that changes nothing, and no refused answer adds a try |
| Arithmetics.PlayKeepsWf | arithmetics/__init__.py:99-141 | every message keeps the trials numbered 1, 2, ..., with a verdict exactly on the trials that have a try (an answer need not remain: a later `null` clears it) |
| Arithmetics.VerdictsTried | arithmetics/__init__.py:90-96 | when verdicts sit exactly on the tried trials, correct and incorrect together are the tried trials; neither they nor the answered trials exceed the total |
| Arithmetics.FinishPayoff | arithmetics/__init__.py:193-195 | the totals count the trials and the answered ones, and the payoff is correct less incorrect, between minus and plus the number of tried trials, at most the total; it is not bounded by the answered count |
| Arithmetics.NulledAnswerKeepsVerdict | arithmetics/__init__.py:82-96 | answering 42 to a puzzle whose solution is 42 and then `null` is a TypeError that leaves the trial unanswered but correct, so the page counts 0 answered, 1 correct and a payoff of 1 |
| Auction.Encode | demo_multiplayer_N/__init__.py:59-66 | the encoded record carries both bids, both bidders as "Player n" texts and the next bid, the top bid plus the increment of 10 |
| Auction.RespondMeans | demo_multiplayer_N/__init__.py:69-83 | a missing input is a KeyError; a bid is accepted exactly when there is no top bid yet or it exceeds the top bid; a refused bid changes nothing and answers "invalid bid"; an accepted one makes the bidder top bidder, moves an existing top bid and bidder to second place and answers with the encoded record |
| Auction.AcceptedBidRaises | demo_multiplayer_N/__init__.py:73-80 | once a top bid exists, an accepted bid is strictly higher than it |
| Auction.StatusMeans | demo_multiplayer_N/__init__.py:86-98 | the top bidder ranks 1 and may not bid, the second bidder ranks 2, anyone else has no rank and may bid |
| Auction.BidderWaits | demo_multiplayer_N/__init__.py:69-98 | right after an accepted bid its bidder ranks first and is inactive |
| Auction.InitialWf | demo_multiplayer_N/__init__.py:34-48 | the record created for a group is ordered and gives no player a rank |
| Auction.RespondKeepsWf | demo_multiplayer_N/__init__.py:69-83 | while bids are not negative, every response keeps the second bid below the top bid and each nonzero bid with its bidder |
| Auction.NegativeBidsUnorder | demo_multiplayer_N/__init__.py:73-80 | negative bids of -5, 0 and -100 leave a second bid above the top bid |
| Auction.Auction.constructor | demo_multiplayer_N/__init__.py:45-48 | the new record has both bids 0 and no bidders |
| Auction.Auction.ValidateResponse | demo_multiplayer_N/__init__.py:69-83 | the in-place update produces exactly the new record and reply of the response function |
| Colors.GeneratePuzzle | colors/__init__.py:80-84 | a new puzzle has an ink colour and a colour name from the list, the ink as its solution, no answer yet, with round and iteration still 0 |
| Colors.CheckAnswerMeans | colors/__init__.py:101-106 | an empty or `None` answer is a ValueError that stores nothing; any other answer is stored and is correct exactly when it is the ink colour's name, in the same case |
| Colors.LastTrial | colors/__init__.py:94-98 | the last trial exists exactly when the player has trials, and is the newest |
| Colors.SummarizeBounds | colors/__init__.py:109-121 | correct and incorrect trials together are at most all trials |
| Colors.FinishSpec | colors/__init__.py:251-255 | recording the totals leaves the trials alone |
| Colors.Game.constructor | colors/__init__.py:45-54 | a new player has zero totals and no trials |
| Colors.Game.PlayGame | colors/__init__.py:127-195 | the in-place `play_game` yields exactly the state and reply of the play function |
| Colors.Game.Next | colors/__init__.py:150-172 | the in-place `next` branch yields exactly the `next` function |
| Colors.Game.Answer | colors/__init__.py:175-192 | the in-place `answer` branch yields exactly the answer function |
| Colors.Game.Finish | colors/__init__.py:251-255 | the in-place `before_next_page` yields exactly the finishing function |
| Colors.NextGuards | colors/__init__.py:150-172 | the first `next` always serves a puzzle; later ones are RuntimeErrors that change nothing too early, over an unsolved puzzle under `force_solve` or an unanswered one without `allow_skip`, end the game at the last iteration, and otherwise serve a puzzle |
| Colors.NextNumbers | colors/__init__.py:161-172 | a served puzzle is appended, numbered one past the newest (or 1), stamped with the time and unanswered, and the player's iteration follows it |
| Colors.AnswerGuards | colors/__init__.py:175-192 | an answer without a trial, a re-answer without `force_solve` or a retry within the retry delay is a RuntimeError that changes nothing; an answer is accepted exactly when none of these applies and it is not empty, and then changes only the newest trial, storing it, its verdict, the time and one more retry |
| Colors.UnknownMessage | colors/__init__.py:195 | any other message is a ValueError and changes nothing |
| Colors.PlayKeepsWf | colors/__init__.py:127-195 | every message keeps the trials numbered 1, 2, ... with the ink as solution and an answer exactly when answered with a time and a retry, and with `num_iterations` set never serves more puzzles than it allows |
| Colors.FinishRecords | colors/__init__.py:251-255 | the player's total becomes the number of trials, with correct and incorrect together at most that, and the iteration kept |
| DemoPuzzleLive.ActionParts | demo_puzzle_live/__init__.py:186 | the moves are written one decimal text per move |
| DemoPuzzleLive.SolvedFree | common/puzzle_utils.py:15-19 | on the solved 3 x 3 board the empty cell is the last one |
| DemoPuzzleLive.ShuffleNeverFails | demo_puzzle_live/__init__.py:97-98 | on the 3 x 3 board every cell has a neighbour, so the shuffle always passes |
| DemoPuzzleLive.GeneratedTrial | demo_puzzle_live/__init__.py:93-110 | a new trial's puzzle is the solved board after exactly difficulty valid moves, a permutation of the pieces; it starts with no actions, its current board the puzzle, at the player's difficulty and iteration, open |
| DemoPuzzleLive.GetTrial | demo_puzzle_live/__init__.py:113-118 | the result is the first trial of the current iteration, or None exactly when there is none |
| DemoPuzzleLive.FirstOf | demo_puzzle_live/__init__.py:115-118 | searching from an index past which no match lies finds the first match, or None exactly when none exists |
| DemoPuzzleLive.JoinCommas | demo_puzzle_live/__init__.py:141 | a list of numbers joined by ", " has one comma fewer than it has numbers |
| DemoPuzzleLive.MovesReported | demo_puzzle_live/__init__.py:134-142 | the progress reports 1 move for the empty list "[]" and otherwise the number of moves made |
| DemoPuzzleLive.DifficultyRule | demo_puzzle_live/__init__.py:155-160 | after a solved trial the difficulty rises by one, after another trial it falls by one only while above 1, with no trial it stays; from 1 or more it never falls below 1 |
| DemoPuzzleLive.OnMoveMeans | demo_puzzle_live/__init__.py:169-207 | a move the board refuses changes nothing and answers moveInvalid; an accepted move slides the tile into the empty cell, records the move, judges the board solved or not, completes the trial when solved or when the moves reach the difficulty, counts a completed trial once more as solved or failed, and reports the verdict, completion and board |
| DemoPuzzleLive.OnTimeoutMeans | demo_puzzle_live/__init__.py:210-224 | a timeout marks the trial timed out and completed with the board's verdict, counts one more trial, solved exactly when the board is solved and failed otherwise, and reports the response as incorrect |
| DemoPuzzleLive.Ended | demo_puzzle_live/__init__.py:193-199 | a count of completed trials with a verdict is at most the number of trials |
| DemoPuzzleLive.EndedUpdate | demo_puzzle_live/__init__.py:193-199 | replacing one trial changes the count by that trial's own change |
| DemoPuzzleLive.EndedAppend | demo_puzzle_live/__init__.py:193-199 | a new trial adds its own verdict to the count |
| DemoPuzzleLive.PuzzleBoardHasFree | common/puzzle_utils.py:43-44 | a board that permutes the solved board has an empty cell, so findFreeCell finds one |
| DemoPuzzleLive.OnLoadKeepsWf | demo_puzzle_live/__init__.py:152-166 | on_load appends the next iteration's trial as the current one and keeps the state well formed: the iteration equals the number of trials, numbered from 1, each board a permutation of the pieces, the difficulty at least 1 and the counters equal to the trials' outcomes |
| DemoPuzzleLive.AppendKeepsWf | demo_puzzle_live/__init__.py:162-163 | appending an open trial of the next iteration keeps the state well formed and makes it current |
| DemoPuzzleLive.OnMoveKeepsWf | demo_puzzle_live/__init__.py:169-207 | a move on an open trial keeps the state well formed |
| DemoPuzzleLive.OnTimeoutKeepsWf | demo_puzzle_live/__init__.py:210-224 | a timeout on an open trial keeps the state well formed |
| DemoPuzzleLive.Game.constructor | demo_puzzle_live/__init__.py:34-48 | a player starts at iteration 0 with the initial difficulty, zero counters and no trials, a well-formed state |
| DemoPuzzleLive.Game.OnLoad | demo_puzzle_live/__init__.py:152-166 | on_load computes its specification |
| DemoPuzzleLive.Game.OnMove | demo_puzzle_live/__init__.py:169-207 | on_move computes its specification |
| DemoPuzzleLive.Game.OnTimeout | demo_puzzle_live/__init__.py:210-224 | on_timeout computes its specification |
| DemoStimuli.PregeneratedTrials | demo_stimuli/__init__.py:104-124 | with both pools non-empty the trials are iterations 1 to 5 of the round in order, each prime and target a row of its pool, congruent exactly when their categories agree, all open; an empty pool is an IndexError |
| DemoStimuli.ValidatePrefix | demo_stimuli/__init__.py:159-165 | the first n turns of the loop keep the number of trials and leave the later trials untouched |
| DemoStimuli.FailureStays | demo_stimuli/__init__.py:159-165 | once a turn fails the loop is over and the later turns change nothing |
| DemoStimuli.ValidateStepMeans | demo_stimuli/__init__.py:159-165 | a turn passes exactly when the result is a dict whose i equals the trial's iteration and that has an input (otherwise a TypeError, KeyError or AssertionError); the trial is then completed, records the input and retries, is timed out exactly when rt is missing or null, has no verdict exactly for a null input and is correct exactly when the input is the target category |
| DemoStimuli.ValidatePrefixMeans | demo_stimuli/__init__.py:154-165 | when every turn passes, each of the first n trials is the result of its own turn |
| DemoStimuli.Completed | demo_stimuli/__init__.py:168-170 | what remains after clean-up is at most all trials and every one is completed |
| DemoStimuli.CompletedMeans | demo_stimuli/__init__.py:168-170 | clean-up keeps exactly the completed trials; all completed leaves them all, none completed leaves none |
| DemoStimuli.CountEnded | demo_stimuli/__init__.py:173-182 | a count of completed trials with a given verdict is at most the number of trials |
| DemoStimuli.CountsCover | demo_stimuli/__init__.py:173-182 | among completed trials every one is solved, failed or skipped, so the three counts add up to their number |
| DemoStimuli.BatchOutcome | demo_stimuli/__init__.py:212-218 | the results field is emptied; after a batch that validates on unplayed trials, the trials kept are exactly those matched with a result, each the result of its turn, num_trials is the number of results and the three outcome counts add up to the matched trials |
| DemoStimuli.CompletedOfSplit | demo_stimuli/__init__.py:168-170 | when the first n trials are completed and the rest not, clean-up keeps exactly the first n |
| DemoStimuli.Game.constructor | demo_stimuli/__init__.py:43-59 | a player starts with zero counters, an empty results field and the pregenerated trials |
| DemoStimuli.Game.ValidateTrials | demo_stimuli/__init__.py:154-165 | validate_trials computes its specification |
| DemoStimuli.Game.CleanupTrials | demo_stimuli/__init__.py:168-170 | clean-up leaves exactly the completed trials in order and the player unchanged |
| DemoStimuli.Game.UpdateStats | demo_stimuli/__init__.py:173-182 | calc_stats sets the counters from the trials and changes no trial |
| DemoStimuli.Game.BeforeNextPage | demo_stimuli/__init__.py:212-218 | before_next_page computes its specification |
| DemoTrials.GetTrial | demo_trials/__init__.py:116-121 | the result is the first trial of the current iteration, or None exactly when there is none |
| DemoTrials.FirstOf | demo_trials/__init__.py:118-121 | searching from an index past which no match lies finds the first match, or None exactly when none exists |
| DemoTrials.GeneratedTextAccepted | demo_trials/__init__.py:101-113 | a trial shows three characters of the charset at the current iteration, open with no retries, and its text is accepted as a response both as shown and in lower case |
| DemoTrials.ValidateMeans | demo_trials/__init__.py:130-137 | no response leaves response and verdict unset; otherwise the response is stored stripped and lower-cased and is correct exactly when that equals the solution; nothing else changes |
| DemoTrials.AnswerOutcome | demo_trials/__init__.py:167-187 | the reaction time is stored; a timeout marks the trial and submits nogo_answer; no effective input completes the trial as skipped without a retry; a response adds a retry, is validated, and completes the trial exactly when correct, on a timeout or at max_retries |
| DemoTrials.Ended | demo_trials/__init__.py:188-196 | no more trials end with an outcome than exist |
| DemoTrials.EndedUpdate | demo_trials/__init__.py:188-196 | replacing one trial changes each outcome count by that trial's own change |
| DemoTrials.EndedAppend | demo_trials/__init__.py:188-196 | a new trial adds its own outcome to the count |
| DemoTrials.CurrentIsLast | demo_trials/__init__.py:140-148 | in a well-formed state the current trial is the last one, and the progress reports the number of trials as current and solved plus failed plus skipped as completed, with retries exactly when a trial exists |
| DemoTrials.OnLoadKeepsWf | demo_trials/__init__.py:158-164 | on_load advances the iteration and appends its trial as the current one, keeping the state well formed: the iteration equals the number of trials, numbered from 1, and each counter equals its outcome count |
| DemoTrials.OnInputKeepsWf | demo_trials/__init__.py:167-202 | on an open trial, on_input counts one more completed trial exactly when the feedback is final, together with exactly the counter of its outcome, and keeps the state well formed |
| DemoTrials.Game.constructor | demo_trials/__init__.py:60-74 | a new player has zero counters at iteration 0 and no trials, a well-formed state |
| DemoTrials.Game.OnLoad | demo_trials/__init__.py:158-164 | on_load computes its specification |
| DemoTrials.Game.OnInput | demo_trials/__init__.py:167-202 | on_input computes its specification |
| DemoTrialsLive.PregeneratedTrials | demo_trials_live/__init__.py:67-80 | with both pools non-empty there are 10 trials numbered 1 to 10, open and unjudged, each prime from the prime pool and each target the image path of a target row, congruent exactly when the categories agree; an empty pool fails |
| DemoTrialsLive.GetProgress | demo_trials_live/__init__.py:116-118 | the progress reports 10 trials in total, the given iteration and the completed count |
| DemoTrialsLive.ValidateResponseMeans | demo_trials_live/__init__.py:121-140 | only trial k changes; the call fails with a KeyError exactly when there is no timeout and no input, leaving the count; otherwise the trial and the count are completed and the reply final; a timeout marks the trial timed out without verdict; a response is stored and successful exactly when it equals the target category |
| DemoTrialsLive.CompletedCount | demo_trials_live/__init__.py:135 | no more trials are completed than exist |
| DemoTrialsLive.CompletedUpdate | demo_trials_live/__init__.py:135 | replacing one trial changes the completed count by that trial's own change |
| DemoTrialsLive.ValidateKeepsWf | demo_trials_live/__init__.py:121-140 | answering an open trial keeps num_completed equal to the number of completed trials |
| DemoTrialsLive.NoneCompleted | demo_trials_live/__init__.py:52 | trials that are all open count zero completed |
| DemoTrialsLive.Game.constructor | demo_trials_live/__init__.py:83-95 | a player starts with no completed trial and the pregenerated trials, a well-formed state |
| DemoTrialsLive.Game.ValidateResponse | demo_trials_live/__init__.py:121-140 | validate_response computes its specification |
| Page.ResetFlags | _static/otree-front-1.0.0.js:1177-1184 | a reset phase is display null and inputs disabled, overridden by the given flags and holding exactly their keys besides those two; no flags give just the initial two |
| Page.Toggled | _static/otree-front-1.0.0.js:1195-1198 | toggling gives the given flags their new values and keeps every other flag, with no other key |
| Page.Page.constructor | _static/otree-front-1.0.0.js:1001-1018 | a new page has been reset: its phase is display null with inputs disabled, and it has emitted exactly one phase event, that reset with _resetting |
| Page.Page.SwitchDisplay | _static/otree-front-1.0.0.js:1168-1170 | switching the display emits a phase event with the display name and _switching, and leaves the phase as it was |
| Page.Page.ResetPhase | _static/otree-front-1.0.0.js:1177-1184 | the phase becomes the reset flags and one event carrying them with _resetting is signalled |
| Page.Page.TogglePhase | _static/otree-front-1.0.0.js:1195-1198 | the phase becomes the toggled flags and only the changes are signalled |
| Page.Page.FreezeInputs | _static/otree-front-1.0.0.js:1144-1146 | inputs are disabled by a signal with _freezing, the phase untouched |
| Page.Page.UnfreezeInputs | _static/otree-front-1.0.0.js:1156-1159 | inputs are re-enabled by a signal exactly when the phase enables them, otherwise nothing is signalled; the phase is untouched |
| Page.ToggleKeepsDisplay | _static/otree-front-1.0.0.js:1186-1198 | toggling flags without display keeps display as it was |
| Page.ResetDisablesInputs | _static/otree-front-1.0.0.js:1177-1184 | after a reset inputs are enabled exactly when the given flags enable them |
| Page.ToggleDecidesUnfreeze | _static/otree-front-1.0.0.js:1148-1159 | after a toggle that sets inputEnabled, a pending unfreeze goes through exactly when the toggle enabled inputs |
| Changes.PrefixAll | _static/otree-front-1.0.0.js:122-124 | every key becomes prefix.key, with its value and order kept |
| Changes.ValidateAll | _static/otree-front-1.0.0.js:126 | construction passes exactly when every key is valid, and otherwise throws |
| Changes.NewChangesKeys | _static/otree-front-1.0.0.js:120-127 | a changeset is built exactly when every prefixed key is a well-formed reference, and then holds every entry under its prefixed key, keys distinct; otherwise it throws |
| Changes.Affecting | _static/otree-front-1.0.0.js:153 | the affecting keys are, in insertion order, exactly those that include the reference |
| Changes.AffectsMeaning | _static/otree-front-1.0.0.js:139-141 | affects holds exactly when some key equals the reference or is a parent of it |
| Changes.NestedKeyDoesNotAffectParent | _static/otree-front-1.0.0.js:139-141 | a changed nested field does not affect its parent reference |
| Changes.Pick | _static/otree-front-1.0.0.js:152-165 | with no affecting key pick is undefined, with several it throws, and with one equal to the reference it is that key's value |
| Changes.Patch | _static/otree-front-1.0.0.js:184-188 | patching applies every change in turn to the target, and stops at the first that throws |
| Changes.UpdateKeepsDisjoint | _static/otree-front-1.0.0.js:76-92 | an update leaves the value of a disjoint reference as it was |
| Changes.PatchKeepsDisjoint | _static/otree-front-1.0.0.js:184-188 | a successful patch leaves a reference disjoint from every key as it was |
| Changes.PatchSetsEveryKey | _static/otree-front-1.0.0.js:184-188 | after a successful patch with non-overlapping keys every key extracts to its new value |
| Changes.PickAgreesWithPatch | _static/otree-front-1.0.0.js:152-188 | with non-overlapping keys and exactly one affecting the reference, pick reports what the patched state holds at the reference |
| Timers.CancelStep | _static/otree-front-1.0.0.js:405-408 | cancelling names is cancelling the first, then the rest from the table without it |
| Timers.CancelNamesLookup | _static/otree-front-1.0.0.js:403-408 | after cancelling names none of them has a timer and every other name keeps its own; names stay unique |
| Timers.CancelLoop | _static/otree-front-1.0.0.js:405-408 | the forEach loop computes the table left and the ids cleared |
| Timers.Timers.constructor | _static/otree-front-1.0.0.js:380-382 | a new table is empty and nothing was started or cleared |
| Timers.Timers.Delay | _static/otree-front-1.0.0.js:391-396 | delay under a name clears the timer already there, if any, starts the new one and makes the name map to its id alone |
| Timers.Timers.Cancel | _static/otree-front-1.0.0.js:403-413 | cancel with names removes exactly those and clears their timers; with no names it clears every timer and empties the table; nothing is started |
| Timers.Timers.CancelEach | _static/otree-front-1.0.0.js:405-408 | the given names are cancelled one after another |
| Timers.Timers.CancelAll | _static/otree-front-1.0.0.js:410-411 | every running timer is cleared and the table emptied |
| Ref.Split | _static/otree-front-1.0.0.js:63 | split never returns an empty list and no part contains the separator |
| Ref.JoinSplit | _static/otree-front-1.0.0.js:63 | joining the parts of a split with dots gives back the reference |
| Ref.SplitConcat | _static/otree-front-1.0.0.js:63 | the keys of p.s are the keys of p followed by those of s |
| Ref.ValidateMeansWellFormed | _static/otree-front-1.0.0.js:9-19 | validation passes exactly for non-empty references of dot-separated word keys whose first key starts with a letter and has at least two characters |
| Ref.IncludesNeedsDot | _static/otree-front-1.0.0.js:30-32 | a reference never includes a longer one that merely extends its spelling, as foo and foobar |
| Ref.Strip | _static/otree-front-1.0.0.js:43-51 | strip succeeds exactly when the parent includes the nested reference, giving "" for equal ones and otherwise the rest after parent. ; any other pair throws |
| Ref.StripAppended | _static/otree-front-1.0.0.js:43-51 | stripping an appended suffix gives it back |
| Ref.PrefixKeysIncluded | _static/otree-front-1.0.0.js:30-32 | references whose key lists are in prefix relation are related by includes |
| Ref.ArrayIndex | _static/otree-front-1.0.0.js:63 | a key names an array index exactly when it is the decimal text of an index below the length |
| Ref.ArrayIndexDistinct | _static/otree-front-1.0.0.js:63 | distinct keys name distinct indices |
| Ref.WalkUndefined | _static/otree-front-1.0.0.js:63 | extracting through undefined gives undefined |
| Ref.WalkConcat | _static/otree-front-1.0.0.js:63 | walking a+b walks a, then b from where a ended |
| Ref.SetThenWalk | _static/otree-front-1.0.0.js:76-92 | after a successful update with a value, walking to the field gives that value |
| Ref.SetLengthFails | _static/otree-front-1.0.0.js:76-92 | writing below a number always throws |
| Ref.UpdateThenExtract | _static/otree-front-1.0.0.js:62-92 | after update(data, ref, v) with v defined, extract(data, ref) is v |
| Ref.SetDeleteWalk | _static/otree-front-1.0.0.js:87-88 | after a successful deletion the field no longer extracts to a value |
| Ref.NumberHasNoFields | _static/otree-front-1.0.0.js:63 | any key walked from a number gives undefined or throws |
| Ref.SetNumberUnchanged | _static/otree-front-1.0.0.js:87-88 | deleting a field of a number leaves the number as it was |
| Ref.UpdateThenDeleted | _static/otree-front-1.0.0.js:62-92 | after update(data, ref, undefined) the reference extracts to undefined, or throws |
| Ref.AssignKeepsOther | _static/otree-front-1.0.0.js:87-91 | assigning or deleting a field leaves every other key as it was |
| Ref.SetKeepsOtherKey | _static/otree-front-1.0.0.js:85-91 | updating below a key leaves every other top-level key as it was |
| Ref.WalkAgrees | _static/otree-front-1.0.0.js:63 | walks that agree on their first step agree |
| Ref.SetKeepsSiblings | _static/otree-front-1.0.0.js:76-92 | an update leaves every path that neither contains nor lies inside the updated one as it was |
| Ref.Descend | _static/otree-front-1.0.0.js:85-86 | the descent along the object path, creating missing keys as {}, reaches the value whose change the frames rebuild into the update's result, or throws as the update does |
| Ref.Rebuild | _static/otree-front-1.0.0.js:85-91 | putting the changed value back into the frames, innermost first, gives the updated object |
| Ref.JsObject.constructor | _static/otree-front-1.0.0.js:76 | the object holds the given data |
| Ref.JsObject.Update | _static/otree-front-1.0.0.js:76-92 | a successful update changes the data to the update's result; a failing one throws and leaves the data unchanged |
| GenericCore.UpdateStats | generic/core/__init__.py:47-56 | inc is added to num_trials and to num_solved when correct or to num_failed otherwise; the iteration is unchanged |
| GenericCore.UndoReverses | generic/core/__init__.py:47-56 | an update with inc -1 exactly takes back one with inc 1, and the other way round |
| GenericCore.Encode | generic/core/__init__.py:124-138 | a trial without a stimulus has no startswith (AttributeError); an "image:" stimulus gives the static image URL of the rest, otherwise a "font:" stimulus gives a rendering of the rest, otherwise text; the stimulus is always echoed |
| GenericCore.StripCategories | generic/core/__init__.py:253-259 | keys are kept in order and each value becomes the text after its last ':', the whole value when it has none |
| GenericCore.TrialsAt | generic/core/__init__.py:113 | every index found names a stored trial |
| GenericCore.TrialsAtFilters | generic/core/__init__.py:113 | the filter finds exactly the trials of the iteration |
| GenericCore.GetCurrentTrial | generic/core/__init__.py:111-116 | a found current trial is a stored trial |
| GenericCore.CurrentTrialFound | generic/core/__init__.py:111-116 | the trial found is of the player's iteration, None exactly when there is none, and several give the unpacking's ValueError |
| GenericCore.Values | generic/core/__init__.py:87 | the values of the categories, in order |
| GenericCore.InverseKeys | generic/core/__init__.py:94 | the inverse has exactly the configured categories as keys |
| GenericCore.InverseLastWins | generic/core/__init__.py:94 | the inverse maps a category to the last side configured with it |
| GenericCore.MakeTrial | generic/core/__init__.py:96-108 | a row without a stimulus, or whose category no side has, is a KeyError; otherwise the trial has the given iteration, the row's stimulus and category, the category's side as solution and no response |
| GenericCore.Made | generic/core/__init__.py:96-108 | trial j is made from row j for iteration j+1 |
| GenericCore.Game.constructor | generic/core/__init__.py:15-19 | a new player has zero counters at iteration 0 and no trials |
| GenericCore.Game.GenerateAllTrials | generic/core/__init__.py:78-108 | generate_all_trials computes its specification, trials created before a failing row staying created |
| GenericCore.Game.CreateAll | generic/core/__init__.py:96-108 | the loop stores each made trial in turn and the first failing row ends it, the earlier trials kept |
| GenericCore.Game.PlayGame | generic/core/__init__.py:146-250 | the new state and reply are exactly those of the play_game specification |
| GenericCore.Game.New | generic/core/__init__.py:192-215 | the new branch computes its specification |
| GenericCore.Game.Respond | generic/core/__init__.py:217-244 | the response branch computes its specification |
| GenericCore.TrialsAtNumbered | generic/core/__init__.py:113 | when trials are numbered from 1, the filter finds trial it-1 exactly for an iteration within them |
| GenericCore.CurrentTrialWf | generic/core/__init__.py:111-116 | in a well-formed state the lookup never fails and finds the trial of the current iteration when it is in range |
| GenericCore.MessageGuards | generic/core/__init__.py:173-250 | a non-dict message is a TypeError, one without type a KeyError, and any type but load, new and response (cheat included) a RuntimeError, all changing nothing; load changes nothing; response without a current trial is a RuntimeError |
| GenericCore.NewGuards | generic/core/__init__.py:192-202 | new over an unanswered trial or before the trial pause is a RuntimeError changing nothing; otherwise the iteration grows by one, and past num_iterations the game is over with no trial touched |
| GenericCore.NewSends | generic/core/__init__.py:208-215 | before the last trial exactly the next trial is stamped with the time and sent, unless its stimulus is missing |
| GenericCore.New | generic/core/__init__.py:192-215 | new either changes nothing or advances the iteration by one, stamping only the next trial when there is one |
| GenericCore.GameOverPastLast | generic/core/__init__.py:199-202 | asking for the next trial after the last answered one ends the game with the iteration at num_iterations+1 |
| GenericCore.Response | generic/core/__init__.py:217-244 | a second response is a RuntimeError, a missing one a KeyError and an empty or None one a ValueError, all changing nothing; an accepted one stores the response, reaction time, verdict (solution equals response) and time on the trial, updates the stats once and answers with that verdict |
| GenericCore.MissingReaction | generic/core/__init__.py:236-237 | a response without a reaction time is a KeyError that leaves the response stored and counts nothing, so every later response is refused |
| GenericCore.RepliesCarryProgress | generic/core/__init__.py:179-184 | every reply carries its type and the progress of the player as the message leaves it |
| GenericCore.ResponseFrame | generic/core/__init__.py:217-244 | a response changes the current trial alone, and not its iteration or sending time, nor the player's iteration |
| GenericCore.NewKeepsWf | generic/core/__init__.py:192-215 | new keeps the state well formed: trials numbered 1 to num_iterations, every trial up to the current iteration sent |
| GenericCore.ResponseKeepsWf | generic/core/__init__.py:217-244 | a response keeps the state well formed |
| GenericCore.PlayKeepsWf | generic/core/__init__.py:146-250 | every message, accepted or not, keeps the state well formed |
| GenericCore.CountsUpdate | generic/core/__init__.py:47-56 | replacing one trial changes each count by that trial's own change |
| GenericCore.PlayKeepsTally | generic/core/__init__.py:146-250 | every accepted message keeps num_trials, num_solved and num_failed equal to the counts of answered, correct and incorrect trials |
| GenericCore.GenerateRefused | generic/core/__init__.py:84-90 | without num_iterations, or with fewer selected stimuli than iterations, generation is a RuntimeError changing nothing |
| GenericCore.MadeCreated | generic/core/__init__.py:96-108 | at most count trials are created, all of them exactly when nothing failed, trial j made from row j for iteration j+1, of a configured category whose solution is the last side with it |
| GenericCore.GenerateMade | generic/core/__init__.py:87-108 | with enough stimuli the trials created from the shuffled selection are appended to the player's |
| GenericCore.GenerateAllTrials | generic/core/__init__.py:78-108 | generation keeps the player and the earlier trials, creates num_iterations trials when it passes, and trial j is unanswered, unsent, of iteration j+1 and a configured category, its solution the last side with that category |
| GenericCore.GeneratedWf | generic/core/__init__.py:262-281 | for a new player a complete generation gives a well-formed state |
| GenericStimuli.Pool | generic/stimuli.py:58-59 | without a CSV file the pool is empty |
| GenericStimuli.ImageCheckPasses | generic/stimuli.py:47-52 | a row's image checks pass exactly when every header field is present and each "image:" cell names an existing file |
| GenericStimuli.ValidRowsKeeps | generic/stimuli.py:43-54 | loading succeeds exactly when every row passes its checks, and then keeps the rows in order |
| GenericStimuli.PoolIsValid | generic/stimuli.py:34-59 | a loaded pool succeeds exactly when the header has stimulus and category and every row fills both and names existing files in its image cells, and it is then the file's rows in order |
| GenericStimuli.LoadCsv | generic/stimuli.py:34-55 | load_csv computes its specification: the header check, then the row loop |
| GenericStimuli.KeepRows | generic/stimuli.py:43-54 | the row loop computes the rows kept or the first failure |
| GenericStimuli.CheckImages | generic/stimuli.py:47-52 | the loop over header fields computes the row's image check |
| GenericStimuli.FilterByCategoryKeeps | generic/stimuli.py:22-25 | only a row without a category column raises; otherwise the rows kept are, in order, exactly those whose category equals the given one |
| StimuliUtils.SelectIsWhere | generic/stimuli_utils.py:31 | filtering fails exactly when the test raises on some row, and otherwise keeps in order exactly the rows the test accepts |
| StimuliUtils.FilterByCategoryKeeps | generic/stimuli_utils.py:11-31 | only a row without a category column raises (KeyError); otherwise the rows kept are, in order, exactly those whose category is one of the requested |
| StimuliUtils.SelectErrors | generic/stimuli_utils.py:31 | a failed filter fails with an error the test raised on some row |
| StimuliUtils.FieldsMatch | generic/stimuli_utils.py:50-51 | every key is looked up before the conjunction, so a missing key is a KeyError even after a mismatch; otherwise true exactly when every field equals its value |
| StimuliUtils.FilterByFieldsKeeps | generic/stimuli_utils.py:34-53 | without fields the pool is kept; the filter succeeds exactly when every row has every field, and keeps only rows whose fields all equal their values |
| StimuliUtils.SelectAll | generic/stimuli_utils.py:31 | a test accepting every row keeps the whole pool |
| StimuliUtils.RowCheckPasses | generic/stimuli_utils.py:84-88 | a row passes exactly when every required field is present and neither empty nor None; otherwise KeyError or RuntimeError |
| StimuliUtils.After | generic/stimuli_utils.py:89 | with nothing kept yet, the result is the rest of the loop's |
| StimuliUtils.RowsCheckKeeps | generic/stimuli_utils.py:83-90 | the rows are kept in order exactly when each has every required field non-empty |
| StimuliUtils.LoadKeepsRows | generic/stimuli_utils.py:56-90 | load_csv succeeds exactly when every requested field is in the header and every row has every required field (all header fields when none are requested) non-empty, and then returns the rows in order |
| StimuliUtils.HeaderCheckPasses | generic/stimuli_utils.py:75-79 | the header check passes exactly when every requested field is in the header |
| StimuliUtils.LoadCsv | generic/stimuli_utils.py:56-90 | load_csv computes its specification |
| StimuliUtils.CheckHeader | generic/stimuli_utils.py:77-79 | the loop over requested fields computes the header check |
| StimuliUtils.KeepRows | generic/stimuli_utils.py:83-89 | the loop over rows computes the rows kept or the first failure |
| StimuliUtils.CheckRow | generic/stimuli_utils.py:84-88 | the loop over required fields computes the row check |
| IatBlocks.TablesDesign | iat/blocks.py:11-113 | both tables have rounds 1 to 7 with practice exactly in rounds 1, 2 and 5; BLOCKS1 swaps the primary pair from round 5 on keeping the secondary pair in place, BLOCKS2 swaps the secondary pair; BLOCKS is BLOCKS1 |
| IatBlocks.ConfigureSide | iat/blocks.py:125-127 | a configured side has one entry per class of the block side |
| IatBlocks.FailureStays | iat/blocks.py:125-127 | the first failing lookup decides the failure of the whole side |
| IatBlocks.ConfigureSideMeans | iat/blocks.py:125-127 | a side configures exactly when every class is configured with its position in range, and then keeps the classes in order, each named by config[cls][idx-1] |
| IatBlocks.ConfigureMeans | iat/blocks.py:116-129 | configure keeps title and practice flag and names every class of both sides by config[cls][idx-1]; it fails exactly when a class is unconfigured (KeyError) or a position is outside its pair (IndexError) |
| IatBlocks.ErrorKinds | iat/blocks.py:125-127 | a failing side fails with a KeyError or an IndexError only |
| IatBlocks.ConfigureSideLoop | iat/blocks.py:125-127 | the loop over one side computes the side's configuration |
| IatBlocks.Configure | iat/blocks.py:116-129 | configure computes its specification, leaving the block unchanged |
| Iat.RoundsDesign | iat/__init__.py:69-113 | rounds 1 to 7, practice exactly in 1, 2 and 5, every side shows a category; round 5 swaps round 2's secondary pair and has no primary class on its left, rounds 6 and 7 swap the primary pair of rounds 3 and 4 keeping the secondary pair; round 5 equals BLOCKS2's and every other round BLOCKS1's |
| Iat.RoundsShape | iat/__init__.py:69-113 | the table has rounds 1 to 7, practice exactly in 1, 2 and 5, and no empty side |
| Iat.RoundsSwitch | iat/__init__.py:69-113 | round 5 swaps round 2's secondary pair and has no primary class on its left; rounds 6 and 7 swap the primary pair of rounds 3 and 4 and keep their secondary pair |
| Iat.RoundsTables | iat/__init__.py:69-113 | the table is BLOCKS1 except for round 5, which is BLOCKS2's round 5 |
| Iat.SetupSideMeans | iat/__init__.py:128-133 | a side of the set-up names exactly the classes its block side shows, each by config[cls][pos-1], and fails exactly when one of those lookups fails, with a KeyError or IndexError |
| Iat.RoundsUseWholePairs | iat/__init__.py:69-113 | every round shows each pair it uses at both positions |
| Iat.SetupRoundMeans | iat/__init__.py:116-135 | setup_round succeeds exactly for a round of the table whose shown pairs are configured with at least two names, and each corner is then the configured name at the block's position |
| Iat.BlockNames | iat/__init__.py:116-135 | for a block showing whole pairs, both sides set up exactly when their pairs have at least two names, naming each class by its position |
| Iat.SideNames | iat/__init__.py:128-133 | for positions 1 or 2, a side sets up exactly when each shown pair is configured and long enough, naming each class by its position |
| Iat.SetupSideLoop | iat/__init__.py:128-133 | the inner loop over classes computes the side's set-up |
| Iat.SetupRound | iat/__init__.py:116-135 | the nested loops compute setup_round's specification |
| Iat.SetupSideDistinct | iat/__init__.py:128-133 | a set-up side names each class at most once |
| Iat.GenerateQuestionFails | iat/__init__.py:138-162 | question generation fails exactly when the round cannot be set up or the drawn category has no words, always with a lookup error |
| Iat.GenerateQuestionMeans | iat/__init__.py:138-162 | the question is a word of the category shown for its class on the side that is its correct answer; the trial carries the round's practice flag and is unanswered with no tries |
| Iat.LastTrial | iat/__init__.py:165-171 | a found trial is of the player's round and iteration |
| Iat.LastTrialIsLast | iat/__init__.py:165-171 | None exactly when no trial is of that round and iteration; otherwise no later trial is |
| Iat.SolvedBound | iat/__init__.py:174-186 | the answered count is at most the number of trials of the round |
| Iat.SolvedUpdate | iat/__init__.py:174-186 | replacing one trial changes the answered count by that trial's own change |
| Iat.SolvedAppend | iat/__init__.py:174-186 | a new trial adds itself to the answered count |
| Iat.CheckAnswer | iat/__init__.py:197-202 | an empty or missing answer is a ValueError; otherwise the answer is stored and correct exactly when it names the correct side |
| Iat.MessageGuards | iat/__init__.py:241-312 | a round without num_iterations is a KeyError and a message that is neither empty, next nor answer an error, both changing nothing |
| Iat.LoadServes | iat/__init__.py:262-276 | the empty message re-serves the current question unchanged; without one it creates the round's first question at iteration 1 and time now, or fails changing nothing |
| Iat.NextGuards | iat/__init__.py:279-296 | next without a current question or within the trial delay is a RuntimeError changing nothing; game over exactly when max_iter is non-zero and reached; otherwise the iteration advances and one unanswered question with no tries is appended and served |
| Iat.AnswerRecords | iat/__init__.py:299-309 | answer without a current question is a RuntimeError and an empty answer a ValueError, both changing nothing; otherwise the answer and verdict are stored on the current question, and a missing reaction time is a KeyError after that, while with one the tries grow by one and the feedback is the verdict with an updated answered count |
| Iat.StoredQuestionWf | iat/__init__.py:267-292 | a question stored by the empty message or next is a well-formed trial: of a table round, a word of its correct corner's category, unanswered |
| Iat.LoadKeepsWf | iat/__init__.py:262-276 | the empty message keeps every trial well formed |
| Iat.NextKeepsWf | iat/__init__.py:279-296 | next keeps every trial well formed |
| Iat.AnswerKeepsWf | iat/__init__.py:299-309 | answer keeps every trial well formed, the stored verdict matching the answer |
| Iat.PlayKeepsWf | iat/__init__.py:241-312 | every message keeps every trial well formed: a round of the table with its practice flag, a stimulus from the correct corner's category, a verdict exactly when answered that holds exactly when the answer names the correct side, and a reaction time on every tried trial |
| Iat.Game.constructor | iat/__init__.py:29-32 | a new player is at round 1, iteration 1, with no trials |
| Iat.Game.EnterRound | iat/__init__.py:348-352 | entering a round page sets the round and restarts at iteration 0, keeping the trials |
| Iat.Game.PlayGame | iat/__init__.py:241-312 | the new state and reply are exactly those of the play_game specification |
| Iat.Game.Next | iat/__init__.py:279-296 | the next branch computes its specification |
| Iat.Game.Answer | iat/__init__.py:299-309 | the answer branch computes its specification |
| Iat.ClientMessagesRefused | iat/__init__.py:261-312 | as written the page script's load and next messages are ValueErrors that change nothing, its answer is a RuntimeError while no question exists, and an answer to an existing question is a KeyError for want of `reaction` |
| Iat.ServerMessagesPlay | iat/__init__.py:261-309 | with the messages the handler reads, the empty message gives a round without a question its first one, and an answer carrying `reaction` is stored with that reaction time and fed back |
| LdtPriming.Encode | ldt_priming/__init__.py:204-209 | the encoded trial shows the stimulus as target and the prime as `prime.upper()`: the same word up to case, of the same length, with no lower-case letter |
| LdtPriming.Trunc | ldt_priming/__init__.py:265 | Python's `int()` of a float truncates toward zero |
| LdtPriming.UpdateStats | ldt_priming/__init__.py:126-135 | an answer adds one to exactly one of the solved and failed counters, to solved exactly when it is correct, and adds a trial on the first attempt (as written) or on the first answer (corrected) |
| LdtPriming.UndoStats | ldt_priming/__init__.py:138-143 | undoing takes one back from the solved or failed counter and leaves the trial count |
| LdtPriming.UndoAfterUpdate | ldt_priming/__init__.py:126-143 | undoing an update restores the solved and failed counters but keeps the trial added on a first attempt |
| LdtPriming.TrialsAtFilters | ldt_priming/__init__.py:184-189 | the filter finds exactly the trials of that iteration |
| LdtPriming.CurrentTrialFound | ldt_priming/__init__.py:184-189 | the current trial is one of the player's iteration, and none is found exactly when there is none |
| LdtPriming.TimedOut | ldt_priming/__init__.py:285-287 | without an automatic response time the flag is `None`, with 0 it is 0, and otherwise it is true exactly when the time passed exceeds it |
| LdtPriming.MakeTrial | ldt_priming/__init__.py:160-178 | a made trial carries the iteration, the row's cue and target, no response, no sending time and no attempts, and the solution `nonword` exactly for a non-word; a word shows its target, a non-word the mutated target, and only a failed mutation fails |
| LdtPriming.Made | ldt_priming/__init__.py:160-178 | the trials made for the first rows, one per row, for iterations 1 onwards |
| LdtPriming.Game.constructor | ldt_priming/__init__.py:54-58 | a new player has zero counters, iteration 0 and no trials |
| LdtPriming.Game.GenerateAllTrials | ldt_priming/__init__.py:146-181 | the in-place generation yields exactly the state and outcome of the generation function |
| LdtPriming.Game.CreateAll | ldt_priming/__init__.py:160-181 | the loop stores the made trials in turn up to the first failed mutation, which ends it with the trials before it kept |
| LdtPriming.Game.PlayGame | ldt_priming/__init__.py:217-392 | the in-place `play_game` yields exactly the state and reply of the play function, as written |
| LdtPriming.Game.New | ldt_priming/__init__.py:297-318 | the in-place `new` branch yields exactly the state and reply of the `new` function |
| LdtPriming.Game.Respond | ldt_priming/__init__.py:320-360 | the in-place `response` branch yields exactly the state and reply of the response function |
| LdtPriming.Game.Record | ldt_priming/__init__.py:339-360 | the in-place recording of an accepted response yields exactly the recording function |
| LdtPriming.Game.Timeout | ldt_priming/__init__.py:362-386 | the in-place `timeout` branch yields exactly the state and reply of the timeout function |
| LdtPriming.TrialsAtNumbered | ldt_priming/__init__.py:184-189 | when trial `i` has iteration `i + 1`, the trials of an iteration are that one trial, or none outside 1 .. n |
| LdtPriming.CurrentTrialWf | ldt_priming/__init__.py:184-189 | in a well-formed state the current trial is the one of the player's iteration and the time passed can be computed |
| LdtPriming.Dispatch | ldt_priming/__init__.py:276-386 | in a well-formed state each message type reaches its branch, and `response` or `timeout` without a current trial is a RuntimeError that changes nothing |
| LdtPriming.MessageGuards | ldt_priming/__init__.py:243-276 | a message that is no dict or has no type is a ValueError and an unknown type a RuntimeError, changing nothing |
| LdtPriming.Load | ldt_priming/__init__.py:276-295 | `load` reports game over exactly at the last iteration, and otherwise the progress with the current trial and its timeout flag, or only the progress before the first trial |
| LdtPriming.New | ldt_priming/__init__.py:297-318 | `new` over an unanswered trial is a RuntimeError and at the last iteration game over, both changing nothing; otherwise the iteration moves on by one and exactly the next trial gets its sending time and is sent |
| LdtPriming.Response | ldt_priming/__init__.py:320-360 | a retry is refused when retries are off or used up, an empty field or an answer outside the choices is a ValueError, each changing nothing; an accepted answer changes the current trial alone, recording it, its correctness, the time and one more attempt, and is final exactly when attempts are 1, it is correct or the attempts are used up |
| LdtPriming.Timeout | ldt_priming/__init__.py:362-386 | a timeout records the current trial alone as a final timed-out answer with no reaction time, and as written counts a trial when it had no attempt or one attempt |
| LdtPriming.OneTrialKeepsWf | ldt_priming/__init__.py:61-84 | changing one trial but not its iteration, its sending time or the player's iteration keeps the state well formed |
| LdtPriming.ResponseFrame | ldt_priming/__init__.py:320-360 | a response changes the current trial alone, and not its iteration or its sending time |
| LdtPriming.NewKeepsWf | ldt_priming/__init__.py:297-318 | `new` keeps the state well formed |
| LdtPriming.ResponseKeepsWf | ldt_priming/__init__.py:320-360 | a response keeps the state well formed |
| LdtPriming.TimeoutKeepsWf | ldt_priming/__init__.py:362-386 | a timeout keeps the state well formed |
| LdtPriming.HandleCases | ldt_priming/__init__.py:276-392 | every branch either changes nothing or is the `new`, response or timeout step |
| LdtPriming.HandleKeepsWf | ldt_priming/__init__.py:276-392 | every message type keeps a well-formed state well formed |
| LdtPriming.PlayKeepsWf | ldt_priming/__init__.py:217-392 | every message, accepted or not, keeps the state well formed: trial `i` is iteration `i + 1`, the player's iteration is at most the trial count and the last, and every sent trial has its sending time |
| LdtPriming.GenerateRefused | ldt_priming/__init__.py:146-157 | without `num_iterations`, or with a pool smaller than it, generation is a RuntimeError that creates nothing |
| LdtPriming.MadeCreated | ldt_priming/__init__.py:160-181 | at most one trial per row is stored, all of them exactly when no mutation failed, each the one made for its row |
| LdtPriming.GenerateAllTrials | ldt_priming/__init__.py:146-181 | otherwise the trials are appended in order, all of them exactly when generation passes; trial `j` is made from the `j`-th shuffled row for iteration `j + 1`, unanswered, a non-word exactly when drawn so, and otherwise showing its target |
| LdtPriming.GeneratedWf | ldt_priming/__init__.py:146-181 | a complete generation for a new player gives a well-formed state |
| LdtPriming.CountsUpdate | ldt_priming/__init__.py:126-143 | changing one trial moves the answered, solved and failed tallies by that trial's difference only |
| LdtPriming.ResponseOnceKeepsTally | ldt_priming/__init__.py:320-360 | counting a trial when first answered, an accepted response keeps the counters equal to the tallies of the records |
| LdtPriming.TimeoutOnceKeepsTally | ldt_priming/__init__.py:362-386 | counting a trial when first answered, a timeout keeps the counters equal to the tallies |
| LdtPriming.NewKeepsTally | ldt_priming/__init__.py:297-318 | `new` keeps the counters equal to the tallies |
| LdtPriming.PlayOnceKeepsTally | ldt_priming/__init__.py:217-392 | counting a trial once, every accepted message keeps the counters equal to the tallies of the records |
| LdtPriming.TimeoutAfterAnswerCountsTwice | ldt_priming/__init__.py:366-378 | as written, a timeout after one answer counts a single trial twice, breaking the tally |
| LdtPriming.TrialsAt | ldt_priming/__init__.py:186 | every index found names a stored trial |
| LdtPriming.GetCurrentTrial | ldt_priming/__init__.py:184-189 | a found current trial is a stored trial |
| LiveTrials.TrialsAt | common/live_utils.py:188-189 | the filter lists exactly the player's trials of that iteration |
| LiveTrials.DefaultGetTrial | common/live_utils.py:187-194 | the default `get_trial` names a trial of that iteration, gives none exactly when there is no such trial, and otherwise fails only with ValueError when there are several |
| LiveTrials.EncodeFields | common/live_utils.py:200-202 | the default `encode_trial` has exactly the listed fields, failing only with AttributeError |
| LiveTrials.DefaultHooksValid | common/live_utils.py:187-198 | the default lookups only ever name stored trials |
| LiveTrials.DefaultProgressAndNewTrial | common/live_utils.py:196-206 | the default progress is `{"current": iteration}` and the default `new_trial` only looks up a pregenerated trial |
| LiveTrials.PlusOne | common/live_utils.py:230 | Python's `+ 1` succeeds exactly on numbers and booleans, adding one |
| LiveTrials.BumpCurrent | common/live_utils.py:230 | `progress["current"] += 1` increments the counter, is a KeyError without it and a TypeError on a non-dict |
| LiveTrials.OpenTrial | common/live_utils.py:240-245 | the guard passes exactly when the trial of that iteration exists and is open, and otherwise is a RuntimeError unless the lookup itself failed |
| LiveTrials.EncodeAll | common/live_utils.py:360-362 | every listed trial is encoded in order, and the list fails exactly when one encoding fails |
| LiveTrials.LoadIteration | common/live_utils.py:215-231 | `load` resends an open trial and changes nothing; otherwise the iteration moves on by exactly one when a next trial exists, and with none the reply is game over with the previous progress |
| LiveTrials.AnswerGuards | common/live_utils.py:234-274 | `response` and `timeout` never move the iteration, and refuse a message for another iteration, a missing trial or a completed one with a RuntimeError that changes nothing |
| LiveTrials.AnswerStatus | common/live_utils.py:247-291 | a successful reply goes to the player alone and carries `status` exactly when the trial got completed; a timeout reply always carries the trial's status |
| LiveTrials.PreloadedUsesMessageIteration | common/live_utils.py:326-357 | the preloaded handlers look the trial up by the message's iteration whatever the participant's is, never move it, and reply with nothing |
| LiveTrials.TrialPage.constructor | common/live_utils.py:295-299 | `js_vars` starts the participant at iteration 0 |
| LiveTrials.TrialPage.HandleLoad | common/live_utils.py:215-231 | the in-place `load` handler yields exactly the state and reply of the load function |
| LiveTrials.TrialPage.HandleAnswer | common/live_utils.py:234-291 | the in-place `response` and `timeout` handlers yield exactly the state and reply of the answer function |
| LiveTrials.TrialPage.HandlePreloadedAnswer | common/live_utils.py:326-357 | the preloaded `response` and `timeout` handlers yield exactly the preloaded answer function |
| LiveTrials.TrialPage.HandlePreloadedLoad | common/live_utils.py:360-362 | the preloaded `load` sends every trial `get_all_trials` gives, encoded |
| LiveTrials.TrialPage.HandlePuzzleAnswer | common/live_utils.py:385-441 | the puzzle `response` and `timeout` handlers yield exactly the puzzle answer function |
| LiveTrials.TrialPage.Live | common/live_utils.py:72-126 | `live_method` dispatches to the page's handler and delivers its reply exactly as the live function does |
| LiveTrials.PuzzleAnswerMeans | common/live_utils.py:385-441 | the puzzle handlers keep the iteration and the trial guards; a successful reply goes to the player alone and is `validate_response`'s dict with `progress` set and, once the trial is completed, `status` set, every other key kept; a timeout always completes the trial |
| LiveUtils.DefaultMethod | common/live_utils.py:25-33 | the named method is installed only when the class lacks it; every other attribute is kept as it was |
| LiveUtils.DecoratedHandlers | common/live_utils.py:214-445 | a handler the page defines itself always wins; otherwise `load`, `response` and `timeout` come from the decorator used (with `live_puzzles` keeping the trials `load`), and no other handler is added |
| LiveUtils.HandlerFor | common/live_utils.py:72-81 | a message that is no dict with a `type` fails the assertion, a type without a `handle_` method is a NotImplementedError, and otherwise the page's own `handle_<type>` is chosen |
| LiveUtils.BuildSending | common/live_utils.py:85-94 | the loop builds exactly the `sending` dict of the specification function, or its error |
| LiveUtils.MessagesErrPrefix | common/live_utils.py:89-94 | a message that cannot be built fails the recipient's whole list with the same error |
| LiveUtils.SendingErrFrom | common/live_utils.py:87-94 | a failure while building the messages of one recipient fails the whole reply with that error |
| LiveUtils.MessagesKeepNonNull | common/live_utils.py:89-94 | with dict or `None` data, a recipient gets one message per entry whose data is not `None`, in order, each `{"type": t}` updated with the data |
| LiveUtils.ResolveAll | common/live_utils.py:99-103 | each recipient is looked up in turn, keeping its messages; the result fails exactly when some role has no player |
| LiveUtils.ExpandRoles | common/live_utils.py:99-103 | after expansion no recipient is a role and no recipient appears twice; each recipient gets the messages of the last pair that resolves to it (the dict comprehension keeps the last); it fails exactly when some role has no player |
| LiveUtils.ExpandRolesLastWins | common/live_utils.py:99-103 | a recipient no pair resolves to gets nothing; one whose last resolving pair is `i` gets pair `i`'s messages, so two roles held by one player leave it the later role's messages |
| LiveUtils.OthersOf | common/live_utils.py:109-113 | the added recipients are exactly the group members not addressed by name, each with the messages for 0 |
| LiveUtils.ExpandOthers | common/live_utils.py:106-107 | a reply to one recipient, or without 0, is sent as it is |
| LiveUtils.ExpandOthersMeaning | common/live_utils.py:105-114 | otherwise 0 is dropped, addressed recipients keep their own messages, every other group member gets the messages for 0 and nobody else gets any |
| LiveUtils.IdsAll | common/live_utils.py:116-120 | each recipient keeps its messages and becomes its `id_in_group` |
| LiveUtils.ExpandIds | common/live_utils.py:116-120 | after expansion no recipient is a player object and none appears twice; each id gets the messages of the last pair whose recipient has that id |
| LiveUtils.ExpandIdsLastWins | common/live_utils.py:116-120 | an id no recipient has gets nothing; one whose last pair is `i` gets pair `i`'s messages |
| LiveUtils.DeliverToOne | common/live_utils.py:72-126 | a reply to a single recipient reaches exactly that recipient, by id, with its non-`None` messages |
| Matrices.Content | matrices/__init__.py:49 | a random matrix has the requested length and every cell is 0 or 1 |
| Matrices.PuzzleShape | matrices/__init__.py:41-52 | a random puzzle has size*size cells of 0 and 1 and its solution is the number of zeros, between 0 and size*size; a testing puzzle is total_puzzles+size*size-1 long and its solution is also its number of zeros |
| Matrices.LastUnanswered | matrices/__init__.py:81 | a found record is an index into the records |
| Matrices.LastUnansweredIsLast | matrices/__init__.py:81 | the result is the last record without an answer, and an IndexError exactly when every record has an answer |
| Matrices.Game.constructor | matrices/__init__.py:34-36 | a new player has zero counters and no records |
| Matrices.Game.PlayCaptcha | matrices/__init__.py:70-115 | the new state and reply are exactly those of the play_captcha specification |
| Matrices.StartAndUnknown | matrices/__init__.py:70-96 | start appends one puzzle at iteration 0 leaving the solved count; a message with neither start nor answer is a ValueError changing nothing |
| Matrices.AnswerMeans | matrices/__init__.py:74-93 | an answer goes to the newest unanswered record; a conversion error is returned; a skip stores "" as skipped and incorrect; otherwise the converted number is stored, correct exactly when it equals the solution, and total_solved grows by one exactly when correct |
| Matrices.AnswerWithoutPuzzle | matrices/__init__.py:81 | an answer when every record is answered is an IndexError that changes nothing |
| Matrices.CountsUpdate | matrices/__init__.py:54-67 | replacing one record changes the solved and unanswered counts by that record's own change |
| Matrices.PlayKeepsTally | matrices/__init__.py:70-115 | every message keeps the counters equal to the records' counts; an accepted one adds one record; an answer keeps the number of unanswered records and start adds one |
| NonwordUtils.LongestIsLongest | ldt_core/nonword_utils.py:118-126 | the chosen alternative is a listed cluster that no other listed cluster starting at that position outgrows, and none is chosen only where no non-empty cluster starts |
| NonwordUtils.MatchIsLongestOfClass | ldt_core/nonword_utils.py:118-126 | a matched fragment is a longest vowel cluster at its position, or a longest consonant cluster where no vowel cluster starts; nothing matches only where no cluster starts |
| NonwordUtils.SplitJoins | ldt_core/nonword_utils.py:129-137 | joining the split fragments gives back the text |
| NonwordUtils.SplitNonEmpty | ldt_core/nonword_utils.py:129-132 | no fragment is empty |
| NonwordUtils.FragmentizeRoundTrip | ldt_core/nonword_utils.py:129-137 | `wordize(fragmentize_word(w))` is `w.lower()`, and no fragment is empty |
| NonwordUtils.CountClass | ldt_core/nonword_utils.py:140-142 | the count is at most the number of fragments |
| NonwordUtils.RStrip | ldt_core/nonword_utils.py:147 | `rstrip` keeps a prefix that does not end in the character and drops only that character |
| NonwordUtils.CountSyllables | ldt_core/nonword_utils.py:145-148 | the syllable count is at most the number of fragments of the stripped word |
| NonwordUtils.SilentE | ldt_core/nonword_utils.py:145-148 | a final `e` adds no syllable |
| NonwordUtils.ClassifyFrag | ldt_core/nonword_utils.py:151-156 | a fragment has a class exactly when it is a vowel or a consonant cluster, and then belongs to it |
| NonwordUtils.RemoveFirst | ldt_core/nonword_utils.py:163 | `list.remove` drops exactly the first occurrence |
| NonwordUtils.RemoveFirstCount | ldt_core/nonword_utils.py:163 | the remaining candidates are the class minus one copy of the fragment |
| NonwordUtils.MutateFrag | ldt_core/nonword_utils.py:159-165 | an unclassified fragment fails the assertion; otherwise the replacement is a cluster of the same class, and it is the fragment itself only when the class lists it twice |
| NonwordUtils.AuMapsToItself | ldt_core/nonword_utils.py:16-56 | `au` is listed twice among the vowel clusters, so it can be replaced by itself |
| NonwordUtils.WordizeSplit | ldt_core/nonword_utils.py:135-137 | joining a fragment list with one fragment replaced is the joins of both sides around the replacement |
| NonwordUtils.MutatedWordReplacesOne | ldt_core/nonword_utils.py:168-177 | a word without fragments is the ValueError of `randint(0, -1)`; otherwise the result is the fragments joined with exactly the chosen one replaced by a cluster of its class, or the assertion failure |
| NonwordUtils.MutateWord | ldt_core/nonword_utils.py:168-177 | the in-place replacement gives exactly the mutated word |
| NonwordUtils.ShuffleWord | ldt_core/nonword_utils.py:180-192 | a word of fewer than four fragments comes back as it is; otherwise the result joins a permutation of its fragments that keeps the first and the last in place |
| NonwordUtils.Longest | ldt_core/nonword_utils.py:118-126 | the alternative chosen at a position is a non-empty cluster that the text starts with |
| NonwordUtils.Match | ldt_core/nonword_utils.py:118-126 | a match at a position is a non-empty fragment that the text starts with |
| NonwordUtils.IndexOf | ldt_core/nonword_utils.py:163 | the index of the first occurrence: it holds the value and no earlier position does |
| DemoPuzzlesLocal.Shuffled | demo_puzzles_local/__init__.py:63-70 | the shuffled target is a permutation of the unshuffled one |
| DemoPuzzlesLocal.TargetCells | demo_puzzles_local/__init__.py:63-70 | the unshuffled target holds `max(difficulty, 0)` filled cells and `max(16 - difficulty, 0)` empty ones |
| DemoPuzzlesLocal.GeneratedPuzzle | demo_puzzles_local/__init__.py:63-70 | a new puzzle starts with 16 empty cells, open and unjudged; for a difficulty from 0 to 16 its target has 16 cells of which exactly `difficulty` are filled, and the out-of-range difficulties give the counts Python's string repetition gives |
| DemoPuzzlesLocal.Filled | demo_puzzles_local/__init__.py:73-76 | filling succeeds exactly for positions Python can index, then sets that one cell and keeps the others; any other position is an IndexError |
| DemoPuzzlesLocal.ValidateCellMeans | demo_puzzles_local/__init__.py:79-83 | an unfilled cell has no verdict, a filled one is right exactly when the target cell is filled, and only an index beyond a string fails, with an IndexError |
| DemoPuzzlesLocal.FillThenValidate | demo_puzzles_local/__init__.py:73-83 | validating a cell just filled reports whether the target has it filled |
| DemoPuzzlesLocal.ValidatedMeans | demo_puzzles_local/__init__.py:86-89 | the cell list is computed exactly when the matrix is long enough, has one verdict per cell, and counts as many right cells as the matrix and target share |
| DemoPuzzlesLocal.ValidatePuzzleMeans | demo_puzzles_local/__init__.py:86-89 | the puzzle can be validated exactly when the matrix has 16 cells, and it is solved exactly when the cells filled in both number `difficulty`, whatever else is filled |
| DemoPuzzlesLocal.JoinCells | demo_puzzles_local/__init__.py:143 | `"".join` of one-character strings gives those characters |
| DemoPuzzlesLocal.ValidateResponseMeans | demo_puzzles_local/__init__.py:140-159 | a missing `solution` is a KeyError that changes nothing; an accepted answer stores the joined matrix, completes only that puzzle with its verdict, marks it skipped exactly when no cell is filled, counts it as completed and, when right, as solved |
| DemoPuzzlesLocal.EndedUpdate | demo_puzzles_local/__init__.py:48-60 | replacing one puzzle changes the count of ended puzzles by that puzzle's difference only |
| DemoPuzzlesLocal.EndedAppend | demo_puzzles_local/__init__.py:127-128 | appending a puzzle adds its own share to the count of ended puzzles |
| DemoPuzzlesLocal.ValidateKeepsWf | demo_puzzles_local/__init__.py:140-159 | a response to an open puzzle keeps the completed and solved counters equal to the numbers of completed and solved puzzles |
| DemoPuzzlesLocal.Game.constructor | demo_puzzles_local/__init__.py:43-45 | a new player has no puzzles and zero counters |
| DemoPuzzlesLocal.Game.NewTrial | demo_puzzles_local/__init__.py:127-128 | a new puzzle generated at the session's difficulty is appended, the counters stay and the invariant is kept |
| DemoPuzzlesLocal.Game.FillCell | demo_puzzles_local/__init__.py:73-76 | filling in place changes exactly that puzzle's matrix as the fill function does, or fails with an IndexError and changes nothing |
| DemoPuzzlesLocal.Game.ValidateResponse | demo_puzzles_local/__init__.py:140-159 | the in-place response yields exactly the state and reply of the response function |
| DemoPuzzlesLocal.JoinItems | demo_puzzles_local/__init__.py:143 | joining fails only with a TypeError, for an item that is not a string |
| PuzzleUtils.InitBoard | common/puzzle_utils.py:15-19 | a new array holding 1 .. `size*size-1` in order with the empty cell last; a size of 0 is the IndexError of emptying the last cell of an empty list |
| PuzzleUtils.DirectionsAreNeighbours | common/puzzle_utils.py:22-41 | on a board the listed positions are exactly the cells one row or one column away |
| PuzzleUtils.DirectionsOnBoard | common/puzzle_utils.py:22-41 | every listed position of a cell on the board is on the board |
| PuzzleUtils.DirectionsSymmetric | common/puzzle_utils.py:22-41 | one cell is listed beside another exactly when the other is listed beside it |
| PuzzleUtils.DirectionsCount | common/puzzle_utils.py:22-41 | on a board of side at least 2 every cell has between 2 and 4 neighbours |
| PuzzleUtils.MoveCell | common/puzzle_utils.py:48-50 | the array afterwards is the board with the tile of `src` at `dst` and `src` empty |
| PuzzleUtils.FindFreeCell | common/puzzle_utils.py:44-45 | the result is the first empty cell, or the ValueError of `list.index` when there is none |
| PuzzleUtils.ValidateMoveMeaning | common/puzzle_utils.py:64-67 | a move to a cell on the board is valid exactly when that cell is empty and adjacent to `src` |
| PuzzleUtils.MoveKeepsCells | common/puzzle_utils.py:48-67 | a valid move keeps the board a puzzle board (same cells, one empty), moves the tile to `dst` and leaves `src` empty |
| PuzzleUtils.ApplyMoves | common/puzzle_utils.py:70-79 | the in-place loop leaves the board and reports the outcome exactly as the applying function gives, starting from the empty cell or failing when the board has none |
| PuzzleUtils.ApplySplit | common/puzzle_utils.py:70-79 | applying `m1 + m2` is applying `m1` and then, unless a move of `m1` was refused, `m2` |
| PuzzleUtils.ApplyKeepsBoard | common/puzzle_utils.py:70-79 | applied moves keep the board a puzzle board with the empty cell tracked, refuse only with ValueError, and leave the empty cell at the last moved position |
| PuzzleUtils.Exclude | common/puzzle_utils.py:58 | a position survives the filter exactly when it is a neighbour and not the excluded one |
| PuzzleUtils.ShuffleOnce | common/puzzle_utils.py:56-61 | one in-place step picks a neighbour and moves it, leaving the board as the shuffle function's first step does |
| PuzzleUtils.ShuffleBoard | common/puzzle_utils.py:53-61 | the in-place shuffle leaves the board exactly as the shuffle function gives |
| PuzzleUtils.ShuffleIsValidMoves | common/puzzle_utils.py:53-79 | on a board of side at least 2 the shuffle makes one move per pick, and it is exactly `applyMoves` of those moves |
| PuzzleUtils.ShuffleSingleCell | common/puzzle_utils.py:53-61 | on a 1 x 1 board there is no neighbour, so the first pick is the IndexError of `random.choice` on an empty list |
| PuzzleUtils.ShuffleUndoes | common/puzzle_utils.py:56-61 | as written, a 2 x 2 shuffle of two steps can move a tile and then move it straight back, ending at the solved board |
| PuzzleUtils.ShuffleAvoiding | common/puzzle_utils.py:53-61 | the intended shuffle, which leaves out the cell just vacated, keeps the board's length and the empty cell on the board |
| PuzzleUtils.AvoidingMoves | common/puzzle_utils.py:53-61 | the intended shuffle makes at most one move per random pick |
| PuzzleUtils.AvoidingNeverUndoes | common/puzzle_utils.py:57-58 | in the intended shuffle no move returns the tile just moved |
| PuzzleUtils.AvoidingIsItsMoves | common/puzzle_utils.py:53-79 | the intended shuffle passes exactly when it makes one move per step, and its board is those moves applied |
| PuzzleUtils.AvoidingDoesNotUndo | common/puzzle_utils.py:56-61 | with the same random picks as the failing example, the intended shuffle leaves the 2 x 2 board changed |
| PuzzleUtils.ValidateBoardExactlySolved | common/puzzle_utils.py:82-84 | a board with cells validates exactly when it is the solved board of its length |
| PuzzleUtils.SolvedIsPuzzleBoard | common/puzzle_utils.py:82-84 | the solved board is a puzzle board with one empty cell, and it validates |
| PuzzleUtilsJs.FindFreeCell | demo_puzzle/static/demo_puzzle_utils.js:3-5 | the result is -1 exactly when the board has no empty cell, and otherwise the first empty cell |
| PuzzleUtilsJs.DirectionsAgree | demo_puzzle/static/demo_puzzle_utils.js:10-34 | for every position from 0 up, the browser lists the same neighbours in the same order as the server |
| PuzzleUtilsJs.DirectionsDifferBelowZero | demo_puzzle/static/demo_puzzle_utils.js:10-34 | for position -1 on a 3 x 3 board, JavaScript's `%` gives [-1, -3] where Python gives [2, -2] |
| PuzzleUtilsJs.ValidateMoveAgrees | demo_puzzle/static/demo_puzzle_utils.js:39-44 | on a board of `size*size` cells the browser's move check equals the server's |
| PuzzleUtilsJs.MoveCell | demo_puzzle/static/demo_puzzle_utils.js:49-56 | the new board has `src` empty, the moved tile at `dst` and every other cell unchanged |
| PuzzleUtilsJs.MoveCellAgrees | demo_puzzle/static/demo_puzzle_utils.js:49-56 | the browser's new board equals the server's in-place move |
| PuzzleUtilsJs.ValidateBoard | demo_puzzle/static/demo_puzzle_utils.js:61-65 | one flag per cell: each but the last says the cell holds its tile, the last says it is empty |
| PuzzleUtilsJs.ValidateBoardAgrees | demo_puzzle/static/demo_puzzle_utils.js:61-65 | on a board with cells, every flag is set exactly when the server's `validateBoard` accepts |
| RealEffort.GetTaskModule | real_effort/__init__.py:14-30 | the task is transcription or decoding exactly when the config names it, and the matrix otherwise |
| RealEffort.GetCurrentPuzzle | real_effort/__init__.py:94-98 | the current puzzle is one of the player's iteration, and none is found exactly when there is none |
| RealEffort.PuzzlesAt | real_effort/__init__.py:96 | the filter finds exactly the puzzles of that iteration |
| RealEffort.Game.constructor | real_effort/__init__.py:58-62 | a new player has zero counters, iteration 0 and no puzzles |
| RealEffort.Game.PlayGame | real_effort/__init__.py:120-218 | the in-place `play_game` yields exactly the state and reply of the play function, as written |
| RealEffort.Game.AddPuzzle | real_effort/__init__.py:84-91 | the in-place generation adds exactly the puzzle of the generation function |
| RealEffort.Game.Answer | real_effort/__init__.py:175-216 | the in-place answer branch yields exactly the state and reply of the answer function |
| RealEffort.CurrentIsLast | real_effort/__init__.py:94-98 | when puzzle `i` has iteration `i + 1` and the player is at the last one, the current puzzle is the last |
| RealEffort.NextPuzzle | real_effort/__init__.py:162-172 | `next` over an unanswered puzzle or before the puzzle delay is a RuntimeError that changes nothing; otherwise the iteration moves on by exactly one and one new unanswered puzzle of that iteration is appended |
| RealEffort.AnswerGuards | real_effort/__init__.py:175-216 | an answer without a puzzle, a retry with the attempts used up or before the retry delay are RuntimeErrors, an empty first answer a ValueError, each changing nothing; an accepted answer is stored with one more attempt |
| RealEffort.LoadChangesNothing | real_effort/__init__.py:154-159 | an empty message changes nothing and reports the current puzzle and the progress |
| RealEffort.CountsAppend | real_effort/__init__.py:169-171 | a new unanswered puzzle leaves the correct and failed tallies |
| RealEffort.CountsUpdate | real_effort/__init__.py:197-208 | changing one puzzle moves the correct and failed tallies by that puzzle's difference only |
| RealEffort.AcceptedKeepsTally | real_effort/__init__.py:120-218 | every accepted message keeps `num_correct`, `num_failed` and `num_trials` equal to the tallies of the answered puzzles |
| RealEffort.AnswerFixedKeepsTally | real_effort/__init__.py:175-208 | with the empty-answer check before the undo, every answer, accepted or refused, keeps the counters equal to the tallies |
| RealEffort.EmptyRetryLosesCount | real_effort/__init__.py:185-196 | as written an empty retry undoes the count of an answered puzzle and is then refused, and the next accepted retry undoes it again: a correctly answered puzzle ends with `num_correct` 0 |
| RealEffort.NonStringRetryLosesCount | real_effort/__init__.py:185-199 | as written a retry with a number on a transcription puzzle undoes the count of its correct answer and then fails with AttributeError in `is_correct`, leaving the puzzle correct but `num_correct` 0 |
| Sliders.Matching | sliders/__init__.py:93 | every index found names a puzzle of the requested iteration |
| Sliders.Current | sliders/__init__.py:92-96 | a found current puzzle is a stored puzzle of the player's iteration |
| Sliders.NoneMatching | sliders/__init__.py:93 | when every puzzle belongs to an earlier iteration, none matches |
| Sliders.CountCorrect | sliders/__init__.py:135-136 | at most the counted sliders are on target |
| Sliders.CountAll | sliders/__init__.py:135-137 | all sliders are counted exactly when the values equal the solution |
| Sliders.CountPrefix | sliders/__init__.py:135-136 | with the first k sliders on target and the rest off, exactly k are counted |
| Sliders.HandleResponseMeans | sliders/__init__.py:123-145 | the response fails with an IndexError exactly when the slider index is outside the solution or the values; otherwise the snapped value replaces slider i alone, is correct exactly when it equals the target, and the puzzle's count lies between 0 and the number of sliders and it is solved exactly when every slider is on target |
| Sliders.FixingInOrder | sliders/__init__.py:123-145 | fixing slider k when the earlier sliders are on target and the later ones are not counts k+1 sliders and solves the puzzle exactly at the last slider; a wrong value counts k and leaves it unsolved |
| Sliders.CurrentIsLast | sliders/__init__.py:92-96 | in a well-formed state the lookup never fails and finds the last puzzle exactly when there is one |
| Sliders.LoadAndUnknown | sliders/__init__.py:181-194 | a message without a type is a KeyError; load changes nothing and shows the current puzzle's stored values; cheat shows the solution when debugging and is refused otherwise; an unknown type is a RuntimeError, all changing nothing |
| Sliders.NewGuards | sliders/__init__.py:197-215 | new over an unchecked puzzle is a RuntimeError changing nothing; at the last iteration it reports no iterations left; otherwise the iteration grows by one and a puzzle of that iteration showing its initial values is appended and becomes current |
| Sliders.ValueGuards | sliders/__init__.py:217-240 | value without a puzzle is a RuntimeError, a missing field a KeyError and an unparsable one int()'s error, all changing nothing; otherwise the current puzzle is updated by the response with the response time set, and the reply carries the slider, the snapped value, its verdict and completion |
| Sliders.NewKeepsWf | sliders/__init__.py:197-215 | new keeps the state well formed: puzzle iterations strictly increasing within 1 and the player's iteration, the last one the player's, and on each puzzle a response time, count and verdict present together, the count within the sliders and solved exactly when all are counted |
| Sliders.ValueKeepsWf | sliders/__init__.py:217-240 | value keeps the state well formed |
| Sliders.ReplaceKeepsWf | sliders/__init__.py:140-142 | replacing a puzzle by a well-formed one of the same iteration keeps the state well formed |
| Sliders.PlayKeepsWf | sliders/__init__.py:148-242 | every message keeps the state well formed |
| Sliders.FinishPayoff | sliders/__init__.py:265-271 | with no puzzle the page fails (AttributeError); it succeeds exactly when the current puzzle has a response, and then the payoff and solved sliders are its count, between 0 and the number of sliders, and the elapsed time is response time minus creation time |
| Sliders.Game.constructor | sliders/__init__.py:43-51 | a new player has solved 0 sliders at iteration 0 with no puzzles, a well-formed state |
| Sliders.Game.HandleResponseAt | sliders/__init__.py:123-145 | handle_response on a stored puzzle replaces that puzzle alone by the response's result, or changes nothing on an error |
| Sliders.Game.NewMessage | sliders/__init__.py:197-215 | the new branch computes its specification |
| Sliders.Game.ValueMessage | sliders/__init__.py:217-240 | the value branch computes its specification |
| Sliders.Game.PlayGame | sliders/__init__.py:148-242 | the new state and reply are exactly those of the play_game specification |
| Sliders.Game.Finish | sliders/__init__.py:265-271 | the new state and outcome are exactly those of before_next_page's specification |
| TaskSliders.RandInt | sliders/task_sliders.py:33-38 | randint's result lies between its bounds |
| TaskSliders.FieldsGeometry | sliders/task_sliders.py:16-39 | the image is 904 wide and 28 per slider plus 12 high, with one coordinate, target and initial value per slider, slider i centred at (452, 20+28i) |
| TaskSliders.FieldsPositions | sliders/task_sliders.py:31-38 | every target is a multiple of 8 within 40 of the centre and every initial value a multiple of 8 within 400 |
| TaskSliders.IsCorrect | sliders/task_sliders.py:42-44 | one verdict per slider as far as the shorter of response and solution goes, true exactly where they agree |
| TaskSliders.IsCorrectAll | sliders/task_sliders.py:42-44 | the response equals the solution exactly when it has the solution's length and every verdict is true |
| Symmatrices.Content | symmatrices/__init__.py:48 | a random matrix has the requested length and every cell is one of the eight suit symbols |
| Symmatrices.PuzzleShape | symmatrices/__init__.py:40-51 | a puzzle has size*size suit symbols and its solution is the number of spades among them, between 0 and size*size |
| Symmatrices.TestingShape | symmatrices/__init__.py:44-47 | the testing puzzle is count spades followed by length-1 filler cells, so it holds exactly count spades |
| Symmatrices.Game.constructor | symmatrices/__init__.py:30-34 | a new player has zero counters and no trials |
| Symmatrices.Game.PlayGame | symmatrices/__init__.py:81-136 | the new state and reply are exactly those of the play_game specification |
| Symmatrices.Game.Finish | symmatrices/__init__.py:185-187 | the new state is the summarised one with the payoff set |
| Symmatrices.NextGuards | symmatrices/__init__.py:97-118 | next within the trial delay is a RuntimeError and over an unsolved puzzle under force_solve a ValueError, both changing nothing; in testing mode it fails; an accepted next appends one unanswered trial with the following iteration, a size*size matrix and its spade count as solution |
| Symmatrices.BogusAnswerAccepted | symmatrices/__init__.py:120-133 | an answer that int() cannot convert is still stored, judged incorrect and counted as a try |
| Symmatrices.AnswerCounts | symmatrices/__init__.py:120-133 | None, lists and dicts are a TypeError changing nothing; with no trial the answer fails; an accepted answer changes only the last trial, adds one try, stores the answer and is correct exactly when it converts to the solution |
| Symmatrices.PlayKeepsWf | symmatrices/__init__.py:81-136 | every message keeps the trials well formed (iterations numbered from 1, verdicts only on answered trials) |
| Symmatrices.VerdictsAnswered | symmatrices/__init__.py:72-78 | when verdicts exist only on answered trials, correct plus incorrect is at most answered, which is at most total |
| Symmatrices.FinishPayoff | symmatrices/__init__.py:185-187 | total is the number of trials, answered the number with an answer, the payoff the number correct, and correct plus incorrect at most answered; trials are unchanged |
| TaskMatrix.Cells | real_effort/task_matrix.py:23 | each drawn character is the one its draw selects from the ignored and counted arrows |
| TaskMatrix.GeneratePuzzleFields | real_effort/task_matrix.py:18-27 | the text is the four drawn rows joined by newlines, and the solution is the number of counted arrows in it, written in decimal |
| TaskMatrix.OnesAppend | real_effort/task_matrix.py:22-24 | the counted draws of two draw lists add up |
| TaskMatrix.CellsCount | real_effort/task_matrix.py:23 | a drawn row holds one counted arrow per draw of it |
| TaskMatrix.TextShape | real_effort/task_matrix.py:21-25 | the text is the four rows separated by newlines, 23 characters long |
| TaskMatrix.TextCharacters | real_effort/task_matrix.py:21-25 | row `r` occupies characters `6r` to `6r+4`, and a newline follows every row but the last |
| TaskMatrix.JoinedCount | real_effort/task_matrix.py:25-27 | four rows joined by newlines hold as many of any other character as the rows together |
| TaskMatrix.OnesOfRows | real_effort/task_matrix.py:21-24 | the counted draws are those of the four rows' draws |
| TaskMatrix.TextCountsArrows | real_effort/task_matrix.py:18-27 | the text holds one counted arrow per draw of it |
| TaskMatrix.SolutionCountsArrows | real_effort/task_matrix.py:27 | the solution reads back as the number of counted draws, at most 20 |
| TaskMatrix.IsCorrect | real_effort/task_matrix.py:30-31 | a response is correct exactly when it is the solution string itself, with no trimming or case folding |
| TaskDecoding.Zip | real_effort/task_decoding.py:22 | `dict(zip(...))` has exactly the keys paired with a value |
| TaskDecoding.ZipDistinct | real_effort/task_decoding.py:22 | with distinct keys every pair survives |
| TaskDecoding.FullSample | real_effort/task_decoding.py:20 | a sample of all ten digits contains every digit |
| TaskDecoding.Row | real_effort/task_decoding.py:28 | a row in the JSON text is the list of its one-character strings |
| TaskDecoding.CodeOfDigit | real_effort/task_decoding.py:19-22 | every digit is a key of the code and stands for a letter of the charset |
| TaskDecoding.CodeInjective | real_effort/task_decoding.py:19-22 | distinct digits stand for distinct letters |
| TaskDecoding.Decoded | real_effort/task_decoding.py:24-25 | the solution spells each coded digit with its letter |
| TaskDecoding.DecodedLetters | real_effort/task_decoding.py:19-25 | the solution's letters are distinct letters of the charset |
| TaskDecoding.GeneratePuzzleFields | real_effort/task_decoding.py:16-30 | the solution has five letters, each the code of the coded digit at its place, distinct and from the charset |
| TaskDecoding.RowChars | real_effort/task_decoding.py:28 | a row read back has one character per item |
| TaskDecoding.RowCharsOfRow | real_effort/task_decoding.py:28 | a row written out reads back as its characters |
| TaskDecoding.DecodeRecoversSolution | real_effort/task_decoding.py:16-30 | the text stores the rows and the coded word, so the solution can be read back from it |
| TaskTranscription.GeneratePuzzleFields | real_effort/task_transcription.py:15-17 | the text is the drawn characters of the charset, and the solution is the text itself |
| TaskTranscription.IsCorrect | real_effort/task_transcription.py:20-21 | comparing fails, as Python's missing `lower()`, exactly when the response is not a string |
| TaskTranscription.IsCorrectIgnoresCase | real_effort/task_transcription.py:20-21 | the solution in any casing is accepted, and the casing of a response never matters |
| TaskTranscription.IsCorrectRefusesOtherText | real_effort/task_transcription.py:20-21 | a response differing from the solution in one character beyond case is refused |
| TicTacToe.MarksAt | demo_multiplayer_2/__init__.py:72-76 | the role's pattern turns the role's mark into `+`, the other mark into `-` and keeps every other cell |
| TicTacToe.MarksCells | demo_multiplayer_2/__init__.py:68-76 | on a nine-cell board with the intended marker, the role's pattern has `+` exactly where the role's mark stands |
| TicTacToe.CoversMeansLine | demo_multiplayer_2/__init__.py:56-76 | marks matching the board cell by cell cover a winning pattern exactly when the mark holds a whole row, column or diagonal |
| TicTacToe.WinsMeansLine | demo_multiplayer_2/__init__.py:68-76 | with the intended rules the role's pattern wins exactly when the role holds a line |
| TicTacToe.CorrectedVerdict | demo_multiplayer_2/__init__.py:68-80 | with the intended rules the board is full exactly when no cell is empty, X wins exactly when X holds a line, O exactly when O holds one and X does not, and a winner comes with its pattern |
| TicTacToe.NoLineInDraw | demo_multiplayer_2/__init__.py:56-65 | the board `xox/xoo/oxx` holds no line of either mark |
| TicTacToe.DrawIsFull | demo_multiplayer_2/__init__.py:68-80 | that drawn board is a full nine-cell board without a line |
| TicTacToe.AsWrittenDrawNotFull | demo_multiplayer_2/__init__.py:69-70 | as written that full drawn board gets no winner and is not reported full |
| TicTacToe.DrawMarks | demo_multiplayer_2/__init__.py:69-78 | the drawn board's patterns are no winning pattern and contain no `-` |
| TicTacToe.AsWrittenNoVerdict | demo_multiplayer_2/__init__.py:68-80 | as written a board whose patterns match no winning pattern exactly and are not all `-` gets no verdict |
| TicTacToe.NotExactX | demo_multiplayer_2/__init__.py:56-65 | patterns of the shape `+-?/+??/-??` are not in the winning table |
| TicTacToe.NotExactO | demo_multiplayer_2/__init__.py:56-65 | patterns of the shape `-+?/?-?/???` or `-+?/??+/???` are not in the winning table |
| TicTacToe.AsWrittenPattern | demo_multiplayer_2/__init__.py:69 | replacing the three-character marker turns two trailing markers into two `-` |
| TicTacToe.AsWrittenLineMissed | demo_multiplayer_2/__init__.py:71-80 | as written X holding the middle row plus one more cell does not win, although with the intended rules X wins |
| TicTacToe.PlaceMeans | demo_multiplayer_2/__init__.py:138-160 | an accepted move marks exactly that cell with the mover's mark, counts one move for the mover only, records whether the game is over, clears the active role exactly when it is over, and otherwise passes the turn and acknowledges the position |
| TicTacToe.ConcludeMeans | demo_multiplayer_2/__init__.py:141-160 | judging the marked board leaves the board and both move counts alone, ends the game exactly when it clears the active role, and otherwise passes the turn |
| TicTacToe.DrawReply | demo_multiplayer_2/__init__.py:144-153 | a draw ends the game; as written its reply fails with a TypeError on `list(None)`, as intended it carries an empty pattern |
| TicTacToe.StatusMeans | demo_multiplayer_2/__init__.py:111-122 | a finished game is reported to both players, as won exactly for the winner; otherwise each player learns whether it is their turn |
| TicTacToe.RespondMeans | demo_multiplayer_2/__init__.py:125-160 | a timeout is a NotImplementedError and a wrong turn a RuntimeError, both changing nothing; a refused move changes nothing; any change is a move by the active role on an empty cell that marks that cell only, counts the move, and either ends the game or passes the turn |
| TicTacToe.AsWrittenRefusesEveryMove | demo_multiplayer_2/__init__.py:125-136 | as written no cell equals the three-character marker, so every response is refused or fails and changes nothing |
| TicTacToe.AsWrittenGameNeverMoves | demo_multiplayer_2/__init__.py:125-160 | as written no sequence of responses ever changes the initial game |
| TicTacToe.InitialWf | demo_multiplayer_2/__init__.py:83-87 | the initial game (nine empty cells, X to move) satisfies the invariant |
| TicTacToe.MovesBounded | demo_multiplayer_2/__init__.py:37-47 | under the invariant the two players' move counts add up to at most nine |
| TicTacToe.CountAfterMark | demo_multiplayer_2/__init__.py:50-53 | marking an empty cell adds one of that mark and keeps every other mark's count |
| TicTacToe.PlaceKeepsWf | demo_multiplayer_2/__init__.py:138-160 | with the intended rules the active role's move on an empty cell keeps the invariant and adds exactly one move |
| TicTacToe.RespondKeepsWf | demo_multiplayer_2/__init__.py:125-160 | with the intended rules every response keeps the invariant (marks on the board equal move counts, X at most one ahead, a finished game has no active role) and a changing response adds exactly one move |
| TicTacToe.Game.constructor | demo_multiplayer_2/__init__.py:83-87 | a new game is the initial state and satisfies the invariant |
| TicTacToe.Game.PutMark | demo_multiplayer_2/__init__.py:50-53 | the mark is written at that one position and nothing else changes |
| TicTacToe.Game.ValidateResponse | demo_multiplayer_2/__init__.py:125-160 | the in-place response yields exactly the state and reply of the response function with the intended rules |
| TicTacToe.Game.PlaceMark | demo_multiplayer_2/__init__.py:138-142 | the in-place move yields exactly the state and reply of the intended move function |
| TicTacToe.Game.Finish | demo_multiplayer_2/__init__.py:142-160 | the in-place end of the move yields exactly the state and reply of the intended conclusion |
| Transcription.PuzzleText | transcription/__init__.py:71 | the text has the configured number of characters (none for a negative length), each from the character set |
| Transcription.GeneratePuzzle | transcription/__init__.py:68-72 | the new record has the player's length, a text of drawn characters, the lower-cased text as solution, no answer and no verdict, with round and iteration still 0 |
| Transcription.CheckAnswerIgnoresCase | transcription/__init__.py:92-97 | a non-empty answer is judged, correct exactly when it lower-cases to the solution, so the text in any casing is correct |
| Transcription.CheckAnswerRefuses | transcription/__init__.py:92-97 | an empty or `None` answer is a ValueError that stores nothing, one that is not a string is stored and then fails with AttributeError, and only a non-empty string is judged |
| Transcription.LastTrial | transcription/__init__.py:83-89 | the trial found is of the player's round and iteration |
| Transcription.LastTrialIsLast | transcription/__init__.py:83-89 | no later trial is of that round and iteration, and none is found exactly when there is none |
| Transcription.SummarizeBounds | transcription/__init__.py:100-112 | correct and incorrect trials together are at most all trials, and exactly all once every trial is judged |
| Transcription.Game.constructor | transcription/__init__.py:32-43 | a new player has the default length, round and iteration 0 and no trials |
| Transcription.Game.PlayGame | transcription/__init__.py:118-208 | the in-place `play_game` yields exactly the state and reply of the play function, as written |
| Transcription.Game.Next | transcription/__init__.py:157-180 | the in-place `next` branch yields exactly the `next` function, as written |
| Transcription.Game.Answer | transcription/__init__.py:183-200 | the in-place `answer` branch yields exactly the answer function |
| Transcription.Load | transcription/__init__.py:145-154 | the empty message makes a first puzzle, numbered 1 and stamped with the time, only when there is no current one; otherwise it shows the current one again and changes nothing |
| Transcription.NextGuards | transcription/__init__.py:157-170 | `next` without a puzzle, too early, over an unsolved puzzle under `force_solve` or an unanswered one without `allow_skip` is a RuntimeError that changes nothing; at the configured last iteration it ends the game; otherwise it appends one puzzle |
| Transcription.NextNumbersOne | transcription/__init__.py:168-173 | as written the new puzzle takes its number from the record just created, so it and the player's iteration are always 1 |
| Transcription.Answer | transcription/__init__.py:183-200 | a retry is a RuntimeError that changes nothing unless retrying is allowed and the retry delay is over; an accepted answer changes the current trial alone, storing it, its verdict, the time and one more retry, and replies with the verdict and the summary |
| Transcription.MessageGuards | transcription/__init__.py:202-208 | `cheat` gives the solution only in debug mode, any other message is a ValueError, and neither changes anything |
| Transcription.CurrentIsNewest | transcription/__init__.py:83-89 | when every trial of the round is numbered 1, the current trial is the newest |
| Transcription.AnswerKeepsNumbers | transcription/__init__.py:183-200 | storing an answer renumbers nothing |
| Transcription.LoadKeepsAllAtOne | transcription/__init__.py:145-154 | the empty message keeps every trial numbered 1 |
| Transcription.NextKeepsAllAtOne | transcription/__init__.py:157-180 | as written `next` keeps every trial numbered 1 |
| Transcription.PlayKeepsAllAtOne | transcription/__init__.py:118-208 | as written every message keeps every trial numbered 1 |
| Transcription.NeverGameOver | transcription/__init__.py:166-167 | so, as written, with more than one iteration configured `next` never ends the game |
| Transcription.CurrentIsLast | transcription/__init__.py:83-89 | with the trials numbered 1, 2, ... the current trial is the last |
| Transcription.LoadKeepsInOrder | transcription/__init__.py:145-154 | the empty message keeps the trials numbered 1, 2, ... and at most `num_iterations` of them |
| Transcription.NextKeepsInOrder | transcription/__init__.py:157-180 | numbering each trial after the previous one, `next` keeps them numbered 1, 2, ... and at most `num_iterations` |
| Transcription.ConsecutiveEnds | transcription/__init__.py:118-208 | numbering each trial after the previous one, every message keeps the trials numbered in order and never serves more than `num_iterations` puzzles |

## Left out

- Rendering puzzle and stimulus images (PIL drawing, base64 data URLs). An image is an opaque token naming what would be drawn.
- Unicode beyond ASCII in `str.lower`/`str.upper`/`strip`: only ASCII letters change case, and only ASCII white space is stripped.
- Text.ParseInt: accepts only ASCII digits with an optional sign and surrounding white space. It refuses the digit-group underscores (`"1_000"`) and non-ASCII digits that Python's `int()` accepts.
- Floating-point arithmetic: server-side times are `real` numbers, and currency amounts are whole numbers.
- Json.Value: numbers that a page sends are integers (`Num(n: int)`); a JSON number with a fraction is not represented. Browser reaction times are such numbers (`iat.js` divides by 1000, and the other pages send `performance.now()` differences). So the truncation of `int(message["reaction_time"])` at `ldt_priming/__init__.py:343` is not modelled: on an integer it changes nothing.
- The runtime's handling of an exception raised by a live method: the model keeps every change made before the `raise`, as the handler's statements leave it. This is an assumption about oTree's transaction handling, which is not part of the source. These results depend on it:
  - `RealEffort.EmptyRetryLosesCount` and `RealEffort.NonStringRetryLosesCount`;
  - `Arithmetics.NulledAnswerKeepsVerdict`, where the cleared answer stays stored before the TypeError of `int(None)`;
  - `GenericCore.MissingReaction`;
  - `DemoPuzzlesLocal.ValidateResponseSpec`, where the matrix stays stored before the IndexError;
  - `Transcription.CheckAnswerRefuses`, where a non-string answer stays stored before the AttributeError;
  - `Iat.ClientMessagesRefused`, where an answer stays stored before the KeyError.
- File and CSV input: the rows of `stimuli.csv` and of the demo CSV files are parameters, and so is the set of image files that exist.
- `print` calls and logging, which do not affect state (among them the two `print` calls of `demo_trials/__init__.py:159` and `:168`).
- Time: each handler reads the clock once, as `now`. `real_effort/__init__.py:90` and `sliders/__init__.py:85` stamp a new puzzle with a second `time.time()` call; the model stamps it with the same `now`, so it does not capture the small gap between the two readings.
- Changes.Patch: the target is a value, and patching returns a new one. In otree-front `patch` updates the target object in place, so other references to it (aliasing) see the change; the model does not capture that.
- The oTree page lifecycle (`is_displayed`, `vars_for_template`, `before_next_page`, `custom_export`, session creation) beyond the trial generation it calls. The percentages that `vars_for_template` computes for the templates are not modelled either.
- The DOM, event and directive parts of `otree-front` (controllers, `ot-*` attributes, rendering, user input events). Only `Ref`, `Changes`, `Timers` and the phase flags of `Page` are modelled.
- `live_multiplayer`: both multiplayer demos import it from `common.live_utils` (`demo_multiplayer_2/__init__.py:3`, `demo_multiplayer_N/__init__.py:5`), but `common/live_utils.py` does not define it. Its delivery protocol is therefore absent from the source and not modelled; messages arrive one at a time as parameters.
- DemoTrials: `demo_trials/__init__.py:220` calls `live_utils.live_trials` with keyword hooks, but `common/live_utils.py:133` defines `live_trials(pagecls)`, a class decorator. As written the call is a TypeError when the module loads. The model wires the hooks as evidently intended: `on_load` and `on_input` are modelled as the page's load and input handlers.
- DemoPuzzleLive: `demo_puzzle_live/__init__.py:242` calls `live_utils.live_puzzles` with keyword hooks (`get_trial`, `encode_trial`, `on_load`, `on_move`, `on_timeout`, `get_progress`), but `common/live_utils.py:367` defines `live_puzzles(pagecls)`, a class decorator. As written the call is a TypeError when the module loads, so no handler is installed. The model wires the hooks as evidently intended: `on_load`, `on_move` and `on_timeout` are modelled as the page's handlers, and the invariant lemmas assume the open-trial guard of the trials page.
- The per-app `encode_trial` functions of `demo_trials`, `demo_stimuli`, `demo_puzzle_live`, `demo_puzzles_local` and `demo_multiplayer_2`. These only copy record fields into the page's JSON; replies carry the record instead. The encoders of `common/live_utils.py`, `ldt_priming`, `generic/core` and `demo_multiplayer_N` are modelled.
- Colors.Trial: the `congruent` field is never assigned in the source and is not modelled.
- Symmatrices: the testing branch reads `player.total_puzzles`, which the symmatrices `Player` does not declare. It is modelled as an AttributeError.
- Iat: the word lists imported from `STIMULI` are a configuration parameter.
- Iat: the assignment to `answer_timestamp`, a field the `Trial` model does not declare, is not modelled.
- Iat: the reaction time comes from `message["reaction"]` as the code reads it, although the docstring says `rt` and the page script sends `reaction_time` (see Findings).
- Iat.ROUNDS: this is the app's `BLOCKS` table, the blocks of the first configuration with round 5 taken from the second. The model keeps this as written (`RoundsDesign`).
- Sliders: the app calls `task_sliders.generate_puzzle` and `task_sliders.snap_value` (`sliders/__init__.py:82`, `:128`), but `sliders/task_sliders.py` does not define them. They are parameters. `TaskSliders` models what that file does define: the geometry (`generate_puzzle_fields`) and the checking.
- DemoStimuli: results that are not a list, and the `json.loads` of the submitted text, are not modelled; the results come as a decoded list.
- DemoPuzzleLive: the `response_time` argument and the load/response timestamps are not stored.
- DemoPuzzlesLocal.JoinItems: joining a response that is a JSON object is an `Unsupported` error (Python would join its keys).
- DemoPuzzlesLocal: the `live_puzzles` wiring is modelled in `LiveTrials`, not repeated here.
- Auction: a bid that is not a number is an `Unsupported` error, and the timeout flag is ignored as in the source.
- Auction: the top bid stays above the second only while bids are non-negative. A top bid of 0 is falsy in the source's test, so the next bid replaces it without shifting it down; `NegativeBidsUnorder` shows bids of -5, 0 and -100 leaving the second bid above the top.
- LiveUtils.Message: a reply given as a non-empty list of pairs is an `Unsupported` error.
- LiveUtils: `wrappedmethod` is modelled only through the wrapped `js_vars` (`LiveTrials.TrialPage.constructor`).
- LiveTrials: Django's coercion of string field values is not modelled.
- PuzzleUtils.ShuffleBoard and DemoPuzzleLive use the shuffle as written. The intended shuffle is `PuzzleUtils.ShuffleAvoiding`; see Findings.
- TaskDecoding: `is_correct` is the same comparison as `TaskTranscription.IsCorrect` and is not repeated.
- GenericStimuli: `filter_by_fields` (`generic/stimuli.py:28-31`) is the conjunction `StimuliUtils.FilterByFields` applied to the loaded pool.
- GenericCore: `generic/core/stimuli.py` is not part of this model. Its filter is taken to be the membership filter of `generic/stimuli_utils.py`.
- GenericCore: `generate_trial`, the on-the-fly generator, is not modelled, because its only call is commented out.
- LdtPriming: the `cheat` message in debug mode is an `Unsupported` error.
- Ref: these array cases are `Unsupported` errors:
  - `update` assigning an array's `length`, which in JavaScript truncates or extends the array;
  - `update` assigning at an index equal to the length (an append) or beyond it (a hole);
  - `update` assigning or descending through any other non-index property of an array;
  - deleting an existing array index, which leaves a hole.
- Ref: property lookups see only an object's own keys (and an array's indices and `length`). In JavaScript `k in o` and `o[k]` also see the prototype chain, so `extract({}, "toString")` is a function there and `undefined` here.

## Findings

| source | as written | input that shows it | evidently intended | confidence | as-written member | corrected member |
|---|---|---|---|---|---|---|
| real_effort/__init__.py:185-196 | a retry undoes the counters of the previous answer, and then an empty answer raises ValueError; the undo is lost only if the runtime keeps changes made before the `raise` (see Left out) | a correct answer, then an empty retry, then a correct retry: `num_correct` ends at 0 | refuse an empty answer before undoing anything | high (not executed) | RealEffort.EmptyRetryLosesCount | RealEffort.AnswerFixedKeepsTally |
| real_effort/__init__.py:185-199 | a retry undoes the counters of the previous answer before `is_correct` is called; on a transcription or decoding task, a response that is not a string then fails with AttributeError in `lower()`; the undo is lost only if the runtime keeps changes made before the `raise` (see Left out) | a correct answer, then a retry with the number 3: the puzzle stays correct and `num_correct` is 0 | check the answer before undoing anything | high (not executed) | RealEffort.NonStringRetryLosesCount | RealEffort.AnswerFixedKeepsTally |
| ldt_priming/__init__.py:366-378 | a timeout after an answer undoes only the solved/failed count, and `update_stats` then sees `attempts == 1` and counts the trial again | one trial answered once, then a `timeout` message: `num_trials` goes from 1 to 2 | count each trial once | medium (not executed) | LdtPriming.TimeoutAfterAnswerCountsTwice | LdtPriming.PlayOnceKeepsTally |
| transcription/__init__.py:168-173 | the new trial's number is taken from the record just created (iteration 0), so every trial is iteration 1 | `num_iterations` = 2: every `next` serves a new puzzle, the game never ends | number each trial after the previous one | high (not executed) | Transcription.NeverGameOver | Transcription.ConsecutiveEnds |
| demo_multiplayer_2/__init__.py:15 | `CHAR_EMPTY` is the three characters "â€¢", so no single cell ever equals it | any move on a new board is refused as a taken cell | the one-character marker "•" | high (not executed) | TicTacToe.AsWrittenGameNeverMoves | TicTacToe.RespondKeepsWf |
| demo_multiplayer_2/__init__.py:70 | `full` counts nine `-`, which is an empty board | a full board with no line: not full, no verdict | full when no cell is empty | high (not executed) | TicTacToe.AsWrittenDrawNotFull | TicTacToe.DrawIsFull |
| demo_multiplayer_2/__init__.py:71-78 | a win needs the role's marks to equal a winning pattern exactly | X on the middle row and one more cell does not win | a win when the role holds every cell of a line | high (not executed) | TicTacToe.AsWrittenLineMissed | TicTacToe.CorrectedVerdict |
| demo_multiplayer_2/__init__.py:152 | a draw replies with `list(winpattern)` where `winpattern` is None (TypeError) | a full board without a line, once `full` is corrected | an empty win pattern | medium (not executed) | TicTacToe.DrawReply | TicTacToe.DrawReply |
| common/puzzle_utils.py:56-61 | the step excludes `src`, which after the move is the empty cell itself, so the tile just moved can move straight back | a 2 x 2 board, two steps, picks that move a tile and return it: the board ends solved | exclude the cell the empty cell just left | high (not executed) | PuzzleUtils.ShuffleUndoes | PuzzleUtils.AvoidingDoesNotUndo |
| iat/static/iat.js:101-195 | the page sends `{type: 'load'}`, `{type: 'next'}` and `{type: 'answer', answer, reaction_time}`, but `play_game` dispatches on `data == {}`, `"next" in data` and `"answer" in data` and reads `data['reaction']` | a page start: `load` and `next` are ValueErrors that change nothing, so no question is ever served | the page sends `{}`, `{next: true}` and `{answer, reaction}`, as the handler reads them | medium (not executed) | Iat.ClientMessagesRefused | Iat.ServerMessagesPlay |
