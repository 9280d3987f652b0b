# Critical-thinking quiz: the round engine in Dafny

The repository is a quiz game. A player reads a generated passage that embeds several logical fallacies. They mark the fallacies they believe are present, submit, and get a score. The game exists in two generations, and this project models the round engine of both:

- **First generation** (`CriticalThinking.Backend` with its Vue front end):
  - `GameTextGenerationService` assembles a passage from fallacy-tagged text blocks and records where each fallacy's fragment sits.
  - `GameService` reconciles a submission with the passage's fallacies (correct, then wrong, then missed), builds the stats, stores the answers and closes the session.
  - `ScoringService` computes the weighted score.
  - The Pinia store `gameStore.ts` holds the client-side round state.
- **Second generation** (`CriticalThinkingGame.ApiService` with its Vue front end):
  - `GameService` classifies each stored text fallacy as Correct or Missed, adds Incorrect entries, and scores +10/−5 with a small time bonus.
  - The Pinia store `game.ts` holds the client-side round state.

The two generations are kept apart, each with its own difficulty enum, result types and constants.

The modules:

| module | file | models |
|---|---|---|
| `Common` | common.dfy | Option/Result, C# truncating division, JS `indexOf`/`splice`, the selection toggle, LINQ `Where`, HashSet enumeration order |
| `Strings` | strings.dfy | `ToLower` (ASCII), ordinal and ignore-case `IndexOf`, `Split`, `String.Join` |
| `Models` | models.dfy | the first generation's entities |
| `Scoring` | scoring.dfy | `ScoringService` |
| `TextGeneration` | text_generation.dfy | `GameTextGenerationService` |
| `BackendGameService` | backend_game_service.dfy | the first generation's `GameService` |
| `ApiGameService` | api_game_service.dfy | the second generation's `GameService` |
| `GameStore` | game_store.dfy | `gameStore.ts` |
| `GameClientStore` | game_client_store.dfy | `game.ts` |

Shape of the model:

- Code that mutates state is modelled as classes:
  - the services, holding their session maps and stored rows;
  - the sessions;
  - the two stores;
  - the random number generator.
- Each loop-driven method is proved equal to a specification function, and the properties are proved about that function.
- Inputs from outside the core become parameters:
  - randomness is a `RandomSource` object that hands out a script of values;
  - instants are integer milliseconds;
  - in the stores, each API call is the `Result` it returned or the error it threw;
  - database rows are sequences held by the service objects.

The code truncates the time bonus and the weighted score with `(int)` (`ScoringService.cs:38,59,65`), and the model truncates them too.

The first-generation code reports no stored offsets. A result's position and excerpt come from searching the passage for a word of the fallacy's name (`GameService.cs:230-265`; `BackendGameService.Reference`, `BackendGameService.Position`).

Where the code and its tests disagree, the model follows the code:

- **Score floor.** `ScoringServiceTests.cs:87-101` expects 0 when every answer is wrong. The base score is clamped before the bonus is added, so the code returns 10. `Scoring.AllWrongAnswersKeepSlowBonus` proves 10.
- **Slow play beats fast play (Medium, 240 s).** `ScoringServiceTests.cs:106` expects the 240 s Medium game to beat the same game at 720 s.
  - In exact arithmetic the two tie at 165 (`Scoring.MediumFastAndSlowTie`).
  - With the code's `double` the fast game drops to 163, because `50 * (1 - 240 / 300.0)` truncates to 9.
  - Either way the test's expectation does not hold.

## Model

| member | source | states |
|---|---|---|
| `Common.TruncDiv` | src/CriticalThinkingGame.ApiService/Services/GameService.cs:177-181 | `/` on C# `int` rounds toward zero: for a non-negative dividend the quotient is the floor, for a negative one the ceiling |
| `Common.IndexOf` | src/CriticalThinking.Frontend/src/stores/gameStore.ts:74-75 | `indexOf` yields -1 exactly when the id is absent; otherwise the index of its first occurrence |
| `Common.RemoveAt` | src/CriticalThinking.Frontend/src/stores/gameStore.ts:78 | `splice(i, 1)` drops exactly the element at `i` and shifts the rest down by one |
| `Common.ToggledMultiset` | src/CriticalThinking.Frontend/src/stores/gameStore.ts:73-80 | toggling adds one copy of an absent id and removes one copy of a present id, and changes nothing else |
| `Common.ToggledMembership` | src/CriticalThinkingGame.Frontend/src/stores/game.ts:66-73 | on a duplicate-free selection a toggle flips the membership of that id and of no other id |
| `Common.ToggledNoDup` | src/CriticalThinking.Frontend/src/stores/gameStore.ts:73-80 | toggling keeps a duplicate-free selection duplicate-free |
| `Common.ToggledTwiceAbsent` | src/CriticalThinking.Frontend/src/stores/gameStore.ts:73-80 | selecting an unselected id and then deselecting it restores the selection |
| `Common.Distinct` | src/CriticalThinking.Backend/Services/GameService.cs:175 | `ToHashSet` keeps every id once, loses none and adds none |
| `Common.Filter` | src/CriticalThinking.Backend/Services/GameService.cs:178 | `Where` keeps exactly the elements that pass, taken from the input |
| `Strings.Lower` | src/CriticalThinking.Backend/Services/GameService.cs:234-235 | `ToLower` keeps the length and folds every character |
| `Strings.IndexOf` | src/CriticalThinking.Backend/Services/GameService.cs:239 | ordinal `IndexOf` returns the first index where the word occurs, or nothing when it occurs nowhere |
| `Strings.IndexOfIgnoreCase` | src/CriticalThinking.Backend/Services/GameTextGenerationService.cs:189 | `OrdinalIgnoreCase` search returns the first window equal to the content ignoring case, or nothing when there is none |
| `Strings.IgnoreCaseFindsOccurrence` | src/CriticalThinking.Backend/Services/GameTextGenerationService.cs:189 | a verbatim occurrence is always found by the ignore-case search, at or before it |
| `Strings.Split` | src/CriticalThinking.Backend/Services/GameService.cs:234 | `Split(' ')` gives pieces free of spaces that join back to the name |
| `Strings.JoinContainsPart` | src/CriticalThinking.Backend/Services/GameTextGenerationService.cs:174 | every part of `String.Join(" ", parts)` occurs verbatim at its offset |
| `Models.PermutationKeepsUniqueIds` | src/CriticalThinking.Backend/Services/GameTextGenerationService.cs:54-57 | reordering the fallacy list keeps its ids unique |
| `Models.FilterKeepsUniqueIds` | src/CriticalThinking.Backend/Services/GameTextGenerationService.cs:49-51 | filtering the catalogue by difficulty keeps its ids unique |
| `Scoring.OptimalTime` | src/CriticalThinking.Backend/Services/ScoringService.cs:45-51 | the optimal time is positive, so the slow-regime division is never by zero, and it is at most 300 s up to Medium |
| `Scoring.BaseScore` | src/CriticalThinking.Backend/Services/ScoringService.cs:21-24 | the base score is never negative; it is either 0 or the raw +100/−25/−50 sum, and never below that sum |
| `Scoring.ApplyMultiplier` | src/CriticalThinking.Backend/Services/ScoringService.cs:30-38 | the 1×/1.5×/2× multiplier never shrinks a score and at most doubles it |
| `Scoring.CalculateScore` | src/CriticalThinking.Backend/Services/ScoringService.cs:12-40 | the final score is never negative and never below the clamped base plus the time bonus |
| `Scoring.TimeBonus` | src/CriticalThinking.Backend/Services/ScoringService.cs:53-66 | the time bonus is never negative in either regime; its ranges are the two lemmas below |
| `Scoring.TimeBonusFastRange` | src/CriticalThinking.Backend/Services/ScoringService.cs:55-60 | within the optimal time the bonus lies in [0, 50]: 50 at t = 0 and exactly 0 at t = optimal |
| `Scoring.TimeBonusSlowRange` | src/CriticalThinking.Backend/Services/ScoringService.cs:62-66 | over the optimal time the bonus lies in [0, 24] |
| `Scoring.TimeBonusJumpsAtOptimal` | src/CriticalThinking.Backend/Services/ScoringService.cs:55-66 | one second past the optimal time the bonus jumps from 0 to 24, so the bonus is not monotone across the two regimes |
| `Scoring.TimeBonusNonIncreasing` | src/CriticalThinking.Backend/Services/ScoringService.cs:55-66 | within one regime, taking longer never raises the bonus |
| `Scoring.MultiplierMonotone` | src/CriticalThinking.Backend/Services/ScoringService.cs:30-38 | the multiplier with truncation preserves order |
| `Scoring.MoreCorrectNeverLowers` | src/CriticalThinking.Backend/Services/ScoringService.cs:12-40 | one more correct answer never lowers the score |
| `Scoring.MoreWrongNeverRaises` | src/CriticalThinking.Backend/Services/ScoringService.cs:12-40 | one more wrong answer never raises the score |
| `Scoring.MoreMissedNeverRaises` | src/CriticalThinking.Backend/Services/ScoringService.cs:12-40 | one more missed answer never raises the score |
| `Scoring.FasterNeverLowersWithinRegime` | src/CriticalThinking.Backend/Services/ScoringService.cs:12-66 | within one time regime, finishing sooner never lowers the score |
| `Scoring.PerfectEasyGameScore` | src/CriticalThinking.Tests/Services/ScoringServiceTests.cs:17-31 | three correct answers in 60 s on Easy score 325 |
| `Scoring.PenalisedEasyGameScore` | src/CriticalThinking.Tests/Services/ScoringServiceTests.cs:68-84 | two correct, two wrong and one missed in 120 s on Easy score 100 |
| `Scoring.AllWrongAnswersKeepSlowBonus` | src/CriticalThinking.Tests/Services/ScoringServiceTests.cs:87-101 | an all-wrong Easy game in 300 s scores 10, because the bonus is added after the clamp |
| `Scoring.MediumFastAndSlowTie` | src/CriticalThinking.Tests/Services/ScoringServiceTests.cs:103-124 | in exact arithmetic, one correct Medium answer scores 165 at both 240 s and 720 s |
| `TextGeneration.RandomSource.Next` | src/CriticalThinking.Backend/Services/GameTextGenerationService.cs:37 | `Next(n)` is below `n`, and each draw consumes one scripted value |
| `TextGeneration.RandomSource.NextInRange` | src/CriticalThinking.Backend/Services/GameTextGenerationService.cs:40-46 | `Next(lo, hi)` lies in `[lo, hi)` |
| `TextGeneration.RandomSource.Shuffle` | src/CriticalThinking.Backend/Services/GameTextGenerationService.cs:143-146 | `OrderBy(_ => _random.Next())` returns a permutation of its input |
| `TextGeneration.ArrangementMultiset` | src/CriticalThinking.Backend/Services/GameTextGenerationService.cs:132-149 | the arranged list holds exactly the early, middle, any and late blocks, each as often as it occurs |
| `TextGeneration.ArrangementKeepsKnownBlocks` | src/CriticalThinking.Backend/Services/GameTextGenerationService.cs:135-146 | every block with a recognised hint is placed |
| `TextGeneration.ArrangementHasOnlyKnownBlocks` | src/CriticalThinking.Backend/Services/GameTextGenerationService.cs:135-146 | nothing but blocks with a recognised hint is placed, so other hints are dropped |
| `TextGeneration.FallacyMappings` | src/CriticalThinking.Backend/Services/GameTextGenerationService.cs:177-204 | there is at most one mapping per block and none for an already processed fallacy |
| `TextGeneration.MappingsDistinct` | src/CriticalThinking.Backend/Services/GameTextGenerationService.cs:181-199 | no fallacy is mapped twice |
| `TextGeneration.MappingsPlaceBlocks` | src/CriticalThinking.Backend/Services/GameTextGenerationService.cs:189-198 | every mapping names a block's fallacy and spans a window of the passage equal to that block's content, ignoring case |
| `TextGeneration.MappingsComplete` | src/CriticalThinking.Backend/Services/GameTextGenerationService.cs:183-201 | every block whose content occurs and whose fallacy is not yet processed gets its fallacy mapped |
| `TextGeneration.NarrativeContainsBlock` | src/CriticalThinking.Backend/Services/GameTextGenerationService.cs:160-174 | each arranged block's content occurs verbatim in the joined narrative |
| `TextGeneration.ArrangedBlockIsMapped` | src/CriticalThinking.Backend/Services/GameTextGenerationService.cs:93-100 | every block that made it into the passage has its fallacy among the mappings |
| `TextGeneration.NarrativeIntros` | src/CriticalThinking.Backend/Services/GameTextGenerationService.cs:222-251 | every topic has three intros to draw from |
| `TextGeneration.TitleTemplates` | src/CriticalThinking.Backend/Services/GameTextGenerationService.cs:206-217 | every topic has three title templates to draw from |
| `TextGeneration.AppendKeepsDistinct` | src/CriticalThinking.Backend/Services/GameTextGenerationService.cs:61-89 | adding a block of a not-yet-used fallacy keeps the used fallacies distinct and adds exactly its id |
| `TextGeneration.NothingUnusedLeft` | src/CriticalThinking.Backend/Services/GameTextGenerationService.cs:81-85 | when no block of an unused fallacy remains, every fallacy of the topic is used |
| `TextGeneration.GameTextGenerationService.DrawTargetCount` | src/CriticalThinking.Backend/Services/GameTextGenerationService.cs:40-46 | the target is 3–4 on Easy, 5–6 on Medium and 7–9 on Hard |
| `TextGeneration.GameTextGenerationService.PickTopic` | src/CriticalThinking.Backend/Services/GameTextGenerationService.cs:24-37 | fails exactly when no topic is at or below the level; otherwise the drawn topic is one of them |
| `TextGeneration.GameTextGenerationService.PickBlockFor` | src/CriticalThinking.Backend/Services/GameTextGenerationService.cs:63-75 | a block is picked exactly when the topic has a block of that fallacy, and the picked one is such a block |
| `TextGeneration.GameTextGenerationService.PickBlocksForFallacies` | src/CriticalThinking.Backend/Services/GameTextGenerationService.cs:59-76 | one topic block per chosen fallacy that has any block, all of distinct fallacies |
| `TextGeneration.GameTextGenerationService.Backfill` | src/CriticalThinking.Backend/Services/GameTextGenerationService.cs:78-90 | keeps the picked blocks as a prefix, stays distinct and within the target, and stops only at the target or when every fallacy of the topic is used |
| `TextGeneration.GameTextGenerationService.ArrangeTextBlocks` | src/CriticalThinking.Backend/Services/GameTextGenerationService.cs:132-149 | the result is early, middle, any and late blocks in that group order, each group a permutation of its blocks |
| `TextGeneration.GameTextGenerationService.AppendBlocks` | src/CriticalThinking.Backend/Services/GameTextGenerationService.cs:160-170 | after the intro each block's content, with a drawn transition before every block from the second on |
| `TextGeneration.GameTextGenerationService.CreateNarrativeText` | src/CriticalThinking.Backend/Services/GameTextGenerationService.cs:151-175 | the narrative is an intro, the blocks with a transition between each consecutive pair, and a conclusion, joined by spaces |
| `TextGeneration.GameTextGenerationService.GenerateTitle` | src/CriticalThinking.Backend/Services/GameTextGenerationService.cs:206-220 | the title is one of the topic's templates |
| `TextGeneration.GameTextGenerationService.GenerateCompositeText` | src/CriticalThinking.Backend/Services/GameTextGenerationService.cs:112-130 | the passage is the arranged blocks' narrative, titled from the topic's templates, with the topic's id and level, `TargetFallacyCount` the number of blocks, and every placed block's fallacy mapped |
| `TextGeneration.MappingsSkip` | src/CriticalThinking.Backend/Services/GameTextGenerationService.cs:183-199 | a block of an already mapped fallacy, or whose content does not occur, adds no mapping |
| `TextGeneration.MappingsTake` | src/CriticalThinking.Backend/Services/GameTextGenerationService.cs:183-199 | a block of a fallacy not yet mapped whose content occurs adds one mapping, at its first ignore-case occurrence |
| `TextGeneration.GameTextGenerationService.CreateFallacyMappings` | src/CriticalThinking.Backend/Services/GameTextGenerationService.cs:177-204 | the loop computes exactly the mappings `FallacyMappings` specifies |
| `TextGeneration.GameTextGenerationService.GenerateGameText` | src/CriticalThinking.Backend/Services/GameTextGenerationService.cs:22-130 | fails exactly when no topic is at or below the level. Otherwise the topic is eligible, the title comes from its templates, the blocks are distinct and within the drawn target, `TargetFallacyCount` is the number of blocks used rather than the target, and every placed block is mapped |
| `BackendGameService.FirstFoundWord` | src/CriticalThinking.Backend/Services/GameService.cs:237-246 | picks the first name word, in order, that occurs in the lower-cased passage, or none when no word occurs |
| `BackendGameService.NameHit` | src/CriticalThinking.Backend/Services/GameService.cs:234-246 | the hit lies inside the passage |
| `BackendGameService.FirstFoundWordAt` | src/CriticalThinking.Backend/Services/GameService.cs:237-246 | an occurring word with no occurring word before it is the one the loop stops at |
| `BackendGameService.PositionIffReference` | src/CriticalThinking.Backend/Services/GameService.cs:230-265 | the position and the excerpt are both present or both absent, and the position lies within the passage |
| `BackendGameService.ExcerptSurrounds` | src/CriticalThinking.Backend/Services/GameService.cs:242-244 | the excerpt is wrapped in "...", holds the matched stretch in its original case, and is at most 106 characters longer than it |
| `BackendGameService.HitMatchesWord` | src/CriticalThinking.Backend/Services/GameService.cs:239-243 | the matched stretch of the passage equals the found word ignoring case |
| `BackendGameService.FindById` | src/CriticalThinking.Backend/Services/GameService.cs:181 | `First(f => f.Id == id)` finds a fallacy exactly when the id occurs, and the fallacy found carries that id |
| `BackendGameService.Reports` | src/CriticalThinking.Backend/Services/GameService.cs:179-191 | one result per id, carrying that id and the given verdict, in id order |
| `BackendGameService.WrongReports` | src/CriticalThinking.Backend/Services/GameService.cs:194-209 | one wrong result per selected id the catalogue knows; unknown ids are dropped |
| `BackendGameService.ResultBlocks` | src/CriticalThinking.Backend/Services/GameService.cs:172-228 | the results are the correct block, then the wrong block, then the missed block, each block holding only its own verdict |
| `BackendGameService.ResultsOrdered` | src/CriticalThinking.Backend/Services/GameService.cs:177-225 | all correct results come before all wrong ones, which come before all missed ones |
| `BackendGameService.CorrectMeaning` | src/CriticalThinking.Backend/Services/GameService.cs:178-191 | a correct result is a selected id of the ground truth |
| `BackendGameService.WrongMeaning` | src/CriticalThinking.Backend/Services/GameService.cs:194-209 | a wrong result is a selected id outside the ground truth that the catalogue knows, with neither excerpt nor position |
| `BackendGameService.MissedMeaning` | src/CriticalThinking.Backend/Services/GameService.cs:212-225 | a missed result is a ground-truth id that was not selected |
| `BackendGameService.EveryAnswerReported` | src/CriticalThinking.Backend/Services/GameService.cs:172-228 | each selected ground-truth id gets a correct result, each selected known non-ground-truth id a wrong one, and each unselected ground-truth id a missed one |
| `BackendGameService.Counts` | src/CriticalThinking.Backend/Services/GameService.cs:93-95 | the three verdict counts are the sizes of the correct, known-wrong and missed id lists |
| `BackendGameService.CorrectPlusMissedIds` | src/CriticalThinking.Backend/Services/GameService.cs:175-225 | for a selection without repeats, the selected ground-truth ids and the unselected distinct ground-truth ids together number the distinct ground-truth ids |
| `BackendGameService.CorrectPlusMissed` | src/CriticalThinking.Backend/Services/GameService.cs:175-225 | for a selection without repeats, correct plus missed equals the number of distinct ground-truth ids |
| `BackendGameService.CountsCoverResults` | src/CriticalThinking.Backend/Services/GameService.cs:127-129 | every result has one of the three verdicts, so the three counts add up to the number of results |
| `BackendGameService.StatsOf` | src/CriticalThinking.Backend/Services/GameService.cs:125-133 | the three counts add up to the number of results, `TotalFallacies` is the ground-truth size, and the accuracy is a non-negative fraction with a positive denominator; the correct count is the number of Correct results, and the accuracy is 0 when the ground truth is empty |
| `BackendGameService.StatsAddUp` | src/CriticalThinking.Backend/Services/GameService.cs:125-133 | with no repeats, correct + missed equals `TotalFallacies` and the accuracy is a fraction in [0, 1] with a positive denominator |
| `BackendGameService.RepeatedSelectionOvercounts` | src/CriticalThinking.Backend/Services/GameService.cs:125-133 | a submission naming the passage's only fallacy twice gets two correct answers against one fallacy: correct plus missed exceeds the total and the accuracy is 2 |
| `BackendGameService.SampleShape` | src/CriticalThinking.Tests/Helpers/TestDbContextFactory.cs:28-35 | the test catalogue has ids 1 to 5 in order, three Easy fallacies, then one Medium and one Hard |
| `BackendGameService.PartiallyCorrectExample` | src/CriticalThinking.Tests/Services/GameServiceTests.cs:151-179 | on any catalogue with the test catalogue's ids and levels, selecting fallacies 1 and 3 when the passage holds 1 and 2 gives one result of each verdict and accuracy 1/2, whatever the passage text |
| `BackendGameService.OfferedAtIsAtMost` | src/CriticalThinking.Backend/Services/GameService.cs:149-160 | the switch offers a fallacy exactly at the levels at or above its own |
| `BackendGameService.FallaciesByDifficulty` | src/CriticalThinking.Backend/Services/GameService.cs:144-169 | the options are the offered fallacies' id, name, key and description, in catalogue order |
| `BackendGameService.OfferedExactly` | src/CriticalThinking.Backend/Services/GameService.cs:144-169 | every catalogue fallacy at or below the level is offered, and every offered fallacy is at or below it |
| `BackendGameService.OfferedListsNested` | src/CriticalThinking.Backend/Services/GameService.cs:146-158 | Easy's list is inside Medium's, Medium's inside Hard's, and Hard offers the whole catalogue |
| `BackendGameService.SampleEasyLevel` | src/CriticalThinking.Tests/Services/GameServiceTests.cs:75-87 | a catalogue with the test catalogue's ids and levels offers its three Easy fallacies at Easy, every offered id at most 3 |
| `BackendGameService.SampleMediumLevel` | src/CriticalThinking.Tests/Services/GameServiceTests.cs:89-101 | a catalogue with the test catalogue's ids and levels offers four fallacies at Medium, every offered id at most 4 |
| `BackendGameService.GroundTruth` | src/CriticalThinking.Backend/Services/GameService.cs:84-86 | the ground truth consists of catalogue fallacies, at most one per mapping |
| `BackendGameService.AnswersFor` | src/CriticalThinking.Backend/Services/GameService.cs:101-117 | one answer row per result, with `IsCorrect` set exactly for the correct ones and the verdict copied |
| `BackendGameService.GameService.FindFirstWord` | src/CriticalThinking.Backend/Services/GameService.cs:237-246 | the word loop stops at exactly the word `FirstFoundWord` picks, or finds none when it picks none |
| `BackendGameService.GameService.FindFallacyPosition` | src/CriticalThinking.Backend/Services/GameService.cs:251-265 | the loop returns the position of the first found word, as `Position` specifies |
| `BackendGameService.GameService.ExtractFallacyReference` | src/CriticalThinking.Backend/Services/GameService.cs:230-249 | the loop returns the excerpt around the first found word, as `Reference` specifies |
| `BackendGameService.GameService.ReportEach` | src/CriticalThinking.Backend/Services/GameService.cs:179-191 | the loop builds exactly `Reports` |
| `BackendGameService.GameService.ReportWrong` | src/CriticalThinking.Backend/Services/GameService.cs:194-209 | the loop over the wrong answers builds exactly `WrongReports` |
| `BackendGameService.GameService.AnalyzeAnswers` | src/CriticalThinking.Backend/Services/GameService.cs:172-228 | the three loops build exactly `ExpectedResults` |
| `BackendGameService.GameService.Evaluate` | src/CriticalThinking.Backend/Services/GameService.cs:79-95 | the time taken, the results against the passage's fallacies, the score of their counts and the stats are those `SubmitResponse` specifies |
| `BackendGameService.GameSession.Complete` | src/CriticalThinking.Backend/Services/GameService.cs:119-121 | closing a session sets `CompletedAt`, `TimeTakenSeconds` and `Score` |
| `BackendGameService.GameService.StoreAnswers` | src/CriticalThinking.Backend/Services/GameService.cs:101-117 | the answer rows `AnswersFor` gives are appended and the sessions are untouched |
| `BackendGameService.GameService.SubmitGame` | src/CriticalThinking.Backend/Services/GameService.cs:61-142 | an unknown session gives "Invalid session ID" and a completed one "Game session already completed", both changing nothing. Otherwise: the elapsed time truncated to whole seconds; the results, score and stats computed; the answers stored under the submitted session id; `CompletedAt`, `TimeTakenSeconds` and `Score` set. Every session stays stored under its own id (`Valid`), since the lookup matches `Id` |
| `BackendGameService.GameService.SubmitTwice` | src/CriticalThinking.Backend/Services/GameService.cs:74-77 | after a successful submission the next one on that session is rejected as already completed |
| `ApiGameService.FindFallacy` | src/CriticalThinkingGame.ApiService/Services/GameService.cs:146 | `FindAsync` returns the catalogue fallacy with that id, or nothing when no fallacy has it |
| `ApiGameService.ResultsShape` | src/CriticalThinkingGame.ApiService/Services/GameService.cs:118-161 | the first entries mirror the stored text fallacies one for one (duplicates included), Correct exactly when selected, with the stored indices; every later entry is Incorrect at 0..0, for a selected id outside the passage that the catalogue resolves |
| `ApiGameService.IncorrectSelectionReported` | src/CriticalThinkingGame.ApiService/Services/GameService.cs:143-158 | every selected id outside the passage that resolves gets an Incorrect entry |
| `ApiGameService.IncorrectEntry` | src/CriticalThinkingGame.ApiService/Services/GameService.cs:143-158 | an id the catalogue resolves, in the list, has an Incorrect entry carrying it |
| `ApiGameService.UnknownSelectionDropped` | src/CriticalThinkingGame.ApiService/Services/GameService.cs:146-147 | an id outside the passage that does not resolve leaves no entry at all |
| `ApiGameService.SumPointsCounts` | src/CriticalThinkingGame.ApiService/Services/GameService.cs:167-175 | the summed points are 10 × Correct − 5 × Incorrect, and Missed counts nothing |
| `ApiGameService.TimeBonus` | src/CriticalThinkingGame.ApiService/Services/GameService.cs:177-181 | the bonus is never negative, is 1–5 for 0 ≤ t < 60 and 0 from 60 s on |
| `ApiGameService.TimeBonusRange` | src/CriticalThinkingGame.ApiService/Services/GameService.cs:177-181 | for 0 ≤ t < 60 the bonus is 1–5, from 60 on it is 0, and it is never negative |
| `ApiGameService.ScoreBounds` | src/CriticalThinkingGame.ApiService/Services/GameService.cs:163-184 | the score is never negative, and with no Incorrect entry it is at least 10 per Correct one |
| `ApiGameService.JoinSelectedMembers` | src/CriticalThinkingGame.ApiService/Services/GameService.cs:197-201 | the joined rows are exactly the passage's text fallacies whose fallacy id was selected |
| `ApiGameService.SelectionRows` | src/CriticalThinkingGame.ApiService/Services/GameService.cs:203-213 | one row per joined text fallacy, for this session, marked correct |
| `ApiGameService.AvailableFallacies` | src/CriticalThinkingGame.ApiService/Services/GameService.cs:230-255 | at most the catalogue's size, and every offered fallacy is available at the level |
| `ApiGameService.OfferedIffAvailable` | src/CriticalThinkingGame.ApiService/Services/GameService.cs:230-255 | a catalogue fallacy is offered exactly when the level filter keeps it |
| `ApiGameService.AvailableIsInclusiveUpward` | src/CriticalThinkingGame.ApiService/Services/GameService.cs:230-255 | a fallacy is offered at a level exactly when its level number is at most that level's |
| `ApiGameService.HardOffersAll` | src/CriticalThinkingGame.ApiService/Services/GameService.cs:242-244 | Hard applies no filter and offers the whole catalogue, in order |
| `ApiGameService.GameService.GetGameSession` | src/CriticalThinkingGame.ApiService/Services/GameService.cs:94-108 | returns the session exactly when the id is known, otherwise "Game session not found" |
| `ApiGameService.GameService.ValidateGameSession` | src/CriticalThinkingGame.ApiService/Services/GameService.cs:110-116 | refuses exactly the completed sessions, with "Game session already completed" |
| `ApiGameService.GameService.AnalyzeAnswers` | src/CriticalThinkingGame.ApiService/Services/GameService.cs:118-161 | the two loops build exactly `ExpectedResults` |
| `ApiGameService.GameService.CalculateScore` | src/CriticalThinkingGame.ApiService/Services/GameService.cs:163-184 | the loop and the bonus give exactly `Score` |
| `ApiGameService.GameService.CompleteGameSession` | src/CriticalThinkingGame.ApiService/Services/GameService.cs:186-216 | sets the end time and score, marks the session completed, and appends one row per joined selection |
| `ApiGameService.GameService.SubmitAnswer` | src/CriticalThinkingGame.ApiService/Services/GameService.cs:72-92 | unknown and completed sessions are refused with nothing changed. Otherwise the response holds `Score`, the truncated elapsed seconds and `ExpectedResults`, and the session is completed with that score. The selection rows carry the submitted session id, and every session stays stored under its own id (`Valid`) |
| `ApiGameService.GameService.SubmitTwice` | src/CriticalThinkingGame.ApiService/Services/GameService.cs:110-116 | after a successful submission the next one is refused as already completed |
| `ApiGameService.SingleCorrectSelection` | src/CriticalThinkingGame.Tests/UnitTest1.cs:92-119 | one correct selection on the seeded passage gives a single Correct entry and a positive score, whatever the elapsed time |
| `GameStore.ActiveValue` | src/CriticalThinking.Frontend/src/stores/gameStore.ts:20 | `isPlaying && sessionId` is `false` when not playing, and otherwise the session id value itself |
| `GameStore.ActiveMeaning` | src/CriticalThinking.Frontend/src/stores/gameStore.ts:20 | a game is active exactly when it is playing and the session id is a non-empty string |
| `GameStore.ActiveValueIsNotBoolean` | src/CriticalThinking.Frontend/src/stores/__tests__/gameStore.test.ts:140-153 | as written, the computed yields `null` or the session string where the test expects `false` or `true` |
| `GameStore.ActiveTestSequence` | src/CriticalThinking.Frontend/src/stores/__tests__/gameStore.test.ts:140-153 | the boolean reading walks the test's truth table: false, false, true, false |
| `GameStore.ElapsedSeconds` | src/CriticalThinking.Frontend/src/stores/gameStore.ts:21-24 | 0 when either instant is missing; otherwise the whole seconds between them, rounded down |
| `GameStore.ElapsedSecondsExample` | src/CriticalThinking.Frontend/src/stores/__tests__/gameStore.test.ts:126-138 | no instants give 0, and two instants 2 min 30 s apart give 150 |
| `GameStore.ElapsedSecondsMonotone` | src/CriticalThinking.Frontend/src/stores/gameStore.ts:21-24 | a later end never gives fewer seconds |
| `GameStore.ToggleTestSequence` | src/CriticalThinking.Frontend/src/stores/__tests__/gameStore.test.ts:106-124 | toggling 1, 2, 1, 2 from nothing gives [1], [1, 2], [2], [] |
| `GameStore.GameStore.IsGameActive` | src/CriticalThinking.Frontend/src/stores/gameStore.ts:20 | read as a boolean, the game is active exactly when it is playing and holds a non-empty session id |
| `GameStore.GameStore.TimeTaken` | src/CriticalThinking.Frontend/src/stores/gameStore.ts:21-24 | 0 while either instant is missing, otherwise the whole seconds between them rounded down |
| `GameStore.GameStore.constructor` | src/CriticalThinking.Frontend/src/stores/gameStore.ts:7-18 | the store starts in the initial state, inactive, with no time taken |
| `GameStore.GameStore.StartGame` | src/CriticalThinking.Frontend/src/stores/gameStore.ts:26-47 | the name and difficulty are stored before the call. On success the session, text and fallacies are set, the selection, end time and results are cleared, and play starts. A failure is rethrown and leaves the rest untouched |
| `GameStore.GameStore.SubmitGame` | src/CriticalThinking.Frontend/src/stores/gameStore.ts:49-71 | without a truthy session id or a start time it rejects with "No active game session" and changes nothing. Otherwise the end time is set before the call; on success the results are stored and play stops; a failure is rethrown and the end time stays set |
| `GameStore.GameStore.ToggleFallacy` | src/CriticalThinking.Frontend/src/stores/gameStore.ts:73-80 | the selection becomes `Toggled` of the old one, keeping it duplicate-free, and nothing else changes |
| `GameStore.GameStore.ResetGame` | src/CriticalThinking.Frontend/src/stores/gameStore.ts:82-95 | every field returns to exactly its initial value |
| `GameClientStore.ErrorMessage` | src/CriticalThinkingGame.Frontend/src/stores/game.ts:41 | an `Error`'s message is kept and any other thrown value gives the fallback text |
| `GameClientStore.DifficultyName` | src/CriticalThinkingGame.Frontend/src/stores/game.ts:83-94 | 1, 2, 3 map to "Easy", "Medium", "Hard", and the result is "Unknown" exactly for every other value |
| `GameClientStore.DifficultyNamesDistinct` | src/CriticalThinkingGame.Frontend/src/stores/game.ts:83-94 | every enum level has its own name, never "Unknown" |
| `GameClientStore.GameStore.IsGameActive` | src/CriticalThinkingGame.Frontend/src/stores/game.ts:21 | only a started game can be active, and a game with a recorded result never is |
| `GameClientStore.GameStore.constructor` | src/CriticalThinkingGame.Frontend/src/stores/game.ts:12-18 | the store starts with no game, no result, no error, not loading, and so inactive |
| `GameClientStore.GameStore.StartGame` | src/CriticalThinkingGame.Frontend/src/stores/game.ts:26-45 | the name is stored and loading is over at the end. On success the game is installed with an empty selection and no result, so it is active. On failure the error message is recorded and the old game, result, selection and start time are kept |
| `GameClientStore.GameStore.SubmitAnswer` | src/CriticalThinkingGame.Frontend/src/stores/game.ts:47-64 | a no-op without a current game. Otherwise, on success the result is stored and the game stops being active; on failure "Failed to submit answer" or the error's own message is recorded and the old result kept. Loading is over either way |
| `GameClientStore.GameStore.ToggleFallacy` | src/CriticalThinkingGame.Frontend/src/stores/game.ts:66-73 | the selection becomes `Toggled` of the old one, keeping it duplicate-free, and nothing else changes |
| `GameClientStore.GameStore.ResetGame` | src/CriticalThinkingGame.Frontend/src/stores/game.ts:75-81 | clears the game, result, selection, start time and error, but keeps the player name and the loading flag |

## Findings

| source | as written | input that shows it | evidently intended | confidence | as-written member | corrected member |
|---|---|---|---|---|---|---|
| src/CriticalThinking.Frontend/src/stores/gameStore.ts:20 | `isGameActive` computes `isPlaying && sessionId`, which yields `null` or the session string rather than a boolean | `isPlaying = true` with `sessionId = null` yields `null`; the test at `gameStore.test.ts:146` expects `false` (and `true` at line 149, where the code yields `'test-session'`) | a boolean: playing and holding a non-empty session id | not executed; follows from JavaScript's `&&` semantics | `GameStore.ActiveValueIsNotBoolean` | `GameStore.ActiveMeaning` |

The rest of the model reads `isGameActive` through the corrected boolean `GameStore.Active`, which `GameStore.GameStore.IsGameActive` uses.

## Left out

- Scoring.TimeBonus: computed exactly, not in `double`. The two differ where `50 * (1 - t / opt)` is mathematically an integer but the `double` product lands just below it. For example, t = 240 on Medium gives 10 exactly but 9 in `double`. The contract states only that the bonus is never negative; its ranges are proved separately.
- Scoring.ApplyMultiplier: the Medium factor is exact `3x / 2` rather than a `double` product, so rounding error in the product is not modelled.
- BackendGameService.StatsAddUp: requires a selection without repeats. `SubmitGameAsync` does not reject a repeated id, and `CorrectIds` keeps repeats, so a repeated correct id makes correct plus missed exceed `TotalFallacies` and the accuracy exceed 1 (`BackendGameService.RepeatedSelectionOvercounts`). The store's toggle is what keeps selections free of repeats (`Common.ToggledNoDup`).
- Session identifiers: the first generation's session id is a `Guid` (generated on creation, sent as a string). Here it is an `int` key of the session map. Only equality of ids is used, so nothing observable depends on the representation, and the generation of fresh ids is left out.
- Integer width: all C# and JavaScript integers are unbounded here, so 32-bit overflow of scores, offsets and counts is not modelled.
- Persistence: EF Core contexts, `Include` loading, `SaveChangesAsync`, migrations and seed data are not modelled.
  - Stored rows are sequences on the service objects.
  - The ground truth is resolved from the mappings by id (`BackendGameService.GroundTruth`, which drops a mapping whose fallacy is missing).
  - The second generation's `TextFallacy` carries the name loaded through its navigation property.
- Clock: `DateTime.UtcNow`, `DateTime.Parse` of `CompletedAt`, `new Date()` and `new Date(response.startedAt)` are not modelled. Instants are integer milliseconds passed in, and date parsing is left out.
- `ApiGameService.GameService.SubmitAnswer`: it takes two clock readings, because the source reads the clock twice (one for the elapsed time, one for `EndTime`). The `SelectedAt` timestamp of the stored rows is left out.
- Randomness: `Random` is a script of values, so the distribution of choices is not modelled.
  - Every property holds for any script.
  - `OrderBy(_ => _random.Next())` is modelled as some permutation, not a particular one.
- Text handling: `ToLower` and `IndexOf` are culture-sensitive in .NET. Here case folding covers ASCII letters only and comparison is ordinal.
- `StartGameAsync` of both services is not modelled, nor `GetLogicalFallaciesAsync` (session creation and listing plumbing). The first generation's passage generation it triggers is modelled in `TextGeneration`.
- The `_ => throw` arms of the answer-type and difficulty switches are not represented: the modelled enums make them unreachable.
- The controllers, the API clients (`api.ts`, `gameApi.ts`), the router, the Vue components, the locale helpers and `console.error` are not modelled; they are thin plumbing.
- Async interleaving: each store action runs to completion, so the intermediate `isLoading = true` state of `game.ts` is not observable, and no concurrent double submission is modelled (the source has no atomic check to preserve).
- `game.ts`: the `gameText` and `availableFallacies` display getters are not modelled, nor the difficulty and language code forwarded to the start and submit calls. These only pass data to the API.
