# Kahoot-style quiz game: a verified model of its game core

This project models the core of a real-time quiz game. A host creates a game from a
quiz. Players join with a six-character code and answer timed multiple-choice questions.
Scoring rewards speed and answer streaks. At the end there is a ranking, a podium and
persistent statistics for registered players.

The model covers:

- the backend game engine (`GameService`), its scoring rules (`ScoringService`) and
  its game-code generator;
- the Socket.IO handlers that drive the engine (`gameSocket`), including the FAST and
  WAIT_ALL advance flows and their timers;
- the request validators, the body size limiter, the socket rate limiter and connection
  tracker, and the IP blacklist;
- the frontend game store, the question editor, and the quiz builder and game creation
  pages.

Each source file is one Dafny module:

| module | file | models |
|---|---|---|
| `Scoring` | scoring.dfy | points, accuracy and streak rules |
| `CodeGenerator` | code_generator.dfy | game codes over the 32-character alphabet |
| `GameTypes` | game_types.dfy | the shared entities and lookups |
| `Games` | games.dfy | the `Game` record and the `GameService` class over its map of active games |
| `GameSocket` | game_socket.dfy | the handler class |
| `Validators` | validators.dfy | the socket validators and the quiz-creation rules |
| `Security` | security.dfy | the body size limiter |
| `SocketProtection` | socket_protection.dfy | the rate limiter and connection tracker classes |
| `Blacklist` | blacklist.dfy | the blacklist class, client-IP extraction and the middleware |
| `GameStore` | game_store.dfy | the frontend store |
| `QuestionEditor` | question_editor.dfy | the question editor component |
| `QuizCreatePage` | quiz_create_page.dfy | the quiz builder page |
| `CreateGamePage` | create_game_page.dfy | the game creation page |

Four helper modules support them:

- `JsText`: `String.prototype.trim`, ASCII `toLowerCase`, UTF-16 length and decimal
  rendering.
- `StableSort`: the stable `Array.prototype.sort`.
- `MapSum`: sums over maps.
- `Wrappers`: `Option` and `Result`.

Objects whose fields the source updates become classes with `modifies` clauses. For
example, `Game`, `GameService`, `GameSocketHandler`, `SocketRateLimiter`,
`ConnectionTracker`, `IPBlacklist`, `Store`, `Editor`, `QuizBuilder` and
`GameCreator`. Pure code becomes functions and lemmas.

The side effects of the socket handler are modelled as state:

- **Emits.** Every `socket.emit`, `io.to(code).emit` and `io.emit` is appended to an
  event log (`events`).
- **Timers.** Every `setTimeout` callback becomes an entry in a list of pending timers
  (`pending`). `RunTimer` runs one entry, whenever the environment chooses.
- **Crashes.** A timer callback that would throw is reported as `crashed`, because the
  server's uncaught-exception handler ends the process
  (backend/src/server.ts:96-100). This covers a lookup of a removed game and a cohort
  member without state.
- **Inputs.** Clocks, random code picks, database results and the Supabase user id
  are parameters.

The model keeps these behaviours of the code as written:

- the client's raw `timeElapsed` is stored in the answer record (backend/src/services/GameService.ts:661),
  while the validated value is used only for scoring (backend/src/services/GameService.ts:605-632);
- a player may submit again for the same question: `submitPlayerAnswer` does not look
  at `hasAnsweredCurrent` (backend/src/services/GameService.ts:578-641);
- `removePlayer` keeps the player's state entry (backend/src/services/GameService.ts:437-447);
- `finishGame` has no status check and may run more than once (backend/src/services/GameService.ts:369-380);
- the stored `bestStreak` is the player's current streak at the end (backend/src/services/GameService.ts:408);
- a correct option missing from a question makes `find(...)!.id` throw after the
  player's statistics and state were updated (backend/src/services/GameService.ts:643-678).

## Model

| member | source | states |
|---|---|---|
| Scoring.SpeedPoints | backend/src/services/ScoringService.ts:39-50 | for a non-zero limit, speed points are at least 200 and at most 1000 for a non-negative elapsed time: 1000 at zero elapsed time, 200 at or past the limit, and 200 for any negative limit |
| Scoring.SpeedPointsAre | backend/src/services/ScoringService.ts:39-50 | the seconds-based formula equals 800 times elapsed/limit, with elapsed capped at the limit |
| Scoring.StreakMultiplier | backend/src/services/ScoringService.ts:56-65 | the multiplier is 1 without a streak, 1 + 0.1 per streak step, and capped at 2.0 from streak 10 on |
| Scoring.CalculatePoints | backend/src/services/ScoringService.ts:29-68 | for a non-zero limit, points are at least 200 and at most 2000; a negative limit gives 200 times the streak bonus; without a streak they are 1000 for an instant answer and 200 at the limit |
| Scoring.SpeedPointsNonIncreasing | backend/src/services/ScoringService.ts:39-50 | answering later never earns more speed points |
| Scoring.PointsNonIncreasingInElapsed | backend/src/services/ScoringService.ts:29-68 | for a fixed streak, points never increase with elapsed time |
| Scoring.CalculatePointsMonotonic | backend/src/services/ScoringService.ts:29-68 | more speed points and a larger streak bonus never give fewer points |
| Scoring.PointsNonDecreasingInStreak | backend/src/services/ScoringService.ts:29-68 | for a fixed time, a longer streak never earns fewer points |
| Scoring.StreakCapped | backend/src/services/ScoringService.ts:56-65 | every streak of 10 or more scores exactly like a streak of 10 |
| Scoring.JsRound | backend/src/services/ScoringService.ts:78 | Math.round lands within half a unit of its argument |
| Scoring.CalculateAccuracy | backend/src/services/ScoringService.ts:76-79 | accuracy is 0 with no answers or no correct answers, 100 when all are correct, and always within 0..100 |
| Scoring.UpdateStreak | backend/src/services/ScoringService.ts:87-92 | a correct answer extends the streak by one; a wrong one resets it to 0 |
| Scoring.StreakAfterRun | backend/src/services/ScoringService.ts:87-92 | after a run of answers the streak is the old streak plus the run if all were correct, else the trailing correct run |
| Scoring.StreakCountsTrailingRun | backend/src/services/ScoringService.ts:87-92 | from 0, the streak equals the number of trailing correct answers |
| Scoring.TrailingOfTail | backend/src/services/ScoringService.ts:87-92 | the trailing correct run of a sequence is decided by its tail unless the whole tail is correct |
| Scoring.AllCorrectTrailing | backend/src/services/ScoringService.ts:87-92 | when every answer is correct the trailing run is the whole sequence |
| CodeGenerator.GenerateGameCode | backend/src/utils/codeGenerator.ts:8-19 | any six picks from the alphabet give a code the validator accepts, each character being the picked one |
| CodeGenerator.IndexOf | backend/src/utils/codeGenerator.ts:8-9 | finds the first position of an alphabet character |
| CodeGenerator.ValidCodeIsGenerated | backend/src/utils/codeGenerator.ts:17-33 | every code the validator accepts is one the generator can produce |
| CodeGenerator.AlphabetCharacters | backend/src/utils/codeGenerator.ts:8-9 | the alphabet is exactly the digits 2-9 and the capitals without I and O |
| CodeGenerator.AlphabetEntryUnambiguous | backend/src/utils/codeGenerator.ts:8-9 | no alphabet entry is 0, 1, I or O |
| CodeGenerator.UnambiguousInAlphabet | backend/src/utils/codeGenerator.ts:8-9 | every digit 2-9 and every capital other than I and O is in the alphabet |
| CodeGenerator.RejectsAmbiguousCharacters | backend/src/utils/codeGenerator.ts:26-33 | a code containing 0, 1, O, I or a lower-case letter is refused |
| CodeGenerator.RejectsWrongLength | backend/src/utils/codeGenerator.ts:26-33 | a code whose length is not 6 is refused |
| GameTypes.FindPlayer | backend/src/services/GameService.ts:593-596 | finds the first roster slot with the id, or None exactly when no player has it |
| GameTypes.FindOption | backend/src/services/GameService.ts:598-601 | the first option with the id, as find returns it, or None exactly when no option has it |
| GameTypes.CorrectOptionId | backend/src/services/GameService.ts:678 | the id of the first correct option, or None exactly when none is correct |
| JsText.TrimStart | backend/src/middleware/validators.ts:167 | strips exactly the leading whitespace: the result is a suffix that does not start with whitespace |
| JsText.TrimEnd | backend/src/middleware/validators.ts:167 | strips exactly the trailing whitespace: the result is a prefix that does not end with whitespace |
| JsText.Trim | backend/src/middleware/validators.ts:167 | the trimmed string neither starts nor ends with whitespace |
| JsText.TrimEmptyIffBlank | frontend/components/QuestionEditor.tsx:56 | a string trims to empty exactly when it is all whitespace |
| JsText.TrimIdempotent | frontend/app/quizzes/create/page.tsx:76-77 | trimming twice is trimming once |
| JsText.ToLower | backend/src/services/GameService.ts:110 | lower-casing keeps the length and maps each character through the ASCII lower-case map |
| JsText.BeforeFirst | backend/src/middleware/blacklist.ts:166 | the prefix before the first separator, which does not contain the separator |
| JsText.Utf16Length | backend/src/middleware/validators.ts:169 | the UTF-16 length lies between the code-point count and twice it, and equals it on the basic plane |
| JsText.DecimalString | frontend/components/QuestionEditor.tsx:78 | renders a number as digits with no leading zero |
| JsText.DecimalRoundTrip | frontend/components/QuestionEditor.tsx:78 | reading back the rendered digits gives the number |
| JsText.DecimalStringInjective | frontend/components/QuestionEditor.tsx:78 | different numbers render differently |
| StableSort.Insert | backend/src/services/GameService.ts:326-332 | insertion adds exactly the new element |
| StableSort.Sort | backend/src/services/GameService.ts:326-332 | the result is a permutation of the input, sorted under a strict order, and under a strict weak order the elements of each tie class keep their input order |
| StableSort.InsertSorted | backend/src/services/GameService.ts:326-332 | inserting into a sorted list under a strict order keeps it sorted |
| StableSort.InsertStable | backend/src/services/GameService.ts:326-332 | inserting into a sorted list puts the new element after every element tied with it |
| StableSort.ClassConcat | backend/src/services/GameService.ts:326-332 | the tie class of a concatenation is the concatenation of the tie classes |
| MapSum.SumRemove | backend/src/middleware/socketProtection.ts:278-281 | a map's total is one entry plus the total of the rest |
| MapSum.SumUpdate | backend/src/middleware/socketProtection.ts:278-281 | overwriting an entry changes the total by the difference |
| MapSum.SumBounded | backend/src/middleware/socketProtection.ts:278-281 | entries within 0..b total at most b times the number of keys |
| Games.RankedBeforeIsStrictWeakOrder | backend/src/services/GameService.ts:326-332 | the comparator (score, then accuracy, then earlier join) is a strict weak order, under which players tie exactly when score, accuracy and join time agree |
| Games.Ranking | backend/src/services/GameService.ts:319-337 | the ranking is a permutation of the players, sorted by the comparison, with ranks 1..n in order; players tied on score, accuracy and join time keep their roster order |
| Games.BaseUrl | backend/src/sockets/gameSocket.ts:36 | the base URL is FRONTEND_URL when set and non-empty, else http://localhost:3000 |
| Games.JoinUrl | backend/src/services/GameService.ts:82 | the join URL is the base URL, then "/join/", then the game code, each recoverable from its position |
| Games.Take | backend/src/services/GameService.ts:339 | slice(0, n) keeps the first min(n, length) entries |
| Games.WinnerIsTopScorer | backend/src/services/GameService.ts:326-337 | rank 1 has the highest score, and the highest accuracy among those tied with it |
| Games.PodiumBonus | backend/src/services/GameService.ts:399 | the podium bonus is 500, 300 and 100 for ranks 1 to 3 and 0 otherwise |
| Games.XpEarned | backend/src/services/GameService.ts:400 | experience is floor(score / 10) plus the podium bonus |
| Games.StatsUpdateFor | backend/src/services/GameService.ts:394-416 | the update for a registered player carries their Supabase id, a win exactly at rank 1, podium exactly at ranks 1-3, their answer and correct-answer counts, the current streak as bestStreak, and the experience earned |
| Games.StatsUpdates | backend/src/services/GameService.ts:394-416 | an update is made for exactly the ranked players with a Supabase id, each being that player's update |
| Games.StatsUpdatesInRankingOrder | backend/src/services/GameService.ts:394-416 | there is one update per registered player, in ranking order: the k-th entry's update follows those of the registered players ranked before it |
| Games.GuestsGetNoUpdates | backend/src/services/GameService.ts:394-396 | a game of guests persists nothing |
| Games.ValidatedElapsed | backend/src/services/GameService.ts:605-632 | the client time, clamped to 0..limit+3000, is kept only within 2000 ms of the server's measurement, else the server's is used; without a start time the client's is used |
| Games.ValidatedElapsedBounded | backend/src/services/GameService.ts:605-632 | when the server measures within 0..limit+3000, the validated time is within that range too |
| Games.Answered | backend/src/services/GameService.ts:643-653 | an answer counts one more answer, one more correct one and adds points only if correct, updates the streak and recomputes accuracy, keeping the player's identity |
| Games.AnsweredKeepsStats | backend/src/services/GameService.ts:643-653 | answers keep 0 <= correct <= total, streak <= correct, accuracy within 0..100 and score >= 200 per correct answer; the score never drops |
| Games.RecordedKeepsTally | backend/src/services/GameService.ts:673-688 | after recording an answer, the option votes still add up to the answers recorded, one more than before |
| Games.Recorded | backend/src/services/GameService.ts:673-688 | one more answer in a results entry: an existing entry keeps its question, player count and correct option and gets the answer appended and one more vote for its option, other votes unchanged; a missing entry is opened from the question and its first correct option |
| Games.QuestionStarted | backend/src/services/GameService.ts:533-562 | starting a question moves to the next index; past the last one the player is finished without a start time, else answering from now |
| Games.WithoutPlayer | backend/src/services/GameService.ts:437-447 | removal keeps exactly the players with other ids, in order; an absent id changes nothing |
| Games.WithoutPlayerRemovesSlot | backend/src/services/GameService.ts:437-447 | with distinct ids, removing the player in slot k leaves the players before and after it, in order |
| Games.WithoutPlayerShrinks | backend/src/services/GameService.ts:437-447 | with distinct ids, removal keeps them distinct and drops exactly one player when present |
| Games.StatsRow | backend/src/services/GameService.ts:480-499 | correct plus incorrect answers equal the player's total |
| Games.ScoreAboveIsStrictWeakOrder | backend/src/services/GameService.ts:501 | the stats comparator b.score - a.score is a strict weak order under which rows tie exactly when their scores are equal |
| Games.StatsTable | backend/src/services/GameService.ts:480-502 | the rows are the players' rows, permuted into non-increasing score order, with rows of equal score kept in roster order |
| Games.MaxOf | backend/src/services/GameService.ts:474-478 | Math.max over a non-empty set is a member bounding all the others |
| Games.DerivedQuestionIndex | backend/src/services/GameService.ts:474-478 | the reported question index is the furthest any player has reached, or the game's own index with no player states |
| Games.QuestionHistory | backend/src/services/GameService.ts:385-388 | one entry per question, in order, with that question's results when recorded |
| Games.AllFinished | backend/src/services/GameService.ts:737-744 | true exactly when every rostered player has a state in phase finished |
| Games.Adjudicate | backend/src/services/GameService.ts:578-641 | the checks run in order: state, current question, roster, option; a correct answer to a question with a zero time limit is refused because its points would not be finite; an accepted answer carries the option's correctness, the raw client time and, when correct, the points for the validated time and the player's streak; a wrong answer earns nothing |
| Games.InitializeStates | backend/src/services/GameService.ts:160-169 | every rostered player gets a fresh waiting state at index -1, and no one else gets a state |
| Games.Game.AnsweredHaveAnswers | shared/types/index.ts:99-115 | in a valid game, a player marked as having answered has an answer on record |
| Games.Game.constructor | backend/src/services/GameService.ts:60-74 | a new game is in the lobby with no players, states or results, at question index -1 |
| Games.Game.RecordAnswer | backend/src/services/GameService.ts:643-688 | recording updates the roster slot, appends the answer to the player's state and marks them answered and waiting; then the question's results take the answer when the entry exists or the question has a correct option, and are left as they were otherwise |
| Games.GameService.GameIsValid | backend/src/services/GameService.ts:28 | every stored game satisfies its invariant |
| Games.GameService.StillValid | backend/src/services/GameService.ts:28 | changing one game while keeping it valid keeps the whole service valid |
| Games.GameService.constructor | backend/src/services/GameService.ts:28 | the service starts with no active games |
| Games.GameService.CreateGame | backend/src/services/GameService.ts:38-89 | a missing quiz fails with no change; otherwise a fresh lobby game under the generated code is added and nothing else changes |
| Games.GameService.JoinGame | backend/src/services/GameService.ts:98-134 | fails for an unknown code, a started game, or a name taken ignoring case; otherwise appends a fresh waiting player with zeroed stats |
| Games.GameService.StartGame | backend/src/services/GameService.ts:142-179 | only the host can start, only from the lobby; the game then plays from index 0 and every player gets a fresh state |
| Games.GameService.StartPlayerQuestion | backend/src/services/GameService.ts:533-562 | a player with state moves to their next question, and only that state changes |
| Games.GameService.SubmitPlayerAnswer | backend/src/services/GameService.ts:572-691 | a refused answer changes nothing and reports the first failing check; an accepted one updates the player and their state as adjudicated, then records the results and returns the answer, or, when a missing entry has no correct option to open it with, keeps the results and reports the error the lookup throws |
| Games.GameService.AdvancePlayerToNextQuestion | backend/src/services/GameService.ts:699-718 | reports whether a next question exists; at the end the player is marked finished, and otherwise nothing changes |
| Games.GameService.MoveToNextQuestion | backend/src/services/GameService.ts:349-362 | the game index always moves on by one; the result says whether it still names a question |
| Games.GameService.FinishGame | backend/src/services/GameService.ts:369-421 | marks the game finished now and returns the ranking, the top-3 podium, the question history and the stats updates |
| Games.GameService.RemovePlayer | backend/src/services/GameService.ts:437-447 | the player with the id is dropped from the roster; an unknown game is untouched |
| Games.GameService.GetRanking | backend/src/services/GameService.ts:319-342 | an unknown game is an error; otherwise the ranking of its players and its first five entries |
| Games.GameService.GetPlayerState | backend/src/services/GameService.ts:521-525 | the stored state when the game and the player are known, else None |
| Games.GameService.HasPlayerFinished | backend/src/services/GameService.ts:726-730 | true exactly when the player's state exists and is finished |
| Games.GameService.HaveAllPlayersFinished | backend/src/services/GameService.ts:737-744 | true exactly when the game exists and each rostered player has finished; vacuously true for an empty roster |
| Games.GameService.GetGameStats | backend/src/services/GameService.ts:454-509 | None for an unknown game; otherwise the derived question index, the question count and the stats table |
| GameSocket.SocketOfFound | backend/src/sockets/gameSocket.ts:231-240 | a lookup finds a socket exactly when some pair has the player's id |
| GameSocket.SetSocket | backend/src/sockets/gameSocket.ts:69 | Map.set maps the player to the new socket, keeps every other player's socket, and appends a new key at the end |
| GameSocket.SetSocketKeepsKeysDistinct | backend/src/sockets/gameSocket.ts:69 | setting a socket keeps player ids unique |
| GameSocket.FirstWithSocket | backend/src/sockets/gameSocket.ts:212-221 | the first entry in insertion order held by the socket, or None when no player holds it |
| GameSocket.RemoveFirstSocket | backend/src/sockets/gameSocket.ts:208-222 | a disconnect removes exactly the first player on that socket, keeping the order of the rest |
| GameSocket.RemoveFirstSocketKeepsKeysDistinct | backend/src/sockets/gameSocket.ts:208-222 | the removal keeps player ids unique |
| GameSocket.UnicastDelivers | backend/src/sockets/gameSocket.ts:231-240 | emitToPlayer sends at most one event, nothing to an unknown player, and otherwise exactly to the stored non-empty socket |
| GameSocket.Cohort | backend/src/sockets/gameSocket.ts:413-416 | the cohort is exactly the rostered players whose state is at the given question |
| GameSocket.CohortDistinct | backend/src/sockets/gameSocket.ts:413-416 | with unique player ids, no one appears twice in a cohort |
| GameSocket.FeedbackFor | backend/src/sockets/gameSocket.ts:435-446 | a member with an answer on record and a reachable socket gets one unicast of its last answer's feedback; anyone else gets nothing |
| GameSocket.FeedbackEvents | backend/src/sockets/gameSocket.ts:434-446 | at most one feedback event per cohort member |
| GameSocket.FeedbackEventsMeaning | backend/src/sockets/gameSocket.ts:434-446 | the feedback events are exactly one per member with an answer and a reachable socket, in cohort order, each carrying that member's last answer and the correct option |
| GameSocket.RankOf | backend/src/sockets/gameSocket.ts:367-371 | the player's rank from their first ranking entry, or 0 when absent or 0 |
| GameSocket.RankingEvents | backend/src/sockets/gameSocket.ts:449-460 | at most one ranking event per addressed player |
| GameSocket.RankingTo | backend/src/sockets/gameSocket.ts:231-240 | a reachable player gets one unicast of the ranking, their rank and the top five; an unreachable one gets nothing |
| GameSocket.RankingEventsMeaning | backend/src/sockets/gameSocket.ts:449-460 | the ranking events are exactly one per reachable player, in cohort order, each carrying the ranking, that player's rank and the top five |
| GameSocket.FindEntry | backend/src/sockets/gameSocket.ts:502 | the first ranking entry with the id, or None exactly when none has it |
| GameSocket.RankedIffRostered | backend/src/sockets/gameSocket.ts:492-519 | a player has a ranking entry exactly when they are on the roster |
| GameSocket.RankOfRanking | backend/src/sockets/gameSocket.ts:367-371 | in getRanking's list a rostered player's rank is its 1-based place at its first entry, and a player off the roster gets 0 |
| GameSocket.FinalScreenShows | backend/src/sockets/gameSocket.ts:492-519 | a rostered player's final screen shows the full ranking, their own rank and score, the top-3 podium and the history; an unrostered player gets nothing |
| GameSocket.QuestionStartForSent | backend/src/sockets/gameSocket.ts:273-316 | a question is sent only to a rostered player with a state at a real question and a socket, carrying that question, its 1-based number, the total and the start time |
| GameSocket.QuestionStartForStable | backend/src/sockets/gameSocket.ts:273-316 | the question sent to a player depends only on that player's own state |
| GameSocket.AllStartedStep | backend/src/sockets/gameSocket.ts:255-257 | starting one more roster player extends the set of started players by exactly that player |
| GameSocket.StartedStatesMeaning | backend/src/sockets/gameSocket.ts:246-266 | starting players one by one moves each listed player's state to their next question and leaves the others alone |
| GameSocket.StartedStatesLater | backend/src/sockets/gameSocket.ts:255-257 | later starts leave an earlier player's state alone |
| GameSocket.StartEventsMeaning | backend/src/sockets/gameSocket.ts:246-266 | the events sent while starting players one by one equal those computed from the final states |
| GameSocket.Advanced | backend/src/sockets/gameSocket.ts:377-395 | advancing moves to the next question and answers from now, or finishes the player at the last question |
| GameSocket.AdvancedStatesMeaning | backend/src/sockets/gameSocket.ts:463-479 | advancing a cohort advances each member once and leaves everyone else alone |
| GameSocket.AdvancedStatesUntouched | backend/src/sockets/gameSocket.ts:464-473 | a state no earlier cohort member touched is still the original one |
| GameSocket.AdvancedStatesKeys | backend/src/sockets/gameSocket.ts:464-473 | advancing a cohort never adds or removes a player state |
| GameSocket.FirstMissing | backend/src/sockets/gameSocket.ts:463-479 | the position of the first cohort member with no state, where the advance loop would throw |
| GameSocket.GameSocketHandler.constructor | backend/src/sockets/gameSocket.ts:19-28 | no player sockets, no events and no timers yet |
| GameSocket.GameSocketHandler.EmitToPlayer | backend/src/sockets/gameSocket.ts:231-240 | appends the unicast to the player's socket, if any, and nothing else |
| GameSocket.GameSocketHandler.SendStatsToHost | backend/src/sockets/gameSocket.ts:525-534 | broadcasts the game's stats to its room, or nothing for an unknown game |
| GameSocket.GameSocketHandler.HandleFastModeAdvance | backend/src/sockets/gameSocket.ts:326-400 | for a player with a current answered question, sends feedback on the last answer and schedules the ranking step; otherwise nothing |
| GameSocket.GameSocketHandler.EmitFeedback | backend/src/sockets/gameSocket.ts:434-446 | appends exactly the cohort's feedback events, in cohort order |
| GameSocket.GameSocketHandler.HandleWaitAllModeAdvance | backend/src/sockets/gameSocket.ts:407-485 | once every cohort member has answered, sends each feedback and schedules the cohort's ranking step; otherwise nothing |
| GameSocket.GameSocketHandler.AfterAcceptedAnswer | backend/src/sockets/gameSocket.ts:146-162 | the events are exactly the confirmation to the socket, the stats to the room and then the feedback (AcceptedFeedback): the player's own in FAST mode, the whole cohort's once it is complete in WAIT_ALL mode; the matching ranking timer is scheduled |
| GameSocket.GameSocketHandler.OnSubmitAnswer | backend/src/sockets/gameSocket.ts:125-173 | a refused answer sends the service's error, schedules nothing and leaves the game alone; an adjudicated answer updates the roster slot and appends to the player's state (WAITING_RESULTS, answered); when no results entry can be opened only the error follows, otherwise the answer is recorded and the events are exactly the confirmation, the stats and the mode's feedback, with the ranking timer scheduled |
| GameSocket.GameSocketHandler.FinishGameAndBroadcast | backend/src/sockets/gameSocket.ts:540-555 | finishes a known game now and broadcasts the final ranking, podium and history to its room |
| GameSocket.GameSocketHandler.FinishIfAllFinished | backend/src/sockets/gameSocket.ts:389-391 | the game is finished and announced exactly when all its players have finished |
| GameSocket.GameSocketHandler.ShowPlayerFinalScreen | backend/src/sockets/gameSocket.ts:492-519 | sends the player their final screen when they are ranked, and nothing otherwise |
| GameSocket.GameSocketHandler.StartQuestionForPlayer | backend/src/sockets/gameSocket.ts:273-316 | moves the player's state to the next question and sends it to them, leaving the rest of the game frozen |
| GameSocket.GameSocketHandler.StartNth | backend/src/sockets/gameSocket.ts:255-257 | one pass of the roster loop: roster player k is started and sent their question, extending both the started states and the sent events by that player |
| GameSocket.GameSocketHandler.OnCreateGame | backend/src/sockets/gameSocket.ts:34-58 | an unknown quiz is answered with an error; otherwise a game is stored under the generated code, in the requested mode or FAST, and the creator is sent the game as stored, the QR code and the join URL built from FRONTEND_URL or http://localhost:3000 |
| GameSocket.GameSocketHandler.OnJoinGame | backend/src/sockets/gameSocket.ts:61-85 | a refusal sends the service's error with no change; a join records the player's socket, sends them the updated game and their player record, and broadcasts the updated game to all clients |
| GameSocket.GameSocketHandler.OnStartGame | backend/src/sockets/gameSocket.ts:88-122 | a refusal sends the error and leaves the game unchanged; a start sets PLAYING, index 0 and a fresh state for each rostered player only; with no questions an error follows, otherwise the started game goes to its room and the first questions are scheduled |
| GameSocket.GameSocketHandler.OnNextQuestion | backend/src/sockets/gameSocket.ts:176-192 | advances the game index; past the last question the game finishes and is announced |
| GameSocket.GameSocketHandler.OnEndGame | backend/src/sockets/gameSocket.ts:195-205 | a known game is finished now and announced; an unknown one is ignored |
| GameSocket.GameSocketHandler.OnDisconnect | backend/src/sockets/gameSocket.ts:208-222 | forgets the first player on the disconnected socket and nothing else |
| GameSocket.GameSocketHandler.StartEach | backend/src/sockets/gameSocket.ts:255-257 | the loop starts each rostered player in order, sending each their question |
| GameSocket.GameSocketHandler.StartQuestionsForAllPlayers | backend/src/sockets/gameSocket.ts:246-266 | every player is moved to their next question and sent it, then the stats go to the host |
| GameSocket.GameSocketHandler.EmitRankings | backend/src/sockets/gameSocket.ts:449-460 | appends exactly one ranking unicast per cohort member, in order |
| GameSocket.GameSocketHandler.FastRankingStep | backend/src/sockets/gameSocket.ts:365-375 | sends the player the current ranking and schedules their advance; a removed game crashes |
| GameSocket.GameSocketHandler.AdvancePlayer | backend/src/sockets/gameSocket.ts:377-395 | one player advances: their state moves on or finishes, and they are sent their next question or their final screen |
| GameSocket.GameSocketHandler.FastAdvanceStep | backend/src/sockets/gameSocket.ts:377-395 | advances the player or finishes them, sends the next question or the final screen, and finishes the game once all have finished; a missing game or state crashes |
| GameSocket.GameSocketHandler.WaitAllRankingStep | backend/src/sockets/gameSocket.ts:449-460 | sends the ranking to the whole cohort and schedules its advance; a removed game crashes |
| GameSocket.GameSocketHandler.AdvanceCohort | backend/src/sockets/gameSocket.ts:463-479 | advances cohort members in order up to the first one without state, sending each their next step |
| GameSocket.GameSocketHandler.AdvanceNth | backend/src/sockets/gameSocket.ts:464-473 | one pass of the cohort loop: member k advances, extending the advanced states and the sent events by that member |
| GameSocket.GameSocketHandler.WaitAllAdvanceStep | backend/src/sockets/gameSocket.ts:463-485 | advances the whole cohort and finishes the game when all have finished; a member without state crashes after the earlier members advanced |
| GameSocket.GameSocketHandler.RunTimer | backend/src/sockets/gameSocket.ts:109-111 | firing a timer removes it and schedules its follow-up unless it crashed; starting questions never crashes; each kind of timer has exactly the effect of its phase on the games and the event log, as its step method states |
| GameSocket.GameSocketHandler.RunPhase | backend/src/sockets/gameSocket.ts:109-111 | the phase a timer names runs with exactly that phase's effect, and only its follow-up timer is queued, unless it crashed |
| Validators.ValidateGameCode | backend/src/middleware/validators.ts:147-157 | a code is required, and valid exactly when it is six characters from the code class |
| Validators.ValidatePlayerName | backend/src/middleware/validators.ts:162-178 | a name is required exactly when empty, fails on length exactly when its trimmed UTF-16 length is outside 2..50, and is accepted only with allowed characters |
| Validators.GameCodeValidatorsAgree | backend/src/middleware/validators.ts:147-157 | the socket validator and the generator's validator accept the same codes |
| Validators.PlayerNameAccepted | backend/src/middleware/validators.ts:162-178 | a name is accepted exactly when its trimmed form has 2 to 50 characters, all letters, digits, Spanish accents, spaces, hyphens or underscores |
| Validators.BlankNameRefused | backend/src/middleware/validators.ts:162-178 | a non-empty all-blank name fails on length |
| Validators.FormattedUuidAccepted | backend/src/middleware/validators.ts:183-210 | any version-4 UUID in 8-4-4-4-12 hex layout is accepted as a quiz id and as an option id |
| Validators.AcceptedIdIsFormatted | backend/src/middleware/validators.ts:183-194 | every accepted quiz id is such a UUID |
| Validators.ValidateQuizId | backend/src/middleware/validators.ts:183-194 | a quiz id is required exactly when empty and accepted exactly when it is a version-4 UUID in 8-4-4-4-12 hex layout |
| Validators.ValidateOptionIndex | backend/src/middleware/validators.ts:199-210 | an option id is required exactly when empty and accepted exactly when it is a version-4 UUID in 8-4-4-4-12 hex layout |
| Validators.UuidV4IsUuid | backend/src/middleware/validators.ts:44-47 | every id the socket validators accept passes the version-free isUUID check, but the nil UUID passes only the latter |
| Validators.ValidateSocketId | backend/src/middleware/validators.ts:215-225 | a socket id is required, and valid exactly when its length is 10 to 50 |
| Validators.FirstOptionErrorNone | backend/src/middleware/validators.ts:66-81 | no option error exactly when every option has text of at most 500 characters and a boolean flag |
| Validators.CountCorrect | backend/src/middleware/validators.ts:84-87 | the number of options flagged correct |
| Validators.CountCorrectZero | backend/src/middleware/validators.ts:84-87 | no correct option exactly when every flag is false |
| Validators.CountCorrectOne | backend/src/middleware/validators.ts:84-87 | exactly one correct option exactly when one flag is true and the others false |
| Validators.QuestionAcceptedIffWellFormed | backend/src/middleware/validators.ts:54-104 | a question passes exactly when it has text, four well-formed options with one correct, and a time limit and points in range when given |
| Validators.QuestionsAcceptedIffWellFormed | backend/src/middleware/validators.ts:54-104 | the custom check passes exactly when every question is well formed |
| Validators.QuestionErrorLocated | backend/src/middleware/validators.ts:54-104 | a reported error belongs to the first malformed question, numbered from 1 |
| Validators.FirstQuestionErrorIndex | backend/src/middleware/validators.ts:54-104 | the position of that first malformed question |
| Validators.TitleErrors | backend/src/middleware/validators.ts:29-33 | the title chain passes exactly when the trimmed title has 3 to 200 characters, all allowed; the length error appears exactly when isLength's count is outside 3..200 |
| Validators.IsLengthCount | backend/src/middleware/validators.ts:32 | isLength's measure: at most the number of characters, and equal to it exactly when no presentation selector occurs |
| Validators.IsLengthCountConcat | backend/src/middleware/validators.ts:32 | the measure adds up over concatenation |
| Validators.SelectorNotCounted | backend/src/middleware/validators.ts:32 | a U+FE0E or U+FE0F anywhere adds nothing to the measure |
| Validators.DescriptionErrors | backend/src/middleware/validators.ts:35-38 | the optional description chain passes exactly when it is absent or its trimmed form counts at most 1000 under isLength; 1000 characters or fewer always pass |
| Validators.HeartDescriptionAccepted | backend/src/middleware/validators.ts:38 | 999 letters followed by U+2764 U+FE0F are 1001 characters but pass the 1000 limit |
| Validators.IsPublicErrors | backend/src/middleware/validators.ts:40-42 | the optional isPublic chain passes exactly when it is absent or reads as "true", "false", "1" or "0" |
| Validators.CreatorIdErrors | backend/src/middleware/validators.ts:44-47 | the creatorId chain passes exactly when the field is present and trims to a UUID of any version; an absent field fails both checks |
| Validators.QuestionsErrors | backend/src/middleware/validators.ts:49-104 | the questions chain passes exactly when there are 1 to 50 questions, all well formed |
| Validators.ValidateQuizCreation | backend/src/middleware/validators.ts:28-108 | a quiz is accepted exactly when the trimmed title has 3 to 200 allowed characters, the description at most 1000 as isLength counts, isPublic is absent or boolean, creatorId is a UUID, and there are 1 to 50 well-formed questions |
| Validators.BlankTitleReportsThree | backend/src/middleware/validators.ts:29-33 | a blank title reports all three title errors in order |
| Security.FirstOptionSizeError | backend/src/middleware/security.ts:132-140 | the only option error is text too long, raised exactly when some option's text exceeds 1000 |
| Security.QuestionSizeErrorNone | backend/src/middleware/security.ts:116-142 | a question passes exactly when its text and options are within the limits and it has at most 6 options |
| Security.FirstQuestionSizeErrorNone | backend/src/middleware/security.ts:116-142 | the questions pass exactly when each is within the limits |
| Security.FirstQuestionSizeErrorAt | backend/src/middleware/security.ts:116-142 | the reported error is that of the first failing question |
| Security.DataSizeLimiter | backend/src/middleware/security.ts:81-158 | the request goes on exactly when there is no body or every field is within its limit |
| Security.FirstFailureDecides | backend/src/middleware/security.ts:90-154 | the title, description, question-count and player-name errors are each reported exactly when that is the first failing check |
| Security.QuestionErrorCodes | backend/src/middleware/security.ts:116-142 | per-question errors are only text too long, too many options or option text too long |
| SocketProtection.Prune | backend/src/middleware/socketProtection.ts:55 | the filter keeps exactly the timestamps after the cutoff |
| SocketProtection.PruneConcat | backend/src/middleware/socketProtection.ts:55 | filtering distributes over concatenation |
| SocketProtection.PruneTwice | backend/src/middleware/socketProtection.ts:55-58 | filtering by an earlier and then a later cutoff is filtering by the later one |
| SocketProtection.PruneEmptyIff | backend/src/middleware/socketProtection.ts:122-124 | the filter is empty exactly when no timestamp is after the cutoff |
| SocketProtection.EventWindow | backend/src/middleware/socketProtection.ts:36-75 | refused exactly when 10 events in the last second or 100 in the last minute; else the minute's window plus now, at most 100 long with at most 10 in the last second |
| SocketProtection.ConnectionWindow | backend/src/middleware/socketProtection.ts:80-104 | refused exactly when 20 connections in the last minute; else the minute's window plus now, at most 20 long |
| SocketProtection.PruneListsKeeps | backend/src/middleware/socketProtection.ts:136-143 | cleanup keeps exactly the keys with a recent timestamp, each with a non-empty recent list |
| SocketProtection.PruneTimestamps | backend/src/middleware/socketProtection.ts:121-128 | the cleanup loop over one map computes the pruned map |
| SocketProtection.PruneAllSockets | backend/src/middleware/socketProtection.ts:120-133 | the nested cleanup loop computes the pruned socket map, dropping sockets left empty |
| SocketProtection.Sizes | backend/src/middleware/socketProtection.ts:279-281 | one size per tracked IP |
| SocketProtection.TotalWithinCap | backend/src/middleware/socketProtection.ts:274-287 | with at most cap sockets per IP, the total is at most cap times the IPs |
| SocketProtection.SocketRateLimiter.constructor | backend/src/middleware/socketProtection.ts:18-24 | both counters start empty |
| SocketProtection.SocketRateLimiter.CheckEventRateLimit | backend/src/middleware/socketProtection.ts:36-75 | allowed exactly when the window admits the event; an allowed event stores the new window for that socket and event only; a refusal changes nothing |
| SocketProtection.SocketRateLimiter.CheckConnectionRateLimit | backend/src/middleware/socketProtection.ts:80-104 | allowed exactly when the IP's window admits it; an allowed connection stores the new window, a refusal changes nothing |
| SocketProtection.SocketRateLimiter.CleanupSocket | backend/src/middleware/socketProtection.ts:109-111 | forgets exactly that socket's counters |
| SocketProtection.SocketRateLimiter.Cleanup | backend/src/middleware/socketProtection.ts:116-144 | both counters become their pruned forms, dropping empty lists and empty sockets |
| SocketProtection.ConnectionTracker.constructor | backend/src/middleware/socketProtection.ts:232-234 | no connections tracked |
| SocketProtection.ConnectionTracker.AddConnection | backend/src/middleware/socketProtection.ts:243-258 | added exactly when the IP is below the limit; the IP's entry exists afterwards and gains the socket only when added |
| SocketProtection.ConnectionTracker.RemoveConnection | backend/src/middleware/socketProtection.ts:260-268 | drops the socket from the IP and the IP once it has no sockets left |
| SocketProtection.ConnectionTracker.GetConnectionCount | backend/src/middleware/socketProtection.ts:270-272 | 0 for an unknown IP, and never above the per-IP limit |
| SocketProtection.SocketRateLimiter.GetStats | backend/src/middleware/socketProtection.ts:149-157 | the number of tracked sockets and IPs; under the invariant no socket is counted exactly when no socket has events, and no IP exactly when no IP has connections |
| SocketProtection.ConnectionTracker.GetStats | backend/src/middleware/socketProtection.ts:274-287 | the loop's total is the sum of the per-IP counts, bounded by the limit times the IPs |
| Blacklist.RecordStep | backend/src/middleware/blacklist.ts:104-126 | a first or stale violation restarts the count at 1; within the hour, reaching the threshold blocks |
| Blacklist.ReplayCounts | backend/src/middleware/blacklist.ts:104-126 | violations each within an hour of the previous, fewer than the threshold, are all counted |
| Blacklist.BlockedAtThreshold | backend/src/middleware/blacklist.ts:104-126 | the threshold-th such violation blocks the IP |
| Blacklist.IPBlacklist.constructor | backend/src/middleware/blacklist.ts:16-25 | starts from the loaded list with no violations |
| Blacklist.IPBlacklist.AddIP | backend/src/middleware/blacklist.ts:78-82 | the IP is added and nothing else changes |
| Blacklist.IPBlacklist.RemoveIP | backend/src/middleware/blacklist.ts:87-91 | the IP is removed and nothing else changes |
| Blacklist.IPBlacklist.IsBlacklisted | backend/src/middleware/blacklist.ts:96-98 | true exactly for listed IPs |
| Blacklist.IPBlacklist.RecordViolation | backend/src/middleware/blacklist.ts:104-126 | a violation either updates the IP's count or blacklists the IP and forgets its count |
| Blacklist.IPBlacklist.CleanupViolations | backend/src/middleware/blacklist.ts:131-140 | keeps exactly the violations from the last hour, unchanged |
| Blacklist.GetClientIP | backend/src/middleware/blacklist.ts:161-171 | the trimmed first entry of X-Forwarded-For, else req.ip, else the socket address, else "unknown" |
| Blacklist.BlacklistMiddleware | backend/src/middleware/blacklist.ts:176-190 | a request is forbidden exactly when its client IP is blacklisted |
| GameStore.Store.constructor | frontend/store/gameStore.ts:68-87 | the store starts from the initial state |
| GameStore.Store.SetGame | frontend/store/gameStore.ts:89 | the store becomes the result of the set-game action |
| GameStore.Store.SetCurrentPlayer | frontend/store/gameStore.ts:91 | the store becomes the result of the action |
| GameStore.Store.SetPlayerState | frontend/store/gameStore.ts:93 | the store becomes the result of the action |
| GameStore.Store.SetCurrentQuestion | frontend/store/gameStore.ts:95-103 | the store becomes the result of the action, which also clears the answer, selection and feedback |
| GameStore.Store.SetQuestionResults | frontend/store/gameStore.ts:105 | the store becomes the result of the action |
| GameStore.Store.SetRanking | frontend/store/gameStore.ts:107 | the store becomes the result of the action; an omitted rank clears it |
| GameStore.Store.SetTransitionState | frontend/store/gameStore.ts:109 | the store becomes the result of the action |
| GameStore.Store.SetAnswerFeedback | frontend/store/gameStore.ts:111 | the store becomes the result of the action, which shows the feedback screen |
| GameStore.Store.SetGameStats | frontend/store/gameStore.ts:113 | the store becomes the result of the action |
| GameStore.Store.SetFinalData | frontend/store/gameStore.ts:115 | the store becomes the result of the action |
| GameStore.Store.SetIsConnected | frontend/store/gameStore.ts:117 | the store becomes the result of the action |
| GameStore.Store.SetHasAnswered | frontend/store/gameStore.ts:119 | the store becomes the result of the action |
| GameStore.Store.SetSelectedOptionId | frontend/store/gameStore.ts:121 | the store becomes the result of the action |
| GameStore.Store.UpdateGameStatus | frontend/store/gameStore.ts:123-132 | the store becomes the result of the action: the status changes only when a game is loaded |
| GameStore.Store.UpdatePlayers | frontend/store/gameStore.ts:134-143 | the store becomes the result of the action: the players change only when a game is loaded |
| GameStore.Store.Reset | frontend/store/gameStore.ts:145 | the store returns to the initial state |
| GameStore.Apply | frontend/store/gameStore.ts:89-145 | only reset clears the game or the connection flag, and it restores the initial state; the game updaters do nothing without a game; the transition state changes only by its setter, a new question, feedback or reset, and feedback shows the feedback screen |
| GameStore.ActionsIdempotent | frontend/store/gameStore.ts:89-145 | delivering any action twice has the effect of delivering it once |
| GameStore.ConnectionIndependent | frontend/store/gameStore.ts:89-145 | only the connection setter and reset touch the connection flag, and the setter commutes with the other actions |
| GameStore.NewQuestionForgetsAnswer | frontend/store/gameStore.ts:95-103 | a new question clears any answer, selection and feedback and goes idle, keeping the game, ranking, stats and connection |
| GameStore.FeedbackShowsFeedbackScreen | frontend/store/gameStore.ts:111 | feedback shows the feedback screen until a transition, a new question, new feedback or a reset |
| GameStore.GameUpdatersCommute | frontend/store/gameStore.ts:123-143 | the status and player updaters commute, and do nothing without a game |
| GameStore.ResetForgets | frontend/store/gameStore.ts:145 | after any action, reset gives the initial state, disconnected and without a game |
| QuestionEditor.OpenTimeLimit | frontend/components/QuestionEditor.tsx:30 | the editor shows 15 s for a new question and otherwise the question's limit in seconds |
| QuestionEditor.OpenOptions | frontend/components/QuestionEditor.tsx:31-38 | four blank rows for a new question; otherwise the question's options' texts and flags |
| QuestionEditor.CountFilled | frontend/components/QuestionEditor.tsx:61 | at most one filled row per row |
| QuestionEditor.CountCorrect | frontend/components/QuestionEditor.tsx:67 | at most one correct row per row |
| QuestionEditor.BlankRowsCountNothing | frontend/components/QuestionEditor.tsx:61-71 | blank unmarked rows are neither filled nor correct |
| QuestionEditor.BlankEditorCannotSave | frontend/components/QuestionEditor.tsx:54-71 | a fresh editor cannot be saved until options are filled in |
| QuestionEditor.WithOptionText | frontend/components/QuestionEditor.tsx:40-44 | changing one row's text touches only that row's text |
| QuestionEditor.MarkCorrect | frontend/components/QuestionEditor.tsx:46-52 | marking a row correct unmarks every other row and keeps all texts |
| QuestionEditor.OptionTextKeepsCorrectCount | frontend/components/QuestionEditor.tsx:40-44 | editing text never changes how many rows are correct |
| QuestionEditor.MarkCorrectLeavesOne | frontend/components/QuestionEditor.tsx:46-52 | after marking a row exactly one row is correct, and the filled count is unchanged |
| QuestionEditor.CountCorrectAt | frontend/components/QuestionEditor.tsx:46-52 | rows correct only at one index count one when the index is in range |
| QuestionEditor.SameFlagsSameCount | frontend/components/QuestionEditor.tsx:67 | the correct count depends only on the flags |
| QuestionEditor.SameTextsSameFilled | frontend/components/QuestionEditor.tsx:61 | the filled count depends only on the texts |
| QuestionEditor.TempIdsDistinct | frontend/components/QuestionEditor.tsx:78 | saved options get distinct temporary ids |
| QuestionEditor.SavedOptions | frontend/components/QuestionEditor.tsx:77-81 | each saved option has its temporary id, the trimmed text and the row's flag |
| QuestionEditor.Save | frontend/components/QuestionEditor.tsx:54-83 | saves exactly with non-blank text, four filled rows and one correct; the question is trimmed, in milliseconds, with one correct option; otherwise the first failed check's alert |
| QuestionEditor.SavedKeepsCorrect | frontend/components/QuestionEditor.tsx:77-81 | saving keeps the number of correct options |
| QuestionEditor.FlagsDecideCount | frontend/components/QuestionEditor.tsx:67 | the correct count of options depends only on their flags |
| QuestionEditor.AllFilled | frontend/components/QuestionEditor.tsx:61-65 | when every row is filled the count is the number of rows |
| QuestionEditor.SavedOptionsTrimmed | frontend/components/QuestionEditor.tsx:77-81 | saved option texts are non-empty and already trimmed |
| QuestionEditor.SaveGivesSaveable | frontend/components/QuestionEditor.tsx:54-83 | a saved question is in the form the editor itself produces |
| QuestionEditor.SaveAfterOpen | frontend/components/QuestionEditor.tsx:28-83 | reopening a saved question and saving without edits gives back the same question |
| QuestionEditor.Editor.constructor | frontend/components/QuestionEditor.tsx:28-38 | the editor opens on the question's text, image, limit and options |
| QuestionEditor.Editor.HandleOptionChange | frontend/components/QuestionEditor.tsx:40-44 | updates one row's text and nothing else |
| QuestionEditor.Editor.HandleCorrectChange | frontend/components/QuestionEditor.tsx:46-52 | marks the row as the only correct one, and nothing else changes |
| QuestionEditor.Editor.HandleSave | frontend/components/QuestionEditor.tsx:54-83 | emits the question exactly when the form can be saved, otherwise reports why |
| QuizCreatePage.SaveQuestionAt | frontend/app/quizzes/create/page.tsx:32-43 | replaces the question at a position inside the list and appends otherwise |
| QuizCreatePage.Without | frontend/app/quizzes/create/page.tsx:49-54 | the filter drops the question at the index; an index outside the list keeps it whole |
| QuizCreatePage.WithoutRemovesOne | frontend/app/quizzes/create/page.tsx:49-54 | deletion removes one occurrence and keeps every other question |
| QuizCreatePage.DeleteUndoesAppend | frontend/app/quizzes/create/page.tsx:32-54 | deleting a just-appended question gives back the previous list |
| QuizCreatePage.QuizRequest | frontend/app/quizzes/create/page.tsx:60-81 | sends exactly with a non-blank title and a question, carrying the trimmed title and description; a blank title is reported first |
| QuizCreatePage.QuizRequestIdempotent | frontend/app/quizzes/create/page.tsx:60-81 | a payload the page produced passes the checks again unchanged |
| QuizCreatePage.QuizBuilder.constructor | frontend/app/quizzes/create/page.tsx:21-26 | empty title, description and questions, public, no editor open |
| QuizCreatePage.QuizBuilder.EditorQuestion | frontend/app/quizzes/create/page.tsx:263 | the open editor shows the question at its index, or a blank form past the end |
| QuizCreatePage.QuizBuilder.HandleAddQuestion | frontend/app/quizzes/create/page.tsx:28-30 | opens a blank editor for a new question at the end |
| QuizCreatePage.QuizBuilder.HandleEditQuestion | frontend/app/quizzes/create/page.tsx:45-47 | opens the editor on the question at the index |
| QuizCreatePage.QuizBuilder.HandleSaveQuestion | frontend/app/quizzes/create/page.tsx:32-43 | with an editor open, stores the question at its index and closes the editor |
| QuizCreatePage.QuizBuilder.HandleDeleteQuestion | frontend/app/quizzes/create/page.tsx:49-54 | a confirmed delete drops the question; a cancelled one changes nothing |
| QuizCreatePage.QuizBuilder.HandleCancelEdit | frontend/app/quizzes/create/page.tsx:56-58 | closes the editor and keeps the questions |
| QuizCreatePage.QuizBuilder.HandleSaveQuiz | frontend/app/quizzes/create/page.tsx:60-81 | sends the payload exactly when the title is non-blank and there is a question |
| CreateGamePage.OwnIds | frontend/app/create/page.tsx:67 | exactly the ids of the host's quizzes |
| CreateGamePage.ExcludingIds | frontend/app/create/page.tsx:68 | no kept quiz has an excluded id |
| CreateGamePage.ExcludingIdsKeeps | frontend/app/create/page.tsx:68 | a quiz is kept exactly when it is listed and its id is not excluded |
| CreateGamePage.ExcludingIdsNoExclusions | frontend/app/create/page.tsx:68 | with nothing to exclude, the list is kept whole |
| CreateGamePage.MergedQuizzes | frontend/app/create/page.tsx:45-78 | the list holds the host's quizzes and the public ones with other ids; a successful response without data throws |
| CreateGamePage.MergedHasNoDuplicateOwnIds | frontend/app/create/page.tsx:58-70 | the host's quizzes come first, and no later quiz repeats one of their ids |
| CreateGamePage.Preselected | frontend/app/create/page.tsx:31-35 | a non-empty quizId parameter selects that quiz |
| CreateGamePage.CreateGameRequest | frontend/app/create/page.tsx:80-97 | sends exactly when connected with a non-blank host name and a chosen quiz, carrying the trimmed name |
| CreateGamePage.CreateGameRequestIdempotent | frontend/app/create/page.tsx:80-97 | the trimmed name sent passes the checks again unchanged |
| CreateGamePage.GameCreator.constructor | frontend/app/create/page.tsx:22-25 | no quizzes, loading, empty name and selection |
| CreateGamePage.GameCreator.ApplyQuizIdParam | frontend/app/create/page.tsx:31-35 | the URL's quiz id preselects a quiz and nothing else changes |
| CreateGamePage.GameCreator.FetchQuizzes | frontend/app/create/page.tsx:45-78 | the list becomes the merge, or stays when the code throws; loading ends either way |
| CreateGamePage.GameCreator.HandleCreateGame | frontend/app/create/page.tsx:80-97 | emits the create event exactly when the request checks pass |

## Left out

- Timer delays are not modelled. Each `setTimeout` callback is a pending entry that
  the environment may run at any later point.
- Interleavings are modelled only at handler granularity. An `async` handler such as
  game creation runs atomically around its database call.
- The database, the QR service and Supabase are left out. Quiz lookups and user ids
  are parameters, and stats persistence is returned as a list of updates.
- The clock and `nanoid`'s randomness are parameters (`now`, `picks`).
- Strings are sequences of Unicode characters, so a JavaScript string that holds an unpaired surrogate is not modelled. String.length is JsText.Utf16Length, and the count isLength checks is Validators.IsLengthCount.
- The server's uncaught-exception handler is modelled only by the `crashed` flag
  that the timer steps return. Process exit and restart are not modelled.
- Socket.IO rooms and transport are not modelled. A room emit is an event tagged
  with the game code, and the GAME_UPDATED broadcast is `ToAll`.
- Floating point is modelled as exact reals, so rounding errors in the score formula
  are not modelled.
- Games.GetGameStats: does not compute the per-player percentage columns, which are
  floating-point display values.
- The blacklist's file I/O (loading and saving the JSON file) is not modelled.
- IPBlacklist's getStats is not modelled; it only reports the sizes of its two
  collections.
- The singleton `getInstance` wrappers are not modelled.
- The `setInterval` cleanups are not modelled. Cleanup is an explicit call with the
  current time.
- The socket middlewares that call the rate limiter and tracker are not modelled.
- JsText.ToLower: lower-cases ASCII letters only. The duplicate-name check therefore
  treats accented capitals as distinct from their lower-case forms, which JavaScript
  would fold.
- Frontend rendering, navigation, animation and the `saving` flag are not modelled.
- Fetch and network failures are not modelled beyond the thrown error of a response
  without data.
- Input bindings are modelled only through the state the handlers read.
- GameStore.GameSnapshot: keeps only the Game fields the store reads. A null and an
  omitted currentPlayerRank are both None.
- Editor option rows carry no ids, as in the component.
- QuestionEditor.Editor.HandleOptionChange: requires an index within the rows. Its
  only caller is the input of a row that `options.map` renders, with that row's own
  index (frontend/components/QuestionEditor.tsx:180, 217). Writing past the end of
  the array, which JavaScript would allow, is not modelled.
- Games.Adjudicate: a correct answer to a question whose time limit is 0 is refused
  with NonFinitePoints. The code divides by zero there and stores a NaN or infinite
  score; the model has no non-finite numbers.
- The QR image is a parameter of game creation (`qrCode`); generating it is not
  modelled. FRONTEND_URL is a parameter, with "" for an unset variable.
- Games.GameService.CreateGame: the database's session record is not modelled.
- Games.GameService.StartGame: the session row's database update is not modelled. That update writes the status, started_at and total_players; the in-memory game has no start time.
- Validators.ValidateQuizCreation: models only the validation rules of
  `validateQuizCreation`. The express-validator plumbing and
  `handleValidationErrors`' response format are not modelled. A body field is a
  string, or absent; an array value, which the standard validators check element by
  element, is not modelled.
