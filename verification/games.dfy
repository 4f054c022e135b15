/** GameService: the in-memory registry of active games and the rules that move each player
    through the quiz. Date.now(), generated codes and player ids, and the quiz read from the
    database are parameters. */
module Games {
  import opened Wrappers
  import opened GameTypes
  import opened JsText
  import opened MapSum
  import opened StableSort
  import Scoring
  import CodeGenerator

  /** The messages GameService throws. */
  datatype GameError =
    | QuizNotFound | GameNotFound | GameAlreadyStarted | NameAlreadyTaken | OnlyHostCanStart
    | PlayerStateNotFound | NoCurrentQuestion | PlayerNotFound | OptionNotFound
    /** The TypeError of `options.find(o => o.isCorrect)!.id` on a question without a correct option. */
    | NoCorrectOption
    /** A correct answer to a question whose timeLimit is 0: the source divides by zero and scores NaN. */
    | NonFinitePoints

  // ---------------------------------------------------------------- ranking

  /** The getRanking comparator: higher score first, then higher accuracy, then earlier join. */
  predicate RankedBefore(a: Player, b: Player) {
    a.score > b.score
    || (a.score == b.score && (a.accuracy > b.accuracy || (a.accuracy == b.accuracy && a.joinedAt < b.joinedAt)))
  }

  /** Players tie under the comparator exactly when score, accuracy and join time all agree. */
  lemma RankedBeforeIsStrictWeakOrder()
    ensures StrictWeakOrder(RankedBefore)
    ensures forall a, b :: Equiv(a, b, RankedBefore) <==> a.score == b.score && a.accuracy == b.accuracy && a.joinedAt == b.joinedAt
  {
  }

  /** getRanking's list: the roster in ranking order, with rank = position + 1; players tied on
      score, accuracy and join time keep their roster order. */
  function Ranking(players: seq<Player>): (r: seq<RankingEntry>)
    ensures |r| == |players|
    ensures forall i :: 0 <= i < |r| ==> r[i].rank == i + 1
    ensures multiset(Entrants(r)) == multiset(players)
    ensures forall i, j :: 0 <= i < j < |r| ==> !RankedBefore(r[j].player, r[i].player)
    ensures forall p :: Class(Entrants(r), p, RankedBefore) == Class(players, p, RankedBefore)
  {
    var sorted := Sort(players, RankedBefore);
    RankedBeforeIsStrictWeakOrder();
    var r := seq(|sorted|, i requires 0 <= i < |sorted| => RankingEntry(sorted[i], i + 1));
    assert Entrants(r) == sorted;
    r
  }

  function Entrants(r: seq<RankingEntry>): seq<Player> {
    seq(|r|, i requires 0 <= i < |r| => r[i].player)
  }

  /** `ranking.slice(0, n)`. */
  function Take<T>(s: seq<T>, n: nat): (r: seq<T>)
    ensures |r| == if |s| < n then |s| else n
    ensures r == s[..|r|]
  {
    if |s| < n then s else s[..n]
  }

  /** The first ranked player has the highest score of the roster, and the highest accuracy
      among those with that score. */
  lemma WinnerIsTopScorer(players: seq<Player>, p: Player)
    requires p in players
    ensures Ranking(players) != []
    ensures Ranking(players)[0].player.score >= p.score
    ensures Ranking(players)[0].player.score == p.score ==> Ranking(players)[0].player.accuracy >= p.accuracy
  {
    var r := Ranking(players);
    assert p in multiset(Entrants(r));
    var k :| 0 <= k < |r| && Entrants(r)[k] == p;
    if k > 0 {
      assert !RankedBefore(r[k].player, r[0].player);
    }
  }

  /** `process.env.FRONTEND_URL || 'http://localhost:3000'`, with "" for an unset variable. */
  function BaseUrl(frontendUrl: string): (b: string)
    ensures frontendUrl != "" ==> b == frontendUrl
    ensures frontendUrl == "" ==> b == "http://localhost:3000"
  {
    if frontendUrl != "" then frontendUrl else "http://localhost:3000"
  }

  /** createGame's `${baseUrl}/join/${code}`: the code can be read back after the fixed prefix. */
  function JoinUrl(baseUrl: string, code: string): (u: string)
    ensures |u| == |baseUrl| + 6 + |code|
    ensures u[..|baseUrl|] == baseUrl && u[|baseUrl|..|baseUrl| + 6] == "/join/" && u[|baseUrl| + 6..] == code
  {
    baseUrl + "/join/" + code
  }

  // ---------------------------------------------------------------- finishing

  /** What finishGame sends to the player repository for one registered player. */
  datatype StatsUpdate = StatsUpdate(
    userId: string,
    isWin: bool,
    isPodium: bool,
    questionsAnswered: int,
    correctAnswers: int,
    bestStreak: int,
    xpEarned: int)

  function PodiumBonus(rank: int): (b: int)
    ensures rank == 1 ==> b == 500
    ensures rank == 2 ==> b == 300
    ensures rank == 3 ==> b == 100
    ensures !(1 <= rank <= 3) ==> b == 0
  {
    if rank == 1 then 500 else if rank == 2 then 300 else if rank == 3 then 100 else 0
  }

  /** `Math.floor(score / 10) + podiumBonus`. */
  function XpEarned(score: int, rank: int): (xp: int)
    ensures (xp - PodiumBonus(rank)) * 10 <= score < (xp - PodiumBonus(rank) + 1) * 10
  {
    score / 10 + PodiumBonus(rank)
  }

  /** The update for a ranked, registered player; bestStreak receives the current streak. */
  function StatsUpdateFor(e: RankingEntry): (u: StatsUpdate)
    requires e.player.supabaseUserId.Some?
    ensures u.userId == e.player.supabaseUserId.value
    ensures u.isWin <==> e.rank == 1
    ensures u.isPodium <==> e.rank <= 3
    ensures u.questionsAnswered == e.player.totalAnswers && u.correctAnswers == e.player.correctAnswers
    ensures u.bestStreak == e.player.streak
    ensures u.xpEarned == XpEarned(e.player.score, e.rank)
  {
    StatsUpdate(e.player.supabaseUserId.value, e.rank == 1, e.rank <= 3,
                e.player.totalAnswers, e.player.correctAnswers, e.player.streak,
                XpEarned(e.player.score, e.rank))
  }

  /** The updates finishGame issues: one per registered player, in ranking order. */
  function StatsUpdates(ranking: seq<RankingEntry>): (us: seq<StatsUpdate>)
    ensures |us| <= |ranking|
    ensures forall u :: u in us <==>
      exists i :: 0 <= i < |ranking| && ranking[i].player.supabaseUserId.Some? && u == StatsUpdateFor(ranking[i])
  {
    if ranking == [] then []
    else
      var rest := StatsUpdates(ranking[1..]);
      assert forall i :: 1 <= i < |ranking| ==> ranking[i] == ranking[1..][i - 1];
      if ranking[0].player.supabaseUserId.Some? then [StatsUpdateFor(ranking[0])] + rest else rest
  }

  /** How many entries of the ranking belong to registered players. */
  function RegisteredCount(ranking: seq<RankingEntry>): nat {
    if ranking == [] then 0
    else (if ranking[0].player.supabaseUserId.Some? then 1 else 0) + RegisteredCount(ranking[1..])
  }

  /** The updates are exactly one per registered player, in ranking order: the update of the
      k-th entry sits after those of the registered entries ranked before it. */
  lemma {:induction false} StatsUpdatesInRankingOrder(ranking: seq<RankingEntry>)
    ensures |StatsUpdates(ranking)| == RegisteredCount(ranking)
    ensures forall k :: 0 <= k < |ranking| && ranking[k].player.supabaseUserId.Some? ==>
      RegisteredCount(ranking[..k]) < |StatsUpdates(ranking)|
      && StatsUpdates(ranking)[RegisteredCount(ranking[..k])] == StatsUpdateFor(ranking[k])
  {
    if ranking != [] {
      var tail := ranking[1..];
      StatsUpdatesInRankingOrder(tail);
      var head := if ranking[0].player.supabaseUserId.Some? then 1 else 0;
      assert ranking[..0] == [];
      forall k | 1 <= k < |ranking|
        ensures RegisteredCount(ranking[..k]) == head + RegisteredCount(tail[..k - 1])
      {
        assert ranking[..k][0] == ranking[0] && ranking[..k][1..] == tail[..k - 1];
      }
      forall k | 1 <= k < |ranking|
        ensures ranking[k] == tail[k - 1]
      {
      }
    }
  }

  /** Only a ranked player with a Supabase id gets an update; guests get none. */
  lemma {:induction false} GuestsGetNoUpdates(ranking: seq<RankingEntry>)
    requires forall i :: 0 <= i < |ranking| ==> ranking[i].player.supabaseUserId.None?
    ensures StatsUpdates(ranking) == []
  {
    if ranking != [] {
      GuestsGetNoUpdates(ranking[1..]);
    }
  }

  datatype HistoryEntry = HistoryEntry(question: Question, results: Option<QuestionResults>)

  datatype FinishResult = FinishResult(
    finalRanking: seq<RankingEntry>,
    podium: seq<RankingEntry>,
    questionHistory: seq<HistoryEntry>,
    statsUpdates: seq<StatsUpdate>)

  // ---------------------------------------------------------------- answering

  /** The anti-cheat reconciliation of the client's elapsed time: with a recorded (truthy) start
      time, clamp it to [0, timeLimit + 3000] and fall back to the server's own measure when the
      two differ by more than 2000 ms; without one, trust the client. */
  function ValidatedElapsed(timeElapsed: int, questionStartTime: Option<int>, timeLimit: int, now: int): (v: int)
    ensures questionStartTime.None? || questionStartTime.value == 0 ==> v == timeElapsed
    ensures questionStartTime.Some? && questionStartTime.value != 0 ==>
      var server := now - questionStartTime.value;
      var lower := if timeElapsed < 0 then 0 else timeElapsed;
      var clamped := if lower > timeLimit + 3000 then timeLimit + 3000 else lower;
      (v == server || v == clamped) && -2000 <= v - server <= 2000
      && (v == clamped <==> -2000 <= clamped - server <= 2000)
  {
    if questionStartTime.Some? && questionStartTime.value != 0 then
      var serverTimeElapsed := now - questionStartTime.value;
      var validated := if timeElapsed < 0 then 0 else timeElapsed;
      var maxAllowed := timeLimit + 3000;
      var validated' := if validated > maxAllowed then maxAllowed else validated;
      if validated' - serverTimeElapsed > 2000 || serverTimeElapsed - validated' > 2000 then serverTimeElapsed
      else validated'
    else timeElapsed
  }

  /** With a start time and a plausible server measure, the time used for scoring lies within
      [0, timeLimit + 3000] whatever the client claims. */
  lemma ValidatedElapsedBounded(timeElapsed: int, start: int, timeLimit: int, now: int)
    requires start != 0 && timeLimit >= 0
    requires 0 <= now - start <= timeLimit + 3000
    ensures 0 <= ValidatedElapsed(timeElapsed, Some(start), timeLimit, now) <= timeLimit + 3000
  {
  }

  /** The player's statistics after one answer worth `points`. */
  function Answered(p: Player, isCorrect: bool, points: int): (q: Player)
    ensures q.totalAnswers == p.totalAnswers + 1
    ensures q.correctAnswers == p.correctAnswers + (if isCorrect then 1 else 0)
    ensures q.score == p.score + (if isCorrect then points else 0)
    ensures q.streak == Scoring.UpdateStreak(p.streak, isCorrect)
    ensures q.accuracy == Scoring.CalculateAccuracy(q.correctAnswers, q.totalAnswers)
    ensures q.id == p.id && q.name == p.name && q.joinedAt == p.joinedAt && q.supabaseUserId == p.supabaseUserId
  {
    var correct := p.correctAnswers + (if isCorrect then 1 else 0);
    var total := p.totalAnswers + 1;
    p.(totalAnswers := total,
       correctAnswers := correct,
       score := p.score + (if isCorrect then points else 0),
       streak := Scoring.UpdateStreak(p.streak, isCorrect),
       accuracy := Scoring.CalculateAccuracy(correct, total))
  }

  /** Counters every player keeps consistent: correct answers within the total, a streak no
      longer than the correct answers, accuracy a percentage, and at least MIN_POINTS per
      correct answer. */
  predicate PlayerStatsValid(p: Player) {
    && 0 <= p.correctAnswers <= p.totalAnswers
    && 0 <= p.streak <= p.correctAnswers
    && 0 <= p.accuracy <= 100
    && p.score >= Scoring.MIN_POINTS * p.correctAnswers
  }

  lemma AnsweredKeepsStats(p: Player, isCorrect: bool, points: int)
    requires PlayerStatsValid(p)
    requires isCorrect ==> points >= Scoring.MIN_POINTS
    ensures PlayerStatsValid(Answered(p, isCorrect, points))
    ensures Answered(p, isCorrect, points).score >= p.score
  {
  }

  /** The results entry for a question after one more answer; a missing entry starts from
      no votes. */
  function Recorded(entry: Option<QuestionResults>, q: Question, totalPlayers: int, answer: PlayerAnswer): (r: QuestionResults)
    requires entry.Some? || CorrectOptionId(q.options).Some?
    ensures entry.Some? ==> r.questionId == entry.value.questionId && r.totalPlayers == entry.value.totalPlayers
                            && r.correctOptionId == entry.value.correctOptionId
    ensures entry.None? ==> r.questionId == q.id && r.totalPlayers == totalPlayers
                            && r.correctOptionId == CorrectOptionId(q.options).value
    ensures r.playerAnswers == (if entry.Some? then entry.value.playerAnswers else []) + [answer]
    ensures var before := if entry.Some? then entry.value.optionVotes else map[];
      && r.optionVotes.Keys == before.Keys + {answer.optionId}
      && r.optionVotes[answer.optionId] == (if answer.optionId in before then before[answer.optionId] else 0) + 1
      && forall o :: o in before && o != answer.optionId ==> r.optionVotes[o] == before[o]
  {
    var base := if entry.Some? then entry.value
                else QuestionResults(q.id, totalPlayers, map[], CorrectOptionId(q.options).value, []);
    var votes := base.optionVotes;
    base.(playerAnswers := base.playerAnswers + [answer],
          optionVotes := votes[answer.optionId := (if answer.optionId in votes then votes[answer.optionId] else 0) + 1])
  }

  /** The votes of a results entry add up to its number of answers. */
  ghost predicate VotesTally(r: QuestionResults) {
    Sum(r.optionVotes) == |r.playerAnswers|
  }

  lemma RecordedKeepsTally(entry: Option<QuestionResults>, q: Question, totalPlayers: int, answer: PlayerAnswer)
    requires entry.Some? || CorrectOptionId(q.options).Some?
    requires entry.Some? ==> VotesTally(entry.value)
    ensures VotesTally(Recorded(entry, q, totalPlayers, answer))
    ensures |Recorded(entry, q, totalPlayers, answer).playerAnswers| == (if entry.Some? then |entry.value.playerAnswers| else 0) + 1
  {
    var base := if entry.Some? then entry.value
                else QuestionResults(q.id, totalPlayers, map[], CorrectOptionId(q.options).value, []);
    var votes := base.optionVotes;
    SumUpdate(votes, answer.optionId, (if answer.optionId in votes then votes[answer.optionId] else 0) + 1);
  }

  /** What a player's own state must satisfy: an answered question has an answer on record. */
  predicate StateValid(st: PlayerGameState) {
    st.hasAnsweredCurrent ==> st.answers != []
  }

  /** A player's state after startPlayerQuestion: one question further, not yet answered, and
      either answering since `now` or, past the last question, finished with no start time. */
  function QuestionStarted(st: PlayerGameState, questionCount: int, now: int): (st': PlayerGameState)
    ensures st'.currentQuestionIndex == st.currentQuestionIndex + 1
    ensures !st'.hasAnsweredCurrent && st'.lastActivityAt == now
    ensures st'.playerId == st.playerId && st'.answers == st.answers
    ensures st'.phase == PlayerFinished <==> st'.currentQuestionIndex >= questionCount
    ensures st'.phase == PlayerFinished ==> st'.questionStartTime.None?
    ensures st'.phase != PlayerFinished ==> st'.phase == Answering && st'.questionStartTime == Some(now)
  {
    var next := st.currentQuestionIndex + 1;
    if next >= questionCount then
      st.(currentQuestionIndex := next, phase := PlayerFinished, questionStartTime := None,
          hasAnsweredCurrent := false, lastActivityAt := now)
    else
      st.(currentQuestionIndex := next, phase := Answering, questionStartTime := Some(now),
          hasAnsweredCurrent := false, lastActivityAt := now)
  }

  /** A player's state when the game starts: before the first question. */
  function InitialState(playerId: string, now: int): PlayerGameState {
    PlayerGameState(playerId, -1, WaitingResults, None, false, [], now)
  }

  predicate NameTaken(players: seq<Player>, name: string) {
    exists k :: 0 <= k < |players| && SameIgnoringCase(players[k].name, name)
  }

  /** `players.filter(p => p.id !== playerId)`: the players with other ids, in roster order. */
  function WithoutPlayer(players: seq<Player>, playerId: string): (r: seq<Player>)
    ensures forall p :: p in r <==> p in players && p.id != playerId
    ensures !InRoster(players, playerId) ==> r == players
  {
    if players == [] then []
    else
      var rest := WithoutPlayer(players[1..], playerId);
      assert forall k :: 1 <= k < |players| ==> players[k] == players[1..][k - 1];
      if players[0].id == playerId then rest else [players[0]] + rest
  }

  /** The filter distributes over concatenation. */
  lemma {:induction false} WithoutPlayerConcat(a: seq<Player>, b: seq<Player>, playerId: string)
    ensures WithoutPlayer(a + b, playerId) == WithoutPlayer(a, playerId) + WithoutPlayer(b, playerId)
  {
    if a == [] {
      assert a + b == b;
    } else {
      assert (a + b)[0] == a[0] && (a + b)[1..] == a[1..] + b;
      WithoutPlayerConcat(a[1..], b, playerId);
    }
  }

  /** In a roster with distinct ids, removing the player in slot k closes the gap: the players
      before and after it keep their order. */
  lemma {:induction false} WithoutPlayerRemovesSlot(players: seq<Player>, k: nat)
    requires DistinctIds(players) && k < |players|
    ensures WithoutPlayer(players, players[k].id) == players[..k] + players[k + 1..]
  {
    var id := players[k].id;
    var before, after := players[..k], players[k + 1..];
    assert WithoutPlayer(players, id) == WithoutPlayer(before + [players[k]], id) + WithoutPlayer(after, id) by {
      assert players == (before + [players[k]]) + after;
      WithoutPlayerConcat(before + [players[k]], after, id);
    }
    assert WithoutPlayer(before + [players[k]], id) == before by {
      SlotNeighboursLackId(players, k);
      WithoutPlayerConcat(before, [players[k]], id);
      assert WithoutPlayer([players[k]], id) == [];
    }
    assert WithoutPlayer(after, id) == after by {
      SlotNeighboursLackId(players, k);
    }
  }

  /** With distinct ids, no player before or after slot k has that slot's id. */
  lemma SlotNeighboursLackId(players: seq<Player>, k: nat)
    requires DistinctIds(players) && k < |players|
    ensures !InRoster(players[..k], players[k].id) && !InRoster(players[k + 1..], players[k].id)
  {
    var before, after := players[..k], players[k + 1..];
    forall j | 0 <= j < |before| ensures before[j].id != players[k].id {
      assert before[j] == players[j];
    }
    forall j | 0 <= j < |after| ensures after[j].id != players[k].id {
      assert after[j] == players[k + 1 + j];
    }
  }

  /** Removing a player keeps the ids distinct and shortens a roster that held it by one. */
  lemma {:induction false} WithoutPlayerShrinks(players: seq<Player>, playerId: string)
    requires DistinctIds(players)
    ensures DistinctIds(WithoutPlayer(players, playerId))
    ensures |WithoutPlayer(players, playerId)| == |players| - (if InRoster(players, playerId) then 1 else 0)
  {
    if InRoster(players, playerId) {
      var k :| 0 <= k < |players| && players[k].id == playerId;
      WithoutPlayerRemovesSlot(players, k);
      DistinctWithoutSlot(players, k);
    }
  }

  lemma DistinctWithoutSlot(players: seq<Player>, k: nat)
    requires DistinctIds(players) && k < |players|
    ensures DistinctIds(players[..k] + players[k + 1..])
  {
    var r := players[..k] + players[k + 1..];
    forall i, j | 0 <= i < j < |r| ensures r[i].id != r[j].id {
      var i', j' := if i < k then i else i + 1, if j < k then j else j + 1;
      assert r[i] == players[i'] && r[j] == players[j'];
    }
  }

  // ---------------------------------------------------------------- statistics for the host

  /** One row of getGameStats; the two percentages are left out. */
  datatype PlayerStats = PlayerStats(
    player: Player,
    correctAnswers: int,
    incorrectAnswers: int,
    totalAnswers: int,
    score: int,
    accuracy: int)

  datatype GameStats = GameStats(currentQuestionIndex: int, totalQuestions: int, playerStats: seq<PlayerStats>)

  function StatsRow(p: Player): (row: PlayerStats)
    ensures row.correctAnswers + row.incorrectAnswers == row.totalAnswers == p.totalAnswers
  {
    PlayerStats(p, p.correctAnswers, p.totalAnswers - p.correctAnswers, p.totalAnswers, p.score, p.accuracy)
  }

  /** The comparator `(a, b) => b.score - a.score`: a strictly before b when its score is higher. */
  predicate ScoreAbove(a: PlayerStats, b: PlayerStats) {
    a.score > b.score
  }

  /** Rows tie under the comparator exactly when their scores are equal. */
  lemma ScoreAboveIsStrictWeakOrder()
    ensures StrictWeakOrder(ScoreAbove)
    ensures forall a, b :: Equiv(a, b, ScoreAbove) <==> a.score == b.score
  {
  }

  /** One row per roster player, in roster order. */
  function StatsRows(players: seq<Player>): (rows: seq<PlayerStats>)
    ensures |rows| == |players| && forall i :: 0 <= i < |rows| ==> rows[i] == StatsRow(players[i])
  {
    seq(|players|, i requires 0 <= i < |players| => StatsRow(players[i]))
  }

  /** The rows sorted by score alone, highest first; the sort is stable, so rows with equal
      scores keep roster order. */
  function StatsTable(players: seq<Player>): (rows: seq<PlayerStats>)
    ensures multiset(rows) == multiset(StatsRows(players))
    ensures forall i, j :: 0 <= i < j < |rows| ==> rows[i].score >= rows[j].score
    ensures forall x :: Class(rows, x, ScoreAbove) == Class(StatsRows(players), x, ScoreAbove)
  {
    ScoreAboveIsStrictWeakOrder();
    Sort(StatsRows(players), ScoreAbove)
  }

  lemma HasElement(s: set<int>)
    ensures s != {} ==> exists y :: y in s
  {
    if !(exists y :: y in s) {
      assert s == {};
    }
  }

  lemma {:induction false} MaxExists(s: set<int>)
    requires s != {}
    ensures exists m :: m in s && forall x :: x in s ==> x <= m
    decreases |s|
  {
    HasElement(s);
    var y :| y in s;
    if s != {y} {
      MaxExists(s - {y});
      var m :| m in s - {y} && forall x :: x in s - {y} ==> x <= m;
      var top := if y > m then y else m;
      forall x | x in s
        ensures x <= top
      {
        if x != y {
          assert x in s - {y};
        }
      }
      assert top in s;
    } else {
      assert forall x :: x in s ==> x <= y;
    }
  }

  /** `Math.max(...)` of a non-empty finite set of integers. */
  function MaxOf(s: set<int>): (m: int)
    requires s != {}
    ensures m in s && forall x :: x in s ==> x <= m
  {
    MaxExists(s);
    var m :| m in s && forall x :: x in s ==> x <= m;
    m
  }

  /** The most advanced question index among all player states (removed players included),
      or the game's own index when there are no states. */
  function DerivedQuestionIndex(playerStates: map<string, PlayerGameState>, fallback: int): (idx: int)
    ensures playerStates == map[] ==> idx == fallback
    ensures playerStates != map[] ==>
      (exists id :: id in playerStates && playerStates[id].currentQuestionIndex == idx)
      && forall id :: id in playerStates ==> playerStates[id].currentQuestionIndex <= idx
  {
    if playerStates == map[] then fallback
    else
      var indices := set id | id in playerStates :: playerStates[id].currentQuestionIndex;
      var someId :| someId in playerStates;
      assert playerStates[someId].currentQuestionIndex in indices;
      assert forall id :: id in playerStates ==> playerStates[id].currentQuestionIndex in indices;
      MaxOf(indices)
  }

  // ---------------------------------------------------------------- the game record

  /** One room: the quiz, the roster, each player's own state, and the results per question index. */
  class Game {
    const code: string
    const quizId: string
    const quiz: Quiz
    const hostId: string
    const hostName: string
    const mode: GameMode
    const createdAt: int
    var status: GameStatus
    var players: seq<Player>
    var playerStates: map<string, PlayerGameState>
    /** Deprecated game-wide index, still moved by startGame and moveToNextQuestion. */
    var currentQuestionIndex: int
    var results: map<int, QuestionResults>
    var finishedAt: Option<int>

    ghost predicate Valid()
      reads this
    {
      && DistinctIds(players)
      && (forall k :: 0 <= k < |players| ==> PlayerStatsValid(players[k]))
      && (status == Lobby ==> playerStates == map[])
      && (forall id :: id in playerStates ==> playerStates[id].playerId == id && StateValid(playerStates[id]))
      && (forall i :: i in results ==> VotesTally(results[i]))
    }

    /** The fields a step on one player's state leaves alone: roster, results, status, the
        deprecated index and the finish time. */
    function Frozen(): (seq<Player>, map<int, QuestionResults>, GameStatus, int, Option<int>)
      reads this
    {
      (players, results, status, currentQuestionIndex, finishedAt)
    }

    /** A player who has answered the current question has an answer on record. */
    lemma AnsweredHaveAnswers()
      requires Valid()
      ensures forall id :: id in playerStates && playerStates[id].hasAnsweredCurrent ==> playerStates[id].answers != []
    {
    }

    /** createGame's in-memory part. */
    constructor(code: string, quizId: string, quiz: Quiz, hostId: string, hostName: string, mode: GameMode, createdAt: int)
      ensures Valid()
      ensures this.code == code && this.quizId == quizId && this.quiz == quiz && this.hostId == hostId
      ensures this.hostName == hostName && this.mode == mode && this.createdAt == createdAt
      ensures status == Lobby && players == [] && playerStates == map[] && currentQuestionIndex == -1
      ensures results == map[] && finishedAt == None
    {
      this.code := code;
      this.quizId := quizId;
      this.quiz := quiz;
      this.hostId := hostId;
      this.hostName := hostName;
      this.mode := mode;
      this.createdAt := createdAt;
      status := Lobby;
      players := [];
      playerStates := map[];
      currentQuestionIndex := -1;
      results := map[];
      finishedAt := None;
    }

    /** The Game object as the handlers send it over the socket: its fields at that moment. */
    function View(): (v: GameView)
      reads this
      ensures v.code == code && v.status == status && v.players == players && v.playerStates == playerStates
      ensures v.quiz == quiz && v.results == results && v.currentQuestionIndex == currentQuestionIndex
    {
      GameView(code, quizId, quiz, hostId, hostName, status, mode, players, playerStates,
               currentQuestionIndex, results, createdAt, finishedAt)
    }

    /** The results entry for `index` can be written: it exists already, or the question has a
        correct option to open it with. */
    predicate CanRecord(index: int)
      reads this
      requires 0 <= index < |quiz.questions|
    {
      index in results || CorrectOptionId(quiz.questions[index].options).Some?
    }

    /** The in-place bookkeeping of an accepted answer: the player's statistics, the player's own
        log and phase, and then the results entry of that question index. Opening a missing entry
        on a question without a correct option throws after the player's updates; the results are
        then left as they were. */
    method RecordAnswer(a: Accepted, playerId: string, now: int)
      requires Valid()
      requires playerId in playerStates && a.index == playerStates[playerId].currentQuestionIndex
      requires 0 <= a.index < |quiz.questions|
      requires a.rosterSlot < |players| && players[a.rosterSlot].id == playerId
      requires a.answer.isCorrect ==> a.answer.pointsEarned >= Scoring.MIN_POINTS
      requires a.player == Answered(players[a.rosterSlot], a.answer.isCorrect, a.answer.pointsEarned)
      modifies this
      ensures Valid()
      ensures players == old(players)[a.rosterSlot := a.player]
      ensures var st := old(playerStates)[playerId];
        playerStates == old(playerStates)[playerId := st.(answers := st.answers + [a.answer],
                                                          hasAnsweredCurrent := true,
                                                          phase := WaitingResults,
                                                          lastActivityAt := now)]
      ensures old(CanRecord(a.index)) ==>
        results == old(results)[a.index := Recorded(if a.index in old(results) then Some(old(results)[a.index]) else None,
                                                    quiz.questions[a.index], |players|, a.answer)]
      ensures !old(CanRecord(a.index)) ==> results == old(results)
      ensures status == old(status) && currentQuestionIndex == old(currentQuestionIndex) && finishedAt == old(finishedAt)
    {
      AnsweredKeepsStats(players[a.rosterSlot], a.answer.isCorrect, a.answer.pointsEarned);
      players := players[a.rosterSlot := a.player];
      var st := playerStates[playerId];
      playerStates := playerStates[playerId := st.(answers := st.answers + [a.answer],
                                                   hasAnsweredCurrent := true,
                                                   phase := WaitingResults,
                                                   lastActivityAt := now)];
      var question := quiz.questions[a.index];
      var entry := if a.index in results then Some(results[a.index]) else None;
      if entry.None? && CorrectOptionId(question.options).None? {
        return;
      }
      RecordedKeepsTally(entry, question, |players|, a.answer);
      results := results[a.index := Recorded(entry, question, |players|, a.answer)];
    }
  }

  /** A snapshot of a Game's fields (the avatar-free Game type of the shared types). */
  datatype GameView = GameView(
    code: string,
    quizId: string,
    quiz: Quiz,
    hostId: string,
    hostName: string,
    status: GameStatus,
    mode: GameMode,
    players: seq<Player>,
    playerStates: map<string, PlayerGameState>,
    currentQuestionIndex: int,
    results: map<int, QuestionResults>,
    createdAt: int,
    finishedAt: Option<int>)

  /** finishGame's question history: each question with the results recorded at its index. */
  function QuestionHistory(questions: seq<Question>, results: map<int, QuestionResults>): (h: seq<HistoryEntry>)
    ensures |h| == |questions|
    ensures forall i :: 0 <= i < |h| ==> h[i].question == questions[i]
    ensures forall i :: 0 <= i < |h| ==> h[i].results == (if i in results then Some(results[i]) else None)
  {
    seq(|questions|, i requires 0 <= i < |questions| => HistoryEntry(questions[i], if i in results then Some(results[i]) else None))
  }

  /** `players.every(p => hasPlayerFinished(p.id))` over the given player states. */
  function AllFinished(players: seq<Player>, playerStates: map<string, PlayerGameState>): (b: bool)
    ensures b <==> forall k :: 0 <= k < |players| ==>
      players[k].id in playerStates && playerStates[players[k].id].phase == PlayerFinished
  {
    if players == [] then true
    else
      var id := players[0].id;
      assert forall k :: 1 <= k < |players| ==> players[k] == players[1..][k - 1];
      id in playerStates && playerStates[id].phase == PlayerFinished && AllFinished(players[1..], playerStates)
  }

  /** An accepted answer: the question index, the player's roster slot, the answer record and
      the player's updated statistics. */
  datatype Accepted = Accepted(index: int, rosterSlot: nat, answer: PlayerAnswer, player: Player)

  /** The decision part of submitPlayerAnswer, for an existing game: the checks in their order,
      then the answer and the updated player. */
  function Adjudicate(quiz: Quiz, players: seq<Player>, playerStates: map<string, PlayerGameState>,
                      playerId: string, optionId: string, timeElapsed: int, now: int): (r: Result<Accepted, GameError>)
    ensures r == Err(PlayerStateNotFound) <==> playerId !in playerStates
    ensures playerId in playerStates ==>
      var idx := playerStates[playerId].currentQuestionIndex;
      && (r == Err(NoCurrentQuestion) <==> !(0 <= idx < |quiz.questions|))
      && (0 <= idx < |quiz.questions| ==>
            && (r == Err(PlayerNotFound) <==> !InRoster(players, playerId))
            && (InRoster(players, playerId) ==>
                  && (r == Err(OptionNotFound) <==> FindOption(quiz.questions[idx].options, optionId).None?)
                  && (FindOption(quiz.questions[idx].options, optionId).Some? ==>
                        (r == Err(NonFinitePoints) <==>
                           FindOption(quiz.questions[idx].options, optionId).value.isCorrect && quiz.questions[idx].timeLimit == 0))))
    ensures r.Err? ==> r.error in {PlayerStateNotFound, NoCurrentQuestion, PlayerNotFound, OptionNotFound, NonFinitePoints}
    ensures r.Ok? ==>
      var a := r.value;
      && playerId in playerStates
      && a.index == playerStates[playerId].currentQuestionIndex
      && 0 <= a.index < |quiz.questions|
      && a.rosterSlot < |players| && players[a.rosterSlot].id == playerId
      && (forall k :: 0 <= k < a.rosterSlot ==> players[k].id != playerId)
      && var q := quiz.questions[a.index];
      && FindOption(q.options, optionId).Some?
      && a.answer.isCorrect == FindOption(q.options, optionId).value.isCorrect
      && a.answer.playerId == playerId && a.answer.questionId == q.id && a.answer.optionId == optionId
      && a.answer.answeredAt == now && a.answer.timeElapsed == timeElapsed
      && (!a.answer.isCorrect ==> a.answer.pointsEarned == 0)
      && (a.answer.isCorrect ==>
            q.timeLimit != 0
            && a.answer.pointsEarned == Scoring.CalculatePoints(
              q.timeLimit,
              ValidatedElapsed(timeElapsed, playerStates[playerId].questionStartTime, q.timeLimit, now),
              players[a.rosterSlot].streak)
            && a.answer.pointsEarned >= Scoring.MIN_POINTS)
      && a.player == Answered(players[a.rosterSlot], a.answer.isCorrect, a.answer.pointsEarned)
  {
    if playerId !in playerStates then Err(PlayerStateNotFound)
    else
      var st := playerStates[playerId];
      var idx := st.currentQuestionIndex;
      if !(0 <= idx < |quiz.questions|) then Err(NoCurrentQuestion)
      else
        var question := quiz.questions[idx];
        var found := FindPlayer(players, playerId);
        if found.None? then Err(PlayerNotFound)
        else
          var selected := FindOption(question.options, optionId);
          if selected.None? then Err(OptionNotFound)
          else if selected.value.isCorrect && question.timeLimit == 0 then Err(NonFinitePoints)
          else
            var player := players[found.value];
            var isCorrect := selected.value.isCorrect;
            var elapsed := ValidatedElapsed(timeElapsed, st.questionStartTime, question.timeLimit, now);
            var points := if isCorrect then Scoring.CalculatePoints(question.timeLimit, elapsed, player.streak) else 0;
            var answer := PlayerAnswer(playerId, question.id, optionId, now, timeElapsed, isCorrect, points);
            Ok(Accepted(idx, found.value, answer, Answered(player, isCorrect, points)))
  }

  datatype RankingView = RankingView(ranking: seq<RankingEntry>, topPlayers: seq<RankingEntry>)

  /** The forEach of startGame: every roster player gets a fresh state; `states` is empty while
      the game is in the lobby. */
  method InitializeStates(players: seq<Player>, states: map<string, PlayerGameState>, now: int)
    returns (states': map<string, PlayerGameState>)
    requires states == map[]
    ensures forall k :: 0 <= k < |players| ==>
      players[k].id in states' && states'[players[k].id] == InitialState(players[k].id, now)
    ensures forall id :: id in states' ==> InRoster(players, id)
    ensures forall id :: id in states' ==> states'[id].playerId == id && StateValid(states'[id])
  {
    states' := states;
    var k := 0;
    while k < |players|
      invariant 0 <= k <= |players|
      invariant forall j :: 0 <= j < k ==>
        players[j].id in states' && states'[players[j].id] == InitialState(players[j].id, now)
      invariant forall id :: id in states' ==> exists j :: 0 <= j < k && players[j].id == id
      invariant forall id :: id in states' ==> states'[id].playerId == id && StateValid(states'[id])
    {
      var id := players[k].id;
      states' := states'[id := InitialState(id, now)];
      k := k + 1;
    }
  }

  /** The registry of rooms: `activeGames` maps each room code to its game. */
  class GameService {
    var activeGames: map<string, Game>

    ghost predicate Valid()
      reads this, activeGames.Values
    {
      forall c :: c in activeGames ==>
        activeGames[c].code == c && CodeGenerator.IsValidGameCode(c) && activeGames[c].Valid()
    }

    lemma GameIsValid(code: string)
      requires Valid() && code in activeGames
      ensures activeGames[code].Valid()
    {
    }

    /** Changing only the game under `code`, and keeping it valid, keeps the service valid. */
    twostate lemma StillValid(code: string)
      requires old(Valid()) && code in activeGames && activeGames == old(activeGames)
      requires forall c :: c in activeGames && c != code ==> unchanged(activeGames[c])
      requires activeGames[code].Valid()
      ensures Valid()
    {
    }

    /** The one game an operation on `code` may change. */
    function GameFrame(code: string): set<Game>
      reads this
    {
      if code in activeGames then {activeGames[code]} else {}
    }

    constructor()
      ensures Valid() && activeGames == map[]
    {
      activeGames := map[];
    }

    /** createGame's in-memory part: `quiz` is what the repository returned, `picks` the random
        alphabet positions of a code the collision check found unused, `hostId` the generated
        host id. */
    method CreateGame(quiz: Option<Quiz>, quizId: string, hostName: string, mode: GameMode,
                      picks: seq<nat>, hostId: string, now: int) returns (r: Result<Game, GameError>)
      requires Valid()
      requires |picks| == CodeGenerator.CODE_LENGTH
      requires forall i :: 0 <= i < |picks| ==> picks[i] < |CodeGenerator.ALPHABET|
      requires CodeGenerator.GenerateGameCode(picks) !in activeGames
      modifies this
      ensures Valid()
      ensures r == Err(QuizNotFound) <==> quiz.None?
      ensures r.Ok? <==> quiz.Some?
      ensures quiz.None? ==> activeGames == old(activeGames)
      ensures r.Ok? ==>
        && fresh(r.value)
        && r.value.code == CodeGenerator.GenerateGameCode(picks)
        && activeGames == old(activeGames)[r.value.code := r.value]
        && r.value.quiz == quiz.value && r.value.quizId == quizId && r.value.hostId == hostId
        && r.value.hostName == hostName && r.value.mode == mode && r.value.createdAt == now
        && r.value.status == Lobby && r.value.players == [] && r.value.playerStates == map[]
        && r.value.currentQuestionIndex == -1 && r.value.results == map[] && r.value.finishedAt == None
    {
      if quiz.None? {
        return Err(QuizNotFound);
      }
      var code := CodeGenerator.GenerateGameCode(picks);
      var game := new Game(code, quizId, quiz.value, hostId, hostName, mode, now);
      activeGames := activeGames[code := game];
      r := Ok(game);
    }

    /** joinGame: `playerId` is the freshly generated id and `now` the join time. */
    method JoinGame(code: string, playerName: string, playerId: string, supabaseUserId: Option<string>, now: int)
      returns (r: Result<Player, GameError>)
      requires Valid()
      requires code in activeGames ==> !InRoster(activeGames[code].players, playerId)
      modifies GameFrame(code)
      ensures Valid()
      ensures activeGames == old(activeGames)
      ensures r == Err(GameNotFound) <==> code !in activeGames
      ensures code in activeGames ==>
        var g := activeGames[code];
        && (r == Err(GameAlreadyStarted) <==> old(g.status) != Lobby)
        && (r == Err(NameAlreadyTaken) <==> old(g.status) == Lobby && NameTaken(old(g.players), playerName))
        && (r.Ok? <==> old(g.status) == Lobby && !NameTaken(old(g.players), playerName))
        && (r.Err? ==> g.players == old(g.players))
        && (r.Ok? ==>
              r.value == Player(playerId, playerName, PlayerWaiting, 0, 0, 0, 0, 0, false, now, supabaseUserId)
              && g.players == old(g.players) + [r.value])
        && g.status == old(g.status) && g.playerStates == old(g.playerStates) && g.results == old(g.results)
        && g.currentQuestionIndex == old(g.currentQuestionIndex) && g.finishedAt == old(g.finishedAt)
    {
      if code !in activeGames {
        return Err(GameNotFound);
      }
      var game := activeGames[code];
      if game.status != Lobby {
        return Err(GameAlreadyStarted);
      }
      if NameTaken(game.players, playerName) {
        return Err(NameAlreadyTaken);
      }
      var player := Player(playerId, playerName, PlayerWaiting, 0, 0, 0, 0, 0, false, now, supabaseUserId);
      game.players := game.players + [player];
      StillValid(code);
      r := Ok(player);
    }

    /** startGame: only the host, only from the lobby; every roster player gets a fresh state. */
    method StartGame(code: string, hostId: string, now: int) returns (r: Result<Game, GameError>)
      requires Valid()
      modifies GameFrame(code)
      ensures Valid()
      ensures activeGames == old(activeGames)
      ensures r == Err(GameNotFound) <==> code !in activeGames
      ensures code in activeGames ==>
        var g := activeGames[code];
        && (r == Err(OnlyHostCanStart) <==> g.hostId != hostId)
        && (r == Err(GameAlreadyStarted) <==> g.hostId == hostId && old(g.status) != Lobby)
        && (r.Ok? <==> g.hostId == hostId && old(g.status) == Lobby)
        && (r.Err? ==> g.status == old(g.status) && g.playerStates == old(g.playerStates)
                       && g.currentQuestionIndex == old(g.currentQuestionIndex))
        && (r.Ok? ==>
              && r.value == g && g.status == Playing && g.currentQuestionIndex == 0
              && (forall k :: 0 <= k < |g.players| ==>
                    g.players[k].id in g.playerStates
                    && g.playerStates[g.players[k].id] == InitialState(g.players[k].id, now))
              && (forall id :: id in g.playerStates ==> InRoster(g.players, id)))
        && g.players == old(g.players) && g.results == old(g.results) && g.finishedAt == old(g.finishedAt)
    {
      if code !in activeGames {
        return Err(GameNotFound);
      }
      var game := activeGames[code];
      if game.hostId != hostId {
        return Err(OnlyHostCanStart);
      }
      if game.status != Lobby {
        return Err(GameAlreadyStarted);
      }
      game.status := Playing;
      game.currentQuestionIndex := 0;
      game.playerStates := InitializeStates(game.players, game.playerStates, now);
      StillValid(code);
      r := Ok(game);
    }

    /** startPlayerQuestion: the player moves to the next question, or is finished past the last. */
    method StartPlayerQuestion(code: string, playerId: string, now: int) returns (r: Result<PlayerGameState, GameError>)
      requires Valid()
      modifies GameFrame(code)
      ensures Valid()
      ensures activeGames == old(activeGames)
      ensures r == Err(GameNotFound) <==> code !in activeGames
      ensures code in activeGames ==>
        var g := activeGames[code];
        && (r == Err(PlayerStateNotFound) <==> playerId !in old(g.playerStates))
        && (r.Ok? <==> playerId in old(g.playerStates))
        && (r.Err? ==> g.playerStates == old(g.playerStates))
        && (r.Ok? ==>
              && r.value == QuestionStarted(old(g.playerStates)[playerId], |g.quiz.questions|, now)
              && g.playerStates == old(g.playerStates)[playerId := r.value])
        && g.players == old(g.players) && g.results == old(g.results) && g.status == old(g.status)
        && g.currentQuestionIndex == old(g.currentQuestionIndex) && g.finishedAt == old(g.finishedAt)
    {
      if code !in activeGames {
        return Err(GameNotFound);
      }
      var game := activeGames[code];
      if playerId !in game.playerStates {
        return Err(PlayerStateNotFound);
      }
      var st := QuestionStarted(game.playerStates[playerId], |game.quiz.questions|, now);
      game.playerStates := game.playerStates[playerId := st];
      StillValid(code);
      r := Ok(st);
    }

    /** submitPlayerAnswer: `timeElapsed` is the client's claim and `now` the arrival time. A
        repeated answer to the same question is accepted like the first. On a question without a
        correct option the player's statistics and state are updated before the call throws. */
    method SubmitPlayerAnswer(code: string, playerId: string, optionId: string, timeElapsed: int, now: int)
      returns (r: Result<PlayerAnswer, GameError>)
      requires Valid()
      modifies GameFrame(code)
      ensures Valid()
      ensures activeGames == old(activeGames)
      ensures code !in activeGames ==> r == Err(GameNotFound)
      ensures code in activeGames ==>
        var g := activeGames[code];
        var verdict := Adjudicate(g.quiz, old(g.players), old(g.playerStates), playerId, optionId, timeElapsed, now);
        && (verdict.Err? ==> r == Err(verdict.error) && g.players == old(g.players)
                             && g.playerStates == old(g.playerStates) && g.results == old(g.results))
        && (verdict.Ok? ==>
              var a := verdict.value;
              var st := old(g.playerStates)[playerId];
              var recordable := a.index in old(g.results) || CorrectOptionId(g.quiz.questions[a.index].options).Some?;
              && r == (if recordable then Ok(a.answer) else Err(NoCorrectOption))
              && g.players == old(g.players)[a.rosterSlot := a.player]
              && g.playerStates == old(g.playerStates)[playerId := st.(answers := st.answers + [a.answer],
                                                                     hasAnsweredCurrent := true,
                                                                     phase := WaitingResults,
                                                                     lastActivityAt := now)]
              && (recordable ==>
                    g.results == old(g.results)[a.index := Recorded(if a.index in old(g.results) then Some(old(g.results)[a.index]) else None,
                                                                    g.quiz.questions[a.index], |g.players|, a.answer)])
              && (!recordable ==> g.results == old(g.results)))
        && g.status == old(g.status) && g.currentQuestionIndex == old(g.currentQuestionIndex)
        && g.finishedAt == old(g.finishedAt)
    {
      if code !in activeGames {
        return Err(GameNotFound);
      }
      var game := activeGames[code];
      var verdict := Adjudicate(game.quiz, game.players, game.playerStates, playerId, optionId, timeElapsed, now);
      if verdict.Err? {
        return Err(verdict.error);
      }
      var recordable := game.CanRecord(verdict.value.index);
      game.RecordAnswer(verdict.value, playerId, now);
      StillValid(code);
      r := if recordable then Ok(verdict.value.answer) else Err(NoCorrectOption);
    }

    /** advancePlayerToNextQuestion: finishes the player when no question follows; otherwise
        changes nothing and leaves the move itself to startPlayerQuestion. */
    method AdvancePlayerToNextQuestion(code: string, playerId: string) returns (r: Result<bool, GameError>)
      requires Valid()
      modifies GameFrame(code)
      ensures Valid()
      ensures activeGames == old(activeGames)
      ensures r == Err(GameNotFound) <==> code !in activeGames
      ensures code in activeGames ==>
        var g := activeGames[code];
        && (r == Err(PlayerStateNotFound) <==> playerId !in old(g.playerStates))
        && (r.Ok? <==> playerId in old(g.playerStates))
        && (playerId in old(g.playerStates) ==>
              var st := old(g.playerStates)[playerId];
              && (r == Ok(false) <==> st.currentQuestionIndex + 1 >= |g.quiz.questions|)
              && (r == Ok(false) ==> g.playerStates == old(g.playerStates)[playerId := st.(phase := PlayerFinished)]))
        && (r != Ok(false) ==> g.playerStates == old(g.playerStates))
        && g.players == old(g.players) && g.results == old(g.results) && g.status == old(g.status)
        && g.currentQuestionIndex == old(g.currentQuestionIndex) && g.finishedAt == old(g.finishedAt)
    {
      if code !in activeGames {
        return Err(GameNotFound);
      }
      var game := activeGames[code];
      if playerId !in game.playerStates {
        return Err(PlayerStateNotFound);
      }
      var st := game.playerStates[playerId];
      if st.currentQuestionIndex + 1 >= |game.quiz.questions| {
        game.playerStates := game.playerStates[playerId := st.(phase := PlayerFinished)];
        StillValid(code);
        return Ok(false);
      }
      r := Ok(true);
    }

    /** moveToNextQuestion: advances the deprecated game-wide index; true while it names a question. */
    method MoveToNextQuestion(code: string) returns (r: Result<bool, GameError>)
      requires Valid()
      modifies GameFrame(code)
      ensures Valid()
      ensures activeGames == old(activeGames)
      ensures r == Err(GameNotFound) <==> code !in activeGames
      ensures code in activeGames ==>
        var g := activeGames[code];
        && g.currentQuestionIndex == old(g.currentQuestionIndex) + 1
        && r == Ok(g.currentQuestionIndex < |g.quiz.questions|)
        && g.players == old(g.players) && g.playerStates == old(g.playerStates) && g.results == old(g.results)
        && g.status == old(g.status) && g.finishedAt == old(g.finishedAt)
    {
      if code !in activeGames {
        return Err(GameNotFound);
      }
      var game := activeGames[code];
      game.currentQuestionIndex := game.currentQuestionIndex + 1;
      StillValid(code);
      r := Ok(game.currentQuestionIndex < |game.quiz.questions|);
    }

    /** finishGame: marks the game finished (again, if it already was) and reports the final
        ranking, the podium, the question history and the statistics sent for registered players. */
    method FinishGame(code: string, now: int) returns (r: Result<FinishResult, GameError>)
      requires Valid()
      modifies GameFrame(code)
      ensures Valid()
      ensures activeGames == old(activeGames)
      ensures r == Err(GameNotFound) <==> code !in activeGames
      ensures code in activeGames ==>
        var g := activeGames[code];
        var ranking := Ranking(g.players);
        && g.status == Finished && g.finishedAt == Some(now)
        && r == Ok(FinishResult(ranking, Take(ranking, 3), QuestionHistory(g.quiz.questions, g.results), StatsUpdates(ranking)))
        && g.players == old(g.players) && g.playerStates == old(g.playerStates) && g.results == old(g.results)
        && g.currentQuestionIndex == old(g.currentQuestionIndex)
    {
      if code !in activeGames {
        return Err(GameNotFound);
      }
      var game := activeGames[code];
      game.status := Finished;
      game.finishedAt := Some(now);
      StillValid(code);
      var ranking := Ranking(game.players);
      var podium := Take(ranking, 3);
      var history := QuestionHistory(game.quiz.questions, game.results);
      r := Ok(FinishResult(ranking, podium, history, StatsUpdates(ranking)));
    }

    /** removePlayer: drops the player from the roster (keeping its state) and evicts the game once
        the roster is empty. */
    method RemovePlayer(code: string, playerId: string)
      requires Valid()
      modifies this, GameFrame(code)
      ensures Valid()
      ensures code !in old(activeGames) ==> activeGames == old(activeGames)
      ensures code in old(activeGames) ==>
        var g := old(activeGames)[code];
        && g.players == WithoutPlayer(old(g.players), playerId)
        && (activeGames == if g.players == [] then old(activeGames) - {code} else old(activeGames))
        && g.playerStates == old(g.playerStates) && g.results == old(g.results) && g.status == old(g.status)
        && g.currentQuestionIndex == old(g.currentQuestionIndex) && g.finishedAt == old(g.finishedAt)
    {
      if code !in activeGames {
        return;
      }
      var game := activeGames[code];
      WithoutPlayerShrinks(game.players, playerId);
      game.players := WithoutPlayer(game.players, playerId);
      StillValid(code);
      if game.players == [] {
        activeGames := activeGames - {code};
      }
    }

    /** getRanking. */
    function GetRanking(code: string): (r: Result<RankingView, GameError>)
      reads this, GameFrame(code)
      ensures r.Err? <==> code !in activeGames
      ensures r.Ok? ==> r.value.ranking == Ranking(activeGames[code].players)
      ensures r.Ok? ==> |r.value.topPlayers| == if |r.value.ranking| < 5 then |r.value.ranking| else 5
      ensures r.Ok? ==> r.value.topPlayers == r.value.ranking[..|r.value.topPlayers|]
    {
      if code !in activeGames then Err(GameNotFound)
      else
        var ranking := Ranking(activeGames[code].players);
        Ok(RankingView(ranking, Take(ranking, 5)))
    }

    /** getPlayerState. */
    function GetPlayerState(code: string, playerId: string): (r: Option<PlayerGameState>)
      reads this, GameFrame(code)
      ensures r.Some? <==> code in activeGames && playerId in activeGames[code].playerStates
      ensures r.Some? ==> r.value == activeGames[code].playerStates[playerId]
    {
      if code in activeGames && playerId in activeGames[code].playerStates then Some(activeGames[code].playerStates[playerId])
      else None
    }

    /** hasPlayerFinished. */
    function HasPlayerFinished(code: string, playerId: string): (b: bool)
      reads this, GameFrame(code)
      ensures b <==> GetPlayerState(code, playerId).Some? && GetPlayerState(code, playerId).value.phase == PlayerFinished
    {
      match GetPlayerState(code, playerId)
      case None => false
      case Some(st) => st.phase == PlayerFinished
    }

    /** haveAllPlayersFinished: false for a missing game, vacuously true for an empty roster. */
    function HaveAllPlayersFinished(code: string): (b: bool)
      reads this, GameFrame(code)
      ensures b <==> code in activeGames && forall k :: 0 <= k < |activeGames[code].players| ==>
        HasPlayerFinished(code, activeGames[code].players[k].id)
      ensures code in activeGames && activeGames[code].players == [] ==> b
    {
      code in activeGames && AllFinished(activeGames[code].players, activeGames[code].playerStates)
    }

    /** getGameStats, without the two percentages. */
    function GetGameStats(code: string): (r: Option<GameStats>)
      reads this, GameFrame(code)
      ensures r.None? <==> code !in activeGames
      ensures r.Some? ==>
        var g := activeGames[code];
        && r.value.currentQuestionIndex == DerivedQuestionIndex(g.playerStates, g.currentQuestionIndex)
        && r.value.totalQuestions == |g.quiz.questions|
        && r.value.playerStats == StatsTable(g.players)
    {
      if code !in activeGames then None
      else
        var g := activeGames[code];
        Some(GameStats(DerivedQuestionIndex(g.playerStates, g.currentQuestionIndex), |g.quiz.questions|, StatsTable(g.players)))
    }
  }
}
