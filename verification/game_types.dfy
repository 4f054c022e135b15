/** The game datatypes shared by backend and frontend, and the SCORING constants. */
module GameTypes {
  import opened Wrappers

  /** GameStatus; QUESTION and RESULTS are InQuestion and InResults here. */
  datatype GameStatus = Lobby | Playing | InQuestion | InResults | Finished

  datatype GameMode = Fast | WaitAll

  datatype PlayerStatus = PlayerWaiting | PlayerReady | PlayerPlaying | PlayerDisconnected

  /** PlayerGameState.status: 'QUESTION', 'WAITING_RESULTS' or 'FINISHED'. */
  datatype PlayerPhase = Answering | WaitingResults | PlayerFinished

  /** A player; the avatar is left out, and joinedAt is in milliseconds. */
  datatype Player = Player(
    id: string,
    name: string,
    status: PlayerStatus,
    score: int,
    streak: int,
    correctAnswers: int,
    totalAnswers: int,
    accuracy: int,
    isHost: bool,
    joinedAt: int,
    supabaseUserId: Option<string>)

  datatype PlayerAnswer = PlayerAnswer(
    playerId: string,
    questionId: string,
    optionId: string,
    answeredAt: int,
    timeElapsed: int,
    isCorrect: bool,
    pointsEarned: int)

  /** One player's own progress through the quiz. */
  datatype PlayerGameState = PlayerGameState(
    playerId: string,
    currentQuestionIndex: int,
    phase: PlayerPhase,
    questionStartTime: Option<int>,
    hasAnsweredCurrent: bool,
    answers: seq<PlayerAnswer>,
    lastActivityAt: int)

  datatype QuestionOption = QuestionOption(id: string, text: string, isCorrect: bool)

  /** A question; timeLimit is in milliseconds. */
  datatype Question = Question(id: string, text: string, options: seq<QuestionOption>, timeLimit: int)

  datatype Quiz = Quiz(id: string, title: string, questions: seq<Question>)

  /** The answers one question has received; optionVotes counts them per option id. */
  datatype QuestionResults = QuestionResults(
    questionId: string,
    totalPlayers: int,
    optionVotes: map<string, int>,
    correctOptionId: string,
    playerAnswers: seq<PlayerAnswer>)

  datatype RankingEntry = RankingEntry(player: Player, rank: int)

  /** `players.find(p => p.id === id)`, as the index of the first match. */
  function FindPlayer(players: seq<Player>, id: string): (r: Option<nat>)
    ensures r.Some? ==> r.value < |players| && players[r.value].id == id
                        && forall k :: 0 <= k < r.value ==> players[k].id != id
    ensures r.None? <==> forall k :: 0 <= k < |players| ==> players[k].id != id
  {
    if players == [] then None
    else if players[0].id == id then Some(0)
    else match FindPlayer(players[1..], id)
      case None => None
      case Some(k) => Some(k + 1)
  }

  /** `options.find(o => o.id === id)`: the first option with that id. */
  function FindOption(options: seq<QuestionOption>, id: string): (r: Option<QuestionOption>)
    ensures r.Some? ==> exists k :: 0 <= k < |options| && options[k] == r.value && r.value.id == id
                                    && forall j :: 0 <= j < k ==> options[j].id != id
    ensures r.None? <==> forall k :: 0 <= k < |options| ==> options[k].id != id
  {
    if options == [] then None
    else if options[0].id == id then Some(options[0])
    else
      var r := FindOption(options[1..], id);
      assert forall k :: 1 <= k < |options| ==> options[k] == options[1..][k - 1];
      r
  }

  /** `options.find(o => o.isCorrect)?.id`: the id of the first correct option. */
  function CorrectOptionId(options: seq<QuestionOption>): (r: Option<string>)
    ensures r.Some? ==> exists k :: 0 <= k < |options| && options[k].isCorrect && options[k].id == r.value
                                    && forall j :: 0 <= j < k ==> !options[j].isCorrect
    ensures r.None? <==> forall k :: 0 <= k < |options| ==> !options[k].isCorrect
  {
    if options == [] then None
    else if options[0].isCorrect then Some(options[0].id)
    else
      var r := CorrectOptionId(options[1..]);
      assert forall k :: 1 <= k < |options| ==> options[k] == options[1..][k - 1];
      r
  }

  /** The roster's player ids are pairwise distinct. */
  predicate DistinctIds(players: seq<Player>) {
    forall i, j :: 0 <= i < j < |players| ==> players[i].id != players[j].id
  }

  predicate InRoster(players: seq<Player>, id: string) {
    exists k :: 0 <= k < |players| && players[k].id == id
  }
}
