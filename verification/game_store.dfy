/**
 * The frontend's global game store (frontend/store/gameStore.ts). Every action merges
 * a partial object into a fresh state, so the store is one state value that each
 * action replaces; Apply is that merge, one Action constructor per store action.
 */
module GameStore {
  import opened Wrappers
  import opened GameTypes
  import Games

  /** The parts of the shared Game object the store reads or writes (quiz, player states, results and dates are left out). */
  datatype GameSnapshot = GameSnapshot(
    id: string,
    code: string,
    quizId: string,
    hostId: string,
    hostName: string,
    status: GameStatus,
    mode: GameMode,
    players: seq<Player>,
    currentQuestionIndex: int)

  /** transitionState: 'idle', 'answering', 'showing_feedback', 'showing_ranking' or 'loading_next'. */
  datatype Transition = Idle | AnsweringQuestion | ShowingFeedback | ShowingRanking | LoadingNext

  datatype AnswerFeedback = AnswerFeedback(isCorrect: bool, pointsEarned: int, correctOptionId: string, selectedOptionId: string)

  datatype FinalData = FinalData(finalRanking: seq<RankingEntry>, podium: seq<RankingEntry>, questionHistory: seq<Games.HistoryEntry>)

  /** The store's data; None stands for null (and for an omitted currentPlayerRank). */
  datatype StoreState = StoreState(
    game: Option<GameSnapshot>,
    currentPlayer: Option<Player>,
    playerState: Option<PlayerGameState>,
    currentQuestion: Option<Question>,
    questionStartTime: Option<int>,
    questionResults: Option<QuestionResults>,
    ranking: Option<seq<RankingEntry>>,
    currentPlayerRank: Option<int>,
    gameStats: Option<Games.GameStats>,
    finalData: Option<FinalData>,
    isConnected: bool,
    hasAnswered: bool,
    selectedOptionId: Option<string>,
    transitionState: Transition,
    answerFeedback: Option<AnswerFeedback>)

  /** initialState: nothing known, disconnected, idle. */
  function Initial(): StoreState {
    StoreState(None, None, None, None, None, None, None, None, None, None, false, false, None, Idle, None)
  }

  /** The store's actions. */
  datatype Action =
    | SetGame(game: GameSnapshot)
    | SetCurrentPlayer(player: Player)
    | SetPlayerState(playerState: PlayerGameState)
    | SetCurrentQuestion(question: Question, startTime: int)
    | SetQuestionResults(results: QuestionResults)
    | SetRanking(ranking: seq<RankingEntry>, currentPlayerRank: Option<int>)
    | SetTransitionState(transition: Transition)
    | SetAnswerFeedback(feedback: AnswerFeedback)
    | SetGameStats(stats: Games.GameStats)
    | SetFinalData(data: FinalData)
    | SetIsConnected(connected: bool)
    | SetHasAnswered(answered: bool)
    | SetSelectedOptionId(optionId: Option<string>)
    | UpdateGameStatus(status: GameStatus)
    | UpdatePlayers(players: seq<Player>)
    | Reset

  /** set(partial): the state after one action. Only reset clears the game or the connection
      flag; the game updaters do nothing without a game; the transition state changes only by
      its own setter, a new question, feedback or reset. */
  function Apply(s: StoreState, a: Action): (r: StoreState)
    ensures a.Reset? ==> r == Initial()
    ensures !a.Reset? ==> (r.game.Some? <==> s.game.Some? || a.SetGame?)
    ensures !a.Reset? && !a.SetIsConnected? ==> r.isConnected == s.isConnected
    ensures (a.UpdateGameStatus? || a.UpdatePlayers?) && s.game.None? ==> r == s
    ensures r.transitionState != s.transitionState ==>
      a.SetTransitionState? || a.SetCurrentQuestion? || a.SetAnswerFeedback? || a.Reset?
    ensures a.SetAnswerFeedback? ==> r.transitionState == ShowingFeedback && r.answerFeedback == Some(a.feedback)
  {
    match a
    case SetGame(g) => s.(game := Some(g))
    case SetCurrentPlayer(p) => s.(currentPlayer := Some(p))
    case SetPlayerState(ps) => s.(playerState := Some(ps))
    case SetCurrentQuestion(q, t) =>
      s.(currentQuestion := Some(q), questionStartTime := Some(t), hasAnswered := false,
         selectedOptionId := None, transitionState := Idle, answerFeedback := None)
    case SetQuestionResults(r) => s.(questionResults := Some(r))
    case SetRanking(r, rank) => s.(ranking := Some(r), currentPlayerRank := rank)
    case SetTransitionState(t) => s.(transitionState := t)
    case SetAnswerFeedback(f) => s.(answerFeedback := Some(f), transitionState := ShowingFeedback)
    case SetGameStats(st) => s.(gameStats := Some(st))
    case SetFinalData(d) => s.(finalData := Some(d))
    case SetIsConnected(c) => s.(isConnected := c)
    case SetHasAnswered(h) => s.(hasAnswered := h)
    case SetSelectedOptionId(o) => s.(selectedOptionId := o)
    case UpdateGameStatus(st) => if s.game.None? then s else s.(game := Some(s.game.value.(status := st)))
    case UpdatePlayers(ps) => if s.game.None? then s else s.(game := Some(s.game.value.(players := ps)))
    case Reset => Initial()
  }

  /**
   * Every action can be delivered twice with the effect of once: a repeated socket
   * event leaves the store as the first delivery did.
   */
  lemma ActionsIdempotent(s: StoreState, a: Action)
    ensures Apply(Apply(s, a), a) == Apply(s, a)
  {
  }

  /**
   * The connection flag is independent of everything else: setting it commutes with
   * every action except reset, and only it and reset change the flag.
   */
  lemma ConnectionIndependent(s: StoreState, a: Action, connected: bool)
    ensures !a.Reset? && !a.SetIsConnected? ==>
      Apply(Apply(s, a), SetIsConnected(connected)) == Apply(Apply(s, SetIsConnected(connected)), a)
    ensures !a.Reset? && !a.SetIsConnected? ==> Apply(s, a).isConnected == s.isConnected
  {
  }

  /**
   * A new question clears everything the previous one left behind: no answer, no
   * selection, no feedback, idle, whatever the store held before.
   */
  lemma NewQuestionForgetsAnswer(s: StoreState, q: Question, startTime: int, feedback: AnswerFeedback)
    ensures var s' := Apply(s, SetCurrentQuestion(q, startTime));
      s'.currentQuestion == Some(q) && s'.questionStartTime == Some(startTime) &&
      !s'.hasAnswered && s'.selectedOptionId == None && s'.transitionState == Idle && s'.answerFeedback == None
    ensures var s' := Apply(Apply(s, SetAnswerFeedback(feedback)), SetCurrentQuestion(q, startTime));
      s'.answerFeedback == None && s'.transitionState == Idle
    ensures var s' := Apply(s, SetCurrentQuestion(q, startTime));
      s'.game == s.game && s'.ranking == s.ranking && s'.gameStats == s.gameStats && s'.isConnected == s.isConnected
  {
  }

  /** Feedback always comes with the feedback screen, until a transition or a new question replaces it. */
  lemma FeedbackShowsFeedbackScreen(s: StoreState, feedback: AnswerFeedback, a: Action)
    requires !a.SetTransitionState? && !a.SetCurrentQuestion? && !a.SetAnswerFeedback? && !a.Reset?
    ensures Apply(s, SetAnswerFeedback(feedback)).transitionState == ShowingFeedback
    ensures var s' := Apply(Apply(s, SetAnswerFeedback(feedback)), a);
      s'.transitionState == ShowingFeedback && s'.answerFeedback == Some(feedback)
  {
  }

  /**
   * The two game updaters touch different fields of the game, so they commute; without
   * a game both leave the store as it is.
   */
  lemma GameUpdatersCommute(s: StoreState, status: GameStatus, players: seq<Player>)
    ensures Apply(Apply(s, UpdateGameStatus(status)), UpdatePlayers(players))
         == Apply(Apply(s, UpdatePlayers(players)), UpdateGameStatus(status))
    ensures s.game.None? ==> Apply(s, UpdateGameStatus(status)) == s && Apply(s, UpdatePlayers(players)) == s
    ensures s.game.Some? ==> Apply(s, UpdateGameStatus(status)).game.value == s.game.value.(status := status)
  {
  }

  /** reset forgets everything, the connection flag included. */
  lemma ResetForgets(s: StoreState, a: Action)
    ensures Apply(Apply(s, a), Reset) == Initial()
    ensures !Apply(s, Reset).isConnected && Apply(s, Reset).game.None?
  {
  }

  /** The store instance components subscribe to. */
  class Store {
    var state: StoreState

    constructor ()
      ensures state == Initial()
    {
      state := Initial();
    }

    method SetGame(game: GameSnapshot)
      modifies this
      ensures state == Apply(old(state), Action.SetGame(game))
    {
      state := state.(game := Some(game));
    }

    method SetCurrentPlayer(player: Player)
      modifies this
      ensures state == Apply(old(state), Action.SetCurrentPlayer(player))
    {
      state := state.(currentPlayer := Some(player));
    }

    method SetPlayerState(playerState: PlayerGameState)
      modifies this
      ensures state == Apply(old(state), Action.SetPlayerState(playerState))
    {
      state := state.(playerState := Some(playerState));
    }

    method SetCurrentQuestion(question: Question, startTime: int)
      modifies this
      ensures state == Apply(old(state), Action.SetCurrentQuestion(question, startTime))
    {
      state := state.(currentQuestion := Some(question), questionStartTime := Some(startTime), hasAnswered := false,
                      selectedOptionId := None, transitionState := Idle, answerFeedback := None);
    }

    method SetQuestionResults(results: QuestionResults)
      modifies this
      ensures state == Apply(old(state), Action.SetQuestionResults(results))
    {
      state := state.(questionResults := Some(results));
    }

    method SetRanking(ranking: seq<RankingEntry>, currentPlayerRank: Option<int>)
      modifies this
      ensures state == Apply(old(state), Action.SetRanking(ranking, currentPlayerRank))
    {
      state := state.(ranking := Some(ranking), currentPlayerRank := currentPlayerRank);
    }

    method SetTransitionState(transition: Transition)
      modifies this
      ensures state == Apply(old(state), Action.SetTransitionState(transition))
    {
      state := state.(transitionState := transition);
    }

    method SetAnswerFeedback(feedback: AnswerFeedback)
      modifies this
      ensures state == Apply(old(state), Action.SetAnswerFeedback(feedback))
    {
      state := state.(answerFeedback := Some(feedback), transitionState := ShowingFeedback);
    }

    method SetGameStats(stats: Games.GameStats)
      modifies this
      ensures state == Apply(old(state), Action.SetGameStats(stats))
    {
      state := state.(gameStats := Some(stats));
    }

    method SetFinalData(data: FinalData)
      modifies this
      ensures state == Apply(old(state), Action.SetFinalData(data))
    {
      state := state.(finalData := Some(data));
    }

    method SetIsConnected(connected: bool)
      modifies this
      ensures state == Apply(old(state), Action.SetIsConnected(connected))
    {
      state := state.(isConnected := connected);
    }

    method SetHasAnswered(answered: bool)
      modifies this
      ensures state == Apply(old(state), Action.SetHasAnswered(answered))
    {
      state := state.(hasAnswered := answered);
    }

    method SetSelectedOptionId(optionId: Option<string>)
      modifies this
      ensures state == Apply(old(state), Action.SetSelectedOptionId(optionId))
    {
      state := state.(selectedOptionId := optionId);
    }

    method UpdateGameStatus(status: GameStatus)
      modifies this
      ensures state == Apply(old(state), Action.UpdateGameStatus(status))
    {
      if state.game.Some? {
        state := state.(game := Some(state.game.value.(status := status)));
      }
    }

    method UpdatePlayers(players: seq<Player>)
      modifies this
      ensures state == Apply(old(state), Action.UpdatePlayers(players))
    {
      if state.game.Some? {
        state := state.(game := Some(state.game.value.(players := players)));
      }
    }

    method Reset()
      modifies this
      ensures state == Initial()
    {
      state := Initial();
    }
  }
}
