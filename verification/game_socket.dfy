/** GameSocketHandler: the Socket.IO event handlers that drive GameService. Emits become an
    appended event log; every `setTimeout` becomes a pending timer that a later step runs. */
module GameSocket {
  import opened Wrappers
  import opened GameTypes
  import opened Games

  /** Why a handler answered the emitting socket with an error event. */
  datatype Failure = Service(error: GameError) | NoQuestions

  /** The payloads; a game is sent as the snapshot of its fields at the emit. */
  datatype Message =
    | GameCreatedMsg(game: GameView, qrCode: string, joinUrl: string)
    | PlayerJoinedMsg(game: GameView, player: Player)
    | GameUpdatedMsg(game: GameView)
    | ErrorMsg(failure: Failure)
    | GameStartedMsg(game: GameView)
    | QuestionStartMsg(question: Question, questionNumber: int, totalQuestions: int,
                       startTime: Option<int>, playerState: PlayerGameState)
    | AnswerSubmittedMsg(answer: PlayerAnswer)
    | StatsMsg(stats: GameStats)
    | FeedbackMsg(isCorrect: bool, pointsEarned: int, correctOptionId: Option<string>, selectedOptionId: string)
    | RankingMsg(ranking: seq<RankingEntry>, currentPlayerRank: int, topPlayers: seq<RankingEntry>)
    | PlayerFinishedMsg(finalRanking: seq<RankingEntry>, playerRank: int, playerScore: int,
                        podium: seq<RankingEntry>, questionHistory: seq<HistoryEntry>)
    | GameFinishedMsg(finalRanking: seq<RankingEntry>, podium: seq<RankingEntry>, questionHistory: seq<HistoryEntry>)

  /** Who receives an emit: one socket, a game's room, or every client. */
  datatype Event = ToSocket(socketId: string, msg: Message) | ToRoom(code: string, msg: Message) | ToAll(msg: Message)

  /** The callbacks the handlers schedule with `setTimeout`. A WAIT_ALL cohort is captured as the
      ids of its members. */
  datatype Timer =
    | StartQuestions(code: string)
    | FastRanking(code: string, playerId: string)
    | FastAdvance(code: string, playerId: string)
    | WaitAllRanking(code: string, cohort: seq<string>)
    | WaitAllAdvance(code: string, cohort: seq<string>)

  // ---------------------------------------------------------------- the playerSockets map

  /** A JS Map from player id to socket id, as its entries in insertion order. */
  predicate KeysDistinct(ps: seq<(string, string)>) {
    forall i, j :: 0 <= i < j < |ps| ==> ps[i].0 != ps[j].0
  }

  /** `playerSockets.get(playerId)`. */
  function SocketOf(ps: seq<(string, string)>, playerId: string): Option<string> {
    if ps == [] then None
    else if ps[0].0 == playerId then Some(ps[0].1)
    else SocketOf(ps[1..], playerId)
  }

  /** `get` finds a player exactly when the map has an entry for it, and returns that entry's
      socket id. */
  lemma {:induction false} SocketOfFound(ps: seq<(string, string)>, playerId: string)
    ensures SocketOf(ps, playerId).None? <==> forall i :: 0 <= i < |ps| ==> ps[i].0 != playerId
    ensures SocketOf(ps, playerId).Some? ==> exists i :: 0 <= i < |ps| && ps[i] == (playerId, SocketOf(ps, playerId).value)
  {
    if ps != [] && ps[0].0 != playerId {
      assert forall i :: 1 <= i < |ps| ==> ps[i] == ps[1..][i - 1];
      SocketOfFound(ps[1..], playerId);
      if SocketOf(ps, playerId).Some? {
        var i :| 0 <= i < |ps[1..]| && ps[1..][i] == (playerId, SocketOf(ps, playerId).value);
        assert ps[i + 1] == ps[1..][i];
      }
    }
  }

  /** `playerSockets.set(playerId, socketId)`: an existing entry keeps its place, a new one goes last. */
  function SetSocket(ps: seq<(string, string)>, playerId: string, socketId: string): (r: seq<(string, string)>)
    ensures SocketOf(r, playerId) == Some(socketId)
    ensures forall other :: other != playerId ==> SocketOf(r, other) == SocketOf(ps, other)
    ensures SocketOf(ps, playerId).None? ==> r == ps + [(playerId, socketId)]
    ensures |r| == |ps| || |r| == |ps| + 1
  {
    if ps == [] then [(playerId, socketId)]
    else if ps[0].0 == playerId then [(playerId, socketId)] + ps[1..]
    else
      var rest := SetSocket(ps[1..], playerId, socketId);
      assert forall i :: 1 <= i < |ps| ==> ps[i] == ps[1..][i - 1];
      [ps[0]] + rest
  }

  lemma {:induction false} SetSocketKeepsKeysDistinct(ps: seq<(string, string)>, playerId: string, socketId: string)
    requires KeysDistinct(ps)
    ensures KeysDistinct(SetSocket(ps, playerId, socketId))
  {
    if ps != [] && ps[0].0 != playerId {
      var tail := ps[1..];
      assert forall i :: 1 <= i < |ps| ==> ps[i] == tail[i - 1];
      SetSocketKeepsKeysDistinct(tail, playerId, socketId);
      var rest := SetSocket(tail, playerId, socketId);
      assert SocketOf(tail, ps[0].0).None? by {
        forall i | 0 <= i < |tail|
          ensures tail[i].0 != ps[0].0
        {
          assert tail[i] == ps[i + 1];
        }
        SocketOfFound(tail, ps[0].0);
      }
      assert SocketOf(rest, ps[0].0).None?;
      SocketOfFound(rest, ps[0].0);
    }
  }

  /** The position of the first entry with this socket id. */
  function FirstWithSocket(ps: seq<(string, string)>, socketId: string): (k: Option<nat>)
    ensures k.None? <==> forall i :: 0 <= i < |ps| ==> ps[i].1 != socketId
    ensures k.Some? ==> k.value < |ps| && ps[k.value].1 == socketId
                        && forall i :: 0 <= i < k.value ==> ps[i].1 != socketId
  {
    if ps == [] then None
    else if ps[0].1 == socketId then Some(0)
    else
      assert forall i :: 1 <= i < |ps| ==> ps[i] == ps[1..][i - 1];
      match FirstWithSocket(ps[1..], socketId)
      case None => None
      case Some(k) => Some(k + 1)
  }

  /** The disconnect loop: delete the first entry whose socket id matches, then stop. The other
      entries keep their order; an unknown socket id changes nothing. */
  function RemoveFirstSocket(ps: seq<(string, string)>, socketId: string): (r: seq<(string, string)>)
    ensures (forall i :: 0 <= i < |ps| ==> ps[i].1 != socketId) ==> r == ps
    ensures (exists i :: 0 <= i < |ps| && ps[i].1 == socketId) ==>
      var k := FirstWithSocket(ps, socketId).value;
      && |r| == |ps| - 1
      && (forall i :: 0 <= i < k ==> r[i] == ps[i] && r[i].1 != socketId)
      && (forall i :: k <= i < |r| ==> r[i] == ps[i + 1])
  {
    match FirstWithSocket(ps, socketId)
    case None => ps
    case Some(k) => ps[..k] + ps[k + 1..]
  }

  lemma RemoveFirstSocketKeepsKeysDistinct(ps: seq<(string, string)>, socketId: string)
    requires KeysDistinct(ps)
    ensures KeysDistinct(RemoveFirstSocket(ps, socketId))
  {
    match FirstWithSocket(ps, socketId)
    case None =>
    case Some(k) =>
      var r := ps[..k] + ps[k + 1..];
      forall i, j | 0 <= i < j < |r|
        ensures r[i].0 != r[j].0
      {
        var i' := if i < k then i else i + 1;
        var j' := if j < k then j else j + 1;
        assert r[i] == ps[i'] && r[j] == ps[j'];
      }
  }

  /** emitToPlayer: a unicast when the player has a (non-empty) socket id, nothing otherwise. */
  function Unicast(ps: seq<(string, string)>, playerId: string, msg: Message): seq<Event> {
    match SocketOf(ps, playerId)
    case Some(s) => if s != "" then [ToSocket(s, msg)] else []
    case None => []
  }

  /** A unicast reaches the socket registered for the player, and nobody when the player has
      no socket (or an empty socket id). */
  lemma UnicastDelivers(ps: seq<(string, string)>, playerId: string, msg: Message)
    ensures |Unicast(ps, playerId, msg)| <= 1
    ensures (forall i :: 0 <= i < |ps| ==> ps[i].0 != playerId) ==> Unicast(ps, playerId, msg) == []
    ensures KeysDistinct(ps) ==> forall i :: 0 <= i < |ps| && ps[i].0 == playerId ==>
      Unicast(ps, playerId, msg) == if ps[i].1 != "" then [ToSocket(ps[i].1, msg)] else []
  {
    SocketOfFound(ps, playerId);
  }

  // ---------------------------------------------------------------- the WAIT_ALL cohort

  /** `game.players.filter(p => state && state.currentQuestionIndex === questionIndex)`, as ids. */
  function Cohort(players: seq<Player>, playerStates: map<string, PlayerGameState>, questionIndex: int): (c: seq<string>)
    ensures |c| <= |players|
    ensures forall id :: id in c <==>
      (InRoster(players, id) && id in playerStates && playerStates[id].currentQuestionIndex == questionIndex)
  {
    if players == [] then []
    else
      var rest := Cohort(players[1..], playerStates, questionIndex);
      assert forall k :: 1 <= k < |players| ==> players[k] == players[1..][k - 1];
      assert forall id :: InRoster(players, id) <==> players[0].id == id || InRoster(players[1..], id) by {
        forall id | InRoster(players, id) && players[0].id != id
          ensures InRoster(players[1..], id)
        {
          var k :| 0 <= k < |players| && players[k].id == id;
          assert players[1..][k - 1].id == id;
        }
        forall id | InRoster(players[1..], id)
          ensures InRoster(players, id)
        {
          var k :| 0 <= k < |players[1..]| && players[1..][k].id == id;
          assert players[k + 1].id == id;
        }
      }
      var id := players[0].id;
      if id in playerStates && playerStates[id].currentQuestionIndex == questionIndex then [id] + rest else rest
  }

  /** `playersInThisQuestion.every(p => state && state.hasAnsweredCurrent)`. */
  predicate CohortComplete(cohort: seq<string>, playerStates: map<string, PlayerGameState>) {
    forall k :: 0 <= k < |cohort| ==> cohort[k] in playerStates && playerStates[cohort[k]].hasAnsweredCurrent
  }

  /** The feedback a member receives: its last answer and the question's correct option. */
  function Feedback(last: PlayerAnswer, question: Question): Message {
    FeedbackMsg(last.isCorrect, last.pointsEarned, CorrectOptionId(question.options), last.optionId)
  }

  /** The player has a socket id, and it is not empty. */
  predicate Reachable(ps: seq<(string, string)>, playerId: string) {
    SocketOf(ps, playerId).Some? && SocketOf(ps, playerId).value != ""
  }

  /** A cohort member gets feedback: it has an answer on record and a reachable socket. */
  predicate HasFeedback(ps: seq<(string, string)>, id: string, playerStates: map<string, PlayerGameState>) {
    id in playerStates && playerStates[id].answers != [] && Reachable(ps, id)
  }

  /** The feedback sent to such a member: its last answer, to its socket. */
  function FeedbackEvent(ps: seq<(string, string)>, id: string, playerStates: map<string, PlayerGameState>,
                         question: Question): Event
    requires HasFeedback(ps, id, playerStates)
  {
    var answers := playerStates[id].answers;
    ToSocket(SocketOf(ps, id).value, Feedback(answers[|answers| - 1], question))
  }

  /** The feedback unicast for one cohort member with an answer on record. A member without an
      answer gets nothing here; the source would throw reading its last answer, but a complete
      cohort has none such, since every member has answered and Game.AnsweredHaveAnswers holds. */
  function FeedbackFor(ps: seq<(string, string)>, id: string, playerStates: map<string, PlayerGameState>,
                       question: Question): (es: seq<Event>)
    ensures HasFeedback(ps, id, playerStates) ==> es == [FeedbackEvent(ps, id, playerStates, question)]
    ensures !HasFeedback(ps, id, playerStates) ==> es == []
  {
    if id in playerStates && playerStates[id].answers != [] then
      var answers := playerStates[id].answers;
      Unicast(ps, id, Feedback(answers[|answers| - 1], question))
    else []
  }

  /** The feedback unicasts for a cohort, in roster order. */
  function FeedbackEvents(ps: seq<(string, string)>, cohort: seq<string>, playerStates: map<string, PlayerGameState>,
                          question: Question): (es: seq<Event>)
    ensures |es| <= |cohort|
  {
    if cohort == [] then []
    else FeedbackEvents(ps, cohort[..|cohort| - 1], playerStates, question)
         + FeedbackFor(ps, cohort[|cohort| - 1], playerStates, question)
  }

  /** How many cohort members get feedback. */
  function FeedbackRecipients(ps: seq<(string, string)>, cohort: seq<string>, playerStates: map<string, PlayerGameState>): nat {
    if cohort == [] then 0
    else FeedbackRecipients(ps, cohort[..|cohort| - 1], playerStates)
         + (if HasFeedback(ps, cohort[|cohort| - 1], playerStates) then 1 else 0)
  }

  /** The feedback unicasts are exactly one per member with an answer and a reachable socket,
      in cohort order: member k's comes after those of the members before it that get one. */
  lemma {:induction false} FeedbackEventsMeaning(ps: seq<(string, string)>, cohort: seq<string>,
                                                 playerStates: map<string, PlayerGameState>, question: Question)
    ensures var es := FeedbackEvents(ps, cohort, playerStates, question);
      && |es| == FeedbackRecipients(ps, cohort, playerStates)
      && (forall k :: 0 <= k < |cohort| && HasFeedback(ps, cohort[k], playerStates) ==>
            FeedbackRecipients(ps, cohort[..k], playerStates) < |es|
            && es[FeedbackRecipients(ps, cohort[..k], playerStates)] == FeedbackEvent(ps, cohort[k], playerStates, question))
      && (forall e :: e in es <==>
            exists k :: 0 <= k < |cohort| && HasFeedback(ps, cohort[k], playerStates)
                        && e == FeedbackEvent(ps, cohort[k], playerStates, question))
  {
    FeedbackEventsCount(ps, cohort, playerStates, question);
    FeedbackEventsPlaced(ps, cohort, playerStates, question);
    FeedbackEventsCovered(ps, cohort, playerStates, question);
  }

  lemma {:induction false} FeedbackEventsCount(ps: seq<(string, string)>, cohort: seq<string>,
                                               playerStates: map<string, PlayerGameState>, question: Question)
    ensures |FeedbackEvents(ps, cohort, playerStates, question)| == FeedbackRecipients(ps, cohort, playerStates)
  {
    if cohort != [] {
      FeedbackEventsCount(ps, cohort[..|cohort| - 1], playerStates, question);
    }
  }

  lemma {:induction false} FeedbackEventsPlaced(ps: seq<(string, string)>, cohort: seq<string>,
                                                playerStates: map<string, PlayerGameState>, question: Question)
    ensures var es := FeedbackEvents(ps, cohort, playerStates, question);
      forall k :: 0 <= k < |cohort| && HasFeedback(ps, cohort[k], playerStates) ==>
        FeedbackRecipients(ps, cohort[..k], playerStates) < |es|
        && es[FeedbackRecipients(ps, cohort[..k], playerStates)] == FeedbackEvent(ps, cohort[k], playerStates, question)
  {
    if cohort != [] {
      var n := |cohort|;
      var prefix := cohort[..n - 1];
      var es := FeedbackEvents(ps, cohort, playerStates, question);
      var before := FeedbackEvents(ps, prefix, playerStates, question);
      assert es == before + FeedbackFor(ps, cohort[n - 1], playerStates, question);
      FeedbackEventsPlaced(ps, prefix, playerStates, question);
      FeedbackEventsCount(ps, prefix, playerStates, question);
      forall k | 0 <= k < n && HasFeedback(ps, cohort[k], playerStates)
        ensures FeedbackRecipients(ps, cohort[..k], playerStates) < |es|
                && es[FeedbackRecipients(ps, cohort[..k], playerStates)] == FeedbackEvent(ps, cohort[k], playerStates, question)
      {
        if k < n - 1 {
          assert cohort[..k] == prefix[..k] && cohort[k] == prefix[k];
        } else {
          assert cohort[..k] == prefix;
        }
      }
    }
  }

  lemma {:induction false} FeedbackEventsCovered(ps: seq<(string, string)>, cohort: seq<string>,
                                                 playerStates: map<string, PlayerGameState>, question: Question)
    ensures forall e :: e in FeedbackEvents(ps, cohort, playerStates, question) <==>
      exists k :: 0 <= k < |cohort| && HasFeedback(ps, cohort[k], playerStates)
                  && e == FeedbackEvent(ps, cohort[k], playerStates, question)
  {
    if cohort != [] {
      var n := |cohort|;
      var prefix := cohort[..n - 1];
      var es := FeedbackEvents(ps, cohort, playerStates, question);
      var before := FeedbackEvents(ps, prefix, playerStates, question);
      assert es == before + FeedbackFor(ps, cohort[n - 1], playerStates, question);
      FeedbackEventsCovered(ps, prefix, playerStates, question);
      forall e | e in es
        ensures exists k :: 0 <= k < n && HasFeedback(ps, cohort[k], playerStates)
                            && e == FeedbackEvent(ps, cohort[k], playerStates, question)
      {
        if e !in before {
          assert HasFeedback(ps, cohort[n - 1], playerStates);
        } else {
          var k :| 0 <= k < |prefix| && HasFeedback(ps, prefix[k], playerStates)
                   && e == FeedbackEvent(ps, prefix[k], playerStates, question);
          assert cohort[k] == prefix[k];
        }
      }
      forall k | 0 <= k < n && HasFeedback(ps, cohort[k], playerStates)
        ensures FeedbackEvent(ps, cohort[k], playerStates, question) in es
      {
        if k < n - 1 {
          assert cohort[k] == prefix[k];
          assert FeedbackEvent(ps, prefix[k], playerStates, question) in before;
        }
      }
    }
  }

  lemma FeedbackEventsStep(ps: seq<(string, string)>, cohort: seq<string>, k: nat,
                           playerStates: map<string, PlayerGameState>, question: Question)
    requires k < |cohort|
    ensures FeedbackEvents(ps, cohort[..k + 1], playerStates, question)
            == FeedbackEvents(ps, cohort[..k], playerStates, question) + FeedbackFor(ps, cohort[k], playerStates, question)
  {
    assert cohort[..k + 1][..k] == cohort[..k];
  }

  /** `ranking.find(e => e.player.id === id)?.rank || 0`. */
  function RankOf(ranking: seq<RankingEntry>, playerId: string): (rank: int)
    ensures (forall i :: 0 <= i < |ranking| ==> ranking[i].player.id != playerId) ==> rank == 0
    ensures forall i :: 0 <= i < |ranking| && ranking[i].player.id == playerId
                        && (forall j :: 0 <= j < i ==> ranking[j].player.id != playerId) ==>
      rank == (if ranking[i].rank != 0 then ranking[i].rank else 0)
  {
    if ranking == [] then 0
    else if ranking[0].player.id == playerId then ranking[0].rank
    else
      assert forall i :: 1 <= i < |ranking| ==> ranking[i] == ranking[1..][i - 1];
      RankOf(ranking[1..], playerId)
  }

  /** The ranking screen a player receives. */
  function RankingFor(ranking: seq<RankingEntry>, playerId: string): Message {
    RankingMsg(ranking, RankOf(ranking, playerId), Take(ranking, 5))
  }

  /** The ranking unicast to a reachable player. */
  function RankingEvent(ps: seq<(string, string)>, playerId: string, ranking: seq<RankingEntry>): Event
    requires Reachable(ps, playerId)
  {
    ToSocket(SocketOf(ps, playerId).value, RankingFor(ranking, playerId))
  }

  /** The ranking unicast emitToPlayer sends one player. */
  function RankingTo(ps: seq<(string, string)>, playerId: string, ranking: seq<RankingEntry>): (es: seq<Event>)
    ensures Reachable(ps, playerId) ==> es == [RankingEvent(ps, playerId, ranking)]
    ensures !Reachable(ps, playerId) ==> es == []
  {
    Unicast(ps, playerId, RankingFor(ranking, playerId))
  }

  /** How many of the players have a reachable socket. */
  function RankingRecipients(ps: seq<(string, string)>, ids: seq<string>): nat {
    if ids == [] then 0
    else RankingRecipients(ps, ids[..|ids| - 1]) + (if Reachable(ps, ids[|ids| - 1]) then 1 else 0)
  }

  /** The ranking unicasts are exactly one per reachable player, in order, each carrying the
      ranking, that player's rank and the top five. */
  lemma {:induction false} RankingEventsMeaning(ps: seq<(string, string)>, ids: seq<string>, ranking: seq<RankingEntry>)
    ensures var es := RankingEvents(ps, ids, ranking);
      && |es| == RankingRecipients(ps, ids)
      && (forall k :: 0 <= k < |ids| && Reachable(ps, ids[k]) ==>
            RankingRecipients(ps, ids[..k]) < |es| && es[RankingRecipients(ps, ids[..k])] == RankingEvent(ps, ids[k], ranking))
      && (forall e :: e in es <==>
            exists k :: 0 <= k < |ids| && Reachable(ps, ids[k]) && e == RankingEvent(ps, ids[k], ranking))
  {
    RankingEventsCount(ps, ids, ranking);
    RankingEventsPlaced(ps, ids, ranking);
    RankingEventsCovered(ps, ids, ranking);
  }

  lemma {:induction false} RankingEventsCount(ps: seq<(string, string)>, ids: seq<string>, ranking: seq<RankingEntry>)
    ensures |RankingEvents(ps, ids, ranking)| == RankingRecipients(ps, ids)
  {
    if ids != [] {
      RankingEventsCount(ps, ids[..|ids| - 1], ranking);
    }
  }

  lemma {:induction false} RankingEventsPlaced(ps: seq<(string, string)>, ids: seq<string>, ranking: seq<RankingEntry>)
    ensures var es := RankingEvents(ps, ids, ranking);
      forall k :: 0 <= k < |ids| && Reachable(ps, ids[k]) ==>
        RankingRecipients(ps, ids[..k]) < |es| && es[RankingRecipients(ps, ids[..k])] == RankingEvent(ps, ids[k], ranking)
  {
    if ids != [] {
      var n := |ids|;
      var prefix := ids[..n - 1];
      var es := RankingEvents(ps, ids, ranking);
      var before := RankingEvents(ps, prefix, ranking);
      assert es == before + RankingTo(ps, ids[n - 1], ranking);
      RankingEventsPlaced(ps, prefix, ranking);
      RankingEventsCount(ps, prefix, ranking);
      forall k | 0 <= k < n && Reachable(ps, ids[k])
        ensures RankingRecipients(ps, ids[..k]) < |es| && es[RankingRecipients(ps, ids[..k])] == RankingEvent(ps, ids[k], ranking)
      {
        if k < n - 1 {
          assert ids[..k] == prefix[..k] && ids[k] == prefix[k];
        } else {
          assert ids[..k] == prefix;
        }
      }
    }
  }

  lemma {:induction false} RankingEventsCovered(ps: seq<(string, string)>, ids: seq<string>, ranking: seq<RankingEntry>)
    ensures forall e :: e in RankingEvents(ps, ids, ranking) <==>
      exists k :: 0 <= k < |ids| && Reachable(ps, ids[k]) && e == RankingEvent(ps, ids[k], ranking)
  {
    if ids != [] {
      var n := |ids|;
      var prefix := ids[..n - 1];
      var es := RankingEvents(ps, ids, ranking);
      var before := RankingEvents(ps, prefix, ranking);
      assert es == before + RankingTo(ps, ids[n - 1], ranking);
      RankingEventsCovered(ps, prefix, ranking);
      forall e | e in es
        ensures exists k :: 0 <= k < n && Reachable(ps, ids[k]) && e == RankingEvent(ps, ids[k], ranking)
      {
        if e !in before {
          assert Reachable(ps, ids[n - 1]);
        } else {
          var k :| 0 <= k < |prefix| && Reachable(ps, prefix[k]) && e == RankingEvent(ps, prefix[k], ranking);
          assert ids[k] == prefix[k];
        }
      }
      forall k | 0 <= k < n && Reachable(ps, ids[k])
        ensures RankingEvent(ps, ids[k], ranking) in es
      {
        if k < n - 1 {
          assert ids[k] == prefix[k];
          assert RankingEvent(ps, prefix[k], ranking) in before;
        }
      }
    }
  }

  /** The ranking unicasts for the given players, in order. */
  function RankingEvents(ps: seq<(string, string)>, ids: seq<string>, ranking: seq<RankingEntry>): (es: seq<Event>)
    ensures |es| <= |ids|
  {
    if ids == [] then []
    else RankingEvents(ps, ids[..|ids| - 1], ranking) + RankingTo(ps, ids[|ids| - 1], ranking)
  }

  lemma RankingEventsStep(ps: seq<(string, string)>, ids: seq<string>, k: nat, ranking: seq<RankingEntry>)
    requires k < |ids|
    ensures RankingEvents(ps, ids[..k + 1], ranking) == RankingEvents(ps, ids[..k], ranking) + RankingTo(ps, ids[k], ranking)
  {
    assert ids[..k + 1][..k] == ids[..k];
  }

  /** Two player-state maps agree on one id. */
  predicate SameEntry(m: map<string, PlayerGameState>, m': map<string, PlayerGameState>, id: string) {
    (id in m <==> id in m') && (id in m ==> m[id] == m'[id])
  }

  /** Every id occurs at most once. */
  predicate DistinctSeq(ids: seq<string>) {
    forall i, j :: 0 <= i < j < |ids| ==> ids[i] != ids[j]
  }

  /** A cohort drawn from a roster with distinct ids has distinct members. */
  lemma {:induction false} CohortDistinct(players: seq<Player>, playerStates: map<string, PlayerGameState>, questionIndex: int)
    requires DistinctIds(players)
    ensures DistinctSeq(Cohort(players, playerStates, questionIndex))
  {
    if players != [] {
      var tail := players[1..];
      assert forall k :: 1 <= k < |players| ==> players[k] == tail[k - 1];
      CohortDistinct(tail, playerStates, questionIndex);
      var id := players[0].id;
      assert !InRoster(tail, id);
    }
  }

  // ---------------------------------------------------------------- final screen and question start

  /** `ranking.find(entry => entry.player.id === playerId)`, as the index of the first match. */
  function FindEntry(ranking: seq<RankingEntry>, playerId: string): (r: Option<nat>)
    ensures r.Some? ==> r.value < |ranking| && ranking[r.value].player.id == playerId
                        && forall k :: 0 <= k < r.value ==> ranking[k].player.id != playerId
    ensures r.None? <==> forall k :: 0 <= k < |ranking| ==> ranking[k].player.id != playerId
  {
    if ranking == [] then None
    else if ranking[0].player.id == playerId then Some(0)
    else match FindEntry(ranking[1..], playerId)
      case None => None
      case Some(k) => Some(k + 1)
  }

  /** A player has an entry in the ranking exactly when the player is on the roster. */
  lemma RankedIffRostered(players: seq<Player>, playerId: string)
    ensures FindEntry(Ranking(players), playerId).Some? <==> InRoster(players, playerId)
  {
    var r := Ranking(players);
    if FindEntry(r, playerId).Some? {
      var e := FindEntry(r, playerId).value;
      assert Entrants(r)[e] in multiset(Entrants(r));
      assert r[e].player in multiset(players);
      var k :| 0 <= k < |players| && players[k] == r[e].player;
    }
    if InRoster(players, playerId) {
      var k :| 0 <= k < |players| && players[k].id == playerId;
      assert players[k] in multiset(Entrants(r));
      var e :| 0 <= e < |r| && Entrants(r)[e] == players[k];
    }
  }

  /** In getRanking's list, a roster player's rank is its 1-based place, at its first entry;
      a player off the roster gets rank 0. */
  lemma RankOfRanking(players: seq<Player>, playerId: string)
    ensures !InRoster(players, playerId) ==> RankOf(Ranking(players), playerId) == 0
    ensures InRoster(players, playerId) ==>
      var r := Ranking(players);
      var k := RankOf(r, playerId);
      && 1 <= k <= |players| && r[k - 1].player.id == playerId
      && forall j :: 0 <= j < k - 1 ==> r[j].player.id != playerId
  {
    RankedIffRostered(players, playerId);
    var r := Ranking(players);
    if InRoster(players, playerId) {
      var e := FindEntry(r, playerId).value;
      assert r[e].rank == e + 1;
    }
  }

  /** The final screen showPlayerFinalScreen unicasts, when both the ranking entry and the
      roster player are found. */
  function FinalScreen(players: seq<Player>, questions: seq<Question>, results: map<int, QuestionResults>,
                       playerId: string): Option<Message>
  {
    var ranking := Ranking(players);
    match (FindEntry(ranking, playerId), FindPlayer(players, playerId))
    case (Some(e), Some(p)) =>
      Some(PlayerFinishedMsg(ranking, ranking[e].rank, players[p].score, Take(ranking, 3), QuestionHistory(questions, results)))
    case _ => None
  }

  /** The final screen exists exactly for roster players, and then carries the final ranking, the
      player's place in it and score, the podium and the question history. */
  lemma FinalScreenShows(players: seq<Player>, questions: seq<Question>, results: map<int, QuestionResults>, playerId: string)
    ensures var m := FinalScreen(players, questions, results, playerId);
      && (m.Some? <==> InRoster(players, playerId))
      && (m.Some? ==>
            && m.value.PlayerFinishedMsg?
            && m.value.finalRanking == Ranking(players)
            && 1 <= m.value.playerRank <= |players|
            && m.value.finalRanking[m.value.playerRank - 1].player.id == playerId
            && m.value.podium == Take(Ranking(players), 3)
            && m.value.questionHistory == QuestionHistory(questions, results)
            && exists k :: 0 <= k < |players| && players[k].id == playerId && m.value.playerScore == players[k].score)
  {
    RankedIffRostered(players, playerId);
  }

  /** The question-start unicast startQuestionForPlayer sends once the player's state has moved:
      only while the index names a question and the player is on the roster. */
  function QuestionStartFor(ps: seq<(string, string)>, players: seq<Player>, playerId: string,
                            playerStates: map<string, PlayerGameState>, questions: seq<Question>): (es: seq<Event>)
  {
    if playerId in playerStates && 0 <= playerStates[playerId].currentQuestionIndex < |questions|
       && InRoster(players, playerId) then
      var st := playerStates[playerId];
      Unicast(ps, playerId, QuestionStartMsg(questions[st.currentQuestionIndex], st.currentQuestionIndex + 1,
                                             |questions|, st.questionStartTime, st))
    else []
  }

  /** QuestionStartFor looks only at the player's own state. */
  lemma QuestionStartForStable(ps: seq<(string, string)>, players: seq<Player>, playerId: string,
                               states: map<string, PlayerGameState>, states': map<string, PlayerGameState>, questions: seq<Question>)
    requires SameEntry(states, states', playerId)
    ensures QuestionStartFor(ps, players, playerId, states, questions) == QuestionStartFor(ps, players, playerId, states', questions)
  {
  }

  /** A question-start unicast goes to the player's socket and carries the question its state
      names, its 1-based number, the quiz length, the start time and the state itself. */
  lemma QuestionStartForSent(ps: seq<(string, string)>, players: seq<Player>, playerId: string,
                             playerStates: map<string, PlayerGameState>, questions: seq<Question>)
    ensures |QuestionStartFor(ps, players, playerId, playerStates, questions)| <= 1
    ensures QuestionStartFor(ps, players, playerId, playerStates, questions) != [] ==>
      && playerId in playerStates && InRoster(players, playerId)
      && var st := playerStates[playerId];
         && 0 <= st.currentQuestionIndex < |questions|
         && SocketOf(ps, playerId).Some?
         && QuestionStartFor(ps, players, playerId, playerStates, questions)
            == [ToSocket(SocketOf(ps, playerId).value,
                         QuestionStartMsg(questions[st.currentQuestionIndex], st.currentQuestionIndex + 1,
                                          |questions|, st.questionStartTime, st))]
  {
  }

  /** The question-start unicasts for the first `n` roster players, in roster order. */
  function QuestionStartEvents(ps: seq<(string, string)>, players: seq<Player>, n: nat,
                               playerStates: map<string, PlayerGameState>, questions: seq<Question>): seq<Event>
    requires n <= |players|
  {
    if n == 0 then []
    else QuestionStartEvents(ps, players, n - 1, playerStates, questions)
         + QuestionStartFor(ps, players, players[n - 1].id, playerStates, questions)
  }

  /** Every roster player with a state has moved to its next question. */
  ghost predicate AllStarted(before: map<string, PlayerGameState>, after: map<string, PlayerGameState>,
                             upto: seq<Player>, questionCount: int, now: int)
  {
    && (forall id :: id in after <==> id in before)
    && (forall id :: id in before ==>
          after[id] == if InRoster(upto, id) then QuestionStarted(before[id], questionCount, now) else before[id])
  }

  /** One more roster player started: the started set grows by that player. */
  lemma AllStartedStep(before: map<string, PlayerGameState>, mid: map<string, PlayerGameState>, upto: seq<Player>,
                       k: nat, questionCount: int, now: int)
    requires k < |upto| && AllStarted(before, mid, upto[..k], questionCount, now)
    requires forall j :: 0 <= j < k ==> upto[j].id != upto[k].id
    ensures var id := upto[k].id;
      AllStarted(before, if id in mid then mid[id := QuestionStarted(mid[id], questionCount, now)] else mid,
                 upto[..k + 1], questionCount, now)
  {
    var id := upto[k].id;
    var after := if id in mid then mid[id := QuestionStarted(mid[id], questionCount, now)] else mid;
    assert !InRoster(upto[..k], id);
    forall x | x in before
      ensures after[x] == if InRoster(upto[..k + 1], x) then QuestionStarted(before[x], questionCount, now) else before[x]
    {
      if x == id {
        assert upto[..k + 1][k].id == x;
      } else {
        if InRoster(upto[..k + 1], x) {
          var j :| 0 <= j < k + 1 && upto[..k + 1][j].id == x;
          assert upto[..k][j].id == x;
        }
        if InRoster(upto[..k], x) {
          var j :| 0 <= j < k && upto[..k][j].id == x;
          assert upto[..k + 1][j].id == x;
        }
      }
    }
  }

  /** The player states after the first `n` roster players were each started once, in order. */
  function StartedStates(before: map<string, PlayerGameState>, players: seq<Player>, n: nat,
                         questionCount: int, now: int): map<string, PlayerGameState>
    requires n <= |players|
  {
    if n == 0 then before
    else
      var m := StartedStates(before, players, n - 1, questionCount, now);
      var id := players[n - 1].id;
      if id in m then m[id := QuestionStarted(m[id], questionCount, now)] else m
  }

  /** With distinct roster ids, starting the players one by one moves each roster player with a
      state exactly once and leaves every other state alone. */
  lemma {:induction false} StartedStatesMeaning(before: map<string, PlayerGameState>, players: seq<Player>, n: nat,
                                                questionCount: int, now: int)
    requires n <= |players| && DistinctIds(players)
    ensures AllStarted(before, StartedStates(before, players, n, questionCount, now), players[..n], questionCount, now)
  {
    if n == 0 {
      assert forall id :: !InRoster(players[..0], id);
    } else {
      StartedStatesMeaning(before, players, n - 1, questionCount, now);
      AllStartedStep(before, StartedStates(before, players, n - 1, questionCount, now), players, n - 1, questionCount, now);
    }
  }

  /** The question-start unicasts of the first `n` roster players, each taken right after its
      own start. */
  function StartEvents(ps: seq<(string, string)>, players: seq<Player>, before: map<string, PlayerGameState>, n: nat,
                       questions: seq<Question>, now: int): seq<Event>
    requires n <= |players|
  {
    if n == 0 then []
    else StartEvents(ps, players, before, n - 1, questions, now)
         + QuestionStartFor(ps, players, players[n - 1].id, StartedStates(before, players, n, |questions|, now), questions)
  }

  /** Later starts leave an earlier player's state alone. */
  lemma {:induction false} StartedStatesLater(before: map<string, PlayerGameState>, players: seq<Player>, n: nat, m: nat,
                                              questionCount: int, now: int)
    requires 0 < n <= m <= |players| && DistinctIds(players)
    ensures SameEntry(StartedStates(before, players, n, questionCount, now),
                      StartedStates(before, players, m, questionCount, now), players[n - 1].id)
  {
    if m > n {
      StartedStatesLater(before, players, n, m - 1, questionCount, now);
      assert players[m - 1].id != players[n - 1].id;
    }
  }

  /** Taken one by one or read off the final states, the question-start unicasts agree. */
  lemma {:induction false} StartEventsMeaning(ps: seq<(string, string)>, players: seq<Player>, before: map<string, PlayerGameState>,
                                              n: nat, m: nat, questions: seq<Question>, now: int)
    requires n <= m <= |players| && DistinctIds(players)
    ensures StartEvents(ps, players, before, n, questions, now)
            == QuestionStartEvents(ps, players, n, StartedStates(before, players, m, |questions|, now), questions)
  {
    if n > 0 {
      StartEventsMeaning(ps, players, before, n - 1, m, questions, now);
      StartedStatesLater(before, players, n, m, |questions|, now);
      QuestionStartForStable(ps, players, players[n - 1].id, StartedStates(before, players, n, |questions|, now),
                             StartedStates(before, players, m, |questions|, now), questions);
    }
  }

  /** A WAIT_ALL member after the advance: on to the next question while one follows, finished
      otherwise. */
  function Advanced(st: PlayerGameState, questionCount: int, now: int): (st': PlayerGameState)
    ensures st.currentQuestionIndex + 1 < questionCount ==>
      st'.currentQuestionIndex == st.currentQuestionIndex + 1 && st'.phase == Answering && st'.questionStartTime == Some(now)
    ensures st.currentQuestionIndex + 1 >= questionCount ==>
      st'.currentQuestionIndex == st.currentQuestionIndex && st'.phase == PlayerFinished
    ensures st'.playerId == st.playerId && st'.answers == st.answers
  {
    if st.currentQuestionIndex + 1 < questionCount then QuestionStarted(st, questionCount, now)
    else st.(phase := PlayerFinished)
  }

  /** The GAME_FINISHED broadcast: the final ranking, its podium and the question history. */
  function Finale(code: string, players: seq<Player>, questions: seq<Question>, results: map<int, QuestionResults>): Event {
    ToRoom(code, GameFinishedMsg(Ranking(players), Take(Ranking(players), 3), QuestionHistory(questions, results)))
  }

  /** What one advancing player is sent: its next question while one follows (`before` is its
      state at the advance, `after` once started), its final screen otherwise. */
  function AdvanceFor(ps: seq<(string, string)>, players: seq<Player>, questions: seq<Question>, results: map<int, QuestionResults>,
                      playerId: string, before: map<string, PlayerGameState>, after: map<string, PlayerGameState>): seq<Event>
  {
    if playerId in before && before[playerId].currentQuestionIndex + 1 < |questions| then
      QuestionStartFor(ps, players, playerId, after, questions)
    else match FinalScreen(players, questions, results, playerId)
      case Some(m) => Unicast(ps, playerId, m)
      case None => []
  }

  /** One member's advance applied to a state map. */
  function AdvanceEntry(m: map<string, PlayerGameState>, id: string, questionCount: int, now: int): map<string, PlayerGameState> {
    if id in m then m[id := Advanced(m[id], questionCount, now)] else m
  }

  /** The player states after the first `n` cohort members were each advanced once, in order. */
  function AdvancedStates(before: map<string, PlayerGameState>, cohort: seq<string>, n: nat,
                          questionCount: int, now: int): map<string, PlayerGameState>
    requires n <= |cohort|
  {
    if n == 0 then before
    else AdvanceEntry(AdvancedStates(before, cohort, n - 1, questionCount, now), cohort[n - 1], questionCount, now)
  }

  /** A state no earlier member touched is still the original one. */
  lemma {:induction false} AdvancedStatesUntouched(before: map<string, PlayerGameState>, cohort: seq<string>, n: nat,
                                                   questionCount: int, now: int, id: string)
    requires n <= |cohort| && id !in cohort[..n]
    ensures SameEntry(AdvancedStates(before, cohort, n, questionCount, now), before, id)
  {
    if n > 0 {
      assert cohort[..n - 1] == cohort[..n][..n - 1];
      AdvancedStatesUntouched(before, cohort, n - 1, questionCount, now, id);
    }
  }

  /** Advancing never adds or removes a state. */
  lemma {:induction false} AdvancedStatesKeys(before: map<string, PlayerGameState>, cohort: seq<string>, n: nat,
                                              questionCount: int, now: int, id: string)
    requires n <= |cohort|
    ensures id in AdvancedStates(before, cohort, n, questionCount, now) <==> id in before
  {
    if n > 0 {
      AdvancedStatesKeys(before, cohort, n - 1, questionCount, now, id);
    }
  }

  /** Every cohort member with a state has advanced once; every other state is as it was. */
  ghost predicate AllAdvanced(before: map<string, PlayerGameState>, after: map<string, PlayerGameState>,
                              cohort: seq<string>, questionCount: int, now: int)
  {
    && (forall id :: id in after <==> id in before)
    && (forall id :: id in before ==>
          after[id] == if id in cohort then Advanced(before[id], questionCount, now) else before[id])
  }

  /** With distinct members, advancing the cohort one by one advances each member exactly once. */
  lemma {:induction false} AdvancedStatesMeaning(before: map<string, PlayerGameState>, cohort: seq<string>, n: nat,
                                                 questionCount: int, now: int)
    requires n <= |cohort| && DistinctSeq(cohort)
    ensures AllAdvanced(before, AdvancedStates(before, cohort, n, questionCount, now), cohort[..n], questionCount, now)
  {
    if n > 0 {
      AdvancedStatesMeaning(before, cohort, n - 1, questionCount, now);
      assert cohort[..n] == cohort[..n - 1] + [cohort[n - 1]];
      assert cohort[n - 1] !in cohort[..n - 1];
    }
  }

  /** The position of the first cohort member without a state, or the cohort's length. */
  function FirstMissing(cohort: seq<string>, playerStates: map<string, PlayerGameState>): (k: nat)
    ensures k <= |cohort|
    ensures forall j :: 0 <= j < k ==> cohort[j] in playerStates
    ensures k < |cohort| ==> cohort[k] !in playerStates
  {
    if cohort == [] then 0
    else if cohort[0] !in playerStates then 0
    else
      assert forall j :: 1 <= j < |cohort| ==> cohort[j] == cohort[1..][j - 1];
      1 + FirstMissing(cohort[1..], playerStates)
  }

  /** The advance unicasts of the first `n` cohort members, each read against the states before
      the advance and that member's own step. */
  function CohortAdvanceEvents(ps: seq<(string, string)>, players: seq<Player>, questions: seq<Question>, results: map<int, QuestionResults>,
                               before: map<string, PlayerGameState>, cohort: seq<string>, n: nat, now: int): seq<Event>
    requires n <= |cohort|
  {
    if n == 0 then []
    else CohortAdvanceEvents(ps, players, questions, results, before, cohort, n - 1, now)
         + AdvanceFor(ps, players, questions, results, cohort[n - 1], before, AdvanceEntry(before, cohort[n - 1], |questions|, now))
  }

  /** The feedback an accepted answer sets off, read in the game as the answer left it: in FAST
      mode the answering player's own, in WAIT_ALL mode the whole cohort's once every member of
      it has answered, and nothing while some member has not. */
  function AcceptedFeedback(ps: seq<(string, string)>, mode: GameMode, players: seq<Player>,
                            playerStates: map<string, PlayerGameState>, questions: seq<Question>, playerId: string): seq<Event>
    requires playerId in playerStates && playerStates[playerId].answers != []
    requires 0 <= playerStates[playerId].currentQuestionIndex < |questions|
  {
    var st := playerStates[playerId];
    var question := questions[st.currentQuestionIndex];
    var cohort := Cohort(players, playerStates, st.currentQuestionIndex);
    if mode == Fast then Unicast(ps, playerId, Feedback(st.answers[|st.answers| - 1], question))
    else if CohortComplete(cohort, playerStates) then FeedbackEvents(ps, cohort, playerStates, question)
    else []
  }

  /** The timer a phase schedules when it runs to completion. */
  function FollowUp(t: Timer): seq<Timer> {
    match t
      case FastRanking(code, playerId) => [FastAdvance(code, playerId)]
      case WaitAllRanking(code, cohort) => [WaitAllAdvance(code, cohort)]
      case _ => []
  }

  /** A WAIT_ALL timer's cohort lists each member once. */
  predicate TimerWellFormed(t: Timer) {
    (t.WaitAllRanking? || t.WaitAllAdvance?) ==> DistinctSeq(t.cohort)
  }

  /** The handler's own state: the playerSockets map, the emitted events and the timers not yet run. */
  class GameSocketHandler {
    const service: GameService
    var playerSockets: seq<(string, string)>
    var events: seq<Event>
    var pending: seq<Timer>

    ghost predicate Valid()
      reads this, service, service.activeGames.Values
    {
      service.Valid() && KeysDistinct(playerSockets) && forall k :: 0 <= k < |pending| ==> TimerWellFormed(pending[k])
    }

    constructor(service: GameService)
      requires service.Valid()
      ensures Valid() && this.service == service
      ensures playerSockets == [] && events == [] && pending == []
    {
      this.service := service;
      playerSockets := [];
      events := [];
      pending := [];
    }

    /** emitToPlayer. */
    method EmitToPlayer(playerId: string, msg: Message)
      modifies this
      ensures events == old(events) + Unicast(playerSockets, playerId, msg)
      ensures playerSockets == old(playerSockets) && pending == old(pending)
    {
      events := events + Unicast(playerSockets, playerId, msg);
    }

    /** sendStatsToHost: the room receives the current statistics when the game exists. */
    method SendStatsToHost(code: string)
      modifies this
      ensures service.GetGameStats(code).Some? ==>
        events == old(events) + [ToRoom(code, StatsMsg(service.GetGameStats(code).value))]
      ensures service.GetGameStats(code).None? ==> events == old(events)
      ensures playerSockets == old(playerSockets) && pending == old(pending)
    {
      var stats := service.GetGameStats(code);
      if stats.Some? {
        events := events + [ToRoom(code, StatsMsg(stats.value))];
      }
    }

    /** handleFastModeAdvance's synchronous part: feedback to the answering player and the
        ranking timer; any missing piece stops it silently. */
    method HandleFastModeAdvance(code: string, playerId: string)
      modifies this
      ensures playerSockets == old(playerSockets)
      ensures
        var go := code in service.activeGames && playerId in service.activeGames[code].playerStates
                  && 0 <= service.activeGames[code].playerStates[playerId].currentQuestionIndex < |service.activeGames[code].quiz.questions|
                  && service.activeGames[code].playerStates[playerId].answers != [];
        && (!go ==> events == old(events) && pending == old(pending))
        && (go ==>
              var g := service.activeGames[code];
              var st := g.playerStates[playerId];
              && events == old(events) + Unicast(playerSockets, playerId,
                                                 Feedback(st.answers[|st.answers| - 1], g.quiz.questions[st.currentQuestionIndex]))
              && pending == old(pending) + [FastRanking(code, playerId)])
    {
      if code !in service.activeGames {
        return;
      }
      var game := service.activeGames[code];
      if playerId !in game.playerStates {
        return;
      }
      var st := game.playerStates[playerId];
      if !(0 <= st.currentQuestionIndex < |game.quiz.questions|) {
        return;
      }
      if st.answers == [] {
        return;
      }
      var question := game.quiz.questions[st.currentQuestionIndex];
      EmitToPlayer(playerId, Feedback(st.answers[|st.answers| - 1], question));
      pending := pending + [FastRanking(code, playerId)];
    }

    /** The feedback forEach over a complete cohort. */
    method EmitFeedback(cohort: seq<string>, playerStates: map<string, PlayerGameState>, question: Question)
      requires forall k :: 0 <= k < |cohort| ==> cohort[k] in playerStates && playerStates[cohort[k]].answers != []
      modifies this
      ensures events == old(events) + FeedbackEvents(playerSockets, cohort, playerStates, question)
      ensures playerSockets == old(playerSockets) && pending == old(pending)
    {
      var sent: seq<Event> := [];
      var k := 0;
      while k < |cohort|
        invariant 0 <= k <= |cohort|
        invariant sent == FeedbackEvents(playerSockets, cohort[..k], playerStates, question)
        modifies {}
      {
        var st := playerStates[cohort[k]];
        FeedbackEventsStep(playerSockets, cohort, k, playerStates, question);
        sent := sent + Unicast(playerSockets, cohort[k], Feedback(st.answers[|st.answers| - 1], question));
        k := k + 1;
      }
      assert cohort[..k] == cohort;
      events := events + sent;
    }

    /** handleWaitAllModeAdvance's synchronous part: once every roster player on question
        `questionIndex` has answered, each of them gets feedback and the ranking timer starts;
        otherwise nothing happens. */
    method HandleWaitAllModeAdvance(code: string, questionIndex: int)
      requires Valid()
      modifies this
      ensures Valid()
      ensures playerSockets == old(playerSockets)
      ensures code !in service.activeGames ==> events == old(events) && pending == old(pending)
      ensures code in service.activeGames ==>
        var g := service.activeGames[code];
        var cohort := Cohort(g.players, g.playerStates, questionIndex);
        && (!(CohortComplete(cohort, g.playerStates) && 0 <= questionIndex < |g.quiz.questions|) ==>
              events == old(events) && pending == old(pending))
        && (CohortComplete(cohort, g.playerStates) && 0 <= questionIndex < |g.quiz.questions| ==>
              && events == old(events) + FeedbackEvents(playerSockets, cohort, g.playerStates, g.quiz.questions[questionIndex])
              && pending == old(pending) + [WaitAllRanking(code, cohort)])
    {
      if code !in service.activeGames {
        return;
      }
      var game := service.activeGames[code];
      var cohort := Cohort(game.players, game.playerStates, questionIndex);
      if !CohortComplete(cohort, game.playerStates) {
        return;
      }
      if !(0 <= questionIndex < |game.quiz.questions|) {
        return;
      }
      var question := game.quiz.questions[questionIndex];
      service.GameIsValid(code);
      game.AnsweredHaveAnswers();
      CohortDistinct(game.players, game.playerStates, questionIndex);
      EmitFeedback(cohort, game.playerStates, question);
      pending := pending + [WaitAllRanking(code, cohort)];
    }

    /** What follows an accepted answer: the confirmation to the socket, the statistics to the
        room and the mode's advancement for the question the player just answered. */
    method AfterAcceptedAnswer(socketId: string, code: string, playerId: string, answer: PlayerAnswer)
      requires Valid() && code in service.activeGames && playerId in service.activeGames[code].playerStates
      requires var g := service.activeGames[code]; var st := g.playerStates[playerId];
        0 <= st.currentQuestionIndex < |g.quiz.questions| && st.answers != []
      modifies this
      ensures Valid()
      ensures playerSockets == old(playerSockets)
      ensures
        var g := service.activeGames[code];
        && events == old(events) + [ToSocket(socketId, AnswerSubmittedMsg(answer)),
                                    ToRoom(code, StatsMsg(service.GetGameStats(code).value))]
                                 + AcceptedFeedback(playerSockets, g.mode, g.players, g.playerStates, g.quiz.questions, playerId)
        && (g.mode == Fast ==> pending == old(pending) + [FastRanking(code, playerId)])
        && (g.mode == WaitAll ==>
              var qi := g.playerStates[playerId].currentQuestionIndex;
              var cohort := Cohort(g.players, g.playerStates, qi);
              && (CohortComplete(cohort, g.playerStates) ==> pending == old(pending) + [WaitAllRanking(code, cohort)])
              && (!CohortComplete(cohort, g.playerStates) ==> pending == old(pending)))
    {
      var game := service.activeGames[code];
      events := events + [ToSocket(socketId, AnswerSubmittedMsg(answer))];
      SendStatsToHost(code);
      ghost var before := events;
      assert before == old(events) + [ToSocket(socketId, AnswerSubmittedMsg(answer)), ToRoom(code, StatsMsg(service.GetGameStats(code).value))];
      if game.mode == Fast {
        HandleFastModeAdvance(code, playerId);
      } else {
        HandleWaitAllModeAdvance(code, game.playerStates[playerId].currentQuestionIndex);
      }
      assert events == before + AcceptedFeedback(playerSockets, game.mode, game.players, game.playerStates, game.quiz.questions, playerId);
    }

    /** PLAYER_SUBMIT_ANSWER: a rejected answer only sends the error back to the socket; an accepted
        one is confirmed, pushes statistics to the host and starts the mode's advancement. An
        answer to a question without a correct option updates the player, then the error goes
        back to the socket. */
    method OnSubmitAnswer(socketId: string, code: string, playerId: string, optionId: string, timeElapsed: int, now: int)
      requires Valid()
      modifies this, service.GameFrame(code)
      ensures Valid()
      ensures playerSockets == old(playerSockets)
      ensures code !in service.activeGames ==>
        events == old(events) + [ToSocket(socketId, ErrorMsg(Service(GameNotFound)))] && pending == old(pending)
      ensures code in service.activeGames ==>
        var g := service.activeGames[code];
        var verdict := Adjudicate(g.quiz, old(g.players), old(g.playerStates), playerId, optionId, timeElapsed, now);
        && (verdict.Err? ==>
              && events == old(events) + [ToSocket(socketId, ErrorMsg(Service(verdict.error)))]
              && pending == old(pending)
              && g.players == old(g.players) && g.playerStates == old(g.playerStates) && g.results == old(g.results))
        && (verdict.Ok? ==>
              var a := verdict.value;
              var st := old(g.playerStates)[playerId];
              var recordable := a.index in old(g.results) || CorrectOptionId(g.quiz.questions[a.index].options).Some?;
              && g.players == old(g.players)[a.rosterSlot := a.player]
              && g.playerStates == old(g.playerStates)[playerId := st.(answers := st.answers + [a.answer],
                                                                     hasAnsweredCurrent := true,
                                                                     phase := WaitingResults,
                                                                     lastActivityAt := now)]
              && (!recordable ==>
                    && g.results == old(g.results)
                    && events == old(events) + [ToSocket(socketId, ErrorMsg(Service(NoCorrectOption)))]
                    && pending == old(pending))
              && (recordable ==>
                    && g.results == old(g.results)[a.index := Recorded(if a.index in old(g.results) then Some(old(g.results)[a.index]) else None,
                                                                    g.quiz.questions[a.index], |g.players|, a.answer)]
                    && events == old(events) + [ToSocket(socketId, AnswerSubmittedMsg(a.answer)),
                                                ToRoom(code, StatsMsg(service.GetGameStats(code).value))]
                                             + AcceptedFeedback(playerSockets, g.mode, g.players, g.playerStates, g.quiz.questions, playerId)
                    && (g.mode == Fast ==> pending == old(pending) + [FastRanking(code, playerId)])
                    && (g.mode == WaitAll ==>
                          var cohort := Cohort(g.players, g.playerStates, a.index);
                          && (CohortComplete(cohort, g.playerStates) ==> pending == old(pending) + [WaitAllRanking(code, cohort)])
                          && (!CohortComplete(cohort, g.playerStates) ==> pending == old(pending)))))
        && g.status == old(g.status) && g.currentQuestionIndex == old(g.currentQuestionIndex)
        && g.finishedAt == old(g.finishedAt)
    {
      if code !in service.activeGames {
        events := events + [ToSocket(socketId, ErrorMsg(Service(GameNotFound)))];
        return;
      }
      var game := service.activeGames[code];
      var r := service.SubmitPlayerAnswer(code, playerId, optionId, timeElapsed, now);
      if r.Err? {
        events := events + [ToSocket(socketId, ErrorMsg(Service(r.error)))];
        return;
      }
      AfterAcceptedAnswer(socketId, code, playerId, r.value);
    }

    /** finishGame: the room receives the final ranking, the podium and the question history;
        a missing game is only logged. */
    method FinishGameAndBroadcast(code: string, now: int)
      requires Valid()
      modifies this, service.GameFrame(code)
      ensures Valid()
      ensures service.activeGames == old(service.activeGames)
      ensures playerSockets == old(playerSockets) && pending == old(pending)
      ensures code !in service.activeGames ==> events == old(events)
      ensures code in service.activeGames ==>
        var g := service.activeGames[code];
        && g.status == Finished && g.finishedAt == Some(now)
        && events == old(events) + [Finale(code, g.players, g.quiz.questions, g.results)]
        && g.players == old(g.players) && g.playerStates == old(g.playerStates) && g.results == old(g.results)
        && g.currentQuestionIndex == old(g.currentQuestionIndex)
    {
      var r := service.FinishGame(code, now);
      if r.Ok? {
        events := events + [ToRoom(code, GameFinishedMsg(r.value.finalRanking, r.value.podium, r.value.questionHistory))];
      }
    }

    /** `if (GameService.haveAllPlayersFinished(code)) this.finishGame(code)`. */
    method FinishIfAllFinished(code: string, now: int)
      requires Valid()
      modifies this, service.GameFrame(code)
      ensures Valid()
      ensures service.activeGames == old(service.activeGames)
      ensures playerSockets == old(playerSockets) && pending == old(pending)
      ensures !old(service.HaveAllPlayersFinished(code)) ==> events == old(events)
      ensures code in service.activeGames ==>
        var g := service.activeGames[code];
        && (AllFinished(g.players, g.playerStates) ==>
              && g.status == Finished && g.finishedAt == Some(now)
              && events == old(events) + [Finale(code, g.players, g.quiz.questions, g.results)])
        && (!AllFinished(g.players, g.playerStates) ==> g.status == old(g.status) && g.finishedAt == old(g.finishedAt))
        && g.players == old(g.players) && g.playerStates == old(g.playerStates) && g.results == old(g.results)
        && g.currentQuestionIndex == old(g.currentQuestionIndex)
    {
      if service.HaveAllPlayersFinished(code) {
        FinishGameAndBroadcast(code, now);
      }
    }

    /** showPlayerFinalScreen: the player's own final screen, when the game exists and the
        player is on its roster. */
    method ShowPlayerFinalScreen(code: string, playerId: string)
      modifies this
      ensures playerSockets == old(playerSockets) && pending == old(pending)
      ensures code !in service.activeGames ==> events == old(events)
      ensures code in service.activeGames ==>
        var g := service.activeGames[code];
        var m := FinalScreen(g.players, g.quiz.questions, g.results, playerId);
        events == old(events) + (if m.Some? then Unicast(playerSockets, playerId, m.value) else [])
    {
      if code !in service.activeGames {
        return;
      }
      var game := service.activeGames[code];
      var m := FinalScreen(game.players, game.quiz.questions, game.results, playerId);
      if m.Some? {
        EmitToPlayer(playerId, m.value);
      }
    }

    /** startQuestionForPlayer: the player's state moves on, and the player is sent the question
        its new index names; a missing game or state is only logged. */
    method StartQuestionForPlayer(code: string, playerId: string, now: int)
      requires Valid()
      modifies this, service.GameFrame(code)
      ensures Valid()
      ensures service.activeGames == old(service.activeGames)
      ensures playerSockets == old(playerSockets) && pending == old(pending)
      ensures code !in service.activeGames ==> events == old(events)
      ensures code in service.activeGames ==>
        var g := service.activeGames[code];
        && (playerId in old(g.playerStates) ==>
              g.playerStates == old(g.playerStates)[playerId := QuestionStarted(old(g.playerStates)[playerId], |g.quiz.questions|, now)])
        && (playerId !in old(g.playerStates) ==> g.playerStates == old(g.playerStates))
        && events == old(events) + QuestionStartFor(playerSockets, g.players, playerId, g.playerStates, g.quiz.questions)
        && g.Frozen() == old(g.Frozen())
    {
      if code !in service.activeGames {
        return;
      }
      var game := service.activeGames[code];
      var r := service.StartPlayerQuestion(code, playerId, now);
      if r.Err? {
        return;
      }
      var st := r.value;
      if !(0 <= st.currentQuestionIndex < |game.quiz.questions|) {
        return;
      }
      if !InRoster(game.players, playerId) {
        return;
      }
      EmitToPlayer(playerId, QuestionStartMsg(game.quiz.questions[st.currentQuestionIndex], st.currentQuestionIndex + 1,
                                              |game.quiz.questions|, st.questionStartTime, st));
    }

    /** HOST_CREATE_GAME: `quiz` is what the repository returned for `quizId`, `frontendUrl` the
        FRONTEND_URL setting ("" when unset) and `qrCode` the QR image of the join URL; a missing
        mode means FAST. The creator gets the game, its QR code and join URL, or the error. */
    method OnCreateGame(socketId: string, quiz: Option<Quiz>, quizId: string, hostName: string, mode: Option<GameMode>,
                        picks: seq<nat>, hostId: string, frontendUrl: string, qrCode: string, now: int)
      requires Valid()
      requires |picks| == CodeGenerator.CODE_LENGTH
      requires forall i :: 0 <= i < |picks| ==> picks[i] < |CodeGenerator.ALPHABET|
      requires CodeGenerator.GenerateGameCode(picks) !in service.activeGames
      modifies this, service
      ensures Valid()
      ensures playerSockets == old(playerSockets) && pending == old(pending)
      ensures quiz.None? ==>
        service.activeGames == old(service.activeGames) && events == old(events) + [ToSocket(socketId, ErrorMsg(Service(QuizNotFound)))]
      ensures quiz.Some? ==>
        var code := CodeGenerator.GenerateGameCode(picks);
        && code in service.activeGames
        && var g := service.activeGames[code];
        && fresh(g) && g.quiz == quiz.value && g.mode == (if mode.Some? then mode.value else Fast)
        && g.status == Lobby && g.players == [] && g.playerStates == map[]
        && events == old(events) + [ToSocket(socketId, GameCreatedMsg(g.View(), qrCode, JoinUrl(BaseUrl(frontendUrl), code)))]
    {
      var r := service.CreateGame(quiz, quizId, hostName, if mode.Some? then mode.value else Fast, picks, hostId, now);
      if r.Err? {
        events := events + [ToSocket(socketId, ErrorMsg(Service(r.error)))];
      } else {
        var game := r.value;
        events := events + [ToSocket(socketId, GameCreatedMsg(game.View(), qrCode, JoinUrl(BaseUrl(frontendUrl), game.code)))];
      }
    }

    /** PLAYER_JOIN_GAME: on success the player is mapped to this socket, told the result, and
        every client hears that the game changed; otherwise the socket gets the error. */
    method OnJoinGame(socketId: string, code: string, playerName: string, playerId: string, now: int)
      requires Valid()
      requires code in service.activeGames ==> !InRoster(service.activeGames[code].players, playerId)
      modifies this, service.GameFrame(code)
      ensures Valid()
      ensures pending == old(pending)
      ensures code !in service.activeGames ==>
        playerSockets == old(playerSockets) && events == old(events) + [ToSocket(socketId, ErrorMsg(Service(GameNotFound)))]
      ensures code in service.activeGames ==>
        var g := service.activeGames[code];
        && (old(g.status) != Lobby ==>
              && g.players == old(g.players) && playerSockets == old(playerSockets)
              && events == old(events) + [ToSocket(socketId, ErrorMsg(Service(GameAlreadyStarted)))])
        && (old(g.status) == Lobby && NameTaken(old(g.players), playerName) ==>
              && g.players == old(g.players) && playerSockets == old(playerSockets)
              && events == old(events) + [ToSocket(socketId, ErrorMsg(Service(NameAlreadyTaken)))])
        && (old(g.status) == Lobby && !NameTaken(old(g.players), playerName) ==>
              var p := Player(playerId, playerName, PlayerWaiting, 0, 0, 0, 0, 0, false, now, None);
              && g.players == old(g.players) + [p]
              && playerSockets == SetSocket(old(playerSockets), playerId, socketId)
              && events == old(events) + [ToSocket(socketId, PlayerJoinedMsg(g.View(), p)), ToAll(GameUpdatedMsg(g.View()))])
    {
      var r := service.JoinGame(code, playerName, playerId, None, now);
      if r.Err? {
        events := events + [ToSocket(socketId, ErrorMsg(Service(r.error)))];
        return;
      }
      SetSocketKeepsKeysDistinct(playerSockets, playerId, socketId);
      playerSockets := SetSocket(playerSockets, playerId, socketId);
      var game := service.activeGames[code];
      events := events + [ToSocket(socketId, PlayerJoinedMsg(game.View(), r.value)), ToAll(GameUpdatedMsg(game.View()))];
    }

    /** HOST_START_GAME: a started game with questions is announced to the room and its first
        questions are scheduled; a game without questions stays started but only the host's
        socket hears about it. */
    method OnStartGame(socketId: string, code: string, hostId: string, now: int)
      requires Valid()
      modifies this, service.GameFrame(code)
      ensures Valid()
      ensures playerSockets == old(playerSockets)
      ensures code !in service.activeGames ==>
        pending == old(pending) && events == old(events) + [ToSocket(socketId, ErrorMsg(Service(GameNotFound)))]
      ensures code in service.activeGames ==>
        var g := service.activeGames[code];
        && (g.hostId != hostId ==>
              pending == old(pending) && events == old(events) + [ToSocket(socketId, ErrorMsg(Service(OnlyHostCanStart)))])
        && (g.hostId == hostId && old(g.status) != Lobby ==>
              pending == old(pending) && events == old(events) + [ToSocket(socketId, ErrorMsg(Service(GameAlreadyStarted)))])
        && (!(g.hostId == hostId && old(g.status) == Lobby) ==>
              g.status == old(g.status) && g.playerStates == old(g.playerStates) && g.currentQuestionIndex == old(g.currentQuestionIndex))
        && (g.hostId == hostId && old(g.status) == Lobby ==>
              && g.status == Playing && g.currentQuestionIndex == 0
              && (forall k :: 0 <= k < |g.players| ==>
                    g.players[k].id in g.playerStates
                    && g.playerStates[g.players[k].id] == InitialState(g.players[k].id, now))
              && (forall id :: id in g.playerStates ==> InRoster(g.players, id))
              && (g.quiz.questions == [] ==>
                    pending == old(pending) && events == old(events) + [ToSocket(socketId, ErrorMsg(NoQuestions))])
              && (g.quiz.questions != [] ==>
                    pending == old(pending) + [StartQuestions(code)] && events == old(events) + [ToRoom(code, GameStartedMsg(g.View()))]))
        && g.players == old(g.players) && g.results == old(g.results) && g.finishedAt == old(g.finishedAt)
    {
      var r := service.StartGame(code, hostId, now);
      if r.Err? {
        events := events + [ToSocket(socketId, ErrorMsg(Service(r.error)))];
        return;
      }
      var game := r.value;
      if |game.quiz.questions| == 0 {
        events := events + [ToSocket(socketId, ErrorMsg(NoQuestions))];
        return;
      }
      events := events + [ToRoom(code, GameStartedMsg(game.View()))];
      pending := pending + [StartQuestions(code)];
    }

    /** HOST_NEXT_QUESTION: advances the game-wide index and finishes the game once it runs past
        the last question. */
    method OnNextQuestion(socketId: string, code: string, now: int)
      requires Valid()
      modifies this, service.GameFrame(code)
      ensures Valid()
      ensures playerSockets == old(playerSockets) && pending == old(pending)
      ensures code !in service.activeGames ==> events == old(events) + [ToSocket(socketId, ErrorMsg(Service(GameNotFound)))]
      ensures code in service.activeGames ==>
        var g := service.activeGames[code];
        && g.currentQuestionIndex == old(g.currentQuestionIndex) + 1
        && (g.currentQuestionIndex < |g.quiz.questions| ==> events == old(events) && g.status == old(g.status))
        && (g.currentQuestionIndex >= |g.quiz.questions| ==>
              && g.status == Finished && g.finishedAt == Some(now)
              && events == old(events) + [Finale(code, g.players, g.quiz.questions, g.results)])
    {
      var r := service.MoveToNextQuestion(code);
      if r.Err? {
        events := events + [ToSocket(socketId, ErrorMsg(Service(r.error)))];
        return;
      }
      if !r.value {
        FinishGameAndBroadcast(code, now);
      }
    }

    /** HOST_END_GAME: finishes the game; finishGame reports its own failure only to the log,
        so the socket never receives an error. */
    method OnEndGame(code: string, now: int)
      requires Valid()
      modifies this, service.GameFrame(code)
      ensures Valid()
      ensures playerSockets == old(playerSockets) && pending == old(pending)
      ensures code !in service.activeGames ==> events == old(events)
      ensures code in service.activeGames ==>
        var g := service.activeGames[code];
        && g.status == Finished && g.finishedAt == Some(now)
        && events == old(events) + [Finale(code, g.players, g.quiz.questions, g.results)]
    {
      FinishGameAndBroadcast(code, now);
    }

    /** disconnect: forgets the first player mapped to this socket; the player stays in the game. */
    method OnDisconnect(socketId: string)
      requires Valid()
      modifies this
      ensures Valid()
      ensures playerSockets == RemoveFirstSocket(old(playerSockets), socketId)
      ensures events == old(events) && pending == old(pending)
    {
      RemoveFirstSocketKeepsKeysDistinct(playerSockets, socketId);
      playerSockets := RemoveFirstSocket(playerSockets, socketId);
    }

    /** One step of the forEach of startQuestionsForAllPlayers: roster player `k` starts. */
    method StartNth(code: string, game: Game, k: nat, ghost before: map<string, PlayerGameState>, ghost log: seq<Event>, now: int)
      requires Valid() && code in service.activeGames && service.activeGames[code] == game
      requires k < |game.players|
      requires game.playerStates == StartedStates(before, game.players, k, |game.quiz.questions|, now)
      requires events == log + StartEvents(playerSockets, game.players, before, k, game.quiz.questions, now)
      modifies this, game
      ensures Valid()
      ensures service.activeGames == old(service.activeGames)
      ensures playerSockets == old(playerSockets) && pending == old(pending)
      ensures game.Frozen() == old(game.Frozen())
      ensures game.playerStates == StartedStates(before, game.players, k + 1, |game.quiz.questions|, now)
      ensures events == log + StartEvents(playerSockets, game.players, before, k + 1, game.quiz.questions, now)
    {
      StartQuestionForPlayer(code, game.players[k].id, now);
    }

    /** The forEach of startQuestionsForAllPlayers over the roster. */
    method StartEach(code: string, now: int)
      requires Valid() && code in service.activeGames
      modifies this, service.GameFrame(code)
      ensures Valid()
      ensures service.activeGames == old(service.activeGames)
      ensures playerSockets == old(playerSockets) && pending == old(pending)
      ensures
        var g := service.activeGames[code];
        && g.Frozen() == old(g.Frozen())
        && g.playerStates == StartedStates(old(g.playerStates), g.players, |g.players|, |g.quiz.questions|, now)
        && events == old(events) + StartEvents(playerSockets, g.players, old(g.playerStates), |g.players|, g.quiz.questions, now)
    {
      var game := service.activeGames[code];
      ghost var before := game.playerStates;
      ghost var log := events;
      var k := 0;
      while k < |game.players|
        invariant 0 <= k <= |game.players|
        invariant Valid() && service.activeGames == old(service.activeGames)
        invariant playerSockets == old(playerSockets) && pending == old(pending)
        invariant game.Frozen() == old(game.Frozen())
        invariant game.playerStates == StartedStates(before, game.players, k, |game.quiz.questions|, now)
        invariant events == log + StartEvents(playerSockets, game.players, before, k, game.quiz.questions, now)
      {
        StartNth(code, game, k, before, log, now);
        k := k + 1;
      }
    }

    /** startQuestionsForAllPlayers: every roster player moves to its first question, then the
        room receives the statistics. */
    method StartQuestionsForAllPlayers(code: string, now: int)
      requires Valid()
      modifies this, service.GameFrame(code)
      ensures Valid()
      ensures playerSockets == old(playerSockets)
      ensures QuestionsStarted(code, now, playerSockets, old(events), events)
      ensures pending == old(pending)
    {
      if code !in service.activeGames {
        return;
      }
      var game := service.activeGames[code];
      ghost var before := game.playerStates;
      StartEach(code, now);
      assert AllStarted(before, game.playerStates, game.players, |game.quiz.questions|, now) by {
        service.GameIsValid(code);
        StartedStatesMeaning(before, game.players, |game.players|, |game.quiz.questions|, now);
        assert game.players[..|game.players|] == game.players;
      }
      assert events == old(events) + QuestionStartEvents(playerSockets, game.players, |game.players|,
                                                         game.playerStates, game.quiz.questions) by {
        service.GameIsValid(code);
        StartEventsMeaning(playerSockets, game.players, before, |game.players|, |game.players|, game.quiz.questions, now);
      }
      SendStatsToHost(code);
    }

    /** The ranking forEach over a cohort. */
    method EmitRankings(cohort: seq<string>, ranking: seq<RankingEntry>)
      modifies this
      ensures events == old(events) + RankingEvents(playerSockets, cohort, ranking)
      ensures playerSockets == old(playerSockets) && pending == old(pending)
    {
      var k := 0;
      while k < |cohort|
        invariant 0 <= k <= |cohort|
        invariant playerSockets == old(playerSockets) && pending == old(pending)
        invariant events == old(events) + RankingEvents(playerSockets, cohort[..k], ranking)
      {
        RankingEventsStep(playerSockets, cohort, k, ranking);
        EmitToPlayer(cohort[k], RankingFor(ranking, cohort[k]));
        k := k + 1;
      }
      assert cohort[..k] == cohort;
    }

    /** FAST mode, two seconds after the feedback: the player sees the ranking and the advance
        timer starts. getRanking throws on a missing game, outside any try, and the process exits. */
    method FastRankingStep(code: string, playerId: string) returns (crashed: bool)
      requires Valid()
      modifies this
      ensures Valid()
      ensures playerSockets == old(playerSockets)
      ensures FastRanked(code, playerId, crashed, playerSockets, old(events), events)
      ensures pending == old(pending) + (if crashed then [] else [FastAdvance(code, playerId)])
    {
      var r := service.GetRanking(code);
      if r.Err? {
        return true;
      }
      EmitToPlayer(playerId, RankingFor(r.value.ranking, playerId));
      pending := pending + [FastAdvance(code, playerId)];
      crashed := false;
    }

    /** One player's advance: the next question when one follows, the final screen otherwise.
        The events are read against `from`, any map holding the player's current state. */
    method AdvancePlayer(code: string, game: Game, playerId: string, ghost from: map<string, PlayerGameState>, now: int)
      requires Valid() && code in service.activeGames && service.activeGames[code] == game
      requires playerId in game.playerStates && SameEntry(game.playerStates, from, playerId)
      modifies this, game
      ensures Valid()
      ensures service.activeGames == old(service.activeGames)
      ensures playerSockets == old(playerSockets) && pending == old(pending)
      ensures game.Frozen() == old(game.Frozen())
      ensures game.playerStates == AdvanceEntry(old(game.playerStates), playerId, |game.quiz.questions|, now)
      ensures events == old(events) + AdvanceFor(playerSockets, game.players, game.quiz.questions, game.results, playerId,
                                                 from, AdvanceEntry(from, playerId, |game.quiz.questions|, now))
    {
      var r := service.AdvancePlayerToNextQuestion(code, playerId);
      if r.value {
        StartQuestionForPlayer(code, playerId, now);
        QuestionStartForStable(playerSockets, game.players, playerId, game.playerStates,
                               AdvanceEntry(from, playerId, |game.quiz.questions|, now), game.quiz.questions);
      } else {
        ShowPlayerFinalScreen(code, playerId);
      }
    }

    /** FAST mode, three seconds after the ranking: the player advances; a player who has
        finished gets the final screen, and the game ends once every roster player has finished.
        advancePlayerToNextQuestion throws on a missing game or state and the process exits. */
    method FastAdvanceStep(code: string, playerId: string, now: int) returns (crashed: bool)
      requires Valid()
      modifies this, service.GameFrame(code)
      ensures Valid()
      ensures playerSockets == old(playerSockets)
      ensures FastAdvanced(code, playerId, crashed, now, playerSockets, old(events), events)
      ensures pending == old(pending)
    {
      if code !in service.activeGames {
        return true;
      }
      var game := service.activeGames[code];
      if playerId !in game.playerStates {
        return true;
      }
      var last := game.playerStates[playerId].currentQuestionIndex + 1 >= |game.quiz.questions|;
      AdvancePlayer(code, game, playerId, game.playerStates, now);
      if last {
        FinishIfAllFinished(code, now);
      }
      crashed := false;
    }

    /** WAIT_ALL mode, two seconds after the feedback: every cohort member sees the ranking and
        the advance timer starts; a missing game makes getRanking throw and the process exits. */
    method WaitAllRankingStep(code: string, cohort: seq<string>) returns (crashed: bool)
      requires Valid() && DistinctSeq(cohort)
      modifies this
      ensures Valid()
      ensures playerSockets == old(playerSockets)
      ensures CohortRanked(code, cohort, crashed, playerSockets, old(events), events)
      ensures pending == old(pending) + (if crashed then [] else [WaitAllAdvance(code, cohort)])
    {
      var r := service.GetRanking(code);
      if r.Err? {
        return true;
      }
      EmitRankings(cohort, r.value.ranking);
      pending := pending + [WaitAllAdvance(code, cohort)];
      crashed := false;
    }

    /** One step of the advance forEach: cohort member `k` advances. */
    method AdvanceNth(code: string, game: Game, cohort: seq<string>, k: nat,
                      ghost before: map<string, PlayerGameState>, ghost log: seq<Event>, now: int)
      requires Valid() && code in service.activeGames && service.activeGames[code] == game
      requires k < |cohort| && cohort[k] in before && DistinctSeq(cohort)
      requires game.playerStates == AdvancedStates(before, cohort, k, |game.quiz.questions|, now)
      requires events == log + CohortAdvanceEvents(playerSockets, game.players, game.quiz.questions, game.results, before, cohort, k, now)
      modifies this, game
      ensures Valid()
      ensures service.activeGames == old(service.activeGames)
      ensures playerSockets == old(playerSockets) && pending == old(pending)
      ensures game.Frozen() == old(game.Frozen())
      ensures game.playerStates == AdvancedStates(before, cohort, k + 1, |game.quiz.questions|, now)
      ensures events == log + CohortAdvanceEvents(playerSockets, game.players, game.quiz.questions, game.results, before, cohort, k + 1, now)
    {
      assert cohort[k] !in cohort[..k];
      AdvancedStatesUntouched(before, cohort, k, |game.quiz.questions|, now, cohort[k]);
      AdvancePlayer(code, game, cohort[k], before, now);
    }

    /** The advance forEach: members advance in order until one has no state (where the
        exception ends the process); returns how many advanced. */
    method AdvanceCohort(code: string, cohort: seq<string>, now: int) returns (k: nat)
      requires Valid() && code in service.activeGames && DistinctSeq(cohort)
      modifies this, service.GameFrame(code)
      ensures Valid()
      ensures service.activeGames == old(service.activeGames)
      ensures playerSockets == old(playerSockets) && pending == old(pending)
      ensures
        var g := service.activeGames[code];
        && k == FirstMissing(cohort, old(g.playerStates))
        && g.Frozen() == old(g.Frozen())
        && g.playerStates == AdvancedStates(old(g.playerStates), cohort, k, |g.quiz.questions|, now)
        && events == old(events) + CohortAdvanceEvents(playerSockets, g.players, g.quiz.questions, g.results, old(g.playerStates), cohort, k, now)
    {
      var game := service.activeGames[code];
      ghost var before := game.playerStates;
      ghost var log := events;
      var stop := FirstMissing(cohort, game.playerStates);
      k := 0;
      while k < stop
        invariant 0 <= k <= stop
        invariant Valid() && service.activeGames == old(service.activeGames)
        invariant playerSockets == old(playerSockets) && pending == old(pending)
        invariant game.Frozen() == old(game.Frozen())
        invariant game.playerStates == AdvancedStates(before, cohort, k, |game.quiz.questions|, now)
        invariant events == log + CohortAdvanceEvents(playerSockets, game.players, game.quiz.questions, game.results, before, cohort, k, now)
      {
        AdvanceNth(code, game, cohort, k, before, log, now);
        k := k + 1;
      }
    }

    /** WAIT_ALL mode, three seconds after the ranking: every cohort member advances once, then
        the game ends if every roster player has finished. A missing game or state makes
        advancePlayerToNextQuestion throw part-way and the process exits. */
    method WaitAllAdvanceStep(code: string, cohort: seq<string>, now: int) returns (crashed: bool)
      requires Valid() && DistinctSeq(cohort)
      modifies this, service.GameFrame(code)
      ensures Valid()
      ensures playerSockets == old(playerSockets)
      ensures CohortAdvanced(code, cohort, crashed, now, playerSockets, old(events), events)
      ensures pending == old(pending)
    {
      if code !in service.activeGames {
        return cohort != [];
      }
      var game := service.activeGames[code];
      ghost var before := game.playerStates;
      var k := AdvanceCohort(code, cohort, now);
      AdvancedStatesMeaning(before, cohort, k, |game.quiz.questions|, now);
      if k < |cohort| {
        return true;
      }
      FinishIfAllFinished(code, now);
      crashed := false;
    }

    /** What startQuestionsForAllPlayers does to the games and the event log. */
    twostate predicate QuestionsStarted(code: string, now: int,
                               ps: seq<(string, string)>, log: seq<Event>, log': seq<Event>)
      reads service, service.activeGames.Values
    {
      && service.activeGames == old(service.activeGames)
      && (code !in service.activeGames ==> log' == log)
      && (code in service.activeGames ==>
            var g := service.activeGames[code];
            && AllStarted(old(g.playerStates), g.playerStates, g.players, |g.quiz.questions|, now)
            && log' == log + QuestionStartEvents(ps, g.players, |g.players|, g.playerStates, g.quiz.questions)
                         + [ToRoom(code, StatsMsg(service.GetGameStats(code).value))]
            && g.Frozen() == old(g.Frozen()))
    }

    /** What the FAST ranking phase does: the player's ranking, unless getRanking throws. */
    twostate predicate FastRanked(code: string, playerId: string, crashed: bool,
                               ps: seq<(string, string)>, log: seq<Event>, log': seq<Event>)
      reads service, service.activeGames.Values
    {
      && service.activeGames == old(service.activeGames)
      && (crashed <==> code !in service.activeGames)
      && (crashed ==> log' == log)
      && (!crashed ==>
            log' == log + Unicast(ps, playerId, RankingFor(Ranking(service.activeGames[code].players), playerId)))
    }

    /** What the FAST advance phase does: the player's advance and, once everyone has finished,
        the end of the game, unless advancePlayerToNextQuestion throws. */
    twostate predicate FastAdvanced(code: string, playerId: string, crashed: bool, now: int,
                               ps: seq<(string, string)>, log: seq<Event>, log': seq<Event>)
      reads service, service.activeGames.Values
    {
      && service.activeGames == old(service.activeGames)
      && (crashed <==> code !in service.activeGames || playerId !in old(service.activeGames[code].playerStates))
      && (crashed ==> log' == log)
      && (!crashed ==>
            var g := service.activeGames[code];
            var st := old(g.playerStates)[playerId];
            var finishing := st.currentQuestionIndex + 1 >= |g.quiz.questions| && AllFinished(g.players, g.playerStates);
            && g.playerStates == old(g.playerStates)[playerId := Advanced(st, |g.quiz.questions|, now)]
            && log' == log + AdvanceFor(ps, g.players, g.quiz.questions, g.results, playerId,
                                                  old(g.playerStates), g.playerStates)
                         + (if finishing then [Finale(code, g.players, g.quiz.questions, g.results)] else [])
            && (finishing ==> g.status == Finished && g.finishedAt == Some(now))
            && (!finishing ==> g.status == old(g.status) && g.finishedAt == old(g.finishedAt))
            && g.players == old(g.players) && g.results == old(g.results) && g.currentQuestionIndex == old(g.currentQuestionIndex))
    }

    /** What the WAIT_ALL ranking phase does: every member's ranking, unless getRanking throws. */
    twostate predicate CohortRanked(code: string, cohort: seq<string>, crashed: bool,
                               ps: seq<(string, string)>, log: seq<Event>, log': seq<Event>)
      reads service, service.activeGames.Values
    {
      && service.activeGames == old(service.activeGames)
      && (crashed <==> code !in service.activeGames)
      && (crashed ==> log' == log)
      && (!crashed ==> log' == log + RankingEvents(ps, cohort, Ranking(service.activeGames[code].players)))
    }

    /** What the WAIT_ALL advance phase does: the members advance in order up to the first one
        without a state, and a complete advance ends the game once everyone has finished. */
    twostate predicate CohortAdvanced(code: string, cohort: seq<string>, crashed: bool, now: int,
                               ps: seq<(string, string)>, log: seq<Event>, log': seq<Event>)
      reads service, service.activeGames.Values
    {
      && service.activeGames == old(service.activeGames)
      && (code !in service.activeGames ==> (crashed <==> cohort != []) && log' == log)
      && (code in service.activeGames ==>
            var g := service.activeGames[code];
            var k := FirstMissing(cohort, old(g.playerStates));
            var finishing := !crashed && AllFinished(g.players, g.playerStates);
            && (crashed <==> k < |cohort|)
            && AllAdvanced(old(g.playerStates), g.playerStates, cohort[..k], |g.quiz.questions|, now)
            && log' == log + CohortAdvanceEvents(ps, g.players, g.quiz.questions, g.results,
                                                           old(g.playerStates), cohort, k, now)
                         + (if finishing then [Finale(code, g.players, g.quiz.questions, g.results)] else [])
            && (finishing ==> g.status == Finished && g.finishedAt == Some(now))
            && (!finishing ==> g.status == old(g.status) && g.finishedAt == old(g.finishedAt))
            && g.players == old(g.players) && g.results == old(g.results) && g.currentQuestionIndex == old(g.currentQuestionIndex))
    }

    /** One pending timer fires: its phase runs, and the timer leaves the queue, followed by the
        next phase's timer unless the process went down. */
    method RunTimer(i: nat, now: int) returns (crashed: bool)
      requires Valid() && i < |pending|
      modifies this, service.GameFrame(pending[i].code)
      ensures Valid()
      ensures pending == old(pending[..i] + pending[i + 1..]) + (if crashed then [] else FollowUp(old(pending[i])))
      ensures playerSockets == old(playerSockets)
      ensures var t := old(pending[i]);
        && (t.StartQuestions? ==> !crashed && QuestionsStarted(t.code, now, playerSockets, old(events), events))
        && (t.FastRanking? ==> FastRanked(t.code, t.playerId, crashed, playerSockets, old(events), events))
        && (t.FastAdvance? ==> FastAdvanced(t.code, t.playerId, crashed, now, playerSockets, old(events), events))
        && (t.WaitAllRanking? ==> CohortRanked(t.code, t.cohort, crashed, playerSockets, old(events), events))
        && (t.WaitAllAdvance? ==> CohortAdvanced(t.code, t.cohort, crashed, now, playerSockets, old(events), events))
    {
      var t := pending[i];
      pending := pending[..i] + pending[i + 1..];
      crashed := RunPhase(t, now);
    }

    /** The phase a timer stands for, run once the timer has left the queue. */
    method RunPhase(t: Timer, now: int) returns (crashed: bool)
      requires Valid() && TimerWellFormed(t)
      modifies this, service.GameFrame(t.code)
      ensures Valid()
      ensures pending == old(pending) + (if crashed then [] else FollowUp(t))
      ensures playerSockets == old(playerSockets)
      ensures && (t.StartQuestions? ==> !crashed && QuestionsStarted(t.code, now, playerSockets, old(events), events))
              && (t.FastRanking? ==> FastRanked(t.code, t.playerId, crashed, playerSockets, old(events), events))
              && (t.FastAdvance? ==> FastAdvanced(t.code, t.playerId, crashed, now, playerSockets, old(events), events))
              && (t.WaitAllRanking? ==> CohortRanked(t.code, t.cohort, crashed, playerSockets, old(events), events))
              && (t.WaitAllAdvance? ==> CohortAdvanced(t.code, t.cohort, crashed, now, playerSockets, old(events), events))
    {
      match t {
        case StartQuestions(code) =>
          StartQuestionsForAllPlayers(code, now);
          crashed := false;
        case FastRanking(code, playerId) =>
          crashed := FastRankingStep(code, playerId);
        case FastAdvance(code, playerId) =>
          crashed := FastAdvanceStep(code, playerId, now);
        case WaitAllRanking(code, cohort) =>
          crashed := WaitAllRankingStep(code, cohort);
        case WaitAllAdvance(code, cohort) =>
          crashed := WaitAllAdvanceStep(code, cohort, now);
      }
    }
  }
}
