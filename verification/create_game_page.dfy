/**
 * The host's game creation page (frontend/app/create/page.tsx): the list of quizzes
 * to choose from, merged from the host's own quizzes and the public ones, the quiz
 * preselected from the URL, and the checks made before the create-game event is sent.
 */
module CreateGamePage {
  import opened Wrappers
  import opened JsText

  /** A quiz as listed, without its questions (Omit<Quiz, 'questions'>); only id and title matter here. */
  datatype QuizSummary = QuizSummary(id: string, title: string)

  /** A decoded quiz-list response; data is absent when the body has no data field. */
  datatype QuizListResponse = QuizListResponse(success: bool, data: Option<seq<QuizSummary>>)

  /** The payload of the host's create-game event. */
  datatype CreateGamePayload = CreateGamePayload(quizId: string, hostName: string)

  /** Why handleCreateGame stops, in the order it checks. */
  datatype CreateGameError = NotConnected | MissingFields

  /** new Set(userData.data?.map(q => q.id) || []) */
  function OwnIds(userData: QuizListResponse): (ids: set<string>)
    ensures forall id :: id in ids <==> userData.data.Some? && exists k :: 0 <= k < |userData.data.value| && userData.data.value[k].id == id
  {
    if userData.data.Some? then set k | 0 <= k < |userData.data.value| :: userData.data.value[k].id else {}
  }

  /** publicData.data.filter(q => !ids.has(q.id)) */
  function ExcludingIds(quizzes: seq<QuizSummary>, ids: set<string>): (kept: seq<QuizSummary>)
    ensures |kept| <= |quizzes|
    ensures forall k :: 0 <= k < |kept| ==> kept[k].id !in ids
  {
    if quizzes == [] then []
    else (if quizzes[0].id in ids then [] else [quizzes[0]]) + ExcludingIds(quizzes[1..], ids)
  }

  /** The filter keeps exactly the quizzes whose id is not excluded. */
  lemma {:induction false} ExcludingIdsKeeps(quizzes: seq<QuizSummary>, ids: set<string>, q: QuizSummary)
    ensures q in ExcludingIds(quizzes, ids) <==> q in quizzes && q.id !in ids
  {
    if quizzes != [] {
      ExcludingIdsKeeps(quizzes[1..], ids, q);
      assert quizzes == [quizzes[0]] + quizzes[1..];
    }
  }

  /** With no listed quiz carrying an excluded id, the filter returns the list unchanged. */
  lemma {:induction false} ExcludingIdsNoExclusions(quizzes: seq<QuizSummary>, ids: set<string>)
    requires forall k :: 0 <= k < |quizzes| ==> quizzes[k].id !in ids
    ensures ExcludingIds(quizzes, ids) == quizzes
  {
    if quizzes != [] {
      ExcludingIdsNoExclusions(quizzes[1..], ids);
    }
  }

  /**
   * The quiz list fetchQuizzes builds: the host's own quizzes first, then the public
   * quizzes whose id is not among them; None where the code throws (a successful
   * response without data) and the list is not replaced.
   */
  function MergedQuizzes(publicData: QuizListResponse, userData: QuizListResponse): (r: Option<seq<QuizSummary>>)
    ensures r.None? <==> (userData.success && userData.data.None?) || (publicData.success && publicData.data.None?)
    ensures r.Some? ==> forall q :: q in r.value <==>
      (userData.success && q in userData.data.value) ||
      (publicData.success && q in publicData.data.value && q.id !in OwnIds(userData))
  {
    if userData.success && userData.data.None? then None
    else if publicData.success && publicData.data.None? then None
    else
      var own := if userData.success then userData.data.value else [];
      var others := if publicData.success then ExcludingIds(publicData.data.value, OwnIds(userData)) else [];
      assert forall q :: q in others <==> publicData.success && q in publicData.data.value && q.id !in OwnIds(userData) by {
        forall q ensures q in others <==> publicData.success && q in publicData.data.value && q.id !in OwnIds(userData) {
          if publicData.success {
            ExcludingIdsKeeps(publicData.data.value, OwnIds(userData), q);
          }
        }
      }
      Some(own + others)
  }

  /**
   * After a successful merge no public quiz repeats the id of one of the host's own:
   * every quiz past the host's own carries an id none of them has.
   */
  lemma MergedHasNoDuplicateOwnIds(publicData: QuizListResponse, userData: QuizListResponse)
    requires userData.success && MergedQuizzes(publicData, userData).Some?
    ensures var all := MergedQuizzes(publicData, userData).value;
      var n := |userData.data.value|;
      n <= |all| && all[..n] == userData.data.value &&
      forall i, j :: 0 <= i < n <= j < |all| ==> all[i].id != all[j].id
  {
    var own := userData.data.value;
    var all := MergedQuizzes(publicData, userData).value;
    forall i, j | 0 <= i < |own| <= j < |all| ensures all[i].id != all[j].id {
      assert all[i] == own[i];
      assert all[i].id in OwnIds(userData);
    }
  }

  /** `if (quizIdParam) setSelectedQuizId(quizIdParam)`: a non-empty quizId query parameter wins. */
  function Preselected(quizIdParam: Option<string>, selected: string): (selected': string)
    ensures quizIdParam.Some? && quizIdParam.value != [] ==> selected' == quizIdParam.value
    ensures quizIdParam.None? || quizIdParam.value == [] ==> selected' == selected
  {
    if quizIdParam.Some? && quizIdParam.value != [] then quizIdParam.value else selected
  }

  /**
   * handleCreateGame: the socket must be connected, and the trimmed host name and the
   * chosen quiz non-empty; the event carries the trimmed name.
   */
  function CreateGameRequest(connected: bool, hostName: string, selectedQuizId: string): (r: Result<CreateGamePayload, CreateGameError>)
    ensures r.Ok? <==> connected && Trim(hostName) != [] && selectedQuizId != []
    ensures r == Err(NotConnected) <==> !connected
    ensures r.Ok? ==> r.value == CreateGamePayload(selectedQuizId, Trim(hostName))
  {
    if !connected then Err(NotConnected)
    else if Trim(hostName) == [] || selectedQuizId == [] then Err(MissingFields)
    else Ok(CreateGamePayload(selectedQuizId, Trim(hostName)))
  }

  /** The host name sent is already trimmed: submitting it again sends the same event. */
  lemma CreateGameRequestIdempotent(hostName: string, selectedQuizId: string)
    requires CreateGameRequest(true, hostName, selectedQuizId).Ok?
    ensures var p := CreateGameRequest(true, hostName, selectedQuizId).value;
      CreateGameRequest(true, p.hostName, p.quizId) == Ok(p)
  {
    TrimIdempotent(hostName);
  }

  /** The page state that fetchQuizzes and the URL parameter change. */
  class GameCreator {
    var quizzes: seq<QuizSummary>
    var loading: bool
    var hostName: string
    var selectedQuizId: string

    constructor ()
      ensures quizzes == [] && loading && hostName == "" && selectedQuizId == ""
    {
      quizzes := [];
      loading := true;
      hostName := "";
      selectedQuizId := "";
    }

    /** The effect run on mount: the URL's quizId, if any, preselects a quiz. */
    method ApplyQuizIdParam(quizIdParam: Option<string>)
      modifies this
      ensures selectedQuizId == Preselected(quizIdParam, old(selectedQuizId))
      ensures quizzes == old(quizzes) && loading == old(loading) && hostName == old(hostName)
    {
      if quizIdParam.Some? && quizIdParam.value != [] {
        selectedQuizId := quizIdParam.value;
      }
    }

    /**
     * fetchQuizzes once both responses are decoded: allQuizzes is built by pushing the
     * host's quizzes and then the filtered public ones; a throw leaves the list as it was.
     */
    method FetchQuizzes(publicData: QuizListResponse, userData: QuizListResponse)
      modifies this
      ensures MergedQuizzes(publicData, userData).Some? ==> quizzes == MergedQuizzes(publicData, userData).value
      ensures MergedQuizzes(publicData, userData).None? ==> quizzes == old(quizzes)
      ensures !loading && hostName == old(hostName) && selectedQuizId == old(selectedQuizId)
    {
      loading := false;
      var allQuizzes: seq<QuizSummary> := [];
      if userData.success {
        if userData.data.None? {
          return;
        }
        allQuizzes := allQuizzes + userData.data.value;
      }
      if publicData.success {
        var ownIds := OwnIds(userData);
        if publicData.data.None? {
          return;
        }
        var publicQuizzes := ExcludingIds(publicData.data.value, ownIds);
        allQuizzes := allQuizzes + publicQuizzes;
      }
      quizzes := allQuizzes;
    }

    /** handleCreateGame: the event to emit, or the alert shown instead. */
    method HandleCreateGame(connected: bool) returns (r: Result<CreateGamePayload, CreateGameError>)
      ensures r.Ok? <==> connected && Trim(hostName) != [] && selectedQuizId != []
      ensures r == CreateGameRequest(connected, hostName, selectedQuizId)
    {
      if !connected {
        return Err(NotConnected);
      }
      if Trim(hostName) == [] || selectedQuizId == [] {
        return Err(MissingFields);
      }
      r := Ok(CreateGamePayload(selectedQuizId, Trim(hostName)));
    }
  }
}
