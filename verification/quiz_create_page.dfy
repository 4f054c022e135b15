/**
 * The quiz builder page (frontend/app/quizzes/create/page.tsx): the list of draft
 * questions, which of them the editor has open, and the checks made before a quiz
 * is sent to the backend.
 */
module QuizCreatePage {
  import opened Wrappers
  import opened JsText
  import opened QuestionEditor

  /** The body of the request that creates the quiz. */
  datatype QuizPayload = QuizPayload(
    title: string,
    description: string,
    createdBy: string,
    isPublic: bool,
    questions: seq<DraftQuestion>)

  /** Why handleSaveQuiz stops, in the order it checks. */
  datatype QuizFormError = MissingTitle | NoQuestions

  /**
   * handleSaveQuestion on the list: a position inside the list is replaced, any other
   * position appends the question.
   */
  function SaveQuestionAt(questions: seq<DraftQuestion>, index: nat, q: DraftQuestion): (questions': seq<DraftQuestion>)
    ensures index < |questions| ==> |questions'| == |questions| && questions'[index] == q
    ensures index < |questions| ==> forall i :: 0 <= i < |questions| && i != index ==> questions'[i] == questions[i]
    ensures index >= |questions| ==> questions' == questions + [q]
  {
    if index < |questions| then questions[index := q] else questions + [q]
  }

  /** questions.filter((_, i) => i !== index), walking the list from its head. */
  function Without(questions: seq<DraftQuestion>, index: int): (questions': seq<DraftQuestion>)
    ensures 0 <= index < |questions| ==> questions' == questions[..index] + questions[index + 1..]
    ensures !(0 <= index < |questions|) ==> questions' == questions
  {
    if questions == [] then []
    else (if index == 0 then [] else [questions[0]]) + Without(questions[1..], index - 1)
  }

  /** Deleting a question removes that one occurrence and keeps every other question. */
  lemma WithoutRemovesOne(questions: seq<DraftQuestion>, index: nat)
    requires index < |questions|
    ensures |Without(questions, index)| == |questions| - 1
    ensures multiset(Without(questions, index)) + multiset{questions[index]} == multiset(questions)
  {
    RemovingOneSplitsMultiset(questions, index);
  }

  lemma RemovingOneSplitsMultiset<T>(s: seq<T>, i: nat)
    requires i < |s|
    ensures multiset(s[..i] + s[i + 1..]) + multiset{s[i]} == multiset(s)
  {
    assert s == s[..i] + [s[i]] + s[i + 1..];
  }

  /** Deleting the question just appended gives back the list before it. */
  lemma DeleteUndoesAppend(questions: seq<DraftQuestion>, q: DraftQuestion)
    ensures Without(SaveQuestionAt(questions, |questions|, q), |questions|) == questions
  {
    assert (questions + [q])[..|questions|] == questions;
  }

  /**
   * handleSaveQuiz before the request: the trimmed title must be non-blank and the quiz
   * must have a question; the payload carries the trimmed title and description.
   */
  function QuizRequest(title: string, description: string, isPublic: bool, questions: seq<DraftQuestion>, userId: string): (r: Result<QuizPayload, QuizFormError>)
    ensures r.Ok? <==> Trim(title) != [] && |questions| > 0
    ensures r == Err(MissingTitle) <==> Trim(title) == []
    ensures r.Ok? ==> r.value.title == Trim(title) && r.value.description == Trim(description)
    ensures r.Ok? ==> r.value.createdBy == userId && r.value.isPublic == isPublic && r.value.questions == questions
  {
    if Trim(title) == [] then Err(MissingTitle)
    else if |questions| == 0 then Err(NoQuestions)
    else Ok(QuizPayload(Trim(title), Trim(description), userId, isPublic, questions))
  }

  /** A payload the page produced passes the page's checks again unchanged. */
  lemma QuizRequestIdempotent(title: string, description: string, isPublic: bool, questions: seq<DraftQuestion>, userId: string)
    requires QuizRequest(title, description, isPublic, questions, userId).Ok?
    ensures var p := QuizRequest(title, description, isPublic, questions, userId).value;
      QuizRequest(p.title, p.description, p.isPublic, p.questions, p.createdBy) == Ok(p)
  {
    TrimIdempotent(title);
    TrimIdempotent(description);
  }

  /** The page state that the handlers change. */
  class QuizBuilder {
    var title: string
    var description: string
    var isPublic: bool
    var questions: seq<DraftQuestion>
    /** The position the editor is open on; |questions| means a new question. */
    var editingIndex: Option<nat>

    constructor ()
      ensures title == "" && description == "" && isPublic
      ensures questions == [] && editingIndex == None
    {
      title := "";
      description := "";
      isPublic := true;
      questions := [];
      editingIndex := None;
    }

    /** What the open editor shows: the question at editingIndex, or a blank form. */
    function EditorQuestion(): (q: Option<DraftQuestion>)
      reads this
      requires editingIndex.Some?
      ensures q.Some? <==> editingIndex.value < |questions|
      ensures q.Some? ==> q.value == questions[editingIndex.value]
    {
      if editingIndex.value < |questions| then Some(questions[editingIndex.value]) else None
    }

    method HandleAddQuestion()
      modifies this
      ensures editingIndex == Some(|questions|) && EditorQuestion() == None
      ensures questions == old(questions) && title == old(title) && description == old(description) && isPublic == old(isPublic)
    {
      editingIndex := Some(|questions|);
    }

    method HandleEditQuestion(index: nat)
      modifies this
      ensures editingIndex == Some(index)
      ensures index < |questions| ==> EditorQuestion() == Some(questions[index])
      ensures questions == old(questions) && title == old(title) && description == old(description) && isPublic == old(isPublic)
    {
      editingIndex := Some(index);
    }

    /** The editor's onSave: with the editor open, store the question and close the editor. */
    method HandleSaveQuestion(q: DraftQuestion)
      modifies this
      ensures old(editingIndex).None? ==> questions == old(questions) && editingIndex == None
      ensures old(editingIndex).Some? ==> questions == SaveQuestionAt(old(questions), old(editingIndex).value, q)
      ensures editingIndex == None
      ensures title == old(title) && description == old(description) && isPublic == old(isPublic)
    {
      if editingIndex.Some? {
        var newQuestions := questions;
        if editingIndex.value < |questions| {
          newQuestions := newQuestions[editingIndex.value := q];
        } else {
          newQuestions := newQuestions + [q];
        }
        questions := newQuestions;
        editingIndex := None;
      }
    }

    /** The delete button; confirmed is the user's answer to the confirmation dialog. */
    method HandleDeleteQuestion(index: nat, confirmed: bool)
      modifies this
      ensures questions == if confirmed then Without(old(questions), index) else old(questions)
      ensures editingIndex == old(editingIndex)
      ensures title == old(title) && description == old(description) && isPublic == old(isPublic)
    {
      if confirmed {
        questions := Without(questions, index);
      }
    }

    method HandleCancelEdit()
      modifies this
      ensures editingIndex == None && questions == old(questions)
      ensures title == old(title) && description == old(description) && isPublic == old(isPublic)
    {
      editingIndex := None;
    }

    /** handleSaveQuiz up to the request: the payload to send, or the alert shown instead. */
    method HandleSaveQuiz(userId: string) returns (r: Result<QuizPayload, QuizFormError>)
      ensures r.Ok? <==> Trim(title) != [] && |questions| > 0
      ensures r == QuizRequest(title, description, isPublic, questions, userId)
    {
      if Trim(title) == [] {
        return Err(MissingTitle);
      }
      if |questions| == 0 {
        return Err(NoQuestions);
      }
      r := Ok(QuizPayload(Trim(title), Trim(description), userId, isPublic, questions));
    }
  }
}
