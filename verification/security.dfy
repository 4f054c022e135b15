/** security: the dataSizeLimiter middleware, a fixed chain of length checks on the request body. */
module Security {
  import opened Wrappers
  import opened JsText

  const MAX_TITLE_LENGTH: nat := 200
  const MAX_TEXT_LENGTH: nat := 1000
  const MAX_QUESTIONS: nat := 50
  const MAX_OPTIONS: nat := 6
  const MAX_PLAYER_NAME_LENGTH: nat := 50

  /** The body fields the limiter reads; None is an absent field, and a list that is None is not
      an array (an empty array is truthy in JavaScript and is scanned like any other). */
  datatype BodyOption = BodyOption(text: Option<string>)
  datatype BodyQuestion = BodyQuestion(text: Option<string>, options: Option<seq<BodyOption>>)
  datatype Body = Body(title: Option<string>, description: Option<string>,
                       questions: Option<seq<BodyQuestion>>, playerName: Option<string>)

  /** The `code` of each 400 response. */
  datatype SizeError =
    | TitleTooLong | DescriptionTooLong | TooManyQuestions
    | QuestionTextTooLong | TooManyOptions | OptionTextTooLong
    | PlayerNameTooLong

  /** `field && field.length > max`: an absent or empty field never fails. */
  predicate TooLong(field: Option<string>, max: nat) {
    field.Some? && field.value != "" && Utf16Length(field.value) > max
  }

  /** The inner loop over one question's options. */
  function FirstOptionSizeError(opts: seq<BodyOption>): (r: Option<SizeError>)
    ensures r.Some? ==> r == Some(OptionTextTooLong)
    ensures r.None? <==> forall j :: 0 <= j < |opts| ==> !TooLong(opts[j].text, MAX_TEXT_LENGTH)
  {
    if opts == [] then None
    else if TooLong(opts[0].text, MAX_TEXT_LENGTH) then Some(OptionTextTooLong)
    else FirstOptionSizeError(opts[1..])
  }

  /** The checks on one question, in order. */
  function QuestionSizeError(q: BodyQuestion): (r: Option<SizeError>)
  {
    if TooLong(q.text, MAX_TEXT_LENGTH) then Some(QuestionTextTooLong)
    else if q.options.Some? then
      if |q.options.value| > MAX_OPTIONS then Some(TooManyOptions)
      else FirstOptionSizeError(q.options.value)
    else None
  }

  /** A question within every limit the limiter checks. */
  predicate QuestionWithinLimits(q: BodyQuestion) {
    && !TooLong(q.text, MAX_TEXT_LENGTH)
    && (q.options.Some? ==>
          (|q.options.value| <= MAX_OPTIONS
           && forall j :: 0 <= j < |q.options.value| ==> !TooLong(q.options.value[j].text, MAX_TEXT_LENGTH)))
  }

  /** The outer loop over the questions: the first failing question decides. */
  function FirstQuestionSizeError(qs: seq<BodyQuestion>): (r: Option<SizeError>)
  {
    if qs == [] then None
    else if QuestionSizeError(qs[0]).Some? then QuestionSizeError(qs[0])
    else FirstQuestionSizeError(qs[1..])
  }

  /** dataSizeLimiter: None means next() is called, Some(code) the 400 response sent. */
  function DataSizeLimiter(body: Option<Body>): (r: Option<SizeError>)
    ensures r.None? <==> body.None? || WithinLimits(body.value)
  {
    match body
    case None => None
    case Some(b) =>
      FirstQuestionSizeErrorNone(if b.questions.Some? then b.questions.value else []);
      if TooLong(b.title, MAX_TITLE_LENGTH) then Some(TitleTooLong)
      else if TooLong(b.description, MAX_TEXT_LENGTH) then Some(DescriptionTooLong)
      else if b.questions.Some? && |b.questions.value| > MAX_QUESTIONS then Some(TooManyQuestions)
      else if b.questions.Some? && FirstQuestionSizeError(b.questions.value).Some? then FirstQuestionSizeError(b.questions.value)
      else if TooLong(b.playerName, MAX_PLAYER_NAME_LENGTH) then Some(PlayerNameTooLong)
      else None
  }

  lemma QuestionSizeErrorNone(q: BodyQuestion)
    ensures QuestionSizeError(q).None? <==> QuestionWithinLimits(q)
  {
  }

  lemma {:induction false} FirstQuestionSizeErrorNone(qs: seq<BodyQuestion>)
    ensures FirstQuestionSizeError(qs).None? <==> forall i :: 0 <= i < |qs| ==> QuestionWithinLimits(qs[i])
  {
    if qs != [] {
      QuestionSizeErrorNone(qs[0]);
      FirstQuestionSizeErrorNone(qs[1..]);
      assert forall i :: 1 <= i < |qs| ==> qs[i] == qs[1..][i - 1];
    }
  }

  /** The question loop reports the error of question i when every earlier question passes. */
  lemma {:induction false} FirstQuestionSizeErrorAt(qs: seq<BodyQuestion>, i: nat)
    requires i < |qs| && QuestionSizeError(qs[i]).Some?
    requires forall k :: 0 <= k < i ==> QuestionWithinLimits(qs[k])
    ensures FirstQuestionSizeError(qs) == QuestionSizeError(qs[i])
  {
    QuestionSizeErrorNone(qs[0]);
    if i > 0 {
      forall k | 0 <= k < i - 1 ensures QuestionWithinLimits(qs[1..][k]) {
        assert qs[1..][k] == qs[k + 1];
      }
      FirstQuestionSizeErrorAt(qs[1..], i - 1);
    }
  }

  /** A body whose every field is within its limit, lengths equal to a limit included. */
  predicate WithinLimits(b: Body) {
    && !TooLong(b.title, MAX_TITLE_LENGTH)
    && !TooLong(b.description, MAX_TEXT_LENGTH)
    && (b.questions.Some? ==>
          (|b.questions.value| <= MAX_QUESTIONS
           && forall i :: 0 <= i < |b.questions.value| ==> QuestionWithinLimits(b.questions.value[i])))
    && !TooLong(b.playerName, MAX_PLAYER_NAME_LENGTH)
  }

  /** Each code is sent exactly when its own check fails and every check before it passes. */
  lemma FirstFailureDecides(b: Body)
    ensures DataSizeLimiter(Some(b)) == Some(TitleTooLong) <==> TooLong(b.title, MAX_TITLE_LENGTH)
    ensures DataSizeLimiter(Some(b)) == Some(DescriptionTooLong) <==>
      !TooLong(b.title, MAX_TITLE_LENGTH) && TooLong(b.description, MAX_TEXT_LENGTH)
    ensures DataSizeLimiter(Some(b)) == Some(TooManyQuestions) <==>
      && !TooLong(b.title, MAX_TITLE_LENGTH) && !TooLong(b.description, MAX_TEXT_LENGTH)
      && b.questions.Some? && |b.questions.value| > MAX_QUESTIONS
    ensures DataSizeLimiter(Some(b)) == Some(PlayerNameTooLong) <==>
      && !TooLong(b.title, MAX_TITLE_LENGTH) && !TooLong(b.description, MAX_TEXT_LENGTH)
      && (b.questions.Some? ==>
            (|b.questions.value| <= MAX_QUESTIONS
             && forall i :: 0 <= i < |b.questions.value| ==> QuestionWithinLimits(b.questions.value[i])))
      && TooLong(b.playerName, MAX_PLAYER_NAME_LENGTH)
  {
    if b.questions.Some? {
      FirstQuestionSizeErrorNone(b.questions.value);
      QuestionErrorCodes(b.questions.value);
    }
  }

  /** The question loop only ever reports one of the three per-question codes. */
  lemma {:induction false} QuestionErrorCodes(qs: seq<BodyQuestion>)
    ensures FirstQuestionSizeError(qs) in {None, Some(QuestionTextTooLong), Some(TooManyOptions), Some(OptionTextTooLong)}
  {
    if qs != [] {
      QuestionErrorCodes(qs[1..]);
    }
  }
}
