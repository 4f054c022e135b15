/**
 * The question editor of the quiz builder (frontend/components/QuestionEditor.tsx):
 * its form state, the two option handlers and the validation of handleSave.
 * Time limits are exact reals: the form holds seconds, a question milliseconds.
 */
module QuestionEditor {
  import opened Wrappers
  import opened GameTypes
  import opened JsText

  /** A question being built, before the server assigns it an id (Omit<Question, 'id'>). */
  datatype DraftQuestion = DraftQuestion(
    text: string,
    imageUrl: Option<string>,
    timeLimit: real,
    options: seq<QuestionOption>)

  /** An option row of the form: its text and its correct flag, without an id. */
  datatype OptionDraft = OptionDraft(text: string, isCorrect: bool)

  /** Why handleSave refuses, in the order it checks. */
  datatype EditorError = MissingText | OptionsIncomplete | WrongCorrectCount

  const DEFAULT_TIME_LIMIT_MS: real := 15000.0

  /** The number of options handleSave insists are filled in and the editor starts with. */
  const OPTION_COUNT: nat := 4

  // ---------------------------------------------------------------------------
  // Opening the editor
  // ---------------------------------------------------------------------------

  function OpenText(question: Option<DraftQuestion>): string {
    if question.Some? then question.value.text else ""
  }

  function OpenImageUrl(question: Option<DraftQuestion>): string {
    if question.Some? && question.value.imageUrl.Some? then question.value.imageUrl.value else ""
  }

  /** The slider value in seconds: a missing or zero time limit falls back to 15000 ms. */
  function OpenTimeLimit(question: Option<DraftQuestion>): (seconds: real)
    ensures question.None? ==> seconds == 15.0
    ensures question.Some? && question.value.timeLimit != 0.0 ==> seconds * 1000.0 == question.value.timeLimit
  {
    (if question.Some? && question.value.timeLimit != 0.0 then question.value.timeLimit else DEFAULT_TIME_LIMIT_MS) / 1000.0
  }

  /** The option rows: those of the question without their ids, else four blank incorrect rows. */
  function OpenOptions(question: Option<DraftQuestion>): (rows: seq<OptionDraft>)
    ensures question.None? ==> |rows| == OPTION_COUNT && forall i :: 0 <= i < |rows| ==> rows[i] == OptionDraft("", false)
    ensures question.Some? ==> |rows| == |question.value.options|
    ensures question.Some? ==> forall i :: 0 <= i < |rows| ==>
      rows[i].text == question.value.options[i].text && rows[i].isCorrect == question.value.options[i].isCorrect
  {
    if question.Some? then
      var opts := question.value.options;
      seq(|opts|, i requires 0 <= i < |opts| => OptionDraft(opts[i].text, opts[i].isCorrect))
    else
      var blank := OptionDraft("", false);
      [blank, blank, blank, blank]
  }

  // ---------------------------------------------------------------------------
  // Counting rows
  // ---------------------------------------------------------------------------

  predicate Filled(row: OptionDraft) {
    Trim(row.text) != []
  }

  /** options.filter(opt => opt.text.trim()).length */
  function CountFilled(rows: seq<OptionDraft>): (n: nat)
    ensures n <= |rows|
  {
    if rows == [] then 0 else (if Filled(rows[0]) then 1 else 0) + CountFilled(rows[1..])
  }

  /** options.filter(opt => opt.isCorrect).length */
  function CountCorrect(rows: seq<OptionDraft>): (n: nat)
    ensures n <= |rows|
  {
    if rows == [] then 0 else (if rows[0].isCorrect then 1 else 0) + CountCorrect(rows[1..])
  }

  function CountCorrectOptions(options: seq<QuestionOption>): nat {
    if options == [] then 0 else (if options[0].isCorrect then 1 else 0) + CountCorrectOptions(options[1..])
  }

  /** Rows none of which is filled in or marked correct count zero of each. */
  lemma {:induction false} BlankRowsCountNothing(rows: seq<OptionDraft>)
    requires forall i :: 0 <= i < |rows| ==> !Filled(rows[i]) && !rows[i].isCorrect
    ensures CountFilled(rows) == 0 && CountCorrect(rows) == 0
  {
    if rows != [] {
      assert !Filled(rows[0]) && !rows[0].isCorrect;
      BlankRowsCountNothing(rows[1..]);
    }
  }

  /**
   * A blank editor has no filled and no correct option: whatever text is typed, saving
   * before the options are filled in is refused.
   */
  lemma BlankEditorCannotSave(text: string, imageUrl: string, seconds: real)
    ensures CountFilled(OpenOptions(None)) == 0 && CountCorrect(OpenOptions(None)) == 0
    ensures Save(text, imageUrl, seconds, OpenOptions(None)).Err?
  {
    var rows := OpenOptions(None);
    forall i | 0 <= i < |rows| ensures !Filled(rows[i]) && !rows[i].isCorrect {
      assert rows[i].text == "";
    }
    BlankRowsCountNothing(rows);
  }

  // ---------------------------------------------------------------------------
  // The option handlers
  // ---------------------------------------------------------------------------

  /** handleOptionChange: the row at index gets the new text and keeps its flag. */
  function WithOptionText(rows: seq<OptionDraft>, index: nat, text: string): (rows': seq<OptionDraft>)
    requires index < |rows|
    ensures |rows'| == |rows|
    ensures rows'[index].text == text
    ensures forall i :: 0 <= i < |rows| ==> rows'[i].isCorrect == rows[i].isCorrect
    ensures forall i :: 0 <= i < |rows| && i != index ==> rows'[i] == rows[i]
  {
    rows[index := rows[index].(text := text)]
  }

  /** handleCorrectChange: the row at index, and only it, is marked correct; the texts stay. */
  function MarkCorrect(rows: seq<OptionDraft>, index: int): (rows': seq<OptionDraft>)
    ensures |rows'| == |rows|
    ensures forall i :: 0 <= i < |rows| ==> rows'[i].text == rows[i].text && (rows'[i].isCorrect <==> i == index)
  {
    seq(|rows|, i requires 0 <= i < |rows| => rows[i].(isCorrect := i == index))
  }

  /** Rows with the same correct flags have the same correct count. */
  lemma {:induction false} SameFlagsSameCount(a: seq<OptionDraft>, b: seq<OptionDraft>)
    requires |a| == |b|
    requires forall i :: 0 <= i < |a| ==> a[i].isCorrect == b[i].isCorrect
    ensures CountCorrect(a) == CountCorrect(b)
  {
    if a != [] {
      SameFlagsSameCount(a[1..], b[1..]);
    }
  }

  /** Rows with the same texts have the same filled count. */
  lemma {:induction false} SameTextsSameFilled(a: seq<OptionDraft>, b: seq<OptionDraft>)
    requires |a| == |b|
    requires forall i :: 0 <= i < |a| ==> a[i].text == b[i].text
    ensures CountFilled(a) == CountFilled(b)
  {
    if a != [] {
      SameTextsSameFilled(a[1..], b[1..]);
    }
  }

  /** Editing an option's text never changes how many options are marked correct. */
  lemma OptionTextKeepsCorrectCount(rows: seq<OptionDraft>, index: nat, text: string)
    requires index < |rows|
    ensures CountCorrect(WithOptionText(rows, index, text)) == CountCorrect(rows)
  {
    SameFlagsSameCount(WithOptionText(rows, index, text), rows);
  }

  /** The correct count of rows whose only correct row, if any, is at index. */
  lemma {:induction false} CountCorrectAt(rows: seq<OptionDraft>, index: int)
    requires forall i :: 0 <= i < |rows| ==> (rows[i].isCorrect <==> i == index)
    ensures CountCorrect(rows) == if 0 <= index < |rows| then 1 else 0
  {
    if rows != [] {
      var tail := rows[1..];
      assert forall i :: 0 <= i < |tail| ==> (tail[i].isCorrect <==> i == index - 1) by {
        forall i | 0 <= i < |tail| ensures tail[i].isCorrect <==> i == index - 1 {
          assert tail[i] == rows[i + 1];
        }
      }
      CountCorrectAt(tail, index - 1);
    }
  }

  /**
   * Clicking the correct marker of a row leaves exactly one correct option, so the
   * editor's last check then passes; an index outside the rows leaves none.
   */
  lemma MarkCorrectLeavesOne(rows: seq<OptionDraft>, index: int)
    ensures CountCorrect(MarkCorrect(rows, index)) == if 0 <= index < |rows| then 1 else 0
    ensures CountFilled(MarkCorrect(rows, index)) == CountFilled(rows)
  {
    CountCorrectAt(MarkCorrect(rows, index), index);
    SameTextsSameFilled(MarkCorrect(rows, index), rows);
  }

  // ---------------------------------------------------------------------------
  // Saving
  // ---------------------------------------------------------------------------

  /** The id handleSave gives the option at index: `temp_${index}`. */
  function TempId(index: nat): string {
    "temp_" + DecimalString(index)
  }

  /** Two positions never share a temporary id. */
  lemma TempIdsDistinct(i: nat, j: nat)
    requires i != j
    ensures TempId(i) != TempId(j)
  {
    DecimalStringInjective(i, j);
    assert TempId(i)[5..] == DecimalString(i);
    assert TempId(j)[5..] == DecimalString(j);
  }

  /** The options handleSave emits: the rows with trimmed texts and temporary ids. */
  function SavedOptions(rows: seq<OptionDraft>): (options: seq<QuestionOption>)
    ensures |options| == |rows|
    ensures forall i :: 0 <= i < |rows| ==>
      options[i] == QuestionOption(TempId(i), Trim(rows[i].text), rows[i].isCorrect)
  {
    seq(|rows|, i requires 0 <= i < |rows| => QuestionOption(TempId(i), Trim(rows[i].text), rows[i].isCorrect))
  }

  /**
   * handleSave: the trimmed text must be non-blank, exactly four rows must be filled
   * in and exactly one row marked correct; the question then carries the trimmed
   * text, the trimmed image URL (absent when blank) and the time limit in milliseconds.
   */
  function Save(text: string, imageUrl: string, seconds: real, rows: seq<OptionDraft>): (r: Result<DraftQuestion, EditorError>)
    ensures r.Ok? <==> Trim(text) != [] && CountFilled(rows) == OPTION_COUNT && CountCorrect(rows) == 1
    ensures r == Err(MissingText) <==> Trim(text) == []
    ensures r == Err(OptionsIncomplete) <==> Trim(text) != [] && CountFilled(rows) != OPTION_COUNT
    ensures r.Ok? ==> r.value.text == Trim(text) && r.value.timeLimit == seconds * 1000.0
    ensures r.Ok? ==> (r.value.imageUrl.None? <==> Trim(imageUrl) == [])
    ensures r.Ok? && r.value.imageUrl.Some? ==> r.value.imageUrl.value == Trim(imageUrl)
    ensures r.Ok? ==> r.value.options == SavedOptions(rows) && CountCorrectOptions(r.value.options) == 1
  {
    if Trim(text) == [] then Err(MissingText)
    else if CountFilled(rows) != OPTION_COUNT then Err(OptionsIncomplete)
    else if CountCorrect(rows) != 1 then Err(WrongCorrectCount)
    else
      SavedKeepsCorrect(rows);
      Ok(DraftQuestion(
        Trim(text),
        if Trim(imageUrl) == [] then None else Some(Trim(imageUrl)),
        seconds * 1000.0,
        SavedOptions(rows)))
  }

  lemma {:induction false} SavedKeepsCorrect(rows: seq<OptionDraft>)
    ensures CountCorrectOptions(SavedOptions(rows)) == CountCorrect(rows)
  {
    if rows != [] {
      SavedKeepsCorrect(rows[1..]);
      var tail := SavedOptions(rows)[1..];
      forall i | 0 <= i < |tail| ensures tail[i].isCorrect == SavedOptions(rows[1..])[i].isCorrect {
        assert tail[i] == SavedOptions(rows)[i + 1];
      }
      FlagsDecideCount(tail, SavedOptions(rows[1..]));
    }
  }

  lemma {:induction false} FlagsDecideCount(a: seq<QuestionOption>, b: seq<QuestionOption>)
    requires |a| == |b|
    requires forall i :: 0 <= i < |a| ==> a[i].isCorrect == b[i].isCorrect
    ensures CountCorrectOptions(a) == CountCorrectOptions(b)
  {
    if a != [] {
      FlagsDecideCount(a[1..], b[1..]);
    }
  }

  /** Every row filled in: the filled count is the number of rows. */
  lemma {:induction false} AllFilled(rows: seq<OptionDraft>)
    requires forall i :: 0 <= i < |rows| ==> Filled(rows[i])
    ensures CountFilled(rows) == |rows|
  {
    if rows != [] {
      assert Filled(rows[0]);
      AllFilled(rows[1..]);
    }
  }

  /**
   * What handleSave can produce and the editor reopens unchanged: trimmed non-blank
   * texts, four options with one correct, temporary ids and a non-zero time limit.
   */
  predicate Saveable(q: DraftQuestion) {
    && Trim(q.text) == q.text != []
    && (q.imageUrl.Some? ==> Trim(q.imageUrl.value) == q.imageUrl.value != [])
    && q.timeLimit != 0.0
    && |q.options| == OPTION_COUNT
    && (forall i :: 0 <= i < |q.options| ==> Trim(q.options[i].text) == q.options[i].text != [])
    && (forall i :: 0 <= i < |q.options| ==> q.options[i].id == TempId(i))
    && CountCorrectOptions(q.options) == 1
  }

  /** The saved options of filled rows have trimmed non-blank texts and temporary ids. */
  lemma SavedOptionsTrimmed(rows: seq<OptionDraft>)
    requires forall i :: 0 <= i < |rows| ==> Filled(rows[i])
    ensures forall i :: 0 <= i < |rows| ==>
      Trim(SavedOptions(rows)[i].text) == SavedOptions(rows)[i].text != [] && SavedOptions(rows)[i].id == TempId(i)
  {
    forall i | 0 <= i < |rows|
      ensures Trim(SavedOptions(rows)[i].text) == SavedOptions(rows)[i].text != []
    {
      TrimIdempotent(rows[i].text);
    }
  }

  /** Every question handleSave accepts from filled rows and a non-zero time is Saveable. */
  lemma SaveGivesSaveable(text: string, imageUrl: string, seconds: real, rows: seq<OptionDraft>)
    requires seconds != 0.0
    requires forall i :: 0 <= i < |rows| ==> Filled(rows[i])
    requires Save(text, imageUrl, seconds, rows).Ok?
    ensures Saveable(Save(text, imageUrl, seconds, rows).value)
  {
    var q := Save(text, imageUrl, seconds, rows).value;
    assert Trim(q.text) == q.text != [] by {
      TrimIdempotent(text);
    }
    assert q.imageUrl.Some? ==> Trim(q.imageUrl.value) == q.imageUrl.value != [] by {
      TrimIdempotent(imageUrl);
    }
    assert |q.options| == OPTION_COUNT by {
      AllFilled(rows);
    }
    assert forall i :: 0 <= i < |q.options| ==> Trim(q.options[i].text) == q.options[i].text != [] && q.options[i].id == TempId(i) by {
      SavedOptionsTrimmed(rows);
    }
  }

  /** Opening a saveable question in the editor and saving it again gives back the same question. */
  lemma SaveAfterOpen(q: DraftQuestion)
    requires Saveable(q)
    ensures Save(OpenText(Some(q)), OpenImageUrl(Some(q)), OpenTimeLimit(Some(q)), OpenOptions(Some(q))) == Ok(q)
  {
    var rows := OpenOptions(Some(q));
    assert CountFilled(rows) == OPTION_COUNT by {
      AllFilled(rows);
    }
    assert SavedOptions(rows) == q.options;
    assert CountCorrect(rows) == 1 by {
      SavedKeepsCorrect(rows);
    }
    var r := Save(OpenText(Some(q)), OpenImageUrl(Some(q)), OpenTimeLimit(Some(q)), rows);
    assert r.Ok?;
    assert r.value.imageUrl == q.imageUrl;
    assert r.value.timeLimit == q.timeLimit;
  }

  // ---------------------------------------------------------------------------
  // The component
  // ---------------------------------------------------------------------------

  /** The editor's form state; the slider holds seconds. */
  class Editor {
    var questionText: string
    var imageUrl: string
    var timeLimit: real
    var options: seq<OptionDraft>

    /** The form opened on an existing question, or blank. */
    constructor (question: Option<DraftQuestion>)
      ensures questionText == OpenText(question) && imageUrl == OpenImageUrl(question)
      ensures timeLimit == OpenTimeLimit(question) && options == OpenOptions(question)
    {
      questionText := OpenText(question);
      imageUrl := OpenImageUrl(question);
      timeLimit := OpenTimeLimit(question);
      options := OpenOptions(question);
    }

    method HandleOptionChange(index: nat, text: string)
      requires index < |options|
      modifies this
      ensures options == WithOptionText(old(options), index, text)
      ensures questionText == old(questionText) && imageUrl == old(imageUrl) && timeLimit == old(timeLimit)
    {
      options := WithOptionText(options, index, text);
    }

    method HandleCorrectChange(index: int)
      modifies this
      ensures options == MarkCorrect(old(options), index)
      ensures questionText == old(questionText) && imageUrl == old(imageUrl) && timeLimit == old(timeLimit)
    {
      options := MarkCorrect(options, index);
    }

    /** handleSave: the question passed to onSave, or the alert shown instead. */
    method HandleSave() returns (r: Result<DraftQuestion, EditorError>)
      ensures r.Ok? <==> Trim(questionText) != [] && CountFilled(options) == OPTION_COUNT && CountCorrect(options) == 1
      ensures r == Save(questionText, imageUrl, timeLimit, options)
    {
      r := Save(questionText, imageUrl, timeLimit, options);
    }
  }
}
