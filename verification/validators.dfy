/** validators: the socket payload validators and the express-validator chains of quiz creation. */
module Validators {
  import opened Wrappers
  import opened JsText
  import CodeGenerator

  /** The error message each validator returns, one constructor per message. */
  datatype ValidationError =
    | CodeRequired | CodeMalformed
    | NameRequired | NameLength | NameCharacters
    | QuizIdRequired | QuizIdMalformed
    | OptionRequired | OptionMalformed
    | SocketIdRequired | SocketIdMalformed

  /** `{ valid: true }` or `{ valid: false, error }`. */
  datatype Verdict = Valid | Invalid(error: ValidationError)

  // ---------------------------------------------------------------- socketValidators

  /** The character class [23456789ABCDEFGHJKLMNPQRSTUVWXYZ] of validateGameCode's pattern. */
  predicate CodeClassChar(c: char) {
    ('2' <= c <= '9') || ('A' <= c <= 'H') || ('J' <= c <= 'N') || ('P' <= c <= 'Z')
  }

  function ValidateGameCode(code: string): (v: Verdict)
    ensures v == Invalid(CodeRequired) <==> code == ""
    ensures v.Valid? <==> |code| == 6 && forall i :: 0 <= i < 6 ==> CodeClassChar(code[i])
  {
    if code == "" then Invalid(CodeRequired)
    else if !(|code| == 6 && forall i :: 0 <= i < |code| ==> CodeClassChar(code[i])) then Invalid(CodeMalformed)
    else Valid
  }

  /** The socket validator and isValidGameCode accept exactly the same strings. */
  lemma GameCodeValidatorsAgree(code: string)
    ensures ValidateGameCode(code).Valid? <==> CodeGenerator.IsValidGameCode(code)
  {
    forall i | 0 <= i < |code|
      ensures CodeClassChar(code[i]) <==> code[i] in CodeGenerator.ALPHABET
    {
      CodeGenerator.AlphabetCharacters(code[i]);
    }
  }

  /** The character class [a-zA-Z0-9áéíóúÁÉÍÓÚñÑ\s\-_] of player names. */
  predicate NameChar(c: char) {
    ('a' <= c <= 'z') || ('A' <= c <= 'Z') || ('0' <= c <= '9')
    || c in "áéíóúÁÉÍÓÚñÑ" || IsWhitespace(c) || c == '-' || c == '_'
  }

  function ValidatePlayerName(name: string): (v: Verdict)
    ensures v == Invalid(NameRequired) <==> name == ""
    ensures v == Invalid(NameLength) <==> name != "" && !(2 <= Utf16Length(Trim(name)) <= 50)
    ensures v.Valid? ==> forall i :: 0 <= i < |Trim(name)| ==> NameChar(Trim(name)[i])
  {
    if name == "" then Invalid(NameRequired)
    else
      var trimmed := Trim(name);
      if Utf16Length(trimmed) < 2 || Utf16Length(trimmed) > 50 then Invalid(NameLength)
      else if !(forall i :: 0 <= i < |trimmed| ==> NameChar(trimmed[i])) then Invalid(NameCharacters)
      else Valid
  }

  /** A name is accepted iff, trimmed, it has 2 to 50 characters, all of them allowed; it then
      starts and ends with a non-blank character. */
  lemma PlayerNameAccepted(name: string)
    ensures ValidatePlayerName(name).Valid? <==>
      var t := Trim(name);
      2 <= |t| <= 50 && forall i :: 0 <= i < |t| ==> NameChar(t[i])
    ensures ValidatePlayerName(name).Valid? ==> !IsWhitespace(Trim(name)[0])
  {
    var t := Trim(name);
    if forall i :: 0 <= i < |t| ==> NameChar(t[i]) {
      forall i | 0 <= i < |t| ensures t[i] <= '\U{FFFF}' {
        NameCharInBasicPlane(t[i]);
      }
      assert Utf16Length(t) == |t|;
    }
  }

  /** Every allowed name character is a single UTF-16 code unit. */
  lemma NameCharInBasicPlane(c: char)
    requires NameChar(c)
    ensures c <= '\U{FFFF}'
  {
  }

  /** A blank name is refused for its length, never accepted. */
  lemma BlankNameRefused(name: string)
    requires name != "" && forall i :: 0 <= i < |name| ==> IsWhitespace(name[i])
    ensures ValidatePlayerName(name) == Invalid(NameLength)
  {
    TrimEmptyIffBlank(name);
  }

  predicate IsHex(c: char) {
    ('0' <= c <= '9') || ('a' <= c <= 'f') || ('A' <= c <= 'F')
  }

  /** /^[0-9a-f]{8}-[0-9a-f]{4}-4[0-9a-f]{3}-[89ab][0-9a-f]{3}-[0-9a-f]{12}$/i, position by position:
      dashes at 8, 13, 18 and 23, the version nibble 4 at 14 (section 4.1.3 of RFC 4122), the
      variant nibble 8, 9, a or b at 19 (section 4.1.1), hexadecimal digits elsewhere. */
  predicate UuidV4Layout(s: string) {
    && |s| == 36
    && (forall i :: 0 <= i < 36 && i in {8, 13, 18, 23} ==> s[i] == '-')
    && s[14] == '4'
    && s[19] in "89abAB"
    && (forall i :: 0 <= i < 36 && i !in {8, 13, 14, 18, 19, 23} ==> IsHex(s[i]))
  }

  function ValidateQuizId(quizId: string): (v: Verdict)
    ensures v == Invalid(QuizIdRequired) <==> quizId == ""
    ensures v.Valid? <==> UuidV4Layout(quizId)
  {
    if quizId == "" then Invalid(QuizIdRequired)
    else if !UuidV4Layout(quizId) then Invalid(QuizIdMalformed)
    else Valid
  }

  function ValidateOptionIndex(optionId: string): (v: Verdict)
    ensures v == Invalid(OptionRequired) <==> optionId == ""
    ensures v.Valid? <==> UuidV4Layout(optionId)
  {
    if optionId == "" then Invalid(OptionRequired)
    else if !UuidV4Layout(optionId) then Invalid(OptionMalformed)
    else Valid
  }

  /** isUUID() with no version: /^[0-9A-F]{8}-[0-9A-F]{4}-[0-9A-F]{4}-[0-9A-F]{4}-[0-9A-F]{12}$/i,
      any version and variant digit. */
  predicate UuidLayout(s: string) {
    && |s| == 36
    && (forall i :: 0 <= i < 36 && i in {8, 13, 18, 23} ==> s[i] == '-')
    && (forall i :: 0 <= i < 36 && i !in {8, 13, 18, 23} ==> IsHex(s[i]))
  }

  /** Every id the socket validators accept also passes isUUID(), but not conversely. */
  lemma UuidV4IsUuid(s: string)
    ensures UuidV4Layout(s) ==> UuidLayout(s)
    ensures UuidLayout("00000000-0000-0000-0000-000000000000") && !UuidV4Layout("00000000-0000-0000-0000-000000000000")
  {
    var z := "00000000-0000-0000-0000-000000000000";
    assert UuidLayout(z) by {
      forall i | 0 <= i < 36
        ensures z[i] == (if i in {8, 13, 18, 23} then '-' else '0')
      {
      }
    }
    assert z[14] == '0';
  }

  predicate AllHex(s: string) {
    forall i :: 0 <= i < |s| ==> IsHex(s[i])
  }

  /** The canonical 8-4-4-4-12 text form of a UUID from its five hexadecimal groups. */
  function FormatUuid(g1: string, g2: string, g3: string, g4: string, g5: string): string {
    g1 + "-" + g2 + "-" + g3 + "-" + g4 + "-" + g5
  }

  /** Five hexadecimal groups of lengths 8, 4, 4, 4, 12, the third opening with the version 4
      and the fourth with a variant digit, always form an accepted id. */
  lemma {:induction false} FormattedUuidAccepted(g1: string, g2: string, g3: string, g4: string, g5: string)
    requires |g1| == 8 && |g2| == 4 && |g3| == 4 && |g4| == 4 && |g5| == 12
    requires AllHex(g1) && AllHex(g2) && AllHex(g3) && AllHex(g4) && AllHex(g5)
    requires g3[0] == '4' && g4[0] in "89abAB"
    ensures ValidateQuizId(FormatUuid(g1, g2, g3, g4, g5)) == Valid
    ensures ValidateOptionIndex(FormatUuid(g1, g2, g3, g4, g5)) == Valid
  {
    var s := FormatUuid(g1, g2, g3, g4, g5);
    assert |s| == 36;
    forall i | 0 <= i < 36
      ensures s[i] == if i < 8 then g1[i] else if i == 8 then '-' else if i < 13 then g2[i - 9]
                      else if i == 13 then '-' else if i < 18 then g3[i - 14] else if i == 18 then '-'
                      else if i < 23 then g4[i - 19] else if i == 23 then '-' else g5[i - 24]
    {
    }
  }

  /** Conversely every accepted id is such a formatted UUID: its own five groups. */
  lemma {:induction false} AcceptedIdIsFormatted(s: string)
    requires ValidateQuizId(s) == Valid
    ensures s == FormatUuid(s[..8], s[9..13], s[14..18], s[19..23], s[24..])
    ensures AllHex(s[..8]) && AllHex(s[9..13]) && AllHex(s[14..18]) && AllHex(s[19..23]) && AllHex(s[24..])
    ensures s[14] == '4' && s[19] in "89abAB"
  {
    assert s[8] == '-' && s[13] == '-' && s[18] == '-' && s[23] == '-';
    var f := FormatUuid(s[..8], s[9..13], s[14..18], s[19..23], s[24..]);
    assert |f| == 36;
    forall i | 0 <= i < 36 ensures f[i] == s[i] {
    }
    forall i | 0 <= i < 8 ensures IsHex(s[..8][i]) { assert i !in {8, 13, 14, 18, 19, 23}; }
    forall i | 0 <= i < 4 ensures IsHex(s[9..13][i]) { assert 9 + i !in {8, 13, 14, 18, 19, 23}; }
    forall i | 0 <= i < 4 ensures IsHex(s[14..18][i]) {
      if i > 0 { assert 14 + i !in {8, 13, 14, 18, 19, 23}; }
    }
    forall i | 0 <= i < 4 ensures IsHex(s[19..23][i]) {
      if i > 0 { assert 19 + i !in {8, 13, 14, 18, 19, 23}; }
    }
    forall i | 0 <= i < 12 ensures IsHex(s[24..][i]) { assert 24 + i !in {8, 13, 14, 18, 19, 23}; }
  }

  function ValidateSocketId(socketId: string): (v: Verdict)
    ensures v.Valid? <==> 10 <= Utf16Length(socketId) <= 50
    ensures v == Invalid(SocketIdRequired) <==> socketId == ""
  {
    if socketId == "" then Invalid(SocketIdRequired)
    else if Utf16Length(socketId) < 10 || Utf16Length(socketId) > 50 then Invalid(SocketIdMalformed)
    else Valid
  }

  // ---------------------------------------------------------------- validateQuizCreation

  /** A request-body field that must be a string: a string, or any other JSON value (or none). */
  datatype TextField = Text(s: string) | NotText

  /** A request-body field that may be a number: absent, a number, or some other JSON value. */
  datatype NumberField = Undefined | Number(n: real) | NotNumber

  /** An option as it arrives; isCorrect is None when it is not a JSON boolean. */
  datatype RawOption = RawOption(text: TextField, isCorrect: Option<bool>)

  /** A question as it arrives; options is None when it is not an array. */
  datatype RawQuestion = RawQuestion(text: TextField, options: Option<seq<RawOption>>,
                                     timeLimit: NumberField, points: NumberField)

  /** The messages the custom questions validator throws; q and o count from 1. */
  datatype QuestionError =
    | QuestionTextRequired(q: nat)
    | QuestionTextTooLong(q: nat)
    | OptionCount(q: nat)
    | OptionTextRequired(q: nat, o: nat)
    | OptionTextTooLong(q: nat, o: nat)
    | OptionNotBoolean(q: nat, o: nat)
    | CorrectCount(q: nat, count: nat)
    | TimeLimitRange(q: nat)
    | PointsRange(q: nat)

  /** `!x || typeof x !== 'string'`. */
  predicate TextMissing(t: TextField) {
    t.NotText? || t.s == ""
  }

  /** An optional number field passes when absent or a number within [lo, hi]. */
  predicate InRangeIfPresent(f: NumberField, lo: real, hi: real) {
    f.Undefined? || (f.Number? && lo <= f.n <= hi)
  }

  /** The checks on option number o of question q, in their order. */
  function OptionError(q: nat, o: nat, opt: RawOption): (r: Option<QuestionError>)
  {
    if TextMissing(opt.text) then Some(OptionTextRequired(q, o))
    else if Utf16Length(opt.text.s) > 500 then Some(OptionTextTooLong(q, o))
    else if opt.isCorrect.None? then Some(OptionNotBoolean(q, o))
    else None
  }

  predicate WellFormedOption(opt: RawOption) {
    opt.text.Text? && opt.text.s != "" && Utf16Length(opt.text.s) <= 500 && opt.isCorrect.Some?
  }

  /** The first failing option from position `from` (0-based) on. */
  function FirstOptionError(q: nat, opts: seq<RawOption>, from: nat): (r: Option<QuestionError>)
    decreases |opts|
  {
    if opts == [] then None
    else
      var e := OptionError(q, from + 1, opts[0]);
      if e.Some? then e else FirstOptionError(q, opts[1..], from + 1)
  }

  lemma {:induction false} FirstOptionErrorNone(q: nat, opts: seq<RawOption>, from: nat)
    ensures FirstOptionError(q, opts, from) == None <==> forall j :: 0 <= j < |opts| ==> WellFormedOption(opts[j])
    decreases |opts|
  {
    if opts != [] {
      FirstOptionErrorNone(q, opts[1..], from + 1);
      assert forall j :: 1 <= j < |opts| ==> opts[j] == opts[1..][j - 1];
    }
  }

  /** `q.options.filter(opt => opt.isCorrect).length`. */
  function CountCorrect(opts: seq<RawOption>): (n: nat)
    ensures n <= |opts|
  {
    if opts == [] then 0 else (if opts[0].isCorrect == Some(true) then 1 else 0) + CountCorrect(opts[1..])
  }

  /** Exactly one option is marked correct, the others are false. */
  predicate UniqueCorrect(opts: seq<RawOption>)
    requires forall j :: 0 <= j < |opts| ==> opts[j].isCorrect.Some?
  {
    exists k :: 0 <= k < |opts| && opts[k].isCorrect == Some(true)
      && forall j :: 0 <= j < |opts| && j != k ==> opts[j].isCorrect == Some(false)
  }

  lemma {:induction false} CountCorrectZero(opts: seq<RawOption>)
    requires forall j :: 0 <= j < |opts| ==> opts[j].isCorrect.Some?
    ensures CountCorrect(opts) == 0 <==> forall j :: 0 <= j < |opts| ==> opts[j].isCorrect == Some(false)
  {
    if opts != [] {
      var tail := opts[1..];
      CountCorrectZero(tail);
      if CountCorrect(opts) == 0 {
        assert CountCorrect(tail) == 0 && opts[0].isCorrect != Some(true);
        forall j | 0 <= j < |opts| ensures opts[j].isCorrect == Some(false) {
          if j > 0 {
            assert opts[j] == tail[j - 1];
            assert tail[j - 1].isCorrect == Some(false);
          } else {
            assert opts[0].isCorrect.Some?;
            assert opts[0].isCorrect.value == false;
          }
        }
      }
      if forall j :: 0 <= j < |opts| ==> opts[j].isCorrect == Some(false) {
        forall j | 0 <= j < |tail| ensures tail[j].isCorrect == Some(false) {
          assert tail[j] == opts[j + 1];
        }
      }
    }
  }

  /** Counting one correct option is the same as having a unique correct option. */
  lemma {:induction false} CountCorrectOne(opts: seq<RawOption>)
    requires forall j :: 0 <= j < |opts| ==> opts[j].isCorrect.Some?
    ensures CountCorrect(opts) == 1 <==> UniqueCorrect(opts)
  {
    if opts != [] {
      var tail := opts[1..];
      assert forall j :: 1 <= j < |opts| ==> opts[j] == tail[j - 1];
      CountCorrectOne(tail);
      CountCorrectZero(tail);
      if CountCorrect(opts) == 1 {
        if opts[0].isCorrect == Some(true) {
          assert forall j :: 0 <= j < |opts| && j != 0 ==> opts[j].isCorrect == Some(false);
        } else {
          var k :| 0 <= k < |tail| && tail[k].isCorrect == Some(true)
            && forall j :: 0 <= j < |tail| && j != k ==> tail[j].isCorrect == Some(false);
          forall j | 0 <= j < |opts| && j != k + 1 ensures opts[j].isCorrect == Some(false) {
            if j > 0 {
              assert opts[j] == tail[j - 1];
              assert tail[j - 1].isCorrect == Some(false);
            } else {
              assert opts[0].isCorrect.Some?;
              assert opts[0].isCorrect.value == false;
            }
          }
          assert opts[k + 1] == tail[k];
        }
      }
      if UniqueCorrect(opts) {
        var k :| 0 <= k < |opts| && opts[k].isCorrect == Some(true)
          && forall j :: 0 <= j < |opts| && j != k ==> opts[j].isCorrect == Some(false);
        if k == 0 {
          assert forall j :: 0 <= j < |tail| ==> tail[j].isCorrect == Some(false);
        } else {
          assert forall j :: 0 <= j < |tail| && j != k - 1 ==> tail[j].isCorrect == Some(false);
          assert UniqueCorrect(tail);
        }
      }
    }
  }

  /** The checks on question number q (1-based), in the order the validator makes them. */
  function QuestionErrorOf(q: nat, rq: RawQuestion): (r: Option<QuestionError>)
  {
    if TextMissing(rq.text) then Some(QuestionTextRequired(q))
    else if Utf16Length(rq.text.s) > 1000 then Some(QuestionTextTooLong(q))
    else if rq.options.None? || |rq.options.value| != 4 then Some(OptionCount(q))
    else if FirstOptionError(q, rq.options.value, 0).Some? then FirstOptionError(q, rq.options.value, 0)
    else if CountCorrect(rq.options.value) != 1 then Some(CorrectCount(q, CountCorrect(rq.options.value)))
    else if !InRangeIfPresent(rq.timeLimit, 5000.0, 120000.0) then Some(TimeLimitRange(q))
    else if !InRangeIfPresent(rq.points, 100.0, 10000.0) then Some(PointsRange(q))
    else None
  }

  /** What a question must be for the validator to let it through. */
  predicate WellFormedQuestion(rq: RawQuestion) {
    && rq.text.Text? && rq.text.s != "" && Utf16Length(rq.text.s) <= 1000
    && rq.options.Some? && |rq.options.value| == 4
    && (forall j :: 0 <= j < 4 ==> WellFormedOption(rq.options.value[j]))
    && UniqueCorrect(rq.options.value)
    && InRangeIfPresent(rq.timeLimit, 5000.0, 120000.0)
    && InRangeIfPresent(rq.points, 100.0, 10000.0)
  }

  /** A question raises no error iff it is well formed. */
  lemma QuestionAcceptedIffWellFormed(q: nat, rq: RawQuestion)
    ensures QuestionErrorOf(q, rq) == None <==> WellFormedQuestion(rq)
  {
    if rq.options.Some? && |rq.options.value| == 4 {
      FirstOptionErrorNone(q, rq.options.value, 0);
      if forall j :: 0 <= j < 4 ==> WellFormedOption(rq.options.value[j]) {
        CountCorrectOne(rq.options.value);
      }
    }
  }

  /** The loop over the questions: the first question with an error decides it; `from` counts
      the questions already passed. */
  function FirstQuestionError(qs: seq<RawQuestion>, from: nat): (r: Option<QuestionError>)
    decreases |qs|
  {
    if qs == [] then None
    else
      var e := QuestionErrorOf(from + 1, qs[0]);
      if e.Some? then e else FirstQuestionError(qs[1..], from + 1)
  }

  /** The questions validator passes iff every question is well formed. */
  lemma {:induction false} QuestionsAcceptedIffWellFormed(qs: seq<RawQuestion>, from: nat)
    ensures FirstQuestionError(qs, from) == None <==> forall i :: 0 <= i < |qs| ==> WellFormedQuestion(qs[i])
    decreases |qs|
  {
    if qs != [] {
      QuestionAcceptedIffWellFormed(from + 1, qs[0]);
      QuestionsAcceptedIffWellFormed(qs[1..], from + 1);
      assert forall i :: 1 <= i < |qs| ==> qs[i] == qs[1..][i - 1];
    }
  }

  /** An error names question number from+i+1 whose own first error it is, and every
      earlier question is well formed. */
  lemma QuestionErrorLocated(qs: seq<RawQuestion>, from: nat)
    requires FirstQuestionError(qs, from).Some?
    ensures exists i :: (0 <= i < |qs|
      && QuestionErrorOf(from + i + 1, qs[i]) == FirstQuestionError(qs, from)
      && (forall j :: 0 <= j < i ==> WellFormedQuestion(qs[j])))
  {
    var i := FirstQuestionErrorIndex(qs, from);
  }

  /** The position of the question the first error belongs to. */
  lemma {:induction false} FirstQuestionErrorIndex(qs: seq<RawQuestion>, from: nat) returns (i: nat)
    requires FirstQuestionError(qs, from).Some?
    ensures i < |qs| && QuestionErrorOf(from + i + 1, qs[i]) == FirstQuestionError(qs, from)
    ensures forall j :: 0 <= j < i ==> WellFormedQuestion(qs[j])
    decreases |qs|
  {
    if QuestionErrorOf(from + 1, qs[0]).Some? {
      i := 0;
    } else {
      var tail := qs[1..];
      QuestionAcceptedIffWellFormed(from + 1, qs[0]);
      var k := FirstQuestionErrorIndex(tail, from + 1);
      i := k + 1;
      assert qs[i] == tail[k];
      forall j | 0 <= j < i ensures WellFormedQuestion(qs[j]) {
        if j > 0 { assert qs[j] == tail[j - 1]; }
      }
    }
  }

  /** One entry of the validation error list, in the order the chains run. */
  datatype QuizError =
    | TitleRequired | TitleLength | TitleCharacters
    | DescriptionTooLong
    | IsPublicNotBoolean
    | CreatorIdRequired | CreatorIdNotUuid
    | QuestionCount
    | QuestionsNotArray
    | InvalidQuestion(e: QuestionError)

  /** The character class [a-zA-Z0-9áéíóúÁÉÍÓÚñÑ\s\-_.,!?()] of titles. */
  predicate TitleChar(c: char) {
    ('a' <= c <= 'z') || ('A' <= c <= 'Z') || ('0' <= c <= '9')
    || c in "áéíóúÁÉÍÓÚñÑ" || IsWhitespace(c) || c in "-_.,!?()"
  }

  /** U+FE0E and U+FE0F, the text and emoji presentation selectors. */
  predicate PresentationSelector(c: char) {
    c == '\U{FE0E}' || c == '\U{FE0F}'
  }

  /** The length isLength measures: String.length less one per surrogate pair and one per
      presentation selector, so each character counts once and a selector not at all. */
  function IsLengthCount(s: string): (n: nat)
    ensures n <= |s|
    ensures n == |s| <==> forall i :: 0 <= i < |s| ==> !PresentationSelector(s[i])
  {
    if s == [] then 0
    else
      var init := s[..|s| - 1];
      assert forall i :: 0 <= i < |init| ==> init[i] == s[i];
      IsLengthCount(init) + (if PresentationSelector(s[|s| - 1]) then 0 else 1)
  }

  /** The count adds up over concatenation. */
  lemma {:induction false} IsLengthCountConcat(a: string, b: string)
    ensures IsLengthCount(a + b) == IsLengthCount(a) + IsLengthCount(b)
    decreases |b|
  {
    if b == [] {
      assert a + b == a;
    } else {
      IsLengthCountConcat(a, b[..|b| - 1]);
      assert (a + b)[..|a + b| - 1] == a + b[..|b| - 1];
    }
  }

  /** A presentation selector adds nothing to the count, wherever it stands. */
  lemma SelectorNotCounted(a: string, c: char, b: string)
    requires PresentationSelector(c)
    ensures IsLengthCount(a + [c] + b) == IsLengthCount(a + b)
  {
    IsLengthCountConcat(a + [c], b);
    IsLengthCountConcat(a, [c]);
    IsLengthCountConcat(a, b);
    assert [c][..0] == [];
  }

  /** The title chain: trim, then notEmpty, isLength 3..200 and matches, each reporting on its own. */
  function TitleErrors(title: string): (errs: seq<QuizError>)
    ensures errs == [] <==> 3 <= |Trim(title)| <= 200 && forall i :: 0 <= i < |Trim(title)| ==> TitleChar(Trim(title)[i])
    ensures TitleLength in errs <==> !(3 <= IsLengthCount(Trim(title)) <= 200)
  {
    var t := Trim(title);
    var allowed := forall i :: 0 <= i < |t| ==> TitleChar(t[i]);
    if allowed then TitleCountsEveryChar(t); TitleChainErrors(t, allowed)
    else TitleChainErrors(t, allowed)
  }

  /** An allowed title holds no presentation selector, so isLength counts every character. */
  lemma TitleCountsEveryChar(t: string)
    requires forall i :: 0 <= i < |t| ==> TitleChar(t[i])
    ensures IsLengthCount(t) == |t|
  {
    assert forall i :: 0 <= i < |t| ==> !PresentationSelector(t[i]);
  }

  /** The three title errors of the trimmed title `t`, `allowed` being the matches test. */
  function TitleChainErrors(t: string, allowed: bool): seq<QuizError> {
    (if t == "" then [TitleRequired] else [])
    + (if IsLengthCount(t) < 3 || IsLengthCount(t) > 200 then [TitleLength] else [])
    + (if t == "" || !allowed then [TitleCharacters] else [])
  }

  /** The optional description chain: trim, then isLength at most 1000. */
  function DescriptionErrors(description: Option<string>): (errs: seq<QuizError>)
    ensures errs == [] <==> (description.Some? ==> IsLengthCount(Trim(description.value)) <= 1000)
    ensures description.Some? && |Trim(description.value)| <= 1000 ==> errs == []
  {
    if description.Some? && IsLengthCount(Trim(description.value)) > 1000 then [DescriptionTooLong] else []
  }

  /** A scalar body field as the standard validators see it: absent, or present with the string
      they check (a boolean as "true" or "false", a number in its decimal form). */
  datatype BodyValue = Absent | Present(text: string)

  /** isBoolean() without the loose option: "true", "false", "1" or "0". */
  predicate BooleanText(s: string) {
    s == "true" || s == "false" || s == "1" || s == "0"
  }

  /** The optional isPublic chain: an absent field passes, a present one must be boolean text. */
  function IsPublicErrors(isPublic: BodyValue): (errs: seq<QuizError>)
    ensures errs == [] <==> isPublic.Absent? || BooleanText(isPublic.text)
    ensures errs != [] ==> errs == [IsPublicNotBoolean]
  {
    if isPublic.Present? && !BooleanText(isPublic.text) then [IsPublicNotBoolean] else []
  }

  /** The creatorId chain: trim, then notEmpty and isUUID, each reporting on its own; an absent
      field is checked as the empty string. */
  function CreatorIdErrors(creatorId: BodyValue): (errs: seq<QuizError>)
    ensures errs == [] <==> creatorId.Present? && UuidLayout(Trim(creatorId.text))
    ensures creatorId.Absent? ==> errs == [CreatorIdRequired, CreatorIdNotUuid]
  {
    var t := Trim(if creatorId.Present? then creatorId.text else "");
    (if t == "" then [CreatorIdRequired] else []) + (if !UuidLayout(t) then [CreatorIdNotUuid] else [])
  }

  /** The questions chain: isArray with 1..50 entries, then the custom validator; a value that is
      not an array fails both (the custom validator returns false for it). */
  function QuestionsErrors(questions: Option<seq<RawQuestion>>): (errs: seq<QuizError>)
    ensures errs == [] <==>
      questions.Some? && 1 <= |questions.value| <= 50
      && forall i :: 0 <= i < |questions.value| ==> WellFormedQuestion(questions.value[i])
  {
    match questions
    case None => [QuestionCount, QuestionsNotArray]
    case Some(qs) =>
      QuestionsAcceptedIffWellFormed(qs, 0);
      (if |qs| < 1 || |qs| > 50 then [QuestionCount] else [])
      + (match FirstQuestionError(qs, 0) case Some(e) => [InvalidQuestion(e)] case None => [])
  }

  /** Five error lists join into an empty one exactly when each is empty. */
  lemma ConcatEmpty(a: seq<QuizError>, b: seq<QuizError>, c: seq<QuizError>, d: seq<QuizError>, e: seq<QuizError>)
    ensures a + b + c + d + e == [] <==> a == [] && b == [] && c == [] && d == [] && e == []
  {
    assert |a + b + c + d + e| == |a| + |b| + |c| + |d| + |e|;
  }

  /** A description of 999 letters and a red heart written U+2764 U+FE0F has 1001 characters,
      yet isLength counts 1000 and the description passes. */
  lemma HeartDescriptionAccepted(letters: string)
    requires |letters| == 999 && forall i :: 0 <= i < |letters| ==> letters[i] == 'a'
    ensures DescriptionErrors(Some(letters + "\U{2764}\U{FE0F}")) == []
  {
    var d := letters + "\U{2764}\U{FE0F}";
    assert TrimStart(d) == d;
    assert TrimEnd(d) == d;
    assert d == letters + "\U{2764}" + ['\U{FE0F}'] + [];
    SelectorNotCounted(letters + "\U{2764}", '\U{FE0F}', []);
    IsLengthCountConcat(letters, "\U{2764}");
    assert forall i :: 0 <= i < |letters| ==> !PresentationSelector(letters[i]);
  }

  /** validateQuizCreation: the error list handleValidationErrors turns into a 400 response.
      A quiz passes iff its trimmed title has 3 to 200 allowed characters, its trimmed
      description (if any) at most 1000 characters not counting presentation selectors, isPublic is absent or boolean, the trimmed creatorId
      is a UUID, and it has 1 to 50 questions, all well formed. */
  function ValidateQuizCreation(title: string, description: Option<string>, isPublic: BodyValue, creatorId: BodyValue,
                                questions: Option<seq<RawQuestion>>): (errs: seq<QuizError>)
    ensures errs == [] <==>
      && 3 <= |Trim(title)| <= 200
      && (forall i :: 0 <= i < |Trim(title)| ==> TitleChar(Trim(title)[i]))
      && (description.Some? ==> IsLengthCount(Trim(description.value)) <= 1000)
      && (isPublic.Present? ==> BooleanText(isPublic.text))
      && creatorId.Present? && UuidLayout(Trim(creatorId.text))
      && questions.Some? && 1 <= |questions.value| <= 50
      && (forall i :: 0 <= i < |questions.value| ==> WellFormedQuestion(questions.value[i]))
  {
    var a, b, c, d, e := TitleErrors(title), DescriptionErrors(description), IsPublicErrors(isPublic),
                         CreatorIdErrors(creatorId), QuestionsErrors(questions);
    ConcatEmpty(a, b, c, d, e);
    a + b + c + d + e
  }

  /** A blank title reports all three title errors, since the chain does not stop at the first. */
  lemma BlankTitleReportsThree(title: string)
    requires forall i :: 0 <= i < |title| ==> IsWhitespace(title[i])
    ensures TitleErrors(title) == [TitleRequired, TitleLength, TitleCharacters]
  {
    TrimEmptyIffBlank(title);
  }
}
