/** The create-survey form: the draft questions the page holds, its editing
    handlers, and the submit handler that checks the draft and encodes it into
    the three parallel arrays `createSurvey` takes. */
module CreateForm {
  import opened Common
  import opened Ledger

  /** One draft question as the form edits it. */
  datatype Question = Question(
    text: string,
    kind: QuestionType,
    options: seq<string>,
    ratingMax: Option<int>,
    numericMin: Option<int>,
    numericMax: Option<int>)

  /** What "Add Question" appends and what the form starts with: a SingleChoice
      question with no text and two empty options. */
  const BlankQuestion: Question := Question("", SingleChoice, ["", ""], None, None, None)

  /** A field of a question and the value `updateQuestion` writes into it. */
  datatype QuestionField =
    | SetText(text: string)
    | SetKind(kind: QuestionType)
    | SetOptions(options: seq<string>)
    | SetRatingMax(ratingMax: Option<int>)
    | SetNumericMin(numericMin: Option<int>)
    | SetNumericMax(numericMax: Option<int>)

  /** `{ ...q, [field]: value }`: `q` with one field replaced. */
  function WithField(q: Question, f: QuestionField): (r: Question)
    ensures r.text == if f.SetText? then f.text else q.text
    ensures r.kind == if f.SetKind? then f.kind else q.kind
    ensures r.options == if f.SetOptions? then f.options else q.options
    ensures r.ratingMax == if f.SetRatingMax? then f.ratingMax else q.ratingMax
    ensures r.numericMin == if f.SetNumericMin? then f.numericMin else q.numericMin
    ensures r.numericMax == if f.SetNumericMax? then f.numericMax else q.numericMax
  {
    match f
    case SetText(t) => q.(text := t)
    case SetKind(k) => q.(kind := k)
    case SetOptions(o) => q.(options := o)
    case SetRatingMax(m) => q.(ratingMax := m)
    case SetNumericMin(m) => q.(numericMin := m)
    case SetNumericMax(m) => q.(numericMax := m)
  }

  /** `s.filter((_, i) => i !== index)`: `s` without the element at `index`, or
      `s` itself when `index` names no element. */
  function DropIndex<T>(s: seq<T>, index: int): (r: seq<T>)
    ensures 0 <= index < |s| ==> r == s[..index] + s[index + 1..]
    ensures !(0 <= index < |s|) ==> r == s
    decreases |s|
  {
    if |s| == 0 then []
    else if index == |s| - 1 then DropIndex(s[..|s| - 1], index)
    else DropIndex(s[..|s| - 1], index) + [s[|s| - 1]]
  }

  // ---------------------------------------------------------------------------
  // Encoding a draft into the contract's arguments

  predicate IsChoice(kind: QuestionType) {
    kind == SingleChoice || kind == MultipleChoice
  }

  /** `options.filter((opt) => opt.trim())`: the options that are not blank, in order. */
  function FilledOptions(options: seq<string>): (r: seq<string>)
    ensures |r| <= |options|
    ensures forall x {:trigger multiset(r)[x]} :: multiset(r)[x] == if IsBlank(x) then 0 else multiset(options)[x]
    decreases |options|
  {
    if |options| == 0 then []
    else
      var prefix := options[..|options| - 1];
      var last := options[|options| - 1];
      assert options == prefix + [last];
      var rest := FilledOptions(prefix);
      TrimEmptyIffBlank(last);
      FilterStepCounts(prefix, last, rest);
      if Trim(last) != "" then rest + [last] else rest
  }

  /** One more option keeps the filter's counts right: a filled one is counted
      once more, a blank one not at all. */
  lemma FilterStepCounts(prefix: seq<string>, last: string, kept: seq<string>)
    requires forall x :: multiset(kept)[x] == if IsBlank(x) then 0 else multiset(prefix)[x]
    ensures forall x :: multiset(if IsBlank(last) then kept else kept + [last])[x]
                        == if IsBlank(x) then 0 else multiset(prefix + [last])[x]
  {
    forall x
      ensures multiset(if IsBlank(last) then kept else kept + [last])[x]
              == if IsBlank(x) then 0 else multiset(prefix + [last])[x]
    {
      assert multiset(prefix + [last])[x] == multiset(prefix)[x] + multiset([last])[x];
      assert multiset(kept + [last])[x] == multiset(kept)[x] + multiset([last])[x];
    }
  }

  /** The type code sent for a question type. */
  function TypeCode(kind: QuestionType): (code: nat)
    ensures code <= 3
    ensures KindOfCode(code) == Some(kind)
  {
    match kind
    case SingleChoice => 0
    case MultipleChoice => 1
    case Rating => 2
    case NumericInput => 3
  }

  /** The option count sent for a question: the filled options of a choice
      question, `ratingMax || 5` for a rating, and 2 for a numeric input. */
  function OptionCount(q: Question): (n: int)
    ensures IsChoice(q.kind) ==> n == |FilledOptions(q.options)|
    ensures q.kind == Rating && (q.ratingMax == None || q.ratingMax == Some(0)) ==> n == 5
    ensures q.kind == Rating && q.ratingMax.Some? && q.ratingMax.value != 0 ==> n == q.ratingMax.value
    ensures q.kind == NumericInput ==> n == 2
  {
    match q.kind
    case SingleChoice => |FilledOptions(q.options)|
    case MultipleChoice => |FilledOptions(q.options)|
    case Rating => if q.ratingMax == None || q.ratingMax == Some(0) then 5 else q.ratingMax.value
    case NumericInput => 2
  }

  /** The arguments handed to `createSurvey`. */
  datatype Payload = Payload(
    title: string,
    description: string,
    questions: seq<string>,
    questionTypes: seq<nat>,
    optionCounts: seq<int>)

  /** Maps every draft question to its text, its type code and its option count. */
  function Encode(title: string, description: string, qs: seq<Question>): (p: Payload)
    ensures p.title == title && p.description == description
    ensures |p.questions| == |p.questionTypes| == |p.optionCounts| == |qs|
    ensures forall i :: 0 <= i < |qs| ==>
              && p.questions[i] == qs[i].text
              && KindOfCode(p.questionTypes[i]) == Some(qs[i].kind)
              && p.optionCounts[i] == OptionCount(qs[i])
  {
    Payload(title, description,
            seq(|qs|, i requires 0 <= i < |qs| => qs[i].text),
            seq(|qs|, i requires 0 <= i < |qs| => TypeCode(qs[i].kind)),
            seq(|qs|, i requires 0 <= i < |qs| => OptionCount(qs[i])))
  }

  // ---------------------------------------------------------------------------
  // Submit-time checks

  /** A question the submit handler lets through: it has text, and a choice
      question has at least two filled options. */
  predicate QuestionReady(q: Question) {
    !IsBlank(q.text) && (IsChoice(q.kind) ==> |FilledOptions(q.options)| >= 2)
  }

  /** The first `n` questions all pass the submit-time checks. */
  predicate ReadyUpTo(qs: seq<Question>, n: nat)
    requires n <= |qs|
  {
    forall j :: 0 <= j < n ==> QuestionReady(qs[j])
  }

  /** Why the submit handler stops; question numbers count from 1. */
  datatype FormError =
    | MissingTitle
    | NoQuestionsAdded
    | QuestionTextMissing(number: nat)
    | TooFewOptions(number: nat)

  /** The alert the page shows for each error. */
  function AlertText(e: FormError): (r: string)
    ensures e.MissingTitle? ==> r == "Please enter a survey title"
    ensures e.NoQuestionsAdded? ==> r == "Please add at least one question"
    ensures e.QuestionTextMissing? ==>
              && |r| > 9 + 17 && r[..9] == "Question " && ParseDecimal(r[9..|r| - 17]) == Some(e.number as int)
              && r[|r| - 17..] == " text is required"
    ensures e.TooFewOptions? ==>
              && |r| > 9 + 29 && r[..9] == "Question " && ParseDecimal(r[9..|r| - 29]) == Some(e.number as int)
              && r[|r| - 29..] == " must have at least 2 options"
  {
    match e
    case MissingTitle => "Please enter a survey title"
    case NoQuestionsAdded => "Please add at least one question"
    case QuestionTextMissing(n) =>
      var digits := IntToDecimal(n);
      IntToDecimalRoundTrip(n);
      var r := "Question " + digits + " text is required";
      assert r[9..|r| - 17] == digits;
      assert r[|r| - 17..] == " text is required";
      r
    case TooFewOptions(n) =>
      var digits := IntToDecimal(n);
      IntToDecimalRoundTrip(n);
      var r := "Question " + digits + " must have at least 2 options";
      assert r[9..|r| - 29] == digits;
      assert r[|r| - 29..] == " must have at least 2 options";
      r
  }

  /** What pressing "Create" does: nothing, an alert, or one `createSurvey` call. */
  datatype SubmitOutcome = Ignored | Alerted(error: FormError) | Sent(payload: Payload)

  // ---------------------------------------------------------------------------
  // The page's state and handlers

  /** The per-question loop of the submit handler: the first question, counted
      from 1, whose text is blank or whose choice list has fewer than two
      filled options; nothing when every question passes. */
  method CheckQuestions(questions: seq<Question>) returns (failure: Option<FormError>)
    ensures failure.None? <==> ReadyUpTo(questions, |questions|)
    ensures failure.Some? ==> failure.value.QuestionTextMissing? || failure.value.TooFewOptions?
    ensures failure.Some? && failure.value.QuestionTextMissing? ==>
              && 1 <= failure.value.number <= |questions|
              && IsBlank(questions[failure.value.number - 1].text)
              && ReadyUpTo(questions, failure.value.number - 1)
    ensures failure.Some? && failure.value.TooFewOptions? ==>
              && 1 <= failure.value.number <= |questions|
              && !IsBlank(questions[failure.value.number - 1].text)
              && IsChoice(questions[failure.value.number - 1].kind)
              && |FilledOptions(questions[failure.value.number - 1].options)| < 2
              && ReadyUpTo(questions, failure.value.number - 1)
  {
    var i := 0;
    while i < |questions|
      invariant i <= |questions|
      invariant ReadyUpTo(questions, i)
    {
      var q := questions[i];
      // `!q.text.trim()`, which is blankness by TrimEmptyIffBlank
      if IsBlank(q.text) {
        assert !QuestionReady(questions[i]);
        return Some(QuestionTextMissing(i + 1));
      }
      if (q.kind == SingleChoice || q.kind == MultipleChoice) && |FilledOptions(q.options)| < 2 {
        assert !QuestionReady(questions[i]);
        return Some(TooFewOptions(i + 1));
      }
      assert QuestionReady(questions[i]);
      i := i + 1;
    }
    failure := None;
  }

  class CreateSurveyForm {
    var title: string
    var description: string
    var questions: seq<Question>

    constructor ()
      ensures title == "" && description == "" && questions == [BlankQuestion]
    {
      title, description, questions := "", "", [BlankQuestion];
    }

    /** `addQuestion`: appends one blank question. */
    method AddQuestion()
      modifies this
      ensures questions == old(questions) + [BlankQuestion]
      ensures title == old(title) && description == old(description)
    {
      questions := questions + [BlankQuestion];
    }

    /** `removeQuestion(index)`: drops exactly the question at `index`. */
    method RemoveQuestion(index: int)
      modifies this
      ensures questions == DropIndex(old(questions), index)
      ensures title == old(title) && description == old(description)
    {
      questions := DropIndex(questions, index);
    }

    /** `updateQuestion(index, field, value)`. */
    method UpdateQuestion(index: nat, f: QuestionField)
      requires index < |questions|
      modifies this
      ensures questions == old(questions)[index := WithField(old(questions)[index], f)]
      ensures title == old(title) && description == old(description)
    {
      questions := questions[index := WithField(questions[index], f)];
    }

    /** `addOption(questionIndex)`: pushes one empty option onto that question. */
    method AddOption(questionIndex: nat)
      requires questionIndex < |questions|
      modifies this
      ensures |questions| == |old(questions)|
      ensures questions[questionIndex] == old(questions)[questionIndex].(options := old(questions)[questionIndex].options + [""])
      ensures forall i :: 0 <= i < |questions| && i != questionIndex ==> questions[i] == old(questions)[i]
      ensures title == old(title) && description == old(description)
    {
      var q := questions[questionIndex];
      questions := questions[questionIndex := q.(options := q.options + [""])];
    }

    /** `removeOption(questionIndex, optionIndex)`: drops exactly one option of that question. */
    method RemoveOption(questionIndex: nat, optionIndex: int)
      requires questionIndex < |questions|
      modifies this
      ensures |questions| == |old(questions)|
      ensures questions[questionIndex]
                == old(questions)[questionIndex].(options := DropIndex(old(questions)[questionIndex].options, optionIndex))
      ensures forall i :: 0 <= i < |questions| && i != questionIndex ==> questions[i] == old(questions)[i]
      ensures title == old(title) && description == old(description)
    {
      var q := questions[questionIndex];
      questions := questions[questionIndex := q.(options := DropIndex(q.options, optionIndex))];
    }

    /** `updateOption(questionIndex, optionIndex, value)`: overwrites that one option. */
    method UpdateOption(questionIndex: nat, optionIndex: nat, value: string)
      requires questionIndex < |questions| && optionIndex < |questions[questionIndex].options|
      modifies this
      ensures |questions| == |old(questions)|
      ensures questions[questionIndex]
                == old(questions)[questionIndex].(options := old(questions)[questionIndex].options[optionIndex := value])
      ensures forall i :: 0 <= i < |questions| && i != questionIndex ==> questions[i] == old(questions)[i]
      ensures title == old(title) && description == old(description)
    {
      var q := questions[questionIndex];
      questions := questions[questionIndex := q.(options := q.options[optionIndex := value])];
    }

    /** `handleSubmit`: checks the draft in order and either stops (silently or
        with an alert naming the first faulty question) or sends the encoded survey. */
    method HandleSubmit(isConnected: bool, hasCreateSurvey: bool) returns (r: SubmitOutcome)
      ensures r == Ignored <==> !(isConnected && hasCreateSurvey)
      ensures r == Alerted(MissingTitle) <==> isConnected && hasCreateSurvey && IsBlank(title)
      ensures r == Alerted(NoQuestionsAdded) <==> isConnected && hasCreateSurvey && !IsBlank(title) && |questions| == 0
      ensures r.Sent? <==>
                isConnected && hasCreateSurvey && !IsBlank(title) && |questions| > 0 && ReadyUpTo(questions, |questions|)
      ensures isConnected && hasCreateSurvey && !IsBlank(title) && |questions| > 0 && !ReadyUpTo(questions, |questions|) ==>
                r.Alerted? && (r.error.QuestionTextMissing? || r.error.TooFewOptions?)
      ensures r.Sent? ==> r.payload == Encode(title, description, questions)
      ensures r.Alerted? && r.error.QuestionTextMissing? ==>
                && 1 <= r.error.number <= |questions|
                && IsBlank(questions[r.error.number - 1].text)
                && ReadyUpTo(questions, r.error.number - 1)
      ensures r.Alerted? && r.error.TooFewOptions? ==>
                && 1 <= r.error.number <= |questions|
                && !IsBlank(questions[r.error.number - 1].text)
                && IsChoice(questions[r.error.number - 1].kind)
                && |FilledOptions(questions[r.error.number - 1].options)| < 2
                && ReadyUpTo(questions, r.error.number - 1)
    {
      if !isConnected || !hasCreateSurvey {
        return Ignored;
      }
      TrimEmptyIffBlank(title);
      if Trim(title) == "" {
        return Alerted(MissingTitle);
      }
      if |questions| == 0 {
        return Alerted(NoQuestionsAdded);
      }
      var failure := CheckQuestions(questions);
      if failure.Some? {
        return Alerted(failure.value);
      }
      r := Sent(Encode(title, description, questions));
    }
  }

  // ---------------------------------------------------------------------------
  // How the form's checks relate to the ledger's

  /** A rating scale the ledger accepts once `|| 5` is applied. */
  predicate RatingAccepted(q: Question) {
    q.kind == Rating ==> q.ratingMax == None || q.ratingMax == Some(0) || (q.ratingMax.Some? && 2 <= q.ratingMax.value <= 10)
  }

  /** Option counts known to be non-negative, as the contract receives them. */
  function AsNats(xs: seq<int>): (r: seq<nat>)
    requires forall i :: 0 <= i < |xs| ==> xs[i] >= 0
    ensures |r| == |xs| && forall i :: 0 <= i < |xs| ==> r[i] == xs[i]
  {
    seq(|xs|, i requires 0 <= i < |xs| => xs[i] as nat)
  }

  /** Every draft the submit handler sends passes the ledger's schema check,
      provided each rating scale is one the ledger accepts: the form's own
      checks cover the choice and numeric-input rules. */
  lemma SentDraftIsValidSchema(title: string, description: string, qs: seq<Question>)
    requires !IsBlank(title) && |qs| > 0
    requires forall i :: 0 <= i < |qs| ==> QuestionReady(qs[i]) && RatingAccepted(qs[i])
    ensures var p := Encode(title, description, qs);
            && (forall i :: 0 <= i < |qs| ==> p.optionCounts[i] >= 0)
            && ValidSchema(p.questions, p.questionTypes, AsNats(p.optionCounts))
  {
    var p := Encode(title, description, qs);
    forall i | 0 <= i < |qs|
      ensures p.optionCounts[i] >= 0
      ensures KindOfCode(p.questionTypes[i]).Some?
      ensures ValidOptionCount(KindOfCode(p.questionTypes[i]).value, p.optionCounts[i] as nat)
    {
      assert KindOfCode(p.questionTypes[i]) == Some(qs[i].kind);
    }
  }

  /** The submit handler does not check the rating scale: a rating question
      with `ratingMax` 11 passes every check the handler makes, yet the ledger
      refuses it. (The rating input's `min`/`max` attributes are browser-side.) */
  lemma RatingScaleIsNotCheckedByForm()
    ensures var q := Question("Rate?", Rating, ["", ""], Some(11), None, None);
            var p := Encode("Survey", "", [q]);
            && QuestionReady(q)
            && p.optionCounts == [11]
            && !ValidSchema(p.questions, p.questionTypes, [11])
  {
    var q := Question("Rate?", Rating, ["", ""], Some(11), None, None);
    assert !IsJsWhitespace(q.text[0]);
    assert OptionCount(q) == 11;
    var p := Encode("Survey", "", [q]);
    assert p.optionCounts[0] == 11;
    assert Fault(p.questionTypes[0], 11) == Some(RatingOutOfRange);
  }

  /** Removing the question just added gives back the previous list. */
  lemma RemoveUndoesAdd(qs: seq<Question>)
    ensures DropIndex(qs + [BlankQuestion], |qs|) == qs
  {
  }
}
