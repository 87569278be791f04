/** The SurveySeal ledger: survey registry, one-answer-per-respondent flags,
    homomorphic tally cells and the creator-only statistics read, as the
    contract's test suite pins them down.

    Ciphertexts are opaque handles. A handle is either the all-zero sentinel of
    a cell nobody wrote yet, or an encrypted 32-bit value; the model carries that
    value so that sums can be stated, but nothing in the ledger branches on it.
    The pure step functions (`Create`, `Submit`, `Statistics`) are the
    specification; the class `SurveySeal` is the contract with its storage
    updated in place, and each of its methods is proved to behave as the
    matching step function. */
module Ledger {
  import opened Common

  const U32_MODULUS: int := 0x1_0000_0000

  /** The plaintext domain of an `euint32`. */
  newtype u32 = x: int | 0 <= x < 0x1_0000_0000

  type Address = string

  datatype QuestionType = SingleChoice | MultipleChoice | Rating | NumericInput

  /** The question type a wire code (0..3) stands for; any other code names no type. */
  function KindOfCode(code: nat): (r: Option<QuestionType>)
    ensures r.Some? <==> code <= 3
  {
    if code == 0 then Some(SingleChoice)
    else if code == 1 then Some(MultipleChoice)
    else if code == 2 then Some(Rating)
    else if code == 3 then Some(NumericInput)
    else None
  }

  /** The schema table: what an option count must be for each question type. */
  predicate ValidOptionCount(kind: QuestionType, count: nat) {
    match kind
    case SingleChoice => count >= 2
    case MultipleChoice => count >= 2
    case Rating => 2 <= count <= 10
    case NumericInput => count == 2
  }

  // ---------------------------------------------------------------------------
  // Errors (the revert reason the tests match is given beside each one they assert)

  datatype QuestionFault =
    | UnknownQuestionType   // a type code outside 0..3
    | TooFewChoiceOptions   // "Choice questions must have at least 2 options"
    | RatingOutOfRange      // "Rating must be between 2 and 10"
    | NumericInputNotTwo    // "NumericInput must have optionCount of 2"

  datatype Error =
    | NoQuestions                          // "Survey must have at least one question"
    | SchemaLengthMismatch                 // questions, types and counts differ in length
    | InvalidQuestion(index: nat, fault: QuestionFault)
    | SurveyNotFound                       // survey id at or beyond the survey count
    | AlreadyAnswered                      // "Already answered this survey"
    | AnswerCountMismatch                  // not one increment row per question
    | IncrementLengthMismatch(row: nat)    // "Increment array length must match option count"
    | NotCreator                           // "Only creator can view statistics"

  /** Why one question's (type code, option count) pair is refused, if it is. */
  function Fault(code: nat, count: nat): (r: Option<QuestionFault>)
    ensures r.None? <==> KindOfCode(code).Some? && ValidOptionCount(KindOfCode(code).value, count)
    ensures r == Some(UnknownQuestionType) <==> code > 3
    ensures r == Some(TooFewChoiceOptions) <==> code <= 1 && count < 2
    ensures r == Some(RatingOutOfRange) <==> code == 2 && (count < 2 || count > 10)
    ensures r == Some(NumericInputNotTwo) <==> code == 3 && count != 2
  {
    match KindOfCode(code)
    case None => Some(UnknownQuestionType)
    case Some(kind) =>
      if ValidOptionCount(kind, count) then None
      else match kind
        case SingleChoice => Some(TooFewChoiceOptions)
        case MultipleChoice => Some(TooFewChoiceOptions)
        case Rating => Some(RatingOutOfRange)
        case NumericInput => Some(NumericInputNotTwo)
  }

  /** The first question, from index `from` on, whose pair is refused. */
  function FirstInvalidQuestion(codes: seq<nat>, counts: seq<nat>, from: nat): (r: Option<Error>)
    requires |codes| == |counts| && from <= |codes|
    ensures r.None? <==> forall j :: from <= j < |codes| ==> Fault(codes[j], counts[j]).None?
    ensures r.Some? ==>
              && r.value.InvalidQuestion?
              && from <= r.value.index < |codes|
              && Fault(codes[r.value.index], counts[r.value.index]) == Some(r.value.fault)
              && forall j :: from <= j < r.value.index ==> Fault(codes[j], counts[j]).None?
    decreases |codes| - from
  {
    if from == |codes| then None
    else match Fault(codes[from], counts[from])
      case Some(f) => Some(InvalidQuestion(from, f))
      case None => FirstInvalidQuestion(codes, counts, from + 1)
  }

  /** A schema the ledger accepts: at least one question, three parallel arrays,
      and every (type, count) pair allowed by the table. */
  predicate ValidSchema(questions: seq<string>, codes: seq<nat>, counts: seq<nat>) {
    && |questions| >= 1
    && |codes| == |questions|
    && |counts| == |questions|
    && forall i :: 0 <= i < |questions| ==> Fault(codes[i], counts[i]).None?
  }

  /** The error `createSurvey` reverts with, if any. */
  function SchemaError(questions: seq<string>, codes: seq<nat>, counts: seq<nat>): (r: Option<Error>)
    ensures r.None? <==> ValidSchema(questions, codes, counts)
    ensures |questions| == 0 ==> r == Some(NoQuestions)
    ensures |questions| >= 1 && |codes| == |counts| == |questions| && r.Some? ==>
              r.value.InvalidQuestion? && r.value.index < |questions|
              && Fault(codes[r.value.index], counts[r.value.index]) == Some(r.value.fault)
              && forall j :: 0 <= j < r.value.index ==> Fault(codes[j], counts[j]).None?
  {
    if |questions| == 0 then Some(NoQuestions)
    else if |codes| != |questions| || |counts| != |questions| then Some(SchemaLengthMismatch)
    else FirstInvalidQuestion(codes, counts, 0)
  }

  // ---------------------------------------------------------------------------
  // Ciphertext handles and homomorphic addition

  /** `ZeroHandle` is the all-zero hash of a cell nobody has written;
      `Enc(p)` a ciphertext whose plaintext is `p`. */
  datatype Cipher = ZeroHandle | Enc(plain: u32)

  /** The plaintext a handle stands for; the sentinel counts as zero. */
  function Plain(c: Cipher): (p: nat)
    ensures p < U32_MODULUS
  {
    match c
    case ZeroHandle => 0
    case Enc(v) => v as nat
  }

  /** Homomorphic `euint32` addition of an increment into a cell: the sentinel
      is first taken as an encrypted zero, and the sum wraps at 2^32. */
  function HomAdd(c: Cipher, v: u32): (r: Cipher)
    ensures r.Enc?
    ensures Plain(r) == (Plain(c) + v as int) % U32_MODULUS
  {
    Enc(((Plain(c) + v as int) % U32_MODULUS) as u32)
  }

  // ---------------------------------------------------------------------------
  // Ledger state

  datatype Survey = Survey(
    creator: Address,
    title: string,
    description: string,
    questions: seq<string>,
    questionTypes: seq<nat>,
    optionCounts: seq<nat>,
    createdAt: nat,
    isActive: bool)

  /** A tally cell: (survey id, question index, option index). */
  datatype Key = Key(survey: nat, question: nat, option: nat)

  datatype LedgerState = LedgerState(
    surveys: seq<Survey>,
    answered: map<(nat, Address), bool>,
    tallies: map<Key, Cipher>)

  /** The state of a freshly deployed contract. */
  const Genesis: LedgerState := LedgerState([], map[], map[])

  /** The handle stored in a cell, the sentinel when nobody wrote it. */
  function TallyAt(tallies: map<Key, Cipher>, k: Key): Cipher {
    if k in tallies then tallies[k] else ZeroHandle
  }

  /** `hasAnswered(id, who)`: false for a survey or respondent never seen. */
  predicate Answered(st: LedgerState, id: nat, who: Address) {
    (id, who) in st.answered && st.answered[(id, who)]
  }

  /** The cell lies inside the question/option grid of an existing survey. */
  predicate InShape(st: LedgerState, k: Key) {
    && k.survey < |st.surveys|
    && k.question < |st.surveys[k.survey].optionCounts|
    && k.option < st.surveys[k.survey].optionCounts[k.question]
  }

  predicate SurveyWellFormed(s: Survey) {
    ValidSchema(s.questions, s.questionTypes, s.optionCounts) && s.isActive
  }

  /** The ledger's invariant: every stored survey passed validation, and no
      answer flag or tally cell exists outside an existing survey's grid. */
  predicate WellFormed(st: LedgerState) {
    && (forall i :: 0 <= i < |st.surveys| ==> SurveyWellFormed(st.surveys[i]))
    && (forall k :: k in st.tallies ==> InShape(st, k))
    && (forall p :: p in st.answered ==> p.0 < |st.surveys|)
  }

  // ---------------------------------------------------------------------------
  // createSurvey

  /** `createSurvey` sent by `caller` in a block stamped `now`. */
  function Create(st: LedgerState, caller: Address, now: nat, title: string, description: string,
                  questions: seq<string>, codes: seq<nat>, counts: seq<nat>)
    : (r: (LedgerState, Result<nat, Error>))
    ensures r.1.Ok? <==> ValidSchema(questions, codes, counts)
    ensures r.1.Err? ==> r.0 == st && Some(r.1.error) == SchemaError(questions, codes, counts)
    ensures r.1.Ok? ==>
              && r.1.value == |st.surveys|
              && r.0.surveys == st.surveys + [Survey(caller, title, description, questions, codes, counts, now, true)]
              && r.0.answered == st.answered
              && r.0.tallies == st.tallies
  {
    match SchemaError(questions, codes, counts)
    case Some(e) => (st, Err(e))
    case None =>
      var record := Survey(caller, title, description, questions, codes, counts, now, true);
      (st.(surveys := st.surveys + [record]), Ok(|st.surveys|))
  }

  lemma CreatePreservesWellFormed(st: LedgerState, caller: Address, now: nat, title: string,
                                  description: string, questions: seq<string>, codes: seq<nat>,
                                  counts: seq<nat>)
    requires WellFormed(st)
    ensures WellFormed(Create(st, caller, now, title, description, questions, codes, counts).0)
  {
    var st' := Create(st, caller, now, title, description, questions, codes, counts).0;
    if st' != st {
      forall k | k in st'.tallies ensures InShape(st', k) {
        assert InShape(st, k);
        assert st'.surveys[k.survey] == st.surveys[k.survey];
      }
    }
  }

  // ---------------------------------------------------------------------------
  // submitAnswer

  /** The increments have one row per question and each row has the question's option count. */
  predicate ShapeMatches(counts: seq<nat>, incs: seq<seq<u32>>) {
    |incs| == |counts| && forall i :: 0 <= i < |incs| ==> |incs[i]| == counts[i]
  }

  /** The first row, from `from` on, whose length differs from its option count. */
  function FirstBadRow(counts: seq<nat>, incs: seq<seq<u32>>, from: nat): (r: Option<nat>)
    requires |incs| == |counts| && from <= |incs|
    ensures r.None? <==> forall i :: from <= i < |incs| ==> |incs[i]| == counts[i]
    ensures r.Some? ==> from <= r.value < |incs| && |incs[r.value]| != counts[r.value]
                        && forall i :: from <= i < r.value ==> |incs[i]| == counts[i]
    decreases |incs| - from
  {
    if from == |incs| then None
    else if |incs[from]| != counts[from] then Some(from)
    else FirstBadRow(counts, incs, from + 1)
  }

  function ShapeError(counts: seq<nat>, incs: seq<seq<u32>>): (r: Option<Error>)
    ensures r.None? <==> ShapeMatches(counts, incs)
    ensures |incs| != |counts| ==> r == Some(AnswerCountMismatch)
    ensures r.Some? && |incs| == |counts| ==>
              r.value.IncrementLengthMismatch? && r.value.row < |incs| && |incs[r.value.row]| != counts[r.value.row]
  {
    if |incs| != |counts| then Some(AnswerCountMismatch)
    else match FirstBadRow(counts, incs, 0)
      case Some(i) => Some(IncrementLengthMismatch(i))
      case None => None
  }

  /** One tally cell after one increment is added into it. */
  function AddCell(t: map<Key, Cipher>, k: Key, v: u32): map<Key, Cipher> {
    t[k := HomAdd(TallyAt(t, k), v)]
  }

  /** The tallies after the cells of question `q`'s options 0..|row|-1 take `row`, in order. */
  function AddRow(t: map<Key, Cipher>, id: nat, q: nat, row: seq<u32>): map<Key, Cipher>
    decreases |row|
  {
    if |row| == 0 then t
    else AddCell(AddRow(t, id, q, row[..|row| - 1]), Key(id, q, |row| - 1), row[|row| - 1])
  }

  /** The tallies after a whole increment matrix is added, row-major. */
  function AddBatch(t: map<Key, Cipher>, id: nat, rows: seq<seq<u32>>): map<Key, Cipher>
    decreases |rows|
  {
    if |rows| == 0 then t
    else AddRow(AddBatch(t, id, rows[..|rows| - 1]), id, |rows| - 1, rows[|rows| - 1])
  }

  /** The cell is one that the increment matrix `rows` addresses in survey `id`. */
  predicate InBatch(k: Key, id: nat, rows: seq<seq<u32>>) {
    k.survey == id && k.question < |rows| && k.option < |rows[k.question]|
  }

  lemma {:induction false} AddRowAt(t: map<Key, Cipher>, id: nat, q: nat, row: seq<u32>, k: Key)
    ensures TallyAt(AddRow(t, id, q, row), k)
              == if k.survey == id && k.question == q && k.option < |row|
                 then HomAdd(TallyAt(t, k), row[k.option]) else TallyAt(t, k)
    ensures k in AddRow(t, id, q, row) <==> k in t || (k.survey == id && k.question == q && k.option < |row|)
    decreases |row|
  {
    if |row| > 0 {
      AddRowAt(t, id, q, row[..|row| - 1], k);
    }
  }

  /** Adding a batch adds each addressed cell's increment once and leaves every other cell alone. */
  lemma {:induction false} AddBatchAt(t: map<Key, Cipher>, id: nat, rows: seq<seq<u32>>, k: Key)
    ensures TallyAt(AddBatch(t, id, rows), k)
              == if InBatch(k, id, rows) then HomAdd(TallyAt(t, k), rows[k.question][k.option])
                 else TallyAt(t, k)
    ensures k in AddBatch(t, id, rows) <==> k in t || InBatch(k, id, rows)
    decreases |rows|
  {
    if |rows| > 0 {
      var last := |rows| - 1;
      AddBatchAt(t, id, rows[..last], k);
      AddRowAt(AddBatch(t, id, rows[..last]), id, last, rows[last], k);
    }
  }

  /** `submitAnswer(id, increments)` sent by `caller`. */
  function Submit(st: LedgerState, caller: Address, id: nat, incs: seq<seq<u32>>)
    : (r: (LedgerState, Result<(), Error>))
    ensures id >= |st.surveys| ==> r.1 == Err(SurveyNotFound)
    ensures id < |st.surveys| && Answered(st, id, caller) ==> r.1 == Err(AlreadyAnswered)
    ensures r.1.Ok? <==> id < |st.surveys| && !Answered(st, id, caller)
                         && ShapeMatches(st.surveys[id].optionCounts, incs)
    ensures id < |st.surveys| && !Answered(st, id, caller) && !ShapeMatches(st.surveys[id].optionCounts, incs) ==>
              r.1 == Err(ShapeError(st.surveys[id].optionCounts, incs).value)
    ensures r.1.Err? ==> r.0 == st
    ensures r.1.Ok? ==>
              && r.0.surveys == st.surveys
              && r.0.answered == st.answered[(id, caller) := true]
              && r.0.tallies == AddBatch(st.tallies, id, incs)
  {
    if id >= |st.surveys| then (st, Err(SurveyNotFound))
    else if Answered(st, id, caller) then (st, Err(AlreadyAnswered))
    else match ShapeError(st.surveys[id].optionCounts, incs)
      case Some(e) => (st, Err(e))
      case None =>
        (LedgerState(st.surveys, st.answered[(id, caller) := true], AddBatch(st.tallies, id, incs)), Ok(()))
  }

  lemma SubmitPreservesWellFormed(st: LedgerState, caller: Address, id: nat, incs: seq<seq<u32>>)
    requires WellFormed(st)
    ensures WellFormed(Submit(st, caller, id, incs).0)
  {
    var r := Submit(st, caller, id, incs);
    if r.1.Ok? {
      forall k | k in r.0.tallies ensures InShape(r.0, k) {
        AddBatchAt(st.tallies, id, incs, k);
      }
    }
  }

  // ---------------------------------------------------------------------------
  // getStatistics

  /** The handles of question `q`'s `count` option cells in survey `id`. */
  function StatRow(tallies: map<Key, Cipher>, id: nat, q: nat, count: nat): seq<Cipher> {
    seq(count, o requires 0 <= o < count => TallyAt(tallies, Key(id, q, o)))
  }

  /** The handle matrix of survey `id` for the questions whose option counts are `counts`. */
  function StatMatrix(tallies: map<Key, Cipher>, id: nat, counts: seq<nat>): (m: seq<seq<Cipher>>)
    ensures |m| == |counts|
    ensures forall q :: 0 <= q < |counts| ==> m[q] == StatRow(tallies, id, q, counts[q])
    decreases |counts|
  {
    if |counts| == 0 then []
    else StatMatrix(tallies, id, counts[..|counts| - 1]) + [StatRow(tallies, id, |counts| - 1, counts[|counts| - 1])]
  }

  /** `getStatistics(id)` called by `caller`: the creator's matrix of tally handles. */
  function Statistics(st: LedgerState, caller: Address, id: nat): (r: Result<seq<seq<Cipher>>, Error>)
    ensures id >= |st.surveys| ==> r == Err(SurveyNotFound)
    ensures id < |st.surveys| && caller != st.surveys[id].creator ==> r == Err(NotCreator)
    ensures id < |st.surveys| && caller == st.surveys[id].creator ==> r.Ok?
    ensures r.Ok? ==>
              && id < |st.surveys| && caller == st.surveys[id].creator
              && |r.value| == |st.surveys[id].optionCounts|
              && forall q :: 0 <= q < |r.value| ==>
                   && |r.value[q]| == st.surveys[id].optionCounts[q]
                   && forall o :: 0 <= o < |r.value[q]| ==> r.value[q][o] == TallyAt(st.tallies, Key(id, q, o))
  {
    if id >= |st.surveys| then Err(SurveyNotFound)
    else if caller != st.surveys[id].creator then Err(NotCreator)
    else
      Ok(StatMatrix(st.tallies, id, st.surveys[id].optionCounts))
  }

  // ---------------------------------------------------------------------------
  // The contract, with its storage updated in place

  class SurveySeal {
    var surveys: seq<Survey>
    var surveyCount: nat
    var answered: map<(nat, Address), bool>
    var tallies: map<Key, Cipher>

    /** The contract's storage as a ledger value. */
    function State(): LedgerState
      reads this
    {
      LedgerState(surveys, answered, tallies)
    }

    ghost predicate Valid()
      reads this
    {
      surveyCount == |surveys| && WellFormed(State())
    }

    constructor ()
      ensures Valid() && State() == Genesis
    {
      surveys, surveyCount, answered, tallies := [], 0, map[], map[];
    }

    /** `getSurveyCount()`. */
    function GetSurveyCount(): (n: nat)
      reads this
      requires Valid()
      ensures n == |State().surveys|
    {
      surveyCount
    }

    /** `getSurvey(id)`: the stored record, or a revert for an id not yet assigned. */
    function GetSurvey(id: nat): (r: Result<Survey, Error>)
      reads this
      requires Valid()
      ensures r.Ok? <==> id < |surveys|
      ensures r.Ok? ==> r.value == surveys[id] && SurveyWellFormed(r.value)
      ensures r.Err? ==> r.error == SurveyNotFound
    {
      if id < surveyCount then Ok(surveys[id]) else Err(SurveyNotFound)
    }

    /** `hasAnswered(id, who)`. */
    function HasAnswered(id: nat, who: Address): (b: bool)
      reads this
      ensures b <==> Answered(State(), id, who)
    {
      (id, who) in answered && answered[(id, who)]
    }

    method CreateSurvey(caller: Address, now: nat, title: string, description: string,
                        questions: seq<string>, questionTypes: seq<nat>, optionCounts: seq<nat>)
      returns (r: Result<nat, Error>)
      requires Valid()
      modifies this
      ensures Valid()
      ensures (State(), r) == Create(old(State()), caller, now, title, description, questions, questionTypes, optionCounts)
    {
      CreatePreservesWellFormed(State(), caller, now, title, description, questions, questionTypes, optionCounts);
      var err := SchemaError(questions, questionTypes, optionCounts);
      if err.Some? {
        return Err(err.value);
      }
      surveys := surveys + [Survey(caller, title, description, questions, questionTypes, optionCounts, now, true)];
      r := Ok(surveyCount);
      surveyCount := surveyCount + 1;
    }

    method SubmitAnswer(caller: Address, surveyId: nat, increments: seq<seq<u32>>)
      returns (r: Result<(), Error>)
      requires Valid()
      modifies this
      ensures Valid()
      ensures (State(), r) == Submit(old(State()), caller, surveyId, increments)
    {
      SubmitPreservesWellFormed(State(), caller, surveyId, increments);
      if surveyId >= surveyCount {
        return Err(SurveyNotFound);
      }
      if (surveyId, caller) in answered && answered[(surveyId, caller)] {
        return Err(AlreadyAnswered);
      }
      var shape := ShapeError(surveys[surveyId].optionCounts, increments);
      if shape.Some? {
        return Err(shape.value);
      }
      answered := answered[(surveyId, caller) := true];
      ghost var t0 := tallies;
      var q := 0;
      while q < |increments|
        invariant q <= |increments|
        invariant surveys == old(surveys) && surveyCount == old(surveyCount)
        invariant answered == old(answered)[(surveyId, caller) := true]
        invariant tallies == AddBatch(t0, surveyId, increments[..q])
      {
        var o := 0;
        while o < |increments[q]|
          invariant o <= |increments[q]|
          invariant surveys == old(surveys) && surveyCount == old(surveyCount)
          invariant answered == old(answered)[(surveyId, caller) := true]
          invariant tallies == AddRow(AddBatch(t0, surveyId, increments[..q]), surveyId, q, increments[q][..o])
        {
          var k := Key(surveyId, q, o);
          tallies := tallies[k := HomAdd(TallyAt(tallies, k), increments[q][o])];
          assert increments[q][..o + 1][..o] == increments[q][..o];
          o := o + 1;
        }
        assert increments[q][..o] == increments[q];
        assert increments[..q + 1][..q] == increments[..q];
        q := q + 1;
      }
      assert increments[..q] == increments;
      r := Ok(());
    }

    /** `getStatistics(id)`: builds the question-by-option matrix of handles. */
    method GetStatistics(caller: Address, surveyId: nat) returns (r: Result<seq<seq<Cipher>>, Error>)
      requires Valid()
      ensures r == Statistics(State(), caller, surveyId)
    {
      if surveyId >= surveyCount {
        return Err(SurveyNotFound);
      }
      var s := surveys[surveyId];
      if caller != s.creator {
        return Err(NotCreator);
      }
      var stats: seq<seq<Cipher>> := [];
      var q := 0;
      while q < |s.optionCounts|
        invariant q <= |s.optionCounts|
        invariant |stats| == q
        invariant forall i :: 0 <= i < q ==> stats[i] == StatRow(tallies, surveyId, i, s.optionCounts[i])
      {
        var row: seq<Cipher> := [];
        var o := 0;
        while o < s.optionCounts[q]
          invariant o <= s.optionCounts[q]
          invariant |row| == o
          invariant forall j :: 0 <= j < o ==> row[j] == TallyAt(tallies, Key(surveyId, q, j))
        {
          row := row + [TallyAt(tallies, Key(surveyId, q, o))];
          o := o + 1;
        }
        assert row == StatRow(tallies, surveyId, q, s.optionCounts[q]);
        stats := stats + [row];
        q := q + 1;
      }
      assert stats == StatMatrix(tallies, surveyId, s.optionCounts);
      r := Ok(stats);
    }
  }
}
