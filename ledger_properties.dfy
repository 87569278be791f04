/** Properties of the SurveySeal ledger over whole sequences of transactions:
    the survey counter, the at-most-once answer rule, what a tally cell holds
    after any history, order independence of two answers, and the scenarios
    the contract's test suite walks through. */
module LedgerProperties {
  import opened Common
  import opened Ledger

  /** A state-changing transaction sent to the contract. */
  datatype Call =
    | CreateCall(caller: Address, now: nat, title: string, description: string,
                 questions: seq<string>, codes: seq<nat>, counts: seq<nat>)
    | SubmitCall(caller: Address, survey: nat, increments: seq<seq<u32>>)

  /** One transaction: the state after it and whether it succeeded (a revert leaves the state as it was). */
  function Step(st: LedgerState, c: Call): (LedgerState, bool) {
    match c
    case CreateCall(caller, now, title, description, questions, codes, counts) =>
      var r := Create(st, caller, now, title, description, questions, codes, counts);
      (r.0, r.1.Ok?)
    case SubmitCall(caller, survey, increments) =>
      var r := Submit(st, caller, survey, increments);
      (r.0, r.1.Ok?)
  }

  /** The ledger after `calls` are committed in order, with each call's success flag. */
  function Run(st: LedgerState, calls: seq<Call>): (r: (LedgerState, seq<bool>))
    ensures |r.1| == |calls|
    decreases |calls|
  {
    if |calls| == 0 then (st, [])
    else
      var first := Step(st, calls[0]);
      var rest := Run(first.0, calls[1..]);
      (rest.0, [first.1] + rest.1)
  }

  /** How many of the calls were successful survey creations. */
  function Created(calls: seq<Call>, oks: seq<bool>): nat
    requires |oks| == |calls|
    decreases |calls|
  {
    if |calls| == 0 then 0
    else (if calls[0].CreateCall? && oks[0] then 1 else 0) + Created(calls[1..], oks[1..])
  }

  /** How many of the calls were answers by `who` to survey `id` that were accepted. */
  function AcceptedAnswers(calls: seq<Call>, oks: seq<bool>, id: nat, who: Address): nat
    requires |oks| == |calls|
    decreases |calls|
  {
    if |calls| == 0 then 0
    else
      (if calls[0].SubmitCall? && calls[0].caller == who && calls[0].survey == id && oks[0] then 1 else 0)
      + AcceptedAnswers(calls[1..], oks[1..], id, who)
  }

  /** The increment an accepted answer adds into cell `k` (zero when the call adds nothing there). */
  function Contribution(c: Call, ok: bool, k: Key): nat {
    if ok && c.SubmitCall? && InBatch(k, c.survey, c.increments) then c.increments[k.question][k.option] as nat
    else 0
  }

  /** How many accepted answers wrote cell `k`. */
  function Writes(calls: seq<Call>, oks: seq<bool>, k: Key): nat
    requires |oks| == |calls|
    decreases |calls|
  {
    if |calls| == 0 then 0
    else (if oks[0] && calls[0].SubmitCall? && InBatch(k, calls[0].survey, calls[0].increments) then 1 else 0)
         + Writes(calls[1..], oks[1..], k)
  }

  /** The plain sum of all increments accepted answers added into cell `k`. */
  function AcceptedSum(calls: seq<Call>, oks: seq<bool>, k: Key): nat
    requires |oks| == |calls|
    decreases |calls|
  {
    if |calls| == 0 then 0 else Contribution(calls[0], oks[0], k) + AcceptedSum(calls[1..], oks[1..], k)
  }

  // ---------------------------------------------------------------------------
  // Arithmetic on 32-bit wrap-around

  lemma ModAddLeft(a: int, b: int)
    ensures ((a % U32_MODULUS) + b) % U32_MODULUS == (a + b) % U32_MODULUS
  {
    var m := U32_MODULUS;
    var q := a / m;
    assert a == q * m + a % m;
    assert a + b == (a % m + b) + q * m;
    ModShift(a % m + b, q);
  }

  lemma {:induction false} ModShift(x: int, q: int)
    ensures (x + q * U32_MODULUS) % U32_MODULUS == x % U32_MODULUS
    decreases if q < 0 then -q else q
  {
    var m := U32_MODULUS;
    if q > 0 {
      ModShift(x, q - 1);
      assert x + q * m == (x + (q - 1) * m) + m;
    } else if q < 0 {
      ModShift(x, q + 1);
      assert x + q * m == (x + (q + 1) * m) - m;
    }
  }

  /** Two increments added into one cell give the same handle in either order. */
  lemma HomAddCommutes(c: Cipher, x: u32, y: u32)
    ensures HomAdd(HomAdd(c, x), y) == HomAdd(HomAdd(c, y), x)
  {
    ModAddLeft(Plain(c) + x as int, y as int);
    ModAddLeft(Plain(c) + y as int, x as int);
    assert Plain(HomAdd(HomAdd(c, x), y)) == Plain(HomAdd(HomAdd(c, y), x));
  }

  // ---------------------------------------------------------------------------
  // Invariants over histories

  /** Every history keeps the ledger well formed: each survey passed validation
      and no flag or tally cell lies outside an existing survey's grid. */
  lemma {:induction false} RunPreservesWellFormed(st: LedgerState, calls: seq<Call>)
    requires WellFormed(st)
    ensures WellFormed(Run(st, calls).0)
    decreases |calls|
  {
    if |calls| > 0 {
      match calls[0] {
      case CreateCall(caller, now, title, description, questions, codes, counts) =>
        CreatePreservesWellFormed(st, caller, now, title, description, questions, codes, counts);
      case SubmitCall(caller, survey, increments) =>
        SubmitPreservesWellFormed(st, caller, survey, increments);
      }
      RunPreservesWellFormed(Step(st, calls[0]).0, calls[1..]);
    }
  }

  /** `getSurveyCount` grows by exactly one per successful creation, and
      surveys already stored are never changed. */
  lemma {:induction false} SurveyCountCountsCreations(st: LedgerState, calls: seq<Call>)
    ensures |Run(st, calls).0.surveys| == |st.surveys| + Created(calls, Run(st, calls).1)
    ensures st.surveys <= Run(st, calls).0.surveys
    decreases |calls|
  {
    if |calls| > 0 {
      SurveyCountCountsCreations(Step(st, calls[0]).0, calls[1..]);
    }
  }

  /** An answered flag, once set, is never cleared. */
  lemma {:induction false} AnsweredStaysSet(st: LedgerState, calls: seq<Call>, id: nat, who: Address)
    requires Answered(st, id, who)
    ensures Answered(Run(st, calls).0, id, who)
    decreases |calls|
  {
    if |calls| > 0 {
      AnsweredStaysSet(Step(st, calls[0]).0, calls[1..], id, who);
    }
  }

  /** At most one answer by a respondent to a survey is ever accepted, and none
      once the respondent has answered. */
  lemma {:induction false} AtMostOneAnswer(st: LedgerState, calls: seq<Call>, id: nat, who: Address)
    ensures AcceptedAnswers(calls, Run(st, calls).1, id, who) <= if Answered(st, id, who) then 0 else 1
    decreases |calls|
  {
    if |calls| > 0 {
      var s1 := Step(st, calls[0]).0;
      var oks := Run(st, calls).1;
      assert oks[1..] == Run(s1, calls[1..]).1;
      AtMostOneAnswer(s1, calls[1..], id, who);
      if calls[0].SubmitCall? && calls[0].caller == who && calls[0].survey == id && oks[0] {
        assert Answered(s1, id, who);
      }
    }
  }

  /** One transaction adds its contribution into cell `k`, and the cell stops
      being the sentinel exactly when an accepted answer writes it. */
  lemma StepTallyAt(st: LedgerState, c: Call, k: Key)
    ensures Plain(TallyAt(Step(st, c).0.tallies, k))
              == (Plain(TallyAt(st.tallies, k)) + Contribution(c, Step(st, c).1, k)) % U32_MODULUS
    ensures (TallyAt(Step(st, c).0.tallies, k) == ZeroHandle)
              <==> (TallyAt(st.tallies, k) == ZeroHandle
                    && !(Step(st, c).1 && c.SubmitCall? && InBatch(k, c.survey, c.increments)))
  {
    var p0 := Plain(TallyAt(st.tallies, k));
    if Step(st, c).1 && c.SubmitCall? {
      AddBatchAt(st.tallies, c.survey, c.increments, k);
    } else {
      assert p0 % U32_MODULUS == p0;
    }
  }

  /** What a tally cell holds after any history: its old plaintext plus the
      plain sum of every increment an accepted answer added there, modulo
      2^32; and it is still the sentinel exactly when it was and no accepted
      answer wrote it. */
  lemma {:induction false} TallyIsAcceptedSum(st: LedgerState, calls: seq<Call>, k: Key)
    ensures Plain(TallyAt(Run(st, calls).0.tallies, k))
              == (Plain(TallyAt(st.tallies, k)) + AcceptedSum(calls, Run(st, calls).1, k)) % U32_MODULUS
    ensures (TallyAt(Run(st, calls).0.tallies, k) == ZeroHandle)
              <==> (TallyAt(st.tallies, k) == ZeroHandle && Writes(calls, Run(st, calls).1, k) == 0)
    decreases |calls|
  {
    var oks := Run(st, calls).1;
    if |calls| == 0 {
      assert Plain(TallyAt(st.tallies, k)) % U32_MODULUS == Plain(TallyAt(st.tallies, k));
    } else {
      var c := calls[0];
      var s1 := Step(st, c).0;
      assert oks[0] == Step(st, c).1;
      assert oks[1..] == Run(s1, calls[1..]).1;
      assert Run(st, calls).0 == Run(s1, calls[1..]).0;
      TallyIsAcceptedSum(s1, calls[1..], k);
      StepTallyAt(st, c, k);
      var p0 := Plain(TallyAt(st.tallies, k));
      var rest := AcceptedSum(calls[1..], oks[1..], k);
      assert AcceptedSum(calls, oks, k) == Contribution(c, oks[0], k) + rest;
      ModAddLeft(p0 + Contribution(c, oks[0], k), rest);
    }
  }

  /** Two accepted answers commute: committed in the other order both are
      still accepted and the ledger ends in the same state. */
  lemma AnswersCommute(st: LedgerState, a: Address, ia: nat, xa: seq<seq<u32>>,
                       b: Address, ib: nat, xb: seq<seq<u32>>)
    requires Submit(st, a, ia, xa).1.Ok?
    requires Submit(Submit(st, a, ia, xa).0, b, ib, xb).1.Ok?
    ensures Submit(st, b, ib, xb).1.Ok?
    ensures Submit(Submit(st, b, ib, xb).0, a, ia, xa).1.Ok?
    ensures Submit(Submit(st, b, ib, xb).0, a, ia, xa).0 == Submit(Submit(st, a, ia, xa).0, b, ib, xb).0
  {
    var ab := Submit(Submit(st, a, ia, xa).0, b, ib, xb).0;
    var ba := Submit(Submit(st, b, ib, xb).0, a, ia, xa).0;
    assert (ia, a) != (ib, b);
    var t := st.tallies;
    var tab := AddBatch(AddBatch(t, ia, xa), ib, xb);
    var tba := AddBatch(AddBatch(t, ib, xb), ia, xa);
    forall k ensures (k in tab <==> k in tba) && TallyAt(tab, k) == TallyAt(tba, k) {
      AddBatchAt(t, ia, xa, k);
      AddBatchAt(AddBatch(t, ia, xa), ib, xb, k);
      AddBatchAt(t, ib, xb, k);
      AddBatchAt(AddBatch(t, ib, xb), ia, xa, k);
      if InBatch(k, ia, xa) && InBatch(k, ib, xb) {
        HomAddCommutes(TallyAt(t, k), xa[k.question][k.option], xb[k.question][k.option]);
      }
    }
    assert tab == tba;
    assert ab.answered == ba.answered;
  }

  // ---------------------------------------------------------------------------
  // The test suite's scenarios

  /** The first survey gets id 0 and stores exactly what was sent, active, with its creator. */
  lemma FirstSurveyIsStored(creator: Address, now: nat, title: string, description: string,
                            questions: seq<string>, codes: seq<nat>, counts: seq<nat>)
    requires ValidSchema(questions, codes, counts)
    ensures var r := Create(Genesis, creator, now, title, description, questions, codes, counts);
            && r.1 == Ok(0)
            && |r.0.surveys| == 1
            && r.0.surveys[0] == Survey(creator, title, description, questions, codes, counts, now, true)
  {
  }

  /** The four refused schemas of the test suite, each with its own error and no new survey. */
  lemma RefusedSchemas(creator: Address, now: nat)
    ensures Create(Genesis, creator, now, "Empty Survey", "No questions", [], [], [])
              == (Genesis, Err(NoQuestions))
    ensures Create(Genesis, creator, now, "Invalid Survey", "Invalid option count", ["Question?"], [0], [1])
              == (Genesis, Err(InvalidQuestion(0, TooFewChoiceOptions)))
    ensures Create(Genesis, creator, now, "Invalid Rating", "Invalid rating range", ["Rate?"], [2], [11])
              == (Genesis, Err(InvalidQuestion(0, RatingOutOfRange)))
    ensures Create(Genesis, creator, now, "Invalid Numeric", "Invalid numeric option count", ["Enter a number"], [3], [1])
              == (Genesis, Err(InvalidQuestion(0, NumericInputNotTwo)))
  {
  }

  /** The answer-and-statistics scenario: one three-option SingleChoice
      question; an answer [1, 0, 0] is accepted and sets the flag; a second
      one is refused and changes nothing; a short row is refused; the creator
      reads a 1x3 matrix of written handles holding 1, 0, 0; anyone else is refused. */
  lemma AnswerScenario(creator: Address, respondent: Address, now: nat)
    requires creator != respondent
    ensures
      var created := Create(Genesis, creator, now, "Test Survey", "A test survey",
                            ["What is your favorite color?"], [0], [3]);
      var first := Submit(created.0, respondent, 0, [[1, 0, 0]]);
      && created.1 == Ok(0)
      && Submit(created.0, respondent, 0, [[1, 0]]) == (created.0, Err(IncrementLengthMismatch(0)))
      && first.1 == Ok(())
      && Answered(first.0, 0, respondent)
      && Submit(first.0, respondent, 0, [[1, 0, 0]]) == (first.0, Err(AlreadyAnswered))
      && Statistics(first.0, creator, 0) == Ok([[Enc(1), Enc(0), Enc(0)]])
      && Statistics(first.0, respondent, 0) == Err(NotCreator)
  {
    var created := Create(Genesis, creator, now, "Test Survey", "A test survey",
                          ["What is your favorite color?"], [0], [3]);
    assert ValidSchema(["What is your favorite color?"], [0], [3]);
    var incs: seq<seq<u32>> := [[1, 0, 0]];
    var first := Submit(created.0, respondent, 0, incs);
    assert ShapeMatches([3], incs);
    assert !ShapeMatches([3], [[1, 0]]);
    var t := first.0.tallies;
    forall o | 0 <= o < 3 ensures TallyAt(t, Key(0, 0, o)) == HomAdd(ZeroHandle, incs[0][o]) {
      AddBatchAt(map[], 0, incs, Key(0, 0, o));
    }
    assert StatRow(t, 0, 0, 3) == [Enc(1), Enc(0), Enc(0)];
    assert first.0.surveys[0].optionCounts == [3];
    assert StatMatrix(t, 0, [3]) == [StatRow(t, 0, 0, 3)];
    assert created.1 == Ok(0);
    assert Submit(created.0, respondent, 0, [[1, 0]]) == (created.0, Err(IncrementLengthMismatch(0)));
    assert first.1 == Ok(());
    assert Answered(first.0, 0, respondent);
    assert Submit(first.0, respondent, 0, [[1, 0, 0]]) == (first.0, Err(AlreadyAnswered));
    assert Statistics(first.0, creator, 0) == Ok([[Enc(1), Enc(0), Enc(0)]]);
    assert Statistics(first.0, respondent, 0) == Err(NotCreator);
  }

  /** `getSurveyCount` reads 0, then 1, then 2 as two valid surveys are created. */
  lemma CountScenario(creator: Address, now: nat)
    ensures
      var one := Create(Genesis, creator, now, "Survey 1", "First survey", ["Question 1?"], [0], [2]);
      var two := Create(one.0, creator, now, "Survey 2", "Second survey", ["Question 2?"], [0], [2]);
      |Genesis.surveys| == 0 && |one.0.surveys| == 1 && |two.0.surveys| == 2
  {
    assert ValidSchema(["Question 1?"], [0], [2]);
    assert ValidSchema(["Question 2?"], [0], [2]);
  }
}
