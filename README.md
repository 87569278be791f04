# SurveySeal in Dafny

SurveySeal is an anonymous survey system built on fully homomorphic encryption (FHEVM).

- A creator registers a survey. Each question has a type (SingleChoice, MultipleChoice, Rating, NumericInput) and an option count.
- Each respondent submits one encrypted increment per option. The ledger adds these into encrypted tally cells without seeing them.
- Only the creator may fetch the matrix of tally handles, and then decrypts it client-side.

This project models four parts of the system and proves properties of each.

**The ledger** (`ledger.dfy`, `ledger_properties.dfy`). This is the contract behaviour its test suite asserts.
- The pure step functions `Create`, `Submit` and `Statistics` are the specification.
- The class `Ledger.SurveySeal` keeps the storage and updates it in place. Each method is proved equal to its step function and keeps the invariant `Valid()`.
- Over any sequence of transactions (`Run`), the model proves:
  - the survey count equals the number of accepted creations;
  - an answered flag is never cleared, and at most one answer per respondent and survey is accepted;
  - every tally cell holds the 32-bit wrapped sum of the increments accepted for it, and stays the zero sentinel exactly when nobody wrote it;
  - two accepted answers commute.
- The test suite's own scenarios are restated as lemmas.

**The create-survey form** (`create_form.dfy`). The page's draft state is the class `CreateForm.CreateSurveyForm`.
- Each editing handler is a method stating the new draft.
- The submit handler is a loop that stops at the first faulty question.
- The encoding produces the three parallel arrays `createSurvey` takes.
- A lemma proves that a draft the form sends passes the ledger's schema check, except for the rating scale. The submit handler never checks the rating scale, and a second lemma exhibits a draft that passes the handler's checks but is refused by the ledger. In the browser, the rating input's `min`/`max` attributes would stop such a draft before the handler runs; that validation is not modelled.

**The client hook** (`survey_hook.dfy`).
- Deployment lookup by chain id.
- The guards in front of transactions and reads.
- The row-major flattening of a ragged increment matrix into one encrypted-input batch, and the regrouping of the returned handles. They are proved to be inverse to each other, and each regrouped handle is shown to carry its own increment.
- The statistics decoder. The zero hash is never sent for decryption.
- The two survey listings. The answered list is sorted newest first, and ties keep increasing id order because the sort is stable.
- The survey id that `createSurvey` reports is the count read back minus one. It equals the new survey's id exactly when no other creation lands between the transaction and the read.

**The navigation bar helpers** (`navbar.dfy`).

`common.dfy` holds the JavaScript behaviour the client relies on:
- `String.prototype.trim`, with the ECMAScript whitespace set;
- `String.prototype.slice`, with negative and clamped indices;
- the decimal rendering of an integer inside a template literal, with a proved round trip.

Homomorphic encryption is modelled as follows:
- a ciphertext is either the all-zero sentinel or `Enc(p)` for a 32-bit plaintext `p`;
- addition is modulo 2^32;
- the ledger never branches on `p`.

Contract calls, `input.encrypt()`, `userDecrypt`, and the `getSurvey`/`hasAnswered` reads in the hook are parameters of the model.

## Model

| member | source | states |
|---|---|---|
| Ledger.KindOfCode | fhevm-hardhat-template/test/SurveySeal.ts:65-66 | a type code names a question type exactly when it is 0..3 |
| Ledger.Fault | fhevm-hardhat-template/test/SurveySeal.ts:105-144 | a (type, option count) pair is refused exactly when the type is unknown, a choice question has fewer than 2 options, a rating is outside 2..10 or a numeric input is not 2, each with its own error |
| Ledger.FirstInvalidQuestion | fhevm-hardhat-template/test/SurveySeal.ts:105-144 | finds the first refused question, with its fault; none exactly when every remaining question is allowed |
| Ledger.SchemaError | fhevm-hardhat-template/test/SurveySeal.ts:91-144 | no error exactly when the schema is valid; no questions gives "Survey must have at least one question"; otherwise the error names the first refused question |
| Ledger.HomAdd | fhevm-hardhat-template/test/SurveySeal.ts:270-332 | adding an increment gives a real ciphertext whose plaintext is the old plaintext plus the increment modulo 2^32, with the sentinel taken as 0 |
| Ledger.Create | fhevm-hardhat-template/test/SurveySeal.ts:46-144 | accepted exactly when the schema is valid; a refusal changes nothing and carries the schema error; an acceptance appends the active survey with its creator and fields, and returns the previous count as its id |
| Ledger.CreatePreservesWellFormed | fhevm-hardhat-template/test/SurveySeal.ts:46-89 | creation keeps every stored survey valid and every flag and cell inside an existing survey |
| Ledger.FirstBadRow | fhevm-hardhat-template/test/SurveySeal.ts:229-248 | finds the first increment row whose length differs from its option count; none exactly when all match |
| Ledger.ShapeError | fhevm-hardhat-template/test/SurveySeal.ts:229-248 | no error exactly when there is one row per question with its option count; a bad row gives "Increment array length must match option count" naming that row |
| Ledger.AddRowAt | fhevm-hardhat-template/test/SurveySeal.ts:167-196 | adding a row changes exactly that question's cells, each by its own increment |
| Ledger.AddBatchAt | fhevm-hardhat-template/test/SurveySeal.ts:167-196 | adding an increment matrix adds each addressed cell's increment once and leaves every other cell alone |
| Ledger.Submit | fhevm-hardhat-template/test/SurveySeal.ts:167-248 | an unknown survey and a second answer ("Already answered this survey") are refused; a misshaped answer is refused with the shape error of its first bad row; accepted exactly when the survey exists, the caller has not answered and the shape matches; a refusal changes nothing; an acceptance sets the caller's flag and adds the batch into the tallies |
| Ledger.SubmitPreservesWellFormed | fhevm-hardhat-template/test/SurveySeal.ts:167-196 | an answer keeps every flag and cell inside an existing survey's grid |
| Ledger.StatMatrix | fhevm-hardhat-template/test/SurveySeal.ts:298-307 | one row per question, each row the cells of that question's options |
| Ledger.Statistics | fhevm-hardhat-template/test/SurveySeal.ts:270-338 | an unknown survey is refused; a caller other than the creator gets "Only creator can view statistics"; the creator always gets the matrix, with one row per question and one cell handle per option |
| Ledger.SurveySeal.constructor | fhevm-hardhat-template/test/SurveySeal.ts:341-343 | a fresh contract has no surveys, no flags and no cells |
| Ledger.SurveySeal.GetSurveyCount | fhevm-hardhat-template/test/SurveySeal.ts:341-372 | the counter equals the number of stored surveys |
| Ledger.SurveySeal.GetSurvey | fhevm-hardhat-template/test/SurveySeal.ts:59-67 | an assigned id gives the stored record, which passed validation; any other id reverts |
| Ledger.SurveySeal.HasAnswered | fhevm-hardhat-template/test/SurveySeal.ts:193-195 | true exactly when the respondent's flag for the survey is set |
| Ledger.SurveySeal.CreateSurvey | fhevm-hardhat-template/test/SurveySeal.ts:46-144 | storage and result are those of `Create`; the invariant is kept |
| Ledger.SurveySeal.SubmitAnswer | fhevm-hardhat-template/test/SurveySeal.ts:167-248 | storage and result are those of `Submit`, with the cells updated one at a time in place; the invariant is kept |
| Ledger.SurveySeal.GetStatistics | fhevm-hardhat-template/test/SurveySeal.ts:270-338 | the matrix built cell by cell is `Statistics` of the storage |
| LedgerProperties.HomAddCommutes | fhevm-hardhat-template/test/SurveySeal.ts:167-196 | two increments added into one cell give the same tally value in either order |
| LedgerProperties.RunPreservesWellFormed | fhevm-hardhat-template/test/SurveySeal.ts:46-248 | every sequence of transactions keeps the ledger well formed |
| LedgerProperties.SurveyCountCountsCreations | fhevm-hardhat-template/test/SurveySeal.ts:341-372 | after any history the count is the old count plus the accepted creations, and stored surveys are never changed or removed |
| LedgerProperties.AnsweredStaysSet | fhevm-hardhat-template/test/SurveySeal.ts:198-227 | an answered flag is never cleared |
| LedgerProperties.AtMostOneAnswer | fhevm-hardhat-template/test/SurveySeal.ts:198-227 | in any history at most one answer per respondent and survey is accepted, and none if one was already recorded |
| LedgerProperties.TallyIsAcceptedSum | fhevm-hardhat-template/test/SurveySeal.ts:270-332 | after any history a cell's plaintext is its old plaintext plus the sum of accepted increments for it, modulo 2^32, and it is the zero sentinel exactly when it was and nobody wrote it |
| LedgerProperties.AnswersCommute | fhevm-hardhat-template/test/SurveySeal.ts:167-196 | two accepted answers are also accepted in the other order and leave the same flags and the same tally values |
| LedgerProperties.StepTallyAt | fhevm-hardhat-template/test/SurveySeal.ts:167-196 | one transaction adds into a cell exactly the increment an accepted answer addresses to it, modulo 2^32, and the cell leaves the sentinel exactly when such an answer writes it |
| LedgerProperties.FirstSurveyIsStored | fhevm-hardhat-template/test/SurveySeal.ts:46-68 | the first valid survey gets id 0 and is stored as sent, active, with its creator |
| LedgerProperties.RefusedSchemas | fhevm-hardhat-template/test/SurveySeal.ts:91-145 | the test suite's four refused schemas each revert with their own error |
| LedgerProperties.AnswerScenario | fhevm-hardhat-template/test/SurveySeal.ts:148-338 | the answer-and-statistics scenario: a short row is refused, an answer is accepted and flagged, a second one is refused, the creator sees three non-sentinel cells holding 1, 0, 0, and anyone else is refused |
| LedgerProperties.CountScenario | fhevm-hardhat-template/test/SurveySeal.ts:341-372 | the count reads 0, 1, then 2 as two surveys are created |
| Common.Trim | surveyseal-frontend/app/create/page.tsx:85 | the trimmed string is a contiguous piece of the input with only whitespace before and after it, and it neither starts nor ends with whitespace |
| Common.TrimEmptyIffBlank | surveyseal-frontend/app/create/page.tsx:85-88 | `s.trim()` is empty exactly when `s` is all whitespace |
| Common.SliceIndex | surveyseal-frontend/components/Navbar.tsx:13-15 | a slice index in range is kept; a negative one is counted from the end; one past the end is clamped to the length and one before the start (after counting from the end) to 0 |
| Common.Slice | surveyseal-frontend/components/Navbar.tsx:13-15 | `slice(start, end)` is the substring between the two normalised indices, or empty when they cross |
| Common.SliceFrom | surveyseal-frontend/components/Navbar.tsx:13-15 | `slice(start)` is the suffix from the normalised index |
| Common.NatToDecimal | surveyseal-frontend/components/Navbar.tsx:21 | a non-empty string of digits without a leading zero |
| Common.IntToDecimal | surveyseal-frontend/components/Navbar.tsx:21 | non-empty, with a leading minus exactly for a negative number |
| Common.IntToDecimalRoundTrip | surveyseal-frontend/components/Navbar.tsx:21 | the rendered number reads back as the same integer |
| Common.IntToDecimalInjective | surveyseal-frontend/components/Navbar.tsx:21 | different integers render differently |
| CreateForm.DropIndex | surveyseal-frontend/app/create/page.tsx:48-50 | filtering out an index drops exactly that element, and nothing when the index names no element |
| CreateForm.WithField | surveyseal-frontend/app/create/page.tsx:52-56 | the chosen field takes the new value and every other field keeps its old one |
| CreateForm.FilledOptions | surveyseal-frontend/app/create/page.tsx:104 | keeps every copy of each non-blank option and drops every blank one, so its length is the number of filled options |
| CreateForm.TypeCode | surveyseal-frontend/app/create/page.tsx:113-118 | the code sent is 0..3 and the ledger reads it back as the same question type |
| CreateForm.OptionCount | surveyseal-frontend/app/create/page.tsx:119-127 | choice questions send their filled option count, ratings `ratingMax` or 5 when it is missing or 0, and numeric inputs 2 |
| CreateForm.Encode | surveyseal-frontend/app/create/page.tsx:111-127 | three arrays as long as the draft, holding each question's text, a code the ledger reads as its type, and its option count |
| CreateForm.AlertText | surveyseal-frontend/app/create/page.tsx:85-108 | the two fixed alerts have their exact texts; a question alert reads "Question ", then the question's number, which reads back from the text, then " text is required" or " must have at least 2 options" |
| CreateForm.CheckQuestions | surveyseal-frontend/app/create/page.tsx:95-109 | nothing exactly when every question passes; otherwise the first question, numbered from 1, with blank text, or a choice question with fewer than two filled options, every earlier question passing |
| CreateForm.CreateSurveyForm.constructor | surveyseal-frontend/app/create/page.tsx:38-42 | the form starts with empty title and description and one blank SingleChoice question with two empty options |
| CreateForm.CreateSurveyForm.AddQuestion | surveyseal-frontend/app/create/page.tsx:44-46 | appends one blank question and changes nothing else |
| CreateForm.CreateSurveyForm.RemoveQuestion | surveyseal-frontend/app/create/page.tsx:48-50 | drops exactly the question at the index, or nothing when the index names none |
| CreateForm.CreateSurveyForm.UpdateQuestion | surveyseal-frontend/app/create/page.tsx:52-56 | replaces one field of one question and nothing else |
| CreateForm.CreateSurveyForm.AddOption | surveyseal-frontend/app/create/page.tsx:58-62 | appends an empty option to that question only |
| CreateForm.CreateSurveyForm.RemoveOption | surveyseal-frontend/app/create/page.tsx:64-70 | drops exactly one option of that question only |
| CreateForm.CreateSurveyForm.UpdateOption | surveyseal-frontend/app/create/page.tsx:72-76 | overwrites exactly one option of that question only |
| CreateForm.CreateSurveyForm.HandleSubmit | surveyseal-frontend/app/create/page.tsx:78-127 | does nothing exactly when disconnected; alerts for a blank title exactly when connected with a blank title, then for no questions exactly when there are none; a faulty question always gives the alert for the first question with blank text or with fewer than two filled choice options, with every earlier question passing; sends exactly when every check passes, and then sends the encoded draft |
| CreateForm.SentDraftIsValidSchema | surveyseal-frontend/app/create/page.tsx:95-127 | a draft that passes the form's checks, with rating scales the ledger allows, encodes to a schema the ledger accepts |
| CreateForm.RatingScaleIsNotCheckedByForm | surveyseal-frontend/app/create/page.tsx:123-125 | a rating with `ratingMax` 11 passes every check the submit handler makes, but the ledger refuses the encoded survey |
| CreateForm.RemoveUndoesAdd | surveyseal-frontend/app/create/page.tsx:44-50 | removing the question just added restores the list |
| SurveyHook.GetSurveySealByChainId | surveyseal-frontend/hooks/useSurveySeal.tsx:24-44 | nothing for a falsy chain id; only the chain id when the entry is missing, has no address or has the zero address; otherwise the entry's address, name and chain id, falling back to the one asked for; never the zero address |
| SurveyHook.IsDeployed | surveyseal-frontend/hooks/useSurveySeal.tsx:83-90 | definition of `isDeployed`; the property is stated by `SurveyHook.DeployedIffListed` |
| SurveyHook.DeployedIffListed | surveyseal-frontend/hooks/useSurveySeal.tsx:83-90 | deployed exactly when the book lists a non-empty, non-zero address for a truthy chain id |
| SurveyHook.MayWrite | surveyseal-frontend/hooks/useSurveySeal.tsx:100-108 | definition of the write guard; the property is stated by the `Skipped` clauses of `SurveyHook.CreateSurveyFlow` and `SurveyHook.PrepareAnswer` |
| SurveyHook.MayDecrypt | surveyseal-frontend/hooks/useSurveySeal.tsx:256-262 | definition of the statistics guard; the property is stated by the guard clause of `SurveyHook.DecodeStatistics` |
| SurveyHook.MayRead | surveyseal-frontend/hooks/useSurveySeal.tsx:383-385 | definition of the listing guard; the property is stated by the guard clauses of `SurveyHook.GetAllSurveys` and `SurveyHook.GetMyAnsweredSurveys` |
| SurveyHook.CreateSurveyFlow | surveyseal-frontend/hooks/useSurveySeal.tsx:92-142 | a failed guard makes no call and changes nothing; a refused creation fails and changes nothing; otherwise it reports the count read back minus one, which is the new id plus the creations committed in between |
| SurveyHook.ReportedIdIsNewIdIffNoInterleavedCreation | surveyseal-frontend/hooks/useSurveySeal.tsx:138 | the reported id is the ledger's id for the new survey exactly when no other creation was committed before the count was read |
| SurveyHook.InterleavedCreationShiftsReportedId | surveyseal-frontend/hooks/useSurveySeal.tsx:138 | one creation by someone else in between makes the hook report the other survey's id |
| SurveyHook.ConcatAt | surveyseal-frontend/hooks/useSurveySeal.tsx:194-198 | entry i of row q sits in the batch at the row's offset plus i |
| SurveyHook.Flatten | surveyseal-frontend/hooks/useSurveySeal.tsx:194-198 | the batch is every increment, row after row |
| SurveyHook.Unflatten | surveyseal-frontend/hooks/useSurveySeal.tsx:202-211 | one regrouped row per increment row |
| SurveyHook.UnflattenAt | surveyseal-frontend/hooks/useSurveySeal.tsx:202-211 | regrouped row q has row q's length and holds the handles from row q's offset on |
| SurveyHook.UnflattenConcat | surveyseal-frontend/hooks/useSurveySeal.tsx:194-211 | regrouping the flattened batch gives back the original matrix |
| SurveyHook.Regroup | surveyseal-frontend/hooks/useSurveySeal.tsx:202-211 | fails exactly when there are fewer handles than increments; otherwise gives the regrouped matrix with `handleIndex` ending at the number of increments |
| SurveyHook.PrepareAnswer | surveyseal-frontend/hooks/useSurveySeal.tsx:165-211 | skipped exactly when the guard fails; fails exactly when too few handles come back; otherwise the handle matrix sent is the encryption of the flattened batch regrouped into the answer's shape |
| SurveyHook.RegroupedHandleCarriesItsIncrement | surveyseal-frontend/hooks/useSurveySeal.tsx:194-219 | with one handle per batch entry in order, the contract gets at each (question, option) the handle of that question and option's own increment |
| SurveyHook.NonZero | surveyseal-frontend/hooks/useSurveySeal.tsx:301-304 | keeps every copy of each non-zero handle and drops every zero hash |
| SurveyHook.CellValue | surveyseal-frontend/hooks/useSurveySeal.tsx:300-320 | definition of the per-cell decode; the property is stated by `SurveyHook.DecodeRow` and `SurveyHook.DecodedCellIsPlaintext` |
| SurveyHook.DecodeRow | surveyseal-frontend/hooks/useSurveySeal.tsx:299-321 | fails exactly when some cell's decryption throws; otherwise one count per handle, and exactly the non-zero handles were sent for decryption |
| SurveyHook.DecodeMatrix | surveyseal-frontend/hooks/useSurveySeal.tsx:295-323 | fails exactly when some cell's decryption throws; otherwise each row decoded as `DecodeRow` decodes it, and the handles sent are exactly the non-zero handles, row after row |
| SurveyHook.DecodeStatistics | surveyseal-frontend/hooks/useSurveySeal.tsx:254-334 | nothing when the guard fails, the call reverts, the result is empty, no signature is at hand, or a decryption throws; otherwise a count matrix of the handle matrix's shape with 0 for the zero hash and for non-bigint replies; the zero hash is never sent for decryption |
| SurveyHook.DecodedCellIsPlaintext | surveyseal-frontend/hooks/useSurveySeal.tsx:297-323 | with a relayer that decrypts honestly, the count shown for a ledger cell is its plaintext |
| SurveyHook.GetAllSurveys | surveyseal-frontend/hooks/useSurveySeal.tsx:381-431 | empty when the guard fails or the count cannot be read; otherwise exactly the readable active surveys below the count, as read, in increasing id order |
| SurveyHook.CollectAnswered | surveyseal-frontend/hooks/useSurveySeal.tsx:455-471 | in increasing id order, only surveys below the count that the user answered and that could be read, and every such survey |
| SurveyHook.Insert | surveyseal-frontend/hooks/useSurveySeal.tsx:473 | inserting keeps every element and adds exactly one |
| SurveyHook.InsertSorted | surveyseal-frontend/hooks/useSurveySeal.tsx:473 | inserting an entry with a new id into a list sorted newest first keeps it sorted |
| SurveyHook.SortByDate | surveyseal-frontend/hooks/useSurveySeal.tsx:473 | the sort is a permutation |
| SurveyHook.SortByDateSorted | surveyseal-frontend/hooks/useSurveySeal.tsx:473 | a list with distinct ids comes out newest first, ties in increasing id order |
| SurveyHook.GetMyAnsweredSurveys | surveyseal-frontend/hooks/useSurveySeal.tsx:433-482 | empty when the guard fails or the count cannot be read; otherwise exactly the readable surveys below the count that the user answered, as read, newest first with ties in increasing id order |
| Navbar.FormatAddress | surveyseal-frontend/components/Navbar.tsx:13-15 | the first six characters, "...", the last four, each part being the whole address when it is shorter |
| Navbar.FormattedAddressShape | surveyseal-frontend/components/Navbar.tsx:13-15 | an address of ten or more characters is shown in thirteen: its first six, "...", its last four |
| Navbar.ShortAddressRepeated | surveyseal-frontend/components/Navbar.tsx:13-15 | an address of four characters or fewer appears whole on both sides of the ellipsis |
| Navbar.GetNetworkName | surveyseal-frontend/components/Navbar.tsx:17-22 | "" for a missing or zero chain id, "Localhost" for 31337, "Sepolia" for 11155111, otherwise "Chain " and the id in decimal |
| Navbar.UnknownChainLabelNamesTheChain | surveyseal-frontend/components/Navbar.tsx:21 | the label of an unknown chain reads back as its id |
| Navbar.NetworkNamesDistinct | surveyseal-frontend/components/Navbar.tsx:17-22 | different non-zero chain ids get different labels |
| Navbar.IsActive | surveyseal-frontend/components/Navbar.tsx:24-26 | definition of `isActive`; the property is stated by `Navbar.ActiveLinks` and `Navbar.AtMostOneActiveLink` |
| Navbar.ActiveLinks | surveyseal-frontend/components/Navbar.tsx:24-26 | exactly the links whose target equals the current path are highlighted, in order |
| Navbar.AtMostOneActiveLink | surveyseal-frontend/components/Navbar.tsx:24-69 | with distinct targets, one link is highlighted when the path is a target and none otherwise, so sub-pages highlight none |
| Navbar.NavLinksDistinct | surveyseal-frontend/components/Navbar.tsx:37-69 | the bar's four link targets are distinct |

## Left out

- Homomorphic encryption itself is not modelled. This covers `createEncryptedInput`/`add32`/`encrypt`, `userDecrypt`, input-proof verification and the decryption signature. Handles are the sentinel or `Enc(p)`, and the hook takes encryption and decryption as parameters.
- The access-control grants that let a respondent's ciphertexts be added and the creator decrypt are not modelled. The test suite relies on the creator's grant: fhevm-hardhat-template/test/SurveySeal.ts:311-329 expects the creator's decryption of the first cell to give 1, which needs that grant. The model takes every creator decryption as allowed.
- The contract's Solidity source is not part of this model. Rules its tests do not assert are not modelled: title and description limits, deactivating a survey, and proof-failure reverts.
  - Every stored survey is active.
  - Two errors carry no asserted message: `SchemaLengthMismatch` (the three arrays differ in length) and `AnswerCountMismatch` (not one increment row per question).
  - A type code above 3 is refused as `UnknownQuestionType`.
- Increments are not checked to be a one-hot or 0/1 vector, in the ledger or in the hook. The model proves sums for whatever increments are accepted.
- Ledger.Submit: the order of the checks is an assumption of the model, not something the test suite fixes. Unknown survey comes first, then already answered, then shape, following the order in which the contract takes its steps. The suite has no test with an unknown survey, and none with an answer that is both repeated and misshaped.
- Wallet and chain plumbing is not modelled: providers, `tx.wait`, receipts, and the same-chain and same-signer refs. Their outcomes enter the guards as booleans in `SurveyHook.Session`.
- React machinery is not modelled. State setters, memoisation and the status `message`/`error` strings are left out. `isLoading` is modelled only as the guard's early return.
- `surveyseal-frontend/fhevm/useFhevm.tsx`, the deployment script and the other pages are not part of this model.
- SurveyHook.PrepareAnswer: `Number.parseInt` of each increment is not modelled; increments are integers already. `ethers.hexlify` is taken as the identity on handles.
- SurveyHook.GetSurveySealByChainId: the address book is a map from integer chain ids. A non-integer chain id and its string key are not modelled.
- SurveyHook.DecodeStatistics: a falsy `encryptedStats` other than an empty array is not modelled; the contract returns an array. A failing signature load and a reverting read both give `None`, as the source's catch does.
- SurveyHook.GetAllSurveys: the survey count is taken as a natural number. `Number(count)` beyond 2^53 is not modelled.
- SurveyHook.GetMyAnsweredSurveys: `createdAt` is an integer. `b.createdAt - a.createdAt` on floats beyond 2^53 is not modelled. The sort is stated by its result; the order of comparisons Array.prototype.sort makes is left out.
- CreateForm.CreateSurveyForm.UpdateQuestion: requires an existing question index. The page calls it only from a question's own controls; an out-of-range index would create a partial question.
- CreateForm.CreateSurveyForm.AddOption: requires an existing question index. An out-of-range index throws in the page.
- CreateForm.CreateSurveyForm.RemoveOption: requires an existing question index. An out-of-range index throws in the page.
- CreateForm.CreateSurveyForm.UpdateOption: requires existing question and option indices. An out-of-range option index would extend the options array with holes.
- CreateForm.CreateSurveyForm.AddOption: the page pushes into the options array shared with the previous state, because the copy is shallow. The model treats questions as values, so this aliasing is not captured.
- CreateForm.CreateSurveyForm.RemoveOption: the page assigns the filtered options to the question object shared with the previous state; this aliasing is not captured.
- CreateForm.CreateSurveyForm.UpdateOption: the page writes into the options array shared with the previous state; this aliasing is not captured.
- CreateForm.OptionCount: `ratingMax` is an integer. Fractional and NaN values from the number input are not modelled, nor is the negative count the contract would refuse to decode.
- CreateForm.CreateSurveyForm.HandleSubmit: `alert`, the `await createSurvey(...)` call and the redirect are left out. The outcome names the alert or the payload sent.
- Navbar.GetNetworkName: chain ids are integers. `NaN` and the exponent notation JavaScript uses for numbers of 10^21 and above are not modelled.
- HTML constraint validation is not modelled: `required` on the title and on each question's text (surveyseal-frontend/app/create/page.tsx:192 and 258) and `min`/`max` on the rating input (page.tsx:331-335). The browser applies them before the submit handler runs; the model follows the handler alone.
- Ciphertext handles are identified by their plaintext. A real result handle is derived from the operation and its operand handles, so two orders of addition give equal tally values but not necessarily equal handles.
- CreateForm.FilledOptions: the order of the kept options is not stated; only their count is used.
- Common.Slice: indices count Dafny `char`s, which are Unicode scalar values, while JavaScript's `slice` counts UTF-16 code units, so a string with a character outside the Basic Multilingual Plane is cut differently. Account addresses are hexadecimal, where the two agree. The same holds for Common.SliceFrom and Common.SliceIndex.
- Common.Trim: Unicode case and normalisation play no part in trim. Characters are Dafny `char`s, compared by code point.
