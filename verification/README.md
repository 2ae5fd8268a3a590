# Onboarding wizard: flow controller and answer store

A Dafny model of the onboarding wizard's core. A user picks a persona
("creator" or "entrepreneur"), waits on a loading screen, answers that
persona's seven questions one at a time, reviews and edits the answers, and
submits them.

The model covers three components:

- **Question stage** (`QuestionFlow`, from `components/QuestionFlow.tsx`).
  It holds the two static catalogs. Its answer store maps each question id
  to a string or to a chips selection. Its handlers toggle chips, including
  the `"Other"` sentinel. The free-text box writes `"Other: <text>"` into
  the selection and a reader decodes it back. The stage also covers
  single-answer overwrite, Next/Back navigation, the `canProceed` rule, and
  how answers are read back from the record when the stage is mounted.
- **Review surface** (`ReviewScreen`, from `components/ReviewScreen.tsx`).
  It has an edit buffer with one entry per question and one question open at
  a time. Save merges `{ ...data, ...buffer }` into the record; cancel re-reads
  the buffer from the record; submit hands `{ ...data, ...buffer }` to the
  completion handler, which does not store it.
- **Flow controller** (`OnboardingFlow`, from `components/OnboardingFlow.tsx`).
  It is the four-stage machine selection → loading → questions → review,
  with its handlers and render guards. It is composed with the two screens
  into one `Session` step function over user inputs. The step function takes
  the chip handler as a parameter: the source's own, or the one with the
  corrected `"Other"` toggle (see Findings). Over every sequence of inputs
  from the start, and with either handler:
  - the record's `userType` equals the chosen persona;
  - every stage after selection has a persona, so some screen is always rendered;
  - on the question screen every chips answer is an array and every other
    answer a string, and in review every text or dropdown answer is a string.

  With the corrected handler, `ReachableSessions` also proves that no chips
  answer on the question screen holds two `"Other"` entries. With the
  source's handler that bound fails, and `AsWrittenSessionDuplicatesOther`
  gives a run from the start that breaks it.

`OnboardingData` is modelled as one flat string-keyed record (`Data.Record`)
whose values are null, a string, or a string array. The `userType` tag sits
beside the answers, as in the source. Keeping the tag intact is therefore a
proof obligation: it holds because no catalog question has the id `userType`.

Supporting modules:
- `Strings`: JavaScript `trim`, `startsWith`, and `replace` with a string pattern.
- `Seqs`: `filter`, `findIndex`/`find`, counting, and subsequences.
- `Catalog`: the question type, both catalogs, and `Object.fromEntries`
  over a catalog.

Some facts about the code that the model keeps:
- Leaving review remounts the question stage at step 0
  (QuestionFlow.tsx:223), so the user comes back to the first question.
- There is no completed stage. `handleComplete` only logs and alerts the
  data (OnboardingFlow.tsx:56-60), so submit can be pressed again.
- A dropdown question allows Next once its answer is not `''`
  (QuestionFlow.tsx:477).
- Each catalog has seven questions (QuestionFlow.tsx:25-211).

## Model

| member | source | states |
|---|---|---|
| Strings.Trim | components/QuestionFlow.tsx:313-316 | `trim` leaves no white space at either end and is empty exactly when the input is all white space; the result is the infix of the input between an all-white-space prefix of `LeadingSpace` characters and an all-white-space suffix |
| Strings.LeadingSpaceIsMaximal | components/QuestionFlow.tsx:316 | the white space `trim` drops in front is a maximal run: all of it is white space and the character after it is not |
| Strings.TrailingSpaceIsMaximal | components/QuestionFlow.tsx:316 | the white space `trim` drops at the end is a maximal run: all of it is white space and the character before it is not |
| Strings.TrimDropsLeadingSpace | components/QuestionFlow.tsx:346 | trimming a space followed by trimmed text gives back that text, which is what reading `"Other: <t>"` relies on |
| Strings.IndexOfFrom | components/QuestionFlow.tsx:346 | the first occurrence of a pattern at or after a position, or none at all |
| Strings.ReplaceFirst | components/QuestionFlow.tsx:346 | `replace(p, rep)` with a string pattern: on a string starting with `p` exactly that prefix is replaced; a string in which `p` never occurs comes back unchanged; otherwise one occurrence is replaced, so the length changes by `\|rep\| - \|p\|` |
| Seqs.Remove | components/QuestionFlow.tsx:274 | `filter(item => item !== x)` leaves no `x` and keeps every other value as often as before |
| Seqs.FilterIsSubsequence | components/QuestionFlow.tsx:294 | filtering keeps the surviving entries in their original relative order |
| Seqs.FilterAgree | components/QuestionFlow.tsx:274 | two `filter` tests that agree on every entry keep the same entries |
| Seqs.FindFirst | components/QuestionFlow.tsx:311 | `findIndex` returns the first index satisfying the test, and none exactly when no entry satisfies it |
| Data.OrEmpty | components/ReviewScreen.tsx:26 | `v \|\| ''` keeps truthy values and turns null, undefined and `''` into `''` |
| Data.Spread | components/QuestionFlow.tsx:249-252 | `{ ...base, ...over }` has both key sets and every key of `over` wins |
| Catalog.Tabulate | components/ReviewScreen.tsx:25-27 | `Object.fromEntries(questions.map(...))` has exactly one key per question id |
| Catalog.TabulateLast | components/ReviewScreen.tsx:25-27 | the value kept for an id is that of its last question in the list, as later entries overwrite earlier ones |
| Catalog.CatalogSizes | components/QuestionFlow.tsx:25-211 | each catalog has seven questions |
| Catalog.CreatorOpeningQuestions | components/QuestionFlow.tsx:25-45 | the first creator question is the text question `channelName`, the second the chips question `contentType` offering `"Other"` |
| Catalog.CatalogIdsUnique | components/QuestionFlow.tsx:25-211 | ids are unique within each catalog |
| Catalog.CatalogsDisjoint | components/QuestionFlow.tsx:25-211 | the creator and entrepreneur catalogs share no id |
| Catalog.CatalogsWellFormed | components/QuestionFlow.tsx:25-211 | every dropdown and chips question lists options, every chips question ends with `"Other"`, and text questions list none |
| Catalog.NoQuestionIsUserType | components/OnboardingFlow.tsx:11-30 | no question id is `userType`, so merging answers never overwrites the persona tag |
| QuestionFlow.CatalogOptionsArePlain | components/QuestionFlow.tsx:25-211 | apart from the sentinel, no catalog option is an `"Other"` or `"Other:…"` entry |
| QuestionFlow.OtherEntry | components/QuestionFlow.tsx:313-326 | the entry written for typed text is `"Other: "` plus the trimmed text when that is non-empty, and otherwise a bare `"Other"` |
| QuestionFlow.EntryOfTrimmed | components/QuestionFlow.tsx:313-316 | text typed without surrounding white space is stored as `"Other: "` followed by that text |
| QuestionFlow.ToggleOption | components/QuestionFlow.tsx:288-302 | a plain chip click flips that option's membership (removing every occurrence, or appending it at the end) and keeps every other entry's multiplicity |
| QuestionFlow.ToggleOptionKeepsOrder | components/QuestionFlow.tsx:293-294 | removing a chip keeps all other entries, including any `"Other"` entry, in relative order |
| QuestionFlow.ToggleOptionTwice | components/QuestionFlow.tsx:288-302 | toggling an unselected chip twice restores the selection exactly |
| QuestionFlow.ToggleOptionTwiceMembership | components/QuestionFlow.tsx:288-302 | toggling any chip twice restores the membership of every option |
| QuestionFlow.ToggleOtherAsWritten | components/QuestionFlow.tsx:270-287 | the `"Other"` chip as written: with a bare `"Other"` present every bare `"Other"` goes and every other entry stays, as often as before and in its relative order; otherwise a bare `"Other"` is appended, even beside `"Other: …"` |
| QuestionFlow.AsWrittenToggleDuplicatesOther | components/QuestionFlow.tsx:272 | from `["Other: skateboarding"]` the as-written click yields two `"Other"` entries |
| QuestionFlow.AsWrittenToggleOfTyped | components/QuestionFlow.tsx:272-283 | for any text typed without surrounding white space, the as-written click on `["Other: <text>"]` appends a bare `"Other"`, leaving two `"Other"` entries |
| QuestionFlow.AsWrittenToggleAddsSecondOther | components/QuestionFlow.tsx:272-283 | whenever the only `"Other"` entries carry text, the as-written click adds one more `"Other"` entry, leaving at least two |
| QuestionFlow.ToggleOther | components/QuestionFlow.tsx:270-287 | the corrected `"Other"` click removes every `"Other"`/`"Other: …"` entry when one is highlighted, otherwise appends a bare `"Other"`; at most one remains |
| QuestionFlow.ToggleOtherKeepsOrder | components/QuestionFlow.tsx:274 | deselecting `"Other"` keeps the plain entries in relative order |
| QuestionFlow.ToggleOptionKeepsOtherCount | components/QuestionFlow.tsx:288-302 | a plain chip never changes how many `"Other"` entries the selection holds |
| QuestionFlow.SetOtherText | components/QuestionFlow.tsx:310-327 | only the first `"Other"`/`"Other:"` entry is rewritten, to the entry for the text; length and all other entries are unchanged, and with no such entry nothing changes |
| QuestionFlow.FirstEncodedAfterSet | components/QuestionFlow.tsx:311-316 | after non-blank text is typed, the first entry with the `Other:` prefix is the one just rewritten |
| QuestionFlow.DecodeEntry | components/QuestionFlow.tsx:316 | decoding the entry written for non-blank text gives its trimmed text |
| QuestionFlow.OtherTextRoundTrip | components/QuestionFlow.tsx:341-347 | reading back what the free-text box wrote yields exactly the trimmed text |
| QuestionFlow.OtherTextCleared | components/QuestionFlow.tsx:320-326 | clearing the text turns the entry back into a bare `"Other"` |
| QuestionFlow.InitialAnswer | components/QuestionFlow.tsx:228-238 | a chips answer is read as an array: an array is kept, a non-empty string is wrapped, and a missing or empty value gives `[]`; other answers are `value \|\| ''` |
| QuestionFlow.InitialAnswers | components/QuestionFlow.tsx:226-240 | the initial answer store has exactly one entry per catalog question, each read from the record |
| QuestionFlow.Mount | components/QuestionFlow.tsx:223-242 | a mount starts at step 0 with no scratch text and an answer for every catalog id; with unique ids, each answer is the initial answer read from the record for that id |
| QuestionFlow.HandleChipToggle | components/QuestionFlow.tsx:266-303 | a chip click changes only the current question's answer, drops the scratch text when `"Other"` is deselected, keeps the step, and sends `{ ...data, ...answers }` |
| QuestionFlow.HandleChipToggleAsWritten | components/QuestionFlow.tsx:266-303 | the source's chip click: only the current answer changes, by `ToggleOtherAsWritten` for `"Other"` and `ToggleOption` otherwise; the scratch text is dropped only when a bare `"Other"` was present; the step is kept and `{ ...data, ...answers }` is sent |
| QuestionFlow.ChipTogglesAgreeWithoutText | components/QuestionFlow.tsx:266-303 | while every `"Other"` entry of the selection is the bare chip, the source's handler and the corrected one give the same result |
| QuestionFlow.AsWrittenHandlersDuplicateOther | components/QuestionFlow.tsx:266-328 | on a chips question with nothing selected, clicking `"Other"`, typing `skateboarding` and clicking `"Other"` again leaves `["Other: skateboarding", "Other"]` with the source's handler |
| QuestionFlow.CorrectedHandlersClearOther | components/QuestionFlow.tsx:266-328 | the same three inputs leave the selection empty with the corrected handler |
| QuestionFlow.HandleOtherTextChange | components/QuestionFlow.tsx:305-328 | the raw text always becomes the scratch text; the answer changes, and the parent is told, only when an `"Other"` entry exists |
| QuestionFlow.OtherTextChangeRoundTrip | components/QuestionFlow.tsx:305-350 | after typing non-blank text, `getOtherTextFromAnswer` for the question returns the trimmed text |
| QuestionFlow.HandleAnswer | components/QuestionFlow.tsx:330-334 | a single answer overwrites only the current question's key and keeps the step |
| QuestionFlow.HandleNext | components/QuestionFlow.tsx:244-255 | Next advances below the last step; on the last step it emits `{ ...data, ...answers }` for review and keeps the step; the step stays in range |
| QuestionFlow.HandleBack | components/QuestionFlow.tsx:257-264 | Back steps back above 0; at step 0 it asks to return to selection; the step stays in range |
| QuestionFlow.CanProceedIff | components/QuestionFlow.tsx:472-477 | once every answer has its question's type, whatever its `"Other"` entries, Next is allowed exactly when a text answer is non-blank after trimming, a chips selection is non-empty, or a dropdown answer is not `''` |
| QuestionFlow.MountFits | components/QuestionFlow.tsx:226-241 | answers read from a well-shaped record: arrays for chips, strings otherwise, at most one `"Other"` entry |
| QuestionFlow.SpreadFits | components/QuestionFlow.tsx:249-252 | merging a well-shaped answer store into the record keeps the record well shaped |
| QuestionFlow.ChipToggleKeepsShape | components/QuestionFlow.tsx:266-303 | with the corrected `"Other"` toggle, chip clicks on catalog options keep the answer store well shaped, with at most one `"Other"` entry |
| QuestionFlow.OtherTextChangeKeepsShape | components/QuestionFlow.tsx:305-328 | typing `"Other"` text keeps the answer store well shaped |
| QuestionFlow.AnswerKeepsShape | components/QuestionFlow.tsx:330-334 | a single answer keeps the answer store well shaped |
| QuestionFlow.MountTyped | components/QuestionFlow.tsx:226-241 | answers read from a record of storable types are arrays for chips and strings otherwise, one per catalog id |
| QuestionFlow.SpreadTyped | components/QuestionFlow.tsx:249-252 | merging a typed answer store into the record keeps the record's types |
| QuestionFlow.UpdateKeepsType | components/QuestionFlow.tsx:266-334 | a handler that changes only the current answer, to a value of its question's type, keeps the answer store typed |
| QuestionFlow.SelectionsOf | components/QuestionFlow.tsx:268 | `(answers[id] as string[]) \|\| []`: a stored array is the selection, anything else reads as no selection |
| QuestionFlow.DecodeOtherText | components/QuestionFlow.tsx:341-350 | the text read back is trimmed; it is empty when no entry carries the `Other:` prefix, and otherwise it is the first such entry with the prefix removed, trimmed |
| QuestionFlow.OtherTextFromAnswer | components/QuestionFlow.tsx:341-350 | `getOtherTextFromAnswer` is empty for a question that is not chips or whose answer is not an array, and for chips it decodes the current selection; the result is always trimmed |
| QuestionFlow.CanProceed | components/QuestionFlow.tsx:472-477 | `canProceed` only allows Next on a truthy answer, and on a text question only on a string |
| ReviewScreen.Buffer | components/ReviewScreen.tsx:24-28 | the edit buffer has one entry per catalog question, read from the record, with a missing value becoming `''` |
| ReviewScreen.Mount | components/ReviewScreen.tsx:23-28 | on mount nothing is open for editing, the buffer covers the catalog, and with unique ids it holds `data[id] \|\| ''` for every question |
| ReviewScreen.HandleEdit | components/ReviewScreen.tsx:39-41 | exactly the clicked question is in edit mode afterwards, and the buffer is untouched |
| ReviewScreen.SetField | components/ReviewScreen.tsx:192 | a chip click or a text/select change in the editor replaces that one answer with a plain string |
| ReviewScreen.HandleSave | components/ReviewScreen.tsx:43-54 | save writes only that id and closes the editor; the record sent up has the saved value, the buffer's other ids, and every other property of the record |
| ReviewScreen.HandleCancel | components/ReviewScreen.tsx:56-64 | cancel closes the editor and drops every unsaved change, leaving the state of a fresh mount |
| ReviewScreen.HandleSubmit | components/ReviewScreen.tsx:66-72 | submit sends `{ ...data, ...buffer }`, including unsaved changes, and leaves the screen unchanged |
| ReviewScreen.SubmitCarriesEverything | components/ReviewScreen.tsx:66-72 | the submitted record has every catalog id and the persona tag unchanged |
| ReviewScreen.BufferFitsData | components/ReviewScreen.tsx:24-28 | a buffer read from a well-shaped record holds a storable value for every id |
| ReviewScreen.SpreadBufferFits | components/ReviewScreen.tsx:49-52 | merging the buffer keeps the record well shaped |
| ReviewScreen.BufferTypedData | components/ReviewScreen.tsx:24-28 | a buffer read from a record of storable types holds one value of a storable type per catalog id |
| ReviewScreen.SpreadBufferTyped | components/ReviewScreen.tsx:49-52 | merging a typed buffer keeps the record's types |
| ReviewScreen.ResyncAfterSave | components/ReviewScreen.tsx:30-37 | re-reading the buffer from the record a save produced gives back exactly the saved buffer |
| ReviewScreen.ChipPickRoundTrip | components/ReviewScreen.tsx:192 | a chip picked in review is saved as a string and becomes a one-element selection when the question stage mounts again |
| OnboardingFlow.HandleSelection | components/OnboardingFlow.tsx:41-45 | choosing a persona sets it, resets the record to just `{ userType: p }`, and moves to loading |
| OnboardingFlow.HandleLoadingComplete | components/OnboardingFlow.tsx:47-49 | loading completion moves to questions and keeps record and persona |
| OnboardingFlow.HandleReview | components/OnboardingFlow.tsx:51-54 | reaching review replaces the record with the snapshot, moves to review, and keeps the persona |
| OnboardingFlow.HandleComplete | components/OnboardingFlow.tsx:56-60 | completion changes neither stage, record nor persona |
| OnboardingFlow.HandleBackToQuestions | components/OnboardingFlow.tsx:62-64 | going back from review moves to questions and keeps the record |
| OnboardingFlow.HandleBackToSelection | components/OnboardingFlow.tsx:66-70 | going back to selection clears the persona, resets the record to `{ userType: null }`, and moves to selection |
| OnboardingFlow.Render | components/OnboardingFlow.tsx:72-105 | selection renders the selection screen; loading, questions and review render their screen for the persona when there is one, and nothing without one |
| OnboardingFlow.EditingQuestion | components/ReviewScreen.tsx:74-77 | the question whose editor is open is a catalog question with the open id, and an open id that belongs to the catalog is always found |
| OnboardingFlow.ChipToggle | components/QuestionFlow.tsx:266-303 | with either chip handler a chip click keeps the step, changes only the current answer, to an array, and sends `{ ...data, ...answers }` |
| OnboardingFlow.Offers | components/QuestionFlow.tsx:366-402 | a single answer never comes from a chips question, only from the text box or the dropdown, and the text box accepts any text |
| OnboardingFlow.EnterQuestions | components/QuestionFlow.tsx:223-242 | entering the question stage mounts it at step 0 with no scratch text and an answer per catalog id, and leaves controller and review screen alone |
| OnboardingFlow.Deliver | components/OnboardingFlow.tsx:80-91 | the screen's state is kept; `onUpdate` stores the record, `onReview` stores it, moves to review and mounts the review screen on it, `onBackToSelection` resets to the start, and a quiet reaction changes nothing else |
| OnboardingFlow.QuestionsStep | components/QuestionFlow.tsx:366-650 | the stage stays, moves to review or resets to the start; a chip outside the options (lines 433-440), typing while no `"Other"` entry is selected (line 452), a single answer the input cannot offer (lines 394-400) and Next while `canProceed` is false (lines 378, 647) change nothing |
| OnboardingFlow.ReviewStep | components/ReviewScreen.tsx:74-268 | review keeps the persona and stays in review unless Back to Questions is pressed; editor changes, Save and Cancel do nothing while no editor is open (lines 79-96); Edit on an unknown id does nothing; submit changes neither controller nor screen |
| OnboardingFlow.Save | components/ReviewScreen.tsx:43-54 | a save stores `editedAnswers[id] \|\| ''` for `id`, keeps every other buffered value and every other record property, closes the editor and re-reads a buffer per catalog id; stage and persona stay |
| OnboardingFlow.Step | components/OnboardingFlow.tsx:72-105 | each input moves the stage only along selection → loading → questions → review, questions → selection or review → questions; with nothing rendered it changes nothing; the persona changes only by choosing on the selection screen or by the reset to the start |
| OnboardingFlow.SpreadKeepsTag | components/QuestionFlow.tsx:249-252 | merging catalog-keyed answers keeps the record's `userType` |
| OnboardingFlow.DeliverKeepsInv | components/OnboardingFlow.tsx:80-91 | storing `onUpdate`/`onReview` snapshots of the answers keeps the persona tag and the record shaped; `onBackToSelection` clears the persona consistently |
| OnboardingFlow.QuestionsStepKeepsInv | components/QuestionFlow.tsx:244-264 | with the corrected `"Other"` toggle, every question-stage input, Next and Back included, keeps the controller consistent and either keeps the persona with the session shaped or clears the persona |
| OnboardingFlow.ChipStepKeepsInv | components/QuestionFlow.tsx:266-303 | with the corrected `"Other"` toggle, a click on a listed chip keeps the persona tag and the session shaped |
| OnboardingFlow.OtherTextStepKeepsInv | components/QuestionFlow.tsx:305-328 | typing in the `"Other"` box keeps the persona tag and the session shaped |
| OnboardingFlow.AnswerStepKeepsInv | components/QuestionFlow.tsx:330-334 | a typed or chosen single answer keeps the persona tag and the session shaped |
| OnboardingFlow.SaveKeepsInv | components/ReviewScreen.tsx:43-54 | a save, with the buffer re-read afterwards, keeps the persona tag and the record and buffer well shaped |
| OnboardingFlow.EditKeepsBuffer | components/ReviewScreen.tsx:107 | editor changes keep the buffer well shaped |
| OnboardingFlow.ReviewStepKeepsInv | components/ReviewScreen.tsx:39-72 | every review input keeps the controller consistent and the persona and buffer shaped |
| OnboardingFlow.ReviewNavKeepsInv | components/ReviewScreen.tsx:56-64 | opening an editor, cancelling, submitting and going back to the questions keep the persona tag and the session shaped |
| OnboardingFlow.StepKeepsInv | components/OnboardingFlow.tsx:41-105 | with the corrected `"Other"` toggle, every input on whichever screen is rendered keeps the session invariant |
| OnboardingFlow.RunKeepsInv | components/OnboardingFlow.tsx:41-105 | with the corrected `"Other"` toggle, any sequence of inputs keeps the session invariant |
| OnboardingFlow.ReachableSessions | components/OnboardingFlow.tsx:35-105 | with the corrected `"Other"` toggle, in every reachable session the record's `userType` equals the persona, stages past selection have one, a screen is rendered, and chips answers on the question screen hold at most one `"Other"` entry |
| OnboardingFlow.DeliverKeepsTag | components/OnboardingFlow.tsx:80-91 | storing snapshots of an answer store with one value of the right type per catalog question keeps the persona tag and the record's types, whatever the `"Other"` entries; the review buffer mounted from the snapshot is typed too |
| OnboardingFlow.QuestionsStepKeepsTag | components/QuestionFlow.tsx:244-334 | every question-stage input, with either chip handler, keeps the controller consistent, the step in range and the answer types (arrays for chips, strings otherwise), or clears the persona |
| OnboardingFlow.ChipStepKeepsTag | components/QuestionFlow.tsx:266-303 | a click on a listed chip, with either chip handler, keeps the persona tag and the answer and record types |
| OnboardingFlow.OtherTextStepKeepsTag | components/QuestionFlow.tsx:305-328 | typing in the `"Other"` box keeps the persona tag and the answer and record types |
| OnboardingFlow.AnswerStepKeepsTag | components/QuestionFlow.tsx:330-334 | a typed or chosen single answer keeps the persona tag and the answer and record types |
| OnboardingFlow.ReviewStepKeepsTag | components/ReviewScreen.tsx:39-72 | every review input keeps the controller consistent, the record's types, and a buffer with one value of a storable type per catalog question |
| OnboardingFlow.ReviewNavKeepsTag | components/ReviewScreen.tsx:56-64 | opening an editor, cancelling, submitting and going back to the questions keep the persona tag and the types of record, buffer and remounted answers |
| OnboardingFlow.SaveKeepsTag | components/ReviewScreen.tsx:43-54 | a save, with the buffer re-read afterwards, keeps stage, persona tag and the types of record and buffer, whatever the `"Other"` entries |
| OnboardingFlow.EditKeepsBufferTyped | components/ReviewScreen.tsx:107 | editor changes write a string, which keeps every buffer value of a storable type |
| OnboardingFlow.StepKeepsTag | components/OnboardingFlow.tsx:41-105 | every input, with either chip handler, keeps the tag invariant: persona tag plus answer, buffer and record types, with no bound on `"Other"` entries |
| OnboardingFlow.RunKeepsTag | components/OnboardingFlow.tsx:41-105 | any sequence of inputs, with either chip handler, keeps the tag invariant |
| OnboardingFlow.ReachableSessionsEitherHandler | components/OnboardingFlow.tsx:35-105 | with the source's chip handler as well as the corrected one, in every reachable session the record's `userType` equals the persona, stages past selection have one, a screen is rendered, chips answers on the question screen are arrays and other answers strings, and text and dropdown answers in the review buffer are strings |
| OnboardingFlow.RunAppend | components/OnboardingFlow.tsx:41-105 | running two input sequences one after the other is running their concatenation |
| OnboardingFlow.ChipClickOnScreen | components/QuestionFlow.tsx:266-303 | a chip click on the question screen keeps the screen and persona and leaves the handler's flow state |
| OnboardingFlow.TypingOnScreen | components/QuestionFlow.tsx:305-328 | typing in the `"Other"` box keeps the screen and persona and leaves the handler's flow state |
| OnboardingFlow.AnswerOnScreen | components/QuestionFlow.tsx:330-334 | a typed answer on the question screen keeps the screen and step and replaces only that answer |
| OnboardingFlow.NextOnScreen | components/QuestionFlow.tsx:244-255 | Next on an answered question before the last moves one question on and keeps the answers |
| OnboardingFlow.MountedContentTypeEmpty | components/QuestionFlow.tsx:226-238 | a fresh creator mount on the bare persona record has no `contentType` selection |
| OnboardingFlow.OpeningReachesContentType | components/OnboardingFlow.tsx:41-49 | choosing the creator, finishing loading, naming the channel and pressing Next shows the `contentType` question with nothing selected |
| OnboardingFlow.OtherClicksOnScreen | components/QuestionFlow.tsx:266-328 | on the question screen, clicking `"Other"`, typing `skateboarding` and clicking `"Other"` again keep the screen and persona and leave two `"Other"` entries with the source's handler and none with the corrected one |
| OnboardingFlow.OtherClicksInSession | components/QuestionFlow.tsx:266-328 | the same inputs through the session's step function, on any chips question with nothing selected |
| OnboardingFlow.AsWrittenSessionDuplicatesOther | components/QuestionFlow.tsx:272 | from the start, a creator who names the channel and then clicks `"Other"`, types `skateboarding` and clicks `"Other"` again has two `"Other"` entries for `contentType` with the source's handler, and none with the corrected one |

## Findings

| source | as written | input that shows it | evidently intended | confidence | as-written member | corrected member |
|---|---|---|---|---|---|---|
| components/QuestionFlow.tsx:272 | the `"Other"` chip counts as selected only when a bare `"Other"` entry is present | choose `"Other"`, type `skateboarding` (answer `["Other: skateboarding"]`, chip highlighted), click `"Other"` again: the answer becomes `["Other: skateboarding", "Other"]` | the click deselects: every `"Other"`/`"Other: …"` entry and the scratch text are removed, as the highlighted chip (lines 434-436) and the comment at line 273 suggest | not executed; high | OnboardingFlow.AsWrittenSessionDuplicatesOther | QuestionFlow.ToggleOther |

The source's handler is `QuestionFlow.HandleChipToggleAsWritten`, built on
`ToggleOtherAsWritten`. `AsWrittenToggleAddsSecondOther` shows the list edit
adding a second `"Other"` entry whenever the only ones carry text.
`AsWrittenSessionDuplicatesOther` runs the whole session from the start
with that handler and reaches two entries. The corrected handler
`QuestionFlow.HandleChipToggle`, built on `ToggleOther`, agrees with the
source's wherever no `"Other"` entry carries text
(`ChipTogglesAgreeWithoutText`). With it, `ReachableSessions` proves that
no chips answer on the question screen holds two `"Other"` entries.

## Left out

- `components/SelectionScreen.tsx` is rendering and hover state. It is modelled only as the `Choose(p)` input with the two personas.
- `components/LoadingScreen.tsx` has timers, a `Math.random()` duration, rotating messages and a fade. It is modelled only as the `LoadingFinished` input on the loading screen. Timer cancellation is not modelled.
- `components/WelcomeScreen.tsx` is static markup that is not wired into the flow.
- JSX, CSS classes and SVG are left out, and so is the progress bar. Its percentage is floating-point `Math.round` (QuestionFlow.tsx:489, 495).
- The `console.log` and `alert` in `handleComplete` are I/O. The model keeps only the fact that neither stage nor record changes.
- The `useEffect` that re-seeds scratch text from a stored `"Other: …"` entry (QuestionFlow.tsx:353-364) is hook scheduling, and so is the choice of displayed text at line 428. Scratch text is a plain map that the handlers edit.
- React's batching and re-render timing are not modelled. Each input is one atomic step that reads the state current at that input.
- Strings.Trim: whitespace means ASCII spaces, tab, the line terminators, U+000B, U+000C and U+00A0. JavaScript's `trim` also strips the other Unicode space separators, U+2028/U+2029 and U+FEFF, which are not modelled.
- JavaScript `undefined` and `null` are both read as `Null`, because every use in the source treats them alike.
- A chips answer that is a string (not an array) would be handled by the source as a string of characters. The model reads it as an empty selection (`QuestionFlow.SelectionsOf`). The state cannot arise: every mount turns it into an array, and `ReachableSessionsEitherHandler` proves, with either chip handler, that chips answers on the question screen are arrays.
- A text question whose answer is an array would make `canProceed` throw. The model reads it as "cannot proceed". `ReachableSessionsEitherHandler` proves, with either chip handler, that text answers on the question screen are strings.
- QuestionFlow.HandleChipToggle: uses the corrected `"Other"` toggle (see Findings), so on a selection holding `"Other: <text>"` it differs from the source. The source's handler is `QuestionFlow.HandleChipToggleAsWritten`.
- OnboardingFlow.ReachableSessions: the bound of one `"Other"` entry holds only with the corrected chip handler. With the source's handler, `ReachableSessionsEitherHandler` proves the persona facts and the answer types without that bound, and `AsWrittenSessionDuplicatesOther` shows the bound fails.
- Property order inside JavaScript objects is not modelled, because records are maps.
