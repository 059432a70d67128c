# RadAI study app: trial flow and disagreement gate

The study app walks one participant through a consent screen, a calibration
screen and one trial per radiology case vignette, and logs one response record
per case. Before a trial is committed, a one-shot warning gate checks whether
the participant looked at the AI finding and whether their note seems to
disagree with it. This project models that core of `src/App.tsx` and proves
what it promises.

- `JsText` (`jstext.dfy`): the JavaScript string primitives the app uses.
  `toLowerCase` is lower-casing of ASCII letters. The regular-expression class
  `\s` and the set `trim` removes are the same set of characters, written out
  in full. `includes` is the substring test.
- `Detector` (`detector.dfy`): `isLikelyDisagreement`, as the exact pipeline
  the code runs: lower-case, keep `a`-`z` and whitespace, split on runs of
  whitespace, drop empty pieces, drop stop words, then count the keywords found
  in the lower-cased note. The lemmas give its meaning: the iff characterisation,
  the shape of a keyword, the empty-keyword and empty-note cases,
  case-insensitivity, and agreement that survives text added around the note.
- `DetectorExamples` (`detector_examples.dfy`): the detector on the first
  case's finding, "Right lower-lobe pneumonia detected.", stage by stage. Its
  keywords are "right", "lowerlobe" and "pneumonia". The note "Stable
  appearance, no concern." is a likely disagreement, and "Findings consistent
  with pneumonia in the right base." is not.
- `TrialFlow` (`trialflow.dfy`): the component's state as a `Session` class.
  Each user action is a method with `modifies this`: typing the ID, Begin,
  Continue, the reliance buttons, the slider, the note box, the reveal button,
  the advance button, and the three resolutions of the warning. `next()` is
  `Commit`. Every method keeps the invariant `Valid()`, which says:
  - the trial index is in range;
  - the log holds one record per committed case, each taken from the case at
    its own position;
  - a session that has not started holds no records and fresh inputs;
  - the warning is only up on a trial that has a choice and has been warned.

  The step only moves forward, and at `Done` the log's trial ids are the case
  ids in order. The study's case ids are distinct, so at `Done` each case is
  logged exactly once.

Each handler reads the values of the render it was created in. So the advance
button's second `setTrial(trial + 1)` gives the same value as the one inside
`next()`: one commit moves exactly one case forward, and `Advance` states that.
A reader might expect the per-trial flag `warnedThisTrial` to reset whenever
the case changes. The code resets it only on the advance button's path.
"Continue Anyway" calls `next()` alone, so the flag stays set on the next case,
and that case's first advance skips the gate. The model follows the code.
`ContinueAnyway` states the carried flag, and `CarriedWarning` plays the
scenario through on the study's three cases. The stop list in the code has 22
words, and the model uses exactly those.

A button that is disabled or not on screen does nothing when it is pressed, so
each such method is total and leaves the state unchanged in that case. While the
warning is up, the modal covers the page for the mouse (`src/App.tsx:703-704`).
It does not trap keyboard focus, and no handler checks `showWarn`. So the
reliance buttons, the slider, the note box and the reveal button still act
behind the warning, and the model lets them. The advance button is the
exception: run behind the warning it breaks the log (see "## Findings"), so
`Advance` models the intended handler, which does nothing then, and
`AdvanceAsWritten` models the handler as written.

## Model

| member | source | states |
|---|---|---|
| JsText.LowerChar | src/App.tsx:102 | the lower-cased character is never a capital ASCII letter and differs from the input at most in letter case, so a capital becomes its lower-case letter and every other character stays |
| JsText.ToLower | src/App.tsx:102-107 | `toLowerCase()` keeps the length, leaves no capital ASCII letter and changes each character at most in letter case |
| JsText.SameCharIffSameLower | src/App.tsx:102 | two characters lower-case alike exactly when they are equal or the same ASCII letter in two cases |
| JsText.SameUpToCaseIffSameLower | src/App.tsx:102-107 | two strings lower-case to the same string exactly when they differ only in the case of ASCII letters |
| JsText.TrimStart | src/App.tsx:222 | the result is a suffix of the input, starts with a non-whitespace character or is empty, and only whitespace was removed |
| JsText.TrimEnd | src/App.tsx:222 | the result is a prefix of the input, ends with a non-whitespace character or is empty, and only whitespace was removed |
| JsText.Trim | src/App.tsx:222 | `trim()` gives a part of the input with only whitespace before and after it, which begins and ends with a non-whitespace character unless empty |
| JsText.TrimEmptyIffBlank | src/App.tsx:222 | `s.trim()` is empty (falsy) exactly when every character of `s` is whitespace |
| JsText.Includes | src/App.tsx:107 | `hay.includes(needle)` holds exactly when `needle` stands at some position of `hay` |
| JsText.IncludesWithin | src/App.tsx:107 | a substring of a text stays a substring when text is added before or after it |
| JsText.IsSpace | src/App.tsx:103-104 | the class `\s`: the characters of ECMAScript's WhiteSpace and LineTerminator productions |
| Detector.StripNonLetters | src/App.tsx:103 | `replace(/[^a-z\s]/g, "")` leaves only letters `a`-`z` and whitespace, and is no longer than its input |
| Detector.StripNonLettersKeeps | src/App.tsx:103 | every kept character comes from the input, every letter `a`-`z` and whitespace character of the input is kept, and text made only of those is unchanged |
| Detector.StripNonLettersConcat | src/App.tsx:103 | stripping distributes over concatenation |
| Detector.SplitOnSpaceRuns | src/App.tsx:104 | `split(/\s+/)` gives at least one piece, and no piece holds whitespace |
| Detector.SplitPiecesFromInput | src/App.tsx:104 | every character of every piece comes from the input |
| Detector.SplitKeepsNonSpace | src/App.tsx:104 | the pieces of a split, laid end to end, are the input's non-whitespace characters in order |
| Detector.SplitWordThenRun | src/App.tsx:104 | a whitespace-free word followed by any whitespace run splits into the word and the split of the rest; a leading run gives an empty first piece and a trailing run an empty last piece |
| Detector.SplitJoinRoundTrip | src/App.tsx:104 | whitespace-free pieces, empty only at the ends, joined by any non-empty whitespace runs, split back into the same pieces |
| Detector.DropEmpty | src/App.tsx:105 | `filter(Boolean)` keeps, as a set of words, exactly the non-empty pieces, and never lengthens the list |
| Detector.RemoveStopWords | src/App.tsx:77-106 | as a set of words, a word survives exactly when it was present and is not one of the 22 stop words |
| Detector.Keywords | src/App.tsx:101-106 | every keyword is a non-empty word of the letters `a`-`z` and is not a stop word |
| Detector.Hits | src/App.tsx:107 | as a set of words, a word is a hit exactly when it is a keyword and the note includes it; there are no more hits than keywords |
| Detector.IsLikelyDisagreement | src/App.tsx:76-109 | true exactly when the finding has a keyword and no keyword is a substring of the lower-cased note |
| Detector.DisagreementIffNoOccurrence | src/App.tsx:106-108 | true exactly when the finding has a keyword and no keyword stands at any position of the lower-cased note |
| Detector.NoKeywordsNoDisagreement | src/App.tsx:108 | a finding without keywords never signals a disagreement, whatever the note |
| Detector.EmptyNoteDisagreesIffKeywords | src/App.tsx:106-108 | called directly with an empty note, the result is true exactly when the finding has a keyword |
| Detector.CaseInsensitive | src/App.tsx:102-107 | changing the letter case of the note or of the finding does not change the result |
| Detector.AgreementSurvivesEditsAround | src/App.tsx:107-108 | once the note shares a keyword with the finding, adding text before or after the note keeps the result false |
| DetectorExamples.PneumoniaKeywords | src/App.tsx:101-106 | the keywords of "Right lower-lobe pneumonia detected." are "right", "lowerlobe" and "pneumonia" |
| DetectorExamples.StableNoteDisagrees | src/App.tsx:106-108 | "Stable appearance, no concern." is a likely disagreement with that finding |
| DetectorExamples.PneumoniaNoteAgrees | src/App.tsx:106-108 | "Findings consistent with pneumonia in the right base." is not a likely disagreement with that finding |
| TrialFlow.StudyCasesWellFormed | src/App.tsx:18-54 | the three study cases have distinct ids and AI confidences from 0 to 100 |
| TrialFlow.GateBlocks | src/App.tsx:351-356 | the gate blocks exactly when the finding is hidden, or the note has a non-whitespace character and shares no keyword with the finding |
| TrialFlow.Session.Entry | src/App.tsx:125-137 | the record built from the current case, ID and inputs fits the log exactly when a choice is made and the confidence is a percentage |
| TrialFlow.Session.Progress | src/App.tsx:75 | the progress percentage is at least 0 and below 100, and is 0 outside the trial screen |
| TrialFlow.Session.constructor | src/App.tsx:60-72 | a new session is on the consent screen with an empty ID, no records and the default inputs |
| TrialFlow.Session.EditPid | src/App.tsx:214-218 | typing sets the ID on the consent screen only and changes nothing else |
| TrialFlow.Session.Begin | src/App.tsx:221-223 | Begin moves consent to onboarding exactly when the trimmed ID is non-empty, and changes nothing else |
| TrialFlow.Session.StartTrials | src/App.tsx:245 | Continue moves onboarding to the first trial and changes nothing else |
| TrialFlow.Session.Choose | src/App.tsx:310-321 | a reliance button sets the choice on the trial screen, also behind the warning, and changes nothing else |
| TrialFlow.Session.SetConfidence | src/App.tsx:329-334 | the slider sets the confidence, in 0 to 100, on the trial screen, also behind the warning, and changes nothing else |
| TrialFlow.Session.EditNote | src/App.tsx:299-302 | typing sets the note on the trial screen, also behind the warning, and changes nothing else |
| TrialFlow.Session.RevealFinding | src/App.tsx:276-282 | the reveal button shows the finding on the trial screen, also behind the warning, and changes nothing else |
| TrialFlow.Session.Commit | src/App.tsx:124-150 | `next()` appends exactly one record built from the current case, ID and inputs, then moves to the next case with fresh inputs, or to `Done` on the last case; the warning flag is untouched |
| TrialFlow.Session.Advance | src/App.tsx:347-373 | the intended handler: inert while the warning is up, disabled without a choice; an unwarned trial whose gate blocks raises the warning and changes nothing else; otherwise exactly one commit and one step forward, with the warning flag reset unless the session finished; at `Done` the log's trial ids are the case ids in order |
| TrialFlow.Session.KeepEditing | src/App.tsx:401-433 | Keep Editing and a backdrop click only close the warning |
| TrialFlow.Session.RevealFromWarning | src/App.tsx:417-427 | Reveal RadAI, offered while the finding is hidden, reveals it and closes the warning without a commit |
| TrialFlow.Session.ContinueAnyway | src/App.tsx:434-442 | Continue Anyway closes the warning and commits through `next()` alone, so the warning flag stays set |
| TrialFlow.Session.NextAsWritten | src/App.tsx:124-150 | `next()` as written, on any screen: it appends the current case's record, then moves to the next case with fresh inputs, or sets `Done` on the last case, also when already done |
| TrialFlow.Session.AdvanceAsWritten | src/App.tsx:347-373 | the handler as written: it acts whenever the button is on screen with a choice, also behind the warning, and once warned it skips the gate and commits |
| TrialFlow.Session.ContinueAnywayAsWritten | src/App.tsx:434-442 | Continue Anyway as written: it closes the warning and runs `next()` whatever screen lies behind it |
| TrialFlow.EnterBehindWarningOnLastCase | src/App.tsx:347-442 | on the last case with the finding hidden, Finish, Enter and Continue Anyway leave the log with one record more than there are cases, the last case twice |
| TrialFlow.EnterBehindWarningMidway | src/App.tsx:347-442 | on an earlier case with the finding hidden, Next Case, Enter and Continue Anyway log the next case with no choice |
| TrialFlow.CarriedWarning | src/App.tsx:347-442 | after Continue Anyway on the first case, the first advance of the second case commits without a warning although its finding was never revealed |

## Left out

- `logToSheet` (`src/App.tsx:111-123`) posts each record to a remote sheet and swallows its errors. It is network I/O with no effect on the state, so a commit only appends to the log.
- `nowIso` (`src/App.tsx:56-58`) reads the clock. The timestamp is a parameter of `Commit`, `Advance` and `ContinueAnyway`.
- The record's `radiologist` field (`src/App.tsx:130`) reads a property the cases do not have, so it is always undefined. It is not in `TrialResponse`.
- The cases' image URL and alt text, the image panel and lightbox, the presentational components, the stylesheet and the JSON dump on the done screen are rendering only.
- `JsText.LowerChar`: only ASCII letters are lower-cased. JavaScript's `toLowerCase` also maps other Unicode letters, for example U+0130 or the Kelvin sign, some of them to two characters.
- `TrialFlow.Session.Advance`: does nothing while the warning is up, which the handler does not check. The handler as written is `AdvanceAsWritten`; the log it can produce (a commit behind the modal, a record with no choice, the last case logged twice) is shown under "## Findings".
- `TrialFlow.Session.Progress`: computes over exact reals, while the source divides in floating point (`1 / 3 * 100` is not exactly a third of 100 there). The bar's `Math.min(progress, 100)` (`src/App.tsx:199`) is not modelled; the bound `Progress` proves makes it a no-op.
- `TrialFlow.Session.SetConfidence`: takes a value from 0 to 100 as a precondition, because the range input only produces those values.
- `TrialFlow.Session.Advance`: the handler's own resets after `next()` are written only for the warning flag. The trial index, inputs and step it sets again already hold those values, as it reads the same render.
- React's batching of state updates and re-rendering are not modelled. Each handler is one atomic transition.

## Findings

| source | as written | input that shows it | evidently intended | confidence | as-written member | corrected member |
|---|---|---|---|---|---|---|
| src/App.tsx:347-373 | the Next Case / Finish handler does not check `showWarn`, the button keeps keyboard focus behind the modal, and `next()` does not check the step | last case, a choice made, finding hidden: click Finish, press Enter, click Continue Anyway; the log ends with one record more than there are cases, the last case twice | the advance does nothing while the warning is up, so the log holds one record per case | not executed | TrialFlow.EnterBehindWarningOnLastCase | TrialFlow.Session.Advance |
| src/App.tsx:347-373 | the same handler commits behind the modal on an earlier case and shows the next case under the warning with fresh inputs | first case, a choice made, finding hidden: click Next Case, press Enter, click Continue Anyway; the second case is logged with no choice, unseen | the advance does nothing while the warning is up, so every record holds a choice | not executed | TrialFlow.EnterBehindWarningMidway | TrialFlow.Session.Advance |
