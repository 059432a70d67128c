/** The trial flow of the study app: consent, onboarding, one trial per case
    with a one-shot warning gate before each commit, and the response log. */
module TrialFlow {
  import opened JsText
  import opened Detector

  datatype Option<T> = None | Some(value: T)

  datatype Step = Consent | Onboarding | Trial | Done

  /** Position of a step in the only order the session visits them. */
  function StepRank(s: Step): nat {
    match s
    case Consent => 0
    case Onboarding => 1
    case Trial => 2
    case Done => 3
  }

  /** The reliance choice: whom the participant relies on for this case. */
  datatype Choice = Radiologist | AI

  /** One vignette of the case list. */
  datatype CaseVignette = CaseVignette(id: string, caseText: string, aiText: string, aiConfidence: int)

  /** The record committed at the end of a trial. */
  datatype TrialResponse = TrialResponse(
    pid: string,
    timestamp: string,
    trialId: string,
    caseText: string,
    aiText: string,
    aiConfidence: int,
    choice: Option<Choice>,
    confidence: int,
    clinicianNote: string,
    radAIShown: bool)

  /** The study's three cases. */
  const StudyCases: seq<CaseVignette> := [
    CaseVignette("baseline_pna",
      "65-year-old woman with 3 days of fever and productive cough. Evaluate for infection. Modality: Chest X-ray.",
      "Right lower-lobe pneumonia detected.", 94),
    CaseVignette("conflict_ptx",
      "54-year-old man with sudden onset of pleuritic chest pain. Portable chest X-ray, slightly underinflated.",
      "Small right apical pneumothorax detected.", 82),
    CaseVignette("overconf_normfail",
      "70-year-old man with progressive dyspnea and orthopnea. Evaluate for acute decompensation. Modality: Chest X-ray.",
      "No acute cardiopulmonary abnormality. Normal study.", 99)
  ]

  /** The slider's starting value on every trial. */
  const DefaultConfidence: int := 50

  /** The warning gate: warn when the AI finding has not been revealed, or when
      a non-blank note looks like it disagrees with the finding. In terms of the
      note's content: an unrevealed finding always warns; a revealed one warns
      exactly when the note has a non-whitespace character and shares no
      keyword with the finding. */
  function GateBlocks(radAIShown: bool, note: string, aiText: string): (r: bool)
    ensures r <==> !radAIShown ||
                   (!IsBlank(note) && Keywords(aiText) != [] &&
                    forall w :: w in Keywords(aiText) ==> !Includes(ToLower(note), w))
  {
    TrimEmptyIffBlank(note);
    !radAIShown || (Trim(note) != [] && IsLikelyDisagreement(note, aiText))
  }

  /** The study's case ids are distinct, so each record's trial id names one
      case, and every AI confidence is a percentage. */
  lemma StudyCasesWellFormed()
    ensures forall i, j :: 0 <= i < j < |StudyCases| ==> StudyCases[i].id != StudyCases[j].id
    ensures forall i :: 0 <= i < |StudyCases| ==> 0 <= StudyCases[i].aiConfidence <= 100
  {
  }

  /** A fraction of completed cases, as a percentage, stays below 100. */
  lemma PercentBelowHundred(done: nat, total: nat)
    requires done < total
    ensures 0.0 <= (done as real) / (total as real) * 100.0 < 100.0
  {
    var q := (done as real) / (total as real);
    assert q * (total as real) == done as real;
    assert q < 1.0;
  }

  /** A record holds its case, the participant and a choice from the slider's range. */
  predicate Records(r: TrialResponse, c: CaseVignette, pid: string) {
    && r.pid == pid
    && r.trialId == c.id
    && r.caseText == c.caseText
    && r.aiText == c.aiText
    && r.aiConfidence == c.aiConfidence
    && r.choice.Some?
    && 0 <= r.confidence <= 100
  }

  /** Each record of the log holds the case at its own position. */
  predicate LogMatches(log: seq<TrialResponse>, cases: seq<CaseVignette>, pid: string) {
    |log| <= |cases| && forall k :: 0 <= k < |log| ==> Records(log[k], cases[k], pid)
  }

  /** One participant's session: the state the app component keeps. */
  class Session {
    const cases: seq<CaseVignette>
    var pid: string
    var step: Step
    var trial: nat
    var responses: seq<TrialResponse>
    var choice: Option<Choice>
    var conf: int
    var note: string
    var radAIShown: bool
    var showWarn: bool
    var warnedThisTrial: bool

    ghost predicate Valid()
      reads this
    {
      && |cases| > 0
      && trial < |cases|
      && 0 <= conf <= 100
      && |responses| <= |cases|
      && (step == Consent || step == Onboarding ==>
            trial == 0 && responses == [] && FreshInputs() && !warnedThisTrial && !showWarn)
      && (step != Consent ==> !IsBlank(pid))
      && (step == Trial ==> |responses| == trial)
      && (step == Done ==> |responses| == |cases| && trial == |cases| - 1)
      && (showWarn ==> step == Trial && warnedThisTrial && choice.Some?)
      && LogMatches(responses, cases, pid)
    }

    /** The per-trial inputs hold their starting values. */
    predicate FreshInputs()
      reads this
    {
      choice == None && conf == DefaultConfidence && note == [] && !radAIShown
    }

    /** The record a commit of the current trial appends: it holds the current
        case and participant, and fits the log once a choice is made. */
    function Entry(timestamp: string): (r: TrialResponse)
      reads this
      requires trial < |cases|
      ensures Records(r, cases[trial], pid) <==> choice.Some? && 0 <= conf <= 100
    {
      TrialResponse(pid, timestamp, cases[trial].id, cases[trial].caseText,
                    cases[trial].aiText, cases[trial].aiConfidence,
                    choice, conf, note, radAIShown)
    }

    /** The advance button is on screen and enabled, and the warning is not up.
        The last condition is the intended one: the handler itself does not
        check it (see `AdvanceAsWritten`). */
    predicate CanAdvance()
      reads this
    {
      step == Trial && !showWarn && choice.Some?
    }

    /** Pressing advance now would raise the warning. */
    predicate GateFires()
      reads this
      requires trial < |cases|
    {
      !warnedThisTrial && GateBlocks(radAIShown, note, cases[trial].aiText)
    }

    /** The progress bar's width, in percent. */
    function Progress(): (r: real)
      reads this
      requires Valid()
      ensures 0.0 <= r < 100.0
      ensures step != Trial ==> r == 0.0
    {
      var done := if step == Trial then trial else 0;
      PercentBelowHundred(done, |cases|);
      (done as real) / (|cases| as real) * 100.0
    }

    twostate predicate SameSession()
      reads this
    {
      pid == old(pid) && step == old(step) && trial == old(trial) && responses == old(responses)
    }

    twostate predicate SameInputs()
      reads this
    {
      choice == old(choice) && conf == old(conf) && note == old(note) && radAIShown == old(radAIShown)
    }

    /** The effect of one commit: one record appended, then the next trial with
        fresh inputs, or the end of the session. */
    twostate predicate Committed(timestamp: string)
      reads this
    {
      && old(trial) < |cases|
      && pid == old(pid)
      && responses == old(responses) + [old(Entry(timestamp))]
      && if old(trial) < |cases| - 1 then
           step == Trial && trial == old(trial) + 1 && FreshInputs()
         else
           step == Done && trial == old(trial) && SameInputs()
    }

    constructor (cases: seq<CaseVignette>)
      requires |cases| > 0
      ensures Valid()
      ensures this.cases == cases && pid == [] && step == Consent && trial == 0 && responses == []
      ensures FreshInputs() && !showWarn && !warnedThisTrial
    {
      this.cases := cases;
      pid := [];
      step := Consent;
      trial := 0;
      responses := [];
      choice := None;
      conf := DefaultConfidence;
      note := [];
      radAIShown := false;
      showWarn := false;
      warnedThisTrial := false;
    }

    /** Typing in the participant-ID field, shown only on the consent screen. */
    method EditPid(value: string)
      requires Valid()
      modifies this
      ensures Valid()
      ensures pid == (if old(step) == Consent then value else old(pid))
      ensures step == old(step) && trial == old(trial) && responses == old(responses)
      ensures SameInputs() && showWarn == old(showWarn) && warnedThisTrial == old(warnedThisTrial)
    {
      if step == Consent {
        pid := value;
      }
    }

    /** The Begin button: enabled only when the trimmed ID is non-empty. */
    method Begin()
      requires Valid()
      modifies this
      ensures Valid()
      ensures StepRank(old(step)) <= StepRank(step)
      ensures step == (if old(step) == Consent && Trim(old(pid)) != [] then Onboarding else old(step))
      ensures pid == old(pid) && trial == old(trial) && responses == old(responses)
      ensures SameInputs() && showWarn == old(showWarn) && warnedThisTrial == old(warnedThisTrial)
    {
      TrimEmptyIffBlank(pid);
      if step == Consent && Trim(pid) != [] {
        step := Onboarding;
      }
    }

    /** The Continue button of the onboarding screen. */
    method StartTrials()
      requires Valid()
      modifies this
      ensures Valid()
      ensures StepRank(old(step)) <= StepRank(step)
      ensures step == (if old(step) == Onboarding then Trial else old(step))
      ensures pid == old(pid) && trial == old(trial) && responses == old(responses)
      ensures SameInputs() && showWarn == old(showWarn) && warnedThisTrial == old(warnedThisTrial)
    {
      if step == Onboarding {
        step := Trial;
      }
    }

    /** The two reliance buttons. */
    method Choose(c: Choice)
      requires Valid()
      modifies this
      ensures Valid()
      ensures choice == (if old(step) == Trial then Some(c) else old(choice))
      ensures SameSession() && conf == old(conf) && note == old(note) && radAIShown == old(radAIShown)
      ensures showWarn == old(showWarn) && warnedThisTrial == old(warnedThisTrial)
    {
      if step == Trial {
        choice := Some(c);
      }
    }

    /** The confidence slider, whose range is 0 to 100. */
    method SetConfidence(value: int)
      requires Valid()
      requires 0 <= value <= 100
      modifies this
      ensures Valid()
      ensures conf == (if old(step) == Trial then value else old(conf))
      ensures SameSession() && choice == old(choice) && note == old(note) && radAIShown == old(radAIShown)
      ensures showWarn == old(showWarn) && warnedThisTrial == old(warnedThisTrial)
    {
      if step == Trial {
        conf := value;
      }
    }

    /** Typing in the clinician-findings box. */
    method EditNote(text: string)
      requires Valid()
      modifies this
      ensures Valid()
      ensures note == (if old(step) == Trial then text else old(note))
      ensures SameSession() && choice == old(choice) && conf == old(conf) && radAIShown == old(radAIShown)
      ensures showWarn == old(showWarn) && warnedThisTrial == old(warnedThisTrial)
    {
      if step == Trial {
        note := text;
      }
    }

    /** The "Reveal RadAI Finding" button of the RadAI panel. */
    method RevealFinding()
      requires Valid()
      modifies this
      ensures Valid()
      ensures radAIShown == (old(radAIShown) || old(step) == Trial)
      ensures SameSession() && choice == old(choice) && conf == old(conf) && note == old(note)
      ensures showWarn == old(showWarn) && warnedThisTrial == old(warnedThisTrial)
    {
      if step == Trial && !radAIShown {
        radAIShown := true;
      }
    }

    /** `next()`: append the current trial's record, then move to the next
        case with fresh inputs, or finish. It leaves the warning flag alone. */
    method Commit(timestamp: string)
      requires Valid()
      requires step == Trial && !showWarn && choice.Some?
      modifies this
      ensures Valid()
      ensures StepRank(old(step)) <= StepRank(step)
      ensures Committed(timestamp)
      ensures !showWarn && warnedThisTrial == old(warnedThisTrial)
    {
      var entry := Entry(timestamp);
      responses := responses + [entry];
      if trial < |cases| - 1 {
        trial := trial + 1;
        choice := None;
        conf := DefaultConfidence;
        note := [];
        radAIShown := false;
      } else {
        step := Done;
      }
    }

    /** The Next Case / Finish button. While the warning has not been issued on
        this trial, the gate may stop the advance and raise the warning instead;
        otherwise the trial is committed and the warning flag is reset. */
    method Advance(timestamp: string)
      requires Valid()
      modifies this
      ensures Valid()
      ensures StepRank(old(step)) <= StepRank(step)
      ensures !old(CanAdvance()) ==> unchanged(this)
      ensures old(CanAdvance()) && old(GateFires()) ==>
                showWarn && warnedThisTrial && SameSession() && SameInputs()
      ensures old(CanAdvance()) && !old(GateFires()) ==>
                && Committed(timestamp) && !showWarn
                && warnedThisTrial == (old(trial) == |cases| - 1 && old(warnedThisTrial))
      ensures showWarn && !old(showWarn) ==> !old(warnedThisTrial)
      ensures step == Done ==> |responses| == |cases| &&
                               forall k :: 0 <= k < |cases| ==> responses[k].trialId == cases[k].id
    {
      if !(step == Trial && !showWarn && choice.Some?) {
        return;
      }
      if !warnedThisTrial && GateBlocks(radAIShown, note, cases[trial].aiText) {
        showWarn := true;
        warnedThisTrial := true;
        return;
      }
      // The handler's own updates read the trial index of the render, as next() does.
      var t := trial;
      ghost var entry := Entry(timestamp);
      Commit(timestamp);
      assert responses == old(responses) + [entry];
      // The handler then sets the trial index, the inputs and the step to the
      // values next() has just given them; only the warning flag is new.
      if t < |cases| - 1 {
        warnedThisTrial := false;
      }
    }

    /** "Keep Editing", or a click on the backdrop: close the warning. */
    method KeepEditing()
      requires Valid()
      modifies this
      ensures Valid()
      ensures !showWarn
      ensures SameSession() && SameInputs() && warnedThisTrial == old(warnedThisTrial)
    {
      showWarn := false;
    }

    /** "Reveal RadAI" in the warning, offered only while the finding is hidden:
        reveal it and close the warning, without committing. */
    method RevealFromWarning()
      requires Valid()
      modifies this
      ensures Valid()
      ensures old(showWarn) && !old(radAIShown) ==> radAIShown && !showWarn
      ensures !(old(showWarn) && !old(radAIShown)) ==> unchanged(this)
      ensures SameSession() && choice == old(choice) && conf == old(conf) && note == old(note)
      ensures warnedThisTrial == old(warnedThisTrial)
    {
      if showWarn && !radAIShown {
        radAIShown := true;
        showWarn := false;
      }
    }

    /** "Continue Anyway": close the warning and commit through `next()` alone,
        so the warning flag stays set, also on the next trial. */
    method ContinueAnyway(timestamp: string)
      requires Valid()
      modifies this
      ensures Valid()
      ensures StepRank(old(step)) <= StepRank(step)
      ensures !old(showWarn) ==> unchanged(this)
      ensures old(showWarn) ==> Committed(timestamp) && !showWarn && warnedThisTrial
      ensures step == Done ==> |responses| == |cases| &&
                               forall k :: 0 <= k < |cases| ==> responses[k].trialId == cases[k].id
    {
      if showWarn {
        showWarn := false;
        Commit(timestamp);
      }
    }

    // The handlers as written, without the invariant. Nothing stops the
    // advance button from firing while the warning is up: it keeps keyboard
    // focus after the click that raised the warning.

    /** `next()` as written: it does not look at the step, so on the done
        screen it appends the last case's record once more. */
    method NextAsWritten(timestamp: string)
      requires trial < |cases|
      modifies this
      ensures pid == old(pid) && responses == old(responses) + [old(Entry(timestamp))]
      ensures old(trial) < |cases| - 1 ==> trial == old(trial) + 1 && step == old(step) && FreshInputs()
      ensures old(trial) == |cases| - 1 ==> trial == old(trial) && step == Done && SameInputs()
      ensures showWarn == old(showWarn) && warnedThisTrial == old(warnedThisTrial)
    {
      var entry := Entry(timestamp);
      responses := responses + [entry];
      if trial < |cases| - 1 {
        trial := trial + 1;
        choice := None;
        conf := DefaultConfidence;
        note := [];
        radAIShown := false;
      } else {
        step := Done;
      }
    }

    /** The Next Case / Finish handler as written: it runs whenever the button
        is on screen and enabled, also with the warning up, and the gate is
        skipped once this trial has been warned. */
    method AdvanceAsWritten(timestamp: string)
      requires trial < |cases|
      modifies this
      ensures !(old(step) == Trial && old(choice).Some?) ==> unchanged(this)
      ensures old(step) == Trial && old(choice).Some? && old(GateFires()) ==>
                showWarn && warnedThisTrial && SameSession() && SameInputs()
      ensures old(step) == Trial && old(choice).Some? && !old(GateFires()) ==>
                && pid == old(pid) && responses == old(responses) + [old(Entry(timestamp))]
                && showWarn == old(showWarn)
                && (old(trial) < |cases| - 1 ==>
                      step == Trial && trial == old(trial) + 1 && FreshInputs() && !warnedThisTrial)
                && (old(trial) == |cases| - 1 ==>
                      step == Done && trial == old(trial) && warnedThisTrial == old(warnedThisTrial))
    {
      if !(step == Trial && choice.Some?) {
        return;
      }
      if !warnedThisTrial && GateBlocks(radAIShown, note, cases[trial].aiText) {
        showWarn := true;
        warnedThisTrial := true;
        return;
      }
      var t := trial;
      NextAsWritten(timestamp);
      if t < |cases| - 1 {
        warnedThisTrial := false;
      }
    }

    /** "Continue Anyway" as written: close the warning and run `next()`,
        whatever screen lies behind the modal. */
    method ContinueAnywayAsWritten(timestamp: string)
      requires trial < |cases|
      modifies this
      ensures !old(showWarn) ==> unchanged(this)
      ensures old(showWarn) ==>
                && !showWarn && warnedThisTrial == old(warnedThisTrial)
                && pid == old(pid) && responses == old(responses) + [old(Entry(timestamp))]
                && (old(trial) < |cases| - 1 ==> trial == old(trial) + 1 && step == old(step) && FreshInputs())
                && (old(trial) == |cases| - 1 ==> trial == old(trial) && step == Done && SameInputs())
    {
      if showWarn {
        showWarn := false;
        NextAsWritten(timestamp);
      }
    }
  }

  /** Continue Anyway on the first case carries the warning flag into the second:
      its first advance commits even though the finding was never revealed. */
  method CarriedWarning(timestamp: string)
  {
    var s := new Session(StudyCases);
    s.EditPid("P01");
    s.Begin();
    s.StartTrials();
    assert s.step == Trial && s.trial == 0;
    s.Choose(AI);
    s.Advance(timestamp);
    assert s.showWarn && s.warnedThisTrial && s.responses == [];
    s.ContinueAnyway(timestamp);
    assert s.trial == 1 && |s.responses| == 1 && s.warnedThisTrial && !s.radAIShown;
    s.Choose(Radiologist);
    s.Advance(timestamp);
    assert s.trial == 2 && |s.responses| == 2 && !s.showWarn && !s.warnedThisTrial;
  }

  /** With the handlers as written, on the last case with a choice made and
      the finding hidden: the click on Finish raises the warning, Enter on the
      still-focused button commits the case behind it, and Continue Anyway
      logs the case a second time. The log ends with one record more than
      there are cases, and its last two records name the same case. */
  method EnterBehindWarningOnLastCase(s: Session, timestamp: string)
    requires s.Valid() && s.step == Trial && s.trial == |s.cases| - 1
    requires s.choice.Some? && !s.radAIShown && !s.warnedThisTrial && !s.showWarn
    modifies s
    ensures s.step == Done && |s.responses| == |s.cases| + 1
    ensures s.responses[|s.cases| - 1].trialId == s.responses[|s.cases|].trialId == s.cases[|s.cases| - 1].id
  {
    s.AdvanceAsWritten(timestamp);
    assert s.showWarn && s.step == Trial && s.trial == |s.cases| - 1;
    s.AdvanceAsWritten(timestamp);
    assert s.showWarn && s.step == Done && s.trial == |s.cases| - 1;
    s.ContinueAnywayAsWritten(timestamp);
  }

  /** With the handlers as written, on an earlier case with a choice made and
      the finding hidden: Enter behind the warning commits the case and shows
      the next one under the warning, and Continue Anyway then logs that next
      case with no choice, unseen. */
  method EnterBehindWarningMidway(s: Session, timestamp: string)
    requires s.Valid() && s.step == Trial && s.trial < |s.cases| - 1
    requires s.choice.Some? && !s.radAIShown && !s.warnedThisTrial && !s.showWarn
    modifies s
    ensures |s.responses| == old(|s.responses|) + 2
    ensures s.responses[old(s.trial) + 1].trialId == s.cases[old(s.trial) + 1].id
    ensures s.responses[old(s.trial) + 1].choice == None
    ensures !Records(s.responses[old(s.trial) + 1], s.cases[old(s.trial) + 1], s.pid)
  {
    s.AdvanceAsWritten(timestamp);
    assert s.showWarn && s.step == Trial && s.trial == old(s.trial);
    s.AdvanceAsWritten(timestamp);
    assert s.showWarn && s.trial == old(s.trial) + 1 && s.choice == None;
    s.ContinueAnywayAsWritten(timestamp);
  }
}
