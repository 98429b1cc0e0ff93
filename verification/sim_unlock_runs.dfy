/** Properties of the SIM PIN screen that relate several events: runs of
    events, typing sequences of digits, what reaches the SIM, and what the
    screen deliberately does not guard against. */
module SimUnlockRuns {
  import opened Optional
  import opened SimUnlock

  /** Feeds the events to the screen in order, collecting every call made. */
  function Run(s: Screen, events: seq<Event>): (o: Outcome)
    requires Valid(s)
    ensures Valid(o.screen)
    ensures o.screen.createdWithKeyboardOpen == s.createdWithKeyboardOpen
    decreases |events|
  {
    if events == [] then Outcome(s, [])
    else
      var first := Step(s, events[0]);
      var rest := Run(first.screen, events[1..]);
      Outcome(rest.screen, first.effects + rest.effects)
  }

  /** The same run with the resume as written. */
  function RunAsWritten(s: Screen, events: seq<Event>): (o: Outcome)
    requires Valid(s)
    ensures Valid(o.screen)
    decreases |events|
  {
    if events == [] then Outcome(s, [])
    else
      var first := StepAsWritten(s, events[0]);
      var rest := RunAsWritten(first.screen, events[1..]);
      Outcome(rest.screen, first.effects + rest.effects)
  }

  /** Every verification started in the calls carries a string of decimal
      digits, no longer than the digit record, and at least lo long. */
  predicate ChecksWithin(effects: seq<Effect>, lo: int) {
    forall k :: 0 <= k < |effects| && effects[k].StartSimPinCheck? ==>
      && lo <= |effects[k].pin| <= MaxPinDigits
      && IsDigitString(effects[k].pin)
  }

  lemma ChecksWithinConcat(a: seq<Effect>, b: seq<Effect>, lo: int)
    requires ChecksWithin(a, lo) && ChecksWithin(b, lo)
    ensures ChecksWithin(a + b, lo)
  {
    forall k | 0 <= k < |a + b| && (a + b)[k].StartSimPinCheck?
      ensures lo <= |(a + b)[k].pin| <= MaxPinDigits && IsDigitString((a + b)[k].pin)
    {
      if k < |a| {
        assert (a + b)[k] == a[k];
      } else {
        assert (a + b)[k] == b[k - |a|];
      }
    }
  }

  lemma StepChecksAreDigits(s: Screen, e: Event)
    requires Valid(s)
    ensures ChecksWithin(StepAsWritten(s, e).effects, 0)
  {
  }

  /** Even as written, whatever the events, the only PINs ever handed to the
      SIM are strings of at most eight decimal digits. */
  lemma {:induction false} RunChecksAreDigits(s: Screen, events: seq<Event>)
    requires Valid(s)
    ensures ChecksWithin(RunAsWritten(s, events).effects, 0)
    decreases |events|
  {
    if events != [] {
      var first := StepAsWritten(s, events[0]);
      StepChecksAreDigits(s, events[0]);
      RunChecksAreDigits(first.screen, events[1..]);
      ChecksWithinConcat(first.effects, RunAsWritten(first.screen, events[1..]).effects, 0);
    }
  }

  /** Every event keeps the text showing every counted digit, and so every
      PIN an event sends has between four and eight digits. */
  lemma StepKeepsAligned(s: Screen, e: Event)
    requires Valid(s) && Aligned(s)
    ensures Aligned(Step(s, e).screen)
    ensures ChecksWithin(Step(s, e).effects, MinPinDigits)
  {
  }

  /** The minimum-length guard (which counts digits) and the PIN actually
      sent (the text on display) agree: over any sequence of events, every
      PIN handed to the SIM has between four and eight digits. */
  lemma {:induction false} RunsSendFullPins(s: Screen, events: seq<Event>)
    requires Valid(s) && Aligned(s)
    ensures Aligned(Run(s, events).screen)
    ensures ChecksWithin(Run(s, events).effects, MinPinDigits)
    decreases |events|
  {
    if events != [] {
      var first := Step(s, events[0]);
      StepKeepsAligned(s, events[0]);
      RunsSendFullPins(first.screen, events[1..]);
      ChecksWithinConcat(first.effects, Run(first.screen, events[1..]).effects, MinPinDigits);
    }
  }

  /** As written, the same holds as long as no resume happens. */
  lemma {:induction false} RunsWithoutResumeSendFullPins(s: Screen, events: seq<Event>)
    requires Valid(s) && Aligned(s)
    requires forall k :: 0 <= k < |events| ==> !events[k].Resume?
    ensures Aligned(RunAsWritten(s, events).screen)
    ensures ChecksWithin(RunAsWritten(s, events).effects, MinPinDigits)
    decreases |events|
  {
    if events != [] {
      var first := StepAsWritten(s, events[0]);
      assert first == Step(s, events[0]);
      StepKeepsAligned(s, events[0]);
      RunsWithoutResumeSendFullPins(first.screen, events[1..]);
      ChecksWithinConcat(first.effects, RunAsWritten(first.screen, events[1..]).effects, MinPinDigits);
    }
  }

  function Min(a: int, b: int): int {
    if a <= b then a else b
  }

  /** Digits typed one after another, by keyboard or dialer. */
  function TypeDigits(s: Screen, ds: seq<Digit>): (r: Screen)
    requires Valid(s)
    ensures Valid(r)
    decreases |ds|
  {
    if ds == [] then s else TypeDigits(ReportDigit(s, ds[0]), ds[1..])
  }

  lemma DigitStringConcat(a: seq<int>, b: seq<int>)
    requires AllDigits(a) && AllDigits(b)
    ensures AllDigits(a + b)
    ensures DigitString(a + b) == DigitString(a) + DigitString(b)
  {
    assert forall i :: 0 <= i < |a + b| ==> (a + b)[i] == if i < |a| then a[i] else b[i - |a|];
  }

  /** Below capacity a digit is appended to the text: a fresh entry has no
      text to clear. */
  lemma ReportDigitAppends(s: Screen, d: Digit)
    requires Valid(s) && s.enteredDigits < MaxPinDigits
    ensures ReportDigit(s, d).pinText == s.pinText + [DigitChar(d)]
    ensures ReportDigit(s, d).enteredDigits == s.enteredDigits + 1
  {
  }

  lemma DigitStringTake(ds: seq<Digit>, m: nat)
    requires m + 1 <= |ds|
    ensures DigitString(ds[..m + 1]) == [DigitChar(ds[0])] + DigitString(ds[1..][..m])
  {
    assert ds[..m + 1] == [ds[0]] + ds[1..][..m];
    DigitStringConcat([ds[0]], ds[1..][..m]);
  }

  /** Typing digits raises the counter by as many of them as still fit in
      the record of eight. */
  lemma {:induction false} TypeDigitsCount(s: Screen, ds: seq<Digit>)
    requires Valid(s)
    ensures TypeDigits(s, ds).enteredDigits == s.enteredDigits + Min(|ds|, MaxPinDigits - s.enteredDigits)
    decreases |ds|
  {
    if ds != [] {
      TypeDigitsCount(ReportDigit(s, ds[0]), ds[1..]);
    }
  }

  /** Typing digits appends as many of them as still fit in the record of
      eight to the text, and silently drops the rest. */
  lemma {:induction false} TypeDigitsText(s: Screen, ds: seq<Digit>)
    requires Valid(s)
    ensures TypeDigits(s, ds).pinText == s.pinText + DigitString(ds[..Min(|ds|, MaxPinDigits - s.enteredDigits)])
    decreases |ds|
  {
    if ds == [] {
      assert DigitString(ds[..0]) == [];
    } else if s.enteredDigits == MaxPinDigits {
      assert ReportDigit(s, ds[0]) == s;
      TypeDigitsText(s, ds[1..]);
      assert ds[..0] == ds[1..][..0] == [];
    } else {
      TypeDigitsTextStep(s, ds);
    }
  }

  lemma {:induction false} TypeDigitsTextStep(s: Screen, ds: seq<Digit>)
    requires Valid(s) && ds != [] && s.enteredDigits < MaxPinDigits
    ensures TypeDigits(s, ds).pinText == s.pinText + DigitString(ds[..Min(|ds|, MaxPinDigits - s.enteredDigits)])
    decreases |ds|, 0
  {
    var s1 := ReportDigit(s, ds[0]);
    var m := Min(|ds| - 1, MaxPinDigits - s1.enteredDigits);
    assert TypeDigits(s, ds) == TypeDigits(s1, ds[1..]);
    ReportDigitAppends(s, ds[0]);
    TypeDigitsText(s1, ds[1..]);
    assert Min(|ds|, MaxPinDigits - s.enteredDigits) == m + 1;
    TextAfterFirstDigit(s.pinText, ds, m);
  }

  /** The text after typing the first digit and then m more is the text
      with the first m + 1 digits appended. */
  lemma TextAfterFirstDigit(text: string, ds: seq<Digit>, m: nat)
    requires m + 1 <= |ds|
    ensures (text + [DigitChar(ds[0])]) + DigitString(ds[1..][..m]) == text + DigitString(ds[..m + 1])
  {
    DigitStringTake(ds, m);
    var tail := DigitString(ds[1..][..m]);
    assert (text + [DigitChar(ds[0])]) + tail == text + ([DigitChar(ds[0])] + tail);
  }

  /** The nine-digit scenario: typing nine digits on a new screen keeps
      eight, and shows exactly the first eight. */
  lemma NineDigitsKeepEight(keyboardOpen: bool, ds: seq<Digit>)
    requires |ds| == 9
    ensures TypeDigits(Initial(keyboardOpen), ds).enteredDigits == MaxPinDigits
    ensures TypeDigits(Initial(keyboardOpen), ds).pinText == DigitString(ds[..8])
  {
    TypeDigitsCount(Initial(keyboardOpen), ds);
    TypeDigitsText(Initial(keyboardOpen), ds);
  }

  /** A digit followed by the backspace button is undone on screen: the text,
      the count, the header and the dialog are as before; only the record
      keeps the digit in the slot past the count. */
  lemma DigitThenBackspaceRestores(s: Screen, d: Digit)
    requires Valid(s) && s.enteredDigits < MaxPinDigits
    ensures var r := OnBackspaceClick(ReportDigit(s, d)).screen;
      && r.pinText == s.pinText
      && r.enteredDigits == s.enteredDigits
      && r.header == s.header && r.progressShown == s.progressShown
      && r.enteredPin == s.enteredPin[s.enteredDigits := d]
  {
    var t := ReportDigit(s, d);
    assert t.pinText[..|t.pinText| - 1] == s.pinText;
  }

  /** The same holds for the DEL key. */
  lemma DigitThenDeleteKeyRestores(s: Screen, d: Digit)
    requires Valid(s) && s.enteredDigits < MaxPinDigits
    ensures var r := DeleteKey(ReportDigit(s, d));
      && r.pinText == s.pinText
      && r.enteredDigits == s.enteredDigits
      && r.header == s.header && r.progressShown == s.progressShown
      && r.enteredPin == s.enteredPin[s.enteredDigits := d]
  {
    var t := ReportDigit(s, d);
    assert t.pinText[..|t.pinText| - 1] == s.pinText;
  }

  /** The entry state after a short submission or a wrong PIN is a fresh
      entry: the next digit starts a new text. */
  lemma RejectionStartsOver(s: Screen, d: Digit)
    requires Valid(s)
    ensures s.enteredDigits < MinPinDigits ==> ReportDigit(CheckPin(s).screen, d).pinText == [DigitChar(d)]
    ensures ReportDigit(OnSimLockChangedResponse(s, false).screen, d).pinText == [DigitChar(d)]
  {
  }

  /** A communication failure is indistinguishable from a wrong PIN. */
  lemma CommErrorReadsAsWrongPin(s: Screen)
    requires Valid(s)
    ensures Step(s, SimLockResponse(CommError)) == Step(s, SimLockResponse(Answered(false)))
    ensures Step(s, SimLockResponse(CommError)).screen.header == WrongPinCode
  {
  }

  /** No single-check guard: pressing OK again while a check is pending
      starts a second check with the same PIN. */
  lemma SecondOkStartsSecondCheck(s: Screen)
    requires Valid(s) && s.enteredDigits >= MinPinDigits
    ensures var first := CheckPin(s);
      && first.effects[0].StartSimPinCheck?
      && CheckPin(first.screen).effects == first.effects
  {
  }

  /** No stale-answer discard: cleaning up only unregisters the screen from
      the update monitor, and a verification answer arriving afterwards is
      applied in full, callbacks included, exactly as it would have been. */
  lemma AnswerAfterCleanUpIsApplied(s: Screen, answer: SupplyPinAnswer)
    requires Valid(s)
    ensures Step(s, CleanUp) == Outcome(s, [RemoveUpdateCallback])
    ensures Step(Step(s, CleanUp).screen, SimLockResponse(answer)) == Step(s, SimLockResponse(answer))
    ensures Step(Step(s, CleanUp).screen, SimLockResponse(answer)).effects
         == (if answer == Answered(true) then [ReportSimPinUnlocked, GoToUnlockScreen] else [PokeWakelock])
  {
  }

  /** Only the verification answer takes the progress dialog down: while a
      check is pending, every other event leaves it up, with the resume as
      written or corrected. */
  lemma ProgressOnlyHiddenByAnswer(s: Screen, e: Event)
    requires Valid(s) && s.progressShown && !e.SimLockResponse?
    ensures Step(s, e).screen.progressShown
    ensures StepAsWritten(s, e).screen.progressShown
  {
  }

  /** As written, a resume clears the text but keeps the count, so OK right
      after resuming a four-digit entry passes the length check and hands
      the SIM an empty PIN. */
  lemma ResumeThenOkSendsEmptyPin(s: Screen)
    requires Valid(s) && s.enteredDigits >= MinPinDigits
    ensures CheckPin(OnResume(s)).effects == [StartSimPinCheck([])]
  {
    assert ShownDigits(OnResume(s)) == [];
  }

  /** The same from a new screen: four digits on the dialer, a resume, OK. */
  lemma EmptyPinReachesSim()
    ensures var events := [Touch(DigitButton(1)), Touch(DigitButton(2)), Touch(DigitButton(3)),
                           Touch(DigitButton(4)), Resume, Click(OkButton)];
      StartSimPinCheck([]) in RunAsWritten(Initial(false), events).effects
  {
    var events := [Touch(DigitButton(1)), Touch(DigitButton(2)), Touch(DigitButton(3)),
                   Touch(DigitButton(4)), Resume, Click(OkButton)];
    var s0 := Initial(false);
    var s1 := StepAsWritten(s0, events[0]).screen;
    var s2 := StepAsWritten(s1, events[1]).screen;
    var s3 := StepAsWritten(s2, events[2]).screen;
    var s4 := StepAsWritten(s3, events[3]).screen;
    assert s4.enteredDigits == 4;
    var s5 := StepAsWritten(s4, events[4]).screen;
    var last := StepAsWritten(s5, events[5]);
    ResumeThenOkSendsEmptyPin(s4);
    assert last.effects == [StartSimPinCheck([])];
    assert RunAsWritten(s5, events[5..]).effects == last.effects;
    assert RunAsWritten(s4, events[4..]).effects == last.effects;
    assert events[3..][1..] == events[4..];
    assert RunAsWritten(s3, events[3..]).effects == StepAsWritten(s3, events[3]).effects + last.effects;
    assert events[2..][1..] == events[3..];
    assert events[1..][1..] == events[2..];
    assert events[0..][1..] == events[1..];
    var all := RunAsWritten(s0, events).effects;
    assert all[|all| - 1] == StartSimPinCheck([]);
  }

  /** As written, a resume after eight digits leaves the dialer stuck: every
      digit is ignored and the backspace button changes nothing. */
  lemma ResumeAtFullIgnoresDialer(s: Screen, d: Digit)
    requires Valid(s) && s.enteredDigits == MaxPinDigits && !s.createdWithKeyboardOpen
    ensures OnTouchClick(OnResume(s), DigitButton(d)).screen == OnResume(s)
    ensures OnBackspaceClick(OnResume(s)).screen == OnResume(s)
  {
  }

  /** With the corrected resume, OK right after a resume is rejected as
      too short, and the next digit starts a new entry. */
  lemma ResumeThenOkIsRejected(s: Screen, d: Digit)
    requires Valid(s)
    ensures var ok := Step(Step(s, Resume).screen, Click(OkButton));
      && ok.effects == [PokeWakelock]
      && ok.screen.header == InvalidPin
    ensures Step(Step(s, Resume).screen, Touch(DigitButton(d))).screen.enteredDigits
              == (if s.createdWithKeyboardOpen then 0 else 1)
  {
  }
}
