/** The SIM PIN entry screen of the keyguard, as a functional state machine.

    The screen keeps a digit counter, an eight-slot record of the digits
    typed, the text shown in the PIN field, a header message and whether the
    "unlocking SIM" progress dialog is up.  Every handler takes the current
    screen and returns the next one together with the calls it makes on its
    collaborators, in order.  The remote supplyPin call runs on a thread of
    its own; here its start is the effect StartSimPinCheck and its answer
    comes back later as a separate event. */
module SimUnlock {
  import opened Optional

  /** Capacity of the digit record (the eight-element array). */
  const MaxPinDigits: int := 8
  /** Fewest digits the screen lets through to the SIM. */
  const MinPinDigits: int := 4
  /** Wake-lock duration requested on a touch-dialer digit press. */
  const DigitPressWakeMillis: int := 5000

  type Digit = d: int | 0 <= d <= 9

  datatype Header = EnterPinCode | InvalidPin | WrongPinCode

  /** What the verification thread got back from supplyPin: an answer, or a
      RemoteException because the phone service could not be reached. */
  datatype SupplyPinAnswer = Answered(unlocked: bool) | CommError

  /** Calls the screen makes on its callback, its update monitor and the
      verification thread. */
  datatype Effect =
    | PokeWakelock
    | PokeWakelockFor(millis: int)
    | TakeEmergencyCallAction
    | GoToLockScreen
    | GoToUnlockScreen
    | RecreateMe
    | ReportSimPinUnlocked
    | StartSimPinCheck(pin: string)
    | RemoveUpdateCallback

  datatype KeyCode = KeyBack | KeyDel | KeyEnter | OtherKey(code: int)

  /** The three buttons the screen itself listens to. */
  datatype ScreenButton = BackspaceButton | EmergencyCallButton | OkButton

  /** The buttons of the on-screen dialer (present only in the layout used
      when the keyboard was closed at creation); OtherView is any other view
      that reaches the dialer's listener. */
  datatype TouchButton = CancelButton | DigitButton(digit: Digit) | OtherView

  datatype Screen = Screen(
    enteredDigits: int,
    enteredPin: seq<int>,
    pinText: string,
    header: Header,
    progressShown: bool,
    createdWithKeyboardOpen: bool)

  datatype Outcome = Outcome(screen: Screen, effects: seq<Effect>)

  datatype KeyResult = KeyResult(outcome: Outcome, handled: bool)

  function DigitChar(d: Digit): char {
    ('0' as int + d) as char
  }

  predicate IsDigitString(t: string) {
    forall i :: 0 <= i < |t| ==> '0' <= t[i] <= '9'
  }

  predicate AllDigits(ds: seq<int>) {
    forall i :: 0 <= i < |ds| ==> 0 <= ds[i] <= 9
  }

  /** The decimal text of a digit sequence, one character per digit. */
  function DigitString(ds: seq<int>): (t: string)
    requires AllDigits(ds)
    ensures |t| == |ds|
    ensures forall i :: 0 <= i < |ds| ==> t[i] == DigitChar(ds[i])
    ensures IsDigitString(t)
  {
    seq(|ds|, i requires 0 <= i < |ds| => DigitChar(ds[i]))
  }

  /** The object invariant of the screen.  The counter stays within the
      array, and the text on display is always the last |pinText| digits
      recorded before the counter.  The text can be shorter than the count
      (resuming clears the text but keeps the count), never longer. */
  predicate Valid(s: Screen) {
    && 0 <= s.enteredDigits <= MaxPinDigits
    && |s.enteredPin| == MaxPinDigits
    && AllDigits(s.enteredPin)
    && |s.pinText| <= s.enteredDigits
    && (forall i :: 0 <= i < |s.pinText| ==>
          s.pinText[i] == DigitChar(s.enteredPin[s.enteredDigits - |s.pinText| + i]))
  }

  /** The text on display shows every digit counted. */
  predicate Aligned(s: Screen) {
    |s.pinText| == s.enteredDigits
  }

  /** The digits the counter says were entered, those the text still shows. */
  function ShownDigits(s: Screen): seq<int>
    requires Valid(s)
  {
    s.enteredPin[s.enteredDigits - |s.pinText| .. s.enteredDigits]
  }

  function Initial(keyboardOpen: bool): (s: Screen)
    ensures Valid(s) && Aligned(s)
    ensures s.enteredDigits == 0 && s.pinText == [] && !s.progressShown
    ensures s.header == EnterPinCode && s.createdWithKeyboardOpen == keyboardOpen
    ensures |s.enteredPin| == MaxPinDigits && forall i :: 0 <= i < |s.enteredPin| ==> s.enteredPin[i] == 0
  {
    Screen(0, [0, 0, 0, 0, 0, 0, 0, 0], [], EnterPinCode, false, keyboardOpen)
  }

  /** The displayed text is the decimal rendering of the shown digits. */
  lemma TextIsShownDigits(s: Screen)
    requires Valid(s)
    ensures AllDigits(ShownDigits(s))
    ensures s.pinText == DigitString(ShownDigits(s))
    ensures IsDigitString(s.pinText)
  {
    var ds := ShownDigits(s);
    assert forall i :: 0 <= i < |ds| ==> ds[i] == s.enteredPin[s.enteredDigits - |s.pinText| + i];
  }

  /** A digit typed on the keyboard or the dialer.  A fresh entry (count 0)
      clears the text first; a full record (count 8) ignores the digit, so
      the array write below is always in bounds. */
  function ReportDigit(s: Screen, d: Digit): (r: Screen)
    requires Valid(s)
    ensures Valid(r)
    ensures s.enteredDigits == MaxPinDigits ==> r == s
    ensures s.enteredDigits < MaxPinDigits ==>
      && r.enteredDigits == s.enteredDigits + 1
      && r.enteredPin == s.enteredPin[s.enteredDigits := d]
      && r.pinText == (if s.enteredDigits == 0 then [] else s.pinText) + [DigitChar(d)]
    ensures r.header == s.header && r.progressShown == s.progressShown
    ensures r.createdWithKeyboardOpen == s.createdWithKeyboardOpen
  {
    var start := if s.enteredDigits == 0 then s.(pinText := []) else s;
    if start.enteredDigits == MaxPinDigits then start
    else start.(pinText := start.pinText + [DigitChar(d)],
                enteredPin := start.enteredPin[start.enteredDigits := d],
                enteredDigits := start.enteredDigits + 1)
  }

  /** The backspace button: guarded by the length of the text, not by the
      counter, and it pokes the wake lock whether or not anything changed. */
  function OnBackspaceClick(s: Screen): (o: Outcome)
    requires Valid(s)
    ensures Valid(o.screen)
    ensures o.effects == [PokeWakelock]
    ensures |s.pinText| == 0 ==> o.screen == s
    ensures |s.pinText| > 0 ==>
      && o.screen.enteredDigits == s.enteredDigits - 1
      && o.screen.pinText == s.pinText[..|s.pinText| - 1]
      && o.screen.enteredPin == s.enteredPin
    ensures o.screen.header == s.header && o.screen.progressShown == s.progressShown
    ensures o.screen.createdWithKeyboardOpen == s.createdWithKeyboardOpen
  {
    var len := |s.pinText|;
    if len > 0 then
      Outcome(s.(pinText := s.pinText[..len - 1], enteredDigits := s.enteredDigits - 1), [PokeWakelock])
    else
      Outcome(s, [PokeWakelock])
  }

  /** What the PIN text field does with a DEL key: drop the last character,
      if there is one. */
  function DeleteLastChar(t: string): (r: string)
    ensures |t| > 0 ==> r == t[..|t| - 1]
    ensures |t| == 0 ==> r == t
  {
    if |t| > 0 then t[..|t| - 1] else t
  }

  /** The DEL key: guarded by the counter.  After a resume the text may be
      empty while the count is not; the key then only lowers the count. */
  function DeleteKey(s: Screen): (r: Screen)
    requires Valid(s)
    ensures Valid(r)
    ensures s.enteredDigits == 0 ==> r == s
    ensures s.enteredDigits > 0 ==>
      && r.enteredDigits == s.enteredDigits - 1
      && r.pinText == DeleteLastChar(s.pinText)
      && r.enteredPin == s.enteredPin
    ensures r.header == s.header && r.progressShown == s.progressShown
    ensures r.createdWithKeyboardOpen == s.createdWithKeyboardOpen
  {
    if s.enteredDigits > 0 then
      s.(pinText := DeleteLastChar(s.pinText), enteredDigits := s.enteredDigits - 1)
    else
      s
  }

  /** OK / ENTER.  Fewer than four counted digits is rejected on the spot and
      nothing is sent to the SIM.  Otherwise the progress dialog goes up and
      exactly one check starts, carrying the text on display (which is the
      tail of the recorded digits, and may be shorter than the count). */
  function CheckPin(s: Screen): (o: Outcome)
    requires Valid(s)
    ensures Valid(o.screen)
    ensures |o.effects| == 1
    ensures o.effects[0].StartSimPinCheck? <==> s.enteredDigits >= MinPinDigits
    ensures s.enteredDigits < MinPinDigits ==>
      && o.effects == [PokeWakelock]
      && o.screen == s.(header := InvalidPin, pinText := [], enteredDigits := 0)
    ensures s.enteredDigits >= MinPinDigits ==>
      && o.screen == s.(progressShown := true)
      && o.effects == [StartSimPinCheck(s.pinText)]
      && AllDigits(ShownDigits(s))
      && o.effects == [StartSimPinCheck(DigitString(ShownDigits(s)))]
    ensures o.effects[0].StartSimPinCheck? ==>
      && IsDigitString(o.effects[0].pin)
      && |o.effects[0].pin| <= s.enteredDigits
      && (Aligned(s) ==> |o.effects[0].pin| == s.enteredDigits)
  {
    if s.enteredDigits < MinPinDigits then
      Outcome(s.(header := InvalidPin, pinText := [], enteredDigits := 0), [PokeWakelock])
    else
      TextIsShownDigits(s);
      Outcome(s.(progressShown := true), [StartSimPinCheck(s.pinText)])
  }

  /** How the verification thread turns the remote answer into the value it
      posts back: a communication failure reads exactly like a wrong PIN. */
  function CheckSucceeded(answer: SupplyPinAnswer): (success: bool)
    ensures success <==> answer == Answered(true)
  {
    match answer
    case Answered(unlocked) => unlocked
    case CommError => false
  }

  /** The verification result, delivered back on the screen's thread.  The
      progress dialog always comes down.  Success reports the SIM unlocked
      before leaving for the unlock screen; failure shows the wrong-PIN
      header and starts the entry over. */
  function OnSimLockChangedResponse(s: Screen, success: bool): (o: Outcome)
    requires Valid(s)
    ensures Valid(o.screen)
    ensures !o.screen.progressShown
    ensures success ==>
      && o.effects == [ReportSimPinUnlocked, GoToUnlockScreen]
      && o.screen == s.(progressShown := false)
    ensures !success ==>
      && o.effects == [PokeWakelock]
      && o.screen.header == WrongPinCode
      && o.screen.pinText == [] && o.screen.enteredDigits == 0
      && o.screen.enteredPin == s.enteredPin
    ensures o.screen.createdWithKeyboardOpen == s.createdWithKeyboardOpen
  {
    var hidden := s.(progressShown := false);
    if success then
      Outcome(hidden, [ReportSimPinUnlocked, GoToUnlockScreen])
    else
      Outcome(hidden.(header := WrongPinCode, pinText := [], enteredDigits := 0), [PokeWakelock])
  }

  /** Resuming as written: it resets the header and clears the text, but
      leaves the counter where it was. */
  function OnResume(s: Screen): (r: Screen)
    requires Valid(s)
    ensures Valid(r)
    ensures r.header == EnterPinCode && r.pinText == []
    ensures r.enteredDigits == s.enteredDigits && r.enteredPin == s.enteredPin
    ensures r.progressShown == s.progressShown
    ensures r.createdWithKeyboardOpen == s.createdWithKeyboardOpen
  {
    s.(header := EnterPinCode, pinText := [])
  }

  /** Resuming as evidently intended ("start fresh"): the counter is reset
      along with the text, so the next digit starts a new entry. */
  function OnResumeFresh(s: Screen): (r: Screen)
    requires Valid(s)
    ensures Valid(r) && Aligned(r)
    ensures r.header == EnterPinCode && r.pinText == [] && r.enteredDigits == 0
    ensures r.enteredPin == s.enteredPin && r.progressShown == s.progressShown
    ensures r.createdWithKeyboardOpen == s.createdWithKeyboardOpen
  {
    OnResume(s).(enteredDigits := 0)
  }

  /** Key dispatch, in priority order: BACK, then a key that types a digit,
      then DEL, then ENTER; anything else is left to the caller (false). */
  function OnKeyDown(s: Screen, code: KeyCode, digitMatch: Option<Digit>): (r: KeyResult)
    requires Valid(s)
    ensures Valid(r.outcome.screen)
    ensures r.handled <==> code.KeyBack? || digitMatch.Some? || code.KeyDel? || code.KeyEnter?
    ensures !r.handled ==> r.outcome == Outcome(s, [])
    ensures code.KeyBack? ==> r.outcome == Outcome(s, [GoToLockScreen])
    ensures !code.KeyBack? && digitMatch.Some? ==>
      r.outcome == Outcome(ReportDigit(s, digitMatch.value), [])
    ensures !code.KeyBack? && digitMatch.None? && code.KeyDel? ==>
      r.outcome == Outcome(DeleteKey(s), [])
    ensures !code.KeyBack? && digitMatch.None? && code.KeyEnter? ==>
      r.outcome == CheckPin(s)
  {
    if code.KeyBack? then
      KeyResult(Outcome(s, [GoToLockScreen]), true)
    else if digitMatch.Some? then
      KeyResult(Outcome(ReportDigit(s, digitMatch.value), []), true)
    else if code.KeyDel? then
      KeyResult(Outcome(DeleteKey(s), []), true)
    else if code.KeyEnter? then
      KeyResult(CheckPin(s), true)
    else
      KeyResult(Outcome(s, []), false)
  }

  /** The screen asks to be rebuilt exactly when the keyboard state no
      longer matches the layout it was built for. */
  function OnKeyboardChange(s: Screen, keyboardOpen: bool): (o: Outcome)
    ensures o.screen == s
    ensures o.effects == [RecreateMe] <==> keyboardOpen != s.createdWithKeyboardOpen
    ensures o.effects == [] <==> keyboardOpen == s.createdWithKeyboardOpen
  {
    Outcome(s, if keyboardOpen != s.createdWithKeyboardOpen then [RecreateMe] else [])
  }

  /** The dialer's view-to-digit lookup: -1 for a view that is no digit. */
  function CheckDigit(b: TouchButton): (digit: int)
    ensures -1 <= digit <= 9
    ensures digit >= 0 <==> b.DigitButton?
    ensures b.DigitButton? ==> digit == b.digit
  {
    match b
    case DigitButton(d) => d
    case _ => -1
  }

  /** A click on the on-screen dialer.  The dialer exists only when the
      keyboard was closed at creation; otherwise nothing listens. */
  function OnTouchClick(s: Screen, b: TouchButton): (o: Outcome)
    requires Valid(s)
    ensures Valid(o.screen)
    ensures s.createdWithKeyboardOpen || b.OtherView? ==> o == Outcome(s, [])
    ensures !s.createdWithKeyboardOpen && b.CancelButton? ==> o == Outcome(s, [GoToLockScreen])
    ensures !s.createdWithKeyboardOpen && b.DigitButton? ==>
      o == Outcome(ReportDigit(s, b.digit), [PokeWakelockFor(DigitPressWakeMillis)])
  {
    if s.createdWithKeyboardOpen then
      Outcome(s, [])
    else if b.CancelButton? then
      Outcome(s, [GoToLockScreen])
    else
      var digit := CheckDigit(b);
      if digit >= 0 then
        Outcome(ReportDigit(s, digit), [PokeWakelockFor(DigitPressWakeMillis)])
      else
        Outcome(s, [])
  }

  /** A click on one of the screen's own buttons. */
  function OnClick(s: Screen, b: ScreenButton): (o: Outcome)
    requires Valid(s)
    ensures Valid(o.screen)
    ensures b.BackspaceButton? ==> o == OnBackspaceClick(s)
    ensures b.EmergencyCallButton? ==> o == Outcome(s, [TakeEmergencyCallAction])
    ensures b.OkButton? ==> o == CheckPin(s)
  {
    match b
    case BackspaceButton => OnBackspaceClick(s)
    case EmergencyCallButton => Outcome(s, [TakeEmergencyCallAction])
    case OkButton => CheckPin(s)
  }

  /** Everything that can happen to the screen, one event at a time. */
  datatype Event =
    | Resume
    | CleanUp
    | Click(button: ScreenButton)
    | KeyDown(code: KeyCode, digitMatch: Option<Digit>)
    | Touch(touched: TouchButton)
    | KeyboardChange(keyboardOpen: bool)
    | SimLockResponse(answer: SupplyPinAnswer)

  /** One event, with the corrected resume.  Tearing the screen down only
      unregisters it from the update monitor: its entry state stays as it
      was, and a verification answer arriving afterwards is still applied. */
  function Step(s: Screen, e: Event): (o: Outcome)
    requires Valid(s)
    ensures Valid(o.screen)
    ensures o.screen.createdWithKeyboardOpen == s.createdWithKeyboardOpen
  {
    match e
    case Resume => Outcome(OnResumeFresh(s), [])
    case CleanUp => Outcome(s, [RemoveUpdateCallback])
    case Click(b) => OnClick(s, b)
    case KeyDown(code, m) => OnKeyDown(s, code, m).outcome
    case Touch(b) => OnTouchClick(s, b)
    case KeyboardChange(open) => OnKeyboardChange(s, open)
    case SimLockResponse(answer) => OnSimLockChangedResponse(s, CheckSucceeded(answer))
  }

  /** One event with the resume as written; every other event as in Step. */
  function StepAsWritten(s: Screen, e: Event): (o: Outcome)
    requires Valid(s)
    ensures Valid(o.screen)
    ensures o.screen.createdWithKeyboardOpen == s.createdWithKeyboardOpen
    ensures !e.Resume? ==> o == Step(s, e)
  {
    if e.Resume? then Outcome(OnResume(s), []) else Step(s, e)
  }
}
