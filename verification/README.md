# Keyguard policy core, modelled in Dafny

This project models three pieces of the phone keyguard (the lock screen
shown before the device can be used):

- **SIM PIN unlock screen** (`SimUnlockScreen`). The user types a SIM PIN on
  the keyboard or on an on-screen dialer. The screen holds:
  - a digit counter and an eight-slot digit record;
  - the text in the PIN field, a header message and a progress dialog.

  OK or ENTER hands the text to the SIM's `supplyPin` on a thread of its own.
  The answer comes back later and either unlocks the screen or shows
  "wrong PIN". Modules `SimUnlock` (single handlers) and `SimUnlockRuns`
  (sequences of events).
- **Keyguard view manager** (`KeyguardViewManager`). It creates a host
  container lazily and adds it to the window once. It creates the keyguard
  view lazily, shows and hides it, and forwards reset, screen and wake events
  to the current view. Modules `ViewManager` (single requests) and
  `ViewManagerRuns` (sequences of requests).
- **Security policy** (`LockPatternKeyguardViewProperties`). It decides
  whether the device is "secure": a lock pattern that is both enabled and
  saved, or a SIM that is PIN-locked, PUK-locked or absent. A missing SIM
  therefore makes the device secure whatever the pattern settings. Module
  `SecurityPolicy`.

Every handler is a pure function. It takes the current state and returns the
next state together with the calls made on collaborators, in order. For the
screen these calls are the callback, the update monitor and the verification
thread. For the view manager they are the window manager, the host and the
view. Collaborators are not modelled beyond the calls made on them. The
remote `supplyPin` answer is an input event (`SimLockResponse`), and the
digit a key types (`KeyEvent.getMatch`) is an input of the key event. Views
are identified by the order in which they were created.

The code has these behaviours, and the model keeps them:

- a second OK while a check is pending starts a second check;
- an answer arriving after `cleanUp` is still applied;
- `onResume` clears the text but keeps the digit counter (logged under Findings).

## Model

| member | source | states |
|---|---|---|
| SimUnlock.Initial | phone/com/android/internal/policy/impl/SimUnlockScreen.java:56-85 | a new screen has no digits counted, an all-zero record, an empty text, the "enter PIN" header, no progress dialog, and remembers whether the keyboard was open at creation; it satisfies the screen invariant with the text showing every counted digit |
| SimUnlock.ReportDigit | phone/com/android/internal/policy/impl/SimUnlockScreen.java:238-247 | a digit on a fresh entry (count 0) starts a new text; a full record of eight ignores the digit; otherwise the count rises by one, the digit lands in the record slot at the old count with every other slot unchanged, and its character is appended; the screen invariant is kept, so the array write is always in bounds |
| SimUnlock.OnBackspaceClick | phone/com/android/internal/policy/impl/SimUnlockScreen.java:147-155 | the backspace button is guarded by the text length, not by the counter: with text it drops the last character and lowers the count by one, with no text it changes nothing; it pokes the wake lock in both cases |
| SimUnlock.DeleteKey | phone/com/android/internal/policy/impl/SimUnlockScreen.java:222-228 | the DEL key is guarded by the counter: with a positive count the count drops by one and the field loses its last character if it has one; at count 0 nothing changes |
| SimUnlock.CheckPin | phone/com/android/internal/policy/impl/SimUnlockScreen.java:179-192 | a verification starts iff at least four digits are counted; a short entry shows "invalid PIN", clears the text, resets the count and pokes the wake lock; otherwise the progress dialog goes up and exactly one check starts with the text on display, which is the decimal rendering of the last recorded digits, no longer than the count, and exactly the count long when the text shows every counted digit |
| SimUnlock.CheckSucceeded | phone/com/android/internal/policy/impl/SimUnlockScreen.java:128-144 | the thread posts success iff supplyPin answered true; a RemoteException posts false |
| SimUnlock.OnSimLockChangedResponse | phone/com/android/internal/policy/impl/SimUnlockScreen.java:193-206 | the progress dialog always comes down; success reports the SIM unlocked before going to the unlock screen and changes nothing else; failure shows "wrong PIN", clears the text, resets the count and pokes the wake lock |
| SimUnlock.OnResume | phone/com/android/internal/policy/impl/SimUnlockScreen.java:101-105 | as written, resuming restores the "enter PIN" header and clears the text but keeps the counter, the record and the dialog state |
| SimUnlock.OnResumeFresh | phone/com/android/internal/policy/impl/SimUnlockScreen.java:101-105 | the corrected resume starts fresh: "enter PIN" header, empty text and a count of 0, so the text again shows every counted digit |
| SimUnlock.OnKeyDown | phone/com/android/internal/policy/impl/SimUnlockScreen.java:211-236 | a key is consumed iff it is BACK, types a digit, is DEL or is ENTER; the first of these that applies wins (BACK goes to the lock screen even on a digit key); an unconsumed key changes nothing |
| SimUnlock.OnKeyboardChange | phone/com/android/internal/policy/impl/SimUnlockScreen.java:251-255 | the screen asks to be recreated iff the keyboard state differs from the one it was created with, and otherwise does nothing |
| SimUnlock.CheckDigit | phone/com/android/internal/policy/impl/SimUnlockScreen.java:325-349 | the dialer lookup returns a digit (0 to 9) iff the view is a digit button, and then that button's digit; otherwise -1 |
| SimUnlock.OnTouchClick | phone/com/android/internal/policy/impl/SimUnlockScreen.java:312-323 | cancel goes to the lock screen; a digit button pokes the wake lock for 5000 ms and then types its digit; any other view changes nothing; and when the keyboard was open at creation there is no dialer, so every click changes nothing |
| SimUnlock.OnClick | phone/com/android/internal/policy/impl/SimUnlockScreen.java:147-161 | the emergency button only asks for the emergency call action; OK runs the PIN check; backspace behaves as described above |
| SimUnlock.TextIsShownDigits | phone/com/android/internal/policy/impl/SimUnlockScreen.java:245-246 | the field always shows the decimal rendering of the recorded digits just below the counter, so it only ever holds decimal digits |
| SimUnlockRuns.Run | phone/com/android/internal/policy/impl/SimUnlockScreen.java:56-57 | over any sequence of events the counter stays within 0 to 8 and the text stays a rendering of recorded digits |
| SimUnlockRuns.RunAsWritten | phone/com/android/internal/policy/impl/SimUnlockScreen.java:56-57 | the same holds with the resume as written |
| SimUnlockRuns.RunChecksAreDigits | phone/com/android/internal/policy/impl/SimUnlockScreen.java:179-192 | even as written, whatever the events, every PIN handed to supplyPin is a string of at most eight decimal digits |
| SimUnlockRuns.RunsSendFullPins | phone/com/android/internal/policy/impl/SimUnlockScreen.java:179-192 | with the corrected resume, over any sequence of events, the text shows every counted digit, so every PIN handed to supplyPin has four to eight digits |
| SimUnlockRuns.RunsWithoutResumeSendFullPins | phone/com/android/internal/policy/impl/SimUnlockScreen.java:179-192 | as written, the same holds as long as no resume happens |
| SimUnlockRuns.TypeDigitsCount | phone/com/android/internal/policy/impl/SimUnlockScreen.java:242-246 | typing digits raises the count by as many of them as still fit in the eight slots |
| SimUnlockRuns.TypeDigitsText | phone/com/android/internal/policy/impl/SimUnlockScreen.java:242-246 | typing digits appends the rendering of as many of them as still fit to the text and drops the rest |
| SimUnlockRuns.NineDigitsKeepEight | phone/com/android/internal/policy/impl/SimUnlockScreen.java:242-244 | nine digits typed on a new screen leave eight counted and show exactly the first eight |
| SimUnlockRuns.DigitThenBackspaceRestores | phone/com/android/internal/policy/impl/SimUnlockScreen.java:148-155 | below capacity, backspace undoes a digit: text, count, header and dialog are as before |
| SimUnlockRuns.DigitThenDeleteKeyRestores | phone/com/android/internal/policy/impl/SimUnlockScreen.java:222-226 | below capacity, the DEL key undoes a digit in the same way |
| SimUnlockRuns.RejectionStartsOver | phone/com/android/internal/policy/impl/SimUnlockScreen.java:182-205 | after a short entry, or after a wrong-PIN answer whatever the count when it arrives, the next digit starts a new one-character text |
| SimUnlockRuns.CommErrorReadsAsWrongPin | phone/com/android/internal/policy/impl/SimUnlockScreen.java:137-142 | a communication failure has exactly the outcome of a wrong PIN |
| SimUnlockRuns.SecondOkStartsSecondCheck | phone/com/android/internal/policy/impl/SimUnlockScreen.java:190-192 | nothing stops a second OK while a check is pending: it starts another check with the same PIN |
| SimUnlockRuns.AnswerAfterCleanUpIsApplied | phone/com/android/internal/policy/impl/SimUnlockScreen.java:107-110 | cleaning up only unregisters the screen from the update monitor and changes nothing else; a later answer has exactly the outcome it would have had before, so success still reports the SIM unlocked and goes to the unlock screen, and failure still pokes the wake lock |
| SimUnlockRuns.ProgressOnlyHiddenByAnswer | phone/com/android/internal/policy/impl/SimUnlockScreen.java:190-194 | once the progress dialog is up, only the verification answer takes it down; every other event, resume included, leaves it up |
| SimUnlockRuns.ResumeThenOkSendsEmptyPin | phone/com/android/internal/policy/impl/SimUnlockScreen.java:101-105 | as written, OK right after resuming an entry of four or more digits passes the length check and hands the SIM an empty PIN |
| SimUnlockRuns.EmptyPinReachesSim | phone/com/android/internal/policy/impl/SimUnlockScreen.java:179-192 | the same from a new screen: dialer digits 1, 2, 3, 4, then a resume, then OK sends the empty PIN |
| SimUnlockRuns.ResumeAtFullIgnoresDialer | phone/com/android/internal/policy/impl/SimUnlockScreen.java:242-244 | as written, after a resume at eight digits the dialer's digits and backspace change nothing |
| SimUnlockRuns.ResumeThenOkIsRejected | phone/com/android/internal/policy/impl/SimUnlockScreen.java:101-105 | with the corrected resume, OK right after a resume is rejected as too short, and a dialer digit after a resume starts a one-digit entry |
| ViewManager.Initial | phone/com/android/internal/policy/impl/KeyguardViewManager.java:48-51 | a new manager has no host, no view and the screen off; it satisfies the manager invariant and is not showing |
| ViewManager.IsShowing | phone/com/android/internal/policy/impl/KeyguardViewManager.java:197-199 | the keyguard is showing when the host exists and is visible; in a valid manager that is exactly when a view exists |
| ViewManager.Show | phone/com/android/internal/policy/impl/KeyguardViewManager.java:90-128 | after a show the keyguard is showing and has a view; an existing view is kept; the screen state is untouched |
| ViewManager.ShowCalls | phone/com/android/internal/policy/impl/KeyguardViewManager.java:93-127 | the host is added to the window iff it did not exist; a view is created iff there was none, and it is the next fresh one; that new view is put in the host and hears "screen on" iff the last screen event was "on"; nothing is cleaned up or verified; the shown view gets focus exactly once, as the last call; no call other than these five kinds is made |
| ViewManager.NewViewCalls | phone/com/android/internal/policy/impl/KeyguardViewManager.java:111-123 | a new view is created, put in the host, and told the screen is on iff it is |
| ViewManager.Hide | phone/com/android/internal/policy/impl/KeyguardViewManager.java:182-192 | after a hide the keyguard is not showing and has no view; a current view is removed from the host and cleaned up; the host stays in the window |
| ViewManager.Reset | phone/com/android/internal/policy/impl/KeyguardViewManager.java:133-138 | reset reaches the current view iff there is one and changes nothing else |
| ViewManager.OnScreenTurnedOff | phone/com/android/internal/policy/impl/KeyguardViewManager.java:140-146 | the screen state becomes "off" whether or not there is a view; the view hears it iff it exists |
| ViewManager.OnScreenTurnedOn | phone/com/android/internal/policy/impl/KeyguardViewManager.java:148-154 | the screen state becomes "on" whether or not there is a view; the view hears it iff it exists |
| ViewManager.VerifyUnlock | phone/com/android/internal/policy/impl/KeyguardViewManager.java:156-160 | verify-unlock first shows, so the view exists, then asks that view and no other to verify exactly once; the calls are exactly the show's calls followed by that one verify |
| ViewManager.WakeWhenReadyTq | phone/com/android/internal/policy/impl/KeyguardViewManager.java:172-177 | a wake key is passed to the view iff there is one; nothing else changes |
| ViewManagerRuns.HostAddedAtMostOnce | phone/com/android/internal/policy/impl/KeyguardViewManager.java:93-107 | over any requests the host is added exactly when it comes into existence and is never taken off again |
| ViewManagerRuns.NewManagerAddsHostAtMostOnce | phone/com/android/internal/policy/impl/KeyguardViewManager.java:93-107 | from a new manager, the window sees at most one host |
| ViewManagerRuns.ViewsCreatedOnce | phone/com/android/internal/policy/impl/KeyguardViewManager.java:109-111 | over any requests each view is created at most once, and only fresh identities are created |
| ViewManagerRuns.ViewsCleanedUpOnce | phone/com/android/internal/policy/impl/KeyguardViewManager.java:186-190 | over any requests each view is cleaned up at most once, and only the starting view or one created during the run |
| ViewManagerRuns.StepViewShape | phone/com/android/internal/policy/impl/KeyguardViewManager.java:109-111 | a request leaves the current view as it was, drops it (hide), or creates the next fresh one when there was none (show); the creation counter grows only in the last case |
| ViewManagerRuns.RunViewShape | phone/com/android/internal/policy/impl/KeyguardViewManager.java:109-111 | after any requests the current view is the starting one or one created during the run, and the creation counter never goes down |
| ViewManagerRuns.NoViewLeaks | phone/com/android/internal/policy/impl/KeyguardViewManager.java:182-192 | over any requests, every view alive at some point that is no longer current has been cleaned up exactly once, and the current view has not |
| ViewManagerRuns.FromInitialNoLeak | phone/com/android/internal/policy/impl/KeyguardViewManager.java:109-124 | from a new manager, every view created is cleaned up exactly once unless it is the current one: at most one view is alive at a time |
| ViewManagerRuns.ScreenOnFollowsLastEvent | phone/com/android/internal/policy/impl/KeyguardViewManager.java:140-154 | the manager's screen state is always that of the last screen event |
| ViewManagerRuns.NewViewHearsScreenOnIffLastEventOn | phone/com/android/internal/policy/impl/KeyguardViewManager.java:121-123 | a view created by a show hears "screen on" iff the last screen event before it was "on" |
| ViewManagerRuns.NothingReachesViewBeforeShow | phone/com/android/internal/policy/impl/KeyguardViewManager.java:133-177 | until the first show or verify-unlock, nothing reaches any view and the keyguard is not showing |
| ViewManagerRuns.ShowIsIdempotent | phone/com/android/internal/policy/impl/KeyguardViewManager.java:93-127 | a second show only re-focuses the same view: no second host, no second view |
| ViewManagerRuns.ShowTwiceCreatesOne | phone/com/android/internal/policy/impl/KeyguardViewManager.java:93-127 | two shows on a new manager add one host and create one view |
| ViewManagerRuns.HideIsIdempotent | phone/com/android/internal/policy/impl/KeyguardViewManager.java:182-192 | a second hide, or a hide before any show, does nothing |
| ViewManagerRuns.ShowThenHideCleansShownView | phone/com/android/internal/policy/impl/KeyguardViewManager.java:182-199 | show then hide leaves the keyguard not showing, the host in the window, and the shown view cleaned up once |
| SecurityPolicy.IsLockPatternSecure | phone/com/android/internal/policy/impl/LockPatternKeyguardViewProperties.java:54-57 | the pattern makes the device secure only when it is both enabled and saved; either setting alone does not |
| SecurityPolicy.IsSimPinSecure | phone/com/android/internal/policy/impl/LockPatternKeyguardViewProperties.java:59-63 | the SIM makes the device secure iff its state is outside the separately listed non-locking states (unknown, network-locked, ready) |
| SecurityPolicy.IsSecure | phone/com/android/internal/policy/impl/LockPatternKeyguardViewProperties.java:50-52 | the device is secure iff the pattern is secure or the SIM is in a locking state |
| SecurityPolicy.OpenIffNoFactorDemands | phone/com/android/internal/policy/impl/LockPatternKeyguardViewProperties.java:50-63 | the device is not secure iff the SIM is in a non-locking state and the pattern is not both enabled and saved |
| SecurityPolicy.AbsentSimIsSecure | phone/com/android/internal/policy/impl/LockPatternKeyguardViewProperties.java:59-63 | a missing SIM makes the device secure whatever the pattern settings |
| SecurityPolicy.LockedSimIsSecure | phone/com/android/internal/policy/impl/LockPatternKeyguardViewProperties.java:59-63 | a PIN- or PUK-locked SIM makes the device secure |
| SecurityPolicy.OtherSimDefersToPattern | phone/com/android/internal/policy/impl/LockPatternKeyguardViewProperties.java:50-57 | for any other SIM state the device is secure iff the pattern is both enabled and saved |
| SecurityPolicy.HalfPatternIsNotSecure | phone/com/android/internal/policy/impl/LockPatternKeyguardViewProperties.java:54-57 | with a ready SIM, an enabled pattern that is not saved (or the converse) does not make the device secure |
| SecurityPolicy.SecureIsMonotone | phone/com/android/internal/policy/impl/LockPatternKeyguardViewProperties.java:50-63 | switching a factor on, or moving the SIM into a locking state, never makes a secure device insecure |

## Left out

- Layout inflation, view lookup, listener registration and the construction of the progress dialog: they are UI wiring. The dialog is modelled only as "shown or not".
- The verification thread, `post` and the `synchronized` methods: each handler is one atomic step, and a supplyPin answer is an event that may arrive at any later point.
- `createKeyguardView` and the keyguard view itself (`LockPatternKeyguardView`): the view is an identity plus the calls made on it. LockPatternKeyguardView is not part of this model.
- The choice between the pattern screen and the SIM PIN screen: `createKeyguardView` always builds a `LockPatternKeyguardView` (LockPatternKeyguardViewProperties.java:45-48), and that choice is made inside the view, which is not part of this model.
- The host's `dispatchDraw` callback and the window layout parameters: drawing and window flags are not modelled.
- `onPause` and `onOrientationChange`: their bodies are empty.
- The SimCard.State enumeration is declared in the telephony layer, which is not part of this model. The model uses its six values, and only PIN_REQUIRED, PUK_REQUIRED and ABSENT matter to the policy.
- The EditText's handling of the DEL key is assumed to delete the last character when there is one (`SimUnlock.DeleteLastChar`).
- `KeyEvent.getMatch` is an input: a key event carries the digit it types, if any.
- A null phone service (`ServiceManager.checkService("phone")` returning null, SimUnlockScreen.java:130-131): `CheckSimPin.run` then throws a NullPointerException rather than a RemoteException, so no answer is posted and the progress dialog stays up. The model has no event for this; `SimUnlockRuns.ProgressOnlyHiddenByAnswer` shows that without an answer the dialog never comes down.
- Policy.java (the factory that builds the phone window manager) is outside this model.

## Findings

| source | as written | input that shows it | evidently intended | confidence | as-written member | corrected member |
|---|---|---|---|---|---|---|
| phone/com/android/internal/policy/impl/SimUnlockScreen.java:101-105 | `onResume` clears the PIN text but keeps `mEnteredDigits`; `checkPin` checks the count but sends the text | four digits on the dialer, a resume, then OK: the count is 4, so supplyPin receives the empty string | resuming "starts fresh", so the count is reset too and every PIN sent has four to eight digits | not executed | SimUnlockRuns.ResumeThenOkSendsEmptyPin | SimUnlockRuns.RunsSendFullPins |

There are two more consequences of the same line:

- after a resume at eight digits, every dialer digit is ignored and the backspace button changes nothing (`SimUnlockRuns.ResumeAtFullIgnoresDialer`);
- the DEL key only lowers the count (`SimUnlock.DeleteKey`).

`SimUnlock.Step` and `SimUnlockRuns.Run` use the corrected resume,
`SimUnlock.OnResumeFresh`. `SimUnlock.StepAsWritten` and
`SimUnlockRuns.RunAsWritten` differ from them only in using the resume as
written, `SimUnlock.OnResume`.
