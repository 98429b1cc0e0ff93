/** Properties of the keyguard view manager over sequences of requests:
    the host is added to the window at most once, views are created fresh
    and cleaned up at most once each, nothing reaches a view before the
    first show, and a new view learns the screen state from the last screen
    event. */
module ViewManagerRuns {
  import opened Optional
  import opened ViewManager

  function Run(m: Manager, reqs: seq<Request>): (o: Outcome)
    requires Valid(m)
    ensures Valid(o.manager)
    decreases |reqs|
  {
    if reqs == [] then Outcome(m, [])
    else
      var first := Step(m, reqs[0]);
      var rest := Run(first.manager, reqs[1..]);
      Outcome(rest.manager, first.calls + rest.calls)
  }

  /** The host is added to the window exactly when it comes into
      existence, and once it exists it stays. */
  ghost predicate AddsHostOnce(m: Manager, o: Outcome) {
    && (m.hostAttached ==> o.manager.hostAttached)
    && Times(o.calls, AddHostToWindow) == (if !m.hostAttached && o.manager.hostAttached then 1 else 0)
  }

  /** Over any sequence of requests the host is added to the window at most
      once, and never taken off again (hiding only makes it invisible). */
  lemma {:induction false} HostAddedAtMostOnce(m: Manager, reqs: seq<Request>)
    requires Valid(m)
    ensures m.hostAttached ==> Run(m, reqs).manager.hostAttached
    ensures Times(Run(m, reqs).calls, AddHostToWindow) ==
      (if !m.hostAttached && Run(m, reqs).manager.hostAttached then 1 else 0)
    decreases |reqs|
  {
    if reqs != [] {
      var first := Step(m, reqs[0]);
      StepAddsHostOnce(m, reqs[0]);
      HostAddedAtMostOnce(first.manager, reqs[1..]);
    }
  }

  /** From a new manager, whatever happens, the window sees one host at most. */
  lemma NewManagerAddsHostAtMostOnce(reqs: seq<Request>)
    ensures Times(Run(Initial(), reqs).calls, AddHostToWindow) <= 1
  {
    HostAddedAtMostOnce(Initial(), reqs);
  }

  /** A view is created exactly when a new one becomes current, and the
      new one is the next fresh identity. */
  ghost predicate CreatesFreshView(m: Manager, o: Outcome) {
    && m.viewsCreated <= o.manager.viewsCreated
    && (o.manager.view.Some? && o.manager.view != m.view ==> o.manager.view.value == m.viewsCreated)
    && (forall id: ViewId ::
          Times(o.calls, CreateView(id)) == (if m.view.None? && o.manager.view == Some(id) then 1 else 0))
  }

  /** A view is cleaned up exactly when it stops being current. */
  ghost predicate CleansRetiredView(m: Manager, o: Outcome) {
    forall id: ViewId ::
      Times(o.calls, ViewCleanUp(id)) == (if m.view == Some(id) && o.manager.view.None? then 1 else 0)
  }

  lemma ShowKeepsLifecycle(m: Manager)
    requires Valid(m)
    ensures CreatesFreshView(m, Show(m)) && CleansRetiredView(m, Show(m))
    ensures AddsHostOnce(m, Show(m))
  {
  }

  lemma HideKeepsLifecycle(m: Manager)
    requires Valid(m)
    ensures CreatesFreshView(m, Hide(m)) && CleansRetiredView(m, Hide(m))
    ensures AddsHostOnce(m, Hide(m))
  {
  }

  lemma VerifyUnlockKeepsLifecycle(m: Manager)
    requires Valid(m)
    ensures CreatesFreshView(m, VerifyUnlock(m)) && CleansRetiredView(m, VerifyUnlock(m))
    ensures AddsHostOnce(m, VerifyUnlock(m))
  {
    ShowKeepsLifecycle(m);
    AppendingVerifyKeepsLifecycle(m, Show(m), VerifyUnlock(m), Show(m).manager.view.value);
  }

  /** A trailing verify call neither creates, cleans up nor adds a host. */
  lemma AppendingVerifyKeepsLifecycle(m: Manager, shown: Outcome, o: Outcome, id: ViewId)
    requires CreatesFreshView(m, shown) && CleansRetiredView(m, shown) && AddsHostOnce(m, shown)
    requires o.manager == shown.manager && o.calls == shown.calls + [ViewVerifyUnlock(id)]
    ensures CreatesFreshView(m, o) && CleansRetiredView(m, o) && AddsHostOnce(m, o)
  {
    assert multiset(o.calls) == multiset(shown.calls) + multiset{ViewVerifyUnlock(id)};
  }

  /** Requests that only forward to the view neither create nor clean up. */
  lemma ForwardKeepsLifecycle(m: Manager, o: Outcome)
    requires Valid(m)
    requires o.manager.view == m.view && o.manager.viewsCreated == m.viewsCreated
    requires o.manager.hostAttached == m.hostAttached
    requires |o.calls| <= 1
    requires forall k :: 0 <= k < |o.calls| ==>
      !o.calls[k].CreateView? && !o.calls[k].ViewCleanUp? && !o.calls[k].AddHostToWindow?
    ensures CreatesFreshView(m, o) && CleansRetiredView(m, o) && AddsHostOnce(m, o)
  {
    if |o.calls| == 1 {
      assert multiset(o.calls) == multiset{o.calls[0]};
    } else {
      assert o.calls == [];
    }
  }

  /** Requests other than show, hide and verify-unlock only forward. */
  predicate Forwards(r: Request) {
    r.ResetRequest? || r.ScreenTurnedOff? || r.ScreenTurnedOn? || r.WakeWhenReady?
  }

  lemma ForwardingStepKeepsLifecycle(m: Manager, r: Request)
    requires Valid(m) && Forwards(r)
    ensures CreatesFreshView(m, Step(m, r)) && CleansRetiredView(m, Step(m, r))
    ensures AddsHostOnce(m, Step(m, r))
  {
    match r
    case ResetRequest =>
      assert Step(m, r) == Reset(m);
      ForwardKeepsLifecycle(m, Reset(m));
    case ScreenTurnedOff =>
      assert Step(m, r) == OnScreenTurnedOff(m);
      ForwardKeepsLifecycle(m, OnScreenTurnedOff(m));
    case ScreenTurnedOn =>
      assert Step(m, r) == OnScreenTurnedOn(m);
      ForwardKeepsLifecycle(m, OnScreenTurnedOn(m));
    case WakeWhenReady(keyCode) =>
      assert Step(m, r) == WakeWhenReadyTq(m, keyCode);
      ForwardKeepsLifecycle(m, WakeWhenReadyTq(m, keyCode));
  }

  /** Every request adds the host to the window only when it comes into existence. */
  lemma StepAddsHostOnce(m: Manager, r: Request)
    requires Valid(m)
    ensures AddsHostOnce(m, Step(m, r))
  {
    match r
    case ShowRequest =>
      assert Step(m, r) == Show(m);
      ShowKeepsLifecycle(m);
    case HideRequest =>
      assert Step(m, r) == Hide(m);
      HideKeepsLifecycle(m);
    case VerifyUnlockRequest =>
      assert Step(m, r) == VerifyUnlock(m);
      VerifyUnlockKeepsLifecycle(m);
    case _ =>
      ForwardingStepKeepsLifecycle(m, r);
  }

  /** Every request creates a view only when a new one becomes current. */
  lemma StepCreatesFreshView(m: Manager, r: Request)
    requires Valid(m)
    ensures CreatesFreshView(m, Step(m, r))
  {
    match r
    case ShowRequest =>
      assert Step(m, r) == Show(m);
      ShowKeepsLifecycle(m);
    case HideRequest =>
      assert Step(m, r) == Hide(m);
      HideKeepsLifecycle(m);
    case VerifyUnlockRequest =>
      assert Step(m, r) == VerifyUnlock(m);
      VerifyUnlockKeepsLifecycle(m);
    case _ =>
      ForwardingStepKeepsLifecycle(m, r);
  }

  /** Every request cleans up a view exactly when it stops being current. */
  lemma StepCleansRetiredView(m: Manager, r: Request)
    requires Valid(m)
    ensures CleansRetiredView(m, Step(m, r))
  {
    match r
    case ShowRequest =>
      assert Step(m, r) == Show(m);
      ShowKeepsLifecycle(m);
    case HideRequest =>
      assert Step(m, r) == Hide(m);
      HideKeepsLifecycle(m);
    case VerifyUnlockRequest =>
      assert Step(m, r) == VerifyUnlock(m);
      VerifyUnlockKeepsLifecycle(m);
    case _ =>
      ForwardingStepKeepsLifecycle(m, r);
  }


  /** Over any sequence of requests every view is created at most once,
      and only views with identities fresh at the start are created. */
  lemma {:induction false} ViewsCreatedOnce(m: Manager, reqs: seq<Request>)
    requires Valid(m)
    ensures var o := Run(m, reqs);
      && m.viewsCreated <= o.manager.viewsCreated
      && (forall id: ViewId :: Times(o.calls, CreateView(id)) <= 1)
      && (forall id: ViewId :: CreateView(id) in o.calls ==> m.viewsCreated <= id < o.manager.viewsCreated)
    decreases |reqs|
  {
    if reqs != [] {
      var first := Step(m, reqs[0]);
      var rest := Run(first.manager, reqs[1..]);
      var o := Run(m, reqs);
      StepCreatesFreshView(m, reqs[0]);
      ViewsCreatedOnce(first.manager, reqs[1..]);
      assert o.calls == first.calls + rest.calls;
      forall id: ViewId
        ensures Times(o.calls, CreateView(id)) <= 1
        ensures CreateView(id) in o.calls ==> m.viewsCreated <= id < o.manager.viewsCreated
      {
        assert Times(o.calls, CreateView(id)) == Times(first.calls, CreateView(id)) + Times(rest.calls, CreateView(id));
      }
    }
  }

  /** Over any sequence of requests every view is cleaned up at most once,
      and only the view current at the start or a view created during the
      run is cleaned up. */
  lemma {:induction false} ViewsCleanedUpOnce(m: Manager, reqs: seq<Request>)
    requires Valid(m)
    ensures var o := Run(m, reqs);
      && m.viewsCreated <= o.manager.viewsCreated
      && (forall id: ViewId :: Times(o.calls, ViewCleanUp(id)) <= 1)
      && (forall id: ViewId :: ViewCleanUp(id) in o.calls ==>
            m.view == Some(id) || m.viewsCreated <= id < o.manager.viewsCreated)
    decreases |reqs|
  {
    if reqs != [] {
      var first := Step(m, reqs[0]);
      var rest := Run(first.manager, reqs[1..]);
      var o := Run(m, reqs);
      StepCreatesFreshView(m, reqs[0]);
      StepCleansRetiredView(m, reqs[0]);
      ViewsCleanedUpOnce(first.manager, reqs[1..]);
      assert o.calls == first.calls + rest.calls;
      forall id: ViewId
        ensures Times(o.calls, ViewCleanUp(id)) <= 1
        ensures ViewCleanUp(id) in o.calls ==> m.view == Some(id) || m.viewsCreated <= id < o.manager.viewsCreated
      {
        assert Times(o.calls, ViewCleanUp(id)) == Times(first.calls, ViewCleanUp(id)) + Times(rest.calls, ViewCleanUp(id));
      }
    }
  }

  /** How one request can change the current view: not at all, by dropping
      it (hide), or by creating the next fresh one when there was none
      (show).  The creation counter grows only in the last case. */
  ghost predicate ViewStepShape(m: Manager, n: Manager) {
    || (n.view == m.view && n.viewsCreated == m.viewsCreated)
    || (m.view.Some? && n.view.None? && n.viewsCreated == m.viewsCreated)
    || (m.view.None? && n.view == Some(m.viewsCreated) && n.viewsCreated == m.viewsCreated + 1)
  }

  lemma StepViewShape(m: Manager, r: Request)
    requires Valid(m)
    ensures ViewStepShape(m, Step(m, r).manager)
  {
    match r
    case ShowRequest => assert Step(m, r) == Show(m);
    case HideRequest => assert Step(m, r) == Hide(m);
    case VerifyUnlockRequest => assert Step(m, r) == VerifyUnlock(m);
    case _ => assert Step(m, r).manager.view == m.view && Step(m, r).manager.viewsCreated == m.viewsCreated;
  }

  /** After any requests the current view is the one at the start, or one
      created during the run; the creation counter never goes down. */
  lemma {:induction false} RunViewShape(m: Manager, reqs: seq<Request>)
    requires Valid(m)
    ensures var n := Run(m, reqs).manager;
      && m.viewsCreated <= n.viewsCreated
      && (n.view.Some? ==> n.view == m.view || m.viewsCreated <= n.view.value)
    decreases |reqs|
  {
    if reqs != [] {
      StepViewShape(m, reqs[0]);
      RunViewShape(Step(m, reqs[0]).manager, reqs[1..]);
    }
  }

  /** A view is alive at some point of a run from m when it is current at the
      start or is created during the run. */
  predicate AliveDuring(m: Manager, id: ViewId) {
    m.view == Some(id) || m.viewsCreated <= id
  }

  /** No view leaks: over any requests, every view that was alive and is no
      longer current has been cleaned up (exactly once), and the current one
      has not. */
  lemma {:induction false} NoViewLeaks(m: Manager, reqs: seq<Request>)
    requires Valid(m)
    ensures var o := Run(m, reqs);
      forall id: ViewId :: id < o.manager.viewsCreated ==>
        Times(o.calls, ViewCleanUp(id)) == (if AliveDuring(m, id) && o.manager.view != Some(id) then 1 else 0)
    decreases |reqs|
  {
    if reqs != [] {
      var first := Step(m, reqs[0]);
      var m1 := first.manager;
      var rest := Run(m1, reqs[1..]);
      var o := Run(m, reqs);
      StepCleansRetiredView(m, reqs[0]);
      StepViewShape(m, reqs[0]);
      RunViewShape(m1, reqs[1..]);
      NoViewLeaks(m1, reqs[1..]);
      assert o.calls == first.calls + rest.calls;
      assert o.manager == rest.manager;
      forall id: ViewId | id < o.manager.viewsCreated
        ensures Times(o.calls, ViewCleanUp(id)) == (if AliveDuring(m, id) && o.manager.view != Some(id) then 1 else 0)
      {
        assert Times(o.calls, ViewCleanUp(id)) == Times(first.calls, ViewCleanUp(id)) + Times(rest.calls, ViewCleanUp(id));
        if m.view == Some(id) && m1.view.None? {
          assert !AliveDuring(m1, id) && o.manager.view != Some(id);
        } else {
          assert AliveDuring(m1, id) == AliveDuring(m, id);
        }
      }
    }
  }

  /** From a new manager, every view ever created is cleaned up exactly once
      unless it is the current one, which is not cleaned up at all: at most
      one view is alive at any time. */
  lemma FromInitialNoLeak(reqs: seq<Request>)
    ensures var o := Run(Initial(), reqs);
      forall id: ViewId :: id < o.manager.viewsCreated ==>
        Times(o.calls, ViewCleanUp(id)) == (if o.manager.view == Some(id) then 0 else 1)
  {
    NoViewLeaks(Initial(), reqs);
  }

  /** The screen state after one request: screen events set it, nothing
      else touches it. */
  function NextScreenState(screenOn: bool, r: Request): bool {
    match r
    case ScreenTurnedOn => true
    case ScreenTurnedOff => false
    case _ => screenOn
  }

  /** The screen state as a sequence of requests leaves it. */
  function LastScreenState(screenOn: bool, reqs: seq<Request>): bool
    decreases |reqs|
  {
    if reqs == [] then screenOn
    else LastScreenState(NextScreenState(screenOn, reqs[0]), reqs[1..])
  }

  lemma StepScreenState(m: Manager, r: Request)
    requires Valid(m)
    ensures Step(m, r).manager.screenOn == NextScreenState(m.screenOn, r)
  {
    match r
    case ShowRequest => assert Step(m, r) == Show(m);
    case HideRequest => assert Step(m, r) == Hide(m);
    case VerifyUnlockRequest => assert Step(m, r) == VerifyUnlock(m);
    case ResetRequest => assert Step(m, r) == Reset(m);
    case ScreenTurnedOff => assert Step(m, r) == OnScreenTurnedOff(m);
    case ScreenTurnedOn => assert Step(m, r) == OnScreenTurnedOn(m);
    case WakeWhenReady(keyCode) => assert Step(m, r) == WakeWhenReadyTq(m, keyCode);
  }

  /** Screen events always update the manager's screen state, whether or
      not there is a view to tell; no other request touches it. */
  lemma {:induction false} ScreenOnFollowsLastEvent(m: Manager, reqs: seq<Request>)
    requires Valid(m)
    ensures Run(m, reqs).manager.screenOn == LastScreenState(m.screenOn, reqs)
    decreases |reqs|
  {
    if reqs != [] {
      StepScreenState(m, reqs[0]);
      ScreenOnFollowsLastEvent(Step(m, reqs[0]).manager, reqs[1..]);
    }
  }

  /** A view created by a show hears "screen turned on" exactly when the last
      screen event before it was "on" (and not at all when there was none). */
  lemma NewViewHearsScreenOnIffLastEventOn(reqs: seq<Request>)
    requires Run(Initial(), reqs).manager.view.None?
    ensures var m := Run(Initial(), reqs).manager;
      ViewScreenTurnedOn(m.viewsCreated) in Show(m).calls <==> LastScreenState(false, reqs)
  {
    var m := Run(Initial(), reqs).manager;
    ScreenOnFollowsLastEvent(Initial(), reqs);
    assert Times(Show(m).calls, ViewScreenTurnedOn(m.viewsCreated)) == (if m.screenOn then 1 else 0);
  }

  predicate Shows(r: Request) {
    r.ShowRequest? || r.VerifyUnlockRequest?
  }

  /** Until the first show, the keyguard is not showing and no request
      reaches a view: reset, screen and wake events are dropped. */
  lemma {:induction false} NothingReachesViewBeforeShow(m: Manager, reqs: seq<Request>)
    requires Valid(m) && m.view.None? && !IsShowing(m)
    requires forall k :: 0 <= k < |reqs| ==> !Shows(reqs[k])
    ensures Run(m, reqs).calls == []
    ensures !IsShowing(Run(m, reqs).manager) && Run(m, reqs).manager.view.None?
    decreases |reqs|
  {
    if reqs != [] {
      var first := Step(m, reqs[0]);
      assert first.calls == [] && first.manager.view.None? && !IsShowing(first.manager);
      NothingReachesViewBeforeShow(first.manager, reqs[1..]);
    }
  }

  /** A second show re-affirms visibility and focus and does nothing else:
      no second host, no second view. */
  lemma ShowIsIdempotent(m: Manager)
    requires Valid(m)
    ensures var first := Show(m);
      Show(first.manager) == Outcome(first.manager, [RequestFocus(first.manager.view.value)])
  {
  }

  /** Show twice on a new manager: the host is added once and one view is
      created. */
  lemma ShowTwiceCreatesOne()
    ensures var calls := Run(Initial(), [ShowRequest, ShowRequest]).calls;
      && Times(calls, AddHostToWindow) == 1
      && Times(calls, CreateView(0)) == 1
      && forall id: ViewId :: CreateView(id) in calls ==> id == 0
  {
    var first := Show(Initial());
    ShowIsIdempotent(Initial());
    var reqs := [ShowRequest, ShowRequest];
    assert reqs[1..] == [ShowRequest];
    assert reqs[1..][1..] == [];
    assert Run(Initial(), reqs).calls == first.calls + [RequestFocus(0)];
  }

  /** A second hide, or a hide before any show, cleans nothing up and
      changes nothing. */
  lemma HideIsIdempotent(m: Manager)
    requires Valid(m)
    ensures Hide(Hide(m).manager) == Outcome(Hide(m).manager, [])
    ensures Hide(Initial()) == Outcome(Initial(), [])
  {
  }

  /** Show then hide: the keyguard is not showing, and the view that was
      shown is removed and cleaned up exactly once. */
  lemma ShowThenHideCleansShownView(m: Manager)
    requires Valid(m)
    ensures var shown := Show(m);
      var hidden := Hide(shown.manager);
      && !IsShowing(hidden.manager)
      && hidden.manager.hostAttached
      && Times(hidden.calls, ViewCleanUp(shown.manager.view.value)) == 1
  {
  }
}
