/** The keyguard view manager as a functional state machine.

    The manager lazily creates a host container and adds it to the window
    manager, lazily creates the keyguard view inside it, and forwards
    screen and wake events to the view when there is one.  Its state is
    whether the host exists (and so has been added to the window), whether
    the host is visible, which view (if any) is current, and whether the
    last screen event was "on".  Views are identified by the order of their
    creation.  Every operation returns the next state and the calls it made
    on the window manager, the host and the view, in order. */
module ViewManager {
  import opened Optional

  type ViewId = nat

  datatype Manager = Manager(
    hostAttached: bool,
    hostVisible: bool,
    view: Option<ViewId>,
    screenOn: bool,
    viewsCreated: nat)

  /** Calls on collaborators: the window manager (AddHostToWindow), the
      view factory (CreateView), the host (AddViewToHost, RemoveViewFromHost)
      and the current view (the rest). */
  datatype Call =
    | AddHostToWindow
    | CreateView(id: ViewId)
    | AddViewToHost(id: ViewId)
    | RemoveViewFromHost(id: ViewId)
    | RequestFocus(id: ViewId)
    | ViewScreenTurnedOn(id: ViewId)
    | ViewScreenTurnedOff(id: ViewId)
    | ViewReset(id: ViewId)
    | ViewVerifyUnlock(id: ViewId)
    | ViewWakeWhenReady(id: ViewId, keyCode: int)
    | ViewCleanUp(id: ViewId)

  datatype Outcome = Outcome(manager: Manager, calls: seq<Call>)

  /** A view exists only inside an existing host, and the current view is
      the most recently created one; a host that does not exist is not
      visible.  Show makes the host visible and creates a view together, and
      hide makes it invisible and drops the view together, so the host is
      visible exactly while there is a view. */
  predicate Valid(m: Manager) {
    && (m.view.Some? ==> m.hostAttached && m.view.value + 1 == m.viewsCreated)
    && (m.hostVisible ==> m.hostAttached)
    && (m.view.Some? <==> m.hostVisible)
  }

  /** A new manager: no host, no view, screen considered off. */
  function Initial(): (m: Manager)
    ensures Valid(m) && !IsShowing(m)
    ensures !m.hostAttached && m.view.None? && !m.screenOn && m.viewsCreated == 0
  {
    Manager(false, false, None, false, 0)
  }

  /** How often the call c occurs among the calls. */
  function Times(calls: seq<Call>, c: Call): nat {
    multiset(calls)[c]
  }

  /** The keyguard is showing when the host exists and is visible; in a
      valid manager that is exactly when there is a view. */
  function IsShowing(m: Manager): (showing: bool)
    ensures Valid(m) ==> (showing <==> m.view.Some?)
  {
    m.hostAttached && m.hostVisible
  }

  /** The view a show leaves current: the existing one, or a new one. */
  function ShownView(m: Manager): ViewId {
    if m.view.Some? then m.view.value else m.viewsCreated
  }

  /** Show the keyguard: add the host to the window the first time, create a
      view when there is none, make the host visible and focus the view. */
  function Show(m: Manager): (o: Outcome)
    requires Valid(m)
    ensures Valid(o.manager)
    ensures IsShowing(o.manager) && o.manager.view == Some(ShownView(m))
    ensures m.view.Some? ==> o.manager.view == m.view
    ensures o.manager.screenOn == m.screenOn
    ensures o.calls == ShowCalls(m)
  {
    var attached := m.(hostAttached := true, hostVisible := true);
    if m.view.Some? then Outcome(attached, ShowCalls(m))
    else Outcome(attached.(view := Some(m.viewsCreated), viewsCreated := m.viewsCreated + 1), ShowCalls(m))
  }

  /** The calls a show makes.  The host is added to the window only when it
      does not exist yet; a view is created only when there is none, and
      then it is the next fresh one and is put in the host; the new view
      hears "screen on" exactly when the last screen event was "on"; the
      shown view is focused last; no other call is made. */
  function ShowCalls(m: Manager): (calls: seq<Call>)
    requires Valid(m)
    ensures Times(calls, AddHostToWindow) == (if m.hostAttached then 0 else 1)
    ensures forall id: ViewId ::
      Times(calls, CreateView(id)) == (if m.view.None? && id == m.viewsCreated then 1 else 0)
    ensures forall id: ViewId ::
      Times(calls, ViewScreenTurnedOn(id)) == (if m.view.None? && m.screenOn && id == m.viewsCreated then 1 else 0)
    ensures forall id: ViewId :: Times(calls, ViewCleanUp(id)) == 0
    ensures forall id: ViewId :: Times(calls, ViewVerifyUnlock(id)) == 0
    ensures forall id: ViewId ::
      Times(calls, AddViewToHost(id)) == (if m.view.None? && id == m.viewsCreated then 1 else 0)
    ensures forall c :: c in calls ==>
      || c == AddHostToWindow
      || c == CreateView(ShownView(m))
      || c == AddViewToHost(ShownView(m))
      || c == ViewScreenTurnedOn(ShownView(m))
      || c == RequestFocus(ShownView(m))
    ensures Times(calls, RequestFocus(ShownView(m))) == 1
    ensures |calls| > 0 && calls[|calls| - 1] == RequestFocus(ShownView(m))
  {
    match m.view
    case Some(v) =>
      var calls := HostCalls(m.hostAttached) + [RequestFocus(v)];
      assert multiset(calls) == multiset(HostCalls(m.hostAttached)) + multiset{RequestFocus(v)};
      calls
    case None =>
      ShowNewCallsCounts(m);
      ShowNewCallsFrame(m);
      ShowNewCalls(m)
  }

  /** Adding the host to the window, unless it is already there. */
  function HostCalls(attached: bool): (calls: seq<Call>)
    ensures multiset(calls) == if attached then multiset{} else multiset{AddHostToWindow}
    ensures forall c :: c in calls ==> c == AddHostToWindow
  {
    if attached then [] else [AddHostToWindow]
  }

  /** The calls of a show that finds no view: the host (if new), a new view,
      then the focus. */
  function ShowNewCalls(m: Manager): seq<Call> {
    HostCalls(m.hostAttached) + NewViewCalls(m.viewsCreated, m.screenOn) + [RequestFocus(m.viewsCreated)]
  }

  /** How often a show that finds no view makes each kind of call. */
  lemma ShowNewCallsCounts(m: Manager)
    ensures Times(ShowNewCalls(m), AddHostToWindow) == (if m.hostAttached then 0 else 1)
    ensures forall id: ViewId :: Times(ShowNewCalls(m), CreateView(id)) == (if id == m.viewsCreated then 1 else 0)
    ensures forall id: ViewId :: Times(ShowNewCalls(m), AddViewToHost(id)) == (if id == m.viewsCreated then 1 else 0)
    ensures forall id: ViewId ::
      Times(ShowNewCalls(m), ViewScreenTurnedOn(id)) == (if m.screenOn && id == m.viewsCreated then 1 else 0)
    ensures forall id: ViewId :: Times(ShowNewCalls(m), ViewCleanUp(id)) == 0
    ensures forall id: ViewId :: Times(ShowNewCalls(m), ViewVerifyUnlock(id)) == 0
    ensures Times(ShowNewCalls(m), RequestFocus(m.viewsCreated)) == 1
  {
    ShowNewCallsBag(m);
  }

  /** The calls of a show that finds no view, as a bag. */
  lemma ShowNewCallsBag(m: Manager)
    ensures multiset(ShowNewCalls(m))
         == (if m.hostAttached then multiset{} else multiset{AddHostToWindow})
          + (if m.screenOn then multiset{ViewScreenTurnedOn(m.viewsCreated)} else multiset{})
          + multiset{CreateView(m.viewsCreated), AddViewToHost(m.viewsCreated), RequestFocus(m.viewsCreated)}
  {
    var id := m.viewsCreated;
    assert multiset(ShowNewCalls(m))
        == multiset(HostCalls(m.hostAttached)) + multiset(NewViewCalls(id, m.screenOn)) + multiset{RequestFocus(id)};
  }

  /** A show that finds no view calls nothing else, and focuses last. */
  lemma ShowNewCallsFrame(m: Manager)
    ensures forall c :: c in ShowNewCalls(m) ==>
      || c == AddHostToWindow
      || c == CreateView(m.viewsCreated)
      || c == AddViewToHost(m.viewsCreated)
      || c == ViewScreenTurnedOn(m.viewsCreated)
      || c == RequestFocus(m.viewsCreated)
    ensures |ShowNewCalls(m)| > 0 && ShowNewCalls(m)[|ShowNewCalls(m)| - 1] == RequestFocus(m.viewsCreated)
  {
    var id := m.viewsCreated;
    assert forall c :: c in ShowNewCalls(m) ==>
      c in HostCalls(m.hostAttached) || c in NewViewCalls(id, m.screenOn) || c == RequestFocus(id);
  }

  /** Creating a view: build it, put it in the host, and tell it the screen
      is on when it is, since it missed that event. */
  function NewViewCalls(id: ViewId, screenOn: bool): (calls: seq<Call>)
    ensures multiset(calls) == multiset{CreateView(id), AddViewToHost(id)}
                               + (if screenOn then multiset{ViewScreenTurnedOn(id)} else multiset{})
    ensures forall c :: c in calls ==> c == CreateView(id) || c == AddViewToHost(id) || c == ViewScreenTurnedOn(id)
  {
    [CreateView(id), AddViewToHost(id)] + (if screenOn then [ViewScreenTurnedOn(id)] else [])
  }

  /** Hide the keyguard: make the host invisible and remove, clean up and
      drop the current view.  The host stays added to the window. */
  function Hide(m: Manager): (o: Outcome)
    requires Valid(m)
    ensures Valid(o.manager)
    ensures !IsShowing(o.manager) && o.manager.view.None?
    ensures o.manager.hostAttached == m.hostAttached
    ensures o.manager.screenOn == m.screenOn
    ensures o.manager.viewsCreated == m.viewsCreated
    ensures m.view.Some? ==> o.calls == [RemoveViewFromHost(m.view.value), ViewCleanUp(m.view.value)]
    ensures m.view.None? ==> o.calls == []
  {
    if m.hostAttached then
      var invisible := m.(hostVisible := false);
      match m.view
      case Some(v) => Outcome(invisible.(view := None), [RemoveViewFromHost(v), ViewCleanUp(v)])
      case None => Outcome(invisible, [])
    else
      Outcome(m, [])
  }

  /** Restore the current view to its initial state, if there is a view. */
  function Reset(m: Manager): (o: Outcome)
    ensures o.manager == m
    ensures m.view.None? ==> o.calls == []
    ensures m.view.Some? ==> o.calls == [ViewReset(m.view.value)]
  {
    Outcome(m, (match m.view case None => [] case Some(v) => [ViewReset(v)]))
  }

  function OnScreenTurnedOff(m: Manager): (o: Outcome)
    requires Valid(m)
    ensures Valid(o.manager)
    ensures o.manager == m.(screenOn := false)
    ensures m.view.None? ==> o.calls == []
    ensures m.view.Some? ==> o.calls == [ViewScreenTurnedOff(m.view.value)]
  {
    Outcome(m.(screenOn := false), (match m.view case None => [] case Some(v) => [ViewScreenTurnedOff(v)]))
  }

  function OnScreenTurnedOn(m: Manager): (o: Outcome)
    requires Valid(m)
    ensures Valid(o.manager)
    ensures o.manager == m.(screenOn := true)
    ensures m.view.None? ==> o.calls == []
    ensures m.view.Some? ==> o.calls == [ViewScreenTurnedOn(m.view.value)]
  {
    Outcome(m.(screenOn := true), (match m.view case None => [] case Some(v) => [ViewScreenTurnedOn(v)]))
  }

  /** Show the keyguard, then ask the (now certainly existing) view to
      verify the unlock, exactly once. */
  function VerifyUnlock(m: Manager): (o: Outcome)
    requires Valid(m)
    ensures Valid(o.manager)
    ensures o.manager == Show(m).manager && IsShowing(o.manager)
    ensures Times(o.calls, ViewVerifyUnlock(o.manager.view.value)) == 1
    ensures forall id: ViewId :: ViewVerifyUnlock(id) in o.calls ==> id == o.manager.view.value
    ensures Show(m).calls <= o.calls
    ensures |o.calls| == |Show(m).calls| + 1
  {
    var shown := Show(m);
    Outcome(shown.manager, shown.calls + [ViewVerifyUnlock(shown.manager.view.value)])
  }

  /** A wake key, passed on to the view when there is one.  (wakeWhenReadyTq
      is not synchronized.) */
  function WakeWhenReadyTq(m: Manager, keyCode: int): (o: Outcome)
    ensures o.manager == m
    ensures m.view.None? ==> o.calls == []
    ensures m.view.Some? ==> o.calls == [ViewWakeWhenReady(m.view.value, keyCode)]
  {
    match m.view
    case None => Outcome(m, [])
    case Some(v) => Outcome(m, [ViewWakeWhenReady(v, keyCode)])
  }

  /** The manager's entry points. */
  datatype Request =
    | ShowRequest
    | HideRequest
    | ResetRequest
    | ScreenTurnedOff
    | ScreenTurnedOn
    | VerifyUnlockRequest
    | WakeWhenReady(keyCode: int)

  function Step(m: Manager, r: Request): (o: Outcome)
    requires Valid(m)
    ensures Valid(o.manager)
  {
    match r
    case ShowRequest => Show(m)
    case HideRequest => Hide(m)
    case ResetRequest => Reset(m)
    case ScreenTurnedOff => OnScreenTurnedOff(m)
    case ScreenTurnedOn => OnScreenTurnedOn(m)
    case VerifyUnlockRequest => VerifyUnlock(m)
    case WakeWhenReady(keyCode) => WakeWhenReadyTq(m, keyCode)
  }
}
