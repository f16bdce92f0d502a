/** Exactly when a replay can cross accounts: from the moment the jar names somebody other
    than the tab works for, outside a transition, a continuation re-sends a request of the
    tab with the other's bearer; before that none does. */
module ReplayExact {
  import opened Wrappers
  import opened AuthTypes
  import opened TabCore
  import opened TabDiscipline
  import opened TabWorld
  import opened TabWorldInvariants
  import opened ReplaySafety

  /** The step can be taken in the tab's own jar and does not itself divide it. */
  ghost predicate Allowed(w: World, a: Action, t: TabId) {
    Enabled(w, a) && OwnJar(w, a, t) && (Divided(Apply(w, a), t) ==> Divided(w, t))
  }

  /** The steps can be taken from here and end with a request that crossed accounts. */
  ghost predicate CrossesBy(w: World, t: TabId, actions: seq<Action>)
    decreases |actions|
  {
    if actions == [] then Crossed(w, t)
    else Allowed(w, actions[0], t) && CrossesBy(Apply(w, actions[0]), t, actions[1..])
  }

  ghost predicate MayCross(w: World, t: TabId) {
    exists actions: seq<Action> :: CrossesBy(w, t, actions)
  }

  lemma {:induction false} NeverCrosses(w: World, t: TabId, actions: seq<Action>)
    requires WorldInv(w) && Safe(w, t)
    ensures !CrossesBy(w, t, actions)
    decreases |actions|
  {
    if actions == [] {
      assert t in w.tabs ==> forall i :: i in w.tabs[t].requests ==> RequestFor(w.tabs[t].requests[i], w.tabs[t]);
    } else if Allowed(w, actions[0], t) {
      StepKeepsInv(w, actions[0]);
      SafeStep(w, actions[0], t);
      NeverCrosses(Apply(w, actions[0]), t, actions[1..]);
    }
  }

  lemma Before(w: World, a: Action, t: TabId)
    requires Allowed(w, a, t) && MayCross(Apply(w, a), t)
    ensures MayCross(w, t)
  {
    var actions :| CrossesBy(Apply(w, a), t, actions);
    assert ([a] + actions)[1..] == actions;
    assert CrossesBy(w, t, [a] + actions);
  }

  // ---- a divided tab: the rotation it is in ends -------------------------------------------

  lemma FailingStep(w: World, t: TabId)
    requires WorldInv(w) && Divided(w, t) && !w.tabs[t].rotation.Idle?
    ensures var a := Task(t, Failing(w.tabs[t].rotation));
      && Allowed(w, a, t) && WorldInv(Apply(w, a)) && Divided(Apply(w, a), t)
      && Remaining(Apply(w, a).tabs[t].rotation) < Remaining(w.tabs[t].rotation)
  {
    var a := Task(t, Failing(w.tabs[t].rotation));
    FailingMoves(w.tabs[t], w.Env());
    StepKeepsInv(w, a);
  }

  lemma {:induction false} FromAnyRotation(w: World, t: TabId)
    requires WorldInv(w) && Divided(w, t)
    ensures MayCross(w, t)
    decreases Remaining(w.tabs[t].rotation)
  {
    if w.tabs[t].rotation.Idle? {
      FromIdle(w, t);
    } else {
      var a := Task(t, Failing(w.tabs[t].rotation));
      FailingStep(w, t);
      FromAnyRotation(Apply(w, a), t);
      Before(w, a, t);
    }
  }

  // ---- a fresh request is sent, refused, and waits ------------------------------------------

  lemma FromIdle(w: World, t: TabId)
    requires WorldInv(w) && Divided(w, t) && w.tabs[t].rotation.Idle?
    ensures MayCross(w, t)
  {
    if w.lock.Some? {
      var a := TabClosed(w.lock.value);
      StepKeepsInv(w, a);
      FromUnlocked(Apply(w, a), t);
      Before(w, a, t);
    } else {
      FromUnlocked(w, t);
    }
  }

  /** No mint the tab has seen is young enough to be adopted. */
  predicate AllOld(w: World, t: TabId)
    requires t in w.tabs
  {
    && (w.tabs[t].heldMint.Some? ==> !Fresh(w.tabs[t].heldMint.value, w.now))
    && (w.tabs[t].lastAdoption.Some? ==> !Fresh(w.tabs[t].lastAdoption.value, w.now))
  }

  lemma FromUnlocked(w: World, t: TabId)
    requires WorldInv(w) && Divided(w, t) && w.tabs[t].rotation.Idle? && w.lock.None?
    ensures MayCross(w, t)
  {
    var a := Tick(w.now + ADOPTION_TTL_MS);
    assert GenuineTab(w, w.tabs[t]);
    StepKeepsInv(w, a);
    FromOld(Apply(w, a), t);
    Before(w, a, t);
  }

  /** The request that will cross: first sent for the tab's account, in its epoch. */
  predicate InFlight(w: World, t: TabId, id: RequestId) {
    t in w.tabs && id in w.tabs[t].requests && w.tabs[t].requests[id].account == w.tabs[t].account
  }

  lemma FromOld(w: World, t: TabId)
    requires WorldInv(w) && Divided(w, t) && w.tabs[t].rotation.Idle? && w.lock.None? && AllOld(w, t)
    ensures MayCross(w, t)
  {
    var id := FreshNat(w.tabs[t].requests.Keys);
    var a := Task(t, RequestSent(id));
    StepKeepsInv(w, a);
    FromSent(Apply(w, a), t, id);
    Before(w, a, t);
  }

  lemma Parked(tab: Tab, id: RequestId)
    requires id in tab.requests && tab.requests[id] == FirstSend(tab)
    requires !tab.transitionActive && !tab.refreshInFlight
    ensures Recover(tab, id) ==
      tab.(requests := tab.requests[id := FirstSend(tab).(phase := Waiting)], refreshInFlight := true,
           rotation := Queued(tab.authEpoch))
  {}

  lemma FromSent(w: World, t: TabId, id: RequestId)
    requires WorldInv(w) && Divided(w, t) && w.tabs[t].rotation.Idle? && w.lock.None? && AllOld(w, t)
    requires id in w.tabs[t].requests && w.tabs[t].requests[id] == FirstSend(w.tabs[t])
    ensures MayCross(w, t)
  {
    var a := Task(t, Unauthorized(id));
    Parked(w.tabs[t], id);
    StepKeepsInv(w, a);
    FromQueued(Apply(w, a), t, id);
    Before(w, a, t);
  }

  // ---- the rotation it waits for brings the other's bearer ------------------------------------

  predicate Waits(w: World, t: TabId, id: RequestId) {
    InFlight(w, t, id) && w.tabs[t].requests[id].phase.Waiting?
  }

  lemma GrantLeads(tab: Tab, env: Env)
    requires tab.rotation.Queued? && tab.rotation.epoch == tab.authEpoch && !tab.transitionActive
    requires tab.heldMint.Some? ==> !Fresh(tab.heldMint.value, env.now)
    requires tab.lastAdoption.Some? ==> !Fresh(tab.lastAdoption.value, env.now)
    ensures var after := AdoptOrRotate(tab, env).tab;
      && (after.rotation == Posting(tab.authEpoch, env.cookies.session) || (after.rotation.Probing? && after.rotation.epoch == tab.authEpoch))
      && after == tab.(rotation := after.rotation)
  {}

  lemma FromQueued(w: World, t: TabId, id: RequestId)
    requires WorldInv(w) && Divided(w, t) && Waits(w, t, id) && w.lock.None? && AllOld(w, t)
    requires w.tabs[t].rotation == Queued(w.tabs[t].authEpoch)
    ensures MayCross(w, t)
  {
    var a := Task(t, LockGranted);
    GrantLeads(w.tabs[t], w.Env());
    StepKeepsInv(w, a);
    var granted := Apply(w, a);
    if granted.tabs[t].rotation.Probing? {
      var b := Task(t, ProbeTimedOut);
      StepKeepsInv(granted, b);
      FromPosting(Apply(granted, b), t, id);
      Before(granted, b, t);
    } else {
      FromPosting(granted, t, id);
    }
    Before(w, a, t);
  }

  lemma FromPosting(w: World, t: TabId, id: RequestId)
    requires WorldInv(w) && Divided(w, t) && Waits(w, t, id)
    requires w.tabs[t].rotation == Posting(w.tabs[t].authEpoch, w.cookies.session)
    ensures MayCross(w, t)
  {
    var b := w.cookies.session.value;
    var a := Task(t, PostAnswered(Cookies(Some(Context(b, 0)), Some(b))));
    StepKeepsInv(w, a);
    var reading := Apply(w, a);
    FromReading(reading, t, id);
    Before(w, a, t);
  }

  lemma FromReading(w: World, t: TabId, id: RequestId)
    requires WorldInv(w) && Divided(w, t) && Waits(w, t, id)
    requires w.tabs[t].rotation == Reading(w.tabs[t].authEpoch, w.cookies.session, w.cookies.csrf) && w.cookies.csrf.Some?
    ensures MayCross(w, t)
  {
    var wave := FreshNat(w.published.Keys + if w.marker.Some? then {w.marker.value.wave} else {});
    var token := Token(w.cookies.session.value, 0, None);
    var a := Task(t, BodyRead(token, w.cookies.csrf, wave));
    assert Enabled(w, a);
    StepKeepsInv(w, a);
    FromGrace(Apply(w, a), t, id);
    Before(w, a, t);
  }

  predicate HasTheirs(w: World, t: TabId) {
    t in w.tabs && w.tabs[t].accessToken.Some? && w.cookies.session == Some(w.tabs[t].accessToken.value.account)
  }

  lemma FromGrace(w: World, t: TabId, id: RequestId)
    requires WorldInv(w) && Divided(w, t) && Waits(w, t, id) && HasTheirs(w, t) && w.tabs[t].rotation.Grace?
    ensures MayCross(w, t)
  {
    var a := Task(t, GraceOver);
    StepKeepsInv(w, a);
    var returning := Apply(w, a);
    var b := Task(t, LockReleased);
    StepKeepsInv(returning, b);
    FromReturned(Apply(returning, b), t, id);
    Before(returning, b, t);
    Before(w, a, t);
  }

  lemma FromReturned(w: World, t: TabId, id: RequestId)
    requires WorldInv(w) && Divided(w, t) && Waits(w, t, id) && HasTheirs(w, t)
    requires w.tabs[t].rotation.Returning? && w.tabs[t].rotation.result && !w.tabs[t].rotation.locked
    ensures MayCross(w, t)
  {
    var a := Task(t, RefreshSettled);
    var after := Apply(w, a);
    assert after.tabs[t].requests[id] == Resend(w.tabs[t].requests[id], w.tabs[t]);
    assert Crosses(after.tabs[t].requests[id]);
    assert CrossesBy(after, t, []);
    Before(w, a, t);
  }

  // ---- the exact condition ----------------------------------------------------------------------

  /** After a step out of a safe world, some continuation in the tab's own jar replays a
      request across accounts exactly when the step left the tab divided from its jar. */
  lemma ReplayIsSafeExactlyWhen(w: World, a: Action, t: TabId)
    requires WorldInv(w) && Safe(w, t) && Enabled(w, a) && OwnJar(w, a, t)
    ensures MayCross(Apply(w, a), t) <==> Divided(Apply(w, a), t)
  {
    StepKeepsInv(w, a);
    if Divided(Apply(w, a), t) {
      FromAnyRotation(Apply(w, a), t);
    } else {
      SafeStep(w, a, t);
      forall actions: seq<Action> ensures !CrossesBy(Apply(w, a), t, actions) {
        NeverCrosses(Apply(w, a), t, actions);
      }
    }
  }

  /** A transition closed unrecorded is dangerous exactly when it left somebody else's
      cookie; an emptied jar is not. */
  lemma RefusedTransition(trace: Trace, i: nat, t: TabId)
    requires OwnJarTrace(trace, t) && i < |trace.actions| && trace.actions[i] == Task(t, TransitionRefused)
    requires forall n :: 0 <= n <= i ==> !Divided(trace.worlds[n], t)
    ensures t in trace.worlds[i].tabs
    ensures MayCross(trace.worlds[i + 1], t) <==>
      trace.worlds[i].cookies.session.Some? && trace.worlds[i].cookies.session != trace.worlds[i].tabs[t].account
  {
    SafeReachable(trace, i, t);
    Reachable(trace, i);
    assert OwnAt(trace, i, t);
    ReplayIsSafeExactlyWhen(trace.worlds[i], trace.actions[i], t);
  }

  /** The answer to a login outside any transition is dangerous exactly when it signs in
      somebody else than the tab works for: between the cookie and `recordLogin` a refused
      request of the old account refreshes as the new one. */
  lemma BareLogin(trace: Trace, i: nat, t: TabId, cookies: Cookies)
    requires OwnJarTrace(trace, t) && i < |trace.actions| && trace.actions[i] == Task(t, LoginAnswered(cookies))
    requires forall n :: 0 <= n <= i ==> !Divided(trace.worlds[n], t)
    ensures t in trace.worlds[i].tabs
    ensures MayCross(trace.worlds[i + 1], t) <==> cookies.session != trace.worlds[i].tabs[t].account
  {
    SafeReachable(trace, i, t);
    Reachable(trace, i);
    assert OwnAt(trace, i, t);
    ReplayIsSafeExactlyWhen(trace.worlds[i], trace.actions[i], t);
  }

  // ---- both dangers are reached -------------------------------------------------------------------

  function Opened(a: Account): World {
    World(0, Cookies(None, Some(a)), None, None, map[], {}, {}, {}, {}, map[], {}, {}, {})
  }

  lemma Continued(trace: Trace, a: Action, t: TabId) returns (longer: Trace)
    requires OwnJarTrace(trace, t) && Enabled(trace.worlds[|trace.actions|], a) && OwnJar(trace.worlds[|trace.actions|], a, t)
    ensures longer == Trace(trace.worlds + [Apply(trace.worlds[|trace.actions|], a)], trace.actions + [a])
    ensures OwnJarTrace(longer, t)
  {
    longer := Trace(trace.worlds + [Apply(trace.worlds[|trace.actions|], a)], trace.actions + [a]);
    forall i: nat | i < |longer.actions|
      ensures longer.StepAt(i) && OwnJar(longer.worlds[i], longer.actions[i], t)
    {
      if i < |trace.actions| {
        assert OwnAt(trace, i, t);
      }
    }
    assert forall i: nat :: i < |longer.actions| ==> longer.StepAt(i);
    assert longer.Valid();
    forall i: nat | i < |longer.actions| ensures OwnAt(longer, i, t) {
      assert longer.StepAt(i);
    }
  }

  lemma JustOpened(a: Account, t: TabId) returns (trace: Trace)
    ensures OwnJarTrace(trace, t) && |trace.actions| == 1
    ensures trace.worlds == [Opened(a), Opened(a).(tabs := map[t := NewTab(Opened(a).cookies)])]
  {
    trace := Continued(Trace([Opened(a)], []), TabOpened(t), t);
    assert map[][t := NewTab(Opened(a).cookies)] == map[t := NewTab(Opened(a).cookies)];
  }

  lemma DividedMayCross(trace: Trace, i: nat, t: TabId)
    requires trace.Valid() && i < |trace.worlds| && Divided(trace.worlds[i], t)
    ensures MayCross(trace.worlds[i], t)
  {
    Reachable(trace, i);
    FromAnyRotation(trace.worlds[i], t);
  }

  /** A tab of account `a`, and a login answered for `b` outside any transition. */
  lemma ABareLoginIsReplayed(a: Account, b: Account, t: TabId) returns (trace: Trace)
    requires a != b
    ensures OwnJarTrace(trace, t) && |trace.actions| == 2 && trace.actions[1] == Task(t, LoginAnswered(Cookies(None, Some(b))))
    ensures t in trace.worlds[1].tabs && trace.worlds[1].tabs[t].account == Some(a) && !Divided(trace.worlds[1], t)
    ensures MayCross(trace.worlds[2], t)
  {
    trace := JustOpened(a, t);
    trace := Continued(trace, Task(t, LoginAnswered(Cookies(None, Some(b)))), t);
    DividedMayCross(trace, 2, t);
  }

  lemma AnsweredFor(a: Account, b: Account, t: TabId) returns (trace: Trace)
    ensures OwnJarTrace(trace, t) && |trace.actions| == 3 && t in trace.worlds[3].tabs
    ensures var w := trace.worlds[3];
      && w.tabs[t].transitionActive && !w.tabs[t].draining
      && w.tabs[t].account == Some(a) && w.cookies.session == Some(b)
  {
    trace := JustOpened(a, t);
    trace := Continued(trace, Task(t, TransitionBegun), t);
    trace := Continued(trace, Task(t, TransitionAnswered(Cookies(None, Some(b)))), t);
  }

  /** A transition whose answer signs in `b` and which is closed without being recorded. */
  lemma AnUnrecordedLoginIsReplayed(a: Account, b: Account, t: TabId) returns (trace: Trace)
    requires a != b
    ensures OwnJarTrace(trace, t) && |trace.actions| == 4 && trace.actions[3] == Task(t, TransitionRefused)
    ensures t in trace.worlds[3].tabs && trace.worlds[3].tabs[t].account == Some(a) && !Divided(trace.worlds[3], t)
    ensures MayCross(trace.worlds[4], t)
  {
    trace := AnsweredFor(a, b, t);
    trace := Continued(trace, Task(t, TransitionRefused), t);
    DividedMayCross(trace, 4, t);
  }
}
