/** Replay never crosses accounts (`api.ts` over `accessToken.ts`), for a tab whose jar
    changes its account only by the tab's own requests, for as long as the jar names
    nobody but the account the tab works for. */
module ReplaySafety {
  import opened Wrappers
  import opened AuthTypes
  import opened TabCore
  import opened TabDiscipline
  import opened TabWorld
  import opened TabWorldInvariants
  import opened AdoptionSafety
  import opened ContextReset

  /** Siblings never change whose jar it is, and refreshes are labelled. */
  predicate OwnJar(w: World, a: Action, t: TabId)
    requires Enabled(w, a)
  {
    && (Apply(w, a).cookies.session == w.cookies.session || (a.Task? && a.tab == t))
    && (a.Task? && a.ev.BodyRead? ==> a.ev.csrf.Some?)
  }

  /** Outside a transition the jar is somebody's other than the tab works for: the tab may
      refresh now, and what it gets is the other's. */
  predicate Divided(w: World, t: TabId) {
    && t in w.tabs && !w.tabs[t].transitionActive
    && w.cookies.session.Some? && w.cookies.session != w.tabs[t].account
  }

  /** Some request of the tab was re-sent with a bearer of another account than it was
      first sent for. */
  ghost predicate Crossed(w: World, t: TabId) {
    t in w.tabs && exists i :: i in w.tabs[t].requests && Crosses(w.tabs[t].requests[i])
  }

  predicate Crosses(r: Request) {
    r.resent.Some? && r.resent.value.Some? && r.account != Some(r.resent.value.value.account)
  }

  // ---- the invariant ----------------------------------------------------------------

  predicate OfAccount(token: Option<Token>, account: Option<Account>) {
    token.Some? ==> account == Some(token.value.account)
  }

  /** The rotation is of an older epoch and has nothing to return yet: it will fail. */
  predicate Doomed(tab: Tab) {
    && !tab.rotation.Idle? && tab.rotation.epoch < tab.authEpoch
    && !tab.rotation.Grace? && !(tab.rotation.Returning? && tab.rotation.result)
  }

  predicate RequestFor(r: Request, tab: Tab) {
    && (r.phase.Waiting? ==> r.account == tab.account || Doomed(tab))
    && (r.epochUsed == tab.authEpoch ==> r.account == tab.account)
    && !Crosses(r)
  }

  predicate RotationOwn(tab: Tab) {
    !tab.rotation.Idle? && tab.rotation.epoch == tab.authEpoch ==>
      && (tab.rotation.Probing? && tab.rotation.marker.context.Some? ==>
            tab.account == Some(tab.rotation.marker.context.value.account))
      && (tab.rotation.OnTheWire() ==> tab.rotation.sentAs.None? || tab.rotation.sentAs == tab.account)
  }

  /** A rotation that can succeed, or has, found a signed-in jar. */
  predicate SignedIn(tab: Tab, session: Option<Account>) {
    (|| (tab.rotation.Probing? && tab.rotation.marker.context.Some?)
     || tab.rotation.Reading? || tab.rotation.Grace? || (tab.rotation.Returning? && tab.rotation.result))
    ==> session.Some?
  }

  ghost predicate OwnInv(tab: Tab, session: Option<Account>) {
    && OfAccount(tab.accessToken, tab.account)
    && RotationOwn(tab) && SignedIn(tab, session)
    && forall i :: i in tab.requests ==> RequestFor(tab.requests[i], tab)
  }

  ghost predicate Labelled(w: World) {
    forall v :: v in w.published ==> w.published[v].context.Some?
  }

  ghost predicate Safe(w: World, t: TabId) {
    Labelled(w) && (t in w.tabs ==> OwnInv(w.tabs[t], w.cookies.session) && !Divided(w, t))
  }

  lemma NewTabOwn(cookies: Cookies)
    ensures OwnInv(NewTab(cookies), cookies.session)
  {}

  lemma LabelledKept(w: World, t: TabId, ev: Event)
    requires Enabled(w, Task(t, ev)) && Labelled(w) && (ev.BodyRead? ==> ev.csrf.Some?)
    ensures Labelled(RunTask(w, t, ev))
  {
    TaskPublishes(w.tabs[t], w.Env(), ev);
  }

  lemma AccountChanges(tab: Tab, env: Env, ev: Event)
    requires Ready(tab, ev)
    ensures var after := Next(tab, env, ev).tab;
      && (!OwnLogin(ev) && !ev.LogoutRecorded? ==> after.account == tab.account)
      && (OwnLogin(ev) ==> after.accessToken == Some(ev.token) && after.account == Some(ev.token.account))
      && (ev.LogoutRecorded? ==> after.accessToken.None? && after.account == env.cookies.session)
  {}

  /** The bearer a task leaves belongs to the account the tab then works for. */
  lemma BearerOwn(w: World, t: TabId, ev: Event)
    requires Enabled(w, Task(t, ev)) && WorldInv(w) && t in w.tabs && Safe(w, t)
    ensures var after := RunTask(w, t, ev).tabs[t]; OfAccount(after.accessToken, after.account)
  {
    var tab, after := w.tabs[t], RunTask(w, t, ev).tabs[t];
    AccountChanges(tab, w.Env(), ev);
    if after.accessToken.Some? && after.accessToken != tab.accessToken && !OwnLogin(ev) {
      NewBearer(tab, w.Env(), ev);
      if ev.LockGranted? || ev.MintHeard? {
        var m := after.heldMint.value;
        AdoptionGuards(w, t, ev, m);
        AdoptedIsGenuine(w, t, ev, m);
      }
    }
  }

  /** A coroutine's marker and the account it POSTs for are read from the jar, by a tab
      outside any transition if they are of the current epoch. */
  lemma RotationMoves(tab: Tab, env: Env, ev: Event)
    requires TabInv(tab) && Ready(tab, ev)
    ensures var after := Next(tab, env, ev).tab;
      && (!after.rotation.Idle? && after.rotation.epoch == after.authEpoch ==>
            !after.transitionActive && after.account == tab.account && !tab.transitionActive
            && (!tab.rotation.Idle? ==> tab.rotation.epoch == tab.authEpoch))
      && (after.rotation.Probing? ==> after.rotation == tab.rotation || after.rotation.marker.context == env.cookies.csrf)
      && (after.rotation.OnTheWire() ==>
            || (tab.rotation.OnTheWire() && after.rotation.sentAs == tab.rotation.sentAs)
            || after.rotation.sentAs == env.cookies.session)
  {}

  lemma RotationOwnKept(w: World, t: TabId, ev: Event)
    requires Enabled(w, Task(t, ev)) && WorldInv(w) && OwnInv(w.tabs[t], w.cookies.session) && !Divided(w, t)
    ensures RotationOwn(RunTask(w, t, ev).tabs[t])
  {
    RotationMoves(w.tabs[t], w.Env(), ev);
  }

  lemma SignedInMoves(tab: Tab, env: Env, ev: Event)
    requires TabInv(tab) && Ready(tab, ev) && SignedIn(tab, env.cookies.session) && env.cookies.Valid()
    requires ev.PostAnswered? ==> ev.cookies.session.Some?
    requires forall m :: (ev == MintHeard(m) || tab.heldMint == Some(m) || tab.lastAdoption == Some(m)) ==> m.context.Some?
    ensures SignedIn(Next(tab, env, ev).tab, CookiesAfter(env.cookies, ev).session)
  {}

  lemma SignedInKept(w: World, t: TabId, ev: Event)
    requires Enabled(w, Task(t, ev)) && WorldInv(w) && Labelled(w) && SignedIn(w.tabs[t], w.cookies.session)
    ensures SignedIn(RunTask(w, t, ev).tabs[t], RunTask(w, t, ev).cookies.session)
  {
    assert GenuineTab(w, w.tabs[t]);
    SignedInMoves(w.tabs[t], w.Env(), ev);
  }

  lemma DoomedStays(tab: Tab, env: Env, ev: Event)
    requires TabInv(tab) && Ready(tab, ev) && Doomed(tab) && !ev.RefreshSettled?
    ensures Doomed(Next(tab, env, ev).tab)
  {}

  /** A request is kept, closed, parked behind the rotation, or re-sent with the tab's
      bearer of that moment: in its own epoch, or when the rotation it waited for succeeded. */
  lemma RequestMoves(tab: Tab, env: Env, ev: Event, i: RequestId)
    requires TabInv(tab) && Ready(tab, ev) && i in tab.requests
    ensures var r, after := tab.requests[i], Next(tab, env, ev).tab;
      && i in after.requests
      && tab.authEpoch <= after.authEpoch
      && (|| (after.requests[i] == r && !(r.phase.Waiting? && ev.RefreshSettled?))
          || after.requests[i] == r.(phase := Done)
          || (after.requests[i] == r.(phase := Waiting) && ev == Unauthorized(i) && r.epochUsed == tab.authEpoch)
          || (after.requests[i] == Resend(r, tab) && r.epochUsed == tab.authEpoch && ev == Unauthorized(i))
          || (after.requests[i] == Resend(r, tab) && r.phase.Waiting? && ev.RefreshSettled? && tab.rotation.result))
      && (after.account != tab.account ==> after.requests == tab.requests && after.authEpoch == tab.authEpoch + 1)
  {}

  lemma OnlySendingAdds(tab: Tab, env: Env, ev: Event, i: RequestId)
    requires Ready(tab, ev) && !ev.RequestSent? && i !in tab.requests
    ensures i !in Next(tab, env, ev).tab.requests
  {}

  /** The account changes under nobody's waiting request, unless its rotation is doomed. */
  lemma ChangeDooms(w: World, t: TabId, ev: Event)
    requires Enabled(w, Task(t, ev)) && WorldInv(w) && OwnInv(w.tabs[t], w.cookies.session) && !Divided(w, t)
    requires !Divided(RunTask(w, t, ev), t)
    ensures var tab, after := w.tabs[t], RunTask(w, t, ev).tabs[t];
      after.account == tab.account || tab.rotation.Idle? || Doomed(after)
  {
    AccountChanges(w.tabs[t], w.Env(), ev);
  }

  lemma RequestOwn(w: World, t: TabId, ev: Event, i: RequestId)
    requires Enabled(w, Task(t, ev)) && WorldInv(w) && OwnInv(w.tabs[t], w.cookies.session) && !Divided(w, t)
    requires !Divided(RunTask(w, t, ev), t) && i in RunTask(w, t, ev).tabs[t].requests
    ensures var after := RunTask(w, t, ev).tabs[t]; RequestFor(after.requests[i], after)
  {
    var tab := w.tabs[t];
    if i in tab.requests {
      assert RequestInv(tab.requests[i], tab) && RequestFor(tab.requests[i], tab);
      RequestMoves(tab, w.Env(), ev, i);
      ChangeDooms(w, t, ev);
      if Doomed(tab) && !ev.RefreshSettled? { DoomedStays(tab, w.Env(), ev); }
    } else {
      if !ev.RequestSent? { OnlySendingAdds(tab, w.Env(), ev, i); }
    }
  }

  lemma TaskKeepsOwn(w: World, t: TabId, ev: Event)
    requires Enabled(w, Task(t, ev)) && WorldInv(w) && Safe(w, t) && !Divided(RunTask(w, t, ev), t)
    ensures OwnInv(RunTask(w, t, ev).tabs[t], RunTask(w, t, ev).cookies.session)
  {
    BearerOwn(w, t, ev);
    RotationOwnKept(w, t, ev);
    SignedInKept(w, t, ev);
    var after := RunTask(w, t, ev).tabs[t];
    forall i | i in after.requests ensures RequestFor(after.requests[i], after) {
      RequestOwn(w, t, ev, i);
    }
  }

  lemma SafeStep(w: World, a: Action, t: TabId)
    requires Enabled(w, a) && WorldInv(w) && Safe(w, t) && OwnJar(w, a, t) && !Divided(Apply(w, a), t)
    ensures Safe(Apply(w, a), t)
  {
    if a.Task? {
      LabelledKept(w, a.tab, a.ev);
      if a.tab == t { TaskKeepsOwn(w, t, a.ev); }
    } else {
      NewTabOwn(w.cookies);
    }
  }

  // ---- whole runs -------------------------------------------------------------------

  ghost predicate OwnAt(trace: Trace, i: nat, t: TabId)
    requires trace.Valid() && i < |trace.actions|
  {
    trace.StepAt(i) && OwnJar(trace.worlds[i], trace.actions[i], t)
  }

  ghost predicate OwnJarTrace(trace: Trace, t: TabId) {
    trace.Valid() && forall i: nat :: i < |trace.actions| ==> OwnAt(trace, i, t)
  }

  lemma {:induction false} SafeReachable(trace: Trace, i: nat, t: TabId)
    requires OwnJarTrace(trace, t) && i < |trace.worlds|
    requires forall n :: 0 <= n <= i ==> !Divided(trace.worlds[n], t)
    ensures Safe(trace.worlds[i], t)
  {
    if i > 0 {
      SafeReachable(trace, i - 1, t);
      Reachable(trace, i - 1);
      assert OwnAt(trace, i - 1, t);
      SafeStep(trace.worlds[i - 1], trace.actions[i - 1], t);
    }
  }

  /** A request first sent for one account is never sent again with a bearer of another,
      even when the epoch moved while it waited for the rotation. */
  lemma ReplayNeverCrossesAccounts(trace: Trace, i: nat, t: TabId, id: RequestId)
    requires OwnJarTrace(trace, t) && i < |trace.worlds|
    requires forall n :: 0 <= n <= i ==> !Divided(trace.worlds[n], t)
    requires t in trace.worlds[i].tabs && id in trace.worlds[i].tabs[t].requests
    ensures var r := trace.worlds[i].tabs[t].requests[id];
      && r.attempts <= 2 && (r.attempts == 2 <==> r.resent.Some?)
      && (r.resent.Some? && r.resent.value.Some? ==> r.account == Some(r.resent.value.value.account))
  {
    SafeReachable(trace, i, t);
    Reachable(trace, i);
    var tab := trace.worlds[i].tabs[t];
    assert RequestInv(tab.requests[id], tab) && RequestFor(tab.requests[id], tab);
  }
}
