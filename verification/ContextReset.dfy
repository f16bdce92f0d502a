/** The cross-tab fence: after a sibling's reset, no credential of the old context comes
    back while the csrf cookie does not name that context, and none of another account
    while it names one account. */
module ContextReset {
  import opened Wrappers
  import opened AuthTypes
  import opened TabCore
  import opened TabDiscipline
  import opened TabWorld
  import opened TabWorldInvariants
  import opened AdoptionSafety

  /** The tab records a login of its own, inside a transition or on its own. */
  predicate OwnLogin(ev: Event) {
    ev.LoginRecorded? || ev.BareLoginRecorded?
  }

  // ---- contexts --------------------------------------------------------------------

  /** No coroutine of the current epoch waits for a mint labelled with the context or reads
      an answer so labelled. */
  predicate ClearRotation(tab: Tab, k: Context) {
    !tab.rotation.Idle? && tab.rotation.epoch == tab.authEpoch ==>
      && (tab.rotation.Probing? ==> tab.rotation.marker.context != Some(k))
      && (tab.rotation.Reading? ==> tab.rotation.csrf != Some(k))
  }

  predicate Clear(tab: Tab, k: Context) {
    (tab.heldMint.Some? ==> tab.heldMint.value.context != Some(k)) && ClearRotation(tab, k)
  }

  /** The bearer was recorded by a login of the tab's own, or comes with a mint of another
      context that the tab now holds. */
  predicate NotFrom(tab: Tab, ev: Event, k: Context, bearer: Token) {
    || (OwnLogin(ev) && ev.token == bearer)
    || (tab.heldMint.Some? && tab.heldMint.value.token == bearer && tab.heldMint.value.context != Some(k))
  }

  lemma ClearStep(tab: Tab, env: Env, ev: Event, k: Context)
    requires TabInv(tab) && Ready(tab, ev) && Clear(tab, k)
    requires env.cookies.csrf != Some(k) && CookiesAfter(env.cookies, ev).csrf != Some(k)
    requires ev.BodyRead? && ev.csrf.Some? ==> ev.csrf == tab.rotation.csrf
    ensures Clear(Next(tab, env, ev).tab, k)
  {
    RotationStaysClear(tab, env, ev, k);
  }

  lemma RotationStaysClear(tab: Tab, env: Env, ev: Event, k: Context)
    requires TabInv(tab) && Ready(tab, ev) && ClearRotation(tab, k)
    requires env.cookies.csrf != Some(k) && CookiesAfter(env.cookies, ev).csrf != Some(k)
    ensures ClearRotation(Next(tab, env, ev).tab, k)
  {}

  lemma ClearBearer(tab: Tab, env: Env, ev: Event, k: Context)
    requires TabInv(tab) && Ready(tab, ev) && Clear(tab, k) && env.cookies.csrf != Some(k)
    requires ev.BodyRead? && ev.csrf.Some? ==> ev.csrf == tab.rotation.csrf
    requires var after := Next(tab, env, ev).tab; after.accessToken.Some? && after.accessToken != tab.accessToken
    ensures var after := Next(tab, env, ev).tab; NotFrom(after, ev, k, after.accessToken.value)
  {
    NewBearer(tab, env, ev);
  }

  ghost predicate JarAvoids(trace: Trace, i: nat, j: nat, t: TabId, k: Context)
    requires j < |trace.worlds|
  {
    forall n :: i <= n <= j ==> trace.worlds[n].cookies.csrf != Some(k) && t in trace.worlds[n].tabs
  }

  /** Step n gave the tab this bearer, and not from a mint of the context. */
  ghost predicate Given(trace: Trace, n: nat, t: TabId, k: Context, bearer: Token)
    requires trace.Valid()
  {
    && n < |trace.actions| && trace.actions[n].Task? && trace.actions[n].tab == t && t in trace.worlds[n + 1].tabs
    && trace.worlds[n + 1].tabs[t].accessToken == Some(bearer)
    && NotFrom(trace.worlds[n + 1].tabs[t], trace.actions[n].ev, k, bearer)
  }

  lemma ClearWorldStep(w: World, a: Action, t: TabId, k: Context)
    requires Enabled(w, a) && WorldInv(w) && t in w.tabs && t in Apply(w, a).tabs && Clear(w.tabs[t], k)
    requires w.cookies.csrf != Some(k) && Apply(w, a).cookies.csrf != Some(k)
    ensures var after := Apply(w, a).tabs[t];
      && Clear(after, k)
      && (after.accessToken.Some? && after.accessToken != w.tabs[t].accessToken ==>
            a.Task? && a.tab == t && NotFrom(after, a.ev, k, after.accessToken.value))
  {
    if a.Task? && a.tab == t {
      var tab, after := w.tabs[t], Apply(w, a).tabs[t];
      ClearStep(tab, w.Env(), a.ev, k);
      if after.accessToken.Some? && after.accessToken != tab.accessToken {
        ClearBearer(tab, w.Env(), a.ev, k);
      }
    }
  }

  /** From the delivery of a sibling's reset on, for as long as the csrf cookie does not
      name context `k`, whoever's context that is: the tab holds no mint of `k`, waits for
      none and reads none, and every bearer it has was given to it after the reset by a
      login of its own or from another context. */
  lemma {:induction false} NoOldContextReturns(trace: Trace, i: nat, j: nat, t: TabId, k: Context)
    requires trace.Valid() && i < j < |trace.worlds|
    requires trace.actions[i] == Task(t, ResetHeard)
    requires JarAvoids(trace, i + 1, j, t, k)
    ensures Clear(trace.worlds[j].tabs[t], k)
    ensures var bearer := trace.worlds[j].tabs[t].accessToken;
      bearer.Some? ==> exists n :: i < n < j && Given(trace, n, t, k, bearer.value)
  {
    Reachable(trace, j - 1);
    assert trace.StepAt(j - 1);
    if j == i + 1 {
      ResetFences(trace.worlds[i].tabs[t], trace.worlds[i].Env(), 0);
    } else {
      NoOldContextReturns(trace, i, j - 1, t, k);
      ClearWorldStep(trace.worlds[j - 1], trace.actions[j - 1], t, k);
      var bearer := trace.worlds[j].tabs[t].accessToken;
      if bearer.Some? && bearer != trace.worlds[j - 1].tabs[t].accessToken {
        assert Given(trace, j - 1, t, k, bearer.value);
      }
    }
  }

  // ---- accounts --------------------------------------------------------------------

  predicate JarNames(cookies: Cookies, b: Account) {
    cookies.Valid() && cookies.csrf.Some? && cookies.session == Some(b)
  }

  /** A coroutine of the current epoch works for `b` only; older ones are fenced. */
  predicate RotationFor(tab: Tab, b: Account) {
    !tab.rotation.Idle? && tab.rotation.epoch == tab.authEpoch ==>
      && (tab.rotation.Probing? ==>
            tab.rotation.marker.context.Some? && tab.rotation.marker.context.value.account == b)
      && (tab.rotation.OnTheWire() ==> tab.rotation.sentAs == Some(b))
  }

  predicate Fenced(tab: Tab, b: Account) {
    (tab.accessToken.Some? ==> tab.accessToken.value.account == b) && RotationFor(tab, b)
  }

  /** The reset itself: no credential, and every suspended coroutine is outdated. */
  lemma ResetFences(tab: Tab, env: Env, b: Account)
    requires TabInv(tab)
    ensures var after := Next(tab, env, ResetHeard).tab;
      && after.accessToken.None? && after.heldMint.None? && after.lastAdoption.None?
      && (!after.rotation.Idle? ==> after.rotation.epoch < after.authEpoch)
      && Fenced(after, b)
  {}

  lemma ResetStep(w: World, t: TabId, b: Account)
    requires Enabled(w, Task(t, ResetHeard)) && Disciplined(w)
    ensures Fenced(Apply(w, Task(t, ResetHeard)).tabs[t], b)
    ensures Apply(w, Task(t, ResetHeard)).tabs[t].accessToken.None?
  {
    ResetFences(w.tabs[t], w.Env(), b);
  }

  /** Where a bearer that the tab did not have can come from. */
  lemma NewBearer(tab: Tab, env: Env, ev: Event)
    requires TabInv(tab) && Ready(tab, ev)
    requires var after := Next(tab, env, ev).tab; after.accessToken.Some? && after.accessToken != tab.accessToken
    ensures var after := Next(tab, env, ev).tab;
      || (OwnLogin(ev) && after.accessToken == Some(ev.token))
      || (ev.BodyRead? && after.accessToken == Some(ev.token) && tab.rotation.epoch == tab.authEpoch)
      || ((ev.LockGranted? || ev.MintHeard?) && !tab.rotation.Returning?
          && after.rotation.Returning? && after.rotation.result
          && after.heldMint.Some? && after.accessToken == Some(after.heldMint.value.token))
  {}

  lemma TaskKeepsRotationFor(tab: Tab, env: Env, ev: Event, b: Account)
    requires TabInv(tab) && Ready(tab, ev) && Fenced(tab, b) && JarNames(env.cookies, b)
    ensures RotationFor(Next(tab, env, ev).tab, b)
  {}

  lemma TaskKeepsFence(w: World, t: TabId, ev: Event, b: Account)
    requires Enabled(w, Task(t, ev)) && WorldInv(w) && Fenced(w.tabs[t], b)
    requires JarNames(w.cookies, b) && (OwnLogin(ev) ==> ev.token.account == b)
    ensures Fenced(RunTask(w, t, ev).tabs[t], b)
  {
    var after := RunTask(w, t, ev).tabs[t];
    TaskKeepsRotationFor(w.tabs[t], w.Env(), ev, b);
    if after.accessToken.Some? && after.accessToken != w.tabs[t].accessToken {
      NewBearer(w.tabs[t], w.Env(), ev);
      if ev.LockGranted? || ev.MintHeard? {
        var m := after.heldMint.value;
        AdoptionGuards(w, t, ev, m);
        AdoptedIsGenuine(w, t, ev, m);
      }
    }
  }

  lemma StepKeepsFence(w: World, a: Action, t: TabId, b: Account)
    requires Enabled(w, a) && WorldInv(w) && t in w.tabs && t in Apply(w, a).tabs
    requires JarNames(w.cookies, b) && Fenced(w.tabs[t], b)
    requires a.Task? && a.tab == t && OwnLogin(a.ev) ==> a.ev.token.account == b
    ensures Fenced(Apply(w, a).tabs[t], b)
  {
    if a.Task? && a.tab == t {
      TaskKeepsFence(w, t, a.ev, b);
    }
  }

  ghost predicate JarNamesAll(trace: Trace, i: nat, j: nat, t: TabId, b: Account)
    requires j < |trace.worlds|
  {
    forall k :: i <= k <= j ==> JarNames(trace.worlds[k].cookies, b) && t in trace.worlds[k].tabs
  }

  /** The tab's own logins in the meantime are logins of this account. */
  ghost predicate LogsInAs(trace: Trace, i: nat, j: nat, t: TabId, b: Account)
    requires trace.Valid() && j <= |trace.actions|
  {
    forall k :: i <= k < j ==>
      var a := trace.actions[k]; a.Task? && a.tab == t && OwnLogin(a.ev) ==> a.ev.token.account == b
  }

  lemma {:induction false} FenceHolds(trace: Trace, i: nat, j: nat, t: TabId, b: Account)
    requires trace.Valid() && i <= j < |trace.worlds| && JarNamesAll(trace, i, j, t, b) && LogsInAs(trace, i, j, t, b)
    requires Fenced(trace.worlds[i].tabs[t], b)
    ensures Fenced(trace.worlds[j].tabs[t], b)
  {
    if i < j {
      FenceHolds(trace, i, j - 1, t, b);
      Reachable(trace, j - 1);
      assert trace.StepAt(j - 1);
      StepKeepsFence(trace.worlds[j - 1], trace.actions[j - 1], t, b);
    }
  }

  /** And for as long as the csrf cookie names account `b`, and the tab itself signs in as
      nobody else, it holds no bearer of anyone else. */
  lemma NoOtherAccountReturns(trace: Trace, i: nat, j: nat, t: TabId, b: Account)
    requires trace.Valid() && i < j < |trace.worlds|
    requires trace.actions[i] == Task(t, ResetHeard)
    requires JarNamesAll(trace, i + 1, j, t, b) && LogsInAs(trace, i + 1, j, t, b)
    ensures trace.worlds[i + 1].tabs[t].accessToken.None?
    ensures var bearer := trace.worlds[j].tabs[t].accessToken; bearer.Some? ==> bearer.value.account == b
  {
    Reachable(trace, i);
    assert trace.StepAt(i);
    ResetStep(trace.worlds[i], t, b);
    FenceHolds(trace, i + 1, j, t, b);
  }
}
