/** Runs from the first tab on in which nobody logs in or out and no leader fails: every
    wave held with a good bearer is the marked one, so none is ever rotated away. */
module UndisturbedRuns {
  import opened Wrappers
  import opened AuthTypes
  import opened TabCore
  import opened TabDiscipline
  import opened TabWorld
  import opened TabWorldInvariants
  import opened OneRotation

  /** Nobody logs in or out, no tab dies or fails with its POST on the wire, and the
      server labels its answers. */
  predicate Undisturbed(w: World, a: Action) {
    match a
    case Task(t, ev) =>
      && !ev.PostFailed? && !ev.BodyMalformed? && !ev.TransitionBegun? && !ev.ResetHeard?
      && !ev.LoginAnswered? && !ev.BareLoginRecorded?
      && (ev.BodyRead? ==> t in w.tabs && w.tabs[t].rotation.Reading? && ev.csrf == w.tabs[t].rotation.csrf)
    case TabClosed(t) => !(t in w.tabs && w.tabs[t].rotation.OnTheWire())
    case _ => true
  }

  predicate Wire(w: World) {
    w.lock.Some? && w.lock.value in w.tabs && w.tabs[w.lock.value].rotation.OnTheWire()
  }

  predicate Settled(tab: Tab) {
    tab.authEpoch == 0 && !tab.transitionActive
  }

  /** Off the wire, the marker names a published wave of the jar's own context. */
  ghost predicate MarkerLive(w: World) {
    && (!Wire(w) && w.published != map[] ==> MarkerIsOurs(w.Env()) && w.marker.value.wave in w.published)
    && (forall t :: t in w.tabs && w.tabs[t].rotation.Reading? ==> w.tabs[t].rotation.csrf == w.cookies.csrf)
  }

  /** Every good held bearer is of the marker's wave, and nobody is rotating it away. */
  ghost predicate HeldAreCurrent(w: World, maxOffset: int) {
    forall t :: t in w.tabs && w.tabs[t].heldMint.Some? && Good(w.tabs[t].heldMint.value, w.now, maxOffset) ==>
      !Wire(w) && w.marker.Some? && w.marker.value.wave == w.tabs[t].heldMint.value.wave
  }

  ghost predicate CurrentInv(w: World, maxOffset: int) {
    && w.resets == {} && (forall t :: t in w.tabs ==> Settled(w.tabs[t]))
    && MarkerLive(w) && HeldAreCurrent(w, maxOffset)
  }

  lemma QuietTab(tab: Tab, env: Env, ev: Event)
    requires TabInv(tab) && Ready(tab, ev) && Settled(tab)
    requires !ev.TransitionBegun? && !ev.ResetHeard? && !ev.BareLoginRecorded?
    ensures Settled(Next(tab, env, ev).tab) && !Next(tab, env, ev).reset
    ensures !ev.TransitionAnswered?
    ensures Next(tab, env, ev).tab.rotation.Reading? ==>
      Next(tab, env, ev).tab.rotation == tab.rotation || ev.PostAnswered?
    ensures ev.BodyRead? ==> Next(tab, env, ev).mint.Some? && Next(tab, env, ev).tab.heldMint == Next(tab, env, ev).mint
    ensures Next(tab, env, ev).marker == env.marker || ev.BodyRead? || Next(tab, env, ev).tab.rotation.Posting?
  {}

  lemma WireMoves(tab: Tab, env: Env, ev: Event)
    requires Ready(tab, ev)
    ensures var after := Next(tab, env, ev).tab;
      && (after.rotation.OnTheWire() && !tab.rotation.OnTheWire() ==> after.rotation.Posting?)
      && (tab.rotation.OnTheWire() && !after.rotation.OnTheWire() ==>
            ev.PostFailed? || ev.BodyMalformed? || ev.BodyRead? || !tab.refreshInFlight)
  {}

  lemma WireIs(w: World, t: TabId)
    requires LockInv(w) && t in w.tabs
    ensures w.tabs[t].rotation.OnTheWire() ==> Wire(w) && w.lock == Some(t)
    ensures Wire(w) ==> w.lock == Some(t) || w.tabs[w.lock.value].rotation.OnTheWire()
  {}

  lemma WireBegins(w: World, t: TabId, ev: Event)
    requires Enabled(w, Task(t, ev)) && WorldInv(w)
    ensures Wire(RunTask(w, t, ev)) ==> Wire(w) || StartsPost(w, t, ev)
    ensures Wire(w) && !Wire(RunTask(w, t, ev)) ==>
      w.lock == Some(t) && (ev.PostFailed? || ev.BodyMalformed? || ev.BodyRead?)
    ensures ev.BodyRead? || ev.PostAnswered? ==> Wire(w) && w.lock == Some(t)
    ensures StartsPost(w, t, ev) ==> Wire(RunTask(w, t, ev))
  {
    var after := RunTask(w, t, ev);
    WireMoves(w.tabs[t], w.Env(), ev);
    TaskKeepsLock(w, t, ev);
    WireIs(w, t);
    WireIs(after, t);
  }

  /** A task that POSTs finds no tab holding a good bearer. */
  lemma NoPostWhileHeld(w: World, t: TabId, ev: Event, x: TabId, maxOffset: int)
    requires Enabled(w, Task(t, ev)) && WorldInv(w) && ProbeRoundInv(w, maxOffset) && CurrentInv(w, maxOffset)
    requires Prompt(w, Task(t, ev), maxOffset) && StartsPost(w, t, ev)
    requires x in w.tabs && w.tabs[x].heldMint.Some?
    ensures !Good(w.tabs[x].heldMint.value, w.now, maxOffset)
  {
    PostStarters(w, t, ev);
    assert GenuineTab(w, w.tabs[x]);
    if ev.ProbeTimedOut? && Good(w.tabs[x].heldMint.value, w.now, maxOffset) {
      NoHolderAtTimeout(w, t, x, maxOffset);
    }
  }

  lemma MarkerLiveTask(w: World, t: TabId, ev: Event, maxOffset: int)
    requires Enabled(w, Task(t, ev)) && WorldInv(w) && CurrentInv(w, maxOffset) && Undisturbed(w, Task(t, ev))
    ensures MarkerLive(RunTask(w, t, ev))
  {
    var after := RunTask(w, t, ev);
    QuietTab(w.tabs[t], w.Env(), ev);
    WireBegins(w, t, ev);
    TaskPublishes(w.tabs[t], w.Env(), ev);
    TaskReads(w.tabs[t], w.Env(), ev);
    forall x | x in after.tabs && after.tabs[x].rotation.Reading?
      ensures after.tabs[x].rotation.csrf == after.cookies.csrf
    {
      if x != t {
        assert w.lock == Some(x);
      }
    }
    if !Wire(after) && after.published != map[] && !ev.BodyRead? {
      assert !Wire(w);
      assert after.published == w.published;
    }
  }

  lemma HeldTask(w: World, t: TabId, ev: Event, x: TabId, maxOffset: int)
    requires Enabled(w, Task(t, ev)) && WorldInv(w) && ProbeRoundInv(w, maxOffset) && CurrentInv(w, maxOffset)
    requires Undisturbed(w, Task(t, ev)) && Prompt(w, Task(t, ev), maxOffset)
    requires var after := RunTask(w, t, ev);
      x in after.tabs && after.tabs[x].heldMint.Some? && Good(after.tabs[x].heldMint.value, after.now, maxOffset)
    ensures var after := RunTask(w, t, ev);
      !Wire(after) && after.marker.Some? && after.marker.value.wave == after.tabs[x].heldMint.value.wave
  {
    var after := RunTask(w, t, ev);
    QuietTab(w.tabs[t], w.Env(), ev);
    WireBegins(w, t, ev);
    TaskPublishes(w.tabs[t], w.Env(), ev);
    if w.tabs[x].heldMint == after.tabs[x].heldMint {
      if StartsPost(w, t, ev) {
        NoPostWhileHeld(w, t, ev, x, maxOffset);
      }
      assert !Wire(w);
    } else if !ev.BodyRead? {
      assert x == t;
      Taken(w, t, ev, maxOffset);
    }
  }

  /** A credential newly held without publishing is an adopted one. */
  lemma HeldBy(tab: Tab, env: Env, ev: Event)
    requires TabInv(tab) && Ready(tab, ev) && !ev.BodyRead?
    requires Next(tab, env, ev).tab.heldMint.Some? && Next(tab, env, ev).tab.heldMint != tab.heldMint
    ensures ev.LockGranted? || (ev.MintHeard? && tab.rotation.Probing?)
    ensures var m := Next(tab, env, ev).tab.heldMint.value;
      && (ev.LockGranted? ==> tab.lastAdoption == Some(m) && (MarkerIsOurs(env) ==> m.wave == env.marker.value.wave))
      && (ev.MintHeard? ==> m.wave == tab.rotation.marker.wave && m == ev.mint)
    ensures Next(tab, env, ev).tab.rotation.Returning? && Next(tab, env, ev).marker == env.marker
  {}

  lemma Taken(w: World, t: TabId, ev: Event, maxOffset: int)
    requires Enabled(w, Task(t, ev)) && WorldInv(w) && CurrentInv(w, maxOffset)
    requires Undisturbed(w, Task(t, ev)) && !ev.BodyRead?
    requires RunTask(w, t, ev).tabs[t].heldMint.Some? && RunTask(w, t, ev).tabs[t].heldMint != w.tabs[t].heldMint
    ensures var after := RunTask(w, t, ev);
      !Wire(after) && after.marker.Some? && after.marker.value.wave == after.tabs[t].heldMint.value.wave
  {
    var m := RunTask(w, t, ev).tabs[t].heldMint.value;
    HeldBy(w.tabs[t], w.Env(), ev);
    WireBegins(w, t, ev);
    assert GenuineTab(w, w.tabs[t]);
    assert Genuine(w, m);
    assert !Wire(w) by {
      if ev.MintHeard? { assert w.lock == Some(t); }
    }
  }

  lemma CurrentStep(w: World, a: Action, maxOffset: int)
    requires Enabled(w, a) && WorldInv(w) && ProbeRoundInv(w, maxOffset) && CurrentInv(w, maxOffset)
    requires Prompt(w, a, maxOffset) && Undisturbed(w, a)
    ensures CurrentInv(Apply(w, a), maxOffset)
  {
    var after := Apply(w, a);
    match a
    case Task(t, ev) =>
      QuietTab(w.tabs[t], w.Env(), ev);
      MarkerLiveTask(w, t, ev, maxOffset);
      forall x | x in after.tabs && after.tabs[x].heldMint.Some? && Good(after.tabs[x].heldMint.value, after.now, maxOffset)
        ensures !Wire(after) && after.marker.Some? && after.marker.value.wave == after.tabs[x].heldMint.value.wave
      {
        HeldTask(w, t, ev, x, maxOffset);
      }
    case Tick(now) =>
      assert Wire(after) == Wire(w);
      assert forall m :: Good(m, now, maxOffset) ==> Good(m, w.now, maxOffset);
    case TabOpened(t) =>
      assert Wire(after) == Wire(w);
    case TabClosed(t) =>
      assert Wire(after) == Wire(w);
  }

  ghost predicate UndisturbedTrace(trace: Trace) {
    trace.Valid() && forall i :: 0 <= i < |trace.actions| ==> Undisturbed(trace.worlds[i], trace.actions[i])
  }

  lemma {:induction false} CurrentReachable(trace: Trace, i: nat, maxOffset: int)
    requires PromptTrace(trace, maxOffset) && UndisturbedTrace(trace) && i < |trace.worlds|
    ensures CurrentInv(trace.worlds[i], maxOffset)
  {
    if i > 0 {
      CurrentReachable(trace, i - 1, maxOffset);
      RoundReachable(trace, i - 1, maxOffset);
      Reachable(trace, i - 1);
      assert trace.StepAt(i - 1);
      CurrentStep(trace.worlds[i - 1], trace.actions[i - 1], maxOffset);
    }
  }

  /** So in an undisturbed run no tab sends a refresh while any tab holds any wave with a
      good bearer, whichever tab published it and however long ago. */
  lemma NoHeldWaveIsRotated(trace: Trace, i: nat, t: TabId, ev: Event, x: TabId, maxOffset: int)
    requires PromptTrace(trace, maxOffset) && UndisturbedTrace(trace)
    requires trace.Runs(i, t, ev) && StartsPost(trace.worlds[i], t, ev)
    requires x in trace.worlds[i].tabs && trace.worlds[i].tabs[x].heldMint.Some?
    ensures !Good(trace.worlds[i].tabs[x].heldMint.value, trace.worlds[i].now, maxOffset)
  {
    Reachable(trace, i);
    RoundReachable(trace, i, maxOffset);
    CurrentReachable(trace, i, maxOffset);
    var w := trace.worlds[i];
    assert GenuineTab(w, w.tabs[x]);
    if Good(w.tabs[x].heldMint.value, w.now, maxOffset) {
      NoPostOverALiveWave(trace, i, t, ev, x, maxOffset);
    }
  }
}
