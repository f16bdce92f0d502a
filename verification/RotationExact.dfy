/** Exactly when a live wave can be rotated away: while some tab holds it with a good
    bearer, a prompt continuation without logins and logouts sends a refresh if and only if
    the marker does not name the wave for the jar's context. */
module RotationExact {
  import opened Wrappers
  import opened AuthTypes
  import opened TabCore
  import opened TabDiscipline
  import opened TabWorld
  import opened TabWorldInvariants
  import opened OneRotation

  /** The probe of a probing tab was posted. */
  ghost predicate Asked(w: World) {
    forall t :: t in w.tabs && w.tabs[t].rotation.Probing? ==> w.tabs[t].rotation.marker.wave in w.probes
  }

  /** What every world of a prompt run satisfies. */
  ghost predicate RunInv(w: World, maxOffset: int) {
    WorldInv(w) && ProbeRoundInv(w, maxOffset) && WireInv(w) && Asked(w)
  }

  predicate Fair(w: World, a: Action, maxOffset: int) {
    Enabled(w, a) && Prompt(w, a, maxOffset) && Steady(a)
  }

  predicate Posts(w: World, a: Action)
    requires Enabled(w, a)
  {
    a.Task? && StartsPost(w, a.tab, a.ev)
  }

  /** The steps can be taken from here, x holds the wave with a good bearer before each of
      them, and the last one sends a refresh. */
  ghost predicate Rotates(w: World, x: TabId, wave: Wave, maxOffset: int, actions: seq<Action>)
    decreases |actions|
  {
    && actions != [] && Fair(w, actions[0], maxOffset) && Holds(w, x, wave, maxOffset)
    && if |actions| == 1 then Posts(w, actions[0])
       else Rotates(Apply(w, actions[0]), x, wave, maxOffset, actions[1..])
  }

  ghost predicate MayRotate(w: World, x: TabId, wave: Wave, maxOffset: int) {
    exists actions: seq<Action> :: Rotates(w, x, wave, maxOffset, actions)
  }

  lemma StepKeepsRunInv(w: World, a: Action, maxOffset: int)
    requires RunInv(w, maxOffset) && Enabled(w, a) && Prompt(w, a, maxOffset)
    ensures RunInv(Apply(w, a), maxOffset)
  {
    StepKeepsInv(w, a);
    RoundStep(w, a, maxOffset);
    WireStep(w, a);
    AskedStep(w, a);
  }

  lemma AskedTask(tab: Tab, env: Env, ev: Event)
    requires TabInv(tab) && Ready(tab, ev) && Next(tab, env, ev).tab.rotation.Probing?
    ensures var out := Next(tab, env, ev);
      out.tab.rotation == tab.rotation || out.probe == Some(out.tab.rotation.marker.wave)
  {}

  lemma AskedStep(w: World, a: Action)
    requires Enabled(w, a) && WorldInv(w) && Asked(w)
    ensures Asked(Apply(w, a))
  {
    if a.Task? && Apply(w, a).tabs[a.tab].rotation.Probing? {
      AskedTask(w.tabs[a.tab], w.Env(), a.ev);
    }
  }

  lemma {:induction false} RunReachable(trace: Trace, i: nat, maxOffset: int)
    requires PromptTrace(trace, maxOffset) && i < |trace.worlds|
    ensures RunInv(trace.worlds[i], maxOffset)
  {
    if i == 0 {
      InitialInv(trace.worlds[0]);
    } else {
      RunReachable(trace, i - 1, maxOffset);
      assert trace.StepAt(i - 1);
      StepKeepsRunInv(trace.worlds[i - 1], trace.actions[i - 1], maxOffset);
    }
  }

  lemma {:induction false} NeverRotates(w: World, x: TabId, wave: Wave, maxOffset: int, actions: seq<Action>)
    requires RunInv(w, maxOffset) && Marked(w, wave)
    ensures !Rotates(w, x, wave, maxOffset, actions)
    decreases |actions|
  {
    if actions != [] && Fair(w, actions[0], maxOffset) && Holds(w, x, wave, maxOffset) {
      MarkedStep(w, actions[0], x, wave, maxOffset);
      if |actions| > 1 {
        StepKeepsRunInv(w, actions[0], maxOffset);
        NeverRotates(Apply(w, actions[0]), x, wave, maxOffset, actions[1..]);
      }
    }
  }

  lemma Before(w: World, a: Action, x: TabId, wave: Wave, maxOffset: int)
    requires Fair(w, a, maxOffset) && Holds(w, x, wave, maxOffset) && MayRotate(Apply(w, a), x, wave, maxOffset)
    ensures MayRotate(w, x, wave, maxOffset)
  {
    var actions :| Rotates(Apply(w, a), x, wave, maxOffset, actions);
    assert ([a] + actions)[1..] == actions;
    assert Rotates(w, x, wave, maxOffset, [a] + actions);
  }

  lemma AtOnce(w: World, a: Action, x: TabId, wave: Wave, maxOffset: int)
    requires Fair(w, a, maxOffset) && Holds(w, x, wave, maxOffset) && Posts(w, a)
    ensures MayRotate(w, x, wave, maxOffset)
  {
    assert Rotates(w, x, wave, maxOffset, [a]);
  }

  // ---- a wave that is not marked ---------------------------------------------------------

  /** A tab holds the wave and the marker does not name it. */
  ghost predicate Exposed(w: World, x: TabId, wave: Wave, maxOffset: int) {
    RunInv(w, maxOffset) && Holds(w, x, wave, maxOffset) && !Marked(w, wave)
  }

  /** Every other tab is closed, holding the lock or not. */
  lemma {:induction false} FromAnyTabs(w: World, x: TabId, wave: Wave, maxOffset: int)
    requires Exposed(w, x, wave, maxOffset)
    ensures MayRotate(w, x, wave, maxOffset)
    decreases |w.tabs|
  {
    if u :| u in w.tabs && u != x {
      var a := TabClosed(u);
      StepKeepsRunInv(w, a, maxOffset);
      assert w.tabs.Keys == Apply(w, a).tabs.Keys + {u};
      FromAnyTabs(Apply(w, a), x, wave, maxOffset);
      Before(w, a, x, wave, maxOffset);
    } else if !w.tabs[x].rotation.Probing? {
      FromAlone(w, x, wave, maxOffset);
    } else {
      FromProbing(w, x, wave, maxOffset);
    }
  }

  // ---- the tab itself is probing --------------------------------------------------------------

  /** It begins a transition, so that its rotation does not end in another credential. */
  lemma FromProbing(w: World, x: TabId, wave: Wave, maxOffset: int)
    requires Exposed(w, x, wave, maxOffset) && w.tabs.Keys == {x} && w.tabs[x].rotation.Probing?
    ensures MayRotate(w, x, wave, maxOffset)
  {
    if w.tabs[x].transitionActive {
      FromStaleProbe(w, x, wave, maxOffset);
    } else {
      var a := Task(x, TransitionBegun);
      StepKeepsRunInv(w, a, maxOffset);
      FromStaleProbe(Apply(w, a), x, wave, maxOffset);
      Before(w, a, x, wave, maxOffset);
    }
  }

  /** The only tab left probes in a coroutine of an older epoch. */
  predicate StaleProbe(w: World, x: TabId) {
    && w.tabs.Keys == {x} && w.tabs[x].transitionActive
    && w.tabs[x].rotation.Probing? && w.tabs[x].rotation.epoch < w.tabs[x].authEpoch
  }

  /** A coroutine of an older epoch takes nothing: it gives up on a mint of its wave. */
  lemma StaleHears(tab: Tab, env: Env, m: Mint)
    requires tab.rotation.Probing? && tab.rotation.epoch < tab.authEpoch
    ensures var out := Next(tab, env, MintHeard(m));
      out == Quiet(tab.(lastAdoption := Some(m), rotation :=
        if ResolvesWave(m, tab.rotation.marker, env.now, tab.offset) then Returning(tab.rotation.epoch, false, true)
        else tab.rotation), env)
  {}

  lemma {:induction false} FromStaleProbe(w: World, x: TabId, wave: Wave, maxOffset: int)
    requires Exposed(w, x, wave, maxOffset) && StaleProbe(w, x)
    ensures MayRotate(w, x, wave, maxOffset)
    decreases |w.due|
  {
    if d :| d in w.due {
      Hear(w, d, x, wave, maxOffset);
      var a := Task(x, MintHeard(d));
      if Apply(w, a).tabs[x].rotation.Probing? {
        assert w.due == Apply(w, a).due + {d};
        FromStaleProbe(Apply(w, a), x, wave, maxOffset);
      } else {
        FromAlone(Apply(w, a), x, wave, maxOffset);
      }
      Before(w, a, x, wave, maxOffset);
    } else if w.tabs[x].rotation.marker.wave == wave {
      FromOwnProbe(w, x, wave, maxOffset);
    } else {
      FromForeignProbe(w, x, wave, maxOffset);
    }
  }

  /** It probes for another wave, which nobody is left to answer for. */
  lemma FromForeignProbe(w: World, x: TabId, wave: Wave, maxOffset: int)
    requires Exposed(w, x, wave, maxOffset) && StaleProbe(w, x) && w.due == {} && w.tabs[x].rotation.marker.wave != wave
    ensures MayRotate(w, x, wave, maxOffset)
  {
    AtOnce(w, Task(x, ProbeTimedOut), x, wave, maxOffset);
  }

  lemma Hear(w: World, d: Mint, x: TabId, wave: Wave, maxOffset: int)
    requires Exposed(w, x, wave, maxOffset) && StaleProbe(w, x) && d in w.mints
    ensures Fair(w, Task(x, MintHeard(d)), maxOffset)
    ensures var after := Apply(w, Task(x, MintHeard(d)));
      && Exposed(after, x, wave, maxOffset) && after.tabs.Keys == {x} && after.due == w.due - {d}
      && (StaleProbe(after, x) <==> !ResolvesWave(d, w.tabs[x].rotation.marker, w.now, w.tabs[x].offset))
      && (!StaleProbe(after, x) ==> !after.tabs[x].rotation.Probing?)
  {
    var a := Task(x, MintHeard(d));
    assert w.tabs[x].rotation.HoldsLock();
    StaleHears(w.tabs[x], w.Env(), d);
    StepKeepsRunInv(w, a, maxOffset);
  }

  lemma HearsItsProbe(w: World, x: TabId, wave: Wave, maxOffset: int) returns (answer: Mint)
    requires Exposed(w, x, wave, maxOffset) && StaleProbe(w, x) && w.tabs[x].rotation.marker.wave == wave
    ensures Fair(w, Task(x, ProbeHeard(wave)), maxOffset)
    ensures var answered := Apply(w, Task(x, ProbeHeard(wave)));
      && Exposed(answered, x, wave, maxOffset) && StaleProbe(answered, x) && answer in answered.mints
      && answer.wave == wave && answer.sentAt == w.now && Good(answer, w.now, maxOffset)
      && answered.now == w.now && answered.tabs == w.tabs
  {
    StepKeepsRunInv(w, Task(x, ProbeHeard(wave)), maxOffset);
    answer := AnswerProbe(w.tabs[x], w.now, wave).value;
  }

  /** It probes for the wave it holds: it hears its own probe and its own answer. */
  lemma FromOwnProbe(w: World, x: TabId, wave: Wave, maxOffset: int)
    requires Exposed(w, x, wave, maxOffset) && StaleProbe(w, x) && w.tabs[x].rotation.marker.wave == wave
    ensures MayRotate(w, x, wave, maxOffset)
  {
    var a := Task(x, ProbeHeard(wave));
    var answer := HearsItsProbe(w, x, wave, maxOffset);
    FromOwnAnswer(Apply(w, a), answer, x, wave, maxOffset);
    Before(w, a, x, wave, maxOffset);
  }

  lemma FromOwnAnswer(w: World, answer: Mint, x: TabId, wave: Wave, maxOffset: int)
    requires Exposed(w, x, wave, maxOffset) && StaleProbe(w, x) && w.tabs[x].rotation.marker.wave == wave
    requires answer in w.mints && answer.wave == wave && answer.sentAt == w.now && Good(answer, w.now, maxOffset)
    ensures MayRotate(w, x, wave, maxOffset)
  {
    var a := Task(x, MintHeard(answer));
    GoodAnswerResolves(w, x, answer, maxOffset);
    Hear(w, answer, x, wave, maxOffset);
    FromAlone(Apply(w, a), x, wave, maxOffset);
    Before(w, a, x, wave, maxOffset);
  }

  // ---- the tab's coroutine ends ---------------------------------------------------------------

  /** The tab's own coroutine leaves the lock, with its credential. */
  lemma {:induction false} FromAlone(w: World, x: TabId, wave: Wave, maxOffset: int)
    requires Exposed(w, x, wave, maxOffset) && w.tabs.Keys == {x} && !w.tabs[x].rotation.Probing?
    ensures MayRotate(w, x, wave, maxOffset)
    decreases Remaining(w.tabs[x].rotation)
  {
    if w.lock.Some? {
      var a := Task(x, Failing(w.tabs[x].rotation));
      assert w.tabs[x].rotation.HoldsLock();
      FailingMoves(w.tabs[x], w.Env());
      FailingIsSteady(w.tabs[x].rotation);
      FailingKeepsExposed(w, x, wave, maxOffset);
      FromAlone(Apply(w, a), x, wave, maxOffset);
      Before(w, a, x, wave, maxOffset);
    } else {
      FromUnlocked(w, x, wave, maxOffset);
    }
  }

  lemma FailingIsSteady(rotation: Rotation)
    requires !rotation.Idle?
    ensures Steady(Task(0, Failing(rotation))) && !Failing(rotation).DateObserved?
    ensures Failing(rotation).ProbeTimedOut? <==> rotation.Probing?
  {}

  lemma FailingKeepsExposed(w: World, x: TabId, wave: Wave, maxOffset: int)
    requires Exposed(w, x, wave, maxOffset) && w.tabs[x].rotation.HoldsLock() && !w.tabs[x].rotation.Probing?
    requires Enabled(w, Task(x, Failing(w.tabs[x].rotation)))
    ensures var after := Apply(w, Task(x, Failing(w.tabs[x].rotation)));
      Exposed(after, x, wave, maxOffset) && after.tabs.Keys == w.tabs.Keys && !after.tabs[x].rotation.Probing?
  {
    FailingMoves(w.tabs[x], w.Env());
    FailingIsSteady(w.tabs[x].rotation);
    StepKeepsRunInv(w, Task(x, Failing(w.tabs[x].rotation)), maxOffset);
  }

  // ---- a cold tab rotates it ---------------------------------------------------------------

  lemma FromUnlocked(w: World, x: TabId, wave: Wave, maxOffset: int)
    requires Exposed(w, x, wave, maxOffset) && w.tabs.Keys == {x} && w.lock.None?
    ensures MayRotate(w, x, wave, maxOffset)
  {
    var p := FreshNat(w.tabs.Keys + w.closed);
    var a, b := TabOpened(p), Task(p, RefreshCalled);
    StepKeepsRunInv(w, a, maxOffset);
    var cold := Apply(w, a);
    StepKeepsRunInv(cold, b, maxOffset);
    FromQueued(Apply(cold, b), p, x, wave, maxOffset);
    Before(cold, b, x, wave, maxOffset);
    Before(w, a, x, wave, maxOffset);
  }

  lemma ColdGrant(tab: Tab, env: Env)
    requires tab.rotation.Queued? && tab.rotation.epoch == tab.authEpoch && !tab.transitionActive
    requires tab.heldMint.None? && tab.lastAdoption.None?
    ensures var out := AdoptOrRotate(tab, env);
      if MarkerIsOurs(env)
      then out == Out(tab.(rotation := Probing(tab.authEpoch, env.marker.value)), env.marker, None, Some(env.marker.value.wave), false)
      else out.tab.rotation.Posting?
  {}

  lemma FromQueued(w: World, p: TabId, x: TabId, wave: Wave, maxOffset: int)
    requires Exposed(w, x, wave, maxOffset) && w.lock.None? && p != x && w.tabs.Keys == {x, p}
    requires w.tabs[p] == NewTab(w.cookies).(refreshInFlight := true, rotation := Queued(0))
    ensures MayRotate(w, x, wave, maxOffset)
  {
    var a := Task(p, LockGranted);
    ColdGrant(w.tabs[p], w.Env());
    if MarkerIsOurs(w.Env()) {
      var probing := Apply(w, a);
      var b := Task(p, ProbeTimedOut);
      assert probing.due == {};
      assert Prompt(probing, b, maxOffset);
      AtOnce(probing, b, x, wave, maxOffset);
      Before(w, a, x, wave, maxOffset);
    } else {
      AtOnce(w, a, x, wave, maxOffset);
    }
  }

  // ---- the exact condition --------------------------------------------------------------------

  /** In any world a prompt run reaches, whatever failed, logged in or out before, while a
      tab holds a wave with a good bearer: some prompt continuation without logins and
      logouts sends a refresh while the tab still holds it if and only if the marker does
      not name it for the jar's context. */
  lemma RotationIsPossibleExactlyWhen(trace: Trace, i: nat, x: TabId, wave: Wave, maxOffset: int)
    requires PromptTrace(trace, maxOffset) && i < |trace.worlds| && Holds(trace.worlds[i], x, wave, maxOffset)
    ensures MayRotate(trace.worlds[i], x, wave, maxOffset) <==> !Marked(trace.worlds[i], wave)
  {
    var w := trace.worlds[i];
    RunReachable(trace, i, maxOffset);
    if Marked(w, wave) {
      forall actions: seq<Action> ensures !Rotates(w, x, wave, maxOffset, actions) {
        NeverRotates(w, x, wave, maxOffset, actions);
      }
    } else {
      FromAnyTabs(w, x, wave, maxOffset);
    }
  }
}
