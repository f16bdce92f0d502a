/** Whole runs of one tab, whatever the other tabs, the server and the clock do:
    the drain of an explicit transition, the epoch fence across every await, and
    at most one retry per request. */
module TabRuns {
  import opened Wrappers
  import opened AuthTypes
  import opened TabCore
  import opened TabDiscipline

  datatype Run = Run(start: Cookies, tabs: seq<Tab>, envs: seq<Env>, events: seq<Event>) {
    ghost predicate StepAt(i: nat)
      requires |tabs| == |events| + 1 && |envs| == |events| && i < |events|
    {
      Ready(tabs[i], events[i]) && tabs[i + 1] == Next(tabs[i], envs[i], events[i]).tab
    }

    ghost predicate Valid() {
      && |tabs| == |events| + 1 && |envs| == |events|
      && tabs[0] == NewTab(start)
      && forall i: nat :: i < |events| ==> StepAt(i)
    }
  }

  lemma {:induction false} RunDisciplined(run: Run, i: nat)
    requires run.Valid() && i < |run.tabs|
    ensures TabInv(run.tabs[i])
  {
    if i == 0 {
      NewTabDisciplined(run.start);
    } else {
      RunDisciplined(run, i - 1);
      assert run.StepAt(i - 1);
      TaskKeepsDiscipline(run.tabs[i - 1], run.envs[i - 1], run.events[i - 1]);
    }
  }

  predicate ClosesTransition(ev: Event) {
    ev.LoginRecorded? || ev.LogoutRecorded? || ev.TransitionRefused?
  }

  /** `beginAuthTransition` has resolved and `endAuthTransition` has not run. */
  predicate Drained(tab: Tab) {
    tab.transitionActive && !tab.draining
  }

  lemma DrainStep(tab: Tab, env: Env, ev: Event)
    requires TabInv(tab) && Ready(tab, ev) && Drained(tab) && !ClosesTransition(ev)
    ensures Drained(Next(tab, env, ev).tab)
    ensures tab.rotation.Idle? && !ev.PostAnswered? && !ev.BodyRead?
  {}

  /** From the resolution of begin until the transition closes, no refresh is in
      flight and none starts: the tab sends and receives nothing that writes the
      auth cookies except the transition's own request. */
  lemma {:induction false} DrainHolds(run: Run, i: nat, j: nat, k: nat)
    requires run.Valid() && i <= k <= j < |run.tabs|
    requires Drained(run.tabs[i])
    requires forall m :: i <= m < j ==> !ClosesTransition(run.events[m])
    ensures Drained(run.tabs[k]) && run.tabs[k].rotation.Idle? && !run.tabs[k].refreshInFlight
    ensures k < j ==> !run.events[k].PostAnswered? && !run.events[k].BodyRead?
  {
    RunDisciplined(run, k);
    if i < k {
      DrainHolds(run, i, j, k - 1);
      RunDisciplined(run, k - 1);
      assert run.StepAt(k - 1);
      DrainStep(run.tabs[k - 1], run.envs[k - 1], run.events[k - 1]);
    }
    if k < j {
      assert run.StepAt(k);
      DrainStep(run.tabs[k], run.envs[k], run.events[k]);
    }
  }

  /** The drain is not a second gate on the POST: a probe that times out after
      begin was called still leads, but its answer is dropped, no credential is
      taken, and begin resolves only when that round trip has settled. */
  lemma DeadWavePostsDuringDrain(tab: Tab, e1: Env, e2: Env, cookies: Cookies, token: Token, csrf: Option<Context>, wave: Wave)
    requires TabInv(tab) && tab.rotation.Probing? && !tab.transitionActive
    ensures
      var begun := Next(tab, e1, TransitionBegun).tab;
      var posting := Next(begun, e1, ProbeTimedOut).tab;
      var reading := Next(posting, e2, PostAnswered(cookies)).tab;
      var back := Next(reading, e2, BodyRead(token, csrf, wave));
      var settled := Next(Next(back.tab, e2, LockReleased).tab, e2, RefreshSettled).tab;
      && begun.draining && posting.rotation.Posting? && posting.draining && reading.draining && back.tab.draining
      && back.mint.None? && back.marker == e2.marker
      && settled.accessToken == tab.accessToken && settled.heldMint == tab.heldMint
      && Drained(settled)
  {}

  predicate RotationTask(ev: Event) {
    match ev
    case LockGranted => true
    case LockTimedOut => true
    case MintHeard(_) => true
    case ProbeTimedOut => true
    case PostFailed => true
    case PostAnswered(_) => true
    case BodyRead(_, _, _) => true
    case BodyMalformed => true
    case GraceOver => true
    case LockReleased => true
    case RefreshSettled => true
    case _ => false
  }

  /** A second coroutine never starts over a suspended one, and a suspended one
      never changes the epoch it started under. */
  lemma SingleFlight(tab: Tab, env: Env, ev: Event)
    requires TabInv(tab) && Ready(tab, ev)
    ensures var after := Next(tab, env, ev).tab;
      && (!tab.rotation.Idle? && !after.rotation.Idle? ==> after.rotation.epoch == tab.rotation.epoch)
      && (!tab.rotation.Idle? && after.rotation.Queued? ==> after.rotation == tab.rotation)
      && (tab.rotation.Idle? && !after.rotation.Idle? ==> after.rotation == Queued(tab.authEpoch) && !tab.transitionActive)
  {}

  lemma TaskFenced(tab: Tab, env: Env, ev: Event)
    requires TabInv(tab) && Ready(tab, ev) && RotationTask(ev)
    ensures var after := Next(tab, env, ev).tab;
      && after.authEpoch == tab.authEpoch
      && (after.accessToken != tab.accessToken || after.heldMint != tab.heldMint ==>
            !tab.rotation.Idle? && tab.rotation.epoch == tab.authEpoch)
  {}

  /** While one coroutine stays suspended its epoch is fixed and the tab's never falls. */
  lemma {:induction false} CoroutineEpochs(run: Run, i: nat, j: nat)
    requires run.Valid() && i <= j < |run.tabs|
    requires forall k :: i <= k <= j ==> !run.tabs[k].rotation.Idle?
    ensures run.tabs[j].rotation.epoch == run.tabs[i].rotation.epoch
    ensures run.tabs[i].authEpoch <= run.tabs[j].authEpoch
  {
    if i < j {
      CoroutineEpochs(run, i, j - 1);
      RunDisciplined(run, j - 1);
      assert run.StepAt(j - 1);
      SingleFlight(run.tabs[j - 1], run.envs[j - 1], run.events[j - 1]);
    }
  }

  /** The epoch fence: when a rotation that started at step i writes or clears a
      credential at step j, no auth transition and no sibling's reset happened at
      any task in between. */
  lemma EpochFence(run: Run, i: nat, j: nat, k: nat)
    requires run.Valid() && i < j < |run.events| && i < k <= j
    requires run.tabs[i].rotation.Idle?
    requires forall m :: i < m <= j ==> !run.tabs[m].rotation.Idle?
    requires RotationTask(run.events[j])
    requires run.tabs[j + 1].accessToken != run.tabs[j].accessToken || run.tabs[j + 1].heldMint != run.tabs[j].heldMint
    ensures run.tabs[k].authEpoch == run.tabs[i].authEpoch
    ensures run.tabs[k].rotation.epoch == run.tabs[i].authEpoch
  {
    RunDisciplined(run, i);
    RunDisciplined(run, j);
    assert run.StepAt(i) && run.StepAt(j);
    SingleFlight(run.tabs[i], run.envs[i], run.events[i]);
    TaskFenced(run.tabs[j], run.envs[j], run.events[j]);
    CoroutineEpochs(run, i + 1, j);
    CoroutineEpochs(run, i + 1, k);
    CoroutineEpochs(run, k, j);
  }

  lemma RetryStep(tab: Tab, env: Env, ev: Event, id: RequestId)
    requires TabInv(tab) && Ready(tab, ev) && id in tab.requests
    ensures var after := Next(tab, env, ev).tab;
      && id in after.requests
      && (tab.requests[id].resent.Some? ==> after.requests[id].resent == tab.requests[id].resent)
  {
    assert RequestInv(tab.requests[id], tab);
  }

  /** A request goes on the wire at most twice, the second time only as the one
      retry, and never again once its retry was sent. */
  lemma AtMostOneRetry(run: Run, i: nat, j: nat, id: RequestId)
    requires run.Valid() && i <= j < |run.tabs| && id in run.tabs[i].requests
    ensures id in run.tabs[j].requests && run.tabs[j].requests[id].attempts <= 2
    ensures run.tabs[i].requests[id].resent.Some? ==> run.tabs[j].requests[id].resent == run.tabs[i].requests[id].resent
    decreases j - i
  {
    RunDisciplined(run, i);
    RunDisciplined(run, j);
    if i < j {
      assert run.StepAt(i);
      RetryStep(run.tabs[i], run.envs[i], run.events[i], id);
      AtMostOneRetry(run, i + 1, j, id);
    } else {
      assert RequestInv(run.tabs[j].requests[id], run.tabs[j]);
    }
  }

  // ---- the armed resolver ---------------------------------------------------------

  /** The task settles the resolver armed for this marker: its own timer, or a mint of
      its own wave that passes the guard. */
  predicate Settles(tab: Tab, env: Env, ev: Event, marker: Marker) {
    ev.ProbeTimedOut? || (ev.MintHeard? && ResolvesWave(ev.mint, marker, env.now, tab.offset))
  }

  lemma ArmedStep(tab: Tab, env: Env, ev: Event)
    requires TabInv(tab) && Ready(tab, ev) && tab.rotation.Probing?
    ensures Next(tab, env, ev).tab.rotation == tab.rotation <==> !Settles(tab, env, ev, tab.rotation.marker)
  {}

  /** Past its probe, or never having needed one. */
  predicate Settled(rotation: Rotation) {
    rotation.Posting? || rotation.Reading? || rotation.Grace? || rotation.Returning?
  }

  lemma SettledStep(tab: Tab, env: Env, ev: Event)
    requires TabInv(tab) && Ready(tab, ev)
    ensures var after := Next(tab, env, ev).tab.rotation;
      && (Settled(tab.rotation) ==> Settled(after) || after.Idle?)
      && (tab.rotation.Probing? && after != tab.rotation ==> Settled(after))
  {}

  /** An armed resolver stays armed, for the same wave, through every mint of another
      wave, transition, reset and request, until its own wave or its own timer. */
  lemma {:induction false} ArmedUntilSettled(run: Run, i: nat, j: nat)
    requires run.Valid() && i <= j < |run.tabs| && run.tabs[i].rotation.Probing?
    requires forall m :: i <= m < j ==> !Settles(run.tabs[m], run.envs[m], run.events[m], run.tabs[i].rotation.marker)
    ensures run.tabs[j].rotation == run.tabs[i].rotation
  {
    if i < j {
      ArmedUntilSettled(run, i, j - 1);
      RunDisciplined(run, j - 1);
      assert run.StepAt(j - 1);
      ArmedStep(run.tabs[j - 1], run.envs[j - 1], run.events[j - 1]);
    }
  }

  /** And it is settled once: the same coroutine never waits for a wave again. */
  lemma {:induction false} SettledOnce(run: Run, i: nat, j: nat)
    requires run.Valid() && i < j < |run.tabs|
    requires run.tabs[i].rotation.Probing? && Settles(run.tabs[i], run.envs[i], run.events[i], run.tabs[i].rotation.marker)
    requires forall m :: i < m <= j ==> !run.tabs[m].rotation.Idle?
    ensures Settled(run.tabs[j].rotation)
  {
    RunDisciplined(run, j - 1);
    assert run.StepAt(j - 1);
    SettledStep(run.tabs[j - 1], run.envs[j - 1], run.events[j - 1]);
    if i == j - 1 {
      ArmedStep(run.tabs[i], run.envs[i], run.events[i]);
    } else {
      SettledOnce(run, i, j - 1);
    }
  }

  /** The held slot survives every mint that does not settle the tab's own resolver. */
  lemma HeldSlotSurvives(tab: Tab, env: Env, m: Mint)
    requires TabInv(tab)
    ensures var after := Next(tab, env, MintHeard(m)).tab;
      after.heldMint != tab.heldMint ==>
        tab.rotation.Probing? && Settles(tab, env, MintHeard(m), tab.rotation.marker) && after.heldMint == Some(m)
  {}
}
