/** What each task decides, said on the tab's fields and in milliseconds: which credential
    a granted tab takes, what becomes of a refused request, and what the other tasks leave. */
module TabOutcomes {
  import opened Wrappers
  import opened AuthTypes
  import opened TabCore
  import opened TabDiscipline
  import opened TabRuns

  // ---- a bearer's expiry -------------------------------------------------------------

  /** A bearer whose claim is e seconds is usable until five seconds before e by the
      server-time estimate, one whose claim has run out never, one without a claim always. */
  lemma UsableExactly(token: Token, now: int, offset: int)
    ensures BearerUsable(BearerExpiryMs(token), now, offset) <==>
      match token.exp
      case None => true
      case Some(e) => if e > 0 then now + offset < 1_000 * e - 5_000 else now + offset < -5_000
  {}

  // ---- the grant ---------------------------------------------------------------------

  /** A mint that may be taken without asking anybody: young, usable, of the jar's own
      context, and not of another wave than a marker of that context names. */
  predicate Fits(m: Mint, tab: Tab, env: Env) {
    && env.now - m.sentAt < 10_000
    && (m.expiresAt.Some? ==> env.now + tab.offset < m.expiresAt.value - 5_000)
    && m.context == env.cookies.csrf
    && !(env.marker.Some? && env.marker.value.context == env.cookies.csrf && env.marker.value.wave != m.wave)
  }

  predicate HeldFits(tab: Tab, env: Env) {
    tab.heldMint.Some? && Fits(tab.heldMint.value, tab, env)
  }

  predicate ObservedFits(tab: Tab, env: Env) {
    tab.lastAdoption.Some? && Fits(tab.lastAdoption.value, tab, env)
  }

  /** The tab never forgets what it owns: a held mint that fits is what a grant ends with,
      whatever was observed; only without one the observed mint is taken; and only without
      either the tab probes for a wave marked for its context, or POSTs. */
  lemma GrantTakesTheHeldFirst(tab: Tab, env: Env)
    requires tab.rotation.Queued? && tab.rotation.epoch == tab.authEpoch && !tab.transitionActive
    ensures var out, epoch := Next(tab, env, LockGranted), tab.authEpoch;
      var ours := env.marker.Some? && env.marker.value.context == env.cookies.csrf;
      && (HeldFits(tab, env) ==> out == Out(
            tab.(accessToken := Some(tab.heldMint.value.token), rotation := Returning(epoch, true, true)),
            env.marker, None, None, false))
      && (!HeldFits(tab, env) && ObservedFits(tab, env) ==> out == Out(
            tab.(accessToken := Some(tab.lastAdoption.value.token), heldMint := tab.lastAdoption,
                 rotation := Returning(epoch, true, true)),
            env.marker, None, None, false))
      && (!HeldFits(tab, env) && !ObservedFits(tab, env) && ours ==> out == Out(
            tab.(rotation := Probing(epoch, env.marker.value)), env.marker, None, Some(env.marker.value.wave), false))
      && (!HeldFits(tab, env) && !ObservedFits(tab, env) && !ours ==> out == Out(
            tab.(rotation := Posting(epoch, env.cookies.session)), None, None, None, false))
  {}

  lemma StaleGrantGivesUp(tab: Tab, env: Env)
    requires tab.rotation.Queued? && (tab.rotation.epoch != tab.authEpoch || tab.transitionActive)
    ensures Next(tab, env, LockGranted) ==
      Out(tab.(rotation := Returning(tab.rotation.epoch, false, true)), env.marker, None, None, false)
  {}

  // ---- a refused request --------------------------------------------------------------

  /** A first attempt of the tab's own epoch. */
  predicate Recoverable(tab: Tab, r: Request) {
    r.attempts <= 1 && r.epochUsed == tab.authEpoch
  }

  /** The tab's bearer is no longer the one the request carried. */
  predicate Replaced(tab: Tab, bearer: Option<Token>) {
    tab.accessToken.Some? && tab.accessToken != bearer
  }

  /** A 401 is retried at once with a bearer that replaced the request's own, without a
      rotation; it waits for the one rotation if there is nothing newer and no transition;
      it is final otherwise. */
  lemma RefusedExactly(tab: Tab, env: Env, id: RequestId)
    requires id in tab.requests && tab.requests[id].phase.Sent?
    ensures var r, out := tab.requests[id], Next(tab, env, Unauthorized(id));
      && out == Out(out.tab, env.marker, None, None, false)
      && (Recoverable(tab, r) && Replaced(tab, r.tokenUsed) ==>
            out.tab == tab.(requests := tab.requests[id :=
              Request(r.account, tab.accessToken, tab.authEpoch, Sent, r.attempts + 1, Some(tab.accessToken))]))
      && (Recoverable(tab, r) && !Replaced(tab, r.tokenUsed) && !tab.transitionActive ==>
            out.tab == tab.(requests := tab.requests[id := r.(phase := Waiting)], refreshInFlight := true,
              rotation := if tab.refreshInFlight then tab.rotation else Queued(tab.authEpoch)))
      && (!Recoverable(tab, r) || (!Replaced(tab, r.tokenUsed) && tab.transitionActive) ==>
            out.tab == tab.(requests := tab.requests[id := r.(phase := Done)]))
  {}

  lemma AttemptKept(tab: Tab, env: Env, ev: Event, id: RequestId)
    requires TabInv(tab) && Ready(tab, ev) && id in tab.requests
    ensures var r, after := tab.requests[id], Next(tab, env, ev).tab;
      && id in after.requests
      && r.attempts <= after.requests[id].attempts
      && (after.requests[id].attempts == r.attempts ==>
            after.requests[id].tokenUsed == r.tokenUsed && after.requests[id].epochUsed == r.epochUsed)
  {}

  /** Until it is retried a request remembers what it was sent with. */
  lemma {:induction false} FirstAttempt(run: Run, j: nat, i: nat, id: RequestId)
    requires run.Valid() && j < i < |run.tabs| && run.events[j] == RequestSent(id)
    ensures id in run.tabs[i].requests
    ensures var r := run.tabs[i].requests[id];
      && r.attempts >= 1
      && (r.attempts == 1 ==> r.tokenUsed == run.tabs[j].accessToken && r.epochUsed == run.tabs[j].authEpoch)
  {
    assert run.StepAt(i - 1);
    if i > j + 1 {
      FirstAttempt(run, j, i - 1, id);
      RunDisciplined(run, i - 1);
      AttemptKept(run.tabs[i - 1], run.envs[i - 1], run.events[i - 1], id);
    }
  }

  /** No second rotation for a late 401: whatever happened since the request was sent, if
      the tab's bearer is another by now, the refusal starts no rotation; and in the epoch
      the request was sent in, a first attempt goes out again at once with that bearer. */
  lemma LateRefusalStartsNothing(run: Run, j: nat, i: nat, id: RequestId)
    requires run.Valid() && j < i < |run.events|
    requires run.events[j] == RequestSent(id) && run.events[i] == Unauthorized(id)
    requires Replaced(run.tabs[i], run.tabs[j].accessToken)
    ensures run.tabs[i + 1].rotation == run.tabs[i].rotation && run.tabs[i + 1].refreshInFlight == run.tabs[i].refreshInFlight
    ensures id in run.tabs[i].requests && id in run.tabs[i + 1].requests
    ensures run.tabs[i].authEpoch == run.tabs[j].authEpoch && run.tabs[i].requests[id].attempts == 1 ==>
      run.tabs[i + 1].requests[id].phase.Sent? && run.tabs[i + 1].requests[id].tokenUsed == run.tabs[i].accessToken
  {
    FirstAttempt(run, j, i, id);
    assert run.StepAt(i);
    RefusedExactly(run.tabs[i], run.envs[i], id);
  }

  // ---- the other tasks of a rotation ---------------------------------------------------

  /** A failed round trip: in its own epoch the bearer is forgotten, in another it is not
      touched; the mints are kept either way. */
  lemma FailureForgetsTheBearer(tab: Tab, env: Env, ev: Event)
    requires Ready(tab, ev) && (ev.PostFailed? || ev.BodyMalformed?)
    ensures Next(tab, env, ev) == Out(
      tab.(accessToken := if tab.rotation.epoch == tab.authEpoch then None else tab.accessToken,
           rotation := Returning(tab.rotation.epoch, false, true)),
      env.marker, None, None, false)
  {}

  /** A good body of the same epoch becomes the bearer, both mints, the marker and one post,
      stamped with the moment and the bearer's own expiry; of another epoch it is dropped. */
  lemma BodyPublishes(tab: Tab, env: Env, token: Token, csrf: Option<Context>, wave: Wave)
    requires tab.rotation.Reading?
    ensures var out := Next(tab, env, BodyRead(token, csrf, wave));
      var m := Mint(wave, token, csrf, env.now,
        match token.exp case None => None case Some(e) => if e <= 0 then Some(0) else Some(1_000 * e));
      if tab.rotation.epoch == tab.authEpoch
      then out == Out(
        tab.(accessToken := Some(token), heldMint := Some(m), lastAdoption := Some(m), rotation := Grace(tab.authEpoch)),
        Some(Marker(wave, csrf, env.now)), Some(m), None, false)
      else out == Out(tab.(rotation := Returning(tab.rotation.epoch, false, true)), env.marker, None, None, false)
  {}

  /** The mint an armed resolver has waited for. */
  predicate Awaited(m: Mint, tab: Tab, now: int)
    requires tab.rotation.Probing?
  {
    var k := tab.rotation.marker;
    && m.wave == k.wave && m.context == k.context && m.sentAt >= k.at - 50
    && now - m.sentAt < 10_000
    && (m.expiresAt.Some? ==> now + tab.offset < m.expiresAt.value - 5_000)
  }

  /** Every heard mint is remembered as the observed one; it is taken exactly by an armed
      resolver that awaits it in its own epoch. */
  lemma MintHeardExactly(tab: Tab, env: Env, m: Mint)
    ensures var out := Next(tab, env, MintHeard(m));
      var awaited := tab.rotation.Probing? && Awaited(m, tab, env.now);
      var current := tab.rotation.Probing? && tab.rotation.epoch == tab.authEpoch && !tab.transitionActive;
      && out == Out(out.tab, env.marker, None, None, false)
      && (!awaited ==> out.tab == tab.(lastAdoption := Some(m)))
      && (awaited && current ==>
            out.tab == tab.(lastAdoption := Some(m), heldMint := Some(m), accessToken := Some(m.token),
                            rotation := Returning(tab.authEpoch, true, true)))
      && (awaited && !current ==>
            out.tab == tab.(lastAdoption := Some(m), rotation := Returning(tab.rotation.epoch, false, true)))
  {}

  /** A probe changes nothing in the tab that hears it; it is answered exactly by a holder
      of the wave whose bearer is usable, with the moment as its stamp if the expiry is
      known and with the original stamp if not. */
  lemma ProbeAnsweredExactly(tab: Tab, env: Env, wave: Wave)
    ensures var out := Next(tab, env, ProbeHeard(wave));
      && out == Out(tab, env.marker, out.mint, None, false)
      && (out.mint.Some? <==>
            tab.heldMint.Some? && tab.heldMint.value.wave == wave
            && (tab.heldMint.value.expiresAt.Some? ==> env.now + tab.offset < tab.heldMint.value.expiresAt.value - 5_000))
      && (out.mint.Some? ==>
            out.mint.value == if tab.heldMint.value.expiresAt.Some? then tab.heldMint.value.(sentAt := env.now) else tab.heldMint.value)
  {}

  /** When the refresh promise settles, every request that waited goes out once more with
      the tab's bearer if the rotation succeeded and is final if not; the others are as they were. */
  lemma SettlingExactly(tab: Tab, env: Env, id: RequestId)
    requires tab.rotation.Returning? && !tab.rotation.locked && id in tab.requests
    ensures var r, out := tab.requests[id], Next(tab, env, RefreshSettled);
      && out == Out(tab.(refreshInFlight := false, rotation := Idle, draining := false, requests := out.tab.requests),
                    env.marker, None, None, false)
      && out.tab.requests.Keys == tab.requests.Keys
      && out.tab.requests[id] ==
           if !r.phase.Waiting? then r
           else if tab.rotation.result
           then Request(r.account, tab.accessToken, tab.authEpoch, Sent, r.attempts + 1, Some(tab.accessToken))
           else r.(phase := Done)
  {}

  /** The pending refresh will resolve to this result. */
  predicate Decided(tab: Tab, result: bool) {
    (tab.rotation.Grace? && result) || (tab.rotation.Returning? && tab.rotation.result == result)
  }

  lemma DecisionStands(tab: Tab, env: Env, ev: Event, result: bool)
    requires TabInv(tab) && Ready(tab, ev) && Decided(tab, result) && !ev.RefreshSettled?
    ensures Decided(Next(tab, env, ev).tab, result)
  {}

  lemma {:induction false} DecisionReachesTheCallers(run: Run, i: nat, j: nat, result: bool)
    requires run.Valid() && i <= j < |run.tabs| && Decided(run.tabs[i], result)
    requires forall k: nat :: i <= k < j ==> run.events[k] != RefreshSettled
    ensures Decided(run.tabs[j], result)
    decreases j
  {
    if i < j {
      DecisionReachesTheCallers(run, i, j - 1, result);
      RunDisciplined(run, j - 1);
      assert run.StepAt(j - 1);
      DecisionStands(run.tabs[j - 1], run.envs[j - 1], run.events[j - 1], result);
    }
  }

  /** The task ends the rotation's work, and how; None if it does not. */
  function Decision(tab: Tab, ev: Event): Option<bool>
    requires Ready(tab, ev)
  {
    if ev.BodyRead? then Some(tab.rotation.epoch == tab.authEpoch)
    else if ev.PostFailed? || ev.BodyMalformed? || ev.LockTimedOut? then Some(false)
    else None
  }

  /** Whatever happens between a rotation's end and the settling of its promise, every
      request still parked then shares its one outcome: after a published wave all go out
      again, with the bearer of that moment, and after a failure all are final. */
  lemma ParkedShareTheOutcome(run: Run, i: nat, j: nat, id: RequestId)
    requires run.Valid() && i < j < |run.events| && run.StepAt(i)
    requires run.events[j] == RefreshSettled && forall k: nat :: i < k < j ==> run.events[k] != RefreshSettled
    requires id in run.tabs[j].requests && run.tabs[j].requests[id].phase.Waiting?
    requires Decision(run.tabs[i], run.events[i]).Some?
    ensures id in run.tabs[j + 1].requests
    ensures var after := run.tabs[j + 1].requests[id];
      if Decision(run.tabs[i], run.events[i]).value
      then after.phase.Sent? && after.tokenUsed == run.tabs[j].accessToken && after.epochUsed == run.tabs[j].authEpoch
      else after.phase.Done?
  {
    DecisionReachesTheCallers(run, i + 1, j, Decision(run.tabs[i], run.events[i]).value);
    assert run.StepAt(j);
    SettlingExactly(run.tabs[j], run.envs[j], id);
  }

  // ---- explicit transitions --------------------------------------------------------------

  /** However a transition is closed, both mints and the marker are gone and the siblings are
      told; a recorded login or logout also sets the bearer and opens an epoch. */
  lemma CloseExactly(tab: Tab, env: Env, ev: Event)
    requires Ready(tab, ev) && ClosesTransition(ev)
    ensures var out := Next(tab, env, ev);
      && out == Out(out.tab, None, None, None, true)
      && !out.tab.transitionActive && out.tab.heldMint.None? && out.tab.lastAdoption.None?
      && out.tab.rotation == tab.rotation && out.tab.requests == tab.requests
      && (ev.TransitionRefused? ==> out.tab.accessToken == tab.accessToken && out.tab.authEpoch == tab.authEpoch)
      && (!ev.TransitionRefused? ==> out.tab.authEpoch == tab.authEpoch + 1)
      && (ev.LoginRecorded? ==> out.tab.accessToken == Some(ev.token))
      && (ev.LogoutRecorded? ==> out.tab.accessToken.None?)
  {}
}
