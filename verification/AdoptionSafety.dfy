/** What may be adopted, in every reachable world of N tabs. */
module AdoptionSafety {
  import opened Wrappers
  import opened AuthTypes
  import opened TabCore
  import opened TabWorld
  import opened TabWorldInvariants

  /** The task makes the tab take somebody's mint instead of rotating. */
  predicate Adopts(w: World, t: TabId, ev: Event, m: Mint)
    requires Enabled(w, Task(t, ev))
  {
    var after := RunTask(w, t, ev).tabs[t];
    && (ev.LockGranted? || ev.MintHeard?)
    && !w.tabs[t].rotation.Returning?
    && after.rotation.Returning? && after.rotation.result
    && after.heldMint == Some(m)
  }

  /** The bearer stored by an adoption and the two guards it passed. */
  lemma AdoptionGuards(w: World, t: TabId, ev: Event, m: Mint)
    requires Enabled(w, Task(t, ev)) && Disciplined(w) && Adopts(w, t, ev, m)
    ensures RunTask(w, t, ev).tabs[t].accessToken == Some(m.token)
    ensures Fresh(m, w.now) && BearerUsable(m.expiresAt, w.now, w.tabs[t].offset)
    ensures w.tabs[t].rotation.epoch == w.tabs[t].authEpoch && !w.tabs[t].transitionActive
    ensures ev.LockGranted? ==>
      (w.tabs[t].heldMint == Some(m) || w.tabs[t].lastAdoption == Some(m))
      && m.context == w.cookies.csrf && (MarkerIsOurs(w.Env()) ==> m.wave == w.marker.value.wave)
    ensures ev.MintHeard? ==>
      ev.mint == m && w.tabs[t].rotation.Probing?
      && m.wave == w.tabs[t].rotation.marker.wave && m.context == w.tabs[t].rotation.marker.context
  {}

  lemma AdoptedIsGenuine(w: World, t: TabId, ev: Event, m: Mint)
    requires Enabled(w, Task(t, ev)) && WorldInv(w) && Adopts(w, t, ev, m)
    ensures Genuine(w, m)
  {
    AdoptionGuards(w, t, ev, m);
  }

  /** Mint integrity: an adopted bearer came from some tab's successful refresh
      response, labelled with that response's own csrf_token. */
  lemma MintIntegrity(trace: Trace, i: nat, t: TabId, ev: Event, m: Mint)
    requires trace.Runs(i, t, ev)
    requires Adopts(trace.worlds[i], t, ev, m)
    ensures var w := trace.worlds[i];
      && m.wave in w.published && SameCredential(m, w.published[m.wave])
      && (m.token, m.context) in w.responses
      && m.expiresAt == BearerExpiryMs(m.token)
      && (m.context.Some? ==> m.context.value.account == m.token.account)
  {
    Reachable(trace, i);
    AdoptedIsGenuine(trace.worlds[i], t, ev, m);
  }

  predicate Circulates(w: World, m: Mint) {
    || m in w.mints
    || exists t :: t in w.tabs && (w.tabs[t].heldMint == Some(m) || w.tabs[t].lastAdoption == Some(m))
  }

  /** All messages of one wave agree on the credential, wherever they are. */
  lemma WaveAgreement(trace: Trace, i: nat, a: Mint, b: Mint)
    requires trace.Valid() && i < |trace.worlds|
    requires Circulates(trace.worlds[i], a) && Circulates(trace.worlds[i], b) && a.wave == b.wave
    ensures SameCredential(a, b)
    ensures a.expiresAt.None? ==> a == b
  {
    Reachable(trace, i);
    var w := trace.worlds[i];
    forall m | Circulates(w, m) ensures Genuine(w, m) {
      if m !in w.mints {
        var t :| t in w.tabs && (w.tabs[t].heldMint == Some(m) || w.tabs[t].lastAdoption == Some(m));
        assert GenuineTab(w, w.tabs[t]);
      }
    }
  }

  /** Re-stamping never resurrects a credential: however often a mint was answered
      and by whom, a known expiry binds the adopter's server-time estimate and an
      unknown one leaves only the original publication's TTL. */
  lemma NeverResurrected(trace: Trace, i: nat, t: TabId, ev: Event, m: Mint)
    requires trace.Runs(i, t, ev)
    requires Adopts(trace.worlds[i], t, ev, m)
    ensures var w := trace.worlds[i];
      && m.wave in w.published
      && match w.published[m.wave].expiresAt
         case Some(expiry) => w.now + w.tabs[t].offset < expiry - ADOPTION_EXPIRY_MARGIN_MS
         case None => w.now - w.published[m.wave].sentAt < ADOPTION_TTL_MS
  {
    Reachable(trace, i);
    AdoptedIsGenuine(trace.worlds[i], t, ev, m);
    AdoptionGuards(trace.worlds[i], t, ev, m);
  }

  /** While the marker for the jar's context names a wave, no other wave is adopted
      on either path. */
  lemma OnlyTheMarkedWave(trace: Trace, i: nat, t: TabId, ev: Event, m: Mint)
    requires trace.Runs(i, t, ev)
    requires Adopts(trace.worlds[i], t, ev, m) && MarkerIsOurs(trace.worlds[i].Env())
    ensures m.wave == trace.worlds[i].marker.value.wave
  {
    Reachable(trace, i);
    AdoptionGuards(trace.worlds[i], t, ev, m);
  }

  /** Mutual exclusion: at most one tab is inside the lock callback. */
  lemma LockExclusion(trace: Trace, i: nat, t: TabId, u: TabId)
    requires trace.Valid() && i < |trace.worlds|
    requires t in trace.worlds[i].tabs && u in trace.worlds[i].tabs
    requires trace.worlds[i].tabs[t].rotation.HoldsLock() && trace.worlds[i].tabs[u].rotation.HoldsLock()
    ensures t == u
  {
    Reachable(trace, i);
  }

  /** While a tab keeps the lock, nobody else replaces the marker: it stays as it
      was, or it was cleared, unless the holder itself published. */
  lemma {:induction false} MarkerTenure(trace: Trace, i: nat, j: nat, t: TabId)
    requires trace.Valid() && i <= j < |trace.worlds|
    requires forall k :: i <= k <= j ==> trace.worlds[k].lock == Some(t)
    requires forall k :: i <= k < j && trace.actions[k].Task? && trace.actions[k].tab == t ==> !trace.actions[k].ev.BodyRead?
    ensures trace.worlds[j].marker.None? || trace.worlds[j].marker == trace.worlds[i].marker
  {
    if i < j {
      MarkerTenure(trace, i, j - 1, t);
      Reachable(trace, j - 1);
      assert trace.StepAt(j - 1);
      var w, a := trace.worlds[j - 1], trace.actions[j - 1];
      if a.Task? {
        MarkerWriters(w, a.tab, a.ev);
      }
    }
  }

  /** A granted tab whose context still stands POSTs exactly when it has nothing to
      adopt and the marker does not name its context, and probes exactly when it
      has nothing to adopt and the marker does. */
  lemma GrantOutcome(tab: Tab, env: Env)
    requires tab.rotation.Queued? && tab.rotation.epoch == tab.authEpoch && !tab.transitionActive
    ensures var after := AdoptOrRotate(tab, env).tab;
      && (after.rotation.Posting? <==> TryAdopt(tab, env).None? && !MarkerIsOurs(env))
      && (after.rotation.Probing? <==> TryAdopt(tab, env).None? && MarkerIsOurs(env))
      && (after.rotation.Returning? <==> TryAdopt(tab, env).Some?)
      && (after.rotation.Returning? ==> after.rotation.result && after.heldMint == TryAdopt(tab, env))
  {}
}
