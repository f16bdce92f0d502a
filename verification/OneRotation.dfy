/** One rotation per wave. The failure detector is only as good as its window, so
    the runs considered here deliver a probe to every tab that holds the probed wave
    with a good bearer, and its answers to the prober, before the prober's timer fires
    and before the answers' own TTL, and no tab's server-clock estimate runs ahead of
    `maxOffset`. */
module OneRotation {
  import opened Wrappers
  import opened AuthTypes
  import opened TabCore
  import opened TabDiscipline
  import opened TabWorld
  import opened TabWorldInvariants

  /** A credential of known expiry that every tab's estimate still accepts. */
  predicate Good(m: Mint, now: int, maxOffset: int) {
    m.expiresAt.Some? && BearerUsable(m.expiresAt, now, maxOffset)
  }

  predicate Holds(w: World, x: TabId, wave: Wave, maxOffset: int) {
    && x in w.tabs && w.tabs[x].heldMint.Some? && w.tabs[x].heldMint.value.wave == wave
    && Good(w.tabs[x].heldMint.value, w.now, maxOffset)
  }

  predicate Prompt(w: World, a: Action, maxOffset: int) {
    match a
    case Task(t, ev) =>
      && (ev.ProbeTimedOut? ==> w.due == {} && forall x :: x in w.tabs && ProbedBy(w, t, x, maxOffset) ==> x in w.heard)
      && (ev.DateObserved? ==> ev.offset <= maxOffset)
    case Tick(now) => w.Probed().Some? ==> forall d :: d in w.due && d.expiresAt.Some? ==> now - d.sentAt < ADOPTION_TTL_MS
    case _ => true
  }

  /** The tab x holds the wave that t probes for. */
  predicate ProbedBy(w: World, t: TabId, x: TabId, maxOffset: int) {
    t in w.tabs && w.tabs[t].rotation.Probing? && Holds(w, x, w.tabs[t].rotation.marker.wave, maxOffset)
  }

  ghost predicate OffsetsBelow(w: World, maxOffset: int) {
    0 <= maxOffset && forall t :: t in w.tabs ==> w.tabs[t].offset <= maxOffset
  }

  /** An answer for the probed wave is on its way to the prober. */
  ghost predicate AnswerDue(w: World, wave: Wave, expiresAt: Option<int>) {
    exists d :: d in w.due && d.wave == wave && d.expiresAt == expiresAt
  }

  predicate HoldsProbed(w: World, t: TabId, maxOffset: int)
    requires t in w.tabs && w.Probed().Some?
  {
    Holds(w, t, w.Probed().value, maxOffset)
  }

  /** A tab that still holds the probed wave with a good bearer has not heard the
      probe yet, or its answer is due. */
  ghost predicate HoldersAnswer(w: World, maxOffset: int) {
    w.Probed().Some? ==>
      forall t :: t in w.tabs && t in w.heard && HoldsProbed(w, t, maxOffset) ==>
        AnswerDue(w, w.Probed().value, w.tabs[t].heldMint.value.expiresAt)
  }

  ghost predicate DueInv(w: World) {
    && w.due <= w.mints
    && (w.Probed().Some? ==> forall d :: d in w.due && d.expiresAt.Some? ==> Fresh(d, w.now))
  }

  ghost predicate ProbeRoundInv(w: World, maxOffset: int) {
    OffsetsBelow(w, maxOffset) && HoldersAnswer(w, maxOffset) && DueInv(w)
  }

  // ---- the probe round -----------------------------------------------------------

  lemma OffsetsKept(w: World, a: Action, maxOffset: int)
    requires Enabled(w, a) && Prompt(w, a, maxOffset) && OffsetsBelow(w, maxOffset)
    ensures OffsetsBelow(Apply(w, a), maxOffset)
  {
    if a.Task? {
      OffsetOnlyByDate(w.tabs[a.tab], w.Env(), a.ev);
    }
  }

  lemma OffsetOnlyByDate(tab: Tab, env: Env, ev: Event)
    requires Ready(tab, ev)
    ensures Next(tab, env, ev).tab.offset == if ev.DateObserved? then ev.offset else tab.offset
  {}

  /** Outside the lock callback a tab can only lose the credential it holds. */
  lemma HeldOnlyUnderLock(tab: Tab, env: Env, ev: Event)
    requires TabInv(tab) && Ready(tab, ev) && !ev.LockGranted? && !tab.rotation.HoldsLock()
    ensures var after := Next(tab, env, ev).tab;
      after.heldMint.None? || after.heldMint == tab.heldMint
  {}

  /** A probing tab that keeps probing keeps its credential, or loses it. */
  lemma ProberKeepsHeld(tab: Tab, env: Env, ev: Event)
    requires TabInv(tab) && Ready(tab, ev) && tab.rotation.Probing? && Next(tab, env, ev).tab.rotation.Probing?
    ensures var after := Next(tab, env, ev).tab;
      && after.rotation == tab.rotation
      && (after.heldMint.None? || after.heldMint == tab.heldMint)
      && Next(tab, env, ev).probe.None?
  {}

  /** A good re-stamped answer for the probed wave settles the probe. */
  lemma GoodAnswerResolves(w: World, u: TabId, m: Mint, maxOffset: int)
    requires WorldInv(w) && OffsetsBelow(w, maxOffset)
    requires u in w.tabs && w.tabs[u].rotation.Probing? && Genuine(w, m)
    requires m.wave == w.tabs[u].rotation.marker.wave && Fresh(m, w.now) && Good(m, w.now, maxOffset)
    ensures ResolvesWave(m, w.tabs[u].rotation.marker, w.now, w.tabs[u].offset)
  {}

  lemma TaskPostsProbe(tab: Tab, env: Env, ev: Event)
    requires Ready(tab, ev)
    ensures var out := Next(tab, env, ev);
      && (out.probe.Some? <==> ev.LockGranted? && out.tab.rotation.Probing?)
      && (ev.LockGranted? ==> out.mint.None?)
  {}

  /** Between two worlds of one probe round the prober is the same and still probing. */
  lemma SameRound(w: World, t: TabId, ev: Event)
    requires Enabled(w, Task(t, ev)) && WorldInv(w) && RunTask(w, t, ev).Probed().Some? && !ev.LockGranted?
    ensures var after := RunTask(w, t, ev);
      && w.Probed() == after.Probed() && after.lock == w.lock
      && w.lock.Some? && w.lock.value in w.tabs
      && w.tabs[w.lock.value].rotation.Probing?
      && after.tabs[w.lock.value].rotation == w.tabs[w.lock.value].rotation
      && Next(w.tabs[t], w.Env(), ev).probe.None?
  {
    var after := RunTask(w, t, ev);
    TaskKeepsLock(w, t, ev);
    var u := after.lock.value;
    OnlyAGrantTakesTheLock(w.tabs[t], w.Env(), ev);
    TaskProbes(w.tabs[t], w.Env(), ev);
    TaskPostsProbe(w.tabs[t], w.Env(), ev);
    assert w.tabs[u].rotation.HoldsLock();
  }

  lemma HeldFromBefore(w: World, t: TabId, ev: Event, x: TabId)
    requires Enabled(w, Task(t, ev)) && WorldInv(w) && RunTask(w, t, ev).Probed().Some? && !ev.LockGranted?
    requires x in w.tabs && RunTask(w, t, ev).tabs[x].heldMint.Some?
    ensures w.tabs[x].heldMint == RunTask(w, t, ev).tabs[x].heldMint
  {
    SameRound(w, t, ev);
    if x == t {
      if w.lock == Some(t) {
        ProberKeepsHeld(w.tabs[t], w.Env(), ev);
      } else {
        HeldOnlyUnderLock(w.tabs[t], w.Env(), ev);
      }
    }
  }

  lemma HoldersAnswerTask(w: World, t: TabId, ev: Event, maxOffset: int)
    requires Enabled(w, Task(t, ev)) && WorldInv(w) && ProbeRoundInv(w, maxOffset)
    ensures HoldersAnswer(RunTask(w, t, ev), maxOffset)
  {
    var after := RunTask(w, t, ev);
    TaskPostsProbe(w.tabs[t], w.Env(), ev);
    if after.Probed().Some? {
      if ev.LockGranted? {
        TaskKeepsLock(w, t, ev);
        assert after.heard == {};
      } else {
        SameRound(w, t, ev);
        forall x | x in after.tabs && x in after.heard && HoldsProbed(after, x, maxOffset)
          ensures AnswerDue(after, after.Probed().value, after.tabs[x].heldMint.value.expiresAt)
        {
          HolderAnswers(w, t, ev, x, maxOffset);
        }
      }
    }
  }

  lemma HolderAnswers(w: World, t: TabId, ev: Event, x: TabId, maxOffset: int)
    requires Enabled(w, Task(t, ev)) && WorldInv(w) && ProbeRoundInv(w, maxOffset) && !ev.LockGranted?
    requires var after := RunTask(w, t, ev);
      after.Probed().Some? && x in w.tabs && x in after.heard && HoldsProbed(after, x, maxOffset)
    ensures var after := RunTask(w, t, ev);
      AnswerDue(after, after.Probed().value, after.tabs[x].heldMint.value.expiresAt)
  {
    var after := RunTask(w, t, ev);
    SameRound(w, t, ev);
    HeldFromBefore(w, t, ev, x);
    var wave := w.Probed().value;
    var held := w.tabs[x].heldMint.value;
    if x !in w.heard {
      var answer := AnswerProbe(w.tabs[x], w.now, wave);
      assert x == t && answer.Some? && answer.value in after.due;
    } else {
      var d :| d in w.due && d.wave == wave && d.expiresAt == held.expiresAt;
      if d in after.due {
      } else {
        // the answer was just delivered to the prober: the probe would be over
        assert ev.MintHeard? && ev.mint == d && w.lock == Some(t);
        GoodAnswerResolves(w, t, d, maxOffset);
        assert false;
      }
    }
  }

  lemma DueTask(w: World, t: TabId, ev: Event)
    requires Enabled(w, Task(t, ev)) && WorldInv(w) && DueInv(w)
    ensures DueInv(RunTask(w, t, ev))
  {
    var after := RunTask(w, t, ev);
    TaskPostsProbe(w.tabs[t], w.Env(), ev);
    if after.Probed().Some? && !ev.LockGranted? {
      SameRound(w, t, ev);
      TaskPublishes(w.tabs[t], w.Env(), ev);
    }
  }

  lemma RoundStep(w: World, a: Action, maxOffset: int)
    requires Enabled(w, a) && WorldInv(w) && Prompt(w, a, maxOffset) && ProbeRoundInv(w, maxOffset)
    ensures ProbeRoundInv(Apply(w, a), maxOffset)
  {
    OffsetsKept(w, a, maxOffset);
    match a
    case Task(t, ev) =>
      HoldersAnswerTask(w, t, ev, maxOffset);
      DueTask(w, t, ev);
    case _ =>
      var after := Apply(w, a);
      assert after.Probed().Some? ==> after.Probed() == w.Probed();
      forall x | after.Probed().Some? && x in after.tabs && x in w.heard && HoldsProbed(after, x, maxOffset)
        ensures AnswerDue(after, after.Probed().value, after.tabs[x].heldMint.value.expiresAt)
      {
        assert HoldsProbed(w, x, maxOffset);
        assert AnswerDue(w, w.Probed().value, w.tabs[x].heldMint.value.expiresAt);
      }
  }

  ghost predicate PromptTrace(trace: Trace, maxOffset: int) {
    && trace.Valid() && 0 <= maxOffset
    && forall i :: 0 <= i < |trace.actions| ==> Prompt(trace.worlds[i], trace.actions[i], maxOffset)
  }

  lemma {:induction false} RoundReachable(trace: Trace, i: nat, maxOffset: int)
    requires PromptTrace(trace, maxOffset) && i < |trace.worlds|
    ensures ProbeRoundInv(trace.worlds[i], maxOffset)
  {
    if i > 0 {
      RoundReachable(trace, i - 1, maxOffset);
      Reachable(trace, i - 1);
      assert trace.StepAt(i - 1);
      RoundStep(trace.worlds[i - 1], trace.actions[i - 1], maxOffset);
    }
  }

  // ---- no rotation over a live wave -------------------------------------------------

  /** The task sends POST /auth/refresh. */
  predicate StartsPost(w: World, t: TabId, ev: Event)
    requires Enabled(w, Task(t, ev))
  {
    !w.tabs[t].rotation.Posting? && RunTask(w, t, ev).tabs[t].rotation.Posting?
  }

  lemma PostsFrom(tab: Tab, env: Env, ev: Event)
    requires Ready(tab, ev) && !tab.rotation.Posting? && Next(tab, env, ev).tab.rotation.Posting?
    ensures ev.ProbeTimedOut? || (ev.LockGranted? && !MarkerIsOurs(env))
    ensures Next(tab, env, ev) == Lead(tab, env, tab.rotation.epoch)
  {}

  lemma PostStarters(w: World, t: TabId, ev: Event)
    requires Enabled(w, Task(t, ev)) && StartsPost(w, t, ev)
    ensures ev.ProbeTimedOut? || (ev.LockGranted? && !MarkerIsOurs(w.Env()))
    ensures RunTask(w, t, ev).tabs[t].rotation == Posting(w.tabs[t].rotation.epoch, w.cookies.session)
    ensures RunTask(w, t, ev).marker.None?
  {
    PostsFrom(w.tabs[t], w.Env(), ev);
  }

  lemma NoHolderAtTimeout(w: World, t: TabId, x: TabId, maxOffset: int)
    requires Enabled(w, Task(t, ProbeTimedOut)) && WorldInv(w) && ProbeRoundInv(w, maxOffset)
    requires Prompt(w, Task(t, ProbeTimedOut), maxOffset)
    requires x in w.tabs && w.tabs[x].heldMint.Some? && Good(w.tabs[x].heldMint.value, w.now, maxOffset)
    ensures w.tabs[x].heldMint.value.wave != w.tabs[t].rotation.marker.wave
  {
    assert w.lock == Some(t) && w.Probed() == Some(w.tabs[t].rotation.marker.wave);
    assert HoldsProbed(w, x, maxOffset) == ProbedBy(w, t, x, maxOffset);
  }

  /** While the marker for the jar's context names a wave that some tab holds with a
      good bearer, no tab sends a refresh, whoever logs in, out or closes meanwhile. */
  lemma NoPostOverALiveWave(trace: Trace, i: nat, t: TabId, ev: Event, x: TabId, maxOffset: int)
    requires PromptTrace(trace, maxOffset) && trace.Runs(i, t, ev)
    requires StartsPost(trace.worlds[i], t, ev)
    requires var w := trace.worlds[i];
      x in w.tabs && w.tabs[x].heldMint.Some? && Good(w.tabs[x].heldMint.value, w.now, maxOffset)
    ensures var w := trace.worlds[i];
      !(MarkerIsOurs(w.Env()) && w.marker.value.wave == w.tabs[x].heldMint.value.wave)
  {
    Reachable(trace, i);
    RoundReachable(trace, i, maxOffset);
    PostStarters(trace.worlds[i], t, ev);
    if ev.ProbeTimedOut? {
      NoHolderAtTimeout(trace.worlds[i], t, x, maxOffset);
    }
  }

  // ---- one rotation per wave ---------------------------------------------------------

  /** The marker names the wave, for the context the jar is in. */
  predicate Marked(w: World, wave: Wave) {
    MarkerIsOurs(w.Env()) && w.marker.value.wave == wave
  }

  /** No explicit login or logout changes the jar or clears the marker: no login is answered
      and no transition is answered or closed. Transitions may begin. */
  predicate Steady(a: Action) {
    a.Task? ==>
      && !a.ev.TransitionAnswered? && !a.ev.LoginRecorded? && !a.ev.LogoutRecorded? && !a.ev.TransitionRefused?
      && !a.ev.LoginAnswered?
  }

  /** A leader cleared the marker before its POST and nobody else writes one. */
  ghost predicate WireInv(w: World) {
    forall t :: t in w.tabs && w.tabs[t].rotation.OnTheWire() ==> w.marker.None?
  }

  lemma WireMarker(tab: Tab, env: Env, ev: Event)
    requires Ready(tab, ev)
    ensures var out := Next(tab, env, ev);
      && (out.tab.rotation.OnTheWire() ==> out.marker.None? || (tab.rotation.OnTheWire() && out.marker == env.marker))
      && (out.marker != env.marker ==> out.marker.None? || (tab.rotation.Reading? && !out.tab.rotation.OnTheWire()))
  {}

  lemma WireStep(w: World, a: Action)
    requires Enabled(w, a) && WorldInv(w) && WireInv(w)
    ensures WireInv(Apply(w, a))
  {
    if a.Task? {
      WireMarker(w.tabs[a.tab], w.Env(), a.ev);
    }
  }

  lemma {:induction false} WireReachable(trace: Trace, i: nat)
    requires trace.Valid() && i < |trace.worlds|
    ensures WireInv(trace.worlds[i])
  {
    if i > 0 {
      WireReachable(trace, i - 1);
      Reachable(trace, i - 1);
      assert trace.StepAt(i - 1);
      WireStep(trace.worlds[i - 1], trace.actions[i - 1]);
    }
  }

  /** Without an explicit login or logout the marker and the jar change only by a POST. */
  lemma SteadyTask(tab: Tab, env: Env, ev: Event)
    requires Ready(tab, ev) && Steady(Task(0, ev)) && !tab.rotation.OnTheWire()
    ensures CookiesAfter(env.cookies, ev) == env.cookies
    ensures !Next(tab, env, ev).tab.rotation.Posting? ==> Next(tab, env, ev).marker == env.marker
  {}

  lemma MarkedStep(w: World, a: Action, x: TabId, wave: Wave, maxOffset: int)
    requires Enabled(w, a) && WorldInv(w) && ProbeRoundInv(w, maxOffset) && WireInv(w)
    requires Prompt(w, a, maxOffset) && Marked(w, wave) && Holds(w, x, wave, maxOffset)
    ensures a.Task? ==> !StartsPost(w, a.tab, a.ev)
    ensures Steady(a) ==> Marked(Apply(w, a), wave)
  {
    if a.Task? {
      if StartsPost(w, a.tab, a.ev) {
        PostStarters(w, a.tab, a.ev);
        if a.ev.ProbeTimedOut? { NoHolderAtTimeout(w, a.tab, x, maxOffset); }
      }
      if Steady(a) { SteadyTask(w.tabs[a.tab], w.Env(), a.ev); }
    }
  }

  /** The task that publishes a wave holds it, and marks it if the response was labelled
      with the jar's own context. */
  lemma PublishingMarks(w: World, t: TabId, ev: Event)
    requires Enabled(w, Task(t, ev)) && ev.BodyRead? && w.tabs[t].rotation.epoch == w.tabs[t].authEpoch
    ensures var after := RunTask(w, t, ev);
      && after.tabs[t].heldMint.Some? && after.tabs[t].heldMint.value.wave == ev.wave
      && (Marked(after, ev.wave) <==> ev.csrf == w.cookies.csrf)
  {}

  ghost predicate SomebodyHolds(w: World, wave: Wave, maxOffset: int) {
    exists x :: Holds(w, x, wave, maxOffset)
  }

  lemma {:induction false} StaysMarked(trace: Trace, i: nat, j: nat, wave: Wave, maxOffset: int)
    requires PromptTrace(trace, maxOffset) && i <= j < |trace.worlds| && Marked(trace.worlds[i], wave)
    requires forall n :: i <= n < j ==> SomebodyHolds(trace.worlds[n], wave, maxOffset) && Steady(trace.actions[n])
    ensures Marked(trace.worlds[j], wave)
  {
    if i < j {
      StaysMarked(trace, i, j - 1, wave, maxOffset);
      Reachable(trace, j - 1);
      RoundReachable(trace, j - 1, maxOffset);
      WireReachable(trace, j - 1);
      assert trace.StepAt(j - 1);
      assert SomebodyHolds(trace.worlds[j - 1], wave, maxOffset);
      var x :| Holds(trace.worlds[j - 1], x, wave, maxOffset);
      MarkedStep(trace.worlds[j - 1], trace.actions[j - 1], x, wave, maxOffset);
    }
  }

  /** One rotation per wave: from any moment the marker names the wave, for as long as
      somebody holds it with a good bearer and nobody logs in or out, no tab sends a
      refresh. What happened before that moment does not matter, and in between tabs may
      open, close, fail, hear resets and begin transitions. */
  lemma OneRotationPerWave(trace: Trace, i: nat, j: nat, t: TabId, ev: Event, wave: Wave, maxOffset: int)
    requires PromptTrace(trace, maxOffset) && i <= j && trace.Runs(j, t, ev)
    requires Marked(trace.worlds[i], wave)
    requires forall n :: i <= n < j ==> Steady(trace.actions[n])
    requires forall n :: i <= n <= j ==> SomebodyHolds(trace.worlds[n], wave, maxOffset)
    ensures !StartsPost(trace.worlds[j], t, ev)
  {
    StaysMarked(trace, i, j, wave, maxOffset);
    Reachable(trace, j);
    RoundReachable(trace, j, maxOffset);
    WireReachable(trace, j);
    var x :| Holds(trace.worlds[j], x, wave, maxOffset);
    MarkedStep(trace.worlds[j], trace.actions[j], x, wave, maxOffset);
  }
}
