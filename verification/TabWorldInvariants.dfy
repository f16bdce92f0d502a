/** Every reachable world of N tabs satisfies the lock, mint and marker invariants. */
module TabWorldInvariants {
  import opened Wrappers
  import opened AuthTypes
  import opened TabCore
  import opened TabDiscipline
  import opened TabWorld

  lemma TaskKeepsDisciplineAll(w: World, t: TabId, ev: Event)
    requires Enabled(w, Task(t, ev)) && Disciplined(w)
    ensures Disciplined(RunTask(w, t, ev))
  {
    TaskKeepsDiscipline(w.tabs[t], w.Env(), ev);
  }

  /** Only a grant makes a tab a lock holder. */
  lemma OnlyAGrantTakesTheLock(tab: Tab, env: Env, ev: Event)
    requires TabInv(tab) && Ready(tab, ev) && !ev.LockGranted?
    ensures Next(tab, env, ev).tab.rotation.HoldsLock() ==> tab.rotation.HoldsLock()
  {}

  lemma TaskKeepsLock(w: World, t: TabId, ev: Event)
    requires Enabled(w, Task(t, ev)) && Disciplined(w) && LockInv(w)
    ensures LockInv(RunTask(w, t, ev))
  {
    if !ev.LockGranted? {
      OnlyAGrantTakesTheLock(w.tabs[t], w.Env(), ev);
    }
  }

  /** The marker is rewritten only by the lock holder and cleared by it or by a
      closing transition. */
  lemma MarkerWriters(w: World, t: TabId, ev: Event)
    requires Enabled(w, Task(t, ev)) && Disciplined(w) && LockInv(w)
    ensures var after := RunTask(w, t, ev);
      after.marker != w.marker ==> after.marker.None? || (w.lock == Some(t) && ev.BodyRead?)
  {}

  lemma TaskPublishes(tab: Tab, env: Env, ev: Event)
    requires Ready(tab, ev)
    ensures var out := Next(tab, env, ev);
      && (ev.BodyRead? && out.mint.Some? ==>
            out.mint == Some(Mint(ev.wave, ev.token, ev.csrf, env.now, BearerExpiryMs(ev.token)))
            && out.marker == Some(Marker(ev.wave, ev.csrf, env.now)))
      && (!ev.BodyRead? && out.mint.Some? ==>
            tab.heldMint.Some? && SameCredential(out.mint.value, tab.heldMint.value)
            && (out.mint.value.expiresAt.None? ==> out.mint == tab.heldMint)
            && (out.mint.value.sentAt == tab.heldMint.value.sentAt || out.mint.value.sentAt == env.now))
      && (!(ev.BodyRead? && out.mint.Some?) && out.marker.Some? ==> out.marker == env.marker)
  {}

  /** What a task may leave in one of the two slots: nothing, what was in either,
      the mint it heard, or the one it published. */
  predicate SlotFrom(slot: Option<Mint>, tab: Tab, ev: Event, posted: Option<Mint>) {
    || slot.None? || slot == tab.heldMint || slot == tab.lastAdoption
    || (ev.MintHeard? && slot == Some(ev.mint)) || (ev.BodyRead? && slot == posted)
  }

  lemma TaskHolds(tab: Tab, env: Env, ev: Event)
    requires Ready(tab, ev)
    ensures var out := Next(tab, env, ev); SlotFrom(out.tab.heldMint, tab, ev, out.mint)
  {}

  lemma TaskObserves(tab: Tab, env: Env, ev: Event)
    requires Ready(tab, ev)
    ensures var out := Next(tab, env, ev); SlotFrom(out.tab.lastAdoption, tab, ev, out.mint)
  {}

  lemma GenuineKept(w: World, t: TabId, ev: Event, m: Mint)
    requires Enabled(w, Task(t, ev)) && MintInv(w) && Genuine(w, m)
    ensures Genuine(RunTask(w, t, ev), m)
  {
    TaskPublishes(w.tabs[t], w.Env(), ev);
  }

  lemma PostIsGenuine(w: World, t: TabId, ev: Event)
    requires Enabled(w, Task(t, ev)) && MintInv(w)
    ensures var out := Next(w.tabs[t], w.Env(), ev); out.mint.Some? ==> Genuine(RunTask(w, t, ev), out.mint.value)
  {
    TaskPublishes(w.tabs[t], w.Env(), ev);
  }

  lemma SlotsGenuine(w: World, t: TabId, ev: Event)
    requires Enabled(w, Task(t, ev)) && MintInv(w)
    ensures var after := RunTask(w, t, ev); GenuineTab(after, after.tabs[t])
  {
    var after := RunTask(w, t, ev);
    TaskHolds(w.tabs[t], w.Env(), ev);
    SlotGenuine(w, t, ev, after.tabs[t].heldMint);
    TaskObserves(w.tabs[t], w.Env(), ev);
    SlotGenuine(w, t, ev, after.tabs[t].lastAdoption);
  }

  lemma SlotGenuine(w: World, t: TabId, ev: Event, slot: Option<Mint>)
    requires Enabled(w, Task(t, ev)) && MintInv(w)
    requires SlotFrom(slot, w.tabs[t], ev, Next(w.tabs[t], w.Env(), ev).mint)
    ensures slot.Some? ==> Genuine(RunTask(w, t, ev), slot.value)
  {
    if slot.Some? {
      if ev.BodyRead? && slot == Next(w.tabs[t], w.Env(), ev).mint {
        PostIsGenuine(w, t, ev);
      } else {
        assert GenuineTab(w, w.tabs[t]);
        GenuineKept(w, t, ev, slot.value);
      }
    }
  }

  lemma TaskKeepsPublished(w: World, t: TabId, ev: Event)
    requires Enabled(w, Task(t, ev)) && MintInv(w)
    ensures PublishedInv(RunTask(w, t, ev))
  {
    TaskPublishes(w.tabs[t], w.Env(), ev);
  }

  lemma TaskReads(tab: Tab, env: Env, ev: Event)
    requires Ready(tab, ev)
    ensures var after := Next(tab, env, ev).tab;
      after.rotation.Reading? ==>
        || after.rotation == tab.rotation
        || (ev.PostAnswered? && after.rotation.sentAs == tab.rotation.sentAs && after.rotation.csrf == ev.cookies.csrf)
  {}

  lemma TaskKeepsReading(w: World, t: TabId, ev: Event)
    requires Enabled(w, Task(t, ev)) && MintInv(w)
    ensures var r := RunTask(w, t, ev).tabs[t].rotation;
      r.Reading? && r.csrf.Some? ==> r.sentAs == Some(r.csrf.value.account)
  {
    TaskReads(w.tabs[t], w.Env(), ev);
  }

  lemma TaskKeepsMints(w: World, t: TabId, ev: Event)
    requires Enabled(w, Task(t, ev)) && MintInv(w)
    ensures MintInv(RunTask(w, t, ev))
  {
    var after := RunTask(w, t, ev);
    TaskKeepsPublished(w, t, ev);
    forall m | m in after.mints ensures Genuine(after, m) {
      if m in w.mints { GenuineKept(w, t, ev, m); } else { PostIsGenuine(w, t, ev); }
    }
    forall u | u in after.tabs ensures GenuineTab(after, after.tabs[u]) {
      if u == t {
        SlotsGenuine(w, t, ev);
      } else {
        assert GenuineTab(w, w.tabs[u]);
        if w.tabs[u].heldMint.Some? { GenuineKept(w, t, ev, w.tabs[u].heldMint.value); }
        if w.tabs[u].lastAdoption.Some? { GenuineKept(w, t, ev, w.tabs[u].lastAdoption.value); }
      }
    }
    TaskPublishes(w.tabs[t], w.Env(), ev);
    TaskKeepsReading(w, t, ev);
  }

  lemma TaskProbes(tab: Tab, env: Env, ev: Event)
    requires TabInv(tab) && Ready(tab, ev)
    ensures var after := Next(tab, env, ev).tab;
      after.rotation.Probing? ==>
        (ev.LockGranted? && env.marker == Some(after.rotation.marker)) || after.rotation == tab.rotation
  {}

  lemma TaskKeepsProbe(w: World, t: TabId, ev: Event)
    requires Enabled(w, Task(t, ev)) && WorldInv(w)
    ensures ProbeInv(RunTask(w, t, ev))
  {
    var after := RunTask(w, t, ev);
    TaskProbes(w.tabs[t], w.Env(), ev);
    TaskPublishes(w.tabs[t], w.Env(), ev);
    MarkerWriters(w, t, ev);
    forall u | u in after.tabs && after.tabs[u].rotation.Probing?
      ensures after.marker.Some? ==> after.marker == Some(after.tabs[u].rotation.marker)
      ensures TrueMarker(after, after.tabs[u].rotation.marker)
    {
      if u != t {
        assert w.lock == Some(u);
      }
    }
  }

  lemma TaskKeepsInv(w: World, t: TabId, ev: Event)
    requires Enabled(w, Task(t, ev)) && WorldInv(w)
    ensures WorldInv(RunTask(w, t, ev))
  {
    TaskKeepsDisciplineAll(w, t, ev);
    TaskKeepsLock(w, t, ev);
    TaskKeepsMints(w, t, ev);
    TaskKeepsProbe(w, t, ev);
  }

  lemma OpeningKeepsInv(w: World, t: TabId)
    requires Enabled(w, TabOpened(t)) && WorldInv(w)
    ensures WorldInv(Apply(w, TabOpened(t)))
  {
    NewTabDisciplined(w.cookies);
  }

  /** A tab closes, holding the lock or not. */
  lemma ClosingKeepsInv(w: World, t: TabId)
    requires Enabled(w, TabClosed(t)) && WorldInv(w)
    ensures WorldInv(Apply(w, TabClosed(t)))
  {}

  lemma StepKeepsInv(w: World, a: Action)
    requires Enabled(w, a) && WorldInv(w)
    ensures WorldInv(Apply(w, a))
  {
    match a
    case Task(t, ev) => TaskKeepsInv(w, t, ev);
    case TabOpened(t) => OpeningKeepsInv(w, t);
    case TabClosed(t) => ClosingKeepsInv(w, t);
    case Tick(_) =>
  }

  lemma {:induction false} Reachable(trace: Trace, i: nat)
    requires trace.Valid() && i < |trace.worlds|
    ensures WorldInv(trace.worlds[i])
  {
    if i == 0 {
      InitialInv(trace.worlds[0]);
    } else {
      Reachable(trace, i - 1);
      assert trace.StepAt(i - 1);
      StepKeepsInv(trace.worlds[i - 1], trace.actions[i - 1]);
    }
  }
}
