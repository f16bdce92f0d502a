/** N tabs over one lock, one marker, one cookie jar and the broadcast channels.
    Posted messages stay deliverable to every tab any number of times, in any
    order or never, so the network is the least helpful one; the poster's own
    listener hears its posts too. `published`, `responses`, `heard` and `due` are
    history that no task reads. */
module TabWorld {
  import opened Wrappers
  import opened AuthTypes
  import opened TabCore
  import opened TabDiscipline

  datatype World = World(
    now: int,
    cookies: Cookies,
    lock: Option<TabId>,
    marker: Option<Marker>,
    tabs: map<TabId, Tab>,
    closed: set<TabId>,
    mints: set<Mint>,
    probes: set<Wave>,
    resets: set<TabId>,
    // history
    published: map<Wave, Mint>,
    responses: set<(Token, Option<Context>)>,
    heard: set<TabId>,
    due: set<Mint>)
  {
    function Env(): Env { TabCore.Env(now, cookies, marker) }

    /** The wave the lock holder is probing for, if it is probing. */
    function Probed(): Option<Wave> {
      if lock.Some? && lock.value in tabs && tabs[lock.value].rotation.Probing?
      then Some(tabs[lock.value].rotation.marker.wave) else None
    }
  }

  datatype Action =
    | Task(tab: TabId, ev: Event)
    | Tick(now: int)
    | TabOpened(tab: TabId)
    | TabClosed(tab: TabId)

  /** The server answers for the account whose refresh cookie the POST carried,
      and the csrf label in the body is the cookie it set, or unreadable. */
  predicate FromOutside(w: World, t: TabId, ev: Event)
    requires t in w.tabs
  {
    match ev
    case LockGranted => w.lock.None?
    case MintHeard(m) => m in w.mints
    case ProbeHeard(wave) => wave in w.probes
    case ResetHeard => exists s :: s in w.resets && s != t
    case PostAnswered(c) =>
      w.tabs[t].rotation.Posting? && w.tabs[t].rotation.sentAs.Some? && c.Valid() && c.session == w.tabs[t].rotation.sentAs
    case BodyRead(token, csrf, wave) =>
      && w.tabs[t].rotation.Reading?
      && w.tabs[t].rotation.sentAs == Some(token.account)
      && (csrf.Some? ==> csrf == w.tabs[t].rotation.csrf)
      && wave !in w.published
      && (w.marker.Some? ==> w.marker.value.wave != wave)
    case TransitionAnswered(c) => c.Valid()
    case LoginAnswered(c) => c.Valid()
    case _ => true
  }

  predicate Enabled(w: World, a: Action) {
    match a
    case Task(t, ev) => t in w.tabs && Ready(w.tabs[t], ev) && FromOutside(w, t, ev)
    case Tick(now) => w.now <= now
    case TabOpened(t) => t !in w.tabs && t !in w.closed
    case TabClosed(t) => t in w.tabs
  }

  function CookiesAfter(cookies: Cookies, ev: Event): Cookies {
    match ev
    case PostAnswered(c) => c
    case TransitionAnswered(c) => c
    case LoginAnswered(c) => c
    case _ => cookies
  }

  function LockAfter(lock: Option<TabId>, t: TabId, rotation: Rotation): Option<TabId> {
    if rotation.HoldsLock() then Some(t) else if lock == Some(t) then None else lock
  }

  function Posted<T>(sent: set<T>, post: Option<T>): set<T> {
    if post.Some? then sent + {post.value} else sent
  }

  function HeardAfter(w: World, t: TabId, ev: Event, out: Out): set<TabId> {
    if out.probe.Some? then {}
    else if ev.ProbeHeard? && w.Probed() == Some(ev.wave) then w.heard + {t}
    else w.heard
  }

  function DueAfter(w: World, t: TabId, ev: Event, out: Out): set<Mint> {
    if out.probe.Some? then {}
    else if ev.ProbeHeard? && w.Probed() == Some(ev.wave) then Posted(w.due, out.mint)
    else if ev.MintHeard? && w.lock == Some(t) then w.due - {ev.mint}
    else w.due
  }

  function RunTask(w: World, t: TabId, ev: Event): World
    requires Enabled(w, Task(t, ev))
  {
    var out := Next(w.tabs[t], w.Env(), ev);
    w.(cookies := CookiesAfter(w.cookies, ev),
       lock := LockAfter(w.lock, t, out.tab.rotation),
       marker := out.marker,
       tabs := w.tabs[t := out.tab],
       mints := Posted(w.mints, out.mint),
       probes := Posted(w.probes, out.probe),
       resets := if out.reset then w.resets + {t} else w.resets,
       published := if ev.BodyRead? && out.mint.Some? then w.published[ev.wave := out.mint.value] else w.published,
       responses := if ev.BodyRead? then w.responses + {(ev.token, ev.csrf)} else w.responses,
       heard := HeardAfter(w, t, ev, out),
       due := DueAfter(w, t, ev, out))
  }

  function Apply(w: World, a: Action): World
    requires Enabled(w, a)
  {
    match a
    case Task(t, ev) => RunTask(w, t, ev)
    case Tick(now) => w.(now := now)
    case TabOpened(t) => w.(tabs := w.tabs[t := NewTab(w.cookies)])
    case TabClosed(t) => w.(tabs := w.tabs - {t}, closed := w.closed + {t}, lock := if w.lock == Some(t) then None else w.lock)
  }

  /** No tab yet; the jar and localStorage hold whatever an earlier session left. */
  predicate Initial(w: World) {
    && w.cookies.Valid() && w.lock.None? && w.tabs == map[]
    && w.mints == {} && w.probes == {} && w.resets == {}
    && w.published == map[] && w.responses == {} && w.heard == {} && w.due == {}
  }

  datatype Trace = Trace(worlds: seq<World>, actions: seq<Action>) {
    ghost predicate StepAt(i: nat)
      requires |worlds| == |actions| + 1 && i < |actions|
    {
      Enabled(worlds[i], actions[i]) && worlds[i + 1] == Apply(worlds[i], actions[i])
    }

    ghost predicate Valid() {
      && |worlds| == |actions| + 1
      && Initial(worlds[0])
      && forall i: nat :: i < |actions| ==> StepAt(i)
    }

    /** Step i of the run is this task. */
    ghost predicate Runs(i: nat, t: TabId, ev: Event) {
      Valid() && i < |actions| && StepAt(i) && actions[i] == Task(t, ev)
    }
  }

  // ---- what every step keeps ----------------------------------------------------

  ghost predicate Disciplined(w: World) {
    forall t :: t in w.tabs ==> TabInv(w.tabs[t])
  }

  /** The lock is held by exactly the tab whose coroutine is inside the callback. */
  ghost predicate LockInv(w: World) {
    && (w.lock.Some? ==> w.lock.value in w.tabs)
    && forall t :: t in w.tabs ==> (w.tabs[t].rotation.HoldsLock() <==> w.lock == Some(t))
  }

  /** A posted, held or observed mint carries the credential of the response that
      published its wave; only a mint of known expiry was ever re-stamped. */
  predicate Genuine(w: World, m: Mint) {
    && m.wave in w.published
    && SameCredential(m, w.published[m.wave])
    && (m.expiresAt.None? ==> m.sentAt == w.published[m.wave].sentAt)
    && w.published[m.wave].sentAt <= m.sentAt <= w.now
  }

  ghost predicate PublishedInv(w: World) {
    forall v :: v in w.published ==>
      var m := w.published[v];
      && m.wave == v && m.sentAt <= w.now
      && (m.token, m.context) in w.responses
      && m.expiresAt == BearerExpiryMs(m.token)
      && (m.context.Some? ==> m.context.value.account == m.token.account)
  }

  predicate GenuineTab(w: World, tab: Tab) {
    && (tab.heldMint.Some? ==> Genuine(w, tab.heldMint.value))
    && (tab.lastAdoption.Some? ==> Genuine(w, tab.lastAdoption.value))
  }

  /** The marker of a published wave is that wave's own. */
  predicate TrueMarker(w: World, k: Marker) {
    k.wave in w.published ==> k.context == w.published[k.wave].context && k.at == w.published[k.wave].sentAt
  }

  ghost predicate MintInv(w: World) {
    && PublishedInv(w)
    && (forall m :: m in w.mints ==> Genuine(w, m))
    && (forall t :: t in w.tabs ==> GenuineTab(w, w.tabs[t]))
    && (w.marker.Some? ==> TrueMarker(w, w.marker.value))
    && (forall t :: t in w.tabs && w.tabs[t].rotation.Reading? && w.tabs[t].rotation.csrf.Some? ==>
          w.tabs[t].rotation.sentAs == Some(w.tabs[t].rotation.csrf.value.account))
  }

  /** While a tab probes, the shared marker is the one it read or was cleared by a
      sibling's transition; nobody replaced it. */
  ghost predicate ProbeInv(w: World) {
    forall t :: t in w.tabs && w.tabs[t].rotation.Probing? ==>
      && (w.marker.Some? ==> w.marker == Some(w.tabs[t].rotation.marker))
      && TrueMarker(w, w.tabs[t].rotation.marker)
  }

  ghost predicate WorldInv(w: World) {
    w.cookies.Valid() && Disciplined(w) && LockInv(w) && MintInv(w) && ProbeInv(w)
  }

  lemma InitialInv(w: World)
    requires Initial(w)
    ensures WorldInv(w)
  {}
}
