/** One browser tab's half of the protocol (`accessToken.ts` and the recovery
    block of `api.ts`) on values.  The tab is cut at its awaits: every event
    below is one task with its microtasks, so it runs without interruption, and
    `Rotation` says at which await the single rotation coroutine is suspended. */
module TabCore {
  import opened Wrappers
  import opened AuthTypes

  datatype Rotation =
    | Idle
    | Queued(epoch: nat)
    | Probing(epoch: nat, marker: Marker)
    | Posting(epoch: nat, sentAs: Option<Account>)
    | Reading(epoch: nat, sentAs: Option<Account>, csrf: Option<Context>)
    | Grace(epoch: nat)
    | Returning(epoch: nat, result: bool, locked: bool)
  {
    predicate HoldsLock() {
      match this
      case Idle => false
      case Queued(_) => false
      case Returning(_, _, locked) => locked
      case _ => true
    }

    /** The refresh round trip is under way. */
    predicate OnTheWire() { Posting? || Reading? }
  }

  datatype Phase = Sent | Waiting | Done

  /** One `performApiRequest` activation. `account` is history: the account the
      tab was working for when the request was first sent. `resent` records the
      bearer of the retry, when there was one. */
  datatype Request = Request(
    account: Option<Account>, tokenUsed: Option<Token>, epochUsed: nat,
    phase: Phase, attempts: nat, resent: Option<Option<Token>>)

  /** `account` and `answers` are history, read by no task: whom the tab works for, as
      the last login or logout it recorded says, and whose sign-in the answers to its own
      logins have put in the jar without having been recorded yet. */
  datatype Tab = Tab(
    accessToken: Option<Token>,
    refreshInFlight: bool,
    rotation: Rotation,
    transitionActive: bool,
    draining: bool,
    authEpoch: nat,
    heldMint: Option<Mint>,
    lastAdoption: Option<Mint>,
    offset: int,
    requests: map<RequestId, Request>,
    account: Option<Account>,
    answers: set<Account>)

  function NewTab(cookies: Cookies): Tab {
    Tab(None, false, Idle, false, false, 0, None, None, 0, map[], cookies.session, {})
  }

  datatype Event =
    | RefreshCalled
    | LockGranted
    | LockTimedOut
    | MintHeard(mint: Mint)
    | ProbeHeard(wave: Wave)
    | ProbeTimedOut
    | PostFailed
    | PostAnswered(cookies: Cookies)
    | BodyRead(token: Token, csrf: Option<Context>, wave: Wave)
    | BodyMalformed
    | GraceOver
    | LockReleased
    | RefreshSettled
    | TransitionBegun
    | TransitionAnswered(cookies: Cookies)
    | LoginRecorded(token: Token)
    | LogoutRecorded
    | TransitionRefused
    | LoginAnswered(cookies: Cookies)
    | BareLoginRecorded(token: Token)
    | ResetHeard
    | DateObserved(offset: int)
    | RequestSent(request: RequestId)
    | Unauthorized(request: RequestId)
    | Answered(request: RequestId)

  /** What a task of the tab sees outside itself. */
  datatype Env = Env(now: int, cookies: Cookies, marker: Option<Marker>)

  /** What a task leaves behind: the tab, the shared marker, and its posts. */
  datatype Out = Out(tab: Tab, marker: Option<Marker>, mint: Option<Mint>, probe: Option<Wave>, reset: bool)

  function Quiet(tab: Tab, env: Env): Out {
    Out(tab, env.marker, None, None, false)
  }

  // ---- the coroutine's segments --------------------------------------------

  function RefreshCall(tab: Tab): Tab {
    if tab.transitionActive || tab.refreshInFlight then tab
    else tab.(refreshInFlight := true, rotation := Queued(tab.authEpoch))
  }

  function TryAdopt(tab: Tab, env: Env): Option<Mint> {
    if tab.heldMint.Some? && Adoptable(tab.heldMint.value, env.now, tab.offset, env.cookies.csrf, env.marker)
    then tab.heldMint
    else if tab.lastAdoption.Some? && Adoptable(tab.lastAdoption.value, env.now, tab.offset, env.cookies.csrf, env.marker)
    then tab.lastAdoption
    else None
  }

  function Take(tab: Tab, m: Mint, epoch: nat): Tab {
    tab.(accessToken := Some(m.token), heldMint := Some(m), rotation := Returning(epoch, true, true))
  }

  function GiveUp(tab: Tab, epoch: nat): Tab {
    tab.(rotation := Returning(epoch, false, true))
  }

  function Lead(tab: Tab, env: Env, epoch: nat): Out {
    Out(tab.(rotation := Posting(epoch, env.cookies.session)), None, None, None, false)
  }

  /** `resolveWave`'s first test, before it arms a resolver and probes. */
  predicate AlreadyResolved(tab: Tab, env: Env, marker: Marker) {
    tab.lastAdoption.Some? && ResolvesWave(tab.lastAdoption.value, marker, env.now, tab.offset)
  }

  predicate MarkerIsOurs(env: Env) {
    env.marker.Some? && env.marker.value.context == env.cookies.csrf
  }

  function AdoptOrRotate(tab: Tab, env: Env): Out
    requires tab.rotation.Queued?
  {
    var epoch := tab.rotation.epoch;
    if tab.authEpoch != epoch || tab.transitionActive then Quiet(GiveUp(tab, epoch), env)
    else
      var adopted := TryAdopt(tab, env);
      if adopted.Some? then Quiet(Take(tab, adopted.value, epoch), env)
      else if MarkerIsOurs(env) then
        if AlreadyResolved(tab, env, env.marker.value) then Quiet(Take(tab, tab.lastAdoption.value, epoch), env)
        else
          Out(tab.(rotation := Probing(epoch, env.marker.value)), env.marker, None, Some(env.marker.value.wave), false)
      else Lead(tab, env, epoch)
  }

  function HearMint(tab: Tab, env: Env, m: Mint): Tab {
    var seen := tab.(lastAdoption := Some(m));
    if tab.rotation.Probing? && ResolvesWave(m, tab.rotation.marker, env.now, tab.offset) then
      var epoch := tab.rotation.epoch;
      if tab.authEpoch != epoch || tab.transitionActive then GiveUp(seen, epoch) else Take(seen, m, epoch)
    else seen
  }

  function AnswerProbe(tab: Tab, now: int, wave: Wave): Option<Mint> {
    if tab.heldMint.Some? && tab.heldMint.value.wave == wave && BearerUsable(tab.heldMint.value.expiresAt, now, tab.offset) then
      var held := tab.heldMint.value;
      Some(held.(sentAt := if held.expiresAt.None? then held.sentAt else now))
    else None
  }

  function RotationFailed(tab: Tab, epoch: nat): Tab {
    GiveUp(if tab.authEpoch == epoch then tab.(accessToken := None) else tab, epoch)
  }

  function PublishMint(tab: Tab, env: Env, token: Token, csrf: Option<Context>, wave: Wave, epoch: nat): Out {
    var m := Mint(wave, token, csrf, env.now, BearerExpiryMs(token));
    Out(tab.(accessToken := Some(token), lastAdoption := Some(m), heldMint := Some(m), rotation := Grace(epoch)),
        Some(Marker(wave, csrf, env.now)), Some(m), None, false)
  }

  function ReadBody(tab: Tab, env: Env, token: Token, csrf: Option<Context>, wave: Wave): Out
    requires tab.rotation.Reading?
  {
    var epoch := tab.rotation.epoch;
    if tab.authEpoch != epoch then Quiet(GiveUp(tab, epoch), env)
    else PublishMint(tab, env, token, csrf, wave, epoch)
  }

  // ---- the requests that wait for the rotation ------------------------------

  /** `performApiRequest(path, init, false)`: the one retry. */
  function Resend(r: Request, tab: Tab): Request {
    r.(tokenUsed := tab.accessToken, epochUsed := tab.authEpoch, phase := Sent,
       attempts := r.attempts + 1, resent := Some(tab.accessToken))
  }

  function Resume(r: Request, tab: Tab, rotated: bool): Request {
    if !r.phase.Waiting? then r
    else if rotated then Resend(r, tab)
    else r.(phase := Done)
  }

  function Settle(tab: Tab): Tab
    requires tab.rotation.Returning?
  {
    var rotated := tab.rotation.result;
    tab.(refreshInFlight := false, rotation := Idle, draining := false,
         requests := map i | i in tab.requests :: Resume(tab.requests[i], tab, rotated))
  }

  function FirstSend(tab: Tab): Request {
    Request(tab.account, tab.accessToken, tab.authEpoch, Sent, 1, None)
  }

  /** The 401 recovery block. */
  function Recover(tab: Tab, id: RequestId): Tab
    requires id in tab.requests
  {
    var r := tab.requests[id];
    if r.attempts > 1 || tab.authEpoch != r.epochUsed then tab.(requests := tab.requests[id := r.(phase := Done)])
    else if tab.accessToken.Some? && tab.accessToken != r.tokenUsed then
      tab.(requests := tab.requests[id := Resend(r, tab)])
    else if tab.transitionActive then tab.(requests := tab.requests[id := r.(phase := Done)])
    else RefreshCall(tab.(requests := tab.requests[id := r.(phase := Waiting)]))
  }

  // ---- explicit transitions and logins --------------------------------------------------

  function BeginTransition(tab: Tab): Tab {
    tab.(transitionActive := true, authEpoch := tab.authEpoch + 1, draining := tab.refreshInFlight)
  }

  /** The answer to a login of the tab's own names whom it signed in. */
  function HearAnswer(tab: Tab, cookies: Cookies): Tab {
    if cookies.session.Some? then tab.(answers := tab.answers + {cookies.session.value}) else tab
  }

  function CloseTransition(tab: Tab): Tab {
    tab.(transitionActive := false, lastAdoption := None, heldMint := None)
  }

  /** `recordLogin`: on its own it leaves the mint slots, the marker and the siblings alone. */
  function RecordBareLogin(tab: Tab, token: Token): Tab {
    tab.(accessToken := Some(token), authEpoch := tab.authEpoch + 1,
         account := Some(token.account), answers := tab.answers - {token.account})
  }

  function RecordLogin(tab: Tab, token: Token): Tab {
    RecordBareLogin(CloseTransition(tab), token)
  }

  function RecordLogout(tab: Tab, cookies: Cookies): Tab {
    CloseTransition(tab).(accessToken := None, authEpoch := tab.authEpoch + 1, account := cookies.session)
  }

  function HearReset(tab: Tab): Tab {
    tab.(accessToken := None, authEpoch := tab.authEpoch + 1, lastAdoption := None, heldMint := None)
  }

  // ---- one task ---------------------------------------------------------------

  /** When the tab may run the task, as far as its own state decides. */
  predicate Ready(tab: Tab, ev: Event) {
    match ev
    case LockGranted => tab.rotation.Queued?
    case LockTimedOut => tab.rotation.Queued?
    case ProbeTimedOut => tab.rotation.Probing?
    case PostFailed => tab.rotation.Posting?
    case PostAnswered(_) => tab.rotation.Posting?
    case BodyRead(_, _, _) => tab.rotation.Reading?
    case BodyMalformed => tab.rotation.Reading?
    case GraceOver => tab.rotation.Grace?
    case LockReleased => tab.rotation.Returning? && tab.rotation.locked
    case RefreshSettled => tab.rotation.Returning? && !tab.rotation.locked
    case TransitionBegun => !tab.transitionActive
    case TransitionAnswered(_) => tab.transitionActive && !tab.draining
    case LoginRecorded(token) => tab.transitionActive && !tab.draining && token.account in tab.answers
    case LogoutRecorded => tab.transitionActive && !tab.draining
    case TransitionRefused => tab.transitionActive && !tab.draining
    case LoginAnswered(c) => !tab.transitionActive && c.session.Some?
    case BareLoginRecorded(token) => !tab.transitionActive && token.account in tab.answers
    case RequestSent(id) => id !in tab.requests
    case Unauthorized(id) => id in tab.requests && tab.requests[id].phase.Sent?
    case Answered(id) => id in tab.requests && tab.requests[id].phase.Sent?
    case _ => true
  }

  function Next(tab: Tab, env: Env, ev: Event): Out
    requires Ready(tab, ev)
  {
    match ev
    case RefreshCalled => Quiet(RefreshCall(tab), env)
    case LockGranted => AdoptOrRotate(tab, env)
    case LockTimedOut => Quiet(tab.(rotation := Returning(tab.rotation.epoch, false, false)), env)
    case MintHeard(m) => Quiet(HearMint(tab, env, m), env)
    case ProbeHeard(w) => Quiet(tab, env).(mint := AnswerProbe(tab, env.now, w))
    case ProbeTimedOut => Lead(tab, env, tab.rotation.epoch)
    case PostFailed => Quiet(RotationFailed(tab, tab.rotation.epoch), env)
    case PostAnswered(c) => Quiet(tab.(rotation := Reading(tab.rotation.epoch, tab.rotation.sentAs, c.csrf)), env)
    case BodyRead(token, csrf, wave) => ReadBody(tab, env, token, csrf, wave)
    case BodyMalformed => Quiet(RotationFailed(tab, tab.rotation.epoch), env)
    case GraceOver => Quiet(tab.(rotation := Returning(tab.rotation.epoch, true, true)), env)
    case LockReleased => Quiet(tab.(rotation := tab.rotation.(locked := false)), env)
    case RefreshSettled => Quiet(Settle(tab), env)
    case TransitionBegun => Quiet(BeginTransition(tab), env)
    case TransitionAnswered(c) => Quiet(HearAnswer(tab, c), env)
    case LoginRecorded(token) => Out(RecordLogin(tab, token), None, None, None, true)
    case LogoutRecorded => Out(RecordLogout(tab, env.cookies), None, None, None, true)
    case TransitionRefused => Out(CloseTransition(tab), None, None, None, true)
    case LoginAnswered(c) => Quiet(HearAnswer(tab, c), env)
    case BareLoginRecorded(token) => Quiet(RecordBareLogin(tab, token), env)
    case ResetHeard => Quiet(HearReset(tab), env)
    case DateObserved(offset) => Quiet(tab.(offset := offset), env)
    case RequestSent(id) => Quiet(tab.(requests := tab.requests[id := FirstSend(tab)]), env)
    case Unauthorized(id) => Quiet(Recover(tab, id), env)
    case Answered(id) => Quiet(tab.(requests := tab.requests[id := tab.requests[id].(phase := Done)]), env)
  }
}
