/** The module state of `accessToken.ts` as it is updated in place, one method per
    stretch of code between two awaits.  Each method is proved to be the task of
    the same name on values, so what is proved of the tasks is proved of it. */
module AccessTokenManager {
  import opened Wrappers
  import opened AuthTypes
  import opened TabCore

  /** What the tabs of one origin share: the clock, the cookies, localStorage, and
      the posts on the broadcast channels. */
  class Origin {
    var now: int
    var cookies: Cookies
    var marker: Option<Marker>
    var mints: seq<Mint>
    var probes: seq<Wave>
    var resets: nat

    constructor (cookies: Cookies)
      ensures this.cookies == cookies && marker.None? && mints == [] && probes == [] && resets == 0
    {
      this.now, this.cookies, this.marker := 0, cookies, None;
      this.mints, this.probes, this.resets := [], [], 0;
    }

    ghost function Env(): TabCore.Env
      reads this
    {
      TabCore.Env(now, cookies, marker)
    }

    /** Nothing but what the task leaves behind has changed. */
    twostate predicate Left(out: Out)
      reads this
    {
      && now == old(now) && cookies == old(cookies) && marker == out.marker
      && mints == old(mints) + (if out.mint.Some? then [out.mint.value] else [])
      && probes == old(probes) + (if out.probe.Some? then [out.probe.value] else [])
      && resets == old(resets) + (if out.reset then 1 else 0)
    }
  }

  class Manager {
    var accessToken: Option<Token>
    var refreshInFlight: bool
    var rotation: Rotation
    var transitionActive: bool
    var authEpoch: nat
    var heldMint: Option<Mint>
    var lastAdoption: Option<Mint>
    var offset: int
    var requests: map<RequestId, Request>
    // history, as in `Tab`
    var draining: bool
    var account: Option<Account>
    var answers: set<Account>

    ghost function View(): Tab
      reads this
    {
      Tab(accessToken, refreshInFlight, rotation, transitionActive, draining, authEpoch, heldMint, lastAdoption,
          offset, requests, account, answers)
    }

    constructor (cookies: Cookies)
      ensures View() == NewTab(cookies)
    {
      accessToken, refreshInFlight, rotation := None, false, Idle;
      transitionActive, authEpoch := false, 0;
      heldMint, lastAdoption, offset, requests := None, None, 0, map[];
      draining, account, answers := false, cookies.session, {};
    }

    method RefreshAccessToken()
      modifies this
      ensures View() == RefreshCall(old(View()))
    {
      if transitionActive { return; }
      if !refreshInFlight {
        refreshInFlight := true;
        rotation := Queued(authEpoch);
      }
    }

    /** The lock callback, up to its first await. */
    method AdoptOrRotate(origin: Origin)
      requires rotation.Queued?
      modifies this, origin
      ensures View() == TabCore.AdoptOrRotate(old(View()), old(origin.Env())).tab
      ensures origin.Left(TabCore.AdoptOrRotate(old(View()), old(origin.Env())))
    {
      var epochAtStart := rotation.epoch;
      if authEpoch != epochAtStart || transitionActive {
        rotation := Returning(epochAtStart, false, true);
        return;
      }
      var marker := origin.marker;
      var adopted: Option<Mint> := None;
      if heldMint.Some? && Adoptable(heldMint.value, origin.now, offset, origin.cookies.csrf, marker) {
        adopted := heldMint;
      } else if lastAdoption.Some? && Adoptable(lastAdoption.value, origin.now, offset, origin.cookies.csrf, marker) {
        adopted := lastAdoption;
      }
      if adopted.None? && marker.Some? && marker.value.context == origin.cookies.csrf {
        adopted := ResolveWave(origin, epochAtStart, marker.value);
        if adopted.None? { return; }
      }
      if adopted.Some? {
        accessToken, heldMint := Some(adopted.value.token), adopted;
        rotation := Returning(epochAtStart, true, true);
        return;
      }
      if marker.Some? {
        origin.marker := None;
      }
      rotation := Posting(epochAtStart, origin.cookies.session);
    }

    /** A mint already observed resolves the wave at once; otherwise the resolver is
        armed and the wave is probed. */
    method ResolveWave(origin: Origin, epoch: nat, marker: Marker) returns (already: Option<Mint>)
      modifies this`rotation, origin
      ensures already ==
        if TabCore.AlreadyResolved(old(View()), old(origin.Env()), marker) then old(lastAdoption) else None
      ensures already.Some? ==> rotation == old(rotation) && origin.Left(Quiet(View(), old(origin.Env())))
      ensures already.None? ==>
        rotation == Probing(epoch, marker) && origin.Left(Out(View(), old(origin.marker), None, Some(marker.wave), false))
    {
      if lastAdoption.Some? && ResolvesWave(lastAdoption.value, marker, origin.now, offset) {
        return lastAdoption;
      }
      rotation := Probing(epoch, marker);
      origin.probes := origin.probes + [marker.wave];
      return None;
    }

    /** `feedAdoptionMessage`: the observed slot, then the armed resolver. */
    method FeedAdoptionMessage(origin: Origin, message: Mint)
      modifies this
      ensures View() == HearMint(old(View()), origin.Env(), message)
    {
      lastAdoption := Some(message);
      if rotation.Probing? && ResolvesWave(message, rotation.marker, origin.now, offset) {
        var epochAtStart := rotation.epoch;
        if authEpoch != epochAtStart || transitionActive {
          rotation := Returning(epochAtStart, false, true);
        } else {
          accessToken, heldMint := Some(message.token), Some(message);
          rotation := Returning(epochAtStart, true, true);
        }
      }
    }

    method AnswerProbe(origin: Origin, wave: Wave)
      modifies origin
      ensures origin.Left(Next(View(), old(origin.Env()), ProbeHeard(wave)))
    {
      if heldMint.Some? && heldMint.value.wave == wave && BearerUsable(heldMint.value.expiresAt, origin.now, offset) {
        var answer := heldMint.value;
        if answer.expiresAt.Some? {
          answer := answer.(sentAt := origin.now);
        }
        origin.mints := origin.mints + [answer];
      }
    }

    /** The probe's timer: the wave is declared failed and this tab leads. */
    method WaveDead(origin: Origin)
      requires rotation.Probing?
      modifies this, origin
      ensures View() == Lead(old(View()), old(origin.Env()), old(rotation.epoch)).tab
      ensures origin.Left(Lead(old(View()), old(origin.Env()), old(rotation.epoch)))
    {
      origin.marker := None;
      rotation := Posting(rotation.epoch, origin.cookies.session);
    }

    /** Any failure of the round trip: network, status, or body. */
    method RotationFailed()
      requires rotation.OnTheWire()
      modifies this
      ensures View() == TabCore.RotationFailed(old(View()), old(rotation.epoch))
    {
      if authEpoch == rotation.epoch {
        accessToken := None;
      }
      rotation := Returning(rotation.epoch, false, true);
    }

    /** A good body: remember the token, then publish the wave under the lock. */
    method ReadBody(origin: Origin, token: Token, csrf: Option<Context>, wave: Wave)
      requires rotation.Reading?
      modifies this, origin
      ensures View() == TabCore.ReadBody(old(View()), old(origin.Env()), token, csrf, wave).tab
      ensures origin.Left(TabCore.ReadBody(old(View()), old(origin.Env()), token, csrf, wave))
    {
      if authEpoch != rotation.epoch {
        rotation := Returning(rotation.epoch, false, true);
        return;
      }
      accessToken := Some(token);
      var message := Mint(wave, token, csrf, origin.now, BearerExpiryMs(token));
      lastAdoption, heldMint := Some(message), Some(message);
      origin.marker := Some(Marker(message.wave, message.context, message.sentAt));
      origin.mints := origin.mints + [message];
      rotation := Grace(rotation.epoch);
    }

    /** The refresh promise settles: the slot frees, a waiting begin resolves, and
        the recoveries that awaited it go on. */
    method SettleRefresh()
      requires rotation.Returning? && !rotation.locked
      modifies this
      ensures View() == Settle(old(View()))
    {
      ghost var before := View();
      var rotated := rotation.result;
      refreshInFlight, rotation := false, Idle;
      draining := false;
      requests := map i | i in requests ::
        if !requests[i].phase.Waiting? then requests[i]
        else if rotated then
          requests[i].(tokenUsed := accessToken, epochUsed := authEpoch, phase := Sent,
                       attempts := requests[i].attempts + 1, resent := Some(accessToken))
        else requests[i].(phase := Done);
      assert requests == Settle(before).requests;
    }

    method BeginAuthTransition()
      modifies this
      ensures View() == BeginTransition(old(View()))
    {
      transitionActive := true;
      authEpoch := authEpoch + 1;
      draining := refreshInFlight;
    }

    /** `recordLogin`, which the code, second-factor and invitation logins call outside
        any transition. */
    method RecordLogin(token: Token)
      modifies this`accessToken, this`authEpoch, this`account, this`answers
      ensures View() == RecordBareLogin(old(View()), token)
    {
      accessToken := Some(token);
      authEpoch := authEpoch + 1;
      account, answers := Some(token.account), answers - {token.account};
    }

    /** `endAuthTransition`, `broadcastContextReset` and then `recordLogin`. */
    method FinishLogin(origin: Origin, token: Token)
      modifies this, origin
      ensures View() == TabCore.RecordLogin(old(View()), token)
      ensures origin.Left(Out(View(), None, None, None, true))
    {
      transitionActive := false;
      BroadcastContextReset(origin);
      RecordLogin(token);
    }

    /** `recordLogout`, `endAuthTransition` and then `broadcastContextReset`. */
    method FinishLogout(origin: Origin)
      modifies this, origin
      ensures View() == RecordLogout(old(View()), old(origin.cookies))
      ensures origin.Left(Out(View(), None, None, None, true))
    {
      accessToken := None;
      authEpoch := authEpoch + 1;
      transitionActive := false;
      BroadcastContextReset(origin);
      account := origin.cookies.session;
    }

    method BroadcastContextReset(origin: Origin)
      modifies this`lastAdoption, this`heldMint, origin
      ensures lastAdoption.None? && heldMint.None?
      ensures origin.Left(Out(View(), None, None, None, true))
    {
      lastAdoption, heldMint := None, None;
      origin.marker := None;
      origin.resets := origin.resets + 1;
    }

    /** The reset listener. */
    method OnContextReset()
      modifies this
      ensures View() == HearReset(old(View()))
    {
      accessToken := None;
      authEpoch := authEpoch + 1;
      lastAdoption, heldMint := None, None;
    }

    // ---- `performApiRequest` -----------------------------------------------------

    method SendRequest(id: RequestId)
      requires id !in requests
      modifies this
      ensures View() == old(View()).(requests := old(requests)[id := FirstSend(old(View()))])
    {
      requests := requests[id := Request(account, accessToken, authEpoch, Sent, 1, None)];
    }

    /** The recovery block run by a 401. */
    method OnUnauthorized(id: RequestId)
      requires id in requests && requests[id].phase.Sent?
      modifies this
      ensures View() == Recover(old(View()), id)
    {
      var r := requests[id];
      var allowRefreshRetry := r.attempts <= 1;
      if !allowRefreshRetry || authEpoch != r.epochUsed {
        requests := requests[id := r.(phase := Done)];
        return;
      }
      if accessToken.Some? && accessToken != r.tokenUsed {
        requests := requests[id := r.(tokenUsed := accessToken, epochUsed := authEpoch, phase := Sent,
                                      attempts := r.attempts + 1, resent := Some(accessToken))];
        return;
      }
      if transitionActive {
        requests := requests[id := r.(phase := Done)];
        return;
      }
      requests := requests[id := r.(phase := Waiting)];
      RefreshAccessToken();
    }
  }
}
