/** What every task of one tab keeps: a single rotation coroutine, the drain of
    an explicit transition, the epoch fence, and the bounded retry of a request. */
module TabDiscipline {
  import opened Wrappers
  import opened AuthTypes
  import opened TabCore

  ghost predicate RequestInv(r: Request, tab: Tab) {
    && 1 <= r.attempts <= 2
    && (r.attempts == 2 <==> r.resent.Some?)
    && (r.phase.Waiting? ==> r.attempts == 1 && tab.refreshInFlight)
    && r.epochUsed <= tab.authEpoch
  }

  ghost predicate TabInv(tab: Tab) {
    && (tab.refreshInFlight <==> !tab.rotation.Idle?)
    && (tab.draining <==> tab.transitionActive && tab.refreshInFlight)
    && (!tab.rotation.Idle? ==> tab.rotation.epoch <= tab.authEpoch)
    && (tab.transitionActive && !tab.rotation.Idle? ==> tab.rotation.epoch < tab.authEpoch)
    && forall i :: i in tab.requests ==> RequestInv(tab.requests[i], tab)
  }

  lemma NewTabDisciplined(cookies: Cookies)
    ensures TabInv(NewTab(cookies))
  {}

  lemma TaskKeepsDiscipline(tab: Tab, env: Env, ev: Event)
    requires TabInv(tab) && Ready(tab, ev)
    ensures TabInv(Next(tab, env, ev).tab)
  {
    var after := Next(tab, env, ev).tab;
    forall i | i in after.requests ensures RequestInv(after.requests[i], after) {
      if i in tab.requests {
        assert RequestInv(tab.requests[i], tab);
      }
    }
  }

  // ---- the shortest way out of a coroutine --------------------------------------------

  /** How many more tasks a coroutine needs at the most if everything fails. */
  function Remaining(rotation: Rotation): nat {
    match rotation
    case Idle => 0
    case Returning(_, _, locked) => if locked then 2 else 1
    case Grace(_) => 3
    case Posting(_, _) => 4
    case Reading(_, _, _) => 4
    case Probing(_, _) => 5
    case Queued(_) => 6
  }

  /** The next of those tasks. */
  function Failing(rotation: Rotation): Event
    requires !rotation.Idle?
  {
    match rotation
    case Returning(_, _, locked) => if locked then LockReleased else RefreshSettled
    case Grace(_) => GraceOver
    case Posting(_, _) => PostFailed
    case Reading(_, _, _) => BodyMalformed
    case Probing(_, _) => ProbeTimedOut
    case Queued(_) => LockTimedOut
  }

  lemma FailingMoves(tab: Tab, env: Env)
    requires !tab.rotation.Idle?
    ensures Ready(tab, Failing(tab.rotation))
    ensures var after := Next(tab, env, Failing(tab.rotation)).tab;
      && Remaining(after.rotation) < Remaining(tab.rotation)
      && after.account == tab.account && after.transitionActive == tab.transitionActive
      && after.heldMint == tab.heldMint && after.offset == tab.offset
    ensures !tab.rotation.Probing? ==> Next(tab, env, Failing(tab.rotation)).marker == env.marker
  {}
}
