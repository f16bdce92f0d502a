/** How a live wave comes to be unmarked: a run whose only disturbance is one failed POST,
    and at whose end a tab holds a good bearer of the published wave that the next cold tab
    may rotate away. */
module RotationWitness {
  import opened Wrappers
  import opened AuthTypes
  import opened TabCore
  import opened TabWorld
  import opened OneRotation
  import opened UndisturbedRuns
  import opened RotationExact

  const P: TabId := 1
  const V: TabId := 2
  const X: TabId := 3

  const FIRST := Context(7, 0)
  const SECOND := Context(7, 1)
  const BEARER := Token(7, 0, Some(1_000))
  const MINT := Mint(0, BEARER, Some(SECOND), 0, Some(1_000_000))
  const MARKER := Marker(0, Some(SECOND), 0)

  const OPENED := Cookies(Some(FIRST), Some(7))
  const ROTATED := Cookies(Some(SECOND), Some(7))

  const COLD := NewTab(OPENED)
  const AT_WORK := COLD.(refreshInFlight := true)
  const OWNER := AT_WORK.(accessToken := Some(BEARER), heldMint := Some(MINT), lastAdoption := Some(MINT), rotation := Grace(0))
  const LISTENER := NewTab(ROTATED).(lastAdoption := Some(MINT))
  const ADOPTER := LISTENER.(refreshInFlight := true, accessToken := Some(BEARER), heldMint := Some(MINT),
    rotation := Returning(0, true, true))

  const START := World(0, OPENED, None, None, map[], {}, {}, {}, {}, map[], {}, {}, {})

  /** A run in which everything is prompt and nothing is disturbed but one POST. */
  ghost predicate OneFailure(trace: Trace, w: World) {
    && PromptTrace(trace, 0) && trace.worlds[|trace.actions|] == w
    && forall i :: 0 <= i < |trace.actions| && trace.actions[i] != Task(X, PostFailed) ==>
         Undisturbed(trace.worlds[i], trace.actions[i])
  }

  predicate Plays(w: World, a: Action, after: World) {
    && Enabled(w, a) && Apply(w, a) == after && Prompt(w, a, 0)
    && (a != Task(X, PostFailed) ==> Undisturbed(w, a))
  }

  lemma Played(trace: Trace, w: World, a: Action, after: World) returns (longer: Trace)
    requires OneFailure(trace, w) && Plays(w, a, after)
    ensures OneFailure(longer, after)
  {
    longer := Trace(trace.worlds + [after], trace.actions + [a]);
    forall i: nat | i < |longer.actions| ensures longer.StepAt(i) && Prompt(longer.worlds[i], longer.actions[i], 0) {
      if i < |trace.actions| {
        assert trace.StepAt(i);
      }
    }
  }

  // ---- one tab leads and publishes ----------------------------------------------------------

  function Leading(rotation: Rotation, lock: Option<TabId>, cookies: Cookies): World {
    START.(cookies := cookies, lock := lock, tabs := map[P := AT_WORK.(rotation := rotation)])
  }

  const PUBLISHED := START.(cookies := ROTATED, lock := Some(P), marker := Some(MARKER), tabs := map[P := OWNER],
    mints := {MINT}, published := map[0 := MINT], responses := {(BEARER, Some(SECOND))})

  lemma Opens()
    ensures Plays(START, TabOpened(P), START.(tabs := map[P := COLD]))
    ensures Plays(START.(tabs := map[P := COLD]), Task(P, RefreshCalled), Leading(Queued(0), None, OPENED))
  {}

  lemma Leads()
    ensures Plays(Leading(Queued(0), None, OPENED), Task(P, LockGranted), Leading(Posting(0, Some(7)), Some(P), OPENED))
  {}

  lemma IsAnswered()
    ensures Plays(Leading(Posting(0, Some(7)), Some(P), OPENED), Task(P, PostAnswered(ROTATED)),
                  Leading(Reading(0, Some(7), Some(SECOND)), Some(P), ROTATED))
  {}

  lemma Publishes()
    ensures Plays(Leading(Reading(0, Some(7), Some(SECOND)), Some(P), ROTATED), Task(P, BodyRead(BEARER, Some(SECOND), 0)), PUBLISHED)
  {}

  lemma PublishedRun() returns (trace: Trace)
    ensures OneFailure(trace, PUBLISHED)
  {
    Opens();
    Leads();
    IsAnswered();
    Publishes();
    trace := Trace([START], []);
    trace := Played(trace, START, TabOpened(P), START.(tabs := map[P := COLD]));
    trace := Played(trace, START.(tabs := map[P := COLD]), Task(P, RefreshCalled), Leading(Queued(0), None, OPENED));
    trace := Played(trace, Leading(Queued(0), None, OPENED), Task(P, LockGranted), Leading(Posting(0, Some(7)), Some(P), OPENED));
    trace := Played(trace, Leading(Posting(0, Some(7)), Some(P), OPENED), Task(P, PostAnswered(ROTATED)),
                    Leading(Reading(0, Some(7), Some(SECOND)), Some(P), ROTATED));
    trace := Played(trace, Leading(Reading(0, Some(7), Some(SECOND)), Some(P), ROTATED), Task(P, BodyRead(BEARER, Some(SECOND), 0)),
                    PUBLISHED);
  }

  // ---- another only hears it, and the leader is gone ------------------------------------------

  const HEARD := PUBLISHED.(lock := None, tabs := map[V := LISTENER], closed := {P})

  lemma Hears()
    ensures Plays(PUBLISHED, TabOpened(V), PUBLISHED.(tabs := map[P := OWNER, V := NewTab(ROTATED)]))
    ensures Plays(PUBLISHED.(tabs := map[P := OWNER, V := NewTab(ROTATED)]), Task(V, MintHeard(MINT)),
                  PUBLISHED.(tabs := map[P := OWNER, V := LISTENER]))
  {}

  lemma Goes()
    ensures Plays(PUBLISHED.(tabs := map[P := OWNER, V := LISTENER]), TabClosed(P), HEARD)
  {
    assert map[P := OWNER, V := LISTENER] - {P} == map[V := LISTENER];
  }

  // ---- a cold tab finds no holder, and its own POST fails -------------------------------------

  function Trying(v: Tab, rotation: Rotation, lock: Option<TabId>, marker: Option<Marker>, probes: set<Wave>): World {
    HEARD.(lock := lock, marker := marker, probes := probes,
           tabs := map[V := v, X := NewTab(ROTATED).(refreshInFlight := true, rotation := rotation)])
  }

  lemma Comes()
    ensures Plays(HEARD, TabOpened(X), HEARD.(tabs := map[V := LISTENER, X := NewTab(ROTATED)]))
    ensures Plays(HEARD.(tabs := map[V := LISTENER, X := NewTab(ROTATED)]), Task(X, RefreshCalled),
                  Trying(LISTENER, Queued(0), None, Some(MARKER), {}))
  {}

  lemma Asks()
    ensures Plays(Trying(LISTENER, Queued(0), None, Some(MARKER), {}), Task(X, LockGranted),
                  Trying(LISTENER, Rotation.Probing(0, MARKER), Some(X), Some(MARKER), {0}))
  {}

  lemma GivesUp()
    ensures Plays(Trying(LISTENER, Rotation.Probing(0, MARKER), Some(X), Some(MARKER), {0}), Task(X, ProbeTimedOut),
                  Trying(LISTENER, Posting(0, Some(7)), Some(X), None, {0}))
  {}

  lemma Fails()
    ensures Plays(Trying(LISTENER, Posting(0, Some(7)), Some(X), None, {0}), Task(X, PostFailed),
                  Trying(LISTENER, Returning(0, false, true), Some(X), None, {0}))
  {}

  lemma LetsGo()
    ensures Plays(Trying(LISTENER, Returning(0, false, true), Some(X), None, {0}), Task(X, LockReleased),
                  Trying(LISTENER, Returning(0, false, false), None, None, {0}))
  {}

  // ---- the listener adopts what it heard: held, good, and unmarked -----------------------------

  const UNMARKED := Trying(ADOPTER, Returning(0, false, false), Some(V), None, {0})

  lemma Adopts()
    ensures var called := LISTENER.(refreshInFlight := true, rotation := Queued(0));
      && Plays(Trying(LISTENER, Returning(0, false, false), None, None, {0}), Task(V, RefreshCalled),
               Trying(called, Returning(0, false, false), None, None, {0}))
      && Plays(Trying(called, Returning(0, false, false), None, None, {0}), Task(V, LockGranted), UNMARKED)
  {}

  lemma FailedRun() returns (trace: Trace)
    ensures OneFailure(trace, Trying(LISTENER, Returning(0, false, false), None, None, {0}))
  {
    Hears();
    Goes();
    Comes();
    Asks();
    GivesUp();
    Fails();
    LetsGo();
    trace := PublishedRun();
    trace := Played(trace, PUBLISHED, TabOpened(V), PUBLISHED.(tabs := map[P := OWNER, V := NewTab(ROTATED)]));
    trace := Played(trace, PUBLISHED.(tabs := map[P := OWNER, V := NewTab(ROTATED)]), Task(V, MintHeard(MINT)),
                    PUBLISHED.(tabs := map[P := OWNER, V := LISTENER]));
    trace := Played(trace, PUBLISHED.(tabs := map[P := OWNER, V := LISTENER]), TabClosed(P), HEARD);
    trace := Played(trace, HEARD, TabOpened(X), HEARD.(tabs := map[V := LISTENER, X := NewTab(ROTATED)]));
    trace := Played(trace, HEARD.(tabs := map[V := LISTENER, X := NewTab(ROTATED)]), Task(X, RefreshCalled),
                    Trying(LISTENER, Queued(0), None, Some(MARKER), {}));
    trace := Played(trace, Trying(LISTENER, Queued(0), None, Some(MARKER), {}), Task(X, LockGranted),
                    Trying(LISTENER, Rotation.Probing(0, MARKER), Some(X), Some(MARKER), {0}));
    trace := Played(trace, Trying(LISTENER, Rotation.Probing(0, MARKER), Some(X), Some(MARKER), {0}), Task(X, ProbeTimedOut),
                    Trying(LISTENER, Posting(0, Some(7)), Some(X), None, {0}));
    trace := Played(trace, Trying(LISTENER, Posting(0, Some(7)), Some(X), None, {0}), Task(X, PostFailed),
                    Trying(LISTENER, Returning(0, false, true), Some(X), None, {0}));
    trace := Played(trace, Trying(LISTENER, Returning(0, false, true), Some(X), None, {0}), Task(X, LockReleased),
                    Trying(LISTENER, Returning(0, false, false), None, None, {0}));
  }

  /** After one failed POST the marker no longer names the wave; a sibling that still knows
      its mint adopts it, and then a refresh may be sent over its good bearer. */
  lemma AFailedLeaderUnmarksTheWave() returns (trace: Trace)
    ensures OneFailure(trace, UNMARKED)
    ensures 0 in UNMARKED.published && Holds(UNMARKED, V, 0, 0) && MayRotate(UNMARKED, V, 0, 0)
  {
    Adopts();
    var called := LISTENER.(refreshInFlight := true, rotation := Queued(0));
    trace := FailedRun();
    trace := Played(trace, Trying(LISTENER, Returning(0, false, false), None, None, {0}), Task(V, RefreshCalled),
                    Trying(called, Returning(0, false, false), None, None, {0}));
    trace := Played(trace, Trying(called, Returning(0, false, false), None, None, {0}), Task(V, LockGranted), UNMARKED);
    RotationIsPossibleExactlyWhen(trace, |trace.actions|, V, 0, 0);
  }
}
