/** Concurrent role changes under the last-admin trigger: row locks, the lock-then-count
    of a demotion, commits and aborts in every interleaving
    (`0031_last_admin_trigger.py`). */
module LastAdmin {
  import opened UserTable

  type TxId = nat

  /** Targeted: the target's row is locked.  Locking: the demotion's trigger is locking the
      active administrators it saw, `pending` still to go.  Counted: the count was not
      zero, or the trigger had nothing to check; ready to commit. */
  datatype Phase = Targeted | Locking(pending: set<UserId>) | Counted

  datatype Tx = Tx(target: UserId, role: Role, phase: Phase)

  datatype Db = Db(users: map<UserId, User>, locks: map<UserId, TxId>, txs: map<TxId, Tx>)

  datatype Step =
    | Target(tx: TxId, user: UserId, role: Role)
    | Fire(tx: TxId)
    | LockOne(tx: TxId, user: UserId)
    | Count(tx: TxId)
    | Commit(tx: TxId)
    | Abort(tx: TxId)
    | ChangeStatus(user: UserId, status: Status)

  predicate Demotes(db: Db, x: Tx) {
    x.target in db.users && db.users[x.target].role.ADMIN? && !x.role.ADMIN?
  }

  function Others(db: Db, user: UserId): set<UserId> {
    ActiveAdmins(db.users) - {user}
  }

  predicate Free(db: Db, user: UserId, tx: TxId) {
    user in db.locks ==> db.locks[user] == tx
  }

  predicate Enabled(db: Db, step: Step) {
    match step
    case Target(t, u, _) => t !in db.txs && u in db.users && u !in db.locks
    case Fire(t) => t in db.txs && db.txs[t].phase.Targeted?
    case LockOne(t, u) => t in db.txs && db.txs[t].phase.Locking? && u in db.txs[t].phase.pending && Free(db, u, t)
    case Count(t) => t in db.txs && db.txs[t].phase == Locking({})
    case Commit(t) => t in db.txs && db.txs[t].phase.Counted? && db.txs[t].target in db.users
    case Abort(t) => t in db.txs
    case ChangeStatus(u, _) => u in db.users && u !in db.locks
  }

  function End(db: Db, t: TxId): Db {
    db.(txs := db.txs - {t}, locks := map u | u in db.locks && db.locks[u] != t :: db.locks[u])
  }

  function Apply(db: Db, step: Step): Db
    requires Enabled(db, step)
  {
    match step
    case Target(t, u, role) => db.(txs := db.txs[t := Tx(u, role, Targeted)], locks := db.locks[u := t])
    case Fire(t) =>
      var phase := if Demotes(db, db.txs[t]) then Locking(Others(db, db.txs[t].target)) else Counted;
      db.(txs := db.txs[t := db.txs[t].(phase := phase)])
    case LockOne(t, u) =>
      // A row that no longer matches once its lock was waited for is passed over.
      var phase := Locking(db.txs[t].phase.pending - {u});
      db.(txs := db.txs[t := db.txs[t].(phase := phase)],
          locks := if u in ActiveAdmins(db.users) then db.locks[u := t] else db.locks)
    case Count(t) =>
      if Others(db, db.txs[t].target) == {} then End(db, t)
      else db.(txs := db.txs[t := db.txs[t].(phase := Counted)])
    case Commit(t) =>
      var u := db.txs[t].target;
      End(db.(users := db.users[u := db.users[u].(role := db.txs[t].role)]), t)
    case Abort(t) => End(db, t)
    case ChangeStatus(u, status) => db.(users := db.users[u := db.users[u].(status := status)])
  }

  // ---- what the steps decide ---------------------------------------------------------------

  ghost predicate SomeoneElse(users: map<UserId, User>, user: UserId) {
    exists u :: u in users && u != user && users[u].role == ADMIN && users[u].status == ACTIVE
  }

  /** The transaction is over: it is gone, its locks are free, and nobody else's are. */
  ghost predicate Ended(db: Db, after: Db, t: TxId) {
    && after.txs == db.txs - {t}
    && forall u :: (u in after.locks <==> u in db.locks && db.locks[u] != t)
                && (u in after.locks ==> after.locks[u] == db.locks[u])
  }

  /** The count lets a demotion through exactly when somebody else is an active
      administrator, and otherwise undoes the transaction. */
  lemma CountExactly(db: Db, t: TxId)
    requires Enabled(db, Count(t))
    ensures var after := Apply(db, Count(t));
      && after.users == db.users
      && (SomeoneElse(db.users, db.txs[t].target) ==>
            after.locks == db.locks && after.txs == db.txs[t := Tx(db.txs[t].target, db.txs[t].role, Counted)])
      && (!SomeoneElse(db.users, db.txs[t].target) ==> Ended(db, after, t))
  {
    var target := db.txs[t].target;
    if u :| u in Others(db, target) {
      assert u in db.users && u != target && db.users[u].role == ADMIN && db.users[u].status == ACTIVE;
    } else {
      assert forall u :: u in db.users && u != target && ActiveAdmin(db.users[u]) ==> u in Others(db, target);
    }
  }

  /** Exactly a demotion of an administrator has rows to lock, and they are the active
      administrators beside its target. */
  lemma FireExactly(db: Db, t: TxId)
    requires Enabled(db, Fire(t)) && db.txs[t].target in db.users
    ensures var after, x := Apply(db, Fire(t)), db.txs[t];
      && after.users == db.users && after.locks == db.locks && t in after.txs
      && after.txs == db.txs[t := Tx(x.target, x.role, after.txs[t].phase)]
      && (after.txs[t].phase.Locking? <==> db.users[x.target].role == ADMIN && x.role != ADMIN)
      && (after.txs[t].phase.Locking? ==> forall u :: u in after.txs[t].phase.pending <==>
            u in db.users && u != x.target && db.users[u].role == ADMIN && db.users[u].status == ACTIVE)
      && (after.txs[t].phase.Locking? || after.txs[t].phase.Counted?)
  {}

  /** A commit writes the new role into its target's row, releases what it locked, and
      changes nothing else. */
  lemma CommitExactly(db: Db, t: TxId)
    requires Enabled(db, Commit(t))
    ensures var after, x := Apply(db, Commit(t)), db.txs[t];
      && after.users.Keys == db.users.Keys && Ended(db, after, t)
      && forall u :: u in db.users ==> after.users[u] == User(if u == x.target then x.role else db.users[u].role, db.users[u].status)
  {}

  // ---- the invariant -----------------------------------------------------------------------

  ghost predicate TxInv(db: Db, t: TxId)
    requires t in db.txs
  {
    var x := db.txs[t];
    && x.target in db.users && x.target in db.locks && db.locks[x.target] == t
    && (x.phase.Locking? ==> Demotes(db, x) && x.target !in x.phase.pending)
    && (x.phase.Counted? && Demotes(db, x) ==> Others(db, x.target) != {})
  }

  /** A demotion of an active administrator that took its list of the others. */
  ghost predicate Listing(db: Db, t: TxId) {
    t in db.txs && !db.txs[t].phase.Targeted? && Demotes(db, db.txs[t]) && db.txs[t].target in ActiveAdmins(db.users)
  }

  ghost predicate Waiting(db: Db, t: TxId, u: UserId) {
    t in db.txs && db.txs[t].phase.Locking? && u in db.txs[t].phase.pending
  }

  /** Of two such demotions the later one still has the earlier one's target to lock. */
  ghost predicate PairInv(db: Db, t: TxId, r: TxId) {
    t != r && Listing(db, t) && Listing(db, r) ==> Waiting(db, t, db.txs[r].target) || Waiting(db, r, db.txs[t].target)
  }

  ghost predicate Inv(db: Db) {
    && (forall t :: t in db.txs ==> TxInv(db, t))
    && (forall t: TxId, r: TxId :: PairInv(db, t, r))
  }

  /** The status change leaves every demotion that has counted another active administrator. */
  ghost predicate Spares(db: Db, user: UserId, status: Status) {
    status.ACTIVE? ||
    forall t :: t in db.txs && db.txs[t].phase.Counted? && Demotes(db, db.txs[t]) ==> Others(db, db.txs[t].target) - {user} != {}
  }

  ghost predicate Careful(db: Db, step: Step) {
    step.ChangeStatus? ==> Spares(db, step.user, step.status)
  }

  /** The heart of it: one demotion commits, and another that has already counted still
      has someone left, because the two cannot have counted each other. */
  lemma OthersRemain(db: Db, c: TxId, t: TxId)
    requires Inv(db) && Enabled(db, Commit(c)) && t in db.txs && t != c
    requires db.txs[t].phase.Counted? && Demotes(db, db.txs[t])
    ensures Others(Apply(db, Commit(c)), db.txs[t].target) != {}
  {
    var after := Apply(db, Commit(c));
    var gone := db.txs[c].target;
    assert TxInv(db, t) && TxInv(db, c) && PairInv(db, t, c);
    var a :| a in Others(db, db.txs[t].target);
    if a == gone && Demotes(db, db.txs[c]) {
      var b :| b in Others(db, gone);
      assert b in Others(after, db.txs[t].target);
    } else {
      assert a in Others(after, db.txs[t].target);
    }
  }

  lemma StatusKeepsOthers(db: Db, u: UserId, status: Status, t: TxId)
    requires Inv(db) && Enabled(db, ChangeStatus(u, status)) && Spares(db, u, status)
    requires t in db.txs && db.txs[t].phase.Counted? && Demotes(db, db.txs[t])
    ensures Others(Apply(db, ChangeStatus(u, status)), db.txs[t].target) != {}
  {
    assert TxInv(db, t);
    var left := if status.ACTIVE? then Others(db, db.txs[t].target) else Others(db, db.txs[t].target) - {u};
    var a :| a in left;
    assert a in Others(Apply(db, ChangeStatus(u, status)), db.txs[t].target);
  }

  lemma StepKeeps(db: Db, step: Step)
    requires Inv(db) && Enabled(db, step) && Careful(db, step)
    ensures Inv(Apply(db, step))
  {
    var after := Apply(db, step);
    forall t | t in after.txs ensures TxInv(after, t) {
      if t in db.txs {
        assert TxInv(db, t);
        if db.txs[t].phase.Counted? && Demotes(db, db.txs[t]) {
          if step.Commit? { OthersRemain(db, step.tx, t); }
          if step.ChangeStatus? { StatusKeepsOthers(db, step.user, step.status, t); }
        }
      }
    }
    forall t: TxId, r: TxId ensures PairInv(after, t, r) {
      assert PairInv(db, t, r);
    }
  }

  // ---- whole runs ------------------------------------------------------------------------------

  datatype Trace = Trace(dbs: seq<Db>, steps: seq<Step>) {
    ghost predicate StepAt(i: nat)
      requires |dbs| == |steps| + 1 && i < |steps|
    {
      Enabled(dbs[i], steps[i]) && dbs[i + 1] == Apply(dbs[i], steps[i])
    }

    ghost predicate Valid() {
      && |dbs| == |steps| + 1
      && dbs[0].locks == map[] && dbs[0].txs == map[]
      && forall i: nat :: i < |steps| ==> StepAt(i)
    }

    ghost predicate CarefulUpTo(n: nat)
      requires |dbs| == |steps| + 1 && n <= |steps|
    {
      forall i: nat :: i < n ==> Careful(dbs[i], steps[i])
    }
  }

  lemma {:induction false} Reachable(trace: Trace, i: nat)
    requires trace.Valid() && i <= |trace.steps| && trace.CarefulUpTo(i)
    ensures Inv(trace.dbs[i])
  {
    if i > 0 {
      Reachable(trace, i - 1);
      assert trace.StepAt(i - 1);
      StepKeeps(trace.dbs[i - 1], trace.steps[i - 1]);
    }
  }

  /** No demotion, whatever it raced against, leaves the table without an active
      administrator when it commits. */
  lemma DemotionLeavesAnAdmin(trace: Trace, i: nat)
    requires trace.Valid() && i < |trace.steps| && trace.CarefulUpTo(i)
    requires trace.steps[i].Commit? && trace.steps[i].tx in trace.dbs[i].txs
    requires Demotes(trace.dbs[i], trace.dbs[i].txs[trace.steps[i].tx])
    ensures SomeoneElse(trace.dbs[i + 1].users, trace.dbs[i].txs[trace.steps[i].tx].target)
  {
    Reachable(trace, i);
    assert trace.StepAt(i);
    var db, t := trace.dbs[i], trace.steps[i].tx;
    assert TxInv(db, t);
    var a :| a in Others(db, db.txs[t].target);
    assert trace.dbs[i + 1].users[a] == db.users[a];
  }

  /** While statuses are left alone the table never runs out of active administrators. */
  lemma {:induction false} RoleChangesKeepAnAdmin(trace: Trace, i: nat)
    requires trace.Valid() && i <= |trace.steps| && ActiveAdmins(trace.dbs[0].users) != {}
    requires forall j: nat :: j < i ==> !trace.steps[j].ChangeStatus?
    ensures ActiveAdmins(trace.dbs[i].users) != {}
  {
    if i > 0 {
      RoleChangesKeepAnAdmin(trace, i - 1);
      assert trace.StepAt(i - 1);
      var db, step := trace.dbs[i - 1], trace.steps[i - 1];
      if step.Commit? && Demotes(db, db.txs[step.tx]) {
        DemotionLeavesAnAdmin(trace, i - 1);
        var a :| a in trace.dbs[i].users && ActiveAdmin(trace.dbs[i].users[a]);
        assert a in ActiveAdmins(trace.dbs[i].users);
      } else {
        assert ActiveAdmins(db.users) <= ActiveAdmins(trace.dbs[i].users);
      }
    }
  }

  // ---- what a status change may do to it -------------------------------------------------------

  ghost predicate Orphans(db: Db, step: Step) {
    && step.Commit? && Enabled(db, step) && Demotes(db, db.txs[step.tx])
    && ActiveAdmins(Apply(db, step).users) == {}
  }

  /** The steps can be taken from here, their status changes are careful, and one of their
      demotions leaves nobody. */
  ghost predicate Endangers(db: Db, steps: seq<Step>)
    decreases |steps|
  {
    && steps != [] && Enabled(db, steps[0]) && Careful(db, steps[0])
    && (Orphans(db, steps[0]) || Endangers(Apply(db, steps[0]), steps[1..]))
  }

  lemma {:induction false} NoDanger(db: Db, steps: seq<Step>)
    requires Inv(db)
    ensures !Endangers(db, steps)
    decreases |steps|
  {
    if steps != [] && Enabled(db, steps[0]) && Careful(db, steps[0]) {
      if steps[0].Commit? {
        var t := steps[0].tx;
        assert TxInv(db, t);
        if Demotes(db, db.txs[t]) {
          var a :| a in Others(db, db.txs[t].target);
          assert a in ActiveAdmins(Apply(db, steps[0]).users);
        }
      }
      StepKeeps(db, steps[0]);
      NoDanger(Apply(db, steps[0]), steps[1..]);
    }
  }

  lemma StrandedDemotion(db: Db, u: UserId, status: Status)
    requires Inv(db) && Enabled(db, ChangeStatus(u, status)) && !Spares(db, u, status)
    ensures exists steps: seq<Step> :: Endangers(Apply(db, ChangeStatus(u, status)), steps)
  {
    var after := Apply(db, ChangeStatus(u, status));
    var t :| t in db.txs && db.txs[t].phase.Counted? && Demotes(db, db.txs[t])
          && Others(db, db.txs[t].target) - {u} == {};
    assert TxInv(db, t);
    assert forall a :: a in ActiveAdmins(Apply(after, Commit(t)).users) ==> a in Others(db, db.txs[t].target) - {u};
    assert Endangers(after, [Commit(t)]);
  }

  /** The trigger does not look at status changes, and this is exactly what that costs: a
      deactivation can make some demotion leave nobody if and only if one that has
      already counted found no active administrator but this user. */
  lemma StatusChangeIsSafeExactlyWhen(db: Db, u: UserId, status: Status)
    requires Inv(db) && Enabled(db, ChangeStatus(u, status))
    ensures Spares(db, u, status) <==>
      forall steps: seq<Step> :: !Endangers(Apply(db, ChangeStatus(u, status)), steps)
  {
    var after := Apply(db, ChangeStatus(u, status));
    if Spares(db, u, status) {
      StepKeeps(db, ChangeStatus(u, status));
      forall steps: seq<Step> ensures !Endangers(after, steps) {
        NoDanger(after, steps);
      }
    } else {
      StrandedDemotion(db, u, status);
    }
  }
}
