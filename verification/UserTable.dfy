/** The users table: the last-admin trigger and the role change that fires it, as one
    transaction running alone (`0031_last_admin_trigger.py`, `admin_power_service.py`). */
module UserTable {
  import opened Wrappers

  type UserId = nat

  datatype Role = STUDENT | TEACHER | ADMIN
  datatype Status = PENDING_PHONE | ACTIVE | SUSPENDED | BANNED | PENDING_APPROVAL

  datatype User = User(role: Role, status: Status)

  predicate ActiveAdmin(user: User) {
    user.role.ADMIN? && user.status.ACTIVE?
  }

  function ActiveAdmins(users: map<UserId, User>): set<UserId> {
    set u | u in users && ActiveAdmin(users[u])
  }

  datatype Refusal =
    | OwnRole | TargetNotFound | StudentsKeepTheirRole | OnlyTeacherOrAdmin
    | LastActiveAdmin    // the service's own count
    | CheckViolation     // raised by the trigger

  class Users {
    var rows: map<UserId, User>

    constructor (rows: map<UserId, User>)
      ensures this.rows == rows
    {
      this.rows := rows;
    }

    /** Fired before every update: raise exactly when an administrator is losing the role
        and no other active one is left. */
    method GuardLastActiveAdmin(id: UserId, role: Role) returns (r: Result<(), Refusal>)
      requires id in rows
      ensures r.Failure? <==>
        && rows[id].role == ADMIN && role != ADMIN
        && forall u :: u in rows && u != id ==> rows[u].role != ADMIN || rows[u].status != ACTIVE
      ensures r.Failure? ==> r.error == CheckViolation
    {
      if rows[id].role == ADMIN && role != ADMIN {
        var remaining := |set u | u in rows && rows[u].role == ADMIN && rows[u].status == ACTIVE && u != id|;
        assert (set u | u in rows && rows[u].role == ADMIN && rows[u].status == ACTIVE && u != id)
            == ActiveAdmins(rows) - {id};
        assert forall u :: u in rows && u != id && ActiveAdmin(rows[u]) ==> u in ActiveAdmins(rows) - {id};
        if remaining == 0 {
          return Failure(CheckViolation);
        }
      }
      return Success(());
    }

    /** The teacher-administrator flip.  Run alone, it refuses with the friendly count and
        the trigger has nothing left to object to. */
    method ChangeRole(actor: UserId, id: UserId, role: Role) returns (r: Result<(), Refusal>)
      modifies this
      ensures r.Failure? ==> rows == old(rows)
      ensures r.Success? ==> id in old(rows) && rows == old(rows)[id := old(rows)[id].(role := role)]
      ensures r == Failure(OwnRole) <==> id == actor
      ensures r == Failure(TargetNotFound) <==> id != actor && id !in old(rows)
      ensures r == Failure(StudentsKeepTheirRole) <==> id != actor && id in old(rows) && old(rows)[id].role.STUDENT?
      ensures r == Failure(OnlyTeacherOrAdmin) <==>
        id != actor && id in old(rows) && !old(rows)[id].role.STUDENT? && role.STUDENT?
      ensures r == Failure(LastActiveAdmin) <==>
        && id != actor && id in old(rows) && old(rows)[id].role == ADMIN && role == TEACHER
        && forall u :: u in old(rows) && u != id ==> old(rows)[u].role != ADMIN || old(rows)[u].status != ACTIVE
      ensures r != Failure(CheckViolation)
      ensures ActiveAdmins(old(rows)) != {} ==> ActiveAdmins(rows) != {}
    {
      if id == actor {
        return Failure(OwnRole);
      }
      if id !in rows {
        return Failure(TargetNotFound);
      }
      var oldRole := rows[id].role;
      if oldRole == STUDENT {
        return Failure(StudentsKeepTheirRole);
      }
      if role == STUDENT {
        return Failure(OnlyTeacherOrAdmin);
      }
      if oldRole == role {
        assert rows == rows[id := rows[id].(role := role)];
        return Success(());
      }
      if oldRole == ADMIN && role == TEACHER {
        var others := set u | u in rows && rows[u].role == ADMIN && rows[u].status == ACTIVE && u != id;
        assert others == ActiveAdmins(rows) - {id};
        assert forall u :: u in rows && u != id && ActiveAdmin(rows[u]) ==> u in others;
        if |others| == 0 {
          return Failure(LastActiveAdmin);
        }
      }
      var guarded := GuardLastActiveAdmin(id, role);
      if guarded.Failure? {
        return guarded;
      }
      rows := rows[id := rows[id].(role := role)];
      assert ActiveAdmins(old(rows)) - {id} <= ActiveAdmins(rows);
      return Success(());
    }
  }
}
