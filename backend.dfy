/**
 * The backend's database as one mutable store. Each mutation handler is a
 * method that runs its guards, then performs its inserts and patches in
 * place; each is proved to leave the store exactly as the corresponding
 * step function of `Tasks` or `Users` says, and to keep the database
 * invariant. Queries are the functions of `Tasks` and `Users` applied to
 * `Snapshot()`.
 */
module Backend {
  import opened Wrappers
  import opened Schema
  import opened Ledger
  import opened RoleGate
  import Tasks
  import Users

  class Store {
    var users: map<UserId, User>
    var profiles: map<UserId, Profile>
    var tasks: seq<Task>
    var ledger: seq<Completion>

    /** The store's tables as one value. */
    function Snapshot(): Db
      reads this
    {
      Db(users, profiles, tasks, ledger)
    }

    ghost predicate Valid()
      reads this
    {
      WellFormed(Snapshot())
    }

    /** A backend with the identity provider's users and empty application tables. */
    constructor (users: map<UserId, User>)
      ensures Valid()
      ensures Snapshot() == Db(users, map[], [], [])
    {
      this.users := users;
      profiles := map[];
      tasks := [];
      ledger := [];
    }

    /** `seedInitialTasks`: inserts the five initial tasks one by one into an empty catalog. */
    method SeedInitialTasks() returns (message: string)
      requires Valid()
      modifies this
      ensures Valid()
      ensures Snapshot() == Tasks.SeedInitialTasks(old(Snapshot())).db
      ensures message == Tasks.SeedInitialTasks(old(Snapshot())).result
    {
      if |tasks| > 0 {
        return Tasks.AlreadySeeded;
      }
      var initial := Tasks.InitialTasks();
      for i := 0 to |initial|
        invariant tasks == initial[..i]
        invariant users == old(users) && profiles == old(profiles) && ledger == old(ledger)
      {
        tasks := tasks + [initial[i]];
      }
      return Tasks.SeededSuccessfully;
    }

    /** `completeTask`: the guards, then one ledger insert and one patch of the caller's points. */
    method CompleteTask(caller: Option<UserId>, taskId: TaskId, now: int, todayStart: int) returns (r: Result<int, Error>)
      requires Valid()
      modifies this
      ensures Valid()
      ensures var out := Tasks.CompleteTask(old(Snapshot()), caller, taskId, now, todayStart);
        Snapshot() == out.db && r == out.result
    {
      if caller.None? {
        return Err(Unauthenticated);
      }
      var userId := caller.value;
      if !(taskId < |tasks| && tasks[taskId].isActive) {
        return Err(TaskUnavailable);
      }
      var task := tasks[taskId];
      if userId !in profiles {
        return Err(ProfileNotFound);
      }
      var profile := profiles[userId];
      match task.taskType {
        case DailySignIn =>
          var latest := LatestRecord(ledger, userId, taskId);
          if latest.Some? && latest.value.completedAt >= todayStart {
            return Err(DailyAlreadyCompleted);
          }
        case CompleteProfile =>
          if HasCompletion(ledger, userId, taskId) {
            return Err(ProfileTaskAlreadyRecorded);
          }
        case UploadResume =>
        case _ =>
          return Err(UnsupportedCompletion(task.taskType));
      }
      CreditKeepsWellFormed(Snapshot(), userId, taskId, now);
      ledger := ledger + [Completion(userId, taskId, now)];
      profiles := profiles[userId := profile.(points := profile.points + task.points)];
      return Ok(task.points);
    }

    /** `internalAwardPointsForTask`: one ledger insert and one points patch, with no de-duplication. */
    method AwardPointsForTask(userId: UserId, event: Tasks.EventType, now: int) returns (r: Tasks.AwardResult)
      requires Valid()
      modifies this
      ensures Valid()
      ensures var out := Tasks.AwardPointsForTask(old(Snapshot()), userId, event, now);
        Snapshot() == out.db && r == out.result
    {
      var found := Tasks.FirstActiveOfType(tasks, event.TaskType());
      if found.None? {
        return Tasks.AwardFailed(Tasks.NoActiveTask);
      }
      var taskId := found.value;
      var task := tasks[taskId];
      if userId !in profiles {
        return Tasks.AwardFailed(Tasks.NoProfile);
      }
      var profile := profiles[userId];
      CreditKeepsWellFormed(Snapshot(), userId, taskId, now);
      ledger := ledger + [Completion(userId, taskId, now)];
      profiles := profiles[userId := profile.(points := profile.points + task.points)];
      return Tasks.Awarded(task.points, task.name);
    }

    /** `createTask`: the admin check, then one insert into the catalog. */
    method CreateTask(caller: Option<UserId>, task: Task) returns (r: Result<TaskId, Error>)
      requires Valid()
      modifies this
      ensures Valid()
      ensures var out := Tasks.CreateTask(old(Snapshot()), caller, task);
        Snapshot() == out.db && r == out.result
    {
      var gate := RequireAdmin(Snapshot(), caller);
      if gate.Err? {
        return Err(gate.error);
      }
      r := Ok(|tasks|);
      tasks := tasks + [task];
    }

    /** `updateTask`: the admin check, then a patch of the supplied fields of one task. */
    method UpdateTask(caller: Option<UserId>, taskId: TaskId, patch: Tasks.TaskPatch) returns (r: Result<(), Error>)
      requires Valid()
      modifies this
      ensures Valid()
      ensures var out := Tasks.UpdateTask(old(Snapshot()), caller, taskId, patch);
        Snapshot() == out.db && r == out.result
    {
      var gate := RequireAdmin(Snapshot(), caller);
      if gate.Err? {
        return Err(gate.error);
      }
      if taskId >= |tasks| {
        return Err(TaskNotFound);
      }
      tasks := tasks[taskId := Tasks.ApplyPatch(tasks[taskId], patch)];
      return Ok(());
    }

    /** `ensureUserProfile`: returns the caller's profile, inserting it on the first call. */
    method EnsureUserProfile(caller: Option<UserId>, role: Option<Role>, referralCode: string) returns (r: Result<Profile, Error>)
      requires Valid()
      modifies this
      ensures Valid()
      ensures var out := Users.EnsureUserProfile(old(Snapshot()), caller, role, referralCode);
        Snapshot() == out.db && r == out.result
    {
      if caller.None? {
        return Err(Unauthenticated);
      }
      var userId := caller.value;
      if userId in profiles {
        return Ok(profiles[userId]);
      }
      var profile := Profile(userId, role.GetOr(Student), 0, Some(referralCode));
      profiles := profiles[userId := profile];
      return Ok(profile);
    }

    /** `adminUpdateUserRole`: the admin check, the target lookup, then a patch of the target's role. */
    method AdminUpdateUserRole(caller: Option<UserId>, target: UserId, newRole: Role) returns (r: Result<string, Error>)
      requires Valid()
      modifies this
      ensures Valid()
      ensures var out := Users.AdminUpdateUserRole(old(Snapshot()), caller, target, newRole);
        Snapshot() == out.db && r == out.result
    {
      var gate := RequireAdmin(Snapshot(), caller);
      if gate.Err? {
        return Err(gate.error);
      }
      if target !in profiles {
        return Err(TargetProfileNotFound);
      }
      var profile := profiles[target];
      profiles := profiles[target := profile.(role := newRole)];
      return Ok("User role updated to " + Users.RoleName(newRole));
    }
  }
}
