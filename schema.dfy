/** Option and Result, used throughout the model. */
module Wrappers {

  datatype Option<+T> = None | Some(value: T) {
    function GetOr(default: T): T {
      match this
      case Some(v) => v
      case None => default
    }
  }

  /** A handler either returns a value or throws an error. */
  datatype Result<+T, +E> = Ok(value: T) | Err(error: E)
}

/**
 * The application tables of the backend: profiles, the task catalog and the
 * completion ledger, plus the identity provider's user records.
 */
module Schema {
  import opened Wrappers

  /** Identifies a document of the identity provider's `users` table. */
  type UserId = nat

  /** A task is identified by its position in the catalog: tasks are only ever appended. */
  type TaskId = nat

  datatype Role = Student | Recruiter | Admin

  datatype TaskType = DailySignIn | ReferPeer | ApplyJob | UploadResume | CompleteProfile

  /** One per user; `points` is the balance the task engine credits. */
  datatype Profile = Profile(userId: UserId, role: Role, points: int, referralCode: Option<string>)

  datatype Task = Task(name: string, description: string, points: int, taskType: TaskType, isActive: bool)

  /** "User `userId` completed task `taskId` at time `completedAt`." */
  datatype Completion = Completion(userId: UserId, taskId: TaskId, completedAt: int)

  /** The part of an identity provider's user record that the backend passes through. */
  datatype User = User(name: Option<string>, email: Option<string>)

  /** Every error a handler of the core can throw. */
  datatype Error =
    | Unauthenticated             // "User not authenticated." / "Not authenticated"
    | TaskUnavailable             // "Task not found or is not active."
    | ProfileNotFound             // "User profile not found."
    | DailyAlreadyCompleted       // "Daily sign-in already completed today."
    | ProfileTaskAlreadyRecorded  // "Profile completion task already recorded."
    | UnsupportedCompletion(taskType: TaskType)  // "Task type ... cannot be completed this way."
    | NotAdmin                    // "Not an admin." / "Not authorized to change roles ..."
    | TargetProfileNotFound       // "Target user profile not found."
    | TaskNotFound                // patching a task id that is not in the catalog

  /** The whole database at one instant. `profiles` is keyed by the owning user. */
  datatype Db = Db(
    users: map<UserId, User>,
    profiles: map<UserId, Profile>,
    tasks: seq<Task>,
    ledger: seq<Completion>)

  /** A handler's effect: the database afterwards and what it returns. */
  datatype Step<+R> = Step(db: Db, result: R)

  /**
   * The database invariant: each profile is filed under its own user, and every
   * ledger record names a task of the catalog and a user that has a profile.
   */
  predicate WellFormed(db: Db) {
    && (forall u :: u in db.profiles ==> db.profiles[u].userId == u)
    && (forall k :: 0 <= k < |db.ledger| ==>
          db.ledger[k].taskId < |db.tasks| && db.ledger[k].userId in db.profiles)
  }

  predicate IsActiveTask(db: Db, taskId: TaskId) {
    taskId < |db.tasks| && db.tasks[taskId].isActive
  }

  /** The database `db` after crediting task `taskId` to user `u` at time `now`. */
  function Credit(db: Db, u: UserId, taskId: TaskId, now: int): (db': Db)
    requires u in db.profiles && taskId < |db.tasks|
    ensures db'.ledger == db.ledger + [Completion(u, taskId, now)]
    ensures db'.profiles.Keys == db.profiles.Keys
    ensures db'.profiles[u].points == db.profiles[u].points + db.tasks[taskId].points
    ensures db'.profiles[u].role == db.profiles[u].role
    ensures db'.profiles[u].referralCode == db.profiles[u].referralCode
    ensures db'.profiles[u].userId == db.profiles[u].userId
    ensures forall v :: v in db.profiles && v != u ==> db'.profiles[v] == db.profiles[v]
    ensures db'.tasks == db.tasks && db'.users == db.users
  {
    var p := db.profiles[u];
    db.(ledger := db.ledger + [Completion(u, taskId, now)],
        profiles := db.profiles[u := p.(points := p.points + db.tasks[taskId].points)])
  }

  /** `Credit` keeps the database invariant. */
  lemma CreditKeepsWellFormed(db: Db, u: UserId, taskId: TaskId, now: int)
    requires WellFormed(db) && u in db.profiles && taskId < |db.tasks|
    ensures WellFormed(Credit(db, u, taskId, now))
  {
    var db' := Credit(db, u, taskId, now);
    forall k | 0 <= k < |db'.ledger|
      ensures db'.ledger[k].taskId < |db'.tasks| && db'.ledger[k].userId in db'.profiles
    {
      if k < |db.ledger| { assert db'.ledger[k] == db.ledger[k]; }
    }
  }
}
