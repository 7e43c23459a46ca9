/**
 * The task engine: seeding the catalog, listing active tasks with their
 * completion status, self-service completion, event-driven awards, and the
 * admin operations on the catalog. Each mutation is a function from the
 * database before the call to a `Step`: the database after it and the
 * handler's result. A failing mutation leaves the database as it was.
 */
module Tasks {
  import opened Wrappers
  import opened Schema
  import opened Ledger
  import opened RoleGate

  // ---------------------------------------------------------------- seeding

  const AlreadySeeded := "Tasks already seeded."
  const SeededSuccessfully := "Initial tasks seeded successfully."

  /** The five tasks the seed inserts: every task type once, all active. */
  function InitialTasks(): (r: seq<Task>)
    ensures |r| == 5
    ensures forall i :: 0 <= i < |r| ==> r[i].isActive && r[i].points > 0
    ensures forall i, j :: 0 <= i < j < |r| ==> r[i].taskType != r[j].taskType
    ensures forall tt: TaskType :: r[IndexOfType(tt)].taskType == tt
  {
    var r := [
      Task("Daily Sign-In", "Check in once per day", 10, DailySignIn, true),
      Task("Complete Your Profile", "Fill out all profile fields (education, skills)", 50, CompleteProfile, true),
      Task("Refer a Peer", "Unique referral link generates points on signup", 200, ReferPeer, true),
      Task("Apply for a Job", "Click \U{201C}Apply\U{201D} on a job listing via portal", 5, ApplyJob, true),
      Task("Upload Resume", "Add or update resume PDF/profile document", 20, UploadResume, true)
    ];
    r
  }

  /** Where each task type sits in the seeded catalog. */
  function IndexOfType(tt: TaskType): (i: nat)
    ensures i < 5
  {
    match tt
    case DailySignIn => 0
    case CompleteProfile => 1
    case ReferPeer => 2
    case ApplyJob => 3
    case UploadResume => 4
  }

  /** `seedInitialTasks`: fills an empty catalog, and only an empty one. */
  function SeedInitialTasks(db: Db): (out: Step<string>)
    ensures |db.tasks| > 0 ==> out == Step(db, AlreadySeeded)
    ensures |db.tasks| == 0 ==> out.result == SeededSuccessfully && out.db.tasks == InitialTasks()
    ensures out.db.profiles == db.profiles && out.db.ledger == db.ledger && out.db.users == db.users
    ensures |out.db.tasks| > 0
  {
    if |db.tasks| > 0 then Step(db, AlreadySeeded)
    else Step(db.(tasks := InitialTasks()), SeededSuccessfully)
  }

  // ---------------------------------------------------------------- listing

  datatype CompletionStatus = CompletionStatus(isCompleted: bool, canComplete: bool)

  /** A catalog entry as `listActiveTasks` returns it: the task with its id and two derived flags. */
  datatype TaskView = TaskView(id: TaskId, task: Task, isCompleted: bool, canComplete: bool)

  /**
   * The flags of a task of type `tt`, judged against the caller's latest record
   * for it; `todayStart` is the start of the current local day.
   */
  function Status(tt: TaskType, latest: Option<Completion>, todayStart: int): (s: CompletionStatus)
    ensures tt == DailySignIn ==>
      (s.isCompleted <==> latest.Some? && latest.value.completedAt >= todayStart) && s.canComplete == !s.isCompleted
    ensures tt == CompleteProfile ==> s.isCompleted == latest.Some? && s.canComplete == !s.isCompleted
    ensures tt == UploadResume ==> s.isCompleted == latest.Some? && s.canComplete
    ensures tt == ApplyJob || tt == ReferPeer ==> !s.isCompleted && !s.canComplete
  {
    var doneToday := latest.Some? && tt == DailySignIn && latest.value.completedAt >= todayStart;
    var doneOnce := latest.Some? && (tt == CompleteProfile || tt == UploadResume);
    var isCompleted := doneToday || doneOnce;
    var canComplete :=
      !doneToday && !(doneOnce && tt == CompleteProfile) && !(tt == ApplyJob || tt == ReferPeer);
    CompletionStatus(isCompleted, canComplete)
  }

  /** The ids of the active tasks, in catalog order. */
  function ActiveIds(tasks: seq<Task>): (ids: seq<TaskId>)
    ensures forall k :: 0 <= k < |ids| ==> ids[k] < |tasks| && tasks[ids[k]].isActive
    ensures forall i :: 0 <= i < |tasks| && tasks[i].isActive ==> i in ids
    ensures forall k, l :: 0 <= k < l < |ids| ==> ids[k] < ids[l]
  {
    if |tasks| == 0 then []
    else
      var n := |tasks| - 1;
      ActiveIds(tasks[..n]) + (if tasks[n].isActive then [n] else [])
  }

  function View(db: Db, u: UserId, id: TaskId, todayStart: int): TaskView
    requires id < |db.tasks|
  {
    var task := db.tasks[id];
    var s := Status(task.taskType, LatestRecord(db.ledger, u, id), todayStart);
    TaskView(id, task, s.isCompleted, s.canComplete)
  }

  /**
   * `listActiveTasks`: nothing for an anonymous caller; otherwise exactly the
   * active tasks, in catalog order, each with the caller's flags.
   */
  function ListActiveTasks(db: Db, caller: Option<UserId>, todayStart: int): (r: seq<TaskView>)
    ensures caller.None? ==> r == []
    ensures forall k :: 0 <= k < |r| ==> IsActiveTask(db, r[k].id) && r[k].task == db.tasks[r[k].id]
    ensures caller.Some? ==> forall i :: IsActiveTask(db, i) ==> exists k :: 0 <= k < |r| && r[k].id == i
    ensures forall k, l :: 0 <= k < l < |r| ==> r[k].id < r[l].id
    ensures caller.Some? ==> forall k :: 0 <= k < |r| ==>
      CompletionStatus(r[k].isCompleted, r[k].canComplete)
        == Status(r[k].task.taskType, LatestRecord(db.ledger, caller.value, r[k].id), todayStart)
  {
    match caller
    case None => []
    case Some(u) =>
      var ids := ActiveIds(db.tasks);
      var r := Views(db, u, ids, todayStart);
      assert forall i :: IsActiveTask(db, i) ==> r[IndexIn(ids, i)].id == i;
      r
  }

  /** The caller's view of each task in `ids`. */
  function Views(db: Db, u: UserId, ids: seq<TaskId>, todayStart: int): (r: seq<TaskView>)
    requires forall k :: 0 <= k < |ids| ==> ids[k] < |db.tasks|
    ensures |r| == |ids|
    ensures forall k :: 0 <= k < |ids| ==> r[k] == View(db, u, ids[k], todayStart)
  {
    seq(|ids|, k requires 0 <= k < |ids| => View(db, u, ids[k], todayStart))
  }

  /** The position of `x` in `s`. */
  function IndexIn(s: seq<TaskId>, x: TaskId): (k: nat)
    requires x in s
    ensures k < |s| && s[k] == x
  {
    if s[0] == x then 0 else 1 + IndexIn(s[1..], x)
  }

  // ---------------------------------------------------- self-service completion

  /**
   * Why user `u` may not complete task `t` of type `tt` through `completeTask`
   * now, or None when the completion may go ahead.
   */
  function SelfServiceBlock(tt: TaskType, ledger: seq<Completion>, u: UserId, t: TaskId, todayStart: int): (r: Option<Error>)
    ensures tt == DailySignIn ==>
      (r.Some? <==> LatestRecord(ledger, u, t).Some? && LatestRecord(ledger, u, t).value.completedAt >= todayStart)
    ensures tt == CompleteProfile ==> (r.Some? <==> HasCompletion(ledger, u, t))
    ensures tt == UploadResume ==> r.None?
    ensures tt == ApplyJob || tt == ReferPeer ==> r == Some(UnsupportedCompletion(tt))
    ensures tt == DailySignIn && r.Some? ==> r.value == DailyAlreadyCompleted
    ensures tt == CompleteProfile && r.Some? ==> r.value == ProfileTaskAlreadyRecorded
  {
    match tt
    case DailySignIn =>
      var latest := LatestRecord(ledger, u, t);
      if latest.Some? && latest.value.completedAt >= todayStart then Some(DailyAlreadyCompleted) else None
    case CompleteProfile =>
      if HasCompletion(ledger, u, t) then Some(ProfileTaskAlreadyRecorded) else None
    case UploadResume => None
    case _ => Some(UnsupportedCompletion(tt))
  }

  /**
   * `completeTask`: the guards in the source's order (identity, active task,
   * profile, per-type eligibility); on success one ledger record and a credit
   * of the task's points, and nothing else.
   */
  function CompleteTask(db: Db, caller: Option<UserId>, taskId: TaskId, now: int, todayStart: int): (out: Step<Result<int, Error>>)
    ensures out.result.Err? ==> out.db == db
    ensures out.result == Err(Unauthenticated) <==> caller.None?
    ensures out.result == Err(TaskUnavailable) <==> caller.Some? && !IsActiveTask(db, taskId)
    ensures out.result == Err(ProfileNotFound) <==>
      caller.Some? && IsActiveTask(db, taskId) && caller.value !in db.profiles
    ensures out.result.Ok? <==>
      && caller.Some? && IsActiveTask(db, taskId) && caller.value in db.profiles
      && SelfServiceBlock(db.tasks[taskId].taskType, db.ledger, caller.value, taskId, todayStart).None?
    ensures caller.Some? && IsActiveTask(db, taskId) && caller.value in db.profiles ==>
      var block := SelfServiceBlock(db.tasks[taskId].taskType, db.ledger, caller.value, taskId, todayStart);
      block.Some? ==> out.result == Err(block.value)
    ensures out.result.Ok? ==>
      out.result.value == db.tasks[taskId].points && out.db == Credit(db, caller.value, taskId, now)
  {
    if caller.None? then Step(db, Err(Unauthenticated))
    else if !IsActiveTask(db, taskId) then Step(db, Err(TaskUnavailable))
    else if caller.value !in db.profiles then Step(db, Err(ProfileNotFound))
    else
      var task := db.tasks[taskId];
      match SelfServiceBlock(task.taskType, db.ledger, caller.value, taskId, todayStart)
      case Some(e) => Step(db, Err(e))
      case None => Step(Credit(db, caller.value, taskId, now), Ok(task.points))
  }

  /**
   * The listing and the completion path agree: a listed task shows
   * `canComplete` exactly when `completeTask` would pass its eligibility check.
   */
  lemma ListingAgreesWithCompletion(db: Db, u: UserId, t: TaskId, todayStart: int)
    requires t < |db.tasks|
    ensures View(db, u, t, todayStart).canComplete
      <==> SelfServiceBlock(db.tasks[t].taskType, db.ledger, u, t, todayStart).None?
    ensures View(db, u, t, todayStart).isCompleted && View(db, u, t, todayStart).canComplete
      ==> db.tasks[t].taskType == UploadResume
  {
  }

  // ------------------------------------------------------- event-driven awards

  /** The task types `internalAwardPointsForTask` accepts. */
  datatype EventType = ReferPeerEvent | ApplyJobEvent {
    function TaskType(): TaskType {
      match this
      case ReferPeerEvent => ReferPeer
      case ApplyJobEvent => ApplyJob
    }
  }

  const NoActiveTask := "Task not found or inactive."
  const NoProfile := "User profile not found."

  datatype AwardResult = AwardFailed(message: string) | Awarded(pointsAwarded: int, taskName: string)

  predicate HasActiveOfType(tasks: seq<Task>, tt: TaskType) {
    exists i :: 0 <= i < |tasks| && tasks[i].isActive && tasks[i].taskType == tt
  }

  /** The first active task of type `tt` in catalog order. */
  function FirstActiveOfType(tasks: seq<Task>, tt: TaskType): (r: Option<TaskId>)
    ensures r.Some? ==> r.value < |tasks| && tasks[r.value].isActive && tasks[r.value].taskType == tt
    ensures r.Some? ==> forall i :: 0 <= i < r.value ==> !(tasks[i].isActive && tasks[i].taskType == tt)
    ensures r.None? <==> !HasActiveOfType(tasks, tt)
  {
    if |tasks| == 0 then None
    else
      var n := |tasks| - 1;
      match FirstActiveOfType(tasks[..n], tt)
      case Some(i) => Some(i)
      case None => if tasks[n].isActive && tasks[n].taskType == tt then Some(n) else None
  }

  /**
   * `internalAwardPointsForTask`: credits the first active task of the event's
   * type to `userId`, with no de-duplication; reports failure without
   * changing anything when there is no such task or no profile.
   */
  function AwardPointsForTask(db: Db, userId: UserId, event: EventType, now: int): (out: Step<AwardResult>)
    ensures out.result.AwardFailed? ==> out.db == db
    ensures out.result == AwardFailed(NoActiveTask) <==> !HasActiveOfType(db.tasks, event.TaskType())
    ensures out.result == AwardFailed(NoProfile) <==>
      HasActiveOfType(db.tasks, event.TaskType()) && userId !in db.profiles
    ensures out.result.Awarded? <==> HasActiveOfType(db.tasks, event.TaskType()) && userId in db.profiles
    ensures out.result.Awarded? ==>
      var t := FirstActiveOfType(db.tasks, event.TaskType()).value;
      && out.db == Credit(db, userId, t, now)
      && out.result == Awarded(db.tasks[t].points, db.tasks[t].name)
  {
    match FirstActiveOfType(db.tasks, event.TaskType())
    case None => Step(db, AwardFailed(NoActiveTask))
    case Some(t) =>
      if userId !in db.profiles then Step(db, AwardFailed(NoProfile))
      else Step(Credit(db, userId, t, now), Awarded(db.tasks[t].points, db.tasks[t].name))
  }

  // ------------------------------------------------------ catalog management

  /** `createTask`: an admin appends a task; its id is its catalog position. */
  function CreateTask(db: Db, caller: Option<UserId>, task: Task): (out: Step<Result<TaskId, Error>>)
    ensures out.result.Err? ==> out.db == db
    ensures out.result == Err(Unauthenticated) <==> caller.None?
    ensures out.result == Err(NotAdmin) <==> caller.Some? && !IsAdmin(db, caller.value)
    ensures out.result.Ok? <==> caller.Some? && IsAdmin(db, caller.value)
    ensures out.result.Ok? ==>
      && out.result.value == |db.tasks|
      && out.db.tasks == db.tasks + [task]
      && out.db.tasks[out.result.value] == task
      && out.db.profiles == db.profiles && out.db.ledger == db.ledger && out.db.users == db.users
  {
    match RequireAdmin(db, caller)
    case Err(e) => Step(db, Err(e))
    case Ok(_) => Step(db.(tasks := db.tasks + [task]), Ok(|db.tasks|))
  }

  /** The optional fields of `updateTask`; an absent field is left as it is. */
  datatype TaskPatch = TaskPatch(
    name: Option<string>,
    description: Option<string>,
    points: Option<int>,
    taskType: Option<TaskType>,
    isActive: Option<bool>)

  function ApplyPatch(task: Task, patch: TaskPatch): (r: Task)
    ensures patch.name.Some? ==> r.name == patch.name.value
    ensures patch.name.None? ==> r.name == task.name
    ensures patch.description.Some? ==> r.description == patch.description.value
    ensures patch.description.None? ==> r.description == task.description
    ensures patch.points.Some? ==> r.points == patch.points.value
    ensures patch.points.None? ==> r.points == task.points
    ensures patch.taskType.Some? ==> r.taskType == patch.taskType.value
    ensures patch.taskType.None? ==> r.taskType == task.taskType
    ensures patch.isActive.Some? ==> r.isActive == patch.isActive.value
    ensures patch.isActive.None? ==> r.isActive == task.isActive
  {
    Task(patch.name.GetOr(task.name),
         patch.description.GetOr(task.description),
         patch.points.GetOr(task.points),
         patch.taskType.GetOr(task.taskType),
         patch.isActive.GetOr(task.isActive))
  }

  /** `updateTask`: an admin patches the supplied fields of one task. */
  function UpdateTask(db: Db, caller: Option<UserId>, taskId: TaskId, patch: TaskPatch): (out: Step<Result<(), Error>>)
    ensures out.result.Err? ==> out.db == db
    ensures out.result == Err(Unauthenticated) <==> caller.None?
    ensures out.result == Err(NotAdmin) <==> caller.Some? && !IsAdmin(db, caller.value)
    ensures out.result == Err(TaskNotFound) <==>
      caller.Some? && IsAdmin(db, caller.value) && taskId >= |db.tasks|
    ensures out.result.Ok? <==> caller.Some? && IsAdmin(db, caller.value) && taskId < |db.tasks|
    ensures out.result.Ok? ==>
      && taskId < |db.tasks|
      && |out.db.tasks| == |db.tasks|
      && out.db.tasks[taskId] == ApplyPatch(db.tasks[taskId], patch)
      && (forall i :: 0 <= i < |db.tasks| && i != taskId ==> out.db.tasks[i] == db.tasks[i])
      && out.db.profiles == db.profiles && out.db.ledger == db.ledger && out.db.users == db.users
  {
    match RequireAdmin(db, caller)
    case Err(e) => Step(db, Err(e))
    case Ok(_) =>
      if taskId >= |db.tasks| then Step(db, Err(TaskNotFound))
      else Step(db.(tasks := db.tasks[taskId := ApplyPatch(db.tasks[taskId], patch)]), Ok(()))
  }
}
