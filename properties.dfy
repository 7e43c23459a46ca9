/**
 * Properties of sequences of handler calls: the database invariant, the
 * append-only ledger, the once-per-day and once-ever completion rules, the
 * repeatable completions and awards, and the monotone point balance.
 */
module Properties {
  import opened Wrappers
  import opened Schema
  import opened Ledger
  import opened RoleGate
  import opened Tasks
  import opened Users

  /** One invocation of a mutation handler, with its identity, clock and random inputs. */
  datatype Call =
    | Seed
    | Complete(caller: Option<UserId>, taskId: TaskId, now: int, todayStart: int)
    | Award(userId: UserId, event: EventType, now: int)
    | Create(caller: Option<UserId>, task: Task)
    | Update(caller: Option<UserId>, taskId: TaskId, patch: TaskPatch)
    | EnsureProfile(caller: Option<UserId>, role: Option<Role>, referralCode: string)
    | UpdateRole(caller: Option<UserId>, target: UserId, newRole: Role)

  /** The database after one call, whether the call succeeds or fails. */
  function Apply(db: Db, c: Call): Db {
    match c
    case Seed => SeedInitialTasks(db).db
    case Complete(caller, taskId, now, todayStart) => CompleteTask(db, caller, taskId, now, todayStart).db
    case Award(u, event, now) => AwardPointsForTask(db, u, event, now).db
    case Create(caller, task) => CreateTask(db, caller, task).db
    case Update(caller, taskId, patch) => UpdateTask(db, caller, taskId, patch).db
    case EnsureProfile(caller, role, code) => EnsureUserProfile(db, caller, role, code).db
    case UpdateRole(caller, target, newRole) => AdminUpdateUserRole(db, caller, target, newRole).db
  }

  /** The database after the calls, one after the other. */
  function Run(db: Db, calls: seq<Call>): Db
    decreases |calls|
  {
    if calls == [] then db else Run(Apply(db, calls[0]), calls[1..])
  }

  /** Seeding twice is seeding once: the second call finds the catalog filled and changes nothing. */
  lemma SeedIdempotent(db: Db)
    ensures var first := SeedInitialTasks(db);
      SeedInitialTasks(first.db) == Step(first.db, AlreadySeeded)
  {
  }

  // ------------------------------------------------------------ invariants

  /** Every handler keeps the database invariant. */
  lemma ApplyKeepsWellFormed(db: Db, c: Call)
    requires WellFormed(db)
    ensures WellFormed(Apply(db, c))
  {
    match c
    case Complete(caller, taskId, now, todayStart) =>
      var out := CompleteTask(db, caller, taskId, now, todayStart);
      if out.result.Ok? { CreditKeepsWellFormed(db, caller.value, taskId, now); }
    case Award(u, event, now) =>
      var out := AwardPointsForTask(db, u, event, now);
      if out.result.Awarded? {
        CreditKeepsWellFormed(db, u, FirstActiveOfType(db.tasks, event.TaskType()).value, now);
      }
    case _ =>
  }

  lemma {:induction false} RunKeepsWellFormed(db: Db, calls: seq<Call>)
    requires WellFormed(db)
    ensures WellFormed(Run(db, calls))
    decreases |calls|
  {
    if calls != [] {
      ApplyKeepsWellFormed(db, calls[0]);
      RunKeepsWellFormed(Apply(db, calls[0]), calls[1..]);
    }
  }

  /** Grows-only facts: the ledger is only appended to, and no task or profile disappears. */
  predicate Extends(db: Db, db': Db) {
    && db.ledger <= db'.ledger
    && |db.tasks| <= |db'.tasks|
    && db.profiles.Keys <= db'.profiles.Keys
  }

  lemma ApplyExtends(db: Db, c: Call)
    ensures Extends(db, Apply(db, c))
  {
  }

  lemma {:induction false} RunExtends(db: Db, calls: seq<Call>)
    ensures Extends(db, Run(db, calls))
    decreases |calls|
  {
    if calls != [] {
      ApplyExtends(db, calls[0]);
      RunExtends(Apply(db, calls[0]), calls[1..]);
    }
  }

  // ------------------------------------------------------- completion rules

  /**
   * Two sign-ins against the same start of day succeed at most once between
   * them, and the balance grows by the task's points at most once.
   */
  lemma DailySignInOncePerDay(db: Db, u: UserId, t: TaskId, now1: int, now2: int, todayStart: int)
    requires IsActiveTask(db, t) && db.tasks[t].taskType == DailySignIn && u in db.profiles
    requires todayStart <= now1
    ensures var first := CompleteTask(db, Some(u), t, now1, todayStart);
      var second := CompleteTask(first.db, Some(u), t, now2, todayStart);
      && !(first.result.Ok? && second.result.Ok?)
      && (first.result.Ok? ==> second.result == Err(DailyAlreadyCompleted))
      && second.db.profiles[u].points
           == db.profiles[u].points + (if first.result.Ok? then db.tasks[t].points else 0)
  {
    var first := CompleteTask(db, Some(u), t, now1, todayStart);
    if first.result.Ok? {
      LatestRecordAfterAppend(db.ledger, Completion(u, t, now1), u, t);
    }
  }

  /**
   * Once a user has completed a profile-completion task, every later attempt
   * on it fails, whatever other calls come in between.
   */
  lemma CompleteProfileOnceEver(db: Db, u: UserId, t: TaskId, now: int, todayStart: int,
                                calls: seq<Call>, later: int, laterDayStart: int)
    requires CompleteTask(db, Some(u), t, now, todayStart).result.Ok?
    requires var db' := Run(CompleteTask(db, Some(u), t, now, todayStart).db, calls);
      t < |db'.tasks| && db'.tasks[t].taskType == CompleteProfile
    ensures CompleteTask(Run(CompleteTask(db, Some(u), t, now, todayStart).db, calls), Some(u), t, later, laterDayStart).result.Err?
    ensures var db' := Run(CompleteTask(db, Some(u), t, now, todayStart).db, calls);
      IsActiveTask(db', t) ==>
        CompleteTask(db', Some(u), t, later, laterDayStart).result == Err(ProfileTaskAlreadyRecorded)
  {
    var db1 := CompleteTask(db, Some(u), t, now, todayStart).db;
    assert db1.ledger[|db.ledger|] == Completion(u, t, now);
    assert HasCompletion(db1.ledger, u, t);
    var db2 := Run(db1, calls);
    RunExtends(db1, calls);
    assert db2.ledger == db1.ledger + db2.ledger[|db1.ledger|..];
    HasCompletionExtends(db1.ledger, db2.ledger[|db1.ledger|..], u, t);
  }

  /** Completion records for `u` on `t` at each of the times `nows`, in order. */
  function Records(u: UserId, t: TaskId, nows: seq<int>): (r: seq<Completion>)
    ensures |r| == |nows|
    ensures forall k :: 0 <= k < |r| ==> r[k] == Completion(u, t, nows[k])
  {
    if nows == [] then [] else [Completion(u, t, nows[0])] + Records(u, t, nows[1..])
  }

  /** `completeTask` calls by `u` on `t`, one per time in `nows`. */
  function Completions(u: UserId, t: TaskId, nows: seq<int>, todayStart: int): (calls: seq<Call>)
    ensures |calls| == |nows|
    ensures forall k :: 0 <= k < |calls| ==> calls[k] == Complete(Some(u), t, nows[k], todayStart)
  {
    if nows == [] then [] else [Complete(Some(u), t, nows[0], todayStart)] + Completions(u, t, nows[1..], todayStart)
  }

  /** One resume upload by a user with a profile is one credit. */
  lemma UploadResumeStep(db: Db, u: UserId, t: TaskId, now: int, todayStart: int)
    requires IsActiveTask(db, t) && db.tasks[t].taskType == UploadResume && u in db.profiles
    ensures Apply(db, Complete(Some(u), t, now, todayStart)) == Credit(db, u, t, now)
  {
  }

  /** Running a non-empty call sequence is running its first call, then the rest. */
  lemma RunCons(db: Db, c: Call, calls: seq<Call>)
    ensures Run(db, [c] + calls) == Run(Apply(db, c), calls)
  {
    assert ([c] + calls)[1..] == calls;
  }

  /** Peeling the first record off `Records` and onto the ledger. */
  lemma RecordsCons(ledger: seq<Completion>, u: UserId, t: TaskId, nows: seq<int>)
    requires nows != []
    ensures ledger + Records(u, t, nows) == (ledger + [Completion(u, t, nows[0])]) + Records(u, t, nows[1..])
  {
    assert Records(u, t, nows) == [Completion(u, t, nows[0])] + Records(u, t, nows[1..]);
  }

  lemma MulSucc(n: nat, p: int)
    ensures (n + 1) * p == p + n * p
  {
  }

  /** Resume uploads never block: N calls record N completions and credit N times the points. */
  lemma {:induction false} UploadResumeRepeatable(db: Db, u: UserId, t: TaskId, nows: seq<int>, todayStart: int)
    requires IsActiveTask(db, t) && db.tasks[t].taskType == UploadResume && u in db.profiles
    ensures var db' := Run(db, Completions(u, t, nows, todayStart));
      && db'.ledger == db.ledger + Records(u, t, nows)
      && u in db'.profiles
      && db'.profiles[u].points == db.profiles[u].points + |nows| * db.tasks[t].points
      && db'.tasks == db.tasks
    decreases |nows|
  {
    if nows == [] {
      assert db.ledger + Records(u, t, nows) == db.ledger;
    } else {
      var rest := nows[1..];
      var db1 := Credit(db, u, t, nows[0]);
      UploadResumeStep(db, u, t, nows[0], todayStart);
      RunCons(db, Complete(Some(u), t, nows[0], todayStart), Completions(u, t, rest, todayStart));
      UploadResumeRepeatable(db1, u, t, rest, todayStart);
      RecordsCons(db.ledger, u, t, nows);
      MulSucc(|rest|, db.tasks[t].points);
    }
  }

  /** `internalAwardPointsForTask` calls for `u`, one per time in `nows`. */
  function Awards(u: UserId, event: EventType, nows: seq<int>): (calls: seq<Call>)
    ensures |calls| == |nows|
    ensures forall k :: 0 <= k < |calls| ==> calls[k] == Award(u, event, nows[k])
  {
    if nows == [] then [] else [Award(u, event, nows[0])] + Awards(u, event, nows[1..])
  }

  /** One award to a user with a profile is one credit of the first active task of the event's type. */
  lemma AwardStep(db: Db, u: UserId, event: EventType, t: TaskId, now: int)
    requires FirstActiveOfType(db.tasks, event.TaskType()) == Some(t) && u in db.profiles
    ensures Apply(db, Award(u, event, now)) == Credit(db, u, t, now)
  {
  }

  /**
   * Event-driven awards are not de-duplicated: N awards for an event record N
   * completions of the first active task `t` of its type and credit N times its points.
   */
  lemma {:induction false} AwardsAccumulate(db: Db, u: UserId, event: EventType, t: TaskId, nows: seq<int>)
    requires FirstActiveOfType(db.tasks, event.TaskType()) == Some(t) && u in db.profiles
    ensures var db' := Run(db, Awards(u, event, nows));
      && db'.ledger == db.ledger + Records(u, t, nows)
      && u in db'.profiles
      && db'.profiles[u].points == db.profiles[u].points + |nows| * db.tasks[t].points
      && db'.tasks == db.tasks
    decreases |nows|
  {
    if nows == [] {
      assert db.ledger + Records(u, t, nows) == db.ledger;
    } else {
      var rest := nows[1..];
      var db1 := Credit(db, u, t, nows[0]);
      AwardStep(db, u, event, t, nows[0]);
      RunCons(db, Award(u, event, nows[0]), Awards(u, event, rest));
      AwardsAccumulate(db1, u, event, t, rest);
      RecordsCons(db.ledger, u, t, nows);
      MulSucc(|rest|, db.tasks[t].points);
    }
  }

  // ---------------------------------------------------------------- points

  predicate NonNegativePoints(tasks: seq<Task>) {
    forall i :: 0 <= i < |tasks| ==> tasks[i].points >= 0
  }

  /** A call that can put no negative point value into the catalog. */
  predicate KeepsPointsNonNegative(c: Call) {
    match c
    case Create(_, task) => task.points >= 0
    case Update(_, _, patch) => patch.points.Some? ==> patch.points.value >= 0
    case _ => true
  }

  predicate NoBalanceDecreased(db: Db, db': Db) {
    forall u :: u in db.profiles ==> u in db'.profiles && db'.profiles[u].points >= db.profiles[u].points
  }

  /** While no task is worth negative points, no call lowers any balance. */
  lemma ApplyNeverLowersPoints(db: Db, c: Call)
    requires NonNegativePoints(db.tasks) && KeepsPointsNonNegative(c)
    ensures NoBalanceDecreased(db, Apply(db, c))
    ensures NonNegativePoints(Apply(db, c).tasks)
  {
    match c
    case Update(caller, taskId, patch) =>
      var db' := Apply(db, c);
      forall i | 0 <= i < |db'.tasks| ensures db'.tasks[i].points >= 0 {
        if UpdateTask(db, caller, taskId, patch).result.Ok? && i != taskId {
          assert db'.tasks[i] == db.tasks[i];
        }
      }
    case Create(caller, task) =>
      var db' := Apply(db, c);
      forall i | 0 <= i < |db'.tasks| ensures db'.tasks[i].points >= 0 {
        if i < |db.tasks| { assert db'.tasks[i] == db.tasks[i]; }
      }
    case _ =>
  }

  lemma {:induction false} RunNeverLowersPoints(db: Db, calls: seq<Call>)
    requires NonNegativePoints(db.tasks)
    requires forall k :: 0 <= k < |calls| ==> KeepsPointsNonNegative(calls[k])
    ensures NoBalanceDecreased(db, Run(db, calls))
    decreases |calls|
  {
    if calls != [] {
      ApplyNeverLowersPoints(db, calls[0]);
      var db1 := Apply(db, calls[0]);
      assert forall k :: 0 <= k < |calls[1..]| ==> KeepsPointsNonNegative(calls[1..][k]) by {
        forall k | 0 <= k < |calls[1..]| ensures KeepsPointsNonNegative(calls[1..][k]) {
          assert calls[1..][k] == calls[k + 1];
        }
      }
      RunNeverLowersPoints(db1, calls[1..]);
    }
  }

  // -------------------------------------------------------------- scenario

  /**
   * A new user on a freshly seeded catalog: creating the profile and signing
   * in awards ten points; signing in again the same day fails and keeps ten.
   */
  lemma FreshUserSignsInOncePerDay(db: Db, u: UserId, code: string, now1: int, now2: int, todayStart: int)
    requires WellFormed(db) && db.tasks == InitialTasks() && u !in db.profiles
    requires todayStart <= now1
    ensures var db1 := EnsureUserProfile(db, Some(u), None, code).db;
      var first := CompleteTask(db1, Some(u), 0, now1, todayStart);
      var second := CompleteTask(first.db, Some(u), 0, now2, todayStart);
      && first.result == Ok(10)
      && first.db.profiles[u].points == 10
      && second.result == Err(DailyAlreadyCompleted)
      && second.db.profiles[u].points == 10
  {
    var db1 := EnsureUserProfile(db, Some(u), None, code).db;
    assert !HasCompletion(db1.ledger, u, 0);
    DailySignInOncePerDay(db1, u, 0, now1, now2, todayStart);
  }
}
