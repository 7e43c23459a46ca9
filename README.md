# Points-and-task-completion engine of a gamified job portal

This project models the backend core of a job portal. Students earn points
for completing tasks: a daily sign-in, profile completion, resume upload,
job applications and referrals. Admins manage the task catalog and user roles.

The backend's database has three application tables and one table from the
identity provider:

- **profiles**: one per user, keyed by the owning user. Each holds a role
  (student, recruiter, admin), a point balance and an optional referral code.
- **tasks**: the catalog. Each task has a name, description, points, task
  type and an `isActive` flag. A task's id is its position in the catalog,
  because tasks are only ever appended.
- **userCompletedTasks** (the ledger): an append-only sequence of
  (user, task, completedAt) records. The most recent record for a
  (user, task) pair is the last matching entry.
- **users**: the identity provider's user records. The core only reads them.

Module layout:

- `Schema` (schema.dfy): the entities, the whole database as one value `Db`,
  the database invariant `WellFormed`, and `Credit`, the combined
  "append one record and add the task's points" step.
- `Ledger`: the latest completion for a (user, task) pair.
- `RoleGate`: the admin check.
- `Tasks` (convex/tasks.ts): every handler as a function. A query returns its
  result. A mutation returns a `Step`: the database afterwards plus the
  handler's result.
- `Users` (convex/users.ts): the same, for the profile handlers.
- `Properties`: lemmas about sequences of handler calls (`Run`).
- `Backend.Store`: a class holding the four tables as fields. Each mutation
  handler is an imperative method that runs the guards and then updates the
  fields in place. Each method is proved to produce exactly the state and
  result of its step function and to keep `WellFormed`.

Every handler gets the caller's identity as `Option<UserId>`, standing in for
`getAuthUserId`. Clock readings are parameters: `now` replaces `Date.now()`
and `todayStart` replaces the local midnight that the source computes. The
referral code is a parameter `referralCode`, standing in for the random token.

## Model

| member | source | states |
|---|---|---|
| Schema.Credit | convex/tasks.ts:200-210 | the shared success effect of completeTask and the event award: exactly one record (user, task, now) is appended; the user's points grow by the task's points; role, referral code, all other profiles, the catalog and the users are unchanged |
| Schema.CreditKeepsWellFormed | convex/schema.ts:35-40 | a credit keeps the invariant that every ledger record names a catalog task and a user with a profile |
| Ledger.Latest | convex/tasks.ts:163-169 | the index query in descending order finds the last ledger entry for (user, task); no later entry matches; it finds nothing exactly when no entry matches |
| Ledger.LatestRecord | convex/tasks.ts:86-92 | the latest record exists iff some record for the pair exists, and it is a ledger entry for that pair |
| Ledger.LatestAfterAppend | convex/tasks.ts:201-205 | after an insert, the new record is the latest for its own pair, and every other pair's latest is unchanged |
| Ledger.LatestRecordAfterAppend | convex/tasks.ts:201-205 | the same fact, stated for the latest record itself |
| Ledger.HasCompletionExtends | convex/tasks.ts:177-185 | a pair that has a record keeps having one after further appends |
| RoleGate.RequireAdmin | convex/tasks.ts:291-295 | the gate passes iff the caller is signed in and has an admin profile; otherwise it fails with Unauthenticated (no identity) or NotAdmin |
| Tasks.InitialTasks | convex/tasks.ts:19-55 | the seed holds five tasks, all active with positive points, one per task type and no type twice |
| Tasks.SeedInitialTasks | convex/tasks.ts:13-61 | a non-empty catalog gives "Tasks already seeded." and no change; an empty one becomes exactly the five initial tasks with the success message; profiles and ledger are untouched; the catalog is non-empty afterwards |
| Tasks.Status | convex/tasks.ts:83-119 | the per-type flags: daily sign-in is completed iff the latest record is from today, and can be completed iff not; profile completion is completed iff a record exists, and can be completed iff not; resume upload is completed iff a record exists and can always be completed; job application and referral are neither |
| Tasks.ActiveIds | convex/tasks.ts:74-77 | exactly the ids of the active tasks, in strictly increasing catalog order |
| Tasks.ListActiveTasks | convex/tasks.ts:67-131 | no identity gives the empty list; otherwise each active task appears once, in catalog order, with its catalog entry and the caller's flags from Status |
| Tasks.SelfServiceBlock | convex/tasks.ts:160-197 | completeTask's eligibility table: daily sign-in is blocked iff the latest record is from today, with DailyAlreadyCompleted; profile completion iff any record exists, with ProfileTaskAlreadyRecorded; resume upload never; job application and referral always, with UnsupportedCompletion ("cannot be completed this way") |
| Tasks.CompleteTask | convex/tasks.ts:134-214 | the guards fail in order: no identity, then a task missing or inactive, then no profile, then ineligible, which fails with the eligibility rule's own error; every failure leaves the database unchanged; success happens iff all guards pass, and it returns the task's points after exactly one Credit |
| Tasks.ListingAgreesWithCompletion | convex/tasks.ts:83-197 | a listed task shows canComplete iff completeTask's eligibility check would pass; only a resume upload can be both completed and completable |
| Tasks.FirstActiveOfType | convex/tasks.ts:229-233 | the first active task of the given type in catalog order; no earlier task qualifies; it finds nothing iff no active task of the type exists |
| Tasks.AwardPointsForTask | convex/tasks.ts:217-272 | reports "Task not found or inactive." iff no active task of the event's type exists; reports "User profile not found." iff there is such a task but no profile; succeeds iff there is such a task and a profile; neither failure changes anything; success credits the first such task and returns its points and name |
| Tasks.CreateTask | convex/tasks.ts:276-299 | the call succeeds iff the caller is a signed-in admin; a failure leaves the database unchanged; success appends exactly the given task and returns its new id |
| Tasks.ApplyPatch | convex/tasks.ts:324-325 | each supplied field is overwritten; each absent field keeps its value |
| Tasks.UpdateTask | convex/tasks.ts:302-327 | the call succeeds iff the caller is a signed-in admin and the task exists; a failure leaves the database unchanged; success patches the named task and nothing else |
| Users.GetMyUserProfile | convex/users.ts:7-29 | nothing iff there is no identity or no user record; otherwise the user record and the caller's profile, which is absent iff the caller has none |
| Users.EnsureUserProfile | convex/users.ts:32-73 | no identity fails with no change; an existing profile is returned unchanged with nothing inserted; otherwise a profile is inserted with the caller as owner, 0 points, the requested role or student, and the referral code; no existing profile changes |
| Users.EnsureUserProfileIdempotent | convex/users.ts:52-57 | a second call returns the same profile and changes nothing, whatever role and code it is given |
| Users.AdminUpdateUserRole | convex/users.ts:76-114 | fails with no change if there is no identity, the caller is not an admin, or the target has no profile (checked in that order), and succeeds otherwise; success changes only the target's role, keeps its points and referral code, and reports the new role |
| Users.GetMyReferralCode | convex/users.ts:117-129 | a code iff the caller is signed in, has a profile and that profile has a code; the code is the profile's |
| Users.NewProfileHasReferralCode | convex/users.ts:60-71 | a profile just created by ensureUserProfile gives its referral code back to its owner |
| Properties.SeedIdempotent | convex/tasks.ts:13-17 | seeding a second time reports "Tasks already seeded." and changes nothing |
| Properties.ApplyKeepsWellFormed | convex/schema.ts:6-40 | every mutation handler keeps the database invariant: profiles are filed under their owner, and ledger records name catalog tasks and users with profiles |
| Properties.RunKeepsWellFormed | convex/schema.ts:6-40 | any sequence of handler calls keeps the database invariant |
| Properties.ApplyExtends | convex/tasks.ts:200-210 | no handler removes a ledger record, a task or a profile; the old ledger is a prefix of the new one |
| Properties.RunExtends | convex/tasks.ts:200-210 | the same holds over any sequence of calls |
| Properties.DailySignInOncePerDay | convex/tasks.ts:160-172 | two sign-ins with the same start of day succeed at most once; after a success the second fails with DailyAlreadyCompleted; the balance grows by the task's points at most once |
| Properties.CompleteProfileOnceEver | convex/tasks.ts:173-185 | after a successful profile completion, any later attempt on that task fails, whatever calls come in between, while the task keeps that type; while it is still active the failure is ProfileTaskAlreadyRecorded |
| Properties.UploadResumeStep | convex/tasks.ts:186-191 | one resume upload by a user with a profile is exactly one credit |
| Properties.UploadResumeRepeatable | convex/tasks.ts:186-191 | N resume uploads append N records and credit N times the task's points |
| Properties.AwardStep | convex/tasks.ts:259-270 | one event award is exactly one credit of the first active task of the event's type |
| Properties.AwardsAccumulate | convex/tasks.ts:250-257 | awards are not de-duplicated: N awards append N records and credit N times the task's points |
| Properties.ApplyNeverLowersPoints | convex/tasks.ts:208-210 | while no task is worth negative points, no handler lowers any balance or puts a negative point value into the catalog |
| Properties.RunNeverLowersPoints | convex/tasks.ts:266-268 | the same holds over any sequence of calls that only writes non-negative points |
| Properties.FreshUserSignsInOncePerDay | convex/tasks.ts:160-212 | on the seeded catalog, a new user's first sign-in returns 10 points and a balance of 10; a same-day retry fails and the balance stays 10 |
| Backend.Store.constructor | convex/schema.ts:5-40 | a new store has the given users and empty profiles, catalog and ledger |
| Backend.Store.SeedInitialTasks | convex/tasks.ts:13-61 | the insert loop leaves the store exactly as Tasks.SeedInitialTasks says, and keeps the invariant |
| Backend.Store.CompleteTask | convex/tasks.ts:134-214 | the in-place guards, insert and patch leave the store and result exactly as Tasks.CompleteTask says, and keep the invariant |
| Backend.Store.AwardPointsForTask | convex/tasks.ts:217-272 | in-place insert and patch, matching Tasks.AwardPointsForTask |
| Backend.Store.CreateTask | convex/tasks.ts:276-299 | in-place insert, matching Tasks.CreateTask |
| Backend.Store.UpdateTask | convex/tasks.ts:302-327 | in-place patch, matching Tasks.UpdateTask |
| Backend.Store.EnsureUserProfile | convex/users.ts:32-73 | in-place insert, matching Users.EnsureUserProfile |
| Backend.Store.AdminUpdateUserRole | convex/users.ts:76-114 | in-place patch of the role, matching Users.AdminUpdateUserRole |

## Left out

- Identity, the clock and randomness are inputs. `getAuthUserId` becomes the caller parameter. `Date.now()` becomes `now` and the local midnight becomes `todayStart`. The random referral code becomes `referralCode`. Time-zone arithmetic is not modelled.
- Points are unbounded integers. The source's `v.number()` is a floating-point number; rounding and non-integer points are not modelled.
- Properties.ApplyNeverLowersPoints and Properties.RunNeverLowersPoints: they require non-negative task points, because the source does not check the sign of a task's points when a task is created or updated.
- Duplicate profiles for one user cannot be represented, because profiles are a map keyed by user. So the source's `.unique()` throwing on duplicates is not modelled.
- Tasks.UpdateTask: a patch of a task id that is not in the catalog is modelled as a failure (TaskNotFound) that leaves the catalog unchanged. The platform's own behaviour for such an id is not modelled.
- Thrown errors are the constructors of `Schema.Error`, not message strings. The result messages of seeding, event awards and role changes are kept as strings.
- Document ids and creation times are not modelled. A task's id is its catalog position. A profile is identified by its owner. `ensureUserProfile` returns the profile value it stored.
- User records carry only a name and an email. The identity provider's other fields are passed through by `getMyUserProfile` and are not modelled.
- Concurrency is not modelled: each handler runs as one atomic step.
- Console logging is not modelled.
- The jobs, applications and referrals tables are not modelled. They have no logic in the core.
- Queries have no `Store` counterparts. `Tasks.ListActiveTasks`, `Users.GetMyUserProfile` and `Users.GetMyReferralCode` apply to `Store.Snapshot()`.
