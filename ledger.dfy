/**
 * The completion ledger, appended in time order. The `by_user_task` index read
 * in descending order yields the most recent record for a (user, task) pair,
 * which is the last matching entry of the sequence.
 */
module Ledger {
  import opened Wrappers
  import opened Schema

  predicate Matches(c: Completion, u: UserId, t: TaskId) {
    c.userId == u && c.taskId == t
  }

  /** Some record for (u, t) exists: an unordered `.first()` on the index finds one. */
  predicate HasCompletion(ledger: seq<Completion>, u: UserId, t: TaskId) {
    exists k :: 0 <= k < |ledger| && Matches(ledger[k], u, t)
  }

  /** Position of the most recent record for (u, t), if any. */
  function Latest(ledger: seq<Completion>, u: UserId, t: TaskId): (r: Option<nat>)
    ensures r.Some? ==> r.value < |ledger| && Matches(ledger[r.value], u, t)
    ensures r.Some? ==> forall k :: r.value < k < |ledger| ==> !Matches(ledger[k], u, t)
    ensures r.None? <==> !HasCompletion(ledger, u, t)
  {
    if |ledger| == 0 then None
    else if Matches(ledger[|ledger| - 1], u, t) then Some(|ledger| - 1)
    else Latest(ledger[..|ledger| - 1], u, t)
  }

  /** The most recent record for (u, t), if any. */
  function LatestRecord(ledger: seq<Completion>, u: UserId, t: TaskId): (r: Option<Completion>)
    ensures r.Some? <==> HasCompletion(ledger, u, t)
    ensures r.Some? ==> r.value in ledger && Matches(r.value, u, t)
  {
    match Latest(ledger, u, t)
    case None => None
    case Some(k) => Some(ledger[k])
  }

  /** Appending one record makes it the latest for its own pair and leaves every other pair's latest alone. */
  lemma {:induction false} LatestAfterAppend(ledger: seq<Completion>, c: Completion, u: UserId, t: TaskId)
    ensures Latest(ledger + [c], u, t) == if Matches(c, u, t) then Some(|ledger|) else Latest(ledger, u, t)
  {
    assert (ledger + [c])[..|ledger|] == ledger;
  }

  lemma LatestRecordAfterAppend(ledger: seq<Completion>, c: Completion, u: UserId, t: TaskId)
    ensures LatestRecord(ledger + [c], u, t) == if Matches(c, u, t) then Some(c) else LatestRecord(ledger, u, t)
  {
    LatestAfterAppend(ledger, c, u, t);
  }

  /** Records are never removed, so once a pair has a record it keeps having one. */
  lemma HasCompletionExtends(ledger: seq<Completion>, more: seq<Completion>, u: UserId, t: TaskId)
    requires HasCompletion(ledger, u, t)
    ensures HasCompletion(ledger + more, u, t)
  {
    var k :| 0 <= k < |ledger| && Matches(ledger[k], u, t);
    assert (ledger + more)[k] == ledger[k];
  }
}
