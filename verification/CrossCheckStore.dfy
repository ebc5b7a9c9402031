/** The five operations of the cross-check queue over its two tables, each one transaction. */
module CrossCheckStore {
  import opened Common
  import opened CrossCheckRows
  import opened CrossCheckProtocol

  datatype ClaimedCrossCheck = ClaimedCrossCheck(
    id: CheckId, score: ScoreId, model: string, prompt: string, token: Token, attempts: nat)

  /** The table once the rows below `bound` were visited. */
  ghost function SweptBelow(rows: map<CheckId, Check>, now: int, maxAttempts: nat, locked: set<CheckId>, bound: CheckId)
    : map<CheckId, Check>
  {
    map id | id in rows :: if id < bound && id !in locked then SweepCheck(rows[id], now, maxAttempts) else rows[id]
  }

  lemma {:induction false} SweptNext(rows: map<CheckId, Check>, now: int, maxAttempts: nat, locked: set<CheckId>, id: CheckId)
    ensures var swept := SweptBelow(rows, now, maxAttempts, locked, id);
            && (id in rows ==> swept[id] == rows[id])
            && SweptBelow(rows, now, maxAttempts, locked, id + 1)
               == if id in rows && id !in locked then swept[id := SweepCheck(rows[id], now, maxAttempts)] else swept
  {
  }

  class Store {
    var rows: map<CheckId, Check>
    var scores: map<ScoreId, Score>
    var next: CheckId

    ghost function View(): Tables
      reads this
    {
      Tables(rows, scores, next)
    }

    constructor ()
      ensures View() == INITIAL.t
    {
      rows, scores, next := map[], map[], 0;
    }

    method GreatestId(score: ScoreId) returns (greatest: Option<CheckId>)
      requires forall id :: id in rows ==> id < next
      ensures greatest == Greatest(View(), score)
      ensures if greatest.Some? then IsGreatest(rows, score, greatest.value)
              else forall id :: id in rows ==> rows[id].score != score
    {
      greatest := None;
      for id := 0 to next
        invariant greatest == GreatestBelow(rows, score, id)
      {
        if id in rows && rows[id].score == score {
          greatest := Some(id);
        }
      }
      GreatestIsMax(rows, score, next);
    }

    method EnsureCrossCheck(score: ScoreId, model: string, prompt: string, reasons: seq<Reason>, threshold: real)
      returns (id: CheckId)
      requires forall id :: id in rows ==> id < next
      modifies this
      ensures var before := old(View());
              var found := FindBelow(before.rows, score, model, prompt, before.next);
              && id == (if found.Some? then found.value else before.next)
              && View() == if found.Some? then EnsureExisting(before, found.value, reasons)
                           else EnsureNew(before, score, model, prompt, reasons, threshold)
      ensures id in rows && rows[id].score == score && rows[id].model == model && rows[id].prompt == prompt
      ensures id in old(rows) ==>
                && rows == old(rows)[id := old(rows)[id].(reasons := rows[id].reasons)] && scores == old(scores)
                && rows[id].reasons == MergeReasons(old(rows)[id].reasons, reasons)
      ensures id !in old(rows) ==>
                && rows == old(rows)[id := Check(score, model, prompt, MergeReasons(reasons, reasons), Queued, 0,
                                                 None, None, None, None, None, threshold, None)]
                && (score !in old(scores) ==> scores == old(scores))
                && (score in old(scores) ==>
                      scores == old(scores)[score := Score(old(scores)[score].total, None, false)])
    {
      var previousGreatest := GreatestId(score);
      var found := FindBelow(rows, score, model, prompt, next);
      id := next;
      next := next + 1;
      if found.Some? {
        id := found.value;
      } else {
        rows := rows[id := NewCheck(score, model, prompt, reasons, threshold)];
      }
      var row := rows[id];
      var merged := MergeReasons(row.reasons, reasons);
      if merged != row.reasons {
        rows := rows[id := row.(reasons := merged)];
      }
      if previousGreatest.None? || id > previousGreatest.value {
        if score in scores {
          scores := scores[score := scores[score].(crossEngineDiff := None, suspicious := false)];
        }
      }
    }

    /** `token` is the fresh identifier the claim draws. */
    method ClaimCrossCheck(id: CheckId, now: int, leaseSeconds: nat, maxAttempts: nat, token: Token)
      returns (claimed: Option<ClaimedCrossCheck>)
      modifies this`rows
      ensures claimed.Some? <==> Claimable(old(View()), id, maxAttempts)
      ensures claimed.Some? <==> id in old(rows) && old(rows)[id].state == Queued && old(rows)[id].attempts < maxAttempts
      ensures rows == if claimed.Some? then old(rows)[id := ClaimCheck(old(rows)[id], token, now + leaseSeconds)]
                      else old(rows)
      ensures claimed.Some? ==>
                && rows == old(rows)[id := old(rows)[id].(
                                     state := Running, attempts := old(rows)[id].attempts + 1,
                                     token := Some(token), lease := Some(now + leaseSeconds))]
                && id in rows && Owned(rows[id], token)
                && claimed.value == ClaimedCrossCheck(
                                      id, rows[id].score, rows[id].model, rows[id].prompt, token, rows[id].attempts)
    {
      if id !in rows || rows[id].state != Queued || rows[id].attempts >= maxAttempts {
        return None;
      }
      var row := rows[id].(state := Running, attempts := rows[id].attempts + 1);
      row := row.(token := Some(token), lease := Some(now + leaseSeconds));
      rows := rows[id := row];
      return Some(ClaimedCrossCheck(id, row.score, row.model, row.prompt, token, row.attempts));
    }

    method CompleteCrossCheck(id: CheckId, token: Token, secondary: real, now: int) returns (done: bool)
      requires forall id :: id in rows ==> id < next
      modifies this`rows, this`scores
      ensures done <==> Completable(old(View()), id, token)
      ensures View() == if done then Complete(old(View()), id, secondary, now) else old(View())
      ensures done <==> id in old(rows) && old(rows)[id].state == Running && old(rows)[id].token == Some(token)
                        && old(rows)[id].score in scores
      ensures done ==> id in rows && rows == old(rows)[id := old(rows)[id].(
                                                       state := Completed, secondaryTotal := Some(secondary),
                                                       diff := rows[id].diff, completedAt := Some(now),
                                                       token := None, lease := None)]
      ensures done ==> var total := old(scores)[old(rows)[id].score].total;
                       && rows[id].diff.Some? && rows[id].diff.value >= 0.0
                       && rows[id].diff.value in {total - secondary, secondary - total}
      ensures done ==> forall score :: score in scores ==>
                         score in old(scores) && scores[score].total == old(scores)[score].total
    {
      if id !in rows || rows[id].state != Running || rows[id].token != Some(token) {
        return false;
      }
      var row := rows[id];
      if row.score !in scores {
        return false;
      }
      var score := scores[row.score];
      var diff := Abs(score.total - secondary);
      row := row.(state := Completed, secondaryTotal := Some(secondary), diff := Some(diff));
      row := row.(completedAt := Some(now), token := None, lease := None);
      var greatest := GreatestId(row.score);
      rows := rows[id := row];
      if greatest == Some(id) {
        scores := scores[row.score := score.(crossEngineDiff := Some(diff), suspicious := diff >= row.threshold)];
      }
      return true;
    }

    method FailCrossCheck(id: CheckId, token: Token, code: ErrorCode, maxAttempts: nat) returns (done: bool)
      modifies this`rows
      ensures done <==> id in old(rows) && Owned(old(rows)[id], token)
      ensures rows == if done then old(rows)[id := FailCheck(old(rows)[id], code, maxAttempts)] else old(rows)
      ensures done <==> id in old(rows) && old(rows)[id].state == Running && old(rows)[id].token == Some(token)
      ensures done ==>
                rows == old(rows)[id := old(rows)[id].(
                                  state := if code in {ProviderUnavailable, UsageLedgerUnavailable, DatabaseUnavailable,
                                                       CrossCheckUnexpected} && old(rows)[id].attempts < maxAttempts
                                           then RetryableFailed else TerminalFailed,
                                  error := Some(code), token := None, lease := None)]
    {
      if id !in rows || rows[id].state != Running || rows[id].token != Some(token) {
        return false;
      }
      var row := rows[id];
      var retryable := code in RETRYABLE_CODES && row.attempts < maxAttempts;
      row := row.(state := if retryable then RetryableFailed else TerminalFailed, error := Some(code));
      rows := rows[id := row.(token := None, lease := None)];
      return true;
    }

    method SweepCrossChecks(now: int, maxAttempts: nat, locked: set<CheckId>) returns (requeued: seq<CheckId>)
      requires forall id :: id in rows ==> id < next
      modifies this`rows
      ensures rows == SweepChecks(old(rows), now, maxAttempts, locked)
      ensures requeued == Requeued(old(rows), now, maxAttempts, locked, next)
      ensures rows.Keys == old(rows).Keys
      ensures forall id :: id in old(rows) ==> ResolvedAs(old(rows)[id], rows[id], now, maxAttempts, id in locked)
    {
      requeued := [];
      for id := 0 to next
        invariant rows == SweptBelow(old(rows), now, maxAttempts, locked, id)
        invariant requeued == Requeued(old(rows), now, maxAttempts, locked, id)
      {
        SweptNext(old(rows), now, maxAttempts, locked, id);
        if id in rows && id !in locked && Recoverable(rows[id], now) {
          var row := rows[id];
          if row.attempts >= maxAttempts {
            row := row.(state := TerminalFailed, error := row.error.Or(Some(CrossCheckUnexpected)));
          } else {
            row := row.(state := Queued);
            requeued := requeued + [id];
          }
          rows := rows[id := row.(token := None, lease := None)];
        }
      }
    }
  }

  /**
   What a sweep leaves of one row, in its fields. A failed row, and a running one whose lease ran
   out, is queued again while it has attempts left and given up otherwise, under the error it had
   or `cross_check_unexpected`; any other row and a locked one stay as they are.
   */
  predicate ResolvedAs(row: Check, after: Check, now: int, maxAttempts: nat, locked: bool) {
    if !locked && (row.state == RetryableFailed || (row.state == Running && row.lease.Some? && row.lease.value < now))
    then
      if row.attempts < maxAttempts
      then after == row.(state := Queued, token := None, lease := None)
      else after == row.(state := TerminalFailed, token := None, lease := None,
                         error := if row.error.Some? then row.error else Some(CrossCheckUnexpected))
    else after == row
  }

  // ----- what a sweep reports -----

  /** The requeued ids ascend, and are exactly the recoverable rows with attempts left. */
  lemma {:induction false} RequeuedExactly(
    rows: map<CheckId, Check>, now: int, maxAttempts: nat, locked: set<CheckId>, bound: CheckId, id: CheckId)
    ensures var requeued := Requeued(rows, now, maxAttempts, locked, bound);
            && (id in requeued <==>
                  && id < bound && id in rows && id !in locked && rows[id].attempts < maxAttempts
                  && (|| rows[id].state == RetryableFailed
                      || (rows[id].state == Running && rows[id].lease.Some? && rows[id].lease.value < now)))
            && (forall i, j :: 0 <= i < j < |requeued| ==> requeued[i] < requeued[j])
            && (forall i :: 0 <= i < |requeued| ==> requeued[i] < bound)
  {
    if bound > 0 {
      RequeuedExactly(rows, now, maxAttempts, locked, bound - 1, id);
    }
  }

  /** A sweep that meets no lock leaves nothing to recover. */
  lemma {:induction false} FullSweepSettles(rows: map<CheckId, Check>, now: int, maxAttempts: nat, id: CheckId)
    requires id in rows
    ensures var swept := SweepChecks(rows, now, maxAttempts, {});
            id in swept && !Recoverable(swept[id], now)
            && swept[id].state != RetryableFailed
            && (swept[id].state == Running ==> swept[id] == rows[id]
                                               && (swept[id].lease.Some? ==> swept[id].lease.value >= now))
            && (swept[id] != rows[id] ==> swept[id].token.None? && swept[id].lease.None?)
  {
  }
}
