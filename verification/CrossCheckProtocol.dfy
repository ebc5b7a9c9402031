/**
 The cross-check queue over every sequence of its operations: the lease token fences each
 claim, every row stops after a bounded number of claims, and a score's projected verdict is
 always that of its newest check.
 */
module CrossCheckProtocol {
  import opened Common
  import opened CrossCheckRows

  /** The tables, with the history the fencing claims speak of. */
  datatype State = State(
    t: Tables,
    issued: set<Token>,
    latest: map<CheckId, Token>,
    settled: set<Token>)

  const INITIAL := State(Tables(map[], map[], 0), {}, map[], {})

  datatype Action =
    | AddScore(score: ScoreId, total: real)
    | Ensure(score: ScoreId, model: string, prompt: string, reasons: seq<Reason>, threshold: real)
    | Claim(id: CheckId, token: Token, lease: int)
    | Finish(id: CheckId, token: Token, secondary: real, now: int)
    | Fail(id: CheckId, token: Token, code: ErrorCode)
    | Sweep(now: int, locked: set<CheckId>)

  function FindBelow(rows: map<CheckId, Check>, score: ScoreId, model: string, prompt: string, bound: CheckId)
    : (found: Option<CheckId>)
    ensures found.Some? ==> found.value in rows && SameKey(rows[found.value], score, model, prompt)
    ensures found.None? ==> forall id :: id in rows && id < bound ==> !SameKey(rows[id], score, model, prompt)
  {
    if bound == 0 then None
    else if bound - 1 in rows && SameKey(rows[bound - 1], score, model, prompt) then Some(bound - 1)
    else FindBelow(rows, score, model, prompt, bound - 1)
  }

  /** Does a `complete` or `fail` with this token succeed? */
  predicate Succeeds(s: State, a: Action) {
    || (a.Finish? && Completable(s.t, a.id, a.token))
    || (a.Fail? && a.id in s.t.rows && Owned(s.t.rows[a.id], a.token))
  }

  /** One transaction; None when a constraint refuses it or a token is not fresh. */
  function Step(max: nat, s: State, a: Action): Option<State> {
    match a
    case AddScore(score, total) =>
      if score in s.t.scores then None
      else Some(s.(t := s.t.(scores := s.t.scores[score := Score(total, None, false)])))
    case Ensure(score, model, prompt, reasons, threshold) =>
      if score !in s.t.scores then None
      else
        var found := FindBelow(s.t.rows, score, model, prompt, s.t.next);
        Some(s.(t := if found.Some? then EnsureExisting(s.t, found.value, reasons)
                else EnsureNew(s.t, score, model, prompt, reasons, threshold)))
    case Claim(id, token, lease) =>
      if token in s.issued then None
      else if !Claimable(s.t, id, max) then Some(s)
      else Some(State(
                  s.t.(rows := s.t.rows[id := ClaimCheck(s.t.rows[id], token, lease)]),
                  s.issued + {token}, s.latest[id := token], s.settled))
    case Finish(id, token, secondary, now) =>
      if !Succeeds(s, a) then Some(s)
      else Some(s.(t := Complete(s.t, id, secondary, now), settled := s.settled + {token}))
    case Fail(id, token, code) =>
      if !Succeeds(s, a) then Some(s)
      else Some(s.(t := s.t.(rows := s.t.rows[id := FailCheck(s.t.rows[id], code, max)]), settled := s.settled + {token}))
    case Sweep(now, locked) =>
      Some(s.(t := s.t.(rows := SweepChecks(s.t.rows, now, max, locked))))
  }

  function Run(max: nat, actions: seq<Action>): Option<State> {
    if actions == [] then Some(INITIAL)
    else
      var before := Run(max, actions[..|actions| - 1]);
      if before.None? then None else Step(max, before.value, actions[|actions| - 1])
  }

  // ----- invariants -----

  predicate RowOk(row: Check, max: nat) {
    && (row.state == Running <==> row.token.Some?)
    && (row.token.Some? <==> row.lease.Some?)
    && (row.state in {Queued, RetryableFailed} ==> row.attempts < max || max == 0)
    && row.attempts <= max
    && (row.state == Completed ==> row.diff.Some? && row.completedAt.Some?)
  }

  ghost predicate RowsOk(t: Tables, max: nat) {
    forall id :: id in t.rows ==> id < t.next && t.rows[id].score in t.scores && RowOk(t.rows[id], max)
  }

  /** A running row holds the token of its latest claim, and that token has not settled yet. */
  ghost predicate Fenced(s: State) {
    && (forall id :: id in s.t.rows && s.t.rows[id].token.Some? ==>
                       && id in s.latest && s.latest[id] == s.t.rows[id].token.value
                       && s.latest[id] !in s.settled)
    && (forall id :: id in s.latest ==> s.latest[id] in s.issued)
    && (forall i, j :: i in s.latest && j in s.latest && s.latest[i] == s.latest[j] ==> i == j)
    && s.settled <= s.issued
  }

  /** What the newest check of a score entitles it to show. */
  predicate Projects(t: Tables, score: ScoreId)
    requires score in t.scores
  {
    var shown := t.scores[score];
    var newest := Greatest(t, score);
    if newest.Some? && newest.value in t.rows && t.rows[newest.value].state == Completed
       && t.rows[newest.value].diff.Some?
    then
      var check := t.rows[newest.value];
      shown.crossEngineDiff == check.diff && shown.suspicious == (check.diff.value >= check.threshold)
    else
      shown.crossEngineDiff.None? && !shown.suspicious
  }

  ghost predicate Projected(t: Tables) {
    forall score :: score in t.scores ==> Projects(t, score)
  }

  ghost predicate UniqueKeys(rows: map<CheckId, Check>) {
    forall i, j | i in rows && j in rows :: SameKey(rows[i], rows[j].score, rows[j].model, rows[j].prompt) ==> i == j
  }

  ghost predicate Inv(s: State, max: nat) {
    RowsOk(s.t, max) && Fenced(s) && Projected(s.t) && UniqueKeys(s.t.rows)
  }

  // ----- every operation keeps them -----

  lemma {:induction false} GreatestSame(rows: map<CheckId, Check>, rows': map<CheckId, Check>, score: ScoreId, bound: CheckId)
    requires forall id :: id < bound ==> (id in rows && rows[id].score == score <==> id in rows' && rows'[id].score == score)
    ensures GreatestBelow(rows', score, bound) == GreatestBelow(rows, score, bound)
  {
    if bound > 0 {
      GreatestSame(rows, rows', score, bound - 1);
    }
  }

  lemma {:induction false} GreatestIn(rows: map<CheckId, Check>, score: ScoreId, bound: CheckId)
    ensures var g := GreatestBelow(rows, score, bound);
            g.Some? ==> g.value in rows && g.value < bound && rows[g.value].score == score
  {
    if bound > 0 {
      GreatestIn(rows, score, bound - 1);
    }
  }

  /** A step that leaves every completed row's verdict alone, adds none, and changes no score. */
  lemma {:induction false} ProjectionFrame(t: Tables, t': Tables)
    requires Projected(t) && t'.scores == t.scores && t.rows.Keys == t'.rows.Keys && t.next <= t'.next
    requires forall id :: id in t.rows ==>
                            && id < t.next
                            && t'.rows[id].score == t.rows[id].score
                            && t'.rows[id].threshold == t.rows[id].threshold
                            && t'.rows[id].diff == t.rows[id].diff
                            && (t'.rows[id].state == Completed <==> t.rows[id].state == Completed)
    ensures Projected(t')
  {
    forall score | score in t'.scores ensures Projects(t', score) {
      assert Projects(t, score);
      GreatestSame(t.rows, t'.rows, score, t.next);
      GreatestBeyond(t'.rows, score, t.next, t'.next);
      GreatestIn(t.rows, score, t.next);
    }
  }

  lemma {:induction false} GreatestBeyond(rows: map<CheckId, Check>, score: ScoreId, low: CheckId, high: CheckId)
    requires low <= high && forall id :: id in rows && rows[id].score == score ==> id < low
    ensures GreatestBelow(rows, score, high) == GreatestBelow(rows, score, low)
  {
    if low < high {
      GreatestBeyond(rows, score, low, high - 1);
    }
  }

  /** Rows that keep their identity, and their verdict once it is out. */
  ghost predicate RowsEvolve(rows: map<CheckId, Check>, rows': map<CheckId, Check>) {
    && rows'.Keys == rows.Keys
    && forall id :: id in rows ==>
                      && rows'[id].score == rows[id].score && rows'[id].model == rows[id].model
                      && rows'[id].prompt == rows[id].prompt && rows'[id].threshold == rows[id].threshold
                      && rows'[id].diff == rows[id].diff
                      && (rows'[id].state == Completed <==> rows[id].state == Completed)
  }

  lemma {:induction false} EvolveKeepsTables(t: Tables, t': Tables, max: nat)
    requires RowsOk(t, max) && Projected(t) && UniqueKeys(t.rows)
    requires RowsEvolve(t.rows, t'.rows) && t'.scores == t.scores && t.next <= t'.next
    requires forall id :: id in t'.rows ==> RowOk(t'.rows[id], max)
    ensures RowsOk(t', max) && Projected(t') && UniqueKeys(t'.rows)
  {
    ProjectionFrame(t, t');
  }

  lemma {:induction false} EvolveOne(rows: map<CheckId, Check>, id: CheckId, row: Check, max: nat)
    requires id in rows && RowOk(row, max) && forall i :: i in rows ==> RowOk(rows[i], max)
    requires row.score == rows[id].score && row.model == rows[id].model && row.prompt == rows[id].prompt
    requires row.threshold == rows[id].threshold && row.diff == rows[id].diff
    requires row.state == Completed <==> rows[id].state == Completed
    ensures var rows' := rows[id := row]; RowsEvolve(rows, rows') && forall i :: i in rows' ==> RowOk(rows'[i], max)
  {
  }

  /** An update of one row that keeps its identity and its verdict. */
  lemma {:induction false} UpdateKeepsTables(t: Tables, t': Tables, id: CheckId, row: Check, max: nat)
    requires RowsOk(t, max) && Projected(t) && UniqueKeys(t.rows) && id in t.rows
    requires t'.rows == t.rows[id := row] && t'.scores == t.scores && t.next <= t'.next
    requires RowOk(row, max) && row.score == t.rows[id].score && row.model == t.rows[id].model
    requires row.prompt == t.rows[id].prompt && row.threshold == t.rows[id].threshold && row.diff == t.rows[id].diff
    requires row.state == Completed <==> t.rows[id].state == Completed
    ensures RowsOk(t', max) && Projected(t') && UniqueKeys(t'.rows)
  {
    RowsOkEach(t, max);
    EvolveOne(t.rows, id, row, max);
    EvolveKeepsTables(t, t', max);
  }

  lemma {:induction false} RowsOkEach(t: Tables, max: nat)
    requires RowsOk(t, max)
    ensures forall id :: id in t.rows ==> RowOk(t.rows[id], max)
  {
  }

  lemma {:induction false} EnsureNewProjects(
    t: Tables, max: nat, score: ScoreId, model: string, prompt: string, reasons: seq<Reason>, threshold: real)
    requires RowsOk(t, max) && Projected(t) && score in t.scores
    ensures Projected(EnsureNew(t, score, model, prompt, reasons, threshold))
  {
    var t' := EnsureNew(t, score, model, prompt, reasons, threshold);
    forall other | other in t'.scores ensures Projects(t', other) {
      assert Projects(t, other);
      if other != score {
        GreatestSame(t.rows, t'.rows, other, t.next);
        GreatestIn(t.rows, other, t.next);
      }
    }
  }

  lemma {:induction false} EnsureNewRows(
    t: Tables, max: nat, score: ScoreId, model: string, prompt: string, reasons: seq<Reason>, threshold: real)
    requires RowsOk(t, max) && UniqueKeys(t.rows) && score in t.scores
    requires FindBelow(t.rows, score, model, prompt, t.next).None?
    ensures var t' := EnsureNew(t, score, model, prompt, reasons, threshold); RowsOk(t', max) && UniqueKeys(t'.rows)
  {
  }

  lemma {:induction false} EnsureExistingKeeps(s: State, max: nat, id: CheckId, reasons: seq<Reason>)
    requires Inv(s, max) && id in s.t.rows
    ensures Inv(s.(t := EnsureExisting(s.t, id, reasons)), max)
  {
    var row := s.t.rows[id].(reasons := MergeReasons(s.t.rows[id].reasons, reasons));
    UpdateKeepsTables(s.t, EnsureExisting(s.t, id, reasons), id, row, max);
    FencedSame(s, s.(t := EnsureExisting(s.t, id, reasons)));
  }

  lemma {:induction false} EnsureNewKeeps(
    s: State, max: nat, score: ScoreId, model: string, prompt: string, reasons: seq<Reason>, threshold: real)
    requires Inv(s, max) && score in s.t.scores
    requires FindBelow(s.t.rows, score, model, prompt, s.t.next).None?
    ensures Inv(s.(t := EnsureNew(s.t, score, model, prompt, reasons, threshold)), max)
  {
    EnsureNewProjects(s.t, max, score, model, prompt, reasons, threshold);
    EnsureNewRows(s.t, max, score, model, prompt, reasons, threshold);
    FencedSame(s, s.(t := EnsureNew(s.t, score, model, prompt, reasons, threshold)));
  }

  lemma {:induction false} EnsureKeeps(s: State, max: nat, a: Action, s': State)
    requires Inv(s, max) && a.Ensure? && Step(max, s, a) == Some(s')
    ensures Inv(s', max)
  {
    var found := FindBelow(s.t.rows, a.score, a.model, a.prompt, s.t.next);
    if found.Some? {
      EnsureExistingKeeps(s, max, found.value, a.reasons);
    } else {
      EnsureNewKeeps(s, max, a.score, a.model, a.prompt, a.reasons, a.threshold);
    }
  }

  /** Tokens that only disappear from rows stay fenced. */
  lemma {:induction false} FencedSame(s: State, s': State)
    requires Fenced(s) && s'.issued == s.issued && s'.latest == s.latest && s'.settled == s.settled
    requires forall id :: id in s'.t.rows && s'.t.rows[id].token.Some? ==>
                            id in s.t.rows && s.t.rows[id].token == s'.t.rows[id].token
    ensures Fenced(s')
  {
  }

  /** Settling the token of one row leaves every other row's token unsettled. */
  lemma {:induction false} FencedSettle(s: State, s': State, id: CheckId, token: Token)
    requires Fenced(s) && s'.issued == s.issued && s'.latest == s.latest && s'.settled == s.settled + {token}
    requires id in s.t.rows && s.t.rows[id].token == Some(token)
    requires s'.t.rows.Keys == s.t.rows.Keys && s'.t.rows[id].token.None?
    requires forall i :: i in s.t.rows && i != id ==> s'.t.rows[i] == s.t.rows[i]
    ensures Fenced(s')
  {
  }

  lemma {:induction false} FencedClaim(s: State, max: nat, a: Action, s': State)
    requires Fenced(s) && a.Claim? && Step(max, s, a) == Some(s')
    ensures Fenced(s')
  {
  }

  lemma {:induction false} ClaimKeeps(s: State, max: nat, a: Action, s': State)
    requires Inv(s, max) && a.Claim? && Step(max, s, a) == Some(s')
    ensures Inv(s', max)
  {
    FencedClaim(s, max, a, s');
    if Claimable(s.t, a.id, max) {
      UpdateKeepsTables(s.t, s'.t, a.id, ClaimCheck(s.t.rows[a.id], a.token, a.lease), max);
    }
  }

  lemma {:induction false} FailKeeps(s: State, max: nat, a: Action, s': State)
    requires Inv(s, max) && a.Fail? && Step(max, s, a) == Some(s')
    ensures Inv(s', max)
  {
    if Succeeds(s, a) {
      UpdateKeepsTables(s.t, s'.t, a.id, FailCheck(s.t.rows[a.id], a.code, max), max);
      FencedSettle(s, s', a.id, a.token);
    }
  }

  lemma {:induction false} SweptRowsEvolve(rows: map<CheckId, Check>, now: int, max: nat, locked: set<CheckId>)
    requires forall id :: id in rows ==> RowOk(rows[id], max)
    ensures var rows' := SweepChecks(rows, now, max, locked);
            RowsEvolve(rows, rows') && forall id :: id in rows' ==> RowOk(rows'[id], max)
  {
  }

  lemma {:induction false} SweepKeeps(s: State, max: nat, a: Action, s': State)
    requires Inv(s, max) && a.Sweep? && Step(max, s, a) == Some(s')
    ensures Inv(s', max)
  {
    RowsOkEach(s.t, max);
    SweptRowsEvolve(s.t.rows, a.now, max, a.locked);
    EvolveKeepsTables(s.t, s'.t, max);
    FencedSame(s, s');
  }

  /** Completing the newest check shows its verdict; completing a superseded one shows nothing. */
  lemma {:induction false} CompleteProjects(t: Tables, max: nat, id: CheckId, secondary: real, now: int)
    requires RowsOk(t, max) && Projected(t) && id in t.rows && t.rows[id].state == Running
    ensures Projected(Complete(t, id, secondary, now))
  {
    var t' := Complete(t, id, secondary, now);
    forall score | score in t'.scores ensures Projects(t', score) {
      assert Projects(t, score);
      GreatestSame(t.rows, t'.rows, score, t.next);
      GreatestIn(t.rows, score, t.next);
    }
  }

  lemma {:induction false} CompleteRows(t: Tables, max: nat, id: CheckId, secondary: real, now: int)
    requires RowsOk(t, max) && UniqueKeys(t.rows) && id in t.rows && t.rows[id].state == Running
    ensures var t' := Complete(t, id, secondary, now); RowsOk(t', max) && UniqueKeys(t'.rows)
  {
  }

  lemma {:induction false} FinishKeeps(s: State, max: nat, a: Action, s': State)
    requires Inv(s, max) && a.Finish? && Step(max, s, a) == Some(s')
    ensures Inv(s', max)
  {
    if Succeeds(s, a) {
      CompleteProjects(s.t, max, a.id, a.secondary, a.now);
      CompleteRows(s.t, max, a.id, a.secondary, a.now);
      FencedSettle(s, s', a.id, a.token);
    }
  }

  lemma {:induction false} AddScoreKeeps(s: State, max: nat, a: Action, s': State)
    requires Inv(s, max) && a.AddScore? && Step(max, s, a) == Some(s')
    ensures Inv(s', max)
  {
    forall score | score in s'.t.scores ensures Projects(s'.t, score) {
      GreatestIn(s.t.rows, score, s.t.next);
      if score != a.score {
        assert Projects(s.t, score);
      }
    }
  }

  lemma {:induction false} StepKeeps(s: State, max: nat, a: Action, s': State)
    requires Inv(s, max) && Step(max, s, a) == Some(s')
    ensures Inv(s', max)
  {
    match a
    case AddScore(_, _) => AddScoreKeeps(s, max, a, s');
    case Ensure(_, _, _, _, _) => EnsureKeeps(s, max, a, s');
    case Claim(_, _, _) => ClaimKeeps(s, max, a, s');
    case Finish(_, _, _, _) => FinishKeeps(s, max, a, s');
    case Fail(_, _, _) => FailKeeps(s, max, a, s');
    case Sweep(_, _) => SweepKeeps(s, max, a, s');
  }

  /** Projection agreement and fencing hold after any sequence of operations. */
  lemma {:induction false} RunKeeps(max: nat, actions: seq<Action>, s: State)
    requires Run(max, actions) == Some(s)
    ensures Inv(s, max)
  {
    if actions != [] {
      var before := Run(max, actions[..|actions| - 1]).value;
      RunKeeps(max, actions[..|actions| - 1], before);
      StepKeeps(before, max, actions[|actions| - 1], s);
    }
  }

  /** In terms of the rows themselves: the newest check alone decides what a score shows. */
  lemma {:induction false} VerdictOfNewest(max: nat, actions: seq<Action>, s: State, score: ScoreId, newest: CheckId)
    requires Run(max, actions) == Some(s) && score in s.t.scores
    requires IsGreatest(s.t.rows, score, newest)
    ensures var shown, check := s.t.scores[score], s.t.rows[newest];
            if check.state == Completed
            then check.diff.Some? && shown.crossEngineDiff == check.diff
                 && shown.suspicious == (check.diff.value >= check.threshold)
            else shown.crossEngineDiff.None? && !shown.suspicious
  {
    RunKeeps(max, actions, s);
    GreatestIsMax(s.t.rows, score, s.t.next);
    assert Projects(s.t, score);
  }

  // ----- what a verdict is -----

  /** `diff` is how far the two totals lie apart. */
  predicate Apart(diff: real, total: real, secondary: real) {
    diff >= 0.0 && (diff == total - secondary || diff == secondary - total)
  }

  /** A completed row holds the other engine's total and how far it lies from its score's; no other row holds either. */
  predicate DifferenceOk(t: Tables, row: Check) {
    if row.state == Completed
    then row.score in t.scores && row.secondaryTotal.Some? && row.diff.Some?
         && Apart(row.diff.value, t.scores[row.score].total, row.secondaryTotal.value)
    else row.secondaryTotal.None? && row.diff.None? && row.completedAt.None?
  }

  ghost predicate Differences(t: Tables) {
    forall id :: id in t.rows ==> DifferenceOk(t, t.rows[id])
  }

  /** A total is never rewritten. */
  ghost predicate TotalsStay(t: Tables, t': Tables) {
    forall score :: score in t.scores ==> score in t'.scores && t'.scores[score].total == t.scores[score].total
  }

  lemma {:induction false} StepKeepsTotals(max: nat, s: State, a: Action, s': State)
    requires Step(max, s, a) == Some(s')
    ensures TotalsStay(s.t, s'.t)
  {
  }

  lemma {:induction false} FinishDiffers(max: nat, s: State, a: Action, s': State, id: CheckId)
    requires Differences(s.t) && a.Finish? && Step(max, s, a) == Some(s') && id in s'.t.rows
    ensures DifferenceOk(s'.t, s'.t.rows[id])
  {
    StepKeepsTotals(max, s, a, s');
    assert id in s.t.rows && DifferenceOk(s.t, s.t.rows[id]);
  }

  lemma {:induction false} OtherDiffers(max: nat, s: State, a: Action, s': State, id: CheckId)
    requires Differences(s.t) && !a.Finish? && Step(max, s, a) == Some(s') && id in s'.t.rows
    ensures DifferenceOk(s'.t, s'.t.rows[id])
  {
    StepKeepsTotals(max, s, a, s');
    if id in s.t.rows {
      assert DifferenceOk(s.t, s.t.rows[id]);
    }
  }

  /** After any sequence of operations, each recorded difference is the distance between the two totals. */
  lemma {:induction false} RecordedDifference(max: nat, actions: seq<Action>, s: State)
    requires Run(max, actions) == Some(s)
    ensures Differences(s.t)
  {
    if actions != [] {
      var before := Run(max, actions[..|actions| - 1]).value;
      RecordedDifference(max, actions[..|actions| - 1], before);
      forall id | id in s.t.rows ensures DifferenceOk(s.t, s.t.rows[id]) {
        if actions[|actions| - 1].Finish? {
          FinishDiffers(max, before, actions[|actions| - 1], s, id);
        } else {
          OtherDiffers(max, before, actions[|actions| - 1], s, id);
        }
      }
    }
  }

  /**
   The verdict in terms of what went in: once the newest check of a score is complete, the score
   shows a difference of its own total and the other engine's, not negative, and is suspicious
   exactly when either exceeds the other by the threshold or more.
   */
  lemma {:induction false} VerdictOnInputs(max: nat, actions: seq<Action>, s: State, score: ScoreId, newest: CheckId)
    requires Run(max, actions) == Some(s) && score in s.t.scores
    requires IsGreatest(s.t.rows, score, newest) && s.t.rows[newest].state == Completed
    ensures var shown, check := s.t.scores[score], s.t.rows[newest];
            && check.secondaryTotal.Some? && shown.crossEngineDiff.Some? && shown.crossEngineDiff.value >= 0.0
            && var secondary := check.secondaryTotal.value;
            && shown.crossEngineDiff.value in {shown.total - secondary, secondary - shown.total}
            && (shown.suspicious <==> shown.total - secondary >= check.threshold || secondary - shown.total >= check.threshold)
  {
    VerdictOfNewest(max, actions, s, score, newest);
    RecordedDifference(max, actions, s);
    assert DifferenceOk(s.t, s.t.rows[newest]);
  }

  /** A success carries the token of the row's latest claim, and settles it. */
  lemma {:induction false} SuccessIsFenced(max: nat, actions: seq<Action>, s: State, a: Action, s': State)
    requires Run(max, actions) == Some(s) && Step(max, s, a) == Some(s') && Succeeds(s, a)
    ensures a.id in s.latest && s.latest[a.id] == a.token
    ensures a.token !in s.settled && s'.settled == s.settled + {a.token}
    ensures !Succeeds(s', a)
  {
    RunKeeps(max, actions, s);
  }

  /** How many completions and failures with one token succeed along a run. */
  function Successes(max: nat, actions: seq<Action>, token: Token): nat
    requires Run(max, actions).Some?
  {
    if actions == [] then 0
    else
      var earlier, a := actions[..|actions| - 1], actions[|actions| - 1];
      Successes(max, earlier, token)
      + (if Succeeds(Run(max, earlier).value, a) && a.token == token then 1 else 0)
  }

  /** Each claim is settled at most once, whoever retries, sweeps or answers late. */
  lemma {:induction false} AtMostOncePerClaim(max: nat, actions: seq<Action>, s: State, token: Token)
    requires Run(max, actions) == Some(s)
    ensures Successes(max, actions, token) == if token in s.settled then 1 else 0
  {
    if actions != [] {
      var earlier, a := actions[..|actions| - 1], actions[|actions| - 1];
      var before := Run(max, earlier).value;
      AtMostOncePerClaim(max, earlier, before, token);
      if Succeeds(before, a) {
        SuccessIsFenced(max, earlier, before, a, s);
      }
    }
  }

  // ----- termination -----

  function Stage(state: CheckState): nat {
    match state
    case Running => 3
    case RetryableFailed => 2
    case Queued => 1
    case Completed => 0
    case TerminalFailed => 0
  }

  function Rank(row: Check, max: nat): nat
    requires row.attempts <= max
  {
    3 * (max - row.attempts) + Stage(row.state)
  }

  /** One operation's effect on one row. */
  predicate Sinks(row: Check, row': Check, max: nat) {
    && row.attempts <= max && row'.attempts <= max
    && (row' == row.(reasons := row'.reasons)
        || (row.state !in {Completed, TerminalFailed} && row'.state != row.state && Rank(row', max) < Rank(row, max)))
  }

  lemma {:induction false} StepCounts(s: State, max: nat, a: Action, s': State, id: CheckId)
    requires RowsOk(s.t, max) && Step(max, s, a) == Some(s')
    ensures id in s.t.rows ==>
              id in s'.t.rows && s'.t.rows[id].attempts
                                 == s.t.rows[id].attempts + (if a.Claim? && a.id == id && Claimable(s.t, id, max) then 1 else 0)
    ensures id !in s.t.rows && id in s'.t.rows ==> s'.t.rows[id].attempts == 0
  {
  }

  /** Completed and terminal rows are never left, and every change of state lowers the rank. */
  lemma {:induction false} StepSinks(s: State, max: nat, a: Action, s': State, id: CheckId)
    requires RowsOk(s.t, max) && Step(max, s, a) == Some(s') && id in s.t.rows
    ensures id in s'.t.rows && Sinks(s.t.rows[id], s'.t.rows[id], max)
  {
  }

  function Claims(max: nat, actions: seq<Action>, id: CheckId): nat
    requires Run(max, actions).Some?
  {
    if actions == [] then 0
    else
      var earlier, a := actions[..|actions| - 1], actions[|actions| - 1];
      Claims(max, earlier, id)
      + (if a.Claim? && a.id == id && Claimable(Run(max, earlier).value.t, id, max) then 1 else 0)
  }

  /** Successful claims of a row are its attempts, and never more than the maximum. */
  lemma {:induction false} ClaimsAreBounded(max: nat, actions: seq<Action>, s: State, id: CheckId)
    requires Run(max, actions) == Some(s)
    ensures Claims(max, actions, id) == (if id in s.t.rows then s.t.rows[id].attempts else 0) <= max
  {
    RunKeeps(max, actions, s);
    if actions != [] {
      var earlier, a := actions[..|actions| - 1], actions[|actions| - 1];
      var before := Run(max, earlier).value;
      ClaimsAreBounded(max, earlier, before, id);
      RunKeeps(max, earlier, before);
      StepCounts(before, max, a, s, id);
    }
  }

  // ----- a run in full -----

  lemma {:induction false} RunSnoc(max: nat, actions: seq<Action>, s: State, a: Action, s': State)
    requires Run(max, actions) == Some(s) && Step(max, s, a) == Some(s')
    ensures Run(max, actions + [a]) == Some(s')
  {
    assert (actions + [a])[..|actions|] == actions;
  }

  function FirstCheck(): Check {
    NewCheck(0, "model", "prompt", MergeReasons(["golden_error"], ["golden_error"]), 10.0)
  }

  lemma {:induction false} OneClaimedRow() returns (actions: seq<Action>, s: State)
    ensures Run(1, actions) == Some(s)
    ensures s == State(
                   Tables(map[0 := ClaimCheck(FirstCheck(), 7, 900)], map[0 := Score(80.0, None, false)], 1),
                   {7}, map[0 := 7], {})
  {
    var s0 := INITIAL.(t := Tables(map[], map[0 := Score(80.0, None, false)], 0));
    RunSnoc(1, [], INITIAL, AddScore(0, 80.0), s0);
    var s1 := s0.(t := Tables(map[0 := FirstCheck()], map[0 := Score(80.0, None, false)], 1));
    var ensured := Ensure(0, "model", "prompt", ["golden_error"], 10.0);
    assert Step(1, s0, ensured).value.t.rows == map[0 := FirstCheck()];
    assert Step(1, s0, ensured).value.t.scores == s0.t.scores;
    RunSnoc(1, [] + [AddScore(0, 80.0)], s0, ensured, s1);
    s := State(s1.t.(rows := map[0 := ClaimCheck(FirstCheck(), 7, 900)]), {7}, map[0 := 7], {});
    actions := [] + [AddScore(0, 80.0)] + [ensured] + [Claim(0, 7, 900)];
    assert s1.t.rows[0 := ClaimCheck(FirstCheck(), 7, 900)] == s.t.rows && {} + {7} == s.issued && map[][0 := 7] == s.latest;
    RunSnoc(1, [] + [AddScore(0, 80.0)] + [ensured], s1, Claim(0, 7, 900), s);
  }

  /** From nothing to a shown verdict: a difference of twenty against a threshold of ten is suspicious. */
  lemma {:induction false} ShownVerdict() returns (actions: seq<Action>, s: State)
    ensures Run(1, actions) == Some(s) && s.t.scores == map[0 := Score(80.0, Some(20.0), true)]
  {
    var before, claimed := OneClaimedRow();
    var finish := Finish(0, 7, 60.0, 5);
    s := Step(1, claimed, finish).value;
    RunSnoc(1, before, claimed, finish, s);
    actions := before + [finish];
    GreatestIsMax(s.t.rows, 0, 1);
    assert s.t.scores[0] == Score(80.0, Some(20.0), true);
  }
}
