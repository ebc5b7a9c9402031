/** Cross-check rows, the scores they are projected on, and what each operation does to them. */
module CrossCheckRows {
  import opened Common

  type CheckId = nat
  type ScoreId = nat
  type Token = nat
  type Reason = string

  datatype CheckState = Queued | Running | Completed | RetryableFailed | TerminalFailed

  /** The codes `fail_cross_check` is given; only the first four may be retried. */
  datatype ErrorCode =
    | ProviderUnavailable
    | UsageLedgerUnavailable
    | DatabaseUnavailable
    | CrossCheckUnexpected
    | ModelPriceMissing
    | ProviderConfigurationError
    | InvalidSecondaryOutput
    | SourceMissing

  const RETRYABLE_CODES: set<ErrorCode> :=
    {ProviderUnavailable, UsageLedgerUnavailable, DatabaseUnavailable, CrossCheckUnexpected}

  /** A row of `score_cross_checks`. */
  datatype Check = Check(
    score: ScoreId,
    model: string,
    prompt: string,
    reasons: seq<Reason>,
    state: CheckState,
    attempts: nat,
    token: Option<Token>,
    lease: Option<int>,
    error: Option<ErrorCode>,
    secondaryTotal: Option<real>,
    diff: Option<real>,
    threshold: real,
    completedAt: Option<int>)

  /** The columns of a score that a cross-check reads or projects on. */
  datatype Score = Score(total: real, crossEngineDiff: Option<real>, suspicious: bool)

  /** Both tables and the next row id; ids only grow. */
  datatype Tables = Tables(rows: map<CheckId, Check>, scores: map<ScoreId, Score>, next: CheckId)

  // ----- reasons -----

  const TRIGGER_ORDER: seq<Reason> :=
    ["deterministic_sample", "low_confidence", "golden_error", "ai_hr_disagreement", "admin_backfill"]

  /** The wanted reasons, in the given order. */
  function InOrder(order: seq<Reason>, wanted: set<Reason>): seq<Reason> {
    if order == [] then []
    else (if order[0] in wanted then [order[0]] else []) + InOrder(order[1..], wanted)
  }

  function Reasons(list: seq<Reason>): set<Reason> {
    set reason | reason in list
  }

  function MergeReasons(existing: seq<Reason>, incoming: seq<Reason>): seq<Reason> {
    InOrder(TRIGGER_ORDER, Reasons(existing) + Reasons(incoming))
  }

  lemma {:induction false} ReasonsCons(list: seq<Reason>)
    requires list != []
    ensures Reasons(list) == {list[0]} + Reasons(list[1..])
  {
    assert list == [list[0]] + list[1..];
  }

  lemma {:induction false} InOrderMembers(order: seq<Reason>, wanted: set<Reason>)
    ensures Reasons(InOrder(order, wanted)) == Reasons(order) * wanted
  {
    if order != [] {
      var rest := InOrder(order[1..], wanted);
      InOrderMembers(order[1..], wanted);
      ReasonsCons(order);
      if order[0] in wanted {
        assert ([order[0]] + rest)[1..] == rest;
        ReasonsCons([order[0]] + rest);
      } else {
        assert [] + rest == rest;
      }
    }
  }

  lemma {:induction false} InOrderSame(order: seq<Reason>, wanted: set<Reason>, wanted': set<Reason>)
    requires Reasons(order) * wanted == Reasons(order) * wanted'
    ensures InOrder(order, wanted) == InOrder(order, wanted')
  {
    if order != [] {
      ReasonsCons(order);
      assert order[0] in Reasons(order);
      forall r | r in Reasons(order[1..]) ensures r in wanted <==> r in wanted' {
        assert r in Reasons(order) * wanted <==> r in wanted;
        assert r in Reasons(order) * wanted' <==> r in wanted';
      }
      assert order[0] in Reasons(order) * wanted <==> order[0] in wanted;
      assert order[0] in Reasons(order) * wanted' <==> order[0] in wanted';
      InOrderSame(order[1..], wanted, wanted');
    }
  }

  /** What a merged list holds: the known reasons of both sides, whatever order they came in. */
  lemma {:induction false} MergeIsUnion(existing: seq<Reason>, incoming: seq<Reason>)
    ensures Reasons(MergeReasons(existing, incoming))
            == Reasons(TRIGGER_ORDER) * (Reasons(existing) + Reasons(incoming))
  {
    InOrderMembers(TRIGGER_ORDER, Reasons(existing) + Reasons(incoming));
  }

  /** Merging twice in either order gives the same list, so a stored list depends on the set of triggers alone. */
  lemma {:induction false} MergeCommutes(existing: seq<Reason>, first: seq<Reason>, second: seq<Reason>)
    ensures MergeReasons(MergeReasons(existing, first), second) == MergeReasons(MergeReasons(existing, second), first)
    ensures MergeReasons(MergeReasons(existing, first), first) == MergeReasons(existing, first)
  {
    MergeIsUnion(existing, first);
    MergeIsUnion(existing, second);
    InOrderSame(TRIGGER_ORDER,
                Reasons(MergeReasons(existing, first)) + Reasons(second),
                Reasons(MergeReasons(existing, second)) + Reasons(first));
    InOrderSame(TRIGGER_ORDER, Reasons(MergeReasons(existing, first)) + Reasons(first), Reasons(existing) + Reasons(first));
  }

  /** A reason, where it is wanted. */
  function Where(reason: Reason, wanted: bool): seq<Reason> {
    if wanted then [reason] else []
  }

  lemma {:induction false} ListOfFive(order: seq<Reason>, wanted: set<Reason>)
    requires |order| == 5
    ensures InOrder(order, wanted)
            == Where(order[0], order[0] in wanted) + Where(order[1], order[1] in wanted) + Where(order[2], order[2] in wanted)
               + Where(order[3], order[3] in wanted) + Where(order[4], order[4] in wanted)
  {
    InOrderHead(order, wanted, 0);
    InOrderHead(order, wanted, 1);
    InOrderHead(order, wanted, 2);
    InOrderHead(order, wanted, 3);
    InOrderHead(order, wanted, 4);
    Concat(Where(order[0], order[0] in wanted), Where(order[1], order[1] in wanted), Where(order[2], order[2] in wanted),
           Where(order[3], order[3] in wanted), Where(order[4], order[4] in wanted));
  }

  lemma {:induction false} InOrderHead(order: seq<Reason>, wanted: set<Reason>, i: nat)
    requires i < |order|
    ensures InOrder(order[i..], wanted) == Where(order[i], order[i] in wanted) + InOrder(order[i + 1..], wanted)
    ensures order[0..] == order
  {
    assert order[i..][1..] == order[i + 1..];
  }

  lemma {:induction false} Concat(a: seq<Reason>, b: seq<Reason>, c: seq<Reason>, d: seq<Reason>, e: seq<Reason>)
    ensures a + (b + (c + (d + (e + [])))) == a + b + c + d + e
  {
  }

  /** The merged list in full: the five triggers of the sampler in their order, each where either side has it. */
  lemma {:induction false} MergedList(existing: seq<Reason>, incoming: seq<Reason>)
    ensures MergeReasons(existing, incoming)
            == Where("deterministic_sample", "deterministic_sample" in existing || "deterministic_sample" in incoming)
               + Where("low_confidence", "low_confidence" in existing || "low_confidence" in incoming)
               + Where("golden_error", "golden_error" in existing || "golden_error" in incoming)
               + Where("ai_hr_disagreement", "ai_hr_disagreement" in existing || "ai_hr_disagreement" in incoming)
               + Where("admin_backfill", "admin_backfill" in existing || "admin_backfill" in incoming)
  {
    var wanted := Reasons(existing) + Reasons(incoming);
    assert forall reason :: reason in wanted <==> reason in existing || reason in incoming;
    ListOfFive(TRIGGER_ORDER, wanted);
  }

  // ----- queries -----

  /** The greatest id below `bound` that a score has. */
  function GreatestBelow(rows: map<CheckId, Check>, score: ScoreId, bound: CheckId): Option<CheckId> {
    if bound == 0 then None
    else if bound - 1 in rows && rows[bound - 1].score == score then Some(bound - 1)
    else GreatestBelow(rows, score, bound - 1)
  }

  function Greatest(t: Tables, score: ScoreId): Option<CheckId> {
    GreatestBelow(t.rows, score, t.next)
  }

  ghost predicate IsGreatest(rows: map<CheckId, Check>, score: ScoreId, id: CheckId) {
    id in rows && rows[id].score == score && forall other :: other in rows && rows[other].score == score ==> other <= id
  }

  lemma {:induction false} GreatestIsMax(rows: map<CheckId, Check>, score: ScoreId, bound: CheckId)
    requires forall id :: id in rows ==> id < bound || rows[id].score != score
    ensures var g := GreatestBelow(rows, score, bound);
            if g.Some? then IsGreatest(rows, score, g.value)
            else forall id :: id in rows ==> rows[id].score != score
  {
    if bound > 0 && !(bound - 1 in rows && rows[bound - 1].score == score) {
      GreatestIsMax(rows, score, bound - 1);
    }
  }

  predicate SameKey(check: Check, score: ScoreId, model: string, prompt: string) {
    check.score == score && check.model == model && check.prompt == prompt
  }

  predicate Owned(check: Check, token: Token) {
    check.state == Running && check.token == Some(token)
  }

  // ----- operations -----

  function NewCheck(score: ScoreId, model: string, prompt: string, reasons: seq<Reason>, threshold: real): Check {
    Check(score, model, prompt, reasons, Queued, 0, None, None, None, None, None, threshold, None)
  }

  /** The projected verdict is cleared. */
  function Unproject(scores: map<ScoreId, Score>, score: ScoreId): map<ScoreId, Score> {
    if score in scores then scores[score := scores[score].(crossEngineDiff := None, suspicious := false)] else scores
  }

  /** `ensure_cross_check` when the unique key is new: a queued row that supersedes the older ones. */
  function EnsureNew(t: Tables, score: ScoreId, model: string, prompt: string, reasons: seq<Reason>, threshold: real)
    : Tables
  {
    var check := NewCheck(score, model, prompt, MergeReasons(reasons, reasons), threshold);
    Tables(t.rows[t.next := check], Unproject(t.scores, score), t.next + 1)
  }

  /** `ensure_cross_check` when the row exists: only its reasons grow, and the insert used up an id. */
  function EnsureExisting(t: Tables, id: CheckId, reasons: seq<Reason>): Tables
    requires id in t.rows
  {
    var row := t.rows[id];
    t.(rows := t.rows[id := row.(reasons := MergeReasons(row.reasons, reasons))], next := t.next + 1)
  }

  predicate Claimable(t: Tables, id: CheckId, maxAttempts: nat) {
    id in t.rows && t.rows[id].state == Queued && t.rows[id].attempts < maxAttempts
  }

  function ClaimCheck(row: Check, token: Token, lease: int): Check {
    row.(state := Running, attempts := row.attempts + 1, token := Some(token), lease := Some(lease))
  }

  function CompleteCheck(row: Check, primary: real, secondary: real, now: int): Check {
    row.(state := Completed, secondaryTotal := Some(secondary), diff := Some(Abs(primary - secondary)),
    completedAt := Some(now), token := None, lease := None)
  }

  predicate Completable(t: Tables, id: CheckId, token: Token) {
    id in t.rows && Owned(t.rows[id], token) && t.rows[id].score in t.scores
  }

  /** A finished check, projected only when it is its score's newest. */
  function Complete(t: Tables, id: CheckId, secondary: real, now: int): Tables
    requires id in t.rows && t.rows[id].score in t.scores
  {
    var row := CompleteCheck(t.rows[id], t.scores[t.rows[id].score].total, secondary, now);
    var diff := row.diff.value;
    t.(
      rows := t.rows[id := row],
      scores := if Greatest(t, row.score) == Some(id)
                then t.scores[row.score :=
                              t.scores[row.score].(crossEngineDiff := Some(diff), suspicious := diff >= row.threshold)]
                else t.scores)
  }

  function FailCheck(row: Check, code: ErrorCode, maxAttempts: nat): Check {
    var retryable := code in RETRYABLE_CODES && row.attempts < maxAttempts;
    row.(state := if retryable then RetryableFailed else TerminalFailed, error := Some(code), token := None, lease := None)
  }

  predicate Recoverable(row: Check, now: int) {
    row.state == RetryableFailed || (row.state == Running && row.lease.Some? && row.lease.value < now)
  }

  function SweepCheck(row: Check, now: int, maxAttempts: nat): Check {
    if !Recoverable(row, now) then row
    else if row.attempts >= maxAttempts
    then row.(state := TerminalFailed, error := row.error.Or(Some(CrossCheckUnexpected)), token := None, lease := None)
    else row.(state := Queued, token := None, lease := None)
  }

  function SweepChecks(rows: map<CheckId, Check>, now: int, maxAttempts: nat, locked: set<CheckId>)
    : map<CheckId, Check>
  {
    map id | id in rows :: if id in locked then rows[id] else SweepCheck(rows[id], now, maxAttempts)
  }

  /** The ids a sweep requeues among those below `bound`, in order. */
  function Requeued(rows: map<CheckId, Check>, now: int, maxAttempts: nat, locked: set<CheckId>, bound: CheckId)
    : seq<CheckId>
  {
    if bound == 0 then []
    else
      var id := bound - 1;
      Requeued(rows, now, maxAttempts, locked, id)
      + (if id in rows && id !in locked && Recoverable(rows[id], now) && rows[id].attempts < maxAttempts
         then [id] else [])
  }
}
