/** What a replay pass leaves as it was, and exactly when it can destroy what it ingested. */
module SyncReplaySurvival {
  import opened Common
  import opened SyncListing
  import opened SyncLedger
  import opened SyncRunner
  import opened SyncReplay

  predicate FetchesReal(calls: seq<ReplayCall>) {
    forall k :: 0 <= k < |calls| && calls[k].fetch.Fetched? ==> calls[k].fetch.sha != UNKNOWN_SHA256
  }

  ghost predicate Answers(ledger: Ledger, pending: seq<Pending>, calls: seq<ReplayCall>) {
    |calls| == |pending| && FetchesReal(calls) && FreshIds(ledger, calls)
  }

  /** The ledger once `n` rows of the pass have their outcome. */
  function After(ledger: Ledger, pending: seq<Pending>, calls: seq<ReplayCall>, now: int, n: nat): Ledger
    requires |calls| == |pending| && n <= |pending|
  {
    ReplayAll(ledger, pending[..n], calls[..n], now)
  }

  lemma {:induction false} AfterStep(ledger: Ledger, pending: seq<Pending>, calls: seq<ReplayCall>, now: int, n: nat)
    requires |calls| == |pending| && n < |pending|
    ensures After(ledger, pending, calls, now, n + 1)
         == ReplayOne(After(ledger, pending, calls, now, n), pending[n], calls[n], now)
  {
    ReplayPrefixStep(ledger, pending, calls, now, n);
  }

  lemma {:induction false} RowIdsDiffer(ledger: Ledger, pending: seq<Pending>, maxAttempts: nat, i: nat, j: nat)
    requires UniqueIds(ledger) && IsSelection(ledger, pending, maxAttempts)
    requires i < |pending| && j < |pending| && i != j
    ensures Key(pending[i]) != Key(pending[j]) && pending[i].rowId != pending[j].rowId
  {
  }

  // ----- rows the pass has not reached -----

  /** The answer to row `p` brings in the content of row `q`. */
  predicate Fills(p: Pending, call: ReplayCall, q: Pending) {
    p.externalId == q.externalId && !call.describe.NotThere? && call.fetch == Fetched(q.sha) && call.intake.Accepted?
  }

  /** One of the first `n` answers brings in the content of row `j`. */
  ghost predicate Filled(pending: seq<Pending>, calls: seq<ReplayCall>, n: nat, j: nat)
    requires |calls| == |pending| && n <= |pending| && j < |pending|
  {
    exists i :: 0 <= i < n && Fills(pending[i], calls[i], pending[j])
  }

  /** A row that has not had its turn: as it was selected, or ingested. */
  ghost predicate Waits(ledger: Ledger, middle: Ledger, q: Pending, filled: bool) {
    && Key(q) in ledger && Key(q) in middle && middle[Key(q)].id == q.rowId
    && (!filled ==> middle[Key(q)] == ledger[Key(q)])
    && (filled ==> middle[Key(q)].outcome == Ingested)
  }

  lemma {:induction false} WaitsStep(ledger: Ledger, middle: Ledger, p: Pending, call: ReplayCall, now: int, q: Pending, filled: bool)
    requires Waits(ledger, middle, q, filled) && ledger[Key(q)].outcome == Failed
    requires Key(p) != Key(q) && p.rowId != q.rowId
    ensures Waits(ledger, ReplayOne(middle, p, call, now), q, filled || Fills(p, call, q))
  {
  }

  lemma {:induction false} FilledStep(pending: seq<Pending>, calls: seq<ReplayCall>, n: nat, j: nat)
    requires |calls| == |pending| && n < |pending| && j < |pending|
    ensures Filled(pending, calls, n + 1, j) <==> Filled(pending, calls, n, j) || Fills(pending[n], calls[n], pending[j])
  {
  }

  /** Before its turn a row is as it was, unless an earlier answer for its external id brought in its content. */
  lemma {:induction false} RowBeforeTurn(
    ledger: Ledger, pending: seq<Pending>, calls: seq<ReplayCall>, now: int, maxAttempts: nat, n: nat, j: nat)
    requires UniqueIds(ledger) && IsSelection(ledger, pending, maxAttempts) && |calls| == |pending|
    requires n <= j < |pending|
    ensures Waits(ledger, After(ledger, pending, calls, now, n), pending[j], Filled(pending, calls, n, j))
  {
    if n > 0 {
      RowBeforeTurn(ledger, pending, calls, now, maxAttempts, n - 1, j);
      AfterStep(ledger, pending, calls, now, n - 1);
      RowIdsDiffer(ledger, pending, maxAttempts, n - 1, j);
      WaitsStep(ledger, After(ledger, pending, calls, now, n - 1), pending[n - 1], calls[n - 1], now, pending[j],
                Filled(pending, calls, n - 1, j));
      FilledStep(pending, calls, n - 1, j);
    }
  }

  ghost predicate AsItWas(ledger: Ledger, after: Ledger, q: Pending) {
    Key(q) in ledger && Key(q) in after && after[Key(q)] == ledger[Key(q)]
  }

  /**
   A pass that ends early leaves a row it did not reach as it was, exactly when no handled row of
   the same external id was described, fetched with that row's content, and accepted.
   */
  lemma {:induction false} BreakLeavesRestIff(
    ledger: Ledger, pending: seq<Pending>, calls: seq<ReplayCall>, now: int, maxAttempts: nat, j: nat)
    requires UniqueIds(ledger) && IsSelection(ledger, pending, maxAttempts) && |calls| == |pending|
    requires Handled(calls) <= j < |pending|
    ensures AsItWas(ledger, After(ledger, pending, calls, now, Handled(calls)), pending[j]) <==>
              !exists i :: 0 <= i < Handled(calls) && pending[i].externalId == pending[j].externalId
                           && !calls[i].describe.NotThere? && calls[i].fetch == Fetched(pending[j].sha)
                           && calls[i].intake.Accepted?
  {
    RowBeforeTurn(ledger, pending, calls, now, maxAttempts, Handled(calls), j);
    assert Filled(pending, calls, Handled(calls), j) <==>
             exists i :: 0 <= i < Handled(calls) && Fills(pending[i], calls[i], pending[j]);
  }

  lemma {:induction false} StepElsewhere(ledger: Ledger, p: Pending, call: ReplayCall, now: int, key: Identity)
    requires p.externalId != key.0 && (key in ledger ==> ledger[key].id != p.rowId)
    ensures var after := ReplayOne(ledger, p, call, now);
            (key in after <==> key in ledger) && (key in ledger ==> after[key] == ledger[key])
  {
  }

  /** Rows of an external id that no handled row has, selected or not, are left as they were. */
  lemma {:induction false} OthersUntouched(
    ledger: Ledger, pending: seq<Pending>, calls: seq<ReplayCall>, now: int, maxAttempts: nat, n: nat, key: Identity)
    requires UniqueIds(ledger) && IsSelection(ledger, pending, maxAttempts) && |calls| == |pending|
    requires n <= |pending| && forall i :: 0 <= i < n ==> pending[i].externalId != key.0
    ensures var after := After(ledger, pending, calls, now, n);
            (key in after <==> key in ledger) && (key in ledger ==> after[key] == ledger[key])
  {
    if n > 0 {
      OthersUntouched(ledger, pending, calls, now, maxAttempts, n - 1, key);
      AfterStep(ledger, pending, calls, now, n - 1);
      assert Key(pending[n - 1]) in ledger;
      assert key in ledger ==> ledger[key].id != pending[n - 1].rowId;
      StepElsewhere(After(ledger, pending, calls, now, n - 1), pending[n - 1], calls[n - 1], now, key);
    }
  }

  // ----- rows ingested before the pass -----

  lemma {:induction false} IngestedStep(middle: Ledger, p: Pending, call: ReplayCall, now: int, key: Identity)
    requires AlreadyIngested(middle, key) && Key(p) != key && middle[key].id != p.rowId
    ensures var after := ReplayOne(middle, p, call, now); key in after && after[key] == middle[key]
  {
  }

  /** A row ingested before the pass is untouched by it, whatever the source answers. */
  lemma {:induction false} IngestedBeforeStays(
    ledger: Ledger, pending: seq<Pending>, calls: seq<ReplayCall>, now: int, maxAttempts: nat, n: nat, key: Identity)
    requires UniqueIds(ledger) && IsSelection(ledger, pending, maxAttempts) && |calls| == |pending| && n <= |pending|
    requires AlreadyIngested(ledger, key)
    ensures key in After(ledger, pending, calls, now, n) && After(ledger, pending, calls, now, n)[key] == ledger[key]
  {
    if n > 0 {
      IngestedBeforeStays(ledger, pending, calls, now, maxAttempts, n - 1, key);
      AfterStep(ledger, pending, calls, now, n - 1);
      assert ledger[Key(pending[n - 1])].outcome == Failed;
      IngestedStep(After(ledger, pending, calls, now, n - 1), pending[n - 1], calls[n - 1], now, key);
    }
  }

  // ----- content the pass itself ingested -----

  /** A row id of the snapshot still belongs to the key it was selected under, or to none. */
  lemma {:induction false} IdsAreTracked(
    ledger: Ledger, pending: seq<Pending>, calls: seq<ReplayCall>, now: int, n: nat, key: Identity, selected: Identity)
    requires UniqueIds(ledger) && FreshIds(ledger, calls) && |calls| == |pending| && n <= |pending| && selected in ledger
    requires key in After(ledger, pending, calls, now, n)
    requires After(ledger, pending, calls, now, n)[key].id == ledger[selected].id
    ensures key == selected
  {
    if n > 0 {
      AfterStep(ledger, pending, calls, now, n - 1);
      var middle := After(ledger, pending, calls, now, n - 1);
      ReplayDraws(middle, pending[n - 1], calls[n - 1], now);
      assert ledger[selected].id in IdsOf(ledger) && calls[n - 1].newId !in IdsOf(ledger);
      IdsAreTracked(ledger, pending, calls, now, n - 1, key, selected);
    }
  }

  /** Of the selected rows of one external id, only the first may have a real hash. */
  ghost predicate LaterArePlaceholders(pending: seq<Pending>) {
    forall i, j :: 0 <= i < j < |pending| && pending[i].externalId == pending[j].externalId ==>
                     pending[j].sha == UNKNOWN_SHA256
  }

  lemma {:induction false} NeverFilled(pending: seq<Pending>, calls: seq<ReplayCall>, n: nat, j: nat)
    requires LaterArePlaceholders(pending) && |calls| == |pending| && FetchesReal(calls) && n <= j < |pending|
    ensures !Filled(pending, calls, n, j)
  {
  }

  lemma {:induction false} SurvivesOne(
    ledger: Ledger, pending: seq<Pending>, calls: seq<ReplayCall>, now: int, maxAttempts: nat, n: nat, key: Identity)
    requires UniqueIds(ledger) && IsSelection(ledger, pending, maxAttempts) && Answers(ledger, pending, calls)
    requires LaterArePlaceholders(pending) && n < |pending|
    requires AlreadyIngested(After(ledger, pending, calls, now, n), key)
    ensures AlreadyIngested(After(ledger, pending, calls, now, n + 1), key)
  {
    var middle, p := After(ledger, pending, calls, now, n), pending[n];
    AfterStep(ledger, pending, calls, now, n);
    RowBeforeTurn(ledger, pending, calls, now, maxAttempts, n, n);
    NeverFilled(pending, calls, n, n);
    assert middle[Key(p)].outcome == Failed;
    if middle[key].id == p.rowId {
      IdsAreTracked(ledger, pending, calls, now, n, key, Key(p));
    }
    IngestedStep(middle, p, calls[n], now, key);
  }

  lemma {:induction false} IngestedSurvives(
    ledger: Ledger, pending: seq<Pending>, calls: seq<ReplayCall>, now: int, maxAttempts: nat, n: nat, m: nat, key: Identity)
    requires UniqueIds(ledger) && IsSelection(ledger, pending, maxAttempts) && Answers(ledger, pending, calls)
    requires LaterArePlaceholders(pending) && n <= m <= |pending|
    requires AlreadyIngested(After(ledger, pending, calls, now, n), key)
    ensures AlreadyIngested(After(ledger, pending, calls, now, m), key)
    decreases m - n
  {
    if n < m {
      SurvivesOne(ledger, pending, calls, now, maxAttempts, n, key);
      IngestedSurvives(ledger, pending, calls, now, maxAttempts, n + 1, m, key);
    }
  }

  ghost predicate AllSurvive(middle: Ledger, after: Ledger) {
    forall key: Identity :: AlreadyIngested(middle, key) ==> AlreadyIngested(after, key)
  }

  /** In every pass over this selection, however it ends, content ingested at some point stays ingested to the end. */
  ghost predicate AlwaysSurvive(ledger: Ledger, pending: seq<Pending>, now: int) {
    forall calls, n: nat | Answers(ledger, pending, calls) && n <= Handled(calls) ::
      AllSurvive(After(ledger, pending, calls, now, n), After(ledger, pending, calls, now, Handled(calls)))
  }

  /** The answer makes the pass delete the selected row. */
  predicate Discards(ledger: Ledger, p: Pending, call: ReplayCall) {
    && !call.describe.NotThere? && call.fetch.Fetched?
    && (AlreadyIngested(ledger, (p.externalId, call.fetch.sha)) || (call.intake.Accepted? && call.fetch.sha != p.sha))
  }

  /** And the row it deletes is an ingested one. */
  ghost predicate DiscardsIngested(ledger: Ledger, p: Pending, call: ReplayCall) {
    Discards(ledger, p, call) && exists key :: key in ledger && ledger[key].id == p.rowId && ledger[key].outcome == Ingested
  }

  /** No pass over this selection, however it ends, deletes an ingested row. */
  ghost predicate NeverDiscardsIngested(ledger: Ledger, pending: seq<Pending>, now: int) {
    forall calls, k: nat | Answers(ledger, pending, calls) && k < Handled(calls) ::
      !DiscardsIngested(After(ledger, pending, calls, now, k), pending[k], calls[k])
  }

  /** No pass over this selection touches a row it does not reach. */
  ghost predicate AlwaysLeavesRest(ledger: Ledger, pending: seq<Pending>, now: int) {
    forall calls, j: nat | Answers(ledger, pending, calls) && Handled(calls) <= j < |pending| ::
      AsItWas(ledger, After(ledger, pending, calls, now, Handled(calls)), pending[j])
  }

  // ----- placeholders suffice -----

  lemma {:induction false} PlaceholdersSurvive(ledger: Ledger, pending: seq<Pending>, now: int, maxAttempts: nat)
    requires UniqueIds(ledger) && IsSelection(ledger, pending, maxAttempts) && LaterArePlaceholders(pending)
    ensures AlwaysSurvive(ledger, pending, now)
  {
    forall calls, n: nat | Answers(ledger, pending, calls) && n <= Handled(calls)
      ensures AllSurvive(After(ledger, pending, calls, now, n), After(ledger, pending, calls, now, Handled(calls)))
    {
      forall key: Identity | AlreadyIngested(After(ledger, pending, calls, now, n), key)
        ensures AlreadyIngested(After(ledger, pending, calls, now, Handled(calls)), key)
      {
        IngestedSurvives(ledger, pending, calls, now, maxAttempts, n, Handled(calls), key);
      }
    }
  }

  lemma {:induction false} PlaceholdersKept(ledger: Ledger, pending: seq<Pending>, calls: seq<ReplayCall>, now: int, maxAttempts: nat, k: nat)
    requires UniqueIds(ledger) && IsSelection(ledger, pending, maxAttempts) && LaterArePlaceholders(pending)
    requires Answers(ledger, pending, calls) && k < |pending|
    ensures !DiscardsIngested(After(ledger, pending, calls, now, k), pending[k], calls[k])
  {
    var middle := After(ledger, pending, calls, now, k);
    RowBeforeTurn(ledger, pending, calls, now, maxAttempts, k, k);
    NeverFilled(pending, calls, k, k);
    forall key | key in middle && middle[key].id == pending[k].rowId ensures middle[key].outcome == Failed {
      IdsAreTracked(ledger, pending, calls, now, k, key, Key(pending[k]));
    }
  }

  lemma {:induction false} PlaceholdersLeft(ledger: Ledger, pending: seq<Pending>, now: int, maxAttempts: nat)
    requires UniqueIds(ledger) && IsSelection(ledger, pending, maxAttempts) && LaterArePlaceholders(pending)
    ensures AlwaysLeavesRest(ledger, pending, now)
  {
    forall calls, j: nat | Answers(ledger, pending, calls) && Handled(calls) <= j < |pending|
      ensures AsItWas(ledger, After(ledger, pending, calls, now, Handled(calls)), pending[j])
    {
      RowBeforeTurn(ledger, pending, calls, now, maxAttempts, Handled(calls), j);
      NeverFilled(pending, calls, Handled(calls), j);
    }
  }

  // ----- a repeated id with a real hash breaks each of them -----

  /** Row `i` brings in the content of row `j`, row `j` gets `answer`, and every other row is gone. */
  function Repeat(pending: seq<Pending>, i: nat, j: nat, answer: ReplayCall): seq<ReplayCall>
    requires j < |pending|
  {
    seq(|pending|, k =>
      if k == i then ReplayCall(NoAbort, Described, Fetched(pending[j].sha), Accepted(0, true), answer.newId)
      else if k == j then answer
      else ReplayCall(NoAbort, NotThere, Unavailable, Errored, answer.newId))
  }

  lemma {:induction false} FreshId(ledger: Ledger) returns (id: nat)
    ensures forall key :: key in ledger ==> ledger[key].id < id
  {
    var keys := ledger.Keys;
    id := 0;
    while keys != {}
      invariant keys <= ledger.Keys
      invariant forall key :: key in ledger && key !in keys ==> ledger[key].id < id
      decreases keys
    {
      var key :| key in keys;
      id := Max(id, ledger[key].id + 1);
      keys := keys - {key};
    }
  }

  /** When row `j` of such a pass has its turn, it is the ingested row. */
  lemma {:induction false} RepeatIngests(
    ledger: Ledger, pending: seq<Pending>, now: int, maxAttempts: nat, i: nat, j: nat, answer: ReplayCall)
    requires UniqueIds(ledger) && IsSelection(ledger, pending, maxAttempts)
    requires i < j < |pending| && pending[i].externalId == pending[j].externalId
    ensures Waits(ledger, After(ledger, pending, Repeat(pending, i, j, answer), now, j), pending[j], true)
  {
    var calls := Repeat(pending, i, j, answer);
    RowBeforeTurn(ledger, pending, calls, now, maxAttempts, j, j);
    assert Fills(pending[i], calls[i], pending[j]);
  }

  lemma {:induction false} RepeatAnswers(ledger: Ledger, pending: seq<Pending>, i: nat, j: nat, answer: ReplayCall)
    requires i < j < |pending| && pending[j].sha != UNKNOWN_SHA256
    requires answer.fetch.Fetched? ==> answer.fetch.sha != UNKNOWN_SHA256
    requires forall key :: key in ledger ==> ledger[key].id < answer.newId
    ensures Answers(ledger, pending, Repeat(pending, i, j, answer))
  {
  }

  /** The answer that makes row `j` superseded by itself. */
  function Itself(q: Pending, newId: nat): ReplayCall {
    ReplayCall(NoAbort, Described, Fetched(q.sha), Accepted(0, true), newId)
  }

  lemma {:induction false} RepeatDiscards(ledger: Ledger, pending: seq<Pending>, now: int, maxAttempts: nat, i: nat, j: nat)
    requires UniqueIds(ledger) && IsSelection(ledger, pending, maxAttempts)
    requires i < j < |pending| && pending[i].externalId == pending[j].externalId && pending[j].sha != UNKNOWN_SHA256
    ensures !NeverDiscardsIngested(ledger, pending, now)
  {
    var newId := FreshId(ledger);
    var answer := Itself(pending[j], newId);
    var calls := Repeat(pending, i, j, answer);
    RepeatAnswers(ledger, pending, i, j, answer);
    RepeatIngests(ledger, pending, now, maxAttempts, i, j, answer);
    HandledAt(calls, |calls|);
    assert DiscardsIngested(After(ledger, pending, calls, now, j), pending[j], calls[j]);
  }

  /** A row that is the ingested one deletes itself. */
  lemma {:induction false} SupersededByItself(middle: Ledger, q: Pending, newId: nat, now: int)
    requires AlreadyIngested(middle, Key(q)) && middle[Key(q)].id == q.rowId
    ensures Key(q) !in ReplayOne(middle, q, Itself(q, newId), now)
  {
  }

  lemma {:induction false} GoneStep(middle: Ledger, p: Pending, call: ReplayCall, now: int, key: Identity)
    requires key !in middle && Key(p) != key && call.describe.NotThere?
    ensures key !in ReplayOne(middle, p, call, now)
  {
  }

  lemma {:induction false} RepeatGone(
    ledger: Ledger, pending: seq<Pending>, now: int, maxAttempts: nat, i: nat, j: nat, newId: nat, n: nat)
    requires UniqueIds(ledger) && IsSelection(ledger, pending, maxAttempts)
    requires i < j < n <= |pending| && pending[i].externalId == pending[j].externalId
    ensures Key(pending[j]) !in After(ledger, pending, Repeat(pending, i, j, Itself(pending[j], newId)), now, n)
  {
    var calls := Repeat(pending, i, j, Itself(pending[j], newId));
    AfterStep(ledger, pending, calls, now, n - 1);
    if n == j + 1 {
      RepeatIngests(ledger, pending, now, maxAttempts, i, j, Itself(pending[j], newId));
      SupersededByItself(After(ledger, pending, calls, now, j), pending[j], newId, now);
    } else {
      RepeatGone(ledger, pending, now, maxAttempts, i, j, newId, n - 1);
      RowIdsDiffer(ledger, pending, maxAttempts, j, n - 1);
      GoneStep(After(ledger, pending, calls, now, n - 1), pending[n - 1], calls[n - 1], now, Key(pending[j]));
    }
  }

  /** A repeated external id with a real hash further down is enough to lose content. */
  lemma {:induction false} RepeatedIdCanLose(ledger: Ledger, pending: seq<Pending>, now: int, maxAttempts: nat, i: nat, j: nat)
    requires UniqueIds(ledger) && IsSelection(ledger, pending, maxAttempts)
    requires i < j < |pending| && pending[i].externalId == pending[j].externalId && pending[j].sha != UNKNOWN_SHA256
    ensures !AlwaysSurvive(ledger, pending, now)
  {
    var newId := FreshId(ledger);
    var answer := Itself(pending[j], newId);
    var calls := Repeat(pending, i, j, answer);
    RepeatAnswers(ledger, pending, i, j, answer);
    RepeatIngests(ledger, pending, now, maxAttempts, i, j, answer);
    HandledAt(calls, |calls|);
    RepeatGone(ledger, pending, now, maxAttempts, i, j, newId, |pending|);
    assert AlreadyIngested(After(ledger, pending, calls, now, j), Key(pending[j]));
    assert !AllSurvive(After(ledger, pending, calls, now, j), After(ledger, pending, calls, now, Handled(calls)));
  }

  /** And, when the source then has no lookup, to touch a row that was never reached. */
  lemma {:induction false} RepeatTouchesRest(ledger: Ledger, pending: seq<Pending>, now: int, maxAttempts: nat, i: nat, j: nat)
    requires UniqueIds(ledger) && IsSelection(ledger, pending, maxAttempts)
    requires i < j < |pending| && pending[i].externalId == pending[j].externalId && pending[j].sha != UNKNOWN_SHA256
    ensures !AlwaysLeavesRest(ledger, pending, now)
  {
    var newId := FreshId(ledger);
    var answer := ReplayCall(NoAbort, Unsupported, Unavailable, Errored, newId);
    var calls := Repeat(pending, i, j, answer);
    RepeatAnswers(ledger, pending, i, j, answer);
    RepeatIngests(ledger, pending, now, maxAttempts, i, j, answer);
    HandledAt(calls, j);
    assert !AsItWas(ledger, After(ledger, pending, calls, now, j), pending[j]);
  }

  // ----- the exact condition -----

  lemma {:induction false} FirstRepeat(pending: seq<Pending>) returns (i: nat, j: nat)
    requires !LaterArePlaceholders(pending)
    ensures i < j < |pending| && pending[i].externalId == pending[j].externalId && pending[j].sha != UNKNOWN_SHA256
  {
    i, j :| 0 <= i < j < |pending| && pending[i].externalId == pending[j].externalId && pending[j].sha != UNKNOWN_SHA256;
  }

  /**
   Ingested content survives every pass over a selection exactly when, among the selected rows
   of one external id, each one after the first is a placeholder for content never seen.
   */
  lemma {:induction false} SurvivalIff(ledger: Ledger, pending: seq<Pending>, now: int, maxAttempts: nat)
    requires UniqueIds(ledger) && IsSelection(ledger, pending, maxAttempts)
    ensures AlwaysSurvive(ledger, pending, now) <==> LaterArePlaceholders(pending)
  {
    if LaterArePlaceholders(pending) {
      PlaceholdersSurvive(ledger, pending, now, maxAttempts);
    } else {
      var i, j := FirstRepeat(pending);
      RepeatedIdCanLose(ledger, pending, now, maxAttempts, i, j);
    }
  }

  /** Under the same condition, and no other, no pass discards an ingested row. */
  lemma {:induction false} DiscardIff(ledger: Ledger, pending: seq<Pending>, now: int, maxAttempts: nat)
    requires UniqueIds(ledger) && IsSelection(ledger, pending, maxAttempts)
    ensures NeverDiscardsIngested(ledger, pending, now) <==> LaterArePlaceholders(pending)
  {
    if LaterArePlaceholders(pending) {
      forall calls, k: nat | Answers(ledger, pending, calls) && k < Handled(calls)
        ensures !DiscardsIngested(After(ledger, pending, calls, now, k), pending[k], calls[k])
      {
        PlaceholdersKept(ledger, pending, calls, now, maxAttempts, k);
      }
    } else {
      var i, j := FirstRepeat(pending);
      RepeatDiscards(ledger, pending, now, maxAttempts, i, j);
    }
  }

  /** And under the same condition no pass that ends early touches the rows it left. */
  lemma {:induction false} RestIff(ledger: Ledger, pending: seq<Pending>, now: int, maxAttempts: nat)
    requires UniqueIds(ledger) && IsSelection(ledger, pending, maxAttempts)
    ensures AlwaysLeavesRest(ledger, pending, now) <==> LaterArePlaceholders(pending)
  {
    if LaterArePlaceholders(pending) {
      PlaceholdersLeft(ledger, pending, now, maxAttempts);
    } else {
      var i, j := FirstRepeat(pending);
      RepeatTouchesRest(ledger, pending, now, maxAttempts, i, j);
    }
  }

  // ----- the natural input -----

  /**
   Two selected rows of one external id, a source that describes it and answers both fetches with
   the content of the second, and an intake that accepts: the first turn ingests the second row,
   the second turn takes that very row for a superseded one, and neither row is left.
   */
  lemma {:induction false} TwoRowsVanish(
    ledger: Ledger, pending: seq<Pending>, now: int, maxAttempts: nat, job: nat, created: bool, first: nat, second: nat)
    requires UniqueIds(ledger) && IsSelection(ledger, pending, maxAttempts)
    requires |pending| == 2 && pending[0].externalId == pending[1].externalId
    ensures var fetch, intake := Fetched(pending[1].sha), Accepted(job, created);
            var calls := [ReplayCall(NoAbort, Described, fetch, intake, first), ReplayCall(NoAbort, Described, fetch, intake, second)];
            var middle, after := After(ledger, pending, calls, now, 1), After(ledger, pending, calls, now, 2);
            && AlreadyIngested(middle, Key(pending[1])) && middle[Key(pending[1])].id == pending[1].rowId
            && ReplayResultOf(middle, pending[1], calls[1]) == Superseded
            && DiscardsIngested(middle, pending[1], calls[1])
            && Key(pending[0]) !in after && Key(pending[1]) !in after
  {
    var fetch, intake := Fetched(pending[1].sha), Accepted(job, created);
    var calls := [ReplayCall(NoAbort, Described, fetch, intake, first), ReplayCall(NoAbort, Described, fetch, intake, second)];
    RowIdsDiffer(ledger, pending, maxAttempts, 0, 1);
    RowBeforeTurn(ledger, pending, calls, now, maxAttempts, 1, 1);
    assert Fills(pending[0], calls[0], pending[1]);
    AfterStep(ledger, pending, calls, now, 0);
    AfterStep(ledger, pending, calls, now, 1);
    assert After(ledger, pending, calls, now, 0) == ledger;
  }

  const TWO_FAILURES: Ledger := map[
    (7, UNKNOWN_SHA256) := LedgerRow(0, None, Failed, Some(ItemUnavailable), 1, 0, 0),
    (7, 5) := LedgerRow(1, None, Failed, Some(IngestionFailed), 1, 0, 0)]

  /** A pass that breaks off at its second row, which the first one has already changed. */
  lemma {:induction false} BreakTouchesRest()
    ensures var pending := [Pending(0, 7, UNKNOWN_SHA256), Pending(1, 7, 5)];
            var calls := [ReplayCall(NoAbort, Described, Fetched(5), Accepted(9, true), 2),
                          ReplayCall(NoAbort, Unsupported, Unavailable, Errored, 3)];
            && UniqueIds(TWO_FAILURES) && IsSelection(TWO_FAILURES, pending, 3)
            && Handled(calls) == 1 && EndingOf(calls) == BrokeOff
            && !AsItWas(TWO_FAILURES, After(TWO_FAILURES, pending, calls, 60, 1), pending[1])
  {
    var pending := [Pending(0, 7, UNKNOWN_SHA256), Pending(1, 7, 5)];
    var calls := [ReplayCall(NoAbort, Described, Fetched(5), Accepted(9, true), 2),
                  ReplayCall(NoAbort, Unsupported, Unavailable, Errored, 3)];
    HandledAt(calls, 1);
    assert Key(pending[0]) == (7, UNKNOWN_SHA256) && Key(pending[1]) == (7, 5);
    assert forall key :: key in TWO_FAILURES ==> key == Key(pending[0]) || key == Key(pending[1]);
    BreakLeavesRestIff(TWO_FAILURES, pending, calls, 60, 3, 1);
  }

  // ----- items keep a row -----

  ghost predicate HasRow(ledger: Ledger, externalId: ExternalId) {
    exists sha :: (externalId, sha) in ledger
  }

  /** What row `p` finds at its turn. */
  ghost predicate OwnTurn(middle: Ledger, p: Pending, newId: nat) {
    && Key(p) in middle && middle[Key(p)].id == p.rowId && !AlreadyIngested(middle, Key(p))
    && UniqueIds(middle) && newId !in IdsOf(middle)
  }

  lemma {:induction false} RowKept(middle: Ledger, p: Pending, call: ReplayCall, now: int, externalId: ExternalId)
    requires HasRow(middle, externalId) && OwnTurn(middle, p, call.newId)
    ensures HasRow(ReplayOne(middle, p, call, now), externalId)
  {
    var after := ReplayOne(middle, p, call, now);
    if externalId == p.externalId && Discards(middle, p, call) {
      assert (externalId, call.fetch.sha) in after;
    } else if externalId == p.externalId {
      assert Key(p) in after;
    } else {
      var sha :| (externalId, sha) in middle;
      assert middle[(externalId, sha)].id != p.rowId;
      assert p.rowId in IdsOf(middle);
      assert (externalId, sha) in after;
    }
  }

  lemma {:induction false} TurnIsOwn(ledger: Ledger, pending: seq<Pending>, calls: seq<ReplayCall>, now: int, maxAttempts: nat, n: nat)
    requires UniqueIds(ledger) && IsSelection(ledger, pending, maxAttempts) && LaterArePlaceholders(pending)
    requires Answers(ledger, pending, calls) && DistinctIds(calls) && n < |pending|
    ensures OwnTurn(After(ledger, pending, calls, now, n), pending[n], calls[n].newId)
  {
    PassKeepsIds(ledger, pending, calls, now, n);
    StillFresh(ledger, After(ledger, pending, calls, now, n), calls, n);
    RowBeforeTurn(ledger, pending, calls, now, maxAttempts, n, n);
    NeverFilled(pending, calls, n, n);
  }

  /** Under the condition an item that has a ledger row has one after the pass, though not always the same. */
  lemma {:induction false} PassKeepsRow(
    ledger: Ledger, pending: seq<Pending>, calls: seq<ReplayCall>, now: int, maxAttempts: nat, n: nat, externalId: ExternalId)
    requires UniqueIds(ledger) && IsSelection(ledger, pending, maxAttempts) && LaterArePlaceholders(pending)
    requires Answers(ledger, pending, calls) && DistinctIds(calls) && n <= |pending| && HasRow(ledger, externalId)
    ensures HasRow(After(ledger, pending, calls, now, n), externalId)
  {
    if n > 0 {
      PassKeepsRow(ledger, pending, calls, now, maxAttempts, n - 1, externalId);
      AfterStep(ledger, pending, calls, now, n - 1);
      TurnIsOwn(ledger, pending, calls, now, maxAttempts, n - 1);
      RowKept(After(ledger, pending, calls, now, n - 1), pending[n - 1], calls[n - 1], now, externalId);
    }
  }
}
