/** A pass spends what failed rows have left, so passes come to an end. */
module SyncReplayPotential {
  import opened Common
  import opened SyncListing
  import opened SyncLedger
  import opened SyncRunner
  import opened SyncReplay

  // ----- the potential -----

  /** What a row may still cost: the attempts a failed row has left. */
  function Weight(ledger: Ledger, key: Identity, maxAttempts: nat): nat {
    if key in ledger && Selected(ledger[key], maxAttempts) then maxAttempts - ledger[key].attempts else 0
  }

  /** The sum of the weights of some keys. */
  ghost function WeightOf(ledger: Ledger, keys: set<Identity>, maxAttempts: nat): nat {
    if keys == {} then 0
    else
      var key :| key in keys;
      Weight(ledger, key, maxAttempts) + WeightOf(ledger, keys - {key}, maxAttempts)
  }

  /** The attempts left over all eligible failed rows. */
  ghost function Potential(ledger: Ledger, maxAttempts: nat): nat {
    WeightOf(ledger, ledger.Keys, maxAttempts)
  }

  /** After a prefix of the pass, each handled row weighs less and no other row weighs more. */
  ghost predicate Spent(before: Ledger, after: Ledger, pending: seq<Pending>, n: nat, maxAttempts: nat)
    requires n <= |pending|
  {
    && (forall key :: Weight(after, key, maxAttempts) + (if key in Keys(pending[..n]) then 1 else 0)
                      <= Weight(before, key, maxAttempts))
    && (forall j :: n <= j < |pending| ==>
                      && Key(pending[j]) in before && Key(pending[j]) in after
                      && after[Key(pending[j])].id == pending[j].rowId
                      && before[Key(pending[j])].attempts <= after[Key(pending[j])].attempts)
  }

  /** One row's step on one key: the ledger changes under the row's own key and the fetched one only. */
  lemma {:induction false} StepWeight(ledger: Ledger, p: Pending, call: ReplayCall, now: int, maxAttempts: nat, key: Identity)
    requires Proceeds(call) && Key(p) in ledger && ledger[Key(p)].id == p.rowId
    ensures var after := ReplayOne(ledger, p, call, now);
            && (key != Key(p) ==> Weight(after, key, maxAttempts) <= Weight(ledger, key, maxAttempts))
            && (Key(p) in after ==> after[Key(p)].outcome == Ingested
                                    || after[Key(p)].attempts == ledger[Key(p)].attempts + 1)
            && (key != Key(p) && key in ledger && ledger[key].id != p.rowId ==>
                  key in after && after[key].id == ledger[key].id && ledger[key].attempts <= after[key].attempts)
  {
  }

  lemma {:induction false} SpentWeight(
    ledger: Ledger, middle: Ledger, pending: seq<Pending>, n: nat, call: ReplayCall, now: int, maxAttempts: nat, key: Identity)
    requires IsSelection(ledger, pending, maxAttempts) && n < |pending| && Proceeds(call)
    requires Spent(ledger, middle, pending, n, maxAttempts)
    ensures Weight(ReplayOne(middle, pending[n], call, now), key, maxAttempts) + (if key in Keys(pending[..n + 1]) then 1 else 0)
            <= Weight(ledger, key, maxAttempts)
  {
    var p := pending[n];
    StepWeight(middle, p, call, now, maxAttempts, key);
    assert Selected(ledger[Key(p)], maxAttempts);
    assert pending[..n + 1] == pending[..n] + [p];
    assert forall k :: 0 <= k < n ==> Key(pending[k]) != Key(p);
  }

  lemma {:induction false} SpentLater(
    ledger: Ledger, middle: Ledger, pending: seq<Pending>, n: nat, call: ReplayCall, now: int, maxAttempts: nat, j: nat)
    requires IsSelection(ledger, pending, maxAttempts) && n < j < |pending| && Proceeds(call)
    requires UniqueIds(ledger)
    requires Spent(ledger, middle, pending, n, maxAttempts)
    ensures var after := ReplayOne(middle, pending[n], call, now);
            && Key(pending[j]) in after && after[Key(pending[j])].id == pending[j].rowId
            && Key(pending[j]) in ledger && ledger[Key(pending[j])].attempts <= after[Key(pending[j])].attempts
  {
    StepWeight(middle, pending[n], call, now, maxAttempts, Key(pending[j]));
  }

  lemma {:induction false} PrefixSpends(
    ledger: Ledger, pending: seq<Pending>, calls: seq<ReplayCall>, now: int, maxAttempts: nat, n: nat)
    requires IsSelection(ledger, pending, maxAttempts) && |calls| == |pending| && n <= |pending|
    requires forall k :: 0 <= k < n ==> Proceeds(calls[k])
    requires UniqueIds(ledger)
    ensures Spent(ledger, ReplayAll(ledger, pending[..n], calls[..n], now), pending, n, maxAttempts)
  {
    if n > 0 {
      PrefixSpends(ledger, pending, calls, now, maxAttempts, n - 1);
      ReplayPrefixStep(ledger, pending, calls, now, n - 1);
      var middle := ReplayAll(ledger, pending[..n - 1], calls[..n - 1], now);
      var after := ReplayOne(middle, pending[n - 1], calls[n - 1], now);
      forall key
        ensures Weight(after, key, maxAttempts) + (if key in Keys(pending[..n]) then 1 else 0)
                <= Weight(ledger, key, maxAttempts)
      {
        SpentWeight(ledger, middle, pending, n - 1, calls[n - 1], now, maxAttempts, key);
      }
      forall j | n <= j < |pending|
        ensures Key(pending[j]) in ledger && Key(pending[j]) in after
        ensures after[Key(pending[j])].id == pending[j].rowId
        ensures ledger[Key(pending[j])].attempts <= after[Key(pending[j])].attempts
      {
        SpentLater(ledger, middle, pending, n - 1, calls[n - 1], now, maxAttempts, j);
      }
    }
  }

  lemma {:induction false} WeightRemove(ledger: Ledger, keys: set<Identity>, key: Identity, maxAttempts: nat)
    requires key in keys
    ensures WeightOf(ledger, keys, maxAttempts)
            == Weight(ledger, key, maxAttempts) + WeightOf(ledger, keys - {key}, maxAttempts)
  {
    var picked :| picked in keys && WeightOf(ledger, keys, maxAttempts)
                                    == Weight(ledger, picked, maxAttempts) + WeightOf(ledger, keys - {picked}, maxAttempts);
    if picked != key {
      WeightRemove(ledger, keys - {picked}, key, maxAttempts);
      WeightRemove(ledger, keys - {key}, picked, maxAttempts);
      assert keys - {picked} - {key} == keys - {key} - {picked};
    }
  }

  /** Pointwise drops add up, and keys of weight zero do not count. */
  lemma {:induction false} WeightsDrop(
    before: Ledger, after: Ledger, keys: set<Identity>, spent: set<Identity>, maxAttempts: nat)
    requires spent <= keys
    requires forall key :: Weight(after, key, maxAttempts) + (if key in spent then 1 else 0)
                           <= Weight(before, key, maxAttempts)
    ensures WeightOf(after, keys, maxAttempts) + |spent| <= WeightOf(before, keys, maxAttempts)
    decreases keys, 1
  {
    if keys != {} {
      var key :| key in keys;
      WeightRemove(before, keys, key, maxAttempts);
      WeightRemove(after, keys, key, maxAttempts);
      WeightsDropRest(before, after, keys, spent, key, maxAttempts);
    }
  }

  lemma {:induction false} WeightsDropRest(
    before: Ledger, after: Ledger, keys: set<Identity>, spent: set<Identity>, key: Identity, maxAttempts: nat)
    requires spent <= keys && key in keys
    requires forall k :: Weight(after, k, maxAttempts) + (if k in spent then 1 else 0) <= Weight(before, k, maxAttempts)
    ensures WeightOf(after, keys - {key}, maxAttempts) + |spent - {key}| <= WeightOf(before, keys - {key}, maxAttempts)
    ensures |spent| == |spent - {key}| + (if key in spent then 1 else 0)
    decreases keys, 0
  {
    forall k
      ensures Weight(after, k, maxAttempts) + (if k in spent - {key} then 1 else 0) <= Weight(before, k, maxAttempts)
    {
    }
    WeightsDrop(before, after, keys - {key}, spent - {key}, maxAttempts);
    if key in spent {
      assert |spent - {key}| == |spent| - 1;
    } else {
      assert spent - {key} == spent;
    }
  }

  lemma {:induction false} KeysCount(pending: seq<Pending>)
    requires forall i, j :: 0 <= i < j < |pending| ==> Key(pending[i]) != Key(pending[j])
    ensures |Keys(pending)| == |pending|
  {
    if pending != [] {
      var n := |pending| - 1;
      KeysCount(pending[..n]);
      assert pending == pending[..n] + [pending[n]];
      assert Keys(pending) == Keys(pending[..n]) + {Key(pending[n])};
      assert forall k :: 0 <= k < n ==> Key(pending[k]) != Key(pending[n]);
      assert Key(pending[n]) !in Keys(pending[..n]);
    }
  }

  lemma {:induction false} WeightOfKeys(ledger: Ledger, keys: set<Identity>, maxAttempts: nat)
    requires ledger.Keys <= keys
    ensures WeightOf(ledger, keys, maxAttempts) == Potential(ledger, maxAttempts)
    decreases keys
  {
    if keys != ledger.Keys {
      assert !(keys <= ledger.Keys);
      var extra :| extra in keys && extra !in ledger.Keys;
      WeightRemove(ledger, keys, extra, maxAttempts);
      WeightOfKeys(ledger, keys - {extra}, maxAttempts);
    }
  }

  /** A pass lowers the attempts left over all eligible failed rows by at least the number of rows it handled. */
  lemma {:induction false} PassLowersPotential(
    ledger: Ledger, pending: seq<Pending>, calls: seq<ReplayCall>, now: int, maxAttempts: nat)
    requires IsSelection(ledger, pending, maxAttempts) && UniqueIds(ledger) && |calls| == |pending|
    ensures var n := Handled(calls);
            Potential(ReplayAll(ledger, pending[..n], calls[..n], now), maxAttempts) + n <= Potential(ledger, maxAttempts)
  {
    var n := Handled(calls);
    var after := ReplayAll(ledger, pending[..n], calls[..n], now);
    HandledProceed(calls);
    PrefixSpends(ledger, pending, calls, now, maxAttempts, n);
    KeysCount(pending[..n]);
    var keys := ledger.Keys + after.Keys;
    assert Keys(pending[..n]) <= keys by {
      forall k | 0 <= k < n ensures Key(pending[k]) in keys {
      }
    }
    WeightsDrop(ledger, after, keys, Keys(pending[..n]), maxAttempts);
    WeightOfKeys(ledger, keys, maxAttempts);
    WeightOfKeys(after, keys, maxAttempts);
  }

  // ----- sequences of passes -----

  /** One pass: its snapshot, its answers and its clock. */
  datatype Pass = Pass(pending: seq<Pending>, calls: seq<ReplayCall>, now: int)

  ghost predicate IsPass(before: Ledger, pass: Pass, after: Ledger, maxAttempts: nat) {
    && IsSelection(before, pass.pending, maxAttempts) && |pass.calls| == |pass.pending|
    && FreshIds(before, pass.calls) && DistinctIds(pass.calls)
    && var n := Handled(pass.calls);
       after == ReplayAll(before, pass.pending[..n], pass.calls[..n], pass.now)
  }

  /** `ledgers[k]` is what pass `k` finds. */
  ghost predicate ArePasses(ledgers: seq<Ledger>, passes: seq<Pass>, maxAttempts: nat) {
    && |ledgers| == |passes| + 1
    && forall k :: 0 <= k < |passes| ==> IsPass(ledgers[k], passes[k], ledgers[k + 1], maxAttempts)
  }

  function HandledOver(passes: seq<Pass>): nat {
    if passes == [] then 0 else HandledOver(passes[..|passes| - 1]) + Handled(passes[|passes| - 1].calls)
  }

  lemma {:induction false} PassKeeps(before: Ledger, pass: Pass, after: Ledger, maxAttempts: nat)
    requires UniqueIds(before) && IsPass(before, pass, after, maxAttempts)
    ensures UniqueIds(after)
    ensures Potential(after, maxAttempts) + Handled(pass.calls) <= Potential(before, maxAttempts)
  {
    PassKeepsIds(before, pass.pending, pass.calls, pass.now, Handled(pass.calls));
    PassLowersPotential(before, pass.pending, pass.calls, pass.now, maxAttempts);
  }

  /** Replay stops: over any sequence of passes, the rows handled are no more than the attempts there were. */
  lemma {:induction false} PassesStop(ledgers: seq<Ledger>, passes: seq<Pass>, maxAttempts: nat)
    requires ArePasses(ledgers, passes, maxAttempts) && UniqueIds(ledgers[0])
    ensures UniqueIds(ledgers[|passes|])
    ensures HandledOver(passes) + Potential(ledgers[|passes|], maxAttempts) <= Potential(ledgers[0], maxAttempts)
  {
    if passes != [] {
      var n := |passes| - 1;
      PassesStop(ledgers[..n + 1], passes[..n], maxAttempts);
      PassKeeps(ledgers[n], passes[n], ledgers[n + 1], maxAttempts);
    }
  }

  lemma {:induction false} WeightBelow(ledger: Ledger, keys: set<Identity>, key: Identity, maxAttempts: nat)
    requires key in keys
    ensures Weight(ledger, key, maxAttempts) <= WeightOf(ledger, keys, maxAttempts)
  {
    WeightRemove(ledger, keys, key, maxAttempts);
  }

  lemma {:induction false} NoWeight(ledger: Ledger, keys: set<Identity>, maxAttempts: nat)
    requires forall key :: key in keys ==> Weight(ledger, key, maxAttempts) == 0
    ensures WeightOf(ledger, keys, maxAttempts) == 0
  {
    if keys != {} {
      var key :| key in keys;
      WeightRemove(ledger, keys, key, maxAttempts);
      NoWeight(ledger, keys - {key}, maxAttempts);
    }
  }

  /** A selection is empty exactly when nothing is left to spend. */
  lemma {:induction false} EmptyIffSpent(ledger: Ledger, pending: seq<Pending>, maxAttempts: nat)
    requires IsSelection(ledger, pending, maxAttempts)
    ensures pending == [] <==> Potential(ledger, maxAttempts) == 0
  {
    if pending == [] {
      NoWeight(ledger, ledger.Keys, maxAttempts);
    } else {
      WeightBelow(ledger, ledger.Keys, Key(pending[0]), maxAttempts);
    }
  }

  /** Fully answered passes: every selected row gets an outcome. */
  ghost predicate FullyAnswered(passes: seq<Pass>) {
    forall k :: 0 <= k < |passes| ==> Handled(passes[k].calls) == |passes[k].calls|
  }

  lemma {:induction false} AnsweredPassesSpend(ledgers: seq<Ledger>, passes: seq<Pass>, maxAttempts: nat)
    requires ArePasses(ledgers, passes, maxAttempts) && UniqueIds(ledgers[0]) && FullyAnswered(passes)
    ensures Potential(ledgers[|passes|], maxAttempts) <= Max(0, Potential(ledgers[0], maxAttempts) - |passes|)
  {
    if passes != [] {
      var n := |passes| - 1;
      AnsweredPassesSpend(ledgers[..n + 1], passes[..n], maxAttempts);
      PassesStop(ledgers[..n + 1], passes[..n], maxAttempts);
      PassKeeps(ledgers[n], passes[n], ledgers[n + 1], maxAttempts);
      EmptyIffSpent(ledgers[n], passes[n].pending, maxAttempts);
      assert Handled(passes[n].calls) == |passes[n].calls|;
    }
  }

  /** After as many fully answered passes as there were attempts left, a pass selects nothing. */
  lemma {:induction false} AnsweredPassesEmpty(ledgers: seq<Ledger>, passes: seq<Pass>, pending: seq<Pending>, maxAttempts: nat)
    requires ArePasses(ledgers, passes, maxAttempts) && UniqueIds(ledgers[0]) && FullyAnswered(passes)
    requires |passes| >= Potential(ledgers[0], maxAttempts)
    requires IsSelection(ledgers[|passes|], pending, maxAttempts)
    ensures pending == []
  {
    AnsweredPassesSpend(ledgers, passes, maxAttempts);
    EmptyIffSpent(ledgers[|passes|], pending, maxAttempts);
  }
}
