/** The ledger of one source: its rows by (external id, content hash), and its cursor arithmetic. */
module SyncLedger {
  import opened Common
  import opened SyncListing

  type ContentHash = nat

  /** Stands for the content of an item whose bytes were never seen. No real hash equals it. */
  const UNKNOWN_SHA256: ContentHash := 0

  datatype LedgerOutcome = Ingested | Failed

  datatype ErrorCode = ItemUnavailable | UnsupportedAttachment | IngestionFailed

  /** A row of `sync_source_items`. */
  datatype LedgerRow = LedgerRow(
    id: nat, job: Option<nat>, outcome: LedgerOutcome, error: Option<ErrorCode>,
    attempts: nat, firstSeen: int, lastSeen: int)

  type Identity = (ExternalId, ContentHash)

  type Ledger = map<Identity, LedgerRow>

  /** The newest instant among the items, and never one before `current`. */
  function NextCursor(current: int, processed: seq<SourceItem>): int {
    if processed == [] then current
    else Max(NextCursor(current, processed[..|processed| - 1]), processed[|processed| - 1].updatedAt)
  }

  lemma {:induction false} NextCursorIsMax(current: int, processed: seq<SourceItem>)
    ensures var next := NextCursor(current, processed);
            && current <= next
            && (forall item :: item in processed ==> item.updatedAt <= next)
            && (next == current || exists item :: item in processed && item.updatedAt == next)
  {
    if processed != [] {
      var front := processed[..|processed| - 1];
      NextCursorIsMax(current, front);
      assert processed == front + [processed[|processed| - 1]];
      assert forall item :: item in processed ==> item in front || item == processed[|processed| - 1];
      assert forall item :: item in front ==> item in processed;
    }
  }

  function AlreadyIngested(ledger: Ledger, key: Identity): bool {
    key in ledger && ledger[key].outcome == Ingested
  }

  /** The single-statement upsert. `id` is the id an insert draws. */
  function RecordItem(
    ledger: Ledger, key: Identity, outcome: LedgerOutcome, error: Option<ErrorCode>, job: Option<nat>, now: int, id: nat)
    : Ledger
  {
    if key in ledger then
      var row := ledger[key];
      ledger[key := row.(outcome := outcome, error := error, attempts := row.attempts + 1,
             lastSeen := now, job := job.Or(row.job))]
    else
      ledger[key := LedgerRow(id, job, outcome, error, 1, now, now)]
  }

  /**
   What one upsert leaves, in the fields of the rows: the row of the key gets the outcome and the
   error, counts one attempt more, keeps when it was first seen, and keeps its job unless it is
   given another; no other row changes.
   */
  ghost predicate Recorded(
    before: Ledger, after: Ledger, key: Identity, outcome: LedgerOutcome, error: Option<ErrorCode>, job: Option<nat>,
    now: int, id: nat)
  {
    && after.Keys == before.Keys + {key}
    && (forall other :: other in before && other != key ==> after[other] == before[other])
    && after[key].outcome == outcome && after[key].error == error && after[key].lastSeen == now
    && (key in before ==> && after[key].id == before[key].id && after[key].firstSeen == before[key].firstSeen
                          && after[key].attempts == before[key].attempts + 1
                          && after[key].job == (if job.Some? then job else before[key].job))
    && (key !in before ==> after[key].id == id && after[key].firstSeen == now && after[key].attempts == 1
                           && after[key].job == job)
  }

  lemma {:induction false} RecordItemRecords(
    ledger: Ledger, key: Identity, outcome: LedgerOutcome, error: Option<ErrorCode>, job: Option<nat>, now: int, id: nat)
    ensures Recorded(ledger, RecordItem(ledger, key, outcome, error, job, now, id), key, outcome, error, job, now, id)
  {
  }

  // ----- the ids of rows -----

  ghost predicate UniqueIds(ledger: Ledger) {
    forall a, b :: a in ledger && b in ledger && ledger[a].id == ledger[b].id ==> a == b
  }

  function IdsOf(ledger: Ledger): set<nat> {
    set key | key in ledger :: ledger[key].id
  }

  /** Every row keeps its id, and at most one row is new, under the id that was drawn. */
  ghost predicate Draws(before: Ledger, after: Ledger, id: nat) {
    && (forall key :: key in after && key in before ==> after[key].id == before[key].id)
    && (forall key :: key in after && key !in before ==> after[key].id == id)
    && (forall a, b :: a in after && a !in before && b in after && b !in before ==> a == b)
  }

  /** A fresh id keeps ids unique. */
  lemma {:induction false} DrawsKeep(before: Ledger, after: Ledger, id: nat)
    requires UniqueIds(before) && Draws(before, after, id) && id !in IdsOf(before)
    ensures UniqueIds(after) && IdsOf(after) <= IdsOf(before) + {id}
  {
    forall key | key in after ensures after[key].id in IdsOf(before) + {id} {
      assert key in before ==> before[key].id in IdsOf(before);
    }
    forall a, b | a in after && b in after && after[a].id == after[b].id ensures a == b {
      assert a in before ==> before[a].id in IdsOf(before);
      assert b in before ==> before[b].id in IdsOf(before);
    }
  }
}
