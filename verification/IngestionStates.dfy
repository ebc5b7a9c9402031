/** The nine-state ingestion machine: its transition table and the stage order behind termination. */
module IngestionStates {

  datatype IngestionState =
    | Queued
    | Parsing
    | Extracting
    | Ready
    | Scoring
    | Completed
    | RetryableFailed
    | TerminalFailed
    | Deleted

  const PROCESSING_STATES: set<IngestionState> := {Parsing, Extracting, Scoring}

  const TERMINAL_STATES: set<IngestionState> := {Ready, Completed, TerminalFailed, Deleted}

  predicate IsProcessing(state: IngestionState) {
    state in PROCESSING_STATES
  }

  predicate IsTerminal(state: IngestionState) {
    state in TERMINAL_STATES
  }

  /** A state that holds its content hash in the partial unique index. */
  predicate IsActive(state: IngestionState) {
    state !in TERMINAL_STATES
  }

  function Allowed(state: IngestionState): set<IngestionState> {
    match state
    case Queued => {Parsing, Deleted}
    case Parsing => {Extracting, RetryableFailed, TerminalFailed}
    case Extracting => {Ready, Scoring, RetryableFailed, TerminalFailed}
    case Ready => {Deleted}
    case Scoring => {Completed, RetryableFailed, TerminalFailed}
    case Completed => {Deleted}
    case RetryableFailed => {Queued, TerminalFailed}
    case TerminalFailed => {Deleted}
    case Deleted => {}
  }

  /** How far a state is from rest, when no new attempt is started. */
  function Stage(state: IngestionState): nat {
    match state
    case Parsing => 6
    case Extracting => 5
    case Scoring => 4
    case RetryableFailed => 3
    case Queued => 2
    case Ready => 1
    case Completed => 1
    case TerminalFailed => 1
    case Deleted => 0
  }

  /** A sequence of states in which each one is allowed after its predecessor. */
  ghost predicate IsPath(path: seq<IngestionState>) {
    forall i :: 0 <= i < |path| - 1 ==> path[i + 1] in Allowed(path[i])
  }

  /** The starts of an attempt along a path: the only moves that climb a stage. */
  function Attempts(path: seq<IngestionState>): nat {
    if |path| < 2 then 0
    else (if path[0] == Queued && path[1] == Parsing then 1 else 0) + Attempts(path[1..])
  }

  /** Terminal states are closed under the table: a path never becomes active again. */
  lemma {:induction false} TerminalIsForever(path: seq<IngestionState>, i: nat)
    requires IsPath(path) && i < |path| && IsTerminal(path[0])
    ensures IsTerminal(path[i])
  {
    if i > 0 {
      TerminalIsForever(path, i - 1);
      assert path[i - 1 + 1] in Allowed(path[i - 1]);
    }
  }

  /** The table has no cycle but the retry loop: a path is no longer than its attempts allow. */
  lemma {:induction false} PathIsBounded(path: seq<IngestionState>)
    requires IsPath(path) && |path| > 0
    ensures |path| + Stage(path[|path| - 1]) <= 1 + Stage(path[0]) + 5 * Attempts(path)
  {
    if |path| >= 2 {
      var rest := path[1..];
      forall i | 0 <= i < |rest| - 1 ensures rest[i + 1] in Allowed(rest[i]) {
        assert path[(i + 1) + 1] in Allowed(path[i + 1]);
      }
      PathIsBounded(rest);
      assert path[0 + 1] in Allowed(path[0]);
      assert Stage(path[1]) + 1 <= Stage(path[0]) + (if path[0] == Queued && path[1] == Parsing then 5 else 0);
    }
  }

  // ----- what can be reached -----

  /** The table read backwards: the states each one may be entered from. */
  lemma {:induction false} EnteredFrom(state: IngestionState)
    ensures Queued in Allowed(state) <==> state == RetryableFailed
    ensures Parsing in Allowed(state) <==> state == Queued
    ensures Extracting in Allowed(state) <==> state == Parsing
    ensures Scoring in Allowed(state) <==> state == Extracting
    ensures Ready in Allowed(state) <==> state == Extracting
    ensures Completed in Allowed(state) <==> state == Scoring
    ensures RetryableFailed in Allowed(state) <==> state in {Parsing, Extracting, Scoring}
    ensures TerminalFailed in Allowed(state) <==> state in {Parsing, Extracting, Scoring, RetryableFailed}
    ensures Deleted in Allowed(state) <==> state in {Queued, Ready, Completed, TerminalFailed}
  {
  }

  ghost predicate Leads(path: seq<IngestionState>, from: IngestionState, to: IngestionState) {
    IsPath(path) && |path| > 0 && path[0] == from && path[|path| - 1] == to
  }

  ghost predicate Reaches(from: IngestionState, to: IngestionState) {
    exists path :: Leads(path, from, to)
  }

  lemma {:induction false} JoinPaths(a: seq<IngestionState>, b: seq<IngestionState>, from: IngestionState, mid: IngestionState, to: IngestionState)
    requires Leads(a, from, mid) && Leads(b, mid, to)
    ensures Leads(a + b[1..], from, to)
  {
    var path := a + b[1..];
    forall i | 0 <= i < |path| - 1 ensures path[i + 1] in Allowed(path[i]) {
      if i + 1 < |a| {
        assert a[i + 1] in Allowed(a[i]);
      } else {
        assert b[i + 1 - |a| + 1] in Allowed(b[i + 1 - |a|]);
      }
    }
  }

  /** A way back to the queue from an active state. */
  lemma {:induction false} BackToQueue(state: IngestionState) returns (path: seq<IngestionState>)
    requires state in {Queued, Parsing, Extracting, Scoring, RetryableFailed}
    ensures Leads(path, state, Queued)
  {
    path := if state == Queued then [Queued]
            else if state == RetryableFailed then [RetryableFailed, Queued]
            else [state, RetryableFailed, Queued];
  }

  /** A way from the queue to any state. */
  lemma {:induction false} OutOfQueue(state: IngestionState) returns (path: seq<IngestionState>)
    ensures Leads(path, Queued, state)
  {
    match state
    case Queued => path := [Queued];
    case Parsing => path := [Queued, Parsing];
    case Extracting => path := [Queued, Parsing, Extracting];
    case Ready => path := [Queued, Parsing, Extracting, Ready];
    case Scoring => path := [Queued, Parsing, Extracting, Scoring];
    case Completed => path := [Queued, Parsing, Extracting, Scoring, Completed];
    case RetryableFailed => path := [Queued, Parsing, RetryableFailed];
    case TerminalFailed => path := [Queued, Parsing, TerminalFailed];
    case Deleted => path := [Queued, Deleted];
  }

  /** An unfinished job may still end anywhere; a finished one can only be deleted. */
  lemma {:induction false} ReachesIff(from: IngestionState, to: IngestionState)
    ensures Reaches(from, to)
            <==> from in {Queued, Parsing, Extracting, Scoring, RetryableFailed}
                 || to == from
                 || (to == Deleted && from in {Ready, Completed, TerminalFailed})
  {
    if from in {Queued, Parsing, Extracting, Scoring, RetryableFailed} {
      var a := BackToQueue(from);
      var b := OutOfQueue(to);
      JoinPaths(a, b, from, Queued, to);
    } else if to == from {
      assert Leads([from], from, to);
    } else if to == Deleted {
      assert Leads([from, Deleted], from, to);
    } else if Reaches(from, to) {
      var path :| Leads(path, from, to);
      FinishedPath(path, |path| - 1);
    }
  }

  lemma {:induction false} FinishedPath(path: seq<IngestionState>, i: nat)
    requires IsPath(path) && i < |path| && path[0] in {Ready, Completed, TerminalFailed, Deleted}
    ensures path[i] in {path[0], Deleted}
  {
    if i > 0 {
      FinishedPath(path, i - 1);
      assert path[i - 1 + 1] in Allowed(path[i - 1]);
    }
  }
}
