/**
 * The readiness waiters. Each waiter runs its `check` once on the page as it
 * is, then again after every page mutation, and settles on the first state
 * where the check is decisive; its timer rejects with a fixed message when
 * no observed state was. The page is reduced to the counts each check reads,
 * and the run of a waiter to the sequence of states it observes before its
 * timer fires (the first being the immediate check).
 */
module Waiters {

  /** What one `check` call decides: `{success: true}`, `{success: false,
   *  error}`, or keep waiting (`null`). */
  datatype CheckResult = Success | Failure(error: string) | KeepWaiting

  /** How the waiter's promise settles: resolved on the observed state at
   *  index `at`, or rejected. */
  datatype Outcome = Resolved(at: nat) | Rejected(reason: string)

  /** What the list-view check reads: is a board column present, and how
   *  many `tbody tr` rows are there. */
  datatype ListSnapshot = ListSnapshot(kanbanColumnPresent: bool, rowCount: nat)

  /** What the record-layout check reads: the modern and the legacy item counts. */
  datatype LayoutSnapshot = LayoutSnapshot(modernItemCount: nat, legacyItemCount: nat)

  const KanbanDetected: string := "Detected Kanban instead of List View"
  const ListTimeout: string := "List view rows not found"
  const KanbanTimeout: string := "Kanban board not found"
  const LayoutTimeout: string := "Record layout not found"

  /** The list-view check: a board column on the page is a failure even when
   *  rows are there too; otherwise rows are a success. */
  function ListCheck(s: ListSnapshot): (r: CheckResult)
    ensures r == Failure(KanbanDetected) <==> s.kanbanColumnPresent
    ensures r == Success <==> !s.kanbanColumnPresent && s.rowCount > 0
    ensures r == KeepWaiting <==> !s.kanbanColumnPresent && s.rowCount == 0
  {
    if s.kanbanColumnPresent then Failure(KanbanDetected)
    else if s.rowCount > 0 then Success
    else KeepWaiting
  }

  /** The board check: some column present. It never fails. */
  function KanbanCheck(columnCount: nat): (r: CheckResult)
    ensures r == Success <==> columnCount > 0
    ensures !r.Failure?
  {
    if columnCount > 0 then Success else KeepWaiting
  }

  /** The record-layout check: some modern or some legacy item. It never fails. */
  function LayoutCheck(s: LayoutSnapshot): (r: CheckResult)
    ensures r == Success <==> s.modernItemCount > 0 || s.legacyItemCount > 0
    ensures !r.Failure?
  {
    if s.modernItemCount > 0 || s.legacyItemCount > 0 then Success else KeepWaiting
  }

  /** Settling from the `i`-th observed state on. */
  function SettleFrom(results: seq<CheckResult>, i: nat, timeoutMessage: string): (r: Outcome)
    requires i <= |results|
    ensures r.Resolved? ==> i <= r.at < |results| && results[r.at] == Success
    ensures r.Rejected? ==>
      r.reason == timeoutMessage || exists k :: i <= k < |results| && results[k] == Failure(r.reason)
    decreases |results| - i
  {
    if i == |results| then Rejected(timeoutMessage)
    else match results[i]
      case Success => Resolved(i)
      case Failure(e) => Rejected(e)
      case KeepWaiting => SettleFrom(results, i + 1, timeoutMessage)
  }

  /** The promise a waiter returns: resolved only on a successful state,
   *  rejected only with a state's error or the timer's message. */
  function Settle(results: seq<CheckResult>, timeoutMessage: string): (r: Outcome)
    ensures r.Resolved? ==> r.at < |results| && results[r.at] == Success
    ensures r.Rejected? ==>
      r.reason == timeoutMessage || exists k :: 0 <= k < |results| && results[k] == Failure(r.reason)
  {
    SettleFrom(results, 0, timeoutMessage)
  }

  /** No state before `k` was decisive. */
  ghost predicate UndecidedBefore(results: seq<CheckResult>, k: int) {
    forall j :: 0 <= j < k && j < |results| ==> results[j] == KeepWaiting
  }

  lemma {:induction false} SettleFromIsFirstDecisive(results: seq<CheckResult>, i: nat, msg: string)
    requires i <= |results| && UndecidedBefore(results, i)
    ensures var o := SettleFrom(results, i, msg);
      && (o.Resolved? ==> o.at < |results| && results[o.at] == Success && UndecidedBefore(results, o.at))
      && (o.Rejected? ==>
            (UndecidedBefore(results, |results|) && o.reason == msg)
            || (exists k :: 0 <= k < |results| && results[k] == Failure(o.reason) && UndecidedBefore(results, k)))
    decreases |results| - i
  {
    if i < |results| && results[i] == KeepWaiting {
      SettleFromIsFirstDecisive(results, i + 1, msg);
    }
  }

  /** A waiter settles on the first decisive state, with that state's verdict;
   *  with none, it rejects with its timeout message. */
  lemma SettleIsFirstDecisive(results: seq<CheckResult>, msg: string)
    ensures var o := Settle(results, msg);
      && (o.Resolved? ==> o.at < |results| && results[o.at] == Success && UndecidedBefore(results, o.at))
      && (o.Rejected? ==>
            (UndecidedBefore(results, |results|) && o.reason == msg)
            || (exists k :: 0 <= k < |results| && results[k] == Failure(o.reason) && UndecidedBefore(results, k)))
  {
    SettleFromIsFirstDecisive(results, 0, msg);
  }

  /** Without any decisive state the timer's message is the verdict. */
  lemma {:induction false} UndecidedTimesOut(results: seq<CheckResult>, i: nat, msg: string)
    requires i <= |results|
    requires forall j :: i <= j < |results| ==> results[j] == KeepWaiting
    ensures SettleFrom(results, i, msg) == Rejected(msg)
    decreases |results| - i
  {
    if i < |results| {
      UndecidedTimesOut(results, i + 1, msg);
    }
  }

  /** A state decisive at `k`, with only undecided states before it, decides. */
  lemma {:induction false} DecisiveStateSettles(results: seq<CheckResult>, i: nat, k: nat, msg: string)
    requires i <= k < |results| && results[k] != KeepWaiting
    requires forall j :: i <= j < k ==> results[j] == KeepWaiting
    ensures SettleFrom(results, i, msg) == if results[k] == Success then Resolved(k) else Rejected(results[k].error)
    decreases k - i
  {
    if i < k {
      DecisiveStateSettles(results, i + 1, k, msg);
    }
  }

  function ListResults(snaps: seq<ListSnapshot>): seq<CheckResult> {
    seq(|snaps|, i requires 0 <= i < |snaps| => ListCheck(snaps[i]))
  }

  function KanbanResults(columnCounts: seq<nat>): seq<CheckResult> {
    seq(|columnCounts|, i requires 0 <= i < |columnCounts| => KanbanCheck(columnCounts[i]))
  }

  function LayoutResults(snaps: seq<LayoutSnapshot>): seq<CheckResult> {
    seq(|snaps|, i requires 0 <= i < |snaps| => LayoutCheck(snaps[i]))
  }

  /** `waitForListViewRows` over the observed states. */
  function WaitForListViewRows(snaps: seq<ListSnapshot>): (r: Outcome)
    ensures r.Resolved? ==> r.at < |snaps| && !snaps[r.at].kanbanColumnPresent && snaps[r.at].rowCount > 0
    ensures r.Rejected? ==> r.reason == KanbanDetected || r.reason == ListTimeout
  {
    Settle(ListResults(snaps), ListTimeout)
  }

  /** `waitForKanbanBoard` over the observed column counts. */
  function WaitForKanbanBoard(columnCounts: seq<nat>): (r: Outcome)
    ensures r.Resolved? ==> r.at < |columnCounts| && columnCounts[r.at] > 0
    ensures r.Rejected? ==> r.reason == KanbanTimeout
  {
    Settle(KanbanResults(columnCounts), KanbanTimeout)
  }

  /** `waitForRecordLayout` over the observed states. */
  function WaitForRecordLayout(snaps: seq<LayoutSnapshot>): (r: Outcome)
    ensures r.Resolved? ==> r.at < |snaps| && (snaps[r.at].modernItemCount > 0 || snaps[r.at].legacyItemCount > 0)
    ensures r.Rejected? ==> r.reason == LayoutTimeout
  {
    Settle(LayoutResults(snaps), LayoutTimeout)
  }

  /** The list waiter settles at the first state with a board column or a row:
   *  rejected as a board when the column is there, resolved otherwise. */
  lemma ListWaiterSettlesAtFirstChange(snaps: seq<ListSnapshot>, k: nat)
    requires k < |snaps| && (snaps[k].kanbanColumnPresent || snaps[k].rowCount > 0)
    requires forall j :: 0 <= j < k ==> !snaps[j].kanbanColumnPresent && snaps[j].rowCount == 0
    ensures WaitForListViewRows(snaps)
      == if snaps[k].kanbanColumnPresent then Rejected(KanbanDetected) else Resolved(k)
  {
    DecisiveStateSettles(ListResults(snaps), 0, k, ListTimeout);
  }

  /** The list waiter times out when no state had a column or a row. */
  lemma ListWaiterTimesOut(snaps: seq<ListSnapshot>)
    requires forall j :: 0 <= j < |snaps| ==> !snaps[j].kanbanColumnPresent && snaps[j].rowCount == 0
    ensures WaitForListViewRows(snaps) == Rejected(ListTimeout)
  {
    UndecidedTimesOut(ListResults(snaps), 0, ListTimeout);
  }

  lemma {:induction false} KanbanSettleFrom(columnCounts: seq<nat>, i: nat)
    requires i <= |columnCounts|
    ensures var o := SettleFrom(KanbanResults(columnCounts), i, KanbanTimeout);
      && (o.Rejected? <==> forall j :: i <= j < |columnCounts| ==> columnCounts[j] == 0)
      && (o.Rejected? ==> o.reason == KanbanTimeout)
      && (o.Resolved? ==> (i <= o.at < |columnCounts| && columnCounts[o.at] > 0
            && forall j :: i <= j < o.at ==> columnCounts[j] == 0))
    decreases |columnCounts| - i
  {
    if i < |columnCounts| && columnCounts[i] == 0 {
      KanbanSettleFrom(columnCounts, i + 1);
    }
  }

  /** The board waiter resolves at the first state with a column, and
   *  otherwise rejects, only with its timeout message. */
  lemma KanbanWaiterOutcome(columnCounts: seq<nat>)
    ensures var o := WaitForKanbanBoard(columnCounts);
      && (o.Rejected? <==> forall j :: 0 <= j < |columnCounts| ==> columnCounts[j] == 0)
      && (o.Rejected? ==> o.reason == KanbanTimeout)
      && (o.Resolved? ==> (o.at < |columnCounts| && columnCounts[o.at] > 0
            && forall j :: 0 <= j < o.at ==> columnCounts[j] == 0))
  {
    KanbanSettleFrom(columnCounts, 0);
  }

  lemma {:induction false} LayoutSettleFrom(snaps: seq<LayoutSnapshot>, i: nat)
    requires i <= |snaps|
    ensures var o := SettleFrom(LayoutResults(snaps), i, LayoutTimeout);
      && (o.Rejected? <==> forall j :: i <= j < |snaps| ==> snaps[j].modernItemCount == 0 && snaps[j].legacyItemCount == 0)
      && (o.Rejected? ==> o.reason == LayoutTimeout)
      && (o.Resolved? ==> (i <= o.at < |snaps| && (snaps[o.at].modernItemCount > 0 || snaps[o.at].legacyItemCount > 0)
            && forall j :: i <= j < o.at ==> snaps[j].modernItemCount == 0 && snaps[j].legacyItemCount == 0))
    decreases |snaps| - i
  {
    if i < |snaps| && snaps[i].modernItemCount == 0 && snaps[i].legacyItemCount == 0 {
      LayoutSettleFrom(snaps, i + 1);
    }
  }

  /** The layout waiter resolves at the first state with any item, and
   *  otherwise rejects, only with its timeout message. */
  lemma LayoutWaiterOutcome(snaps: seq<LayoutSnapshot>)
    ensures var o := WaitForRecordLayout(snaps);
      && (o.Rejected? <==> forall j :: 0 <= j < |snaps| ==> snaps[j].modernItemCount == 0 && snaps[j].legacyItemCount == 0)
      && (o.Rejected? ==> o.reason == LayoutTimeout)
      && (o.Resolved? ==> (o.at < |snaps| && (snaps[o.at].modernItemCount > 0 || snaps[o.at].legacyItemCount > 0)
            && forall j :: 0 <= j < o.at ==> snaps[j].modernItemCount == 0 && snaps[j].legacyItemCount == 0))
  {
    LayoutSettleFrom(snaps, 0);
  }
}
