/**
  The `a2a_task` table: one row per delegated task, changed only by conditional
  UPDATEs.  Each UPDATE is a function of the one row it addresses (`None` when the
  table has no such row); the class keeps the table and performs those updates in
  place.
 */
module A2aTaskTracker {
  import opened Shared

  type TaskId = string
  /** Milliseconds, as a JavaScript `Date` counts them. */
  type Time = int

  /** TaskState of the A2A Protocol Specification v0.3.0, section 6.3, without
      `auth-required` and `unknown`, which the bot does not accept. */
  datatype TaskState = Submitted | Working | InputRequired | Completed | Failed | Canceled | Rejected

  predicate IsTerminal(s: TaskState) {
    s.Completed? || s.Failed? || s.Canceled? || s.Rejected?
  }

  predicate IsActiveExecution(s: TaskState) {
    s.Submitted? || s.Working?
  }

  datatype ThreadKey = ThreadKey(teamId: string, channelId: string, rootTs: string)

  datatype Row = Row(contextId: string, agentName: string, thread: ThreadKey, slackEventId: string,
                     state: TaskState, settled: bool, deadlineAt: Time, createdAt: Time, updatedAt: Time)

  type Table = map<TaskId, Row>

  datatype Lifecycle = Lifecycle(state: TaskState, deadlineAt: Option<Time>,
                                 ifDeadlineAtOrBefore: Option<Time>,
                                 requireCurrentStates: Option<set<TaskState>>)

  /** A transition that leaves the deadline alone and overrides no guard. */
  function To(s: TaskState): Lifecycle {
    Lifecycle(s, None, None, None)
  }

  const ACTIVE_EXECUTION_STATES: set<TaskState> := {Submitted, Working}

  /** The states a row must be in for `to` to apply; `None` is no demand. */
  function TransitionGuard(to: Lifecycle): Option<set<TaskState>> {
    if to.requireCurrentStates.Some? then to.requireCurrentStates
    else if to.state.Failed? || to.state.InputRequired? then Some(ACTIVE_EXECUTION_STATES)
    else None
  }

  /** The WHERE clause of `transition`. */
  predicate Applies(r: Option<Row>, to: Lifecycle) {
    && r.Some?
    && !r.value.settled
    && (TransitionGuard(to).Some? ==> r.value.state in TransitionGuard(to).value)
    && (to.ifDeadlineAtOrBefore.Some? ==> r.value.deadlineAt <= to.ifDeadlineAtOrBefore.value)
  }

  /** The SET clause of `transition`: `settled` is derived from the state. */
  function Written(row: Row, to: Lifecycle, now: Time): Row {
    row.(state := to.state,
         settled := IsTerminal(to.state),
         deadlineAt := if to.deadlineAt.Some? then to.deadlineAt.value else row.deadlineAt,
         updatedAt := now)
  }

  datatype Reply = Updated | NotUpdated | DbError

  predicate Executed(r: Option<Row>, to: Lifecycle, fault: Fault) {
    !fault.NotExecuted? && Applies(r, to)
  }

  function TransitionRow(r: Option<Row>, to: Lifecycle, now: Time, fault: Fault): Option<Row> {
    if Executed(r, to, fault) then Some(Written(r.value, to, now)) else r
  }

  function TransitionReply(r: Option<Row>, to: Lifecycle, fault: Fault): Reply {
    if !fault.NoFault? then DbError else if Applies(r, to) then Updated else NotUpdated
  }

  predicate Unsettles(r: Option<Row>, fault: Fault) {
    !fault.NotExecuted? && r.Some? && r.value.settled
  }

  function UnsettleRow(r: Option<Row>, now: Time, fault: Fault): Option<Row> {
    if Unsettles(r, fault) then Some(r.value.(settled := false, updatedAt := now)) else r
  }

  function RowOf(t: Table, id: TaskId): Option<Row> {
    if id in t then Some(t[id]) else None
  }

  function WithRow(t: Table, id: TaskId, r: Option<Row>): (t': Table)
    ensures RowOf(t', id) == r
    ensures forall other :: other != id ==> RowOf(t', other) == RowOf(t, other)
  {
    match r
    case Some(row) => t[id := row]
    case None => t - {id}
  }

  /** `deleteSettledOlderThan`. */
  function Pruned(t: Table, cutoff: Time): Table {
    map id | id in t && !(t[id].settled && t[id].updatedAt < cutoff) :: t[id]
  }

  predicate Eligible(t: Table, olderThan: Time, id: TaskId) {
    id in t && !t[id].settled && t[id].updatedAt < olderThan
  }

  const FIND_UNSETTLED_LIMIT: nat := 100

  /** What `findUnsettled` promises: distinct eligible rows, oldest update first, cut
      at the limit.  Rows with equal timestamps come in either order. */
  ghost predicate IsUnsettledPage(t: Table, olderThan: Time, page: seq<TaskId>) {
    && |page| <= FIND_UNSETTLED_LIMIT
    && (forall i, j :: 0 <= i < j < |page| ==> page[i] != page[j])
    && (forall i :: 0 <= i < |page| ==> Eligible(t, olderThan, page[i]))
    && (forall i, j :: 0 <= i < j < |page| ==> t[page[i]].updatedAt <= t[page[j]].updatedAt)
    && (forall id :: Eligible(t, olderThan, id) && id !in page ==>
          |page| == FIND_UNSETTLED_LIMIT && forall i :: 0 <= i < |page| ==> t[page[i]].updatedAt <= t[id].updatedAt)
  }

  /** The rows of a page as the query returned them. */
  function PageRows(t: Table, ids: seq<TaskId>): seq<(TaskId, Row)>
    requires forall i :: 0 <= i < |ids| ==> ids[i] in t
  {
    seq(|ids|, i requires 0 <= i < |ids| => (ids[i], t[ids[i]]))
  }

  class TaskTracker {
    var rows: Table

    constructor ()
      ensures rows == map[]
    {
      rows := map[];
    }

    method RecordDelegated(id: TaskId, row: Row, now: Time)
      modifies this
      ensures rows == if id in old(rows) then old(rows)
                      else old(rows)[id := row.(settled := false, createdAt := now, updatedAt := now)]
    {
      if id !in rows {
        rows := rows[id := row.(settled := false, createdAt := now, updatedAt := now)];
      }
    }

    method FindByTaskId(id: TaskId) returns (r: Option<Row>)
      ensures r == RowOf(rows, id)
    {
      r := if id in rows then Some(rows[id]) else None;
    }

    method Transition(id: TaskId, to: Lifecycle, now: Time, fault: Fault) returns (reply: Reply)
      modifies this
      ensures reply == TransitionReply(RowOf(old(rows), id), to, fault)
      ensures rows == WithRow(old(rows), id, TransitionRow(RowOf(old(rows), id), to, now, fault))
    {
      ghost var before := rows;
      var found := id in rows && !rows[id].settled;
      var guard := TransitionGuard(to);
      var allowed := found && (guard.None? || rows[id].state in guard.value);
      var inTime := allowed && (to.ifDeadlineAtOrBefore.None? || rows[id].deadlineAt <= to.ifDeadlineAtOrBefore.value);
      if inTime && !fault.NotExecuted? {
        rows := rows[id := Written(rows[id], to, now)];
      }
      reply := if !fault.NoFault? then DbError else if inTime then Updated else NotUpdated;
      assert !(inTime && !fault.NotExecuted?) ==> WithRow(before, id, RowOf(before, id)) == before;
    }

    method Unsettle(id: TaskId, now: Time, fault: Fault) returns (reply: Reply)
      modifies this
      ensures reply == if !fault.NoFault? then DbError
                       else if id in old(rows) && old(rows)[id].settled then Updated else NotUpdated
      ensures rows == WithRow(old(rows), id, UnsettleRow(RowOf(old(rows), id), now, fault))
    {
      var found := id in rows && rows[id].settled;
      reply := if !fault.NoFault? then DbError else if found then Updated else NotUpdated;
      if found && !fault.NotExecuted? {
        rows := rows[id := rows[id].(settled := false, updatedAt := now)];
      } else {
        assert WithRow(rows, id, RowOf(rows, id)) == rows;
      }
    }

    method DeleteSettledOlderThan(cutoff: Time) returns (deleted: nat)
      modifies this
      ensures rows == Pruned(old(rows), cutoff)
      ensures forall id :: id in rows <==>
                id in old(rows) && (old(rows)[id].settled ==> cutoff <= old(rows)[id].updatedAt)
      ensures forall id :: id in rows ==> rows[id] == old(rows)[id]
      ensures deleted == |old(rows).Keys - rows.Keys|
    {
      var kept := Pruned(rows, cutoff);
      deleted := |rows.Keys - kept.Keys|;
      rows := kept;
    }
  }
}
