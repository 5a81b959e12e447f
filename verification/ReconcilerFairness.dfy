/**
  Who a tick serves.  The page holds the rows that went longest without an update, and a
  visit that changes nothing does not count as one.
 */
module ReconcilerFairness {
  import opened Shared
  import opened A2aTaskTracker
  import opened Settlement
  import opened SettlementAlone
  import opened SettlementServices
  import opened ReconcilerServices

  function Rivals(t: Table, olderThan: Time, id: TaskId): set<TaskId>
    requires id in t
  {
    set e | e in t && e != id && Eligible(t, olderThan, e) && t[e].updatedAt <= t[id].updatedAt
  }

  /** The unsettled rows that went longer without an update. */
  function Elders(t: Table, id: TaskId): set<TaskId>
    requires id in t
  {
    set e | e in t && !t[e].settled && t[e].updatedAt < t[id].updatedAt
  }

  function AsSet(s: seq<TaskId>): set<TaskId> {
    set x | x in s
  }

  lemma {:induction false} DistinctCount(s: seq<TaskId>)
    requires forall i, j :: 0 <= i < j < |s| ==> s[i] != s[j]
    ensures |AsSet(s)| == |s|
  {
    if s == [] {
    } else {
      var n := |s| - 1;
      DistinctCount(s[..n]);
      assert AsSet(s) == AsSet(s[..n]) + {s[n]};
    }
  }

  lemma SubsetCount(a: set<TaskId>, b: set<TaskId>)
    requires a <= b
    ensures |a| <= |b|
  {
    assert b == a + (b - a);
  }

  /** Only unsettled rows past the grace period are served, each once and the older first.
      Such a row is served as soon as fewer than a hundred others are as old, and is not
      served while a hundred are older. */
  lemma OldestHundredAreServed(t: Table, olderThan: Time, page: seq<TaskId>, id: TaskId)
    requires IsUnsettledPage(t, olderThan, page) && id in t
    ensures id in page ==> !t[id].settled && t[id].updatedAt < olderThan
    ensures !t[id].settled && t[id].updatedAt < olderThan && |Rivals(t, olderThan, id)| < 100 ==> id in page
    ensures |Elders(t, id)| >= 100 ==> id !in page
    ensures forall i, j :: 0 <= i < j < |page| ==> page[i] != page[j] && page[i] in t && page[j] in t
                                                   && t[page[i]].updatedAt <= t[page[j]].updatedAt
  {
    DistinctCount(page);
    if id !in page && Eligible(t, olderThan, id) {
      assert AsSet(page) <= Rivals(t, olderThan, id);
      SubsetCount(AsSet(page), Rivals(t, olderThan, id));
    }
    if |Elders(t, id)| >= FIND_UNSETTLED_LIMIT {
      PageIsAllElders(t, olderThan, page, id);
      assert id !in AsSet(page);
    }
  }

  /** While a hundred rows are older, a page holds none but older ones. */
  lemma PageIsAllElders(t: Table, olderThan: Time, page: seq<TaskId>, id: TaskId)
    requires IsUnsettledPage(t, olderThan, page) && id in t && |Elders(t, id)| >= FIND_UNSETTLED_LIMIT
    ensures AsSet(page) <= Elders(t, id)
  {
    DistinctCount(page);
    if i :| 0 <= i < |page| && page[i] !in Elders(t, id) {
      forall e | e in Elders(t, id) ensures e in page {
        assert t[page[i]].updatedAt > t[e].updatedAt && Eligible(t, olderThan, e);
      }
      assert Elders(t, id) + {page[i]} <= AsSet(page);
      SubsetCount(Elders(t, id) + {page[i]}, AsSet(page));
    }
  }

  /** A row waiting for its user, polled while the agent still waits too. */
  predicate IsWaiting(t: Table, id: TaskId) {
    id in t && !t[id].settled && t[id].state.InputRequired?
  }

  /** The visit reaches the database and finds the agent still waiting. */
  predicate SeesNoReply(v: Visit) {
    v.oracle.commit.NoFault? && v.oracle.poll == Saw(InputRequired)
  }

  lemma WaitingVisitChangesNothing(row: Row, o: Oracle, now: Time)
    requires !row.settled && row.state.InputRequired?
    requires o.commit.NoFault? && o.poll == Saw(InputRequired)
    ensures Alone(Some(row), Blank(), Overdue(row), o, now) == Finished(Some(row), Blank(), Duplicate)
  {
    AloneUnfolds(Some(row), Blank(), Observe(row, InputRequired), o, now);
    AloneUnfolds(Some(row), Blank(), PollRemote(row), o, now);
    AloneUnfolds(Some(row), Blank(), Overdue(row), o, now);
  }

  lemma WaitingRowChangesNothing(t: Tick, id: TaskId, v: Visit)
    requires IsWaiting(t.rows, id) && SeesNoReply(v)
    ensures VisitRow(t, id, t.rows[id], v) == t
  {
    WaitingVisitChangesNothing(t.rows[id], v.oracle, v.now);
    RowsAgree(WithRow(t.rows, id, RowOf(t.rows, id)), t.rows);
    assert t.answers + Posts(0, id) == t.answers && t.questions + Posts(0, id) == t.questions;
  }

  lemma {:induction false} WaitingPageChangesNothing(t: Tick, page: seq<TaskId>, visits: seq<Visit>, n: nat)
    requires |page| == |visits| && n <= |page|
    requires forall i :: 0 <= i < |page| ==> page[i] in t.rows && IsWaiting(t.rows, page[i]) && SeesNoReply(visits[i])
    ensures Sweep(t, PageRows(t.rows, page)[..n], visits[..n]) == t
  {
    if n == 0 {
    } else {
      WaitingPageChangesNothing(t, page, visits, n - 1);
      SweepGrows(t, PageRows(t.rows, page), visits, n - 1);
      WaitingRowChangesNothing(t, page[n - 1], visits[n - 1]);
    }
  }

  /* ---- many ticks ---- */

  /** A tick with the bound of its query, its page, its visits and the cutoff of its prune. */
  datatype PagedTick = PagedTick(olderThan: Time, page: seq<TaskId>, visits: seq<Visit>, cutoff: Time)

  ghost predicate IsTickOf(t: Table, k: PagedTick) {
    IsUnsettledPage(t, k.olderThan, k.page) && |k.page| == |k.visits|
  }

  function AfterTick(t: Tick, k: PagedTick): Tick
    requires |k.page| == |k.visits| && forall i :: 0 <= i < |k.page| ==> k.page[i] in t.rows
  {
    var swept := Sweep(t, PageRows(t.rows, k.page), k.visits);
    swept.(rows := Pruned(swept.rows, k.cutoff))
  }

  /** `states[k]` is what the `k`th tick finds. */
  ghost predicate IsSeries(states: seq<Tick>, ticks: seq<PagedTick>) {
    && |states| == |ticks| + 1
    && forall k :: 0 <= k < |ticks| ==>
         IsTickOf(states[k].rows, ticks[k]) && states[k + 1] == AfterTick(states[k], ticks[k])
  }

  /** A hundred questions are open that are all older than the row. */
  ghost predicate IsStarved(t: Table, id: TaskId) {
    && id in t && !t[id].settled && |Elders(t, id)| >= FIND_UNSETTLED_LIMIT
    && forall e :: e in Elders(t, id) ==> IsWaiting(t, e)
  }

  /** Nothing but settled rows has gone. */
  ghost predicate SameButPruned(t: Tick, u: Tick) {
    && u.answers == t.answers && u.questions == t.questions && u.settled == t.settled
    && (forall e :: e in u.rows ==> e in t.rows && u.rows[e] == t.rows[e])
    && (forall e :: e in t.rows && !t.rows[e].settled ==> e in u.rows)
  }

  lemma PageWaits(t: Table, olderThan: Time, page: seq<TaskId>, id: TaskId)
    requires IsUnsettledPage(t, olderThan, page) && IsStarved(t, id)
    ensures id !in page && forall i :: 0 <= i < |page| ==> IsWaiting(t, page[i])
  {
    PageIsAllElders(t, olderThan, page, id);
    assert id !in AsSet(page);
    forall i | 0 <= i < |page| ensures IsWaiting(t, page[i]) {
      assert page[i] in AsSet(page);
    }
  }

  lemma StarvedSweep(t: Tick, k: PagedTick, id: TaskId)
    requires IsTickOf(t.rows, k) && IsStarved(t.rows, id) && forall v :: v in k.visits ==> SeesNoReply(v)
    ensures Sweep(t, PageRows(t.rows, k.page), k.visits) == t
  {
    PageWaits(t.rows, k.olderThan, k.page, id);
    WaitingSweep(t, k.page, k.visits);
  }

  lemma WaitingSweep(t: Tick, page: seq<TaskId>, visits: seq<Visit>)
    requires |page| == |visits| && forall i :: 0 <= i < |page| ==> page[i] in t.rows && IsWaiting(t.rows, page[i])
    requires forall v :: v in visits ==> SeesNoReply(v)
    ensures Sweep(t, PageRows(t.rows, page), visits) == t
  {
    forall i | 0 <= i < |page| ensures SeesNoReply(visits[i]) {
      assert visits[i] in visits;
    }
    WaitingPageChangesNothing(t, page, visits, |page|);
    var work := PageRows(t.rows, page);
    assert work[..|page|] == work && visits[..|page|] == visits;
  }

  lemma StarvationPersists(t: Tick, u: Tick, cutoff: Time, id: TaskId)
    requires IsStarved(u.rows, id) && SameButPruned(t, u)
    ensures var v := u.(rows := Pruned(u.rows, cutoff)); IsStarved(v.rows, id) && SameButPruned(t, v)
  {
    assert Elders(Pruned(u.rows, cutoff), id) == Elders(u.rows, id);
  }

  lemma StarvedTick(t: Tick, u: Tick, k: PagedTick, id: TaskId)
    requires IsTickOf(u.rows, k) && IsStarved(u.rows, id) && SameButPruned(t, u)
    requires forall v :: v in k.visits ==> SeesNoReply(v)
    ensures id !in k.page && IsStarved(AfterTick(u, k).rows, id) && SameButPruned(t, AfterTick(u, k))
  {
    PageWaits(u.rows, k.olderThan, k.page, id);
    StarvedSweep(u, k, id);
    StarvationPersists(t, u, k.cutoff, id);
  }

  lemma {:induction false} StarvedUpTo(states: seq<Tick>, ticks: seq<PagedTick>, id: TaskId, n: nat)
    requires IsSeries(states, ticks) && IsStarved(states[0].rows, id) && n <= |ticks|
    requires forall k :: 0 <= k < |ticks| ==> forall v :: v in ticks[k].visits ==> SeesNoReply(v)
    ensures forall k :: 0 <= k < n ==> id !in ticks[k].page
    ensures SameButPruned(states[0], states[n]) && IsStarved(states[n].rows, id)
  {
    if n == 0 {
    } else {
      var m := n - 1;
      StarvedUpTo(states, ticks, id, m);
      assert IsTickOf(states[m].rows, ticks[m]) && states[m + 1] == AfterTick(states[m], ticks[m]);
      StarvedTick(states[0], states[m], ticks[m], id);
    }
  }

  /** Hence a hundred questions left unanswered starve every younger row: over any series of
      ticks, whatever their clocks, the row is on no page, no post is made and no unsettled
      row changes. */
  lemma UnansweredQuestionsStarveTheRest(states: seq<Tick>, ticks: seq<PagedTick>, id: TaskId)
    requires IsSeries(states, ticks) && IsStarved(states[0].rows, id)
    requires forall k :: 0 <= k < |ticks| ==> forall v :: v in ticks[k].visits ==> SeesNoReply(v)
    ensures forall k :: 0 <= k < |ticks| ==> id !in ticks[k].page
    ensures SameButPruned(states[0], states[|ticks|])
  {
    StarvedUpTo(states, ticks, id, |ticks|);
  }

  /* ---- such a table ---- */

  /** `n` ids, each longer than the one before. */
  function Ids(n: nat): seq<TaskId> {
    seq(n, i requires 0 <= i => seq(i, _ => 'x'))
  }

  function QueuedRow(age: Time, state: TaskState): Row {
    Row("context", "agent", ThreadKey("team", "channel", "root"), "event", state, false, 0, 0, age)
  }

  /** A hundred questions and one task at work, asked in the order of their ids. */
  function CrowdedTable(): Table {
    map id | id in AsSet(Ids(FIND_UNSETTLED_LIMIT + 1)) ::
      QueuedRow(|id|, if |id| < FIND_UNSETTLED_LIMIT then InputRequired else Working)
  }

  lemma CrowdedTableStarves()
    ensures var id := Ids(FIND_UNSETTLED_LIMIT + 1)[FIND_UNSETTLED_LIMIT];
            IsStarved(CrowdedTable(), id) && CrowdedTable()[id].state.Working?
  {
    var t, n := CrowdedTable(), FIND_UNSETTLED_LIMIT;
    var ids := Ids(n + 1);
    var id := ids[n];
    assert id in AsSet(ids);
    assert Elders(t, id) == AsSet(ids[..n]);
    assert forall i :: 0 <= i < n ==> |ids[..n][i]| == i;
    DistinctCount(ids[..n]);
  }
}
