/**
  The reconciler and the reply path as they are written, each matched against its actor
  of `Settlement` running alone, and what one whole tick of the reconciler adds up to.
 */
module ReconcilerServices {
  import opened Shared
  import opened A2aTaskTracker
  import opened Settlement
  import opened SettlementAlone
  import opened SettlementServices

  /** What the surroundings decide for one row of a tick, and the clock at that row. */
  datatype Visit = Visit(oracle: Oracle, now: Time)

  datatype Tick = Tick(rows: Table, answers: seq<TaskId>, questions: seq<TaskId>, settled: nat)

  function VisitRow(t: Tick, id: TaskId, row: Row, v: Visit): Tick {
    var e := EffectOf(t.rows, t.answers, t.questions, id, Overdue(row), v.oracle, v.now);
    Tick(e.rows, e.answers, e.questions, t.settled + Bit(e.outcome.Settled?))
  }

  /** The rows of a page visited in order, each by the snapshot the query returned. */
  function Sweep(t: Tick, work: seq<(TaskId, Row)>, visits: seq<Visit>): Tick
    requires |work| == |visits|
  {
    if work == [] then t
    else
      var n := |work| - 1;
      VisitRow(Sweep(t, work[..n], visits[..n]), work[n].0, work[n].1, visits[n])
  }

  /** What `runOnce` resolves to, or its rejection. */
  datatype TickResult = Ticked(settled: nat, pruned: nat) | TickRejected

  class TaskReconciler {
    const finalizer: ResponseFinalizer
    var isRunning: bool

    constructor (finalizer: ResponseFinalizer)
      ensures this.finalizer == finalizer && !isRunning
    {
      this.finalizer, isRunning := finalizer, false;
    }

    method SettleFailure(id: TaskId, row: Row, o: Oracle, now: Time) returns (settled: bool)
      modifies finalizer.tracker, finalizer.slack
      ensures var e := EffectOf(old(finalizer.tracker.rows), old(finalizer.slack.answers),
                                old(finalizer.slack.questions), id, PostAnswer(row), o, now);
              && finalizer.tracker.rows == e.rows && finalizer.slack.answers == e.answers
              && finalizer.slack.questions == e.questions && settled == e.outcome.Settled?
    {
      PostOrRollBackEffect(finalizer.tracker.rows, finalizer.slack.answers, finalizer.slack.questions, id, row, o, now);
      var posted := finalizer.slack.PostAnswer(id, o.postOk);
      if !posted {
        var undone := finalizer.tracker.Unsettle(id, now, o.undo);
      }
      settled := posted;
    }

    method ReconcileRow(id: TaskId, row: Row, o: Oracle, now: Time) returns (settled: bool)
      modifies finalizer.tracker, finalizer.slack
      ensures var e := EffectOf(old(finalizer.tracker.rows), old(finalizer.slack.answers),
                                old(finalizer.slack.questions), id, Overdue(row), o, now);
              && finalizer.tracker.rows == e.rows && finalizer.slack.answers == e.answers
              && finalizer.slack.questions == e.questions && settled == e.outcome.Settled?
    {
      var tracker, slack := finalizer.tracker, finalizer.slack;
      ghost var rows, answers, questions := tracker.rows, slack.answers, slack.questions;
      OverdueEffect(rows, answers, questions, id, row, o, now);
      if row.state in ACTIVE_EXECUTION_STATES && row.deadlineAt <= now {
        EffectUnfolds(rows, answers, questions, id, Expire(row, now), o, now);
        var reply := tracker.Transition(id, To(Failed).(ifDeadlineAtOrBefore := Some(now)), now, o.expire);
        if reply.Updated? {
          settled := SettleFailure(id, row, o, now);
          return;
        }
      }
      settled := PollAndSettle(id, row, o, now);
    }

    /** The rest of `reconcileRow`: poll the remote agent and act on what it says. */
    method PollAndSettle(id: TaskId, row: Row, o: Oracle, now: Time) returns (settled: bool)
      modifies finalizer.tracker, finalizer.slack
      ensures var e := EffectOf(old(finalizer.tracker.rows), old(finalizer.slack.answers),
                                old(finalizer.slack.questions), id, PollRemote(row), o, now);
              && finalizer.tracker.rows == e.rows && finalizer.slack.answers == e.answers
              && finalizer.slack.questions == e.questions && settled == e.outcome.Settled?
    {
      var tracker, slack := finalizer.tracker, finalizer.slack;
      PollEffect(tracker.rows, slack.answers, slack.questions, id, row, o, now);
      if o.poll.NoAgent? || o.poll.Unreachable? {
        return false;
      }
      if o.poll.NotFound? {
        EffectUnfolds(tracker.rows, slack.answers, slack.questions, id, SettleGone(row), o, now);
        var reply := tracker.Transition(id, GoneLifecycle(row), now, o.commit);
        if reply.Updated? {
          settled := SettleFailure(id, row, o, now);
        } else {
          EffectOfDone(tracker.rows, slack.answers, slack.questions, id, Skipped, o, now);
          settled := false;
        }
        return;
      }
      var outcome := finalizer.DispatchTask(id, row, if o.poll.Saw? then Some(o.poll.state) else None, o, now);
      settled := outcome.Settled?;
    }

    /** The loop over the rows of a page. */
    method ReconcileRows(work: seq<(TaskId, Row)>, visits: seq<Visit>) returns (settled: nat)
      requires |work| == |visits|
      modifies finalizer.tracker, finalizer.slack
      ensures Tick(finalizer.tracker.rows, finalizer.slack.answers, finalizer.slack.questions, settled)
           == Sweep(Tick(old(finalizer.tracker.rows), old(finalizer.slack.answers),
                         old(finalizer.slack.questions), 0), work, visits)
    {
      var tracker, slack := finalizer.tracker, finalizer.slack;
      ghost var start := Tick(tracker.rows, slack.answers, slack.questions, 0);
      settled := 0;
      for i := 0 to |work|
        invariant Tick(tracker.rows, slack.answers, slack.questions, settled) == Sweep(start, work[..i], visits[..i])
      {
        assert work[..i + 1][..i] == work[..i] && visits[..i + 1][..i] == visits[..i];
        var decided := ReconcileRow(work[i].0, work[i].1, visits[i].oracle, visits[i].now);
        if decided {
          settled := settled + 1;
        }
      }
      assert work[..|work|] == work && visits[..|work|] == visits;
    }

    /** The body of a tick.  `found` is the page the query returned (`None`: the query
        failed), `listed` whether the registry could list its agents, which is asked only for
        a page with rows: if not, the tick is rejected before it visits one. */
    method RunOnceLocked(found: Option<seq<TaskId>>, listed: bool, visits: seq<Visit>, cutoff: Time, prune: Fault)
      returns (result: TickResult)
      requires found.Some? ==> IsPageOf(finalizer.tracker.rows, found.value, visits)
      modifies finalizer.tracker, finalizer.slack
      ensures IsOutcomeOf(Tick(old(finalizer.tracker.rows), old(finalizer.slack.answers),
                               old(finalizer.slack.questions), 0),
                       found, listed, visits, cutoff, prune,
                       finalizer.tracker.rows, finalizer.slack.answers, finalizer.slack.questions, result)
    {
      var settled := 0;
      if found.Some? && found.value != [] {
        if !listed {
          return TickRejected;
        }
        settled := ReconcileRows(PageRows(finalizer.tracker.rows, found.value), visits);
      }
      var pruned := 0;
      if !prune.NotExecuted? {
        pruned := finalizer.tracker.DeleteSettledOlderThan(cutoff);
        if !prune.NoFault? {
          pruned := 0;
        }
      }
      result := Ticked(settled, pruned);
    }

    /** One tick; a call that finds another under way does nothing, and the flag is free
        again even after a rejection. */
    method RunOnce(found: Option<seq<TaskId>>, listed: bool, visits: seq<Visit>, cutoff: Time, prune: Fault)
      returns (result: TickResult)
      requires found.Some? ==> IsPageOf(finalizer.tracker.rows, found.value, visits)
      modifies this, finalizer.tracker, finalizer.slack
      ensures isRunning == old(isRunning)
      ensures old(isRunning) ==>
                && result == Ticked(0, 0) && finalizer.tracker.rows == old(finalizer.tracker.rows)
                && finalizer.slack.answers == old(finalizer.slack.answers)
                && finalizer.slack.questions == old(finalizer.slack.questions)
      ensures !old(isRunning) ==>
                IsOutcomeOf(Tick(old(finalizer.tracker.rows), old(finalizer.slack.answers),
                                 old(finalizer.slack.questions), 0),
                         found, listed, visits, cutoff, prune,
                         finalizer.tracker.rows, finalizer.slack.answers, finalizer.slack.questions, result)
    {
      if isRunning {
        return Ticked(0, 0);
      }
      isRunning := true;
      result := RunOnceLocked(found, listed, visits, cutoff, prune);
      isRunning := false;
    }
  }

  /** The page names rows of the table, with a visit for each. */
  predicate IsPageOf(t: Table, page: seq<TaskId>, visits: seq<Visit>) {
    |visits| == |page| && forall i :: 0 <= i < |page| ==> page[i] in t
  }

  /** What one tick from `start` leaves behind and reports: nothing if it is rejected, and
      otherwise the sweep of its page, pruned. */
  predicate IsOutcomeOf(start: Tick, found: Option<seq<TaskId>>, listed: bool, visits: seq<Visit>,
                        cutoff: Time, prune: Fault,
                        rows: Table, answers: seq<TaskId>, questions: seq<TaskId>, result: TickResult)
    requires found.Some? ==> IsPageOf(start.rows, found.value, visits)
  {
    if found.Some? && found.value != [] && !listed then
      result == TickRejected && rows == start.rows && answers == start.answers && questions == start.questions
    else
      var t := if found.Some? then Sweep(start, PageRows(start.rows, found.value), visits) else start;
      var kept := Pruned(t.rows, cutoff);
      && rows == (if prune.NotExecuted? then t.rows else kept) && answers == t.answers && questions == t.questions
      && result == Ticked(t.settled, if prune.NoFault? then |t.rows.Keys - kept.Keys| else 0)
  }

  lemma OverdueEffect(rows: Table, answers: seq<TaskId>, questions: seq<TaskId>,
                      id: TaskId, row: Row, o: Oracle, now: Time)
    ensures EffectOf(rows, answers, questions, id, Overdue(row), o, now)
         == EffectOf(rows, answers, questions, id,
                     if IsActiveExecution(row.state) && row.deadlineAt <= now then Expire(row, now)
                     else PollRemote(row), o, now)
  {
  }

  lemma PollEffect(rows: Table, answers: seq<TaskId>, questions: seq<TaskId>,
                   id: TaskId, row: Row, o: Oracle, now: Time)
    ensures EffectOf(rows, answers, questions, id, PollRemote(row), o, now)
         == match o.poll
            case NoAgent => Effect(rows, Skipped, answers, questions)
            case Unreachable => Effect(rows, Skipped, answers, questions)
            case NotFound => EffectOf(rows, answers, questions, id, SettleGone(row), o, now)
            case Malformed => EffectOf(rows, answers, questions, id, Done(Failure), o, now)
            case Saw(s) => EffectOf(rows, answers, questions, id, Observe(row, s), o, now)
  {
    RowsAgree(WithRow(rows, id, RowOf(rows, id)), rows);
    EffectUnfolds(rows, answers, questions, id, PollRemote(row), o, now);
    EffectOfDone(rows, answers, questions, id, Skipped, o, now);
  }

  /** `resumeActiveTask`, apart from the redelegation that may follow an unresumable task:
      that one records a new row under a new task. */
  method ResumeActiveTask(tracker: TaskTracker, slack: SlackThread, id: TaskId, row: Row, o: Oracle, now: Time)
    returns (outcome: Outcome)
    modifies tracker
    ensures Effect(tracker.rows, outcome, slack.answers, slack.questions)
         == EffectOf(old(tracker.rows), slack.answers, slack.questions, id, SendReply(row), o, now)
  {
    RowsAgree(WithRow(tracker.rows, id, RowOf(tracker.rows, id)), tracker.rows);
    EffectUnfolds(tracker.rows, slack.answers, slack.questions, id, SendReply(row), o, now);
    if o.send.SendFailed? {
      outcome := NotResumed;
    } else if o.send.Unresumable? {
      EffectUnfolds(tracker.rows, slack.answers, slack.questions, id, SettleUnresumable(row), o, now);
      var reply := tracker.Transition(id, UnresumableLifecycle(), now, o.commit);
      outcome := Resumed;
    } else {
      EffectUnfolds(tracker.rows, slack.answers, slack.questions, id,
                    CommitResume(row, o.send.state, o.send.deadlineAt), o, now);
      var reply := tracker.Transition(id, ResumeLifecycle(o.send.state, o.send.deadlineAt), now, o.commit);
      outcome := Resumed;
    }
    EffectOfDone(tracker.rows, slack.answers, slack.questions, id, outcome, o, now);
  }

  /* ---- one whole tick ---- */

  lemma {:induction false} SettledIsDelivered(r: Option<Row>, p: Phase, o: Oracle, now: Time)
    requires !p.MarkResponded? && p != Done(Settled)
    ensures var f := Alone(r, Blank(), p, o, now); f.ledger.delivered == Bit(f.outcome.Settled?)
    decreases AwaitsLeft(p)
  {
    AloneUnfolds(r, Blank(), p, o, now);
    if p.PostAnswer? && o.postOk {
      AnswerIsPosted(r, Blank(), p.row, o, now);
    } else if !p.Done? {
      var s := PhaseStep(r, Blank(), p, o, now);
      EveryStepMakesProgress(r, Blank(), p, o, now);
      StepIgnoresLedger(r, Blank(), p, o, now);
      LedgerIsAdditive(s.row, s.ledger, s.phase, o, now);
      OnlyMarkingSettles(r, p, o, now);
      SettledIsDelivered(s.row, s.phase, o, now);
    }
  }

  lemma OnlyMarkingSettles(r: Option<Row>, p: Phase, o: Oracle, now: Time)
    requires !p.Done? && !p.MarkResponded? && !(p.PostAnswer? && o.postOk)
    ensures var q := PhaseStep(r, Blank(), p, o, now).phase; !q.MarkResponded? && q != Done(Settled)
  {
  }

  /** Conservation over a tick, whatever fails: the count it returns is the number of
      answers Slack accepted from it. */
  lemma {:induction false} TickCountsItsAnswers(t: Tick, work: seq<(TaskId, Row)>, visits: seq<Visit>)
    requires |work| == |visits|
    ensures var u := Sweep(t, work, visits); |u.answers| - |t.answers| == u.settled - t.settled
  {
    if work == [] {
    } else {
      var n := |work| - 1;
      var prev := Sweep(t, work[..n], visits[..n]);
      TickCountsItsAnswers(t, work[..n], visits[..n]);
      SettledIsDelivered(RowOf(prev.rows, work[n].0), Overdue(work[n].1), visits[n].oracle, visits[n].now);
    }
  }

  function CountDecided(work: seq<(TaskId, Row)>, visits: seq<Visit>): nat
    requires |work| == |visits|
  {
    if work == [] then 0
    else
      var n := |work| - 1;
      CountDecided(work[..n], visits[..n]) + Bit(Decides(work[n].1, visits[n].oracle.poll, visits[n].now))
  }

  lemma {:induction false} SweepTouchesOnlyItsPage(t: Tick, work: seq<(TaskId, Row)>, visits: seq<Visit>, id: TaskId)
    requires |work| == |visits| && forall i :: 0 <= i < |work| ==> work[i].0 != id
    ensures RowOf(Sweep(t, work, visits).rows, id) == RowOf(t.rows, id)
  {
    if work == [] {
    } else {
      var n := |work| - 1;
      SweepTouchesOnlyItsPage(t, work[..n], visits[..n], id);
    }
  }

  /** A faultless tick settles and answers exactly the rows of its page that `Decides`
      picks out, each by the state it had when the tick began. */
  lemma {:induction false} TickSettlesExactly(t: Tick, page: seq<TaskId>, visits: seq<Visit>, olderThan: Time)
    requires IsUnsettledPage(t.rows, olderThan, page) && |page| == |visits|
    requires forall i :: 0 <= i < |visits| ==> IsFaultless(visits[i].oracle)
    ensures var work := PageRows(t.rows, page);
            var u := Sweep(t, work, visits);
            && u.settled == t.settled + CountDecided(work, visits)
            && (forall i :: 0 <= i < |page| ==>
                  && RowOf(u.rows, page[i]).Some?
                  && (u.rows[page[i]].settled <==> Decides(t.rows[page[i]], visits[i].oracle.poll, visits[i].now)))
  {
    SweepPrefixSettlesExactly(t, page, visits, olderThan, |page|);
    var work := PageRows(t.rows, page);
    assert work[..|page|] == work && visits[..|page|] == visits;
  }

  /** The rows of the first `n` entries of the page, after a sweep of just these. */
  ghost predicate SettledExactly(t: Tick, u: Tick, page: seq<TaskId>, visits: seq<Visit>, n: nat)
    requires n <= |page| == |visits| && forall id :: id in page ==> id in t.rows
  {
    forall i :: 0 <= i < n ==>
      && RowOf(u.rows, page[i]).Some?
      && (u.rows[page[i]].settled <==> Decides(t.rows[page[i]], visits[i].oracle.poll, visits[i].now))
  }

  lemma SweepGrows(t: Tick, work: seq<(TaskId, Row)>, visits: seq<Visit>, m: nat)
    requires m < |work| == |visits|
    ensures Sweep(t, work[..m + 1], visits[..m + 1])
         == VisitRow(Sweep(t, work[..m], visits[..m]), work[m].0, work[m].1, visits[m])
    ensures CountDecided(work[..m + 1], visits[..m + 1])
         == CountDecided(work[..m], visits[..m]) + Bit(Decides(work[m].1, visits[m].oracle.poll, visits[m].now))
  {
    assert work[..m + 1][..m] == work[..m] && visits[..m + 1][..m] == visits[..m];
  }

  lemma {:induction false} SweepPrefixSettlesExactly(t: Tick, page: seq<TaskId>, visits: seq<Visit>, olderThan: Time,
                                                     n: nat)
    requires IsUnsettledPage(t.rows, olderThan, page) && |page| == |visits| && n <= |page|
    requires forall i :: 0 <= i < |visits| ==> IsFaultless(visits[i].oracle)
    ensures var work := PageRows(t.rows, page);
            var u := Sweep(t, work[..n], visits[..n]);
            u.settled == t.settled + CountDecided(work[..n], visits[..n]) && SettledExactly(t, u, page, visits, n)
    decreases n
  {
    var work := PageRows(t.rows, page);
    if n == 0 {
    } else {
      var m := n - 1;
      SweepPrefixSettlesExactly(t, page, visits, olderThan, m);
      SweepGrows(t, work, visits, m);
      SweepTouchesOnlyItsPage(t, work[..m], visits[..m], page[m]);
      OneMoreVisit(t, Sweep(t, work[..m], visits[..m]), page, visits, m);
    }
  }

  lemma OneMoreVisit(t: Tick, prev: Tick, page: seq<TaskId>, visits: seq<Visit>, m: nat)
    requires m < |page| == |visits| && forall id :: id in page ==> id in t.rows && !t.rows[id].settled
    requires forall i, j :: 0 <= i < j < |page| ==> page[i] != page[j]
    requires IsFaultless(visits[m].oracle) && RowOf(prev.rows, page[m]) == RowOf(t.rows, page[m])
    requires SettledExactly(t, prev, page, visits, m)
    ensures var u := VisitRow(prev, page[m], t.rows[page[m]], visits[m]);
            && SettledExactly(t, u, page, visits, m + 1)
            && u.settled == prev.settled + Bit(Decides(t.rows[page[m]], visits[m].oracle.poll, visits[m].now))
  {
    VisitSettlesExactlyWhen(t.rows[page[m]], Blank(), visits[m].oracle, visits[m].now);
  }

  lemma {:induction false} SweepKeepsKeys(t: Tick, work: seq<(TaskId, Row)>, visits: seq<Visit>)
    requires |work| == |visits| && forall i :: 0 <= i < |work| ==> work[i].0 in t.rows
    ensures Sweep(t, work, visits).rows.Keys == t.rows.Keys
  {
    if work == [] {
    } else {
      var n := |work| - 1;
      SweepKeepsKeys(t, work[..n], visits[..n]);
    }
  }

  /** The other count a tick returns: the rows that have left the table, unless the prune
      failed.  A tick is rejected exactly if it has rows to visit and no list of agents, and
      then changes nothing. */
  lemma TickCountsItsPrunes(start: Tick, found: Option<seq<TaskId>>, listed: bool, visits: seq<Visit>,
                            cutoff: Time, prune: Fault, u: Tick, result: TickResult)
    requires found.Some? ==> IsPageOf(start.rows, found.value, visits)
    requires IsOutcomeOf(start, found, listed, visits, cutoff, prune, u.rows, u.answers, u.questions, result)
    ensures result.TickRejected? <==> found.Some? && found.value != [] && !listed
    ensures if result.TickRejected? then u.rows == start.rows && u.answers == start.answers
            else
              && (prune.NoFault? ==> result.pruned == |start.rows| - |u.rows|)
              && (prune.NotExecuted? ==> result.pruned == 0 && u.rows.Keys == start.rows.Keys)
              && (prune.ReplyLost? ==> result.pruned == 0)
              && result.settled - start.settled == |u.answers| - |start.answers|
  {
    if found.Some? {
      var work := PageRows(start.rows, found.value);
      SweepKeepsKeys(start, work, visits);
      TickCountsItsAnswers(start, work, visits);
    }
    if result.Ticked? {
      PruneCounts(if found.Some? then Sweep(start, PageRows(start.rows, found.value), visits).rows else start.rows,
                  cutoff, start.rows);
    }
  }

  lemma PruneCounts(t: Table, cutoff: Time, start: Table)
    requires t.Keys == start.Keys
    ensures |t.Keys - Pruned(t, cutoff).Keys| == |start| - |Pruned(t, cutoff)|
  {
    var kept := Pruned(t, cutoff);
    assert t.Keys == (t.Keys - kept.Keys) + kept.Keys;
    assert |start| == |start.Keys| && |kept| == |kept.Keys|;
  }

  /* ---- two ticks ---- */

  function CountOf(posts: seq<TaskId>, id: TaskId): nat {
    multiset(posts)[id]
  }

  lemma {:induction false} PostsCount(posts: seq<TaskId>, n: nat, id: TaskId, other: TaskId)
    ensures CountOf(posts + Posts(n, id), other) == CountOf(posts, other) + if other == id then n else 0
  {
    if n == 0 {
      assert posts + Posts(0, id) == posts;
    } else {
      PostsCount(posts, n - 1, id, other);
      assert posts + Posts(n, id) == posts + Posts(n - 1, id) + [id];
    }
  }

  /** What a whole sweep does to one row of its page is what that row's visit does alone. */
  lemma {:induction false} SweepVisitsEachRowAlone(t: Tick, page: seq<TaskId>, visits: seq<Visit>, olderThan: Time,
                                              i: nat)
    requires IsUnsettledPage(t.rows, olderThan, page) && i < |page| == |visits|
    ensures var u := Sweep(t, PageRows(t.rows, page), visits);
            var row := t.rows[page[i]];
            var f := Alone(Some(row), Blank(), Overdue(row), visits[i].oracle, visits[i].now);
            && RowOf(u.rows, page[i]) == f.row
            && CountOf(u.answers, page[i]) == CountOf(t.answers, page[i]) + f.ledger.delivered
  {
    var work := PageRows(t.rows, page);
    SweepOfPrefix(t, page, visits, olderThan, i, |page|);
    assert work[..|page|] == work && visits[..|page|] == visits;
  }

  /** Row `i` of a page, before its visit and after it. */
  ghost predicate IsVisitedAlone(t: Tick, u: Tick, page: seq<TaskId>, visits: seq<Visit>, i: nat, n: nat)
    requires i < |page| == |visits| && page[i] in t.rows
  {
    var row := t.rows[page[i]];
    var f := Alone(Some(row), Blank(), Overdue(row), visits[i].oracle, visits[i].now);
    && RowOf(u.rows, page[i]) == (if i < n then f.row else Some(row))
    && CountOf(u.answers, page[i]) == CountOf(t.answers, page[i]) + if i < n then f.ledger.delivered else 0
  }

  lemma {:induction false} SweepOfPrefix(t: Tick, page: seq<TaskId>, visits: seq<Visit>, olderThan: Time, i: nat,
                                         n: nat)
    requires IsUnsettledPage(t.rows, olderThan, page) && i < |page| == |visits| && n <= |page|
    ensures IsVisitedAlone(t, Sweep(t, PageRows(t.rows, page)[..n], visits[..n]), page, visits, i, n)
    decreases n
  {
    var work := PageRows(t.rows, page);
    if n == 0 {
    } else {
      var m := n - 1;
      SweepOfPrefix(t, page, visits, olderThan, i, m);
      SweepGrows(t, work, visits, m);
      NextVisitIsAlone(t, Sweep(t, work[..m], visits[..m]), page, visits, i, m);
    }
  }

  lemma {:induction false} NextVisitIsAlone(t: Tick, prev: Tick, page: seq<TaskId>, visits: seq<Visit>, i: nat, m: nat)
    requires i < |page| == |visits| && m < |page| && page[i] in t.rows && page[m] in t.rows
    requires i != m ==> page[i] != page[m]
    requires IsVisitedAlone(t, prev, page, visits, i, m)
    ensures IsVisitedAlone(t, VisitRow(prev, page[m], t.rows[page[m]], visits[m]), page, visits, i, m + 1)
  {
    var f := Alone(RowOf(prev.rows, page[m]), Blank(), Overdue(t.rows[page[m]]), visits[m].oracle, visits[m].now);
    PostsCount(prev.answers, f.ledger.delivered, page[m], page[i]);
  }

  /** Bounded recovery.  Two ticks whose pages hold an overdue row, both faultless at that
      row, with anything but a change of it in between.  The second page holds it only if
      the first visit did not decide; then the second delivers its answer, always if the
      first saw the agent at work, and otherwise exactly if it decides itself. */
  lemma {:induction false} TwoTicksRecoverExactlyWhen(
      t: Tick, page: seq<TaskId>, visits: seq<Visit>, olderThan: Time, i: nat,
      t': Tick, page': seq<TaskId>, visits': seq<Visit>, olderThan': Time, j: nat)
    requires IsUnsettledPage(t.rows, olderThan, page) && i < |page| == |visits|
    requires IsUnsettledPage(t'.rows, olderThan', page') && j < |page'| == |visits'| && page'[j] == page[i]
    requires RowOf(t'.rows, page[i]) == RowOf(Sweep(t, PageRows(t.rows, page), visits).rows, page[i])
    requires IsFaultless(visits[i].oracle) && IsFaultless(visits'[j].oracle)
    requires t.rows[page[i]].deadlineAt <= visits[i].now <= visits'[j].now
    ensures var (id, row) := (page[i], t.rows[page[i]]);
            var (u, u') := (Sweep(t, PageRows(t.rows, page), visits), Sweep(t', PageRows(t'.rows, page'), visits'));
            var (poll, poll') := (visits[i].oracle.poll, visits'[j].oracle.poll);
            var recovers := !LeavesStuck(poll) || Decides(row, poll', visits'[j].now);
            && !Decides(row, poll, visits[i].now)
            && CountOf(u.answers, id) == CountOf(t.answers, id)
            && RowOf(u'.rows, id).Some? && (u'.rows[id].settled <==> recovers)
            && CountOf(u'.answers, id) == CountOf(t'.answers, id) + Bit(recovers)
  {
    var row := t.rows[page[i]];
    SweepVisitsEachRowAlone(t, page, visits, olderThan, i);
    SweepVisitsEachRowAlone(t', page', visits', olderThan', j);
    TwoVisitsRecoverExactlyWhen(row, Blank(), visits[i].oracle, visits'[j].oracle, visits[i].now, visits'[j].now);
    var f := Alone(Some(row), Blank(), Overdue(row), visits[i].oracle, visits[i].now);
    LedgerIsAdditive(f.row, f.ledger, Overdue(f.row.value), visits'[j].oracle, visits'[j].now);
  }
}
