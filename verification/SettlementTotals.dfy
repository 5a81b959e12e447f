/**
  The counts the reconciler and the push path report, against the answers delivered; and
  the flag that keeps two reconciler runs from overlapping.
 */
module SettlementTotals {
  import opened Shared
  import opened A2aTaskTracker
  import opened Settlement
  import opened SettlementRuns
  import opened SettlementGuarantees

  /** `isRunning` is set exactly while one run is under way. */
  ghost predicate OneRunAtATime(w: World) {
    && w.isRunning == (w.sweeps != map[])
    && forall r, s :: r in w.sweeps && s in w.sweeps ==> r == s
  }

  lemma {:induction false} RunsNeverOverlap(start: Time, actions: seq<Action>)
    ensures OneRunAtATime(After(start, actions))
  {
    if actions == [] {
    } else {
      var n := |actions| - 1;
      RunsNeverOverlap(start, actions[..n]);
      NextKeepsOneRun(After(start, actions[..n]), actions[n]);
    }
  }

  lemma NextKeepsOneRun(w: World, a: Action)
    requires OneRunAtATime(w)
    ensures OneRunAtATime(Next(w, a))
  {
  }

  /** What the run under way, if any, has counted so far. */
  ghost function InProgress(sweeps: map<RunId, Sweep>): nat {
    if sweeps == map[] then 0 else var run :| run in sweeps; sweeps[run].settled
  }

  lemma OnlyRunInProgress(w: World, run: RunId)
    requires OneRunAtATime(w) && run in w.sweeps
    ensures InProgress(w.sweeps) == w.sweeps[run].settled
    ensures forall x: Sweep :: InProgress(w.sweeps[run := x]) == x.settled
    ensures w.sweeps - {run} == map[]
  {
  }

  ghost predicate Reconciled(w: World) {
    w.totals.delivered == w.totals.reported + w.totals.aborted + w.totals.uncounted + InProgress(w.sweeps)
                        + |Members(w.actors, AllOwing(OwesReport))| + |Members(w.actors, Uncollected)|
  }

  lemma StepReachesReport(r: Option<Row>, l: Ledger, p: Phase, o: Oracle, now: Time)
    requires !p.Done?
    ensures var q := PhaseStep(r, l, p, o, now).phase;
            && (q.MarkResponded? <==> p.PostAnswer? && o.postOk)
            && (q == Done(Settled) <==> p.MarkResponded?)
  {
  }

  lemma StepActorKeepsReconciled(w: World, actor: ActorId, o: Oracle)
    requires Reconciled(w) && actor in w.actors && !w.actors[actor].phase.Done?
    ensures Reconciled(StepActor(w, actor, o))
  {
    var me, s := w.actors[actor], StepOf(w, actor, o);
    var next := me.(phase := s.phase);
    StepReachesReport(RowOf(w.table, me.task), LedgerOf(w, me.task), me.phase, o, w.now);
    MembersAfterAdvance(w, actor, next, AllOwing(OwesReport));
    MembersAfterRemoval(w.actors, actor, Uncollected);
    MembersAfterPut(w.actors, actor, next, Uncollected);
    assert StepActor(w, actor, o).sweeps == w.sweeps;
  }

  lemma KillActorKeepsReconciled(w: World, actor: ActorId)
    requires Reconciled(w) && actor in w.actors && !w.actors[actor].phase.Done?
    ensures Reconciled(KillActor(w, actor))
  {
    MembersAfterRemoval(w.actors, actor, AllOwing(OwesReport));
    MembersAfterRemoval(w.actors, actor, Uncollected);
  }

  lemma ArrivalKeepsMembers(w: World, actor: ActorId, x: Actor)
    requires actor !in w.actors && (x.phase.Lookup? || x.phase.SendReply? || x.phase.Overdue?)
    ensures |Members(w.actors[actor := x], AllOwing(OwesReport))| == |Members(w.actors, AllOwing(OwesReport))|
    ensures |Members(w.actors[actor := x], Uncollected)| == |Members(w.actors, Uncollected)|
  {
    MembersAfterPut(w.actors, actor, x, AllOwing(OwesReport));
    MembersAfterPut(w.actors, actor, x, Uncollected);
  }

  lemma CollectKeepsReconciled(w: World, run: RunId)
    requires Reconciled(w) && OneRunAtATime(w) && Enabled(w, Collect(run))
    ensures Reconciled(CollectRow(w, run))
  {
    var actor := w.sweeps[run].current.value;
    OnlyRunInProgress(w, run);
    if actor in w.actors {
      MembersAfterRemoval(w.actors, actor, AllOwing(OwesReport));
      MembersAfterRemoval(w.actors, actor, Uncollected);
    } else {
      assert w.actors - {actor} == w.actors;
    }
  }

  lemma NextKeepsReconciled(w: World, a: Action)
    requires Reconciled(w) && OneRunAtATime(w)
    ensures Reconciled(Next(w, a))
  {
    var w' := Next(w, a);
    if Enabled(w, a) {
      match a {
        case Push(actor, task) => ArrivalKeepsMembers(w, actor, w'.actors[actor]);
        case Reply(actor, task) => ArrivalKeepsMembers(w, actor, w'.actors[actor]);
        case RunOnce(run, found) =>
          if !w.isRunning {
            NextKeepsOneRun(w, a);
            OnlyRunInProgress(w', run);
          }
        case TakeRow(run, actor) =>
          ArrivalKeepsMembers(w, actor, w'.actors[actor]);
          OnlyRunInProgress(w, run);
        case Collect(run) => CollectKeepsReconciled(w, run);
        case FinishRun(run, fault) => OnlyRunInProgress(w, run);
        case AbortRun(run) => OnlyRunInProgress(w, run);
        case Step(actor, o) => StepActorKeepsReconciled(w, actor, o);
        case Die(actor) => KillActorKeepsReconciled(w, actor);
        case _ =>
      }
    }
  }

  lemma {:induction false} ReachableIsReconciled(start: Time, actions: seq<Action>)
    ensures Reconciled(After(start, actions))
  {
    if actions == [] {
      assert forall g: Group :: Members(After(start, []).actors, g) == {};
    } else {
      var n := |actions| - 1;
      ReachableIsReconciled(start, actions[..n]);
      RunsNeverOverlap(start, actions[..n]);
      NextKeepsReconciled(After(start, actions[..n]), actions[n]);
    }
  }

  /* ---- the total is the sum over tasks ---- */

  ghost function SumDelivered(m: map<TaskId, Ledger>): nat
    decreases |m|
  {
    if m == map[] then 0
    else var id :| id in m; m[id].delivered + SumDelivered(m - {id})
  }

  lemma {:induction false} SumSplits(m: map<TaskId, Ledger>, id: TaskId)
    requires id in m
    ensures SumDelivered(m) == m[id].delivered + SumDelivered(m - {id})
    decreases |m|
  {
    var first :| first in m && SumDelivered(m) == m[first].delivered + SumDelivered(m - {first});
    if first != id {
      SumSplits(m - {first}, id);
      SumSplits(m - {id}, first);
      assert m - {first} - {id} == m - {id} - {first};
    }
  }

  lemma SumAfterPut(m: map<TaskId, Ledger>, id: TaskId, l: Ledger)
    ensures SumDelivered(m[id := l]) == SumDelivered(m) - (if id in m then m[id].delivered else 0) + l.delivered
  {
    SumSplits(m[id := l], id);
    if id in m {
      SumSplits(m, id);
    }
    assert m[id := l] - {id} == m - {id};
    assert id !in m ==> m - {id} == m;
  }

  lemma {:induction false} SumOfSame(m: map<TaskId, Ledger>, n: map<TaskId, Ledger>)
    requires forall id :: id in m ==> id in n && n[id].delivered == m[id].delivered
    requires forall id :: id in n && id !in m ==> n[id].delivered == 0
    ensures SumDelivered(n) == SumDelivered(m)
    decreases |n|
  {
    if id :| id in n {
      SumSplits(n, id);
      if id in m {
        SumSplits(m, id);
        SumOfSame(m - {id}, n - {id});
      } else {
        SumOfSame(m, n - {id});
      }
    } else {
      assert m == map[] && n == map[];
    }
  }

  lemma NextKeepsSum(w: World, a: Action)
    requires w.totals.delivered == SumDelivered(w.ledgers)
    ensures Next(w, a).totals.delivered == SumDelivered(Next(w, a).ledgers)
  {
    if Enabled(w, a) {
      match a {
        case Delegate(id, row) =>
          if id !in w.table {
            SumAfterPut(w.ledgers, id, Next(w, a).ledgers[id]);
          }
        case Step(actor, o) => StepKeepsSum(w, actor, o);
        case Die(actor) =>
          SumAfterPut(w.ledgers, w.actors[actor].task, Next(w, a).ledgers[w.actors[actor].task]);
        case FinishRun(run, fault) => SumOfSame(w.ledgers, Next(w, a).ledgers);
        case _ =>
      }
    }
  }

  lemma StepKeepsSum(w: World, actor: ActorId, o: Oracle)
    requires w.totals.delivered == SumDelivered(w.ledgers) && actor in w.actors && !w.actors[actor].phase.Done?
    ensures Next(w, Step(actor, o)).totals.delivered == SumDelivered(Next(w, Step(actor, o)).ledgers)
  {
    var me, s := w.actors[actor], StepOf(w, actor, o);
    DeliveryIsCounted(RowOf(w.table, me.task), LedgerOf(w, me.task), me.phase, o, w.now);
    SumAfterPut(w.ledgers, me.task, s.ledger);
  }

  lemma DeliveryIsCounted(r: Option<Row>, l: Ledger, p: Phase, o: Oracle, now: Time)
    ensures PhaseStep(r, l, p, o, now).ledger.delivered == l.delivered + Bit(p.PostAnswer? && o.postOk)
  {
  }

  lemma {:induction false} TotalIsSum(start: Time, actions: seq<Action>)
    ensures After(start, actions).totals.delivered == SumDelivered(After(start, actions).ledgers)
  {
    if actions == [] {
    } else {
      var n := |actions| - 1;
      TotalIsSum(start, actions[..n]);
      NextKeepsSum(After(start, actions[..n]), actions[n]);
    }
  }

  /** Once nothing is under way, what the finished runs and the push calls reported as
      settled, plus what crashes kept from being reported, is what was delivered. */
  lemma ReportsAddUp(start: Time, actions: seq<Action>)
    requires After(start, actions).actors == map[] && After(start, actions).sweeps == map[]
    ensures var w := After(start, actions);
            && SumDelivered(w.ledgers) == w.totals.reported + w.totals.aborted + w.totals.uncounted
            && ((forall a :: a in actions ==> IsCalm(a)) ==> SumDelivered(w.ledgers) == w.totals.reported)
  {
    ReachableIsReconciled(start, actions);
    TotalIsSum(start, actions);
    assert forall g: Group :: Members(After(start, actions).actors, g) == {};
    if forall a :: a in actions ==> IsCalm(a) {
      CalmRunLosesNothing(start, actions, "");
    }
  }
}
