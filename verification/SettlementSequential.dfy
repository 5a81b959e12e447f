/**
  The two views of the protocol joined: an actor that steps without rivals in a run of
  `SettlementRuns` ends as `Alone` says, and a sequential tick is a run as well, so what is
  proved of every run holds of the services as they are written.
 */
module SettlementSequential {
  import opened Shared
  import opened A2aTaskTracker
  import opened Settlement
  import opened SettlementRuns
  import opened SettlementAlone
  import opened SettlementServices
  import opened ReconcilerServices

  lemma {:induction false} RunOfConcat(w: World, first: seq<Action>, second: seq<Action>)
    ensures Run(w, first + second) == Run(Run(w, first), second)
    decreases |second|
  {
    if second == [] {
      assert first + second == first;
    } else {
      var n := |second| - 1;
      RunOfConcat(w, first, second[..n]);
      assert (first + second)[..|first + second| - 1] == first + second[..n];
    }
  }

  lemma RunOfOne(w: World, a: Action)
    ensures Run(w, [a]) == Next(w, a)
  {
    assert [a][..0] == [];
    assert Run(w, []) == w;
  }

  /* ---- one actor ---- */

  /** What an actor that ran alone leaves of a world. */
  ghost predicate RanAlone(w: World, w': World, actor: ActorId, o: Oracle)
    requires actor in w.actors
  {
    var me := w.actors[actor];
    var f := Alone(RowOf(w.table, me.task), LedgerOf(w, me.task), me.phase, o, w.now);
    && w'.table == WithRow(w.table, me.task, f.row) && w'.ledgers == w.ledgers[me.task := f.ledger]
    && w'.actors == Advanced(w, actor, me.(phase := Done(f.outcome)))
    && w'.sweeps == w.sweeps && w'.isRunning == w.isRunning && w'.now == w.now
    && (me.inRun ==> w'.totals.reported == w.totals.reported)
  }

  /** Stepped without rivals, an actor ends as `Alone`. */
  lemma {:induction false} AloneIsARun(w: World, actor: ActorId, o: Oracle) returns (actions: seq<Action>)
    requires actor in w.actors && !w.actors[actor].phase.Done?
    ensures RanAlone(w, Run(w, actions), actor, o)
    ensures forall a :: a in actions ==> a == Step(actor, o)
    decreases AwaitsLeft(w.actors[actor].phase)
  {
    var me, s := w.actors[actor], StepOf(w, actor, o);
    var w1 := Next(w, Step(actor, o));
    RunOfOne(w, Step(actor, o));
    EveryStepMakesProgress(RowOf(w.table, me.task), LedgerOf(w, me.task), me.phase, o, w.now);
    AloneUnfolds(RowOf(w.table, me.task), LedgerOf(w, me.task), me.phase, o, w.now);
    actions := [Step(actor, o)];
    if s.phase.Done? {
      AloneUnfolds(s.row, s.ledger, s.phase, o, w.now);
    } else {
      var rest := AloneIsARun(w1, actor, o);
      RunOfConcat(w, actions, rest);
      RestOfTheWay(w, w1, Run(w1, rest), actor, o);
      actions := actions + rest;
    }
  }

  lemma RestOfTheWay(w: World, w1: World, w': World, actor: ActorId, o: Oracle)
    requires actor in w.actors && !w.actors[actor].phase.Done? && w1 == StepActor(w, actor, o)
    requires actor in w1.actors && !w1.actors[actor].phase.Done? && RanAlone(w1, w', actor, o)
    ensures RanAlone(w, w', actor, o)
  {
    var me, s := w.actors[actor], StepOf(w, actor, o);
    AloneUnfolds(RowOf(w.table, me.task), LedgerOf(w, me.task), me.phase, o, w.now);
    var f := Alone(s.row, s.ledger, s.phase, o, w.now);
    WithRowTwice(w.table, me.task, s.row, f.row);
  }

  /* ---- one row of a tick ---- */

  /** One task's ledger has grown by what `f` posted, the others stand. */
  ghost predicate Posted(w: World, w': World, f: Finished, id: TaskId) {
    forall x ::
      && LedgerOf(w', x).delivered == LedgerOf(w, x).delivered + (if x == id then f.ledger.delivered else 0)
      && LedgerOf(w', x).asked == LedgerOf(w, x).asked + (if x == id then f.ledger.asked else 0)
  }

  /** Every task's ledger has grown by its posts of the tick. */
  ghost predicate Counted(w: World, w': World, t: Tick) {
    forall x ::
      && LedgerOf(w', x).delivered == LedgerOf(w, x).delivered + CountOf(t.answers, x)
      && LedgerOf(w', x).asked == LedgerOf(w, x).asked + CountOf(t.questions, x)
  }

  /** What taking, visiting and collecting the next row leaves of a world. */
  ghost predicate Visited(w: World, w': World, run: RunId, v: Visit)
    requires run in w.sweeps && w.sweeps[run].rest != []
  {
    var sweep := w.sweeps[run];
    var (id, row) := sweep.rest[0];
    var f := Alone(RowOf(w.table, id), Blank(), Overdue(row), v.oracle, v.now);
    && w'.table == WithRow(w.table, id, f.row)
    && w'.sweeps == w.sweeps[run := Sweep(sweep.rest[1..], None, sweep.settled + Bit(f.outcome.Settled?))]
    && w'.actors == w.actors && w'.now == v.now && w'.isRunning == w.isRunning
    && w'.totals.reported == w.totals.reported
    && Posted(w, w', f, id)
  }

  /** A run takes its next row, its actor runs alone at the visit's clock, and the run
      collects the outcome. */
  lemma VisitIsARun(w: World, run: RunId, actor: ActorId, v: Visit) returns (actions: seq<Action>)
    requires run in w.sweeps && w.sweeps[run].current.None? && w.sweeps[run].rest != []
    requires IsFresh(w, actor) && w.now <= v.now
    ensures Visited(w, Run(w, actions), run, v)
  {
    var opening := [Advance(v.now - w.now), TakeRow(run, actor)];
    var w1 := RunTakesRow(w, run, actor, v.now);
    var steps := AloneIsARun(w1, actor, v.oracle);
    RunOfThree(w, opening, steps, Collect(run));
    CollectsAlone(w, w1, Run(w1, steps), run, actor, v.oracle);
    TakenIsVisited(w, w1, Next(Run(w1, steps), Collect(run)), run, actor, v);
    actions := opening + steps + [Collect(run)];
  }

  lemma TakenIsVisited(w: World, w1: World, w3: World, run: RunId, actor: ActorId, v: Visit)
    requires run in w.sweeps && w.sweeps[run].current.None? && w.sweeps[run].rest != [] && run in w1.sweeps
    requires Taken(w, w1, run, actor, v.now)
    requires Collected(w, w1, w3, run, actor, v.oracle)
    ensures Visited(w, w3, run, v)
  {
    var (id, row) := w.sweeps[run].rest[0];
    LedgerIsAdditive(RowOf(w.table, id), LedgerOf(w, id), Overdue(row), v.oracle, v.now);
  }

  ghost predicate Taken(w: World, w1: World, run: RunId, actor: ActorId, now: Time)
    requires run in w.sweeps && w.sweeps[run].rest != []
  {
    var (sweep, first) := (w.sweeps[run], w.sweeps[run].rest[0]);
    && w1.table == w.table && w1.ledgers == w.ledgers && w1.isRunning == w.isRunning && w1.totals == w.totals
       && w1.now == now
    && w1.actors == w.actors[actor := Actor(first.0, Overdue(first.1), true)]
    && w1.sweeps == w.sweeps[run := sweep.(rest := sweep.rest[1..], current := Some(actor))]
  }

  ghost predicate Collected(w: World, w1: World, w3: World, run: RunId, actor: ActorId, o: Oracle)
    requires actor in w1.actors && run in w1.sweeps
  {
    var me := w1.actors[actor];
    var f := Alone(RowOf(w1.table, me.task), LedgerOf(w1, me.task), me.phase, o, w1.now);
    && w3.table == WithRow(w1.table, me.task, f.row) && w3.ledgers == w1.ledgers[me.task := f.ledger]
    && w3.actors == w.actors && w3.now == w1.now && w3.isRunning == w1.isRunning
    && w3.totals.reported == w1.totals.reported
    && w3.sweeps == w1.sweeps[run := w1.sweeps[run].(current := None,
                                                    settled := w1.sweeps[run].settled + Bit(f.outcome.Settled?))]
  }

  lemma RunOfThree(w: World, first: seq<Action>, second: seq<Action>, last: Action)
    ensures Run(w, first + second + [last]) == Next(Run(Run(w, first), second), last)
  {
    RunOfConcat(w, first, second);
    RunOfConcat(w, first + second, [last]);
    RunOfOne(Run(Run(w, first), second), last);
  }

  lemma CollectsAlone(w: World, w1: World, w2: World, run: RunId, actor: ActorId, o: Oracle)
    requires actor !in w.actors && run in w1.sweeps && w1.sweeps[run].current == Some(actor)
    requires actor in w1.actors && w1.actors[actor].inRun && w1.actors == w.actors[actor := w1.actors[actor]]
    requires RanAlone(w1, w2, actor, o)
    ensures Collected(w, w1, Next(w2, Collect(run)), run, actor, o)
  {
    assert w2.actors - {actor} == w.actors;
  }

  lemma RunTakesRow(w: World, run: RunId, actor: ActorId, now: Time) returns (w1: World)
    requires run in w.sweeps && w.sweeps[run].current.None? && w.sweeps[run].rest != []
    requires IsFresh(w, actor) && w.now <= now
    ensures w1 == Run(w, [Advance(now - w.now), TakeRow(run, actor)])
    ensures Taken(w, w1, run, actor, now)
  {
    var advance, take := Advance(now - w.now), TakeRow(run, actor);
    RunOfConcat(w, [advance], [take]);
    RunOfOne(w, advance);
    RunOfOne(Next(w, advance), take);
    assert [advance] + [take] == [advance, take];
    w1 := Run(w, [advance, take]);
  }

  /* ---- a whole tick ---- */

  predicate IsForward(now: Time, visits: seq<Visit>) {
    && (forall i :: 0 <= i < |visits| ==> now <= visits[i].now)
    && (forall i, j :: 0 <= i < j < |visits| ==> visits[i].now <= visits[j].now)
  }

  /** After `n` visits of a run's work, world and sequential sweep agree. */
  ghost predicate Agree(w: World, w': World, run: RunId, work: seq<(TaskId, Row)>, t: Tick, n: nat)
    requires n <= |work| && run in w.sweeps
  {
    && w'.table == t.rows && w'.sweeps == w.sweeps[run := Sweep(work[n..], None, t.settled)]
    && w'.actors == w.actors && w'.isRunning == w.isRunning && w'.totals.reported == w.totals.reported
    && Counted(w, w', t)
  }

  lemma {:induction false} SweepIsARun(w: World, run: RunId, actor: ActorId, work: seq<(TaskId, Row)>,
                                       visits: seq<Visit>, n: nat)
    returns (actions: seq<Action>)
    requires run in w.sweeps && w.sweeps[run] == Sweep(work, None, 0) && IsFresh(w, actor)
    requires n <= |work| == |visits| && IsForward(w.now, visits)
    ensures Agree(w, Run(w, actions), run, work,
                  ReconcilerServices.Sweep(Tick(w.table, [], [], 0), work[..n], visits[..n]), n)
    ensures Run(w, actions).now == if n == 0 then w.now else visits[n - 1].now
    decreases n
  {
    actions := [];
    if n == 0 {
      assert work[0..] == work && w.sweeps[run := w.sweeps[run]] == w.sweeps;
    } else {
      var m := n - 1;
      actions := SweepIsARun(w, run, actor, work, visits, m);
      var w1 := Run(w, actions);
      var t := ReconcilerServices.Sweep(Tick(w.table, [], [], 0), work[..m], visits[..m]);
      var visit := VisitIsARun(w1, run, actor, visits[m]);
      RunOfConcat(w, actions, visit);
      SweepGrows(Tick(w.table, [], [], 0), work, visits, m);
      OneMoreAgrees(w, w1, Run(w1, visit), run, work, t, m, visits[m]);
      actions := actions + visit;
    }
  }

  lemma OneMoreAgrees(w: World, w1: World, w2: World, run: RunId, work: seq<(TaskId, Row)>, t: Tick, m: nat, v: Visit)
    requires m < |work| && run in w.sweeps && Agree(w, w1, run, work, t, m)
    requires run in w1.sweeps && w1.sweeps[run].rest == work[m..] && Visited(w1, w2, run, v)
    ensures Agree(w, w2, run, work, VisitRow(t, work[m].0, work[m].1, v), m + 1)
  {
    var (id, row) := work[m];
    var f := Alone(RowOf(w1.table, id), Blank(), Overdue(row), v.oracle, v.now);
    assert work[m..][1..] == work[m + 1..];
    CountsPosted(w, w1, w2, t, VisitRow(t, id, row, v), f, id);
  }

  lemma CountsPosted(w: World, w1: World, w2: World, t: Tick, u: Tick, f: Finished, id: TaskId)
    requires Counted(w, w1, t) && Posted(w1, w2, f, id)
    requires u.answers == t.answers + Posts(f.ledger.delivered, id)
             && u.questions == t.questions + Posts(f.ledger.asked, id)
    ensures Counted(w, w2, u)
  {
    forall x: TaskId
      ensures LedgerOf(w2, x).delivered == LedgerOf(w, x).delivered + CountOf(u.answers, x)
      ensures LedgerOf(w2, x).asked == LedgerOf(w, x).asked + CountOf(u.questions, x)
    {
      PostsCount(t.answers, f.ledger.delivered, id, x);
      PostsCount(t.questions, f.ledger.asked, id, x);
    }
  }

  /** What a tick leaves of a world: the table and posts of `u`, and its count reported. */
  ghost predicate HasTicked(w: World, w': World, u: Tick) {
    && w'.table == u.rows && w'.totals.reported == w.totals.reported + u.settled && Counted(w, w', u)
    && w'.actors == w.actors && w'.sweeps == w.sweeps && !w'.isRunning
  }

  /** The clock when a tick prunes. */
  function EndOf(now: Time, found: Option<seq<TaskId>>, visits: seq<Visit>): Time {
    if found.Some? && visits != [] then visits[|visits| - 1].now else now
  }

  /** A tick as the reconciler runs it, whatever becomes of its query, its list of agents and
      its prune, is a run: with the same table, the same answers and questions for every
      task, and the count it returns reported. */
  lemma TickIsARun(w: World, run: RunId, actor: ActorId, found: Option<seq<TaskId>>, listed: bool, visits: seq<Visit>,
                   prune: Fault, u: Tick, result: TickResult)
    returns (actions: seq<Action>)
    requires !w.isRunning && run !in w.sweeps && IsFresh(w, actor)
    requires found.Some? ==> && IsUnsettledPage(w.table, w.now - GRACE_MS, found.value)
                             && |found.value| == |visits| && IsForward(w.now, visits)
    requires IsOutcomeOf(Tick(w.table, [], [], 0), found, listed, visits, EndOf(w.now, found, visits) - RETENTION_MS,
                         prune, u.rows, u.answers, u.questions, result)
    requires u.settled == if result.Ticked? then result.settled else 0
    ensures HasTicked(w, Run(w, actions), u)
  {
    var cutoff := EndOf(w.now, found, visits) - RETENTION_MS;
    OutcomeIsSwept(Tick(w.table, [], [], 0), found, listed, visits, cutoff, prune, u, result);
    var w1 := RunOpens(w, run, actor, found);
    actions := SweepAndPruneIsARun(w, w1, run, actor, found, listed, visits, prune, u);
    RunOfConcat(w, [RunOnce(run, found)], actions);
    actions := [RunOnce(run, found)] + actions;
  }

  /** The rows a run starts with. */
  function WorkOf(t: Table, found: Option<seq<TaskId>>): seq<(TaskId, Row)>
    requires found.Some? ==> forall i :: 0 <= i < |found.value| ==> found.value[i] in t
  {
    if found.Some? then PageRows(t, found.value) else []
  }

  /** A whole tick as one value: nothing, or the sweep with what the prune left. */
  function SweptAndPruned(start: Tick, found: Option<seq<TaskId>>, listed: bool, visits: seq<Visit>, cutoff: Time,
                          prune: Fault): Tick
    requires found.Some? ==> IsPageOf(start.rows, found.value, visits)
  {
    if found.Some? && found.value != [] && !listed then start
    else
      var t := ReconcilerServices.Sweep(start, WorkOf(start.rows, found), if found.Some? then visits else []);
      t.(rows := if prune.NotExecuted? then t.rows else Pruned(t.rows, cutoff))
  }

  lemma OutcomeIsSwept(start: Tick, found: Option<seq<TaskId>>, listed: bool, visits: seq<Visit>, cutoff: Time,
                       prune: Fault, u: Tick, result: TickResult)
    requires found.Some? ==> IsPageOf(start.rows, found.value, visits)
    requires IsOutcomeOf(start, found, listed, visits, cutoff, prune, u.rows, u.answers, u.questions, result)
    requires start.settled == 0 && u.settled == if result.Ticked? then result.settled else 0
    ensures u == SweptAndPruned(start, found, listed, visits, cutoff, prune)
  {
  }

  lemma SweepAndPruneIsARun(w: World, w1: World, run: RunId, actor: ActorId, found: Option<seq<TaskId>>, listed: bool,
                            visits: seq<Visit>, prune: Fault, u: Tick)
    returns (actions: seq<Action>)
    requires found.Some? ==> IsPageOf(w.table, found.value, visits) && IsForward(w.now, visits)
    requires HasOpened(w, w1, run, WorkOf(w.table, found)) && IsFresh(w1, actor)
    requires u == SweptAndPruned(Tick(w.table, [], [], 0), found, listed, visits,
                                 EndOf(w.now, found, visits) - RETENTION_MS, prune)
    ensures HasTicked(w, Run(w1, actions), u)
  {
    var work := WorkOf(w.table, found);
    if found.Some? && found.value != [] && !listed {
      actions := RejectedTickIsARun(w, w1, run, work, u);
    } else {
      actions := SweptTickIsARun(w, w1, run, actor, work, if found.Some? then visits else [], prune);
    }
  }

  /** A run has just begun. */
  predicate HasOpened(w: World, w1: World, run: RunId, work: seq<(TaskId, Row)>) {
    run !in w.sweeps && w1 == w.(isRunning := true, sweeps := w.sweeps[run := Sweep(work, None, 0)])
  }

  lemma RejectedTickIsARun(w: World, w1: World, run: RunId, work: seq<(TaskId, Row)>, u: Tick)
    returns (actions: seq<Action>)
    requires HasOpened(w, w1, run, work) && u == Tick(w.table, [], [], 0)
    ensures HasTicked(w, Run(w1, actions), u)
  {
    var w2 := Next(w1, AbortRun(run));
    RunOfOne(w1, AbortRun(run));
    assert w2.sweeps == w.sweeps;
    assert forall id: TaskId :: LedgerOf(w2, id) == LedgerOf(w, id);
    actions := [AbortRun(run)];
  }

  lemma SweptTickIsARun(w: World, w1: World, run: RunId, actor: ActorId, work: seq<(TaskId, Row)>, visits: seq<Visit>,
                        prune: Fault)
    returns (actions: seq<Action>)
    requires HasOpened(w, w1, run, work) && IsFresh(w1, actor)
    requires |visits| == |work| && IsForward(w.now, visits)
    ensures var t := ReconcilerServices.Sweep(Tick(w.table, [], [], 0), work, visits);
            var cutoff := (if visits == [] then w.now else visits[|visits| - 1].now) - RETENTION_MS;
            HasTicked(w, Run(w1, actions), t.(rows := if prune.NotExecuted? then t.rows else Pruned(t.rows, cutoff)))
  {
    var visiting := SweepIsARun(w1, run, actor, work, visits, |work|);
    assert work[..|work|] == work && visits[..|work|] == visits;
    RunOfConcat(w1, visiting, [FinishRun(run, prune)]);
    RunOfOne(Run(w1, visiting), FinishRun(run, prune));
    CloseAgrees(w, w1, Run(w1, visiting), run, work,
                ReconcilerServices.Sweep(Tick(w.table, [], [], 0), work, visits), prune);
    actions := visiting + [FinishRun(run, prune)];
  }

  lemma RunOpens(w: World, run: RunId, actor: ActorId, found: Option<seq<TaskId>>) returns (w1: World)
    requires !w.isRunning && run !in w.sweeps && IsFresh(w, actor)
    requires found.Some? ==> IsUnsettledPage(w.table, w.now - GRACE_MS, found.value)
    ensures w1 == Run(w, [RunOnce(run, found)])
    ensures HasOpened(w, w1, run, WorkOf(w.table, found))
    ensures IsFresh(w1, actor)
  {
    RunOfOne(w, RunOnce(run, found));
    w1 := Next(w, RunOnce(run, found));
  }

  lemma CloseAgrees(w: World, w1: World, w2: World, run: RunId, work: seq<(TaskId, Row)>, t: Tick, prune: Fault)
    requires HasOpened(w, w1, run, work)
    requires Agree(w1, w2, run, work, t, |work|)
    ensures var kept := if prune.NotExecuted? then t.rows else Pruned(t.rows, w2.now - RETENTION_MS);
            HasTicked(w, Next(w2, FinishRun(run, prune)), t.(rows := kept))
  {
    assert w2.sweeps - {run} == w.sweeps;
    forall id: TaskId ensures LedgerOf(w1, id) == LedgerOf(w, id) {}
    PrunePostsNothing(w2);
  }

  lemma PrunePostsNothing(w: World)
    ensures forall id :: LedgerOf(Prune(w), id).delivered == LedgerOf(w, id).delivered
                         && LedgerOf(Prune(w), id).asked == LedgerOf(w, id).asked
  {
  }
}
