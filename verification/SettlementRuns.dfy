/**
  Every interleaving of the actors of `Settlement` over one table: any number of push
  notifications, replies and reconciler runs, with actors dying and database calls
  failing at any await.
 */
module SettlementRuns {
  import opened Shared
  import opened A2aTaskTracker
  import opened Settlement

  type ActorId = nat
  type RunId = nat

  const GRACE_MS: Time := 2 * 60 * 1000
  const RETENTION_MS: Time := 7 * 24 * 60 * 60 * 1000

  datatype Actor = Actor(task: TaskId, phase: Phase, inRun: bool)

  /** One execution of `runOnceLocked`: the rows still to visit, the row being
      reconciled, and the count so far. */
  datatype Sweep = Sweep(rest: seq<(TaskId, Row)>, current: Option<ActorId>, settled: nat)

  /** One committed write of a row, and when. */
  datatype Write = Write(task: TaskId, cause: Cause, before: Option<Row>, after: Option<Row>, at: Time)

  /** Totals over all tasks: answers delivered; settles reported by finished runs and
      push calls; settles of runs that were aborted; answers whose actor died unreported. */
  datatype Totals = Totals(delivered: nat, reported: nat, aborted: nat, uncounted: nat)

  datatype World = World(table: Table, ledgers: map<TaskId, Ledger>, actors: map<ActorId, Actor>,
                         isRunning: bool, sweeps: map<RunId, Sweep>,
                         totals: Totals, writes: seq<Write>, now: Time)

  datatype Action =
    | Advance(ms: nat)
    | Delegate(task: TaskId, row: Row)
    | Push(actor: ActorId, task: TaskId)
    | Reply(actor: ActorId, task: TaskId)
    | RunOnce(run: RunId, found: Option<seq<TaskId>>)
    | TakeRow(run: RunId, actor: ActorId)
    | Collect(run: RunId)
    | FinishRun(run: RunId, fault: Fault)
    | AbortRun(run: RunId)
    | Step(actor: ActorId, oracle: Oracle)
    | Die(actor: ActorId)

  function Initial(now: Time): World {
    World(map[], map[], map[], false, map[], Totals(0, 0, 0, 0), [], now)
  }

  function LedgerOf(w: World, id: TaskId): Ledger {
    if id in w.ledgers then w.ledgers[id] else Blank()
  }

  /** An id no actor has and no run is waiting for. */
  predicate IsFresh(w: World, actor: ActorId) {
    actor !in w.actors && forall run :: run in w.sweeps ==> w.sweeps[run].current != Some(actor)
  }

  ghost predicate Enabled(w: World, a: Action) {
    match a
    case Advance(_) => true
    case Delegate(_, _) => true
    case Push(actor, _) => IsFresh(w, actor)
    case Reply(actor, id) => IsFresh(w, actor) && IsOpen(RowOf(w.table, id)) && IsAsking(RowOf(w.table, id))
    case RunOnce(run, found) => run !in w.sweeps
        && (found.Some? ==> IsUnsettledPage(w.table, w.now - GRACE_MS, found.value))
    case TakeRow(run, actor) =>
      IsFresh(w, actor) && run in w.sweeps && w.sweeps[run].current.None? && w.sweeps[run].rest != []
    case Collect(run) =>
      && run in w.sweeps && w.sweeps[run].current.Some?
      && (w.sweeps[run].current.value in w.actors ==> w.actors[w.sweeps[run].current.value].phase.Done?)
    case FinishRun(run, _) => run in w.sweeps && w.sweeps[run].current.None? && w.sweeps[run].rest == []
    case AbortRun(run) => run in w.sweeps && w.sweeps[run].current.None?
    case Step(actor, _) => actor in w.actors && !w.actors[actor].phase.Done?
    case Die(actor) => actor in w.actors && !w.actors[actor].phase.Done?
  }

  function Insert(w: World, id: TaskId, row: Row): World {
    if id in w.table then w
    else
      var stored := row.(settled := false, createdAt := w.now, updatedAt := w.now);
      var l := LedgerOf(w, id);
      w.(table := WithRow(w.table, id, Some(stored)),
         ledgers := w.ledgers[id := l.(inserted := l.inserted + 1,
                                       bornAsking := l.bornAsking + Bit(row.state.InputRequired?))],
         writes := w.writes + [Write(id, ByInsert, None, Some(stored), w.now)])
  }

  /** An actor outside a run leaves once done; one inside stays for its run to collect. */
  function Advanced(w: World, actor: ActorId, next: Actor): map<ActorId, Actor> {
    if next.phase.Done? && !next.inRun then w.actors - {actor} else w.actors[actor := next]
  }

  function StepActor(w: World, actor: ActorId, o: Oracle): World
    requires actor in w.actors
  {
    var me := w.actors[actor];
    var r := RowOf(w.table, me.task);
    var s := PhaseStep(r, LedgerOf(w, me.task), me.phase, o, w.now);
    w.(table := WithRow(w.table, me.task, s.row),
       ledgers := w.ledgers[me.task := s.ledger],
       actors := Advanced(w, actor, me.(phase := s.phase)),
       totals := w.totals.(delivered := w.totals.delivered + Bit(me.phase.PostAnswer? && o.postOk),
                           reported := w.totals.reported + Bit(me.phase.MarkResponded? && !me.inRun)),
       writes := if s.cause.Some? then w.writes + [Write(me.task, s.cause.value, r, s.row, w.now)] else w.writes)
  }

  function KillActor(w: World, actor: ActorId): World
    requires actor in w.actors
  {
    var me := w.actors[actor];
    w.(ledgers := w.ledgers[me.task := Bury(LedgerOf(w, me.task), me.phase)],
       actors := w.actors - {actor},
       totals := w.totals.(uncounted := w.totals.uncounted + Bit(Owes(me.phase, OwesReport))))
  }

  function Prune(w: World): World {
    var kept := Pruned(w.table, w.now - RETENTION_MS);
    w.(table := kept,
       ledgers := map id | id in w.table.Keys + w.ledgers.Keys ::
                    if id in w.table && id !in kept then LedgerOf(w, id).(pruned := LedgerOf(w, id).pruned + 1)
                    else LedgerOf(w, id))
  }

  function CloseRun(w: World, run: RunId): World {
    w.(sweeps := w.sweeps - {run}, isRunning := false)
  }

  function CollectRow(w: World, run: RunId): World
    requires run in w.sweeps && w.sweeps[run].current.Some?
  {
    var sweep := w.sweeps[run];
    var actor := sweep.current.value;
    var won := actor in w.actors && w.actors[actor].phase == Done(Settled);
    w.(sweeps := w.sweeps[run := sweep.(current := None, settled := sweep.settled + Bit(won))],
       actors := w.actors - {actor})
  }

  /** One atomic step of the whole system; an action that is not enabled changes nothing. */
  ghost function Next(w: World, a: Action): World {
    if !Enabled(w, a) then w
    else match a
      case Advance(ms) => w.(now := w.now + ms)
      case Delegate(id, row) => Insert(w, id, row)
      case Push(actor, id) => w.(actors := w.actors[actor := Actor(id, Lookup(1), false)])
      case Reply(actor, id) => w.(actors := w.actors[actor := Actor(id, SendReply(w.table[id]), false)])
      case RunOnce(run, found) =>
        if w.isRunning then w
        else w.(isRunning := true,
                sweeps := w.sweeps[run := Sweep(if found.Some? then PageRows(w.table, found.value) else [], None, 0)])
      case TakeRow(run, actor) =>
        var sweep := w.sweeps[run];
        w.(actors := w.actors[actor := Actor(sweep.rest[0].0, Overdue(sweep.rest[0].1), true)],
           sweeps := w.sweeps[run := sweep.(rest := sweep.rest[1..], current := Some(actor))])
      case Collect(run) => CollectRow(w, run)
      case FinishRun(run, fault) =>
        var reported := w.totals.reported + w.sweeps[run].settled;
        CloseRun(if fault.NotExecuted? then w else Prune(w), run).(totals := w.totals.(reported := reported))
      case AbortRun(run) =>
        CloseRun(w, run).(totals := w.totals.(aborted := w.totals.aborted + w.sweeps[run].settled))
      case Step(actor, o) => StepActor(w, actor, o)
      case Die(actor) => KillActor(w, actor)
  }

  ghost function Run(w: World, actions: seq<Action>): World {
    if actions == [] then w else Next(Run(w, actions[..|actions| - 1]), actions[|actions| - 1])
  }

  /* ---- counting the actors in debt ---- */

  datatype Group = Owing(task: TaskId, debt: Debt) | AllOwing(debt: Debt) | Uncollected

  predicate Belongs(x: Actor, g: Group) {
    match g
    case Owing(id, d) => x.task == id && Owes(x.phase, d)
    case AllOwing(d) => Owes(x.phase, d)
    case Uncollected => x.phase == Done(Settled)
  }

  function Members(actors: map<ActorId, Actor>, g: Group): set<ActorId> {
    set a | a in actors && Belongs(actors[a], g)
  }

  lemma MembersAfterRemoval(actors: map<ActorId, Actor>, a: ActorId, g: Group)
    requires a in actors
    ensures |Members(actors - {a}, g)| == |Members(actors, g)| - Bit(Belongs(actors[a], g))
  {
    assert Members(actors - {a}, g) == Members(actors, g) - {a};
  }

  lemma MembersAfterPut(actors: map<ActorId, Actor>, a: ActorId, x: Actor, g: Group)
    ensures |Members(actors[a := x], g)|
         == |Members(actors, g)| - Bit(a in actors && Belongs(actors[a], g)) + Bit(Belongs(x, g))
  {
    MembersExceptPut(actors, a, x, g);
    var rest := Members(actors, g) - {a};
    assert |rest| == |Members(actors, g)| - (if a in Members(actors, g) then 1 else 0);
    assert |rest + {a}| == |rest| + 1;
  }

  lemma MembersExceptPut(actors: map<ActorId, Actor>, a: ActorId, x: Actor, g: Group)
    ensures Members(actors[a := x], g) == (Members(actors, g) - {a}) + (if Belongs(x, g) then {a} else {})
    ensures a in Members(actors, g) <==> a in actors && Belongs(actors[a], g)
  {
  }

  lemma MembersAfterAdvance(w: World, a: ActorId, next: Actor, g: Group)
    requires a in w.actors
    requires next.phase == Done(Settled) && !next.inRun ==> !g.Uncollected?
    ensures |Members(Advanced(w, a, next), g)|
         == |Members(w.actors, g)| - Bit(Belongs(w.actors[a], g)) + Bit(Belongs(next, g))
  {
    MembersAfterRemoval(w.actors, a, g);
    MembersAfterPut(w.actors, a, next, g);
  }

  function Debtors(w: World, id: TaskId, d: Debt): nat {
    |Members(w.actors, Owing(id, d))|
  }

  /* ---- the law every reachable world obeys, task by task ---- */

  function BooksOf(w: World, id: TaskId): Books {
    Books(RowOf(w.table, id), LedgerOf(w, id),
          Debtors(w, id, OwesAnswer), Debtors(w, id, OwesQuestion), Debtors(w, id, OwesReport))
  }

  lemma PutRebooks(w: World, w': World, a: ActorId, x: Actor, id: TaskId)
    requires a in w.actors && w.actors[a].task == x.task && w'.actors == Advanced(w, a, x)
    ensures id == x.task ==> Booked(BooksOf(w, id), w.actors[a].phase)
    ensures id == x.task ==>
              BooksOf(w', id) == Rebooked(BooksOf(w, id), RowOf(w'.table, id), LedgerOf(w', id), w.actors[a].phase,
                                          x.phase)
    ensures id != x.task ==>
              BooksOf(w', id) == BooksOf(w, id).(row := RowOf(w'.table, id), ledger := LedgerOf(w', id))
  {
    PutDebt(w, w', a, x, id, OwesAnswer);
    PutDebt(w, w', a, x, id, OwesQuestion);
    PutDebt(w, w', a, x, id, OwesReport);
  }

  lemma PutDebt(w: World, w': World, a: ActorId, x: Actor, id: TaskId, d: Debt)
    requires a in w.actors && w'.actors == Advanced(w, a, x)
    ensures Debtors(w', id, d)
         == Debtors(w, id, d) - Bit(Belongs(w.actors[a], Owing(id, d))) + Bit(Belongs(x, Owing(id, d)))
    ensures Debtors(w, id, d) >= Bit(Belongs(w.actors[a], Owing(id, d)))
  {
    MembersAfterAdvance(w, a, x, Owing(id, d));
    if Belongs(w.actors[a], Owing(id, d)) {
      assert a in Members(w.actors, Owing(id, d));
    }
  }

  function StepOf(w: World, actor: ActorId, o: Oracle): Stepped
    requires actor in w.actors
  {
    var me := w.actors[actor];
    PhaseStep(RowOf(w.table, me.task), LedgerOf(w, me.task), me.phase, o, w.now)
  }

  lemma StepActorBooks(w: World, actor: ActorId, o: Oracle, id: TaskId)
    requires actor in w.actors && !w.actors[actor].phase.Done?
    ensures var me, s := w.actors[actor], StepOf(w, actor, o);
            && Booked(BooksOf(w, me.task), me.phase)
            && BooksOf(StepActor(w, actor, o), id) == if id == me.task
                 then Rebooked(BooksOf(w, id), s.row, s.ledger, me.phase, s.phase)
                 else BooksOf(w, id)
  {
    var me, s := w.actors[actor], StepOf(w, actor, o);
    PutRebooks(w, StepActor(w, actor, o), actor, me.(phase := s.phase), me.task);
    PutRebooks(w, StepActor(w, actor, o), actor, me.(phase := s.phase), id);
  }

  lemma StepActorKeepsLaw(w: World, actor: ActorId, o: Oracle, id: TaskId)
    requires Balanced(BooksOf(w, id)) && actor in w.actors && !w.actors[actor].phase.Done?
    ensures Balanced(BooksOf(StepActor(w, actor, o), id))
  {
    StepActorBooks(w, actor, o, id);
    if id == w.actors[actor].task {
      StepKeepsBalanced(BooksOf(w, id), w.actors[actor].phase, o, w.now);
    }
  }

  lemma KillActorBooks(w: World, actor: ActorId, id: TaskId)
    requires actor in w.actors
    ensures var me := w.actors[actor];
            && Booked(BooksOf(w, me.task), me.phase)
            && BooksOf(KillActor(w, actor), id) == if id == me.task
                 then Rebooked(BooksOf(w, id), RowOf(w.table, id), Bury(LedgerOf(w, id), me.phase), me.phase,
                               Done(Failure))
                 else BooksOf(w, id)
  {
    var dead := Actor(w.actors[actor].task, Done(Failure), false);
    PutRebooks(w, KillActor(w, actor), actor, dead, dead.task);
    PutRebooks(w, KillActor(w, actor), actor, dead, id);
  }

  lemma KillActorKeepsLaw(w: World, actor: ActorId, id: TaskId)
    requires Balanced(BooksOf(w, id)) && actor in w.actors
    ensures Balanced(BooksOf(KillActor(w, actor), id))
  {
    KillActorBooks(w, actor, id);
    if id == w.actors[actor].task {
      DeathKeepsBalanced(BooksOf(w, id), w.actors[actor].phase);
    }
  }

  lemma InsertKeepsLaw(w: World, task: TaskId, row: Row, id: TaskId)
    requires Balanced(BooksOf(w, id))
    ensures Balanced(BooksOf(Insert(w, task, row), id))
  {
    var w' := Insert(w, task, row);
    if id == task && task !in w.table {
      InsertKeepsBalanced(BooksOf(w, id), w'.table[id]);
    } else {
      assert BooksOf(w', id) == BooksOf(w, id);
    }
  }

  lemma ArrivalKeepsBooks(w: World, w': World, actor: ActorId, x: Actor, id: TaskId)
    requires actor !in w.actors && (x.phase.Lookup? || x.phase.SendReply? || x.phase.Overdue?)
    requires w'.actors == w.actors[actor := x] && w'.table == w.table && w'.ledgers == w.ledgers
    ensures BooksOf(w', id) == BooksOf(w, id)
  {
    MembersAfterPut(w.actors, actor, x, Owing(id, OwesAnswer));
    MembersAfterPut(w.actors, actor, x, Owing(id, OwesQuestion));
    MembersAfterPut(w.actors, actor, x, Owing(id, OwesReport));
  }

  lemma CollectKeepsBooks(w: World, run: RunId, id: TaskId)
    requires Enabled(w, Collect(run))
    ensures BooksOf(CollectRow(w, run), id) == BooksOf(w, id)
  {
    var actor := w.sweeps[run].current.value;
    if actor in w.actors {
      MembersAfterRemoval(w.actors, actor, Owing(id, OwesAnswer));
      MembersAfterRemoval(w.actors, actor, Owing(id, OwesQuestion));
      MembersAfterRemoval(w.actors, actor, Owing(id, OwesReport));
    } else {
      assert w.actors - {actor} == w.actors;
    }
  }

  lemma PruneBooks(w: World, id: TaskId)
    ensures BooksOf(Prune(w), id) == if id in w.table && id !in Pruned(w.table, w.now - RETENTION_MS)
              then BooksOf(w, id).(row := None, ledger := LedgerOf(w, id).(pruned := LedgerOf(w, id).pruned + 1))
              else BooksOf(w, id)
  {
  }

  lemma PruneKeepsLaw(w: World, id: TaskId)
    requires Balanced(BooksOf(w, id))
    ensures Balanced(BooksOf(Prune(w), id))
  {
    PruneBooks(w, id);
    if id in w.table && id !in Pruned(w.table, w.now - RETENTION_MS) {
      PruneKeepsBalanced(BooksOf(w, id));
    }
  }

  /** Most actions touch no task's books. */
  predicate IsQuiet(a: Action) {
    !(a.Delegate? || a.FinishRun? || a.Step? || a.Die?)
  }

  lemma QuietKeepsBooks(w: World, a: Action, id: TaskId)
    requires Enabled(w, a) && IsQuiet(a)
    ensures BooksOf(Next(w, a), id) == BooksOf(w, id)
  {
    var w' := Next(w, a);
    match a {
      case Push(actor, task) => ArrivalKeepsBooks(w, w', actor, w'.actors[actor], id);
      case Reply(actor, task) => ArrivalKeepsBooks(w, w', actor, w'.actors[actor], id);
      case TakeRow(run, actor) => ArrivalKeepsBooks(w, w', actor, w'.actors[actor], id);
      case Collect(run) => CollectKeepsBooks(w, run, id);
      case _ =>
    }
  }

  lemma FinishRunBooks(w: World, run: RunId, fault: Fault, id: TaskId)
    requires Enabled(w, FinishRun(run, fault))
    ensures BooksOf(Next(w, FinishRun(run, fault)), id) == BooksOf(if fault.NotExecuted? then w else Prune(w), id)
  {
  }

  lemma FinishRunKeepsLaw(w: World, run: RunId, fault: Fault, id: TaskId)
    requires Balanced(BooksOf(w, id)) && Enabled(w, FinishRun(run, fault))
    ensures Balanced(BooksOf(Next(w, FinishRun(run, fault)), id))
  {
    FinishRunBooks(w, run, fault, id);
    PruneKeepsLaw(w, id);
  }

  lemma NextKeepsLaw(w: World, a: Action, id: TaskId)
    requires Balanced(BooksOf(w, id))
    ensures Balanced(BooksOf(Next(w, a), id))
  {
    if Enabled(w, a) {
      if IsQuiet(a) {
        QuietKeepsBooks(w, a, id);
      } else {
        match a {
          case Delegate(task, row) => InsertKeepsLaw(w, task, row, id);
          case FinishRun(run, fault) => FinishRunKeepsLaw(w, run, fault, id);
          case Step(actor, o) => StepActorKeepsLaw(w, actor, o, id);
          case Die(actor) => KillActorKeepsLaw(w, actor, id);
        }
      }
    }
  }

  lemma {:induction false} RunKeepsLaw(w: World, actions: seq<Action>, id: TaskId)
    requires Balanced(BooksOf(w, id))
    ensures Balanced(BooksOf(Run(w, actions), id))
  {
    if actions == [] {
    } else {
      var n := |actions| - 1;
      RunKeepsLaw(w, actions[..n], id);
      NextKeepsLaw(Run(w, actions[..n]), actions[n], id);
      assert BooksOf(Run(w, actions), id) == BooksOf(Next(Run(w, actions[..n]), actions[n]), id);
    }
  }

  /** A row leaves the table only when a tick prunes it: settled, and last written more than
      seven days before. */
  lemma RowsAreKeptExactlyUnless(w: World, a: Action, id: TaskId)
    requires id in w.table
    ensures id !in Next(w, a).table <==>
              && Enabled(w, a) && a.FinishRun? && !a.fault.NotExecuted?
              && w.table[id].settled && w.table[id].updatedAt < w.now - 604_800_000
  {
  }

  /** A run that begins takes up only rows that are unsettled and were last written more than
      two minutes before, and none if its query failed. */
  lemma RunsLeaveFreshRowsAlone(w: World, run: RunId, found: Option<seq<TaskId>>)
    requires Enabled(w, RunOnce(run, found)) && !w.isRunning
    ensures var rest := Next(w, RunOnce(run, found)).sweeps[run].rest;
            && |rest| == (if found.Some? then |found.value| else 0)
            && forall x :: x in rest ==> && RowOf(w.table, x.0) == Some(x.1) && !x.1.settled
                                         && x.1.updatedAt < w.now - 120_000
  {
  }
}
