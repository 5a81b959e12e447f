/**
  When an answer can be lost without an error or a crash: only by undoing a question, and
  that only after Slack refused an answer for the same row.
 */
module SettlementReverts {
  import opened Shared
  import opened A2aTaskTracker
  import opened Settlement
  import opened SettlementRuns
  import opened SettlementGuarantees

  /** A write that leaves a row in a terminal state and yet unsettled. */
  predicate LeavesOpen(x: Write) {
    x.cause.ByRollBack? || (x.cause.ByInsert? && x.after.Some? && IsTerminal(x.after.value.state))
  }

  ghost predicate WasLeftOpen(ws: seq<Write>, id: TaskId) {
    exists k :: 0 <= k < |ws| && ws[k].task == id && LeavesOpen(ws[k])
  }

  function SnapshotOf(p: Phase): Option<Row> {
    if p.Lookup? || p.Done? then None else Some(p.row)
  }

  predicate TerminalMeansSettled(r: Option<Row>) {
    r.Some? && IsTerminal(r.value.state) ==> r.value.settled
  }

  /** A terminal snapshot is one of a row that is closed for good. */
  predicate IsStale(r: Option<Row>, p: Phase) {
    SnapshotOf(p).Some? && IsTerminal(SnapshotOf(p).value.state) ==> !IsOpen(r)
  }

  /** An actor whose snapshot, if it has one, cannot reopen the row's case. */
  predicate IsHarmless(x: Actor, r: Option<Row>, inserted: nat) {
    IsStale(r, x.phase) && (SnapshotOf(x.phase).Some? ==> inserted == 1)
  }

  ghost predicate WorkIsOpen(sweep: Sweep, id: TaskId) {
    forall x :: x in sweep.rest && x.0 == id ==> !IsTerminal(x.1.state)
  }

  ghost predicate HasWork(sweep: Sweep, id: TaskId) {
    exists x :: x in sweep.rest && x.0 == id
  }

  /** Nothing has reverted the row, and nothing under way can. */
  ghost predicate CannotRevert(w: World, id: TaskId) {
    && LedgerOf(w, id).reverted == 0
    && TerminalMeansSettled(RowOf(w.table, id))
    && (LedgerOf(w, id).inserted == 0 ==> id !in w.table)
    && (forall a :: a in w.actors && w.actors[a].task == id ==>
          IsHarmless(w.actors[a], RowOf(w.table, id), LedgerOf(w, id).inserted))
    && (forall run :: run in w.sweeps ==>
          WorkIsOpen(w.sweeps[run], id) && (HasWork(w.sweeps[run], id) ==> LedgerOf(w, id).inserted == 1))
  }

  ghost predicate Unreverted(w: World, id: TaskId) {
    LedgerOf(w, id).inserted <= 1 && !WasLeftOpen(w.writes, id) ==> CannotRevert(w, id)
  }

  lemma StepKeepsSnapshot(r: Option<Row>, l: Ledger, p: Phase, o: Oracle, now: Time)
    ensures var s := PhaseStep(r, l, p, o, now);
            && s.ledger.inserted == l.inserted
            && (s.row.Some? <==> r.Some?)
            && (SnapshotOf(s.phase).Some? ==>
                  SnapshotOf(s.phase) == SnapshotOf(p) || (p.Lookup? && SnapshotOf(s.phase) == r))
  {
  }

  lemma StepCannotRevert(r: Option<Row>, l: Ledger, p: Phase, o: Oracle, now: Time)
    requires TerminalMeansSettled(r) && IsStale(r, p) && PhaseStep(r, l, p, o, now).cause != Some(ByRollBack)
    ensures var s := PhaseStep(r, l, p, o, now);
            s.ledger.reverted == l.reverted && TerminalMeansSettled(s.row) && (!IsOpen(r) ==> !IsOpen(s.row))
  {
  }

  lemma LookupWritesNothing(r: Option<Row>, l: Ledger, p: Phase, o: Oracle, now: Time)
    requires p.Lookup?
    ensures PhaseStep(r, l, p, o, now).row == r
  {
  }

  lemma OwnStep(w: World, actor: ActorId, o: Oracle)
    requires actor in w.actors
    ensures var (me, w', s) := (w.actors[actor], StepActor(w, actor, o), StepOf(w, actor, o));
            && RowOf(w'.table, me.task) == s.row && LedgerOf(w', me.task) == s.ledger && w'.sweeps == w.sweeps
            && (forall a :: a in w'.actors ==>
                  a in w.actors && w'.actors[a] == if a == actor then me.(phase := s.phase) else w.actors[a])
            && (s.cause.Some? ==>
                  w'.writes == w.writes + [Write(me.task, s.cause.value, RowOf(w.table, me.task), s.row, w.now)])
  {
  }

  lemma OwnStepCannotRevert(w: World, actor: ActorId, o: Oracle)
    requires actor in w.actors && CannotRevert(w, w.actors[actor].task)
             && LedgerOf(w, w.actors[actor].task).inserted <= 1
    requires StepOf(w, actor, o).cause != Some(ByRollBack)
    ensures CannotRevert(StepActor(w, actor, o), w.actors[actor].task)
  {
    var me := w.actors[actor];
    var r, l := RowOf(w.table, me.task), LedgerOf(w, me.task);
    OwnStep(w, actor, o);
    StepKeepsSnapshot(r, l, me.phase, o, w.now);
    StepCannotRevert(r, l, me.phase, o, w.now);
    if me.phase.Lookup? {
      LookupWritesNothing(r, l, me.phase, o, w.now);
    }
  }

  lemma OwnStepKeepsUnreverted(w: World, actor: ActorId, o: Oracle)
    requires actor in w.actors && Unreverted(w, w.actors[actor].task)
    ensures Unreverted(StepActor(w, actor, o), w.actors[actor].task)
  {
    var (me, w', s) := (w.actors[actor], StepActor(w, actor, o), StepOf(w, actor, o));
    var id := me.task;
    WritesGrow(w, w', id);
    OwnStep(w, actor, o);
    if LedgerOf(w', id).inserted <= 1 && !WasLeftOpen(w'.writes, id) {
      if s.cause == Some(ByRollBack) {
        assert LeavesOpen(w'.writes[|w.writes|]);
      }
      StepKeepsSnapshot(RowOf(w.table, id), LedgerOf(w, id), me.phase, o, w.now);
      OwnStepCannotRevert(w, actor, o);
    }
  }

  lemma StepKeepsUnreverted(w: World, actor: ActorId, o: Oracle, id: TaskId)
    requires Unreverted(w, id) && actor in w.actors
    ensures Unreverted(StepActor(w, actor, o), id)
  {
    var w' := StepActor(w, actor, o);
    if w.actors[actor].task == id {
      OwnStepKeepsUnreverted(w, actor, o);
    } else {
      WritesGrow(w, w', id);
      assert RowOf(w'.table, id) == RowOf(w.table, id);
    }
  }

  lemma WritesGrow(w: World, w': World, id: TaskId)
    requires w.writes <= w'.writes
    ensures WasLeftOpen(w.writes, id) ==> WasLeftOpen(w'.writes, id)
  {
    if WasLeftOpen(w.writes, id) {
      var k :| 0 <= k < |w.writes| && w.writes[k].task == id && LeavesOpen(w.writes[k]);
      assert w'.writes[k] == w.writes[k];
    }
  }

  lemma InsertKeepsUnreverted(w: World, task: TaskId, row: Row, id: TaskId)
    requires Unreverted(w, id)
    ensures Unreverted(Insert(w, task, row), id)
  {
    var w' := Insert(w, task, row);
    if LedgerOf(w', id).inserted <= 1 && !WasLeftOpen(w'.writes, id) {
      WritesGrow(w, w', id);
      if task !in w.table && task == id {
        assert w'.writes[|w.writes|].task == id;
      } else {
        assert RowOf(w'.table, id) == RowOf(w.table, id);
      }
    }
  }

  /** An actor joins, with a snapshot of the row as it is, or one a run took while the row
      was unsettled. */
  lemma ArrivalKeepsUnreverted(w: World, w': World, actor: ActorId, x: Actor, id: TaskId)
    requires Unreverted(w, id) && w'.actors == w.actors[actor := x]
    requires w'.table == w.table && w'.ledgers == w.ledgers && w'.writes == w.writes
    requires forall run :: run in w'.sweeps ==>
               run in w.sweeps && (w'.sweeps[run] == w.sweeps[run]
                                   || (w.sweeps[run].rest != [] && w'.sweeps[run].rest == w.sweeps[run].rest[1..]))
    requires x.task == id && CannotRevert(w, id) && LedgerOf(w, id).inserted <= 1 ==>
               IsStale(RowOf(w.table, id), x.phase) && (SnapshotOf(x.phase).Some? ==> LedgerOf(w, id).inserted == 1)
    ensures Unreverted(w', id)
  {
  }

  lemma ReplyKeepsUnreverted(w: World, actor: ActorId, task: TaskId, id: TaskId)
    requires Unreverted(w, id) && Enabled(w, Reply(actor, task))
    ensures Unreverted(Next(w, Reply(actor, task)), id)
  {
    ArrivalKeepsUnreverted(w, Next(w, Reply(actor, task)), actor, Actor(task, SendReply(w.table[task]), false), id);
  }

  lemma TakeRowKeepsUnreverted(w: World, run: RunId, actor: ActorId, id: TaskId)
    requires Unreverted(w, id) && Enabled(w, TakeRow(run, actor))
    ensures Unreverted(Next(w, TakeRow(run, actor)), id)
  {
    var first := w.sweeps[run].rest[0];
    ArrivalKeepsUnreverted(w, Next(w, TakeRow(run, actor)), actor, Actor(first.0, Overdue(first.1), true), id);
  }

  lemma RunOnceKeepsUnreverted(w: World, run: RunId, found: Option<seq<TaskId>>, id: TaskId)
    requires Unreverted(w, id) && Enabled(w, RunOnce(run, found))
    ensures Unreverted(Next(w, RunOnce(run, found)), id)
  {
    if found.Some? {
      forall i | 0 <= i < |found.value| && found.value[i] == id ensures IsOpen(RowOf(w.table, id)) {
        assert Eligible(w.table, w.now - GRACE_MS, found.value[i]);
      }
    }
  }

  lemma PruneKeepsUnreverted(w: World, id: TaskId)
    requires Unreverted(w, id)
    ensures Unreverted(Prune(w), id)
  {
  }

  /** Some actors leave, and some rows still to visit are dropped. */
  lemma LeavingKeepsUnreverted(w: World, w': World, id: TaskId)
    requires Unreverted(w, id) && w'.table == w.table && w'.writes == w.writes
    requires LedgerOf(w', id).inserted == LedgerOf(w, id).inserted
             && LedgerOf(w', id).reverted == LedgerOf(w, id).reverted
    requires forall a :: a in w'.actors ==> a in w.actors && w'.actors[a] == w.actors[a]
    requires forall run :: run in w'.sweeps ==> run in w.sweeps && w'.sweeps[run].rest == w.sweeps[run].rest
    ensures Unreverted(w', id)
  {
  }

  lemma LeavingActionKeepsUnreverted(w: World, a: Action, id: TaskId)
    requires Unreverted(w, id) && Enabled(w, a) && (a.Advance? || a.Collect? || a.AbortRun? || a.Die?)
    ensures Unreverted(Next(w, a), id)
  {
    LeavingKeepsUnreverted(w, Next(w, a), id);
  }

  lemma FinishRunKeepsUnreverted(w: World, run: RunId, fault: Fault, id: TaskId)
    requires Unreverted(w, id) && Enabled(w, FinishRun(run, fault))
    ensures Unreverted(Next(w, FinishRun(run, fault)), id)
  {
    PruneKeepsUnreverted(w, id);
    LeavingKeepsUnreverted(if fault.NotExecuted? then w else Prune(w), Next(w, FinishRun(run, fault)), id);
  }

  lemma PushKeepsUnreverted(w: World, actor: ActorId, task: TaskId, id: TaskId)
    requires Unreverted(w, id) && Enabled(w, Push(actor, task))
    ensures Unreverted(Next(w, Push(actor, task)), id)
  {
    ArrivalKeepsUnreverted(w, Next(w, Push(actor, task)), actor, Actor(task, Lookup(1), false), id);
  }

  lemma NextKeepsUnreverted(w: World, a: Action, id: TaskId)
    requires Unreverted(w, id)
    ensures Unreverted(Next(w, a), id)
  {
    if Enabled(w, a) {
      match a {
        case Delegate(task, row) => InsertKeepsUnreverted(w, task, row, id);
        case Step(actor, o) => StepKeepsUnreverted(w, actor, o, id);
        case Push(actor, task) => PushKeepsUnreverted(w, actor, task, id);
        case Reply(actor, task) => ReplyKeepsUnreverted(w, actor, task, id);
        case TakeRow(run, actor) => TakeRowKeepsUnreverted(w, run, actor, id);
        case RunOnce(run, found) => RunOnceKeepsUnreverted(w, run, found, id);
        case FinishRun(run, fault) => FinishRunKeepsUnreverted(w, run, fault, id);
        case _ => LeavingActionKeepsUnreverted(w, a, id);
      }
    }
  }

  lemma {:induction false} ReachableIsUnreverted(start: Time, actions: seq<Action>, id: TaskId)
    ensures Unreverted(After(start, actions), id)
  {
    if actions == [] {
    } else {
      var n := |actions| - 1;
      ReachableIsUnreverted(start, actions[..n], id);
      NextKeepsUnreverted(After(start, actions[..n]), actions[n], id);
    }
  }

  /** Undoing a question settles a row recorded once only if earlier an answer for it was
      refused and rolled back, or it was recorded in a terminal state. */
  lemma RevertedOnlyAfterARollBack(start: Time, actions: seq<Action>, id: TaskId)
    requires LedgerOf(After(start, actions), id).inserted == 1
    ensures LedgerOf(After(start, actions), id).reverted > 0 ==> WasLeftOpen(After(start, actions).writes, id)
  {
    ReachableIsUnreverted(start, actions, id);
  }

  /* ---- runs in which Slack takes every answer ---- */

  /** The step is an answer's post, and Slack refuses it. */
  predicate RefusesAnswer(w: World, a: Action) {
    a.Step? && a.actor in w.actors && w.actors[a.actor].phase.PostAnswer? && !a.oracle.postOk
  }

  predicate RecordsTerminal(a: Action) {
    a.Delegate? && IsTerminal(a.row.state)
  }

  ghost predicate AnswersAreTaken(start: Time, actions: seq<Action>) {
    forall k :: 0 <= k < |actions| ==> !RefusesAnswer(After(start, actions[..k]), actions[k])
  }

  ghost predicate RollsNothingBack(w: World) {
    && (forall a :: a in w.actors ==> !w.actors[a].phase.RollBack?)
    && (forall x :: x in w.writes ==> !LeavesOpen(x))
  }

  lemma StepRollsNothingBack(r: Option<Row>, l: Ledger, p: Phase, o: Oracle, now: Time)
    requires !p.RollBack? && (p.PostAnswer? ==> o.postOk)
    ensures var s := PhaseStep(r, l, p, o, now);
            !s.phase.RollBack? && s.cause != Some(ByRollBack) && s.cause != Some(ByInsert)
  {
  }

  lemma NextRollsNothingBack(w: World, a: Action)
    requires RollsNothingBack(w) && !RefusesAnswer(w, a) && !RecordsTerminal(a)
    ensures RollsNothingBack(Next(w, a))
  {
    if a.Step? && a.actor in w.actors {
      var me := w.actors[a.actor];
      StepRollsNothingBack(RowOf(w.table, me.task), LedgerOf(w, me.task), me.phase, a.oracle, w.now);
    }
  }

  lemma {:induction false} RunRollsNothingBack(start: Time, actions: seq<Action>)
    requires AnswersAreTaken(start, actions) && forall a :: a in actions ==> !RecordsTerminal(a)
    ensures RollsNothingBack(After(start, actions))
  {
    if actions == [] {
    } else {
      var n := |actions| - 1;
      forall k | 0 <= k < n ensures !RefusesAnswer(After(start, actions[..n][..k]), actions[..n][k]) {
        assert actions[..n][..k] == actions[..k];
      }
      RunRollsNothingBack(start, actions[..n]);
      NextRollsNothingBack(After(start, actions[..n]), actions[n]);
    }
  }

  /** Without a database error or a crash, with every answer taken by Slack and no task
      recorded as already over, a row recorded once and not pruned is settled in exactly one
      of four ways: its answer was delivered, somebody is about to deliver it, a new task
      took its place, or the agent answered a reply with the finished task. */
  lemma CalmRunAccountsForEveryAnswer(start: Time, actions: seq<Action>, id: TaskId)
    requires forall a :: a in actions ==> IsCalm(a) && !RecordsTerminal(a)
    requires AnswersAreTaken(start, actions)
    requires var l := LedgerOf(After(start, actions), id); l.inserted == 1 && l.pruned == 0
    ensures var w := After(start, actions);
            var l := LedgerOf(w, id);
            && l.reverted == 0 && l.lost == 0 && id in w.table
            && l.delivered + Debtors(w, id, OwesAnswer) + l.replaced + l.finished == Bit(w.table[id].settled)
  {
    RunRollsNothingBack(start, actions);
    RevertedOnlyAfterARollBack(start, actions, id);
    CalmRunLosesNothing(start, actions, id);
    EverySettleIsAccountedFor(start, actions, id);
    ReachableIsBalanced(start, actions, id);
  }

  /* ---- the answer that comes with a reply ---- */

  /** A write that settles a row by what the agent said to the user's reply. */
  predicate FinishesByReply(x: Write) {
    x.cause.ByResume? && x.after.Some? && IsTerminal(x.after.value.state)
  }

  ghost predicate WasFinishedByReply(ws: seq<Write>, id: TaskId) {
    exists x :: x in ws && x.task == id && FinishesByReply(x)
  }

  ghost predicate FinishedIsWritten(w: World, id: TaskId) {
    LedgerOf(w, id).finished > 0 <==> WasFinishedByReply(w.writes, id)
  }

  lemma StepFinishesExactlyWhen(r: Option<Row>, l: Ledger, p: Phase, o: Oracle, now: Time, id: TaskId)
    ensures var s := PhaseStep(r, l, p, o, now);
            var finishes := s.cause.Some? && FinishesByReply(Write(id, s.cause.value, r, s.row, now));
            s.ledger.finished == l.finished + Bit(finishes)
  {
  }

  lemma WrittenAfter(ws: seq<Write>, x: Write, id: TaskId)
    ensures WasFinishedByReply(ws + [x], id) <==> WasFinishedByReply(ws, id) || (x.task == id && FinishesByReply(x))
  {
    if WasFinishedByReply(ws, id) {
      var y :| y in ws && y.task == id && FinishesByReply(y);
      assert y in ws + [x];
    }
    if x.task == id && FinishesByReply(x) {
      assert x in ws + [x];
    }
  }

  lemma StepKeepsFinishedIsWritten(w: World, actor: ActorId, o: Oracle, id: TaskId)
    requires FinishedIsWritten(w, id) && actor in w.actors
    ensures FinishedIsWritten(StepActor(w, actor, o), id)
  {
    var me, s := w.actors[actor], StepOf(w, actor, o);
    var r := RowOf(w.table, me.task);
    StepFinishesExactlyWhen(r, LedgerOf(w, me.task), me.phase, o, w.now, me.task);
    if s.cause.Some? {
      WrittenAfter(w.writes, Write(me.task, s.cause.value, r, s.row, w.now), id);
    }
  }

  lemma NextKeepsFinishedIsWritten(w: World, a: Action, id: TaskId)
    requires FinishedIsWritten(w, id)
    ensures FinishedIsWritten(Next(w, a), id)
  {
    if Enabled(w, a) {
      if a.Step? {
        StepKeepsFinishedIsWritten(w, a.actor, a.oracle, id);
      } else if a.Delegate? && a.task !in w.table {
        WrittenAfter(w.writes, Next(w, a).writes[|w.writes|], id);
      }
    }
  }

  /** An answer is lost to a reply exactly if a committed resume left the row in a terminal
      state. */
  lemma {:induction false} FinishedExactlyWhen(start: Time, actions: seq<Action>, id: TaskId)
    ensures LedgerOf(After(start, actions), id).finished > 0 <==> WasFinishedByReply(After(start, actions).writes, id)
  {
    if actions == [] {
    } else {
      var n := |actions| - 1;
      FinishedExactlyWhen(start, actions[..n], id);
      NextKeepsFinishedIsWritten(After(start, actions[..n]), actions[n], id);
    }
  }

  /** The step is a reply's message/send, and the agent answers with a finished task. */
  predicate ReplyFinishes(w: World, a: Action) {
    && a.Step? && a.actor in w.actors && w.actors[a.actor].phase.SendReply?
    && a.oracle.send.Resumes? && IsTerminal(a.oracle.send.state)
  }

  ghost predicate RepliesLeaveWork(start: Time, actions: seq<Action>) {
    forall k :: 0 <= k < |actions| ==> !ReplyFinishes(After(start, actions[..k]), actions[k])
  }

  ghost predicate NothingFinishes(w: World) {
    && (forall a :: a in w.actors && w.actors[a].phase.CommitResume? ==> !IsTerminal(w.actors[a].phase.state))
    && (forall x :: x in w.writes ==> !FinishesByReply(x))
  }

  lemma StepFinishesNothing(r: Option<Row>, l: Ledger, p: Phase, o: Oracle, now: Time)
    requires p.CommitResume? ==> !IsTerminal(p.state)
    requires p.SendReply? && o.send.Resumes? ==> !IsTerminal(o.send.state)
    ensures var s := PhaseStep(r, l, p, o, now);
            && (s.phase.CommitResume? ==> !IsTerminal(s.phase.state))
            && (s.cause.Some? && s.cause.value.ByResume? ==> s.row.Some? && !IsTerminal(s.row.value.state))
            && s.cause != Some(ByInsert)
  {
  }

  lemma NextFinishesNothing(w: World, a: Action)
    requires NothingFinishes(w) && !ReplyFinishes(w, a)
    ensures NothingFinishes(Next(w, a))
  {
    if a.Step? && a.actor in w.actors {
      var me := w.actors[a.actor];
      StepFinishesNothing(RowOf(w.table, me.task), LedgerOf(w, me.task), me.phase, a.oracle, w.now);
    }
  }

  lemma {:induction false} RunFinishesNothing(start: Time, actions: seq<Action>)
    requires RepliesLeaveWork(start, actions)
    ensures NothingFinishes(After(start, actions))
  {
    if actions == [] {
    } else {
      var n := |actions| - 1;
      forall k | 0 <= k < n ensures !ReplyFinishes(After(start, actions[..n][..k]), actions[..n][k]) {
        assert actions[..n][..k] == actions[..k];
      }
      RunFinishesNothing(start, actions[..n]);
      NextFinishesNothing(After(start, actions[..n]), actions[n]);
    }
  }

  /** If moreover no agent answers a reply with a finished task, nothing is lost: the row is
      settled exactly if its answer was delivered or somebody is about to deliver it, or a
      new task took its place. */
  lemma CalmRunKeepsEveryAnswer(start: Time, actions: seq<Action>, id: TaskId)
    requires forall a :: a in actions ==> IsCalm(a) && !RecordsTerminal(a)
    requires AnswersAreTaken(start, actions) && RepliesLeaveWork(start, actions)
    requires var l := LedgerOf(After(start, actions), id); l.inserted == 1 && l.pruned == 0
    ensures var w := After(start, actions);
            var l := LedgerOf(w, id);
            && l.finished == 0 && l.reverted == 0 && l.lost == 0 && id in w.table
            && l.delivered + Debtors(w, id, OwesAnswer) + l.replaced == Bit(w.table[id].settled)
  {
    CalmRunAccountsForEveryAnswer(start, actions, id);
    FinishedExactlyWhen(start, actions, id);
    RunFinishesNothing(start, actions);
  }

  /** A convenient way to meet the premises. */
  predicate IsSmooth(a: Action) {
    IsCalm(a) && !RecordsTerminal(a) && (a.Step? ==> a.oracle.postOk)
  }

  lemma SmoothRunsTakeAnswers(start: Time, actions: seq<Action>)
    requires forall a :: a in actions ==> IsSmooth(a)
    ensures AnswersAreTaken(start, actions)
  {
    forall k | 0 <= k < |actions| ensures !RefusesAnswer(After(start, actions[..k]), actions[k]) {
      assert actions[k] in actions;
    }
  }
}
