/**
  Whether a task that waits for its user has asked its question.
 */
module SettlementQuestions {
  import opened Shared
  import opened A2aTaskTracker
  import opened Settlement
  import opened SettlementRuns
  import opened SettlementGuarantees
  import opened SettlementHistory

  /** How often an observation took the task into input-required. */
  function CountEntries(ws: seq<Write>, id: TaskId): nat {
    if ws == [] then 0
    else
      var n := |ws| - 1;
      CountEntries(ws[..n], id) + Bit(Enters(ws[n], id))
  }

  /** Why the row was last written. */
  function LastCause(ws: seq<Write>, id: TaskId): Option<Cause> {
    if ws == [] then None
    else
      var n := |ws| - 1;
      if ws[n].task == id then Some(ws[n].cause) else LastCause(ws[..n], id)
  }

  lemma AfterWrite(ws: seq<Write>, x: Write, id: TaskId)
    ensures CountEntries(ws + [x], id) == CountEntries(ws, id) + Bit(Enters(x, id))
    ensures LastCause(ws + [x], id) == if x.task == id then Some(x.cause) else LastCause(ws, id)
  {
    assert (ws + [x])[..|ws|] == ws;
  }

  /** The step is a question's post, and Slack refuses it. */
  predicate RefusesQuestion(w: World, a: Action) {
    a.Step? && a.actor in w.actors && w.actors[a.actor].phase.PostQuestion? && !a.oracle.postOk
  }

  ghost predicate QuestionsAreTaken(start: Time, actions: seq<Action>) {
    forall k :: 0 <= k < |actions| ==> !RefusesQuestion(After(start, actions[..k]), actions[k])
  }

  predicate StandsFor(c: Option<Cause>) {
    c.Some? && (c.value == ByObservation(InputRequired) || c.value.ByInsert? || c.value.ByResume?)
  }

  /** Every entry is counted, no question has been given up, and a row that waits does so
      because of an observation, an insertion or a reply. */
  ghost predicate Asks(w: World, id: TaskId) {
    && LedgerOf(w, id).entered == CountEntries(w.writes, id) && LedgerOf(w, id).unasked == 0
    && SettledMeansTerminal(RowOf(w.table, id))
    && (IsAsking(RowOf(w.table, id)) ==> StandsFor(LastCause(w.writes, id)))
  }

  ghost predicate NobodyReverts(w: World) {
    forall a :: a in w.actors ==> !w.actors[a].phase.RevertQuestion?
  }

  lemma StepAsks(r: Option<Row>, l: Ledger, p: Phase, o: Oracle, now: Time)
    requires !p.RevertQuestion? && (p.PostQuestion? ==> o.postOk) && o.commit.NoFault? && SettledMeansTerminal(r)
    ensures var s := PhaseStep(r, l, p, o, now);
            && s.ledger.entered == l.entered + Bit(s.cause == Some(ByObservation(InputRequired)))
            && s.ledger.unasked == l.unasked && !s.phase.RevertQuestion? && SettledMeansTerminal(s.row)
            && (s.cause.Some? && IsAsking(s.row) ==> StandsFor(s.cause)) && (s.cause.None? ==> s.row == r)
  {
  }

  lemma StepKeepsAsks(w: World, actor: ActorId, o: Oracle, id: TaskId)
    requires Asks(w, id) && NobodyReverts(w) && actor in w.actors && IsCalm(Step(actor, o))
    requires !RefusesQuestion(w, Step(actor, o)) && SettledMeansTerminal(RowOf(w.table, w.actors[actor].task))
    ensures Asks(StepActor(w, actor, o), id) && NobodyReverts(StepActor(w, actor, o))
  {
    var (me, w', s) := (w.actors[actor], StepActor(w, actor, o), StepOf(w, actor, o));
    var r := RowOf(w.table, me.task);
    StepAsks(r, LedgerOf(w, me.task), me.phase, o, w.now);
    if s.cause.Some? {
      AfterWrite(w.writes, Write(me.task, s.cause.value, r, s.row, w.now), id);
    }
    assert RowOf(w'.table, id) == if id == me.task then s.row else RowOf(w.table, id);
  }

  lemma InsertKeepsAsks(w: World, task: TaskId, row: Row, id: TaskId)
    requires Asks(w, id)
    ensures Asks(Insert(w, task, row), id)
  {
    var w' := Insert(w, task, row);
    if task !in w.table {
      AfterWrite(w.writes, w'.writes[|w.writes|], id);
      assert RowOf(w'.table, id) == if id == task then w'.writes[|w.writes|].after else RowOf(w.table, id);
    }
  }

  lemma NextKeepsAsks(w: World, a: Action, id: TaskId)
    requires Asks(w, id) && NobodyReverts(w) && IsCalm(a) && !RefusesQuestion(w, a)
    requires forall t :: SettledMeansTerminal(RowOf(w.table, t))
    ensures Asks(Next(w, a), id) && NobodyReverts(Next(w, a))
  {
    if Enabled(w, a) {
      match a {
        case Delegate(task, row) => InsertKeepsAsks(w, task, row, id);
        case Step(actor, o) => StepKeepsAsks(w, actor, o, id);
        case _ =>
      }
    }
  }

  lemma {:induction false} RunAsks(start: Time, actions: seq<Action>, id: TaskId)
    requires (forall a :: a in actions ==> IsCalm(a)) && QuestionsAreTaken(start, actions)
    ensures Asks(After(start, actions), id) && NobodyReverts(After(start, actions))
  {
    if actions == [] {
    } else {
      var n := |actions| - 1;
      forall k | 0 <= k < n ensures !RefusesQuestion(After(start, actions[..n][..k]), actions[..n][k]) {
        assert actions[..n][..k] == actions[..k];
      }
      RunAsks(start, actions[..n], id);
      forall t: TaskId ensures SettledMeansTerminal(RowOf(After(start, actions[..n]).table, t)) {
        ReachableIsBalanced(start, actions[..n], t);
      }
      NextKeepsAsks(After(start, actions[..n]), actions[n], id);
    }
  }

  /** Without a database error or a crash, and with every question taken by Slack: each
      observation that took the task into input-required has its question posted or about to
      be; and a task that stands there does so because of one, unless it was recorded so or
      a reply was answered so, in which case nothing posts its question
      (`StandingQuestionIsNeverPosted`). */
  lemma StandingQuestionsAreAsked(start: Time, actions: seq<Action>, id: TaskId)
    requires (forall a :: a in actions ==> IsCalm(a)) && QuestionsAreTaken(start, actions)
    ensures var w := After(start, actions);
            && LedgerOf(w, id).asked + Debtors(w, id, OwesQuestion) == CountEntries(w.writes, id)
            && (IsAsking(RowOf(w.table, id)) ==> StandsFor(LastCause(w.writes, id)))
  {
    RunAsks(start, actions, id);
    ReachableIsBalanced(start, actions, id);
  }
}
