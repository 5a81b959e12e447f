/**
  Runs that show where the protocol falls short.  In all of them no database call fails and
  no actor dies, and yet an answer is lost or a question is never asked.
 */
module SettlementWitnesses {
  import opened Shared
  import opened A2aTaskTracker
  import opened Settlement
  import opened SettlementRuns
  import opened SettlementGuarantees
  import opened SettlementAlone
  import opened SettlementSequential
  import opened SettlementReverts

  const TASK: TaskId := "task"

  ghost predicate Calm(actions: seq<Action>) {
    forall a :: a in actions ==> IsCalm(a)
  }

  ghost predicate Smooth(actions: seq<Action>) {
    forall a :: a in actions ==> IsSmooth(a)
  }

  /** A calm run that has reached a world with one task, given by its row, its ledger and the
      actors under way. */
  ghost predicate Stands(actions: seq<Action>, w: World, row: Row, l: Ledger, actors: map<ActorId, Actor>) {
    && Calm(actions) && w == After(0, actions)
    && RowOf(w.table, TASK) == Some(row) && LedgerOf(w, TASK) == l && w.actors == actors && w.sweeps == map[]
  }

  function Calls(poll: Poll, send: Send, postOk: bool): Oracle {
    Oracle(poll, send, postOk, NoFault, NoFault, NoFault, NoFault)
  }

  function NewTask(state: TaskState): Row {
    Row("context", "agent", ThreadKey("team", "channel", "root"), "event", state, false, 0, 0, 0)
  }

  /* ---- moving on ---- */

  lemma {:induction false} Delegated(row: Row) returns (actions: seq<Action>, w: World)
    requires !row.settled && row.createdAt == row.updatedAt == 0
    ensures Stands(actions, w, row, Blank().(inserted := 1, bornAsking := Bit(row.state.InputRequired?)), map[])
    ensures w.now == 0 && actions == [Delegate(TASK, row)]
  {
    actions := [Delegate(TASK, row)];
    RunOfOne(Initial(0), actions[0]);
    w := Insert(Initial(0), TASK, row);
  }

  /** An actor arrives. */
  lemma {:induction false} Arrives(actions: seq<Action>, w: World, row: Row, l: Ledger, arrival: Action,
                                   actor: ActorId, p: Phase)
    returns (actions': seq<Action>, w': World)
    requires Stands(actions, w, row, l, w.actors) && IsCalm(arrival)
    requires Next(w, arrival) == w.(actors := w.actors[actor := Actor(TASK, p, false)])
    ensures Stands(actions', w', row, l, w.actors[actor := Actor(TASK, p, false)])
    ensures w' == Next(w, arrival) && (Smooth(actions) && IsSmooth(arrival) ==> Smooth(actions'))
  {
    RunOfConcat(Initial(0), actions, [arrival]);
    RunOfOne(w, arrival);
    actions', w' := actions + [arrival], Next(w, arrival);
  }

  lemma PushIsArrival(w: World, actor: ActorId)
    requires actor !in w.actors && w.sweeps == map[]
    ensures Next(w, Push(actor, TASK)) == w.(actors := w.actors[actor := Actor(TASK, Lookup(1), false)])
  {
  }

  lemma ReplyIsArrival(w: World, row: Row, actor: ActorId)
    requires actor !in w.actors && w.sweeps == map[]
    requires RowOf(w.table, TASK) == Some(row) && !row.settled && row.state.InputRequired?
    ensures Next(w, Reply(actor, TASK)) == w.(actors := w.actors[actor := Actor(TASK, SendReply(row), false)])
  {
  }

  /** An actor that is under way takes one step, to the phase given. */
  lemma {:induction false} Steps(actions: seq<Action>, w: World, row: Row, l: Ledger, actor: ActorId, o: Oracle,
                                 s: Stepped)
    returns (actions': seq<Action>, w': World)
    requires Stands(actions, w, row, l, w.actors) && IsCalm(Step(actor, o))
    requires actor in w.actors && w.actors[actor].task == TASK && !w.actors[actor].phase.Done?
    requires s == PhaseStep(Some(row), l, w.actors[actor].phase, o, w.now) && s.row.Some? && !s.phase.Done?
    ensures Stands(actions', w', s.row.value, s.ledger, w.actors[actor := w.actors[actor].(phase := s.phase)])
    ensures w'.now == w.now
    ensures s.cause.Some? ==> exists x :: x in w'.writes && x.cause == s.cause.value
  {
    RunOfConcat(Initial(0), actions, [Step(actor, o)]);
    RunOfOne(w, Step(actor, o));
    actions', w' := actions + [Step(actor, o)], StepActor(w, actor, o);
    if s.cause.Some? {
      assert w'.writes[|w.writes|].cause == s.cause.value;
    }
  }

  /** An actor that is under way runs to its end, and the others stay where they are. */
  lemma {:induction false} Finishes(actions: seq<Action>, w: World, row: Row, l: Ledger, actor: ActorId, o: Oracle)
    returns (actions': seq<Action>, w': World)
    requires Stands(actions, w, row, l, w.actors) && IsCalm(Step(actor, o))
    requires actor in w.actors && w.actors[actor].task == TASK && !w.actors[actor].phase.Done? && !w.actors[actor].inRun
    ensures var f := Alone(Some(row), l, w.actors[actor].phase, o, w.now);
            f.row.Some? && Stands(actions', w', f.row.value, f.ledger, w.actors - {actor})
    ensures w'.now == w.now && w.writes <= w'.writes
    ensures Smooth(actions) && IsSmooth(Step(actor, o)) ==> Smooth(actions')
  {
    var steps := AloneIsARun(w, actor, o);
    RunOfConcat(Initial(0), actions, steps);
    actions', w' := actions + steps, Run(w, steps);
    WritesStay(w, steps);
  }

  lemma NextKeepsWrites(w: World, a: Action)
    ensures w.writes <= Next(w, a).writes
  {
  }

  lemma {:induction false} WritesStay(w: World, actions: seq<Action>)
    ensures w.writes <= Run(w, actions).writes
  {
    if actions == [] {
    } else {
      var n := |actions| - 1;
      WritesStay(w, actions[..n]);
      NextKeepsWrites(Run(w, actions[..n]), actions[n]);
    }
  }

  /** An actor arrives and runs to its end. */
  lemma {:induction false} OneActor(actions: seq<Action>, w: World, row: Row, l: Ledger, arrival: Action,
                                    actor: ActorId, p: Phase, o: Oracle)
    returns (actions': seq<Action>, w': World)
    requires Stands(actions, w, row, l, w.actors) && IsCalm(arrival) && IsCalm(Step(actor, o)) && actor !in w.actors
             && !p.Done?
    requires Next(w, arrival) == w.(actors := w.actors[actor := Actor(TASK, p, false)])
    ensures var f := Alone(Some(row), l, p, o, w.now);
            f.row.Some? && Stands(actions', w', f.row.value, f.ledger, w.actors)
    ensures w'.now == w.now
    ensures Smooth(actions) && IsSmooth(arrival) && IsSmooth(Step(actor, o)) ==> Smooth(actions')
  {
    var w1;
    actions', w1 := Arrives(actions, w, row, l, arrival, actor, p);
    actions', w' := Finishes(actions', w1, row, l, actor, o);
    assert w1.actors - {actor} == w.actors;
  }

  /* ---- what the actors do ---- */

  /** A push that sees a failure whose answer Slack refuses leaves the row failed and open. */
  lemma AloneFails(row: Row, l: Ledger, o: Oracle, now: Time)
    requires row.state.Working? && !row.settled && o == Calls(Saw(Failed), SendFailed, false)
    ensures Alone(Some(row.(state := Failed, settled := true, updatedAt := now)), l, PostAnswer(row), o, now)
         == Finished(Some(row.(state := Failed, updatedAt := now)), l, Failure)
  {
    var r := Some(row.(state := Failed, settled := true, updatedAt := now));
    AloneUnfolds(r, l, PostAnswer(row), o, now);
    AloneUnfolds(r, l, RollBack(row), o, now);
  }

  /** A push that sees the agent at work revives the row. */
  lemma AloneRevives(row: Row, l: Ledger, o: Oracle, now: Time)
    requires row.state.Failed? && !row.settled && o == Calls(Saw(Working), SendFailed, true)
    ensures Alone(Some(row), l, Lookup(1), o, now)
         == Finished(Some(row.(state := Working, updatedAt := now)), l, Heartbeat)
  {
    var r := Some(row);
    AloneUnfolds(r, l, Lookup(1), o, now);
    AloneUnfolds(r, l, Fetch(row), o, now);
    AloneUnfolds(r, l, Observe(row, Working), o, now);
  }

  /** A push with a failed snapshot sees a question that Slack refuses, and writes the
      snapshot's state back. */
  lemma AloneReverts(row: Row, snapshot: Row, l: Ledger, o: Oracle, now: Time)
    requires row.state.Working? && !row.settled && snapshot.state.Failed?
    requires o == Calls(Saw(InputRequired), SendFailed, false)
    ensures Alone(Some(row), l, Fetch(snapshot), o, now)
         == Finished(Some(row.(state := Failed, settled := true, updatedAt := now)),
                     l.(entered := l.entered + 1, left := l.left + 1, unasked := l.unasked + 1,
                        reverted := l.reverted + 1),
                     Failure)
  {
    var r := Some(row);
    var asking, l1 := Some(row.(state := InputRequired, updatedAt := now)), l.(entered := l.entered + 1);
    AloneUnfolds(r, l, Fetch(snapshot), o, now);
    AloneUnfolds(r, l, Observe(snapshot, InputRequired), o, now);
    AloneUnfolds(asking, l1, PostQuestion(snapshot), o, now);
    AloneUnfolds(asking, l1, RevertQuestion(snapshot), o, now);
  }

  lemma AloneAsks(row: Row, l: Ledger, o: Oracle, now: Time)
    requires row.state.Working? && !row.settled && o == Calls(Saw(InputRequired), SendFailed, true)
    ensures Alone(Some(row), l, Lookup(1), o, now)
         == Finished(Some(row.(state := InputRequired, updatedAt := now)),
                     l.(entered := l.entered + 1, asked := l.asked + 1), Asked)
  {
    var r := Some(row);
    AloneUnfolds(r, l, Lookup(1), o, now);
    AloneUnfolds(r, l, Fetch(row), o, now);
    AloneUnfolds(r, l, Observe(row, InputRequired), o, now);
    var s := PhaseStep(r, l, Observe(row, InputRequired), o, now);
    QuestionIsPosted(s.row, s.ledger, row, o, now);
  }

  lemma AloneResumes(row: Row, l: Ledger, o: Oracle, now: Time)
    requires row.state.InputRequired? && !row.settled && IsFaultless(o) && o.send.Resumes?
    ensures var f := Alone(Some(row), l, SendReply(row), o, now);
            var left := l.(left := l.left + Bit(!o.send.state.InputRequired?));
            && f.row == Some(Written(row, ResumeLifecycle(o.send.state, o.send.deadlineAt), now))
            && f.ledger == left.(finished := l.finished + Bit(IsTerminal(o.send.state)))
  {
    var r := Some(row);
    var p := CommitResume(row, o.send.state, o.send.deadlineAt);
    AloneUnfolds(r, l, SendReply(row), o, now);
    AloneUnfolds(r, l, p, o, now);
    var s := PhaseStep(r, l, p, o, now);
    AloneUnfolds(s.row, s.ledger, s.phase, o, now);
  }

  /* ---- a failure nobody retries ---- */

  /** A push is about to fetch the row it was sent for. */
  lemma {:induction false} PushLooksUp(actions: seq<Action>, w: World, row: Row, l: Ledger, actor: ActorId)
    returns (actions': seq<Action>, w': World)
    requires Stands(actions, w, row, l, w.actors) && actor !in w.actors
    ensures Stands(actions', w', row, l, w.actors[actor := Actor(TASK, Fetch(row), false)]) && w'.now == w.now
  {
    PushIsArrival(w, actor);
    actions', w' := Arrives(actions, w, row, l, Push(actor, TASK), actor, Lookup(1));
    var o := Calls(Unreachable, SendFailed, true);
    actions', w' := Steps(actions', w', row, l, actor, o, Stepped(Some(row), l, Fetch(row), None));
  }

  /** The agent reports a failure by push. */
  lemma {:induction false} PushSeesFailure(actions: seq<Action>, w: World, row: Row, l: Ledger, o: Oracle)
    returns (actions': seq<Action>, w': World)
    requires Stands(actions, w, row, l, map[]) && row.state.Working? && !row.settled
    requires o == Calls(Saw(Failed), SendFailed, false)
    ensures Stands(actions', w', row.(state := Failed, settled := true, updatedAt := w.now), l,
                   map[0 := Actor(TASK, PostAnswer(row), false)])
    ensures w'.now == w.now && exists x :: x in w'.writes && x.cause == ByObservation(Failed)
  {
    actions', w' := PushLooksUp(actions, w, row, l, 0);
    actions', w' := Steps(actions', w', row, l, 0, o, Stepped(Some(row), l, Observe(row, Failed), None));
    var failed := row.(state := Failed, settled := true, updatedAt := w.now);
    actions', w' := Steps(actions', w', row, l, 0, o,
                          Stepped(Some(failed), l, PostAnswer(row), Some(ByObservation(Failed))));
  }

  /** Slack refuses the answer, and the settle is rolled back. */
  lemma {:induction false} FailureIsRefused(actions: seq<Action>, w: World, row: Row, l: Ledger)
    returns (actions': seq<Action>, w': World)
    requires Stands(actions, w, row, l, map[]) && row.state.Working? && !row.settled
    ensures Stands(actions', w', row.(state := Failed, updatedAt := w.now), l, map[])
    ensures w'.now == w.now && exists x :: x in w'.writes && x.cause == ByObservation(Failed)
  {
    var o := Calls(Saw(Failed), SendFailed, false);
    var w1;
    actions', w1 := PushSeesFailure(actions, w, row, l, o);
    AloneFails(row, l, o, w1.now);
    actions', w' := Finishes(actions', w1, row.(state := Failed, settled := true, updatedAt := w.now), l, 0, o);
    assert w1.actors - {0} == map[];
  }

  lemma {:induction false} RemoteFailureRefused() returns (actions: seq<Action>, w: World, row: Row)
    ensures row == NewTask(Failed) && Stands(actions, w, row, Blank().(inserted := 1), map[]) && w.now == 0
    ensures exists x :: x in w.writes && x.cause == ByObservation(Failed)
  {
    row := NewTask(Working);
    actions, w := Delegated(row);
    actions, w := FailureIsRefused(actions, w, row, Blank().(inserted := 1));
    row := NewTask(Failed);
  }

  /** The row stands failed and unsettled, and no attempt that sees the failure again will
      change that. */
  lemma {:induction false} RemoteFailureIsNeverRetried() returns (actions: seq<Action>)
    ensures var w := After(0, actions);
            && Calm(actions) && w.actors == map[] && w.sweeps == map[] && TASK in w.table
            && (exists x :: x in w.writes && x.cause == ByObservation(Failed))
            && w.table[TASK].state.Failed? && !w.table[TASK].settled && LedgerOf(w, TASK).delivered == 0
            && forall attempts: seq<Attempt> :: (forall a :: a in attempts ==> a.oracle.poll == Saw(Failed)) ==>
                 Attempted(w.table[TASK], LedgerOf(w, TASK), attempts) == (w.table[TASK], LedgerOf(w, TASK))
  {
    var w, row;
    actions, w, row := RemoteFailureRefused();
    forall attempts: seq<Attempt> | forall a :: a in attempts ==> a.oracle.poll == Saw(Failed)
      ensures Attempted(row, LedgerOf(w, TASK), attempts) == (row, LedgerOf(w, TASK))
    {
      RefusedFailureIsNeverRetried(row, LedgerOf(w, TASK), attempts);
    }
  }

  /* ---- an answer lost to undoing a question ---- */

  /** One push takes the failed row as its snapshot; another sees the agent at work again. */
  lemma {:induction false} SnapshotThenHeartbeat(actions: seq<Action>, w: World, row: Row, l: Ledger)
    returns (actions': seq<Action>, w': World)
    requires Stands(actions, w, row, l, map[]) && row.state.Failed? && !row.settled
    ensures Stands(actions', w', row.(state := Working, updatedAt := w.now), l,
                   map[1 := Actor(TASK, Fetch(row), false)])
    ensures w'.now == w.now
  {
    var o := Calls(Saw(Working), SendFailed, true);
    actions', w' := PushLooksUp(actions, w, row, l, 1);
    PushIsArrival(w', 2);
    AloneRevives(row, l, o, w'.now);
    actions', w' := OneActor(actions', w', row, l, Push(2, TASK), 2, Lookup(1), o);
  }

  /** A failure whose post Slack refuses, a heartbeat that revives the row, and a question
      whose post Slack refuses: the row ends settled, and no answer was posted, is owed or
      will be. */
  lemma {:induction false} AnswerCanBeLostToARevert() returns (actions: seq<Action>)
    ensures var w := After(0, actions);
            && Calm(actions) && w.actors == map[] && w.sweeps == map[]
            && TASK in w.table && w.table[TASK].settled
            && LedgerOf(w, TASK).inserted == 1 && LedgerOf(w, TASK).delivered == 0 && LedgerOf(w, TASK).reverted == 1
  {
    var w, w1, failed;
    var l, o := Blank().(inserted := 1), Calls(Saw(InputRequired), SendFailed, false);
    actions, w, failed := RemoteFailureRefused();
    actions, w1 := SnapshotThenHeartbeat(actions, w, failed, l);
    AloneReverts(NewTask(Working), NewTask(Failed), l, o, w1.now);
    actions, w := Finishes(actions, w1, NewTask(Working), l, 1, o);
    assert w1.actors - {1} == map[];
  }

  /* ---- an answer lost to a reply ---- */

  lemma {:induction false} Asks(actions: seq<Action>, w: World, row: Row, l: Ledger)
    returns (actions': seq<Action>, w': World)
    requires Stands(actions, w, row, l, map[]) && row.state.Working? && !row.settled && Smooth(actions)
    ensures Stands(actions', w', row.(state := InputRequired, updatedAt := w.now),
                   l.(entered := l.entered + 1, asked := l.asked + 1), map[])
    ensures Smooth(actions') && w'.now == w.now
  {
    var o := Calls(Saw(InputRequired), SendFailed, true);
    AloneAsks(row, l, o, w.now);
    PushIsArrival(w, 0);
    actions', w' := OneActor(actions, w, row, l, Push(0, TASK), 0, Lookup(1), o);
  }

  /** A task that has asked its question and waits for the user. */
  lemma {:induction false} QuestionAsked() returns (actions: seq<Action>, w: World)
    ensures Stands(actions, w, NewTask(InputRequired), Blank().(inserted := 1, entered := 1, asked := 1), map[])
    ensures Smooth(actions) && w.now == 0
  {
    var row := NewTask(Working);
    actions, w := Delegated(row);
    actions, w := Asks(actions, w, row, Blank().(inserted := 1));
  }

  lemma {:induction false} Answers(actions: seq<Action>, w: World, row: Row, l: Ledger, o: Oracle)
    returns (actions': seq<Action>, w': World)
    requires Stands(actions, w, row, l, map[]) && row.state.InputRequired? && !row.settled && Smooth(actions)
    requires IsFaultless(o) && o.send.Resumes?
    ensures Stands(actions', w', Written(row, ResumeLifecycle(o.send.state, o.send.deadlineAt), w.now),
                   l.(left := l.left + Bit(!o.send.state.InputRequired?),
                      finished := l.finished + Bit(IsTerminal(o.send.state))), map[])
    ensures Smooth(actions')
  {
    AloneResumes(row, l, o, w.now);
    ReplyIsArrival(w, row, 0);
    actions', w' := OneActor(actions, w, row, l, Reply(0, TASK), 0, SendReply(row), o);
  }

  /** The user replies, and the agent answers with the task in state `state`. */
  lemma {:induction false} ReplyAnswered(state: TaskState) returns (actions: seq<Action>, w: World, row: Row)
    ensures Stands(actions, w, row, Blank().(inserted := 1, entered := 1, asked := 1,
                                             left := Bit(!state.InputRequired?),
                                             finished := Bit(IsTerminal(state))), map[])
    ensures row.state == state && row.settled == IsTerminal(state) && row.deadlineAt == 1000 && Smooth(actions)
  {
    var asking := NewTask(InputRequired);
    actions, w := QuestionAsked();
    row := Written(asking, ResumeLifecycle(state, 1000), w.now);
    actions, w := Answers(actions, w, asking, Blank().(inserted := 1, entered := 1, asked := 1),
                          Calls(Unreachable, Resumes(state, 1000), true));
  }

  /** The agent answers the user's reply with the finished task.  Every post was taken, and
      yet the row ends settled and its answer is posted by nobody. */
  lemma {:induction false} AnswerCanBeLostToAReply() returns (actions: seq<Action>)
    ensures var w := After(0, actions);
            && (forall a :: a in actions ==> IsCalm(a) && !RecordsTerminal(a)) && AnswersAreTaken(0, actions)
            && w.actors == map[] && w.sweeps == map[]
            && TASK in w.table && w.table[TASK].settled && w.table[TASK].state.Completed?
            && LedgerOf(w, TASK).inserted == 1 && LedgerOf(w, TASK).delivered == 0 && LedgerOf(w, TASK).finished == 1
  {
    var w, row;
    actions, w, row := ReplyAnswered(Completed);
    SmoothRunsTakeAnswers(0, actions);
  }

  /* ---- questions nobody asks ---- */

  /** The agent answers the user's reply with another question: the row stands at
      input-required, and only the first question was ever posted. */
  lemma {:induction false} AReplysQuestionIsNotAsked() returns (actions: seq<Action>)
    ensures var (w, l) := (After(0, actions), LedgerOf(After(0, actions), TASK));
            && Smooth(actions) && w.actors == map[] && w.sweeps == map[]
            && IsOpen(RowOf(w.table, TASK)) && IsAsking(RowOf(w.table, TASK)) && w.table[TASK].deadlineAt == 1000
            && l.entered == l.asked == 1 && l.left == 0
  {
    var w, row;
    actions, w, row := ReplyAnswered(InputRequired);
  }

  /** A task recorded as waiting for its user stands there, and its question is never posted. */
  lemma {:induction false} ABornQuestionIsNotAsked() returns (actions: seq<Action>)
    ensures var (w, l) := (After(0, actions), LedgerOf(After(0, actions), TASK));
            && Smooth(actions) && w.actors == map[] && w.sweeps == map[]
            && IsOpen(RowOf(w.table, TASK)) && IsAsking(RowOf(w.table, TASK)) && l.asked == 0
  {
    var w;
    actions, w := Delegated(NewTask(InputRequired));
  }
}
