/**
  The services as they are written: methods that update the tracker and post to Slack in
  sequence.  Each is proved to do exactly what the corresponding actor of `Settlement`
  does when it runs alone, so the phases of the interleaving model are the code's awaits.
 */
module SettlementServices {
  import opened Shared
  import opened A2aTaskTracker
  import opened Settlement
  import opened SettlementAlone

  /** The posts Slack accepted, by task. */
  class SlackThread {
    var answers: seq<TaskId>
    var questions: seq<TaskId>

    constructor ()
      ensures answers == [] && questions == []
    {
      answers, questions := [], [];
    }

    method PostAnswer(id: TaskId, accepted: bool) returns (posted: bool)
      modifies this`answers
      ensures posted == accepted
      ensures answers == if accepted then old(answers) + [id] else old(answers)
    {
      if accepted {
        answers := answers + [id];
      }
      posted := accepted;
    }

    method PostQuestion(id: TaskId, accepted: bool) returns (posted: bool)
      modifies this`questions
      ensures posted == accepted
      ensures questions == if accepted then old(questions) + [id] else old(questions)
    {
      if accepted {
        questions := questions + [id];
      }
      posted := accepted;
    }
  }

  /** Everything one visit leaves behind: the table, the outcome, the accepted posts. */
  datatype Effect = Effect(rows: Table, outcome: Outcome, answers: seq<TaskId>, questions: seq<TaskId>)

  function Posts(n: nat, id: TaskId): seq<TaskId> {
    seq(n, _ => id)
  }

  /** The effect of an actor that starts in phase `p` and runs alone. */
  function EffectOf(rows: Table, answers: seq<TaskId>, questions: seq<TaskId>,
                    id: TaskId, p: Phase, o: Oracle, now: Time): Effect
  {
    var f := Alone(RowOf(rows, id), Blank(), p, o, now);
    Effect(WithRow(rows, id, f.row), f.outcome,
           answers + Posts(f.ledger.delivered, id), questions + Posts(f.ledger.asked, id))
  }

  lemma RowsAgree(t: Table, u: Table)
    requires forall id :: RowOf(t, id) == RowOf(u, id)
    ensures t == u
  {
    forall id ensures id in t <==> id in u {
      assert RowOf(t, id) == RowOf(u, id);
    }
    forall id | id in t ensures t[id] == u[id] {
      assert RowOf(t, id) == RowOf(u, id);
    }
  }

  lemma PostsAppend(m: nat, n: nat, id: TaskId)
    ensures Posts(m + n, id) == Posts(m, id) + Posts(n, id)
  {
  }

  lemma WithRowTwice(t: Table, id: TaskId, r: Option<Row>, q: Option<Row>)
    ensures WithRow(WithRow(t, id, r), id, q) == WithRow(t, id, q)
  {
  }

  /** One step, then the rest: how a method's body is matched against its actor. */
  lemma EffectUnfolds(rows: Table, answers: seq<TaskId>, questions: seq<TaskId>,
                      id: TaskId, p: Phase, o: Oracle, now: Time)
    requires !p.Done?
    ensures var s := PhaseStep(RowOf(rows, id), Blank(), p, o, now);
            var a, q := Bit(p.PostAnswer? && o.postOk), Bit(p.PostQuestion? && o.postOk);
            EffectOf(rows, answers, questions, id, p, o, now)
            == EffectOf(WithRow(rows, id, s.row), answers + Posts(a, id), questions + Posts(q, id), id, s.phase, o, now)
  {
    var s := PhaseStep(RowOf(rows, id), Blank(), p, o, now);
    var a, q := Bit(p.PostAnswer? && o.postOk), Bit(p.PostQuestion? && o.postOk);
    AloneUnfolds(RowOf(rows, id), Blank(), p, o, now);
    StepIgnoresLedger(RowOf(rows, id), Blank(), p, o, now);
    LedgerIsAdditive(s.row, s.ledger, s.phase, o, now);
    var f := Alone(s.row, Blank(), s.phase, o, now);
    WithRowTwice(rows, id, s.row, f.row);
    PostsAppend(a, f.ledger.delivered, id);
    PostsAppend(q, f.ledger.asked, id);
  }

  lemma EffectOfDone(rows: Table, answers: seq<TaskId>, questions: seq<TaskId>,
                     id: TaskId, outcome: Outcome, o: Oracle, now: Time)
    ensures EffectOf(rows, answers, questions, id, Done(outcome), o, now) == Effect(rows, outcome, answers, questions)
  {
  }

  /** What an actor does never depends on the ledger, and posts only add to it. */
  lemma {:induction false} LedgerIsAdditive(r: Option<Row>, l: Ledger, p: Phase, o: Oracle, now: Time)
    ensures var f, g := Alone(r, l, p, o, now), Alone(r, Blank(), p, o, now);
            && f.row == g.row && f.outcome == g.outcome
            && f.ledger.delivered == l.delivered + g.ledger.delivered
            && f.ledger.asked == l.asked + g.ledger.asked
    decreases AwaitsLeft(p)
  {
    if !p.Done? {
      var s, t := PhaseStep(r, l, p, o, now), PhaseStep(r, Blank(), p, o, now);
      EveryStepMakesProgress(r, l, p, o, now);
      StepIgnoresLedger(r, l, p, o, now);
      LedgerIsAdditive(s.row, s.ledger, s.phase, o, now);
      LedgerIsAdditive(s.row, t.ledger, s.phase, o, now);
    }
  }

  lemma StepIgnoresLedger(r: Option<Row>, l: Ledger, p: Phase, o: Oracle, now: Time)
    ensures var s, t := PhaseStep(r, l, p, o, now), PhaseStep(r, Blank(), p, o, now);
            && s.row == t.row && s.phase == t.phase
            && s.ledger.delivered == l.delivered + Bit(p.PostAnswer? && o.postOk)
            && s.ledger.asked == l.asked + Bit(p.PostQuestion? && o.postOk)
            && t.ledger.delivered == Bit(p.PostAnswer? && o.postOk)
            && t.ledger.asked == Bit(p.PostQuestion? && o.postOk)
  {
  }

  class ResponseFinalizer {
    const tracker: TaskTracker
    const slack: SlackThread

    constructor (tracker: TaskTracker, slack: SlackThread)
      ensures this.tracker == tracker && this.slack == slack
    {
      this.tracker, this.slack := tracker, slack;
    }

    /** Everything after the transition that made this call the winner: post, and either
        mark the event responded or roll the settle back. */
    method PostOrRollBack(id: TaskId, row: Row, o: Oracle, now: Time) returns (outcome: Outcome)
      modifies tracker, slack
      ensures Effect(tracker.rows, outcome, slack.answers, slack.questions)
           == EffectOf(old(tracker.rows), old(slack.answers), old(slack.questions), id, PostAnswer(row), o, now)
    {
      var posted := slack.PostAnswer(id, o.postOk);
      if posted {
        outcome := Settled;
      } else {
        var undone := tracker.Unsettle(id, now, o.undo);
        outcome := Failure;
      }
      PostOrRollBackEffect(old(tracker.rows), old(slack.answers), old(slack.questions), id, row, o, now);
    }

    method SettleTerminal(id: TaskId, row: Row, state: TaskState, o: Oracle, now: Time) returns (outcome: Outcome)
      requires IsTerminal(state)
      modifies tracker, slack
      ensures Effect(tracker.rows, outcome, slack.answers, slack.questions)
           == EffectOf(old(tracker.rows), old(slack.answers), old(slack.questions), id, Observe(row, state), o, now)
    {
      EffectUnfolds(tracker.rows, slack.answers, slack.questions, id, Observe(row, state), o, now);
      var reply := tracker.Transition(id, To(state), now, o.commit);
      if reply.DbError? {
        outcome := Failure;
        EffectOfDone(tracker.rows, slack.answers, slack.questions, id, outcome, o, now);
      } else if reply.NotUpdated? {
        outcome := Duplicate;
        EffectOfDone(tracker.rows, slack.answers, slack.questions, id, outcome, o, now);
      } else {
        outcome := PostOrRollBack(id, row, o, now);
      }
    }

    method SettleInputRequired(id: TaskId, row: Row, o: Oracle, now: Time) returns (outcome: Outcome)
      modifies tracker, slack
      ensures Effect(tracker.rows, outcome, slack.answers, slack.questions)
           == EffectOf(old(tracker.rows), old(slack.answers), old(slack.questions), id, Observe(row, InputRequired),
                       o, now)
    {
      EffectUnfolds(tracker.rows, slack.answers, slack.questions, id, Observe(row, InputRequired), o, now);
      var reply := tracker.Transition(id, To(InputRequired), now, o.commit);
      if reply.DbError? {
        outcome := Failure;
        EffectOfDone(tracker.rows, slack.answers, slack.questions, id, outcome, o, now);
      } else if reply.NotUpdated? {
        outcome := Duplicate;
        EffectOfDone(tracker.rows, slack.answers, slack.questions, id, outcome, o, now);
      } else {
        AskEffect(tracker.rows, slack.answers, slack.questions, id, row, o, now);
        var posted := slack.PostQuestion(id, o.postOk);
        if posted {
          outcome := Asked;
        } else {
          var reverted := tracker.Transition(id, RevertLifecycle(row), now, o.undo);
          outcome := Failure;
        }
      }
    }

    method DispatchTask(id: TaskId, row: Row, observed: Option<TaskState>, o: Oracle, now: Time)
      returns (outcome: Outcome)
      modifies tracker, slack
      ensures Effect(tracker.rows, outcome, slack.answers, slack.questions)
           == EffectOf(old(tracker.rows), old(slack.answers), old(slack.questions), id,
                       if observed.Some? then Observe(row, observed.value) else Done(Failure), o, now)
    {
      if observed.None? {
        outcome := Failure;
        EffectOfDone(tracker.rows, slack.answers, slack.questions, id, outcome, o, now);
      } else if observed.value.InputRequired? {
        outcome := SettleInputRequired(id, row, o, now);
      } else if IsTerminal(observed.value) {
        outcome := SettleTerminal(id, row, observed.value, o, now);
      } else {
        EffectUnfolds(tracker.rows, slack.answers, slack.questions, id, Observe(row, observed.value), o, now);
        var reply := tracker.Transition(id, To(observed.value), now, o.commit);
        outcome := Heartbeat;
        EffectOfDone(tracker.rows, slack.answers, slack.questions, id, outcome, o, now);
      }
    }

    method FinalizeRow(id: TaskId, row: Row, o: Oracle, now: Time) returns (outcome: Outcome)
      modifies tracker, slack
      ensures Effect(tracker.rows, outcome, slack.answers, slack.questions)
           == EffectOf(old(tracker.rows), old(slack.answers), old(slack.questions), id, Fetch(row), o, now)
    {
      EffectUnfolds(tracker.rows, slack.answers, slack.questions, id, Fetch(row), o, now);
      RowsAgree(WithRow(tracker.rows, id, RowOf(tracker.rows, id)), tracker.rows);
      if o.poll.NoAgent? || o.poll.Unreachable? || o.poll.NotFound? {
        outcome := Failure;
        EffectOfDone(tracker.rows, slack.answers, slack.questions, id, outcome, o, now);
      } else {
        outcome := DispatchTask(id, row, if o.poll.Saw? then Some(o.poll.state) else None, o, now);
      }
    }

    /** A task not yet on record gets a second look after a pause, in which its delegation may
        record it. */
    method Finalize(id: TaskId, again: SecondLook, o: Oracle, now: Time) returns (outcome: Outcome)
      modifies tracker, slack
      ensures var e := Effect(tracker.rows, outcome, slack.answers, slack.questions);
              var rows, answers, questions := old(tracker.rows), old(slack.answers), old(slack.questions);
              if !o.lookup.NoFault? then e == Effect(rows, Failure, answers, questions)
              else if id in rows then e == EffectOf(rows, answers, questions, id, Fetch(rows[id]), o, now)
              else if again.late.None? then
                e == Effect(rows, if again.fault.NoFault? then UnknownTask else Failure, answers, questions)
              else
                var late := again.late.value.(settled := false, createdAt := now, updatedAt := now);
                if again.fault.NoFault?
                then e == EffectOf(rows[id := late], answers, questions, id, Fetch(late), o, now)
                else e == Effect(rows[id := late], Failure, answers, questions)
      ensures id in old(tracker.rows) || again == SecondLook(None, o.lookup) ==>
              Effect(tracker.rows, outcome, slack.answers, slack.questions)
              == EffectOf(old(tracker.rows), old(slack.answers), old(slack.questions), id, Lookup(1), o, now)
    {
      LookupEffect(tracker.rows, slack.answers, slack.questions, id, o, now);
      if !o.lookup.NoFault? {
        return Failure;
      }
      var found := tracker.FindByTaskId(id);
      if found.None? {
        Pause(id, again.late, now);
        if !again.fault.NoFault? {
          return Failure;
        }
        found := tracker.FindByTaskId(id);
      }
      if found.None? {
        return UnknownTask;
      }
      outcome := FinalizeRow(id, found.value, o, now);
    }

    /** While the finalizer sleeps, the delegation may record the task. */
    method Pause(id: TaskId, late: Option<Row>, now: Time)
      requires id !in tracker.rows
      modifies tracker
      ensures tracker.rows == if late.None? then old(tracker.rows)
                              else old(tracker.rows)[id := late.value.(settled := false, createdAt := now,
                                                                       updatedAt := now)]
    {
      if late.Some? {
        tracker.RecordDelegated(id, late.value, now);
      }
    }
  }

  /** What a second lookup meets: the row recorded since the first, and its own fault. */
  datatype SecondLook = SecondLook(late: Option<Row>, fault: Fault)

  lemma PostOrRollBackEffect(rows: Table, answers: seq<TaskId>, questions: seq<TaskId>,
                             id: TaskId, row: Row, o: Oracle, now: Time)
    ensures EffectOf(rows, answers, questions, id, PostAnswer(row), o, now)
         == if o.postOk then Effect(rows, Settled, answers + [id], questions)
            else Effect(WithRow(rows, id, UnsettleRow(RowOf(rows, id), now, o.undo)), Failure, answers, questions)
  {
    var r := RowOf(rows, id);
    var next := if o.postOk then MarkResponded(row) else RollBack(row);
    var posted := answers + Posts(Bit(o.postOk), id);
    RowsAgree(WithRow(rows, id, r), rows);
    EffectUnfolds(rows, answers, questions, id, PostAnswer(row), o, now);
    EffectUnfolds(rows, posted, questions, id, next, o, now);
    EffectOfDone(if o.postOk then rows else WithRow(rows, id, UnsettleRow(r, now, o.undo)), posted, questions, id,
                 if o.postOk then Settled else Failure, o, now);
  }

  lemma AskEffect(rows: Table, answers: seq<TaskId>, questions: seq<TaskId>,
                  id: TaskId, row: Row, o: Oracle, now: Time)
    ensures EffectOf(rows, answers, questions, id, PostQuestion(row), o, now)
         == if o.postOk then Effect(rows, Asked, answers, questions + [id])
            else Effect(WithRow(rows, id, TransitionRow(RowOf(rows, id), RevertLifecycle(row), now, o.undo)),
                        Failure, answers, questions)
  {
    var r := RowOf(rows, id);
    RowsAgree(WithRow(rows, id, r), rows);
    EffectUnfolds(rows, answers, questions, id, PostQuestion(row), o, now);
    if o.postOk {
      EffectOfDone(rows, answers, questions + Posts(1, id), id, Asked, o, now);
    } else {
      EffectUnfolds(rows, answers, questions, id, RevertQuestion(row), o, now);
      EffectOfDone(WithRow(rows, id, TransitionRow(r, RevertLifecycle(row), now, o.undo)), answers, questions, id,
                   Failure, o, now);
    }
  }

  lemma LookupEffect(rows: Table, answers: seq<TaskId>, questions: seq<TaskId>, id: TaskId, o: Oracle, now: Time)
    ensures EffectOf(rows, answers, questions, id, Lookup(1), o, now)
         == if !o.lookup.NoFault? then Effect(rows, Failure, answers, questions)
            else if id in rows then EffectOf(rows, answers, questions, id, Fetch(rows[id]), o, now)
            else Effect(rows, UnknownTask, answers, questions)
  {
    RowsAgree(WithRow(rows, id, RowOf(rows, id)), rows);
    EffectUnfolds(rows, answers, questions, id, Lookup(1), o, now);
    EffectUnfolds(rows, answers, questions, id, Lookup(0), o, now);
    EffectOfDone(rows, answers, questions, id, Failure, o, now);
    EffectOfDone(rows, answers, questions, id, UnknownTask, o, now);
  }
}
