/**
  What each attempt at a task comes to: the row it leaves, what it posts and what it
  reports, case by case for every state of the row, every answer of the agent and of Slack,
  and every fault, said in terms of the row alone.
 */
module SettlementEffects {
  import opened Shared
  import opened A2aTaskTracker
  import opened Settlement
  import opened SettlementAlone

  predicate PostsNothing(f: Finished, l: Ledger) {
    f.ledger.delivered == l.delivered && f.ledger.asked == l.asked
  }

  /** The row ends in state `s`, settled with one answer if Slack takes it; otherwise it is
      open again, unless the undo never ran. */
  predicate EndsIn(f: Finished, row: Row, l: Ledger, s: TaskState, o: Oracle, now: Time) {
    if o.postOk then
      && f.row == Some(row.(state := s, settled := true, updatedAt := now)) && f.outcome.Settled?
      && f.ledger.delivered == l.delivered + 1 && f.ledger.asked == l.asked
    else
      && f.row == Some(row.(state := s, settled := o.undo.NotExecuted?, updatedAt := now)) && f.outcome.Failure?
      && PostsNothing(f, l)
  }

  /** An actor that owes an answer for a row that stands settled. */
  lemma OwedAnswer(row: Row, snapshot: Row, l: Ledger, o: Oracle, now: Time)
    requires row.settled
    ensures var f := Alone(Some(row), l, PostAnswer(snapshot), o, now);
            if o.postOk then
              f == Finished(Some(row), l.(delivered := l.delivered + 1, counted := l.counted + 1), Settled)
            else
              && f.row == Some(if o.undo.NotExecuted? then row else row.(settled := false, updatedAt := now))
              && f.outcome.Failure? && PostsNothing(f, l)
  {
    if o.postOk {
      AnswerIsPosted(Some(row), l, snapshot, o, now);
    } else {
      AloneUnfolds(Some(row), l, PostAnswer(snapshot), o, now);
      AloneUnfolds(Some(row), l, RollBack(snapshot), o, now);
    }
  }

  /** An actor that owes a question for a row that waits.  A refusal writes the state of its
      snapshot back, which settles the row if that state is a terminal one. */
  lemma OwedQuestion(row: Row, snapshot: Row, l: Ledger, o: Oracle, now: Time)
    requires !row.settled && row.state == InputRequired
    ensures var f := Alone(Some(row), l, PostQuestion(snapshot), o, now);
            if o.postOk then f == Finished(Some(row), l.(asked := l.asked + 1), Asked)
            else
              && f.row == Some(if o.undo.NotExecuted? then row else
                   row.(state := snapshot.state, settled := snapshot.state in {Completed, Failed, Canceled, Rejected},
                        updatedAt := now))
              && f.outcome.Failure? && PostsNothing(f, l)
  {
    if o.postOk {
      QuestionIsPosted(Some(row), l, snapshot, o, now);
    } else {
      AloneUnfolds(Some(row), l, PostQuestion(snapshot), o, now);
      AloneUnfolds(Some(row), l, RevertQuestion(snapshot), o, now);
    }
  }

  /** An observation of an open row, by whatever snapshot: a terminal state settles it, but
      `failed` only while it is at work; a question is asked only while it is at work; a
      heartbeat is written whatever the row's state. */
  lemma ObservationDoesExactly(row: Row, snapshot: Row, l: Ledger, s: TaskState, o: Oracle, now: Time)
    requires !row.settled && o.commit.NoFault?
    ensures var f := Alone(Some(row), l, Observe(snapshot, s), o, now);
            var atWork := row.state in {Submitted, Working};
            if s in {Failed, InputRequired} && !atWork then f == Finished(Some(row), l, Duplicate)
            else if s in {Completed, Failed, Canceled, Rejected} then EndsIn(f, row, l, s, o, now)
            else if s in {Submitted, Working} then
              f.row == Some(row.(state := s, updatedAt := now)) && f.outcome.Heartbeat? && PostsNothing(f, l)
            else if o.postOk then
              && f.row == Some(row.(state := InputRequired, updatedAt := now)) && f.outcome.Asked?
              && f.ledger.asked == l.asked + 1 && f.ledger.delivered == l.delivered
            else
              && f.row == Some((if o.undo.NotExecuted? then row.(state := InputRequired) else
                   row.(state := snapshot.state, settled := snapshot.state in {Completed, Failed, Canceled, Rejected}))
                     .(updatedAt := now))
              && f.outcome.Failure? && PostsNothing(f, l)
  {
    var step := PhaseStep(Some(row), l, Observe(snapshot, s), o, now);
    AloneUnfolds(Some(row), l, Observe(snapshot, s), o, now);
    match step.phase {
      case PostAnswer(_) => OwedAnswer(step.row.value, snapshot, step.ledger, o, now);
      case PostQuestion(_) => OwedQuestion(step.row.value, snapshot, step.ledger, o, now);
      case _ => AloneUnfolds(step.row, step.ledger, step.phase, o, now);
    }
  }

  /** When the commit fails, nothing is posted and an error reported (a heartbeat reports
      none); the row is as it was, or as if written if only the reply was lost. */
  lemma ObservationUnderFault(r: Option<Row>, snapshot: Row, l: Ledger, s: TaskState, o: Oracle, now: Time)
    requires !o.commit.NoFault?
    ensures var f := Alone(r, l, Observe(snapshot, s), o, now);
            var writes := && o.commit.ReplyLost? && r.Some? && !r.value.settled
                          && (s in {Failed, InputRequired} ==> r.value.state in {Submitted, Working});
            && f.row == (if !writes then r else
                 Some(r.value.(state := s, settled := s in {Completed, Failed, Canceled, Rejected}, updatedAt := now)))
            && f.outcome == (if s in {Submitted, Working} then Heartbeat else Failure) && PostsNothing(f, l)
  {
    AloneUnfolds(r, l, Observe(snapshot, s), o, now);
    var step := PhaseStep(r, l, Observe(snapshot, s), o, now);
    AloneUnfolds(step.row, step.ledger, step.phase, o, now);
  }

  /** An observation about a row that is settled or gone changes nothing and posts nothing. */
  lemma LateObservationIsIdle(r: Option<Row>, snapshot: Row, l: Ledger, s: TaskState, o: Oracle, now: Time)
    requires r.None? || r.value.settled
    requires o.commit.NoFault?
    ensures Alone(r, l, Observe(snapshot, s), o, now)
         == Finished(r, l, if s in {Submitted, Working} then Heartbeat else Duplicate)
  {
    AloneUnfolds(r, l, Observe(snapshot, s), o, now);
    AloneUnfolds(r, l, PhaseStep(r, l, Observe(snapshot, s), o, now).phase, o, now);
  }

  /** A task its agent does not know: a row seen at work must still be at work, and any other
      must still be in the state seen. */
  lemma GoneTaskFailsExactly(row: Row, snapshot: Row, l: Ledger, o: Oracle, now: Time)
    requires !row.settled && o.commit.NoFault? && o.poll == NotFound
    ensures var f := Alone(Some(row), l, PollRemote(snapshot), o, now);
            var stands := if snapshot.state in {Submitted, Working} then row.state in {Submitted, Working}
                          else row.state == snapshot.state;
            if stands then EndsIn(f, row, l, Failed, o, now) else f == Finished(Some(row), l, Skipped)
  {
    AloneUnfolds(Some(row), l, PollRemote(snapshot), o, now);
    AloneUnfolds(Some(row), l, SettleGone(snapshot), o, now);
    var step := PhaseStep(Some(row), l, SettleGone(snapshot), o, now);
    if step.phase.PostAnswer? {
      OwedAnswer(step.row.value, snapshot, step.ledger, o, now);
    } else {
      AloneUnfolds(step.row, step.ledger, step.phase, o, now);
    }
  }

  /** A snapshot that is overdue at work fails its row, provided that the row is still at work
      and its deadline, as it is now, has passed; otherwise the agent is polled.  If the
      failure was written but its reply lost, the agent is polled as well. */
  lemma DeadlineFailsExactly(row: Row, snapshot: Row, l: Ledger, o: Oracle, now: Time)
    requires !row.settled
    ensures var f := Alone(Some(row), l, Overdue(snapshot), o, now);
            var due := snapshot.state in {Submitted, Working} && snapshot.deadlineAt <= now;
            var fails := due && row.state in {Submitted, Working} && row.deadlineAt <= now;
            if !fails || o.expire.NotExecuted? then f == Alone(Some(row), l, PollRemote(snapshot), o, now)
            else if o.expire.NoFault? then EndsIn(f, row, l, Failed, o, now)
            else f == Alone(Some(row.(state := Failed, settled := true, updatedAt := now)), l.(lost := l.lost + 1),
                            PollRemote(snapshot), o, now)
  {
    AloneUnfolds(Some(row), l, Overdue(snapshot), o, now);
    var p := PhaseStep(Some(row), l, Overdue(snapshot), o, now).phase;
    if p.Expire? {
      AloneUnfolds(Some(row), l, p, o, now);
      var step := PhaseStep(Some(row), l, p, o, now);
      if step.phase.PostAnswer? {
        OwedAnswer(step.row.value, snapshot, step.ledger, o, now);
      }
    }
  }

  /** What the poll of a visit leads to, apart from a task that is gone. */
  lemma PollDoesExactly(r: Option<Row>, snapshot: Row, l: Ledger, o: Oracle, now: Time)
    requires !o.poll.NotFound?
    ensures var f := Alone(r, l, PollRemote(snapshot), o, now);
            if o.poll.Saw? then f == Alone(r, l, Observe(snapshot, o.poll.state), o, now)
            else f == Finished(r, l, if o.poll.Malformed? then Failure else Skipped)
  {
    AloneUnfolds(r, l, PollRemote(snapshot), o, now);
    AloneUnfolds(r, l, PhaseStep(r, l, PollRemote(snapshot), o, now).phase, o, now);
  }

  /** A push finds the row, asks its agent and acts on what that says. */
  lemma PushDoesExactly(r: Option<Row>, l: Ledger, o: Oracle, now: Time)
    ensures var f := Alone(r, l, Lookup(1), o, now);
            if !o.lookup.NoFault? then f == Finished(r, l, Failure)
            else if r.None? then f == Finished(r, l, UnknownTask)
            else if o.poll.Saw? then f == Alone(r, l, Observe(r.value, o.poll.state), o, now)
            else f == Finished(r, l, Failure)
  {
    AloneUnfolds(r, l, Lookup(1), o, now);
    if o.lookup.NoFault? && r.None? {
      AloneUnfolds(r, l, Lookup(0), o, now);
    } else if o.lookup.NoFault? {
      AloneUnfolds(r, l, Fetch(r.value), o, now);
    }
  }

  /** A push that comes before its task is recorded: it does nothing at first, and if the
      row is there at its second look, whatever the fetch and the rest then bring, it does
      what a push about a row on record does. */
  lemma RetryFindsALateRow(l: Ledger, o: Oracle, now: Time, row: Row, l': Ledger, o': Oracle, later: Time)
    requires o.lookup.NoFault? && o'.lookup.NoFault?
    ensures var s := PhaseStep(None, l, Lookup(1), o, now);
            && s.row == None && s.ledger == l && s.cause.None? && !s.phase.Done?
            && Alone(Some(row), l', s.phase, o', later) == Alone(Some(row), l', Lookup(1), o', later)
  {
    AloneUnfolds(Some(row), l', Lookup(1), o', later);
    AloneUnfolds(Some(row), l', Lookup(0), o', later);
  }

  /** A reply to an open question.  A send that fails changes nothing.  A task that cannot be
      resumed is failed and settled, without an answer of its own, since a new task takes its
      place.  Otherwise the state and the deadline are written that came back. */
  lemma ReplyDoesExactly(row: Row, snapshot: Row, l: Ledger, o: Oracle, now: Time)
    requires !row.settled && row.state == InputRequired
    ensures var f := Alone(Some(row), l, SendReply(snapshot), o, now);
            var over := o.send.Resumes? && o.send.state in {Completed, Failed, Canceled, Rejected};
            if o.send.SendFailed? then f == Finished(Some(row), l, NotResumed)
            else if o.commit.NotExecuted? then f == Finished(Some(row), l, Resumed)
            else if o.send.Unresumable? then
              f == Finished(Some(row.(state := Failed, settled := true, updatedAt := now)),
                            l.(left := l.left + 1, replaced := l.replaced + 1), Resumed)
            else
              f == Finished(Some(row.(state := o.send.state, settled := over, deadlineAt := o.send.deadlineAt,
                                      updatedAt := now)),
                            l.(left := l.left + Bit(!o.send.state.InputRequired?), finished := l.finished + Bit(over)),
                            Resumed)
  {
    AloneUnfolds(Some(row), l, SendReply(snapshot), o, now);
    var p := PhaseStep(Some(row), l, SendReply(snapshot), o, now).phase;
    AloneUnfolds(Some(row), l, p, o, now);
    if !p.Done? {
      var step := PhaseStep(Some(row), l, p, o, now);
      AloneUnfolds(step.row, step.ledger, step.phase, o, now);
    }
  }

  /** A reply to a question that is no longer open changes nothing, whatever the agent says. */
  lemma LateReplyIsIdle(r: Option<Row>, snapshot: Row, l: Ledger, o: Oracle, now: Time)
    requires r.Some? ==> r.value.settled || r.value.state != InputRequired
    ensures Alone(r, l, SendReply(snapshot), o, now)
         == Finished(r, l, if o.send.SendFailed? then NotResumed else Resumed)
  {
    AloneUnfolds(r, l, SendReply(snapshot), o, now);
    var p := PhaseStep(r, l, SendReply(snapshot), o, now).phase;
    AloneUnfolds(r, l, p, o, now);
    if !p.Done? {
      AloneUnfolds(r, l, Done(Resumed), o, now);
    }
  }

  /* ---- a refused question ---- */

  /** A question that Slack refuses is undone: a row at work is as it was but for the time of
      its update, so a later attempt that finds the agent still waiting asks it. */
  lemma RefusedQuestionIsAskedLater(row: Row, l: Ledger, first: Attempt, second: Attempt)
    requires !row.settled && row.state in {Submitted, Working}
    requires IsInTime(row, first) && IsInTime(row, second)
    requires first.oracle.poll == second.oracle.poll == Saw(InputRequired) && IsFaultless(second.oracle)
    requires first.oracle.lookup.NoFault? && first.oracle.commit.NoFault? && !first.oracle.undo.NotExecuted?
    requires !first.oracle.postOk
    ensures var f := Alone(Some(row), l, StartOf(row, first), first.oracle, first.now);
            && f.row == Some(row.(updatedAt := first.now)) && f.outcome.Failure? && PostsNothing(f, l)
            && var g := Alone(f.row, f.ledger, StartOf(f.row.value, second), second.oracle, second.now);
               && g.row == Some(row.(state := InputRequired, updatedAt := second.now)) && g.outcome.Asked?
               && g.ledger.asked == l.asked + 1 && g.ledger.delivered == l.delivered
  {
    QuestionAttempt(row, l, first);
    ObservationDoesExactly(row, row, l, InputRequired, first.oracle, first.now);
    var f := Alone(Some(row), l, StartOf(row, first), first.oracle, first.now);
    QuestionAttempt(f.row.value, f.ledger, second);
    ObservationDoesExactly(f.row.value, f.row.value, f.ledger, InputRequired, second.oracle, second.now);
  }

  /** Only a visit minds the deadline of a row at work. */
  predicate IsInTime(row: Row, a: Attempt) {
    a.byPush || row.state !in {Submitted, Working} || a.now < row.deadlineAt
  }

  /** An attempt at a row that is not overdue comes to the observation of what it sees. */
  lemma QuestionAttempt(row: Row, l: Ledger, a: Attempt)
    requires a.oracle.lookup.NoFault? && a.oracle.poll == Saw(InputRequired)
    requires IsInTime(row, a)
    ensures Alone(Some(row), l, StartOf(row, a), a.oracle, a.now)
         == Alone(Some(row), l, Observe(row, InputRequired), a.oracle, a.now)
  {
    if a.byPush {
      PushDoesExactly(Some(row), l, a.oracle, a.now);
    } else {
      AloneUnfolds(Some(row), l, Overdue(row), a.oracle, a.now);
      PollDoesExactly(Some(row), row, l, a.oracle, a.now);
    }
  }

  /** With a stale snapshot it is the snapshot's state that comes back.  A push that finds the
      agent still waiting then asks the question exactly if that was a state at work. */
  lemma StaleUndoIsAskedLaterExactlyWhen(row: Row, snapshot: Row, l: Ledger, o: Oracle, now: Time,
                                         o': Oracle, later: Time)
    requires !row.settled && row.state in {Submitted, Working}
    requires o.commit.NoFault? && !o.postOk && !o.undo.NotExecuted?
    requires IsFaultless(o') && o'.poll == Saw(InputRequired)
    ensures var f := Alone(Some(row), l, Observe(snapshot, InputRequired), o, now);
            var g := Alone(f.row, f.ledger, Lookup(1), o', later);
            && f.row.Some? && f.row.value.state == snapshot.state
            && (g.outcome.Asked? <==> snapshot.state in {Submitted, Working})
            && g.ledger.asked == l.asked + Bit(snapshot.state in {Submitted, Working})
  {
    ObservationDoesExactly(row, snapshot, l, InputRequired, o, now);
    var f := Alone(Some(row), l, Observe(snapshot, InputRequired), o, now);
    PushDoesExactly(f.row, f.ledger, o', later);
    if f.row.value.settled {
      LateObservationIsIdle(f.row, f.row.value, f.ledger, InputRequired, o', later);
    } else {
      ObservationDoesExactly(f.row.value, f.row.value, f.ledger, InputRequired, o', later);
    }
  }
}
