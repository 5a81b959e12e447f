/**
  One actor run from its first await to its last with nobody else moving: what the
  sequential code of the services computes, and exactly when it settles a task.
 */
module SettlementAlone {
  import opened Shared
  import opened A2aTaskTracker
  import opened Settlement

  datatype Finished = Finished(row: Option<Row>, ledger: Ledger, outcome: Outcome)

  function AwaitsLeft(p: Phase): nat {
    match p
    case Lookup(retries) => 8 + retries
    case Overdue(_) => 7
    case Expire(_, _) => 6
    case Fetch(_) => 5
    case PollRemote(_) => 5
    case SendReply(_) => 5
    case SettleGone(_) => 4
    case Observe(_, _) => 4
    case CommitResume(_, _, _) => 4
    case SettleUnresumable(_) => 4
    case PostAnswer(_) => 3
    case PostQuestion(_) => 3
    case RollBack(_) => 2
    case RevertQuestion(_) => 2
    case MarkResponded(_) => 2
    case Done(_) => 0
  }

  /** Every actor is done after at most `AwaitsLeft` steps, whoever else moves meanwhile. */
  lemma EveryStepMakesProgress(r: Option<Row>, l: Ledger, p: Phase, o: Oracle, now: Time)
    requires !p.Done?
    ensures AwaitsLeft(PhaseStep(r, l, p, o, now).phase) < AwaitsLeft(p)
  {
  }

  function Alone(r: Option<Row>, l: Ledger, p: Phase, o: Oracle, now: Time): (f: Finished)
    ensures r.Some? ==> f.row.Some?
    decreases AwaitsLeft(p)
  {
    if p.Done? then Finished(r, l, p.outcome)
    else
      EveryStepMakesProgress(r, l, p, o, now);
      var s := PhaseStep(r, l, p, o, now);
      Alone(s.row, s.ledger, s.phase, o, now)
  }

  lemma AloneUnfolds(r: Option<Row>, l: Ledger, p: Phase, o: Oracle, now: Time)
    ensures p.Done? ==> Alone(r, l, p, o, now) == Finished(r, l, p.outcome)
    ensures !p.Done? ==>
              var s := PhaseStep(r, l, p, o, now);
              Alone(r, l, p, o, now) == Alone(s.row, s.ledger, s.phase, o, now)
  {
  }

  predicate IsFaultless(o: Oracle) {
    o.lookup.NoFault? && o.expire.NoFault? && o.commit.NoFault? && o.undo.NoFault? && o.postOk
  }

  /** When a reconciler visit decides a row's outcome. */
  predicate Decides(row: Row, poll: Poll, now: Time) {
    || (IsActiveExecution(row.state) && row.deadlineAt <= now)
    || poll.NotFound?
    || (poll.Saw? && (poll.state.Completed? || poll.state.Canceled? || poll.state.Rejected?))
    || (poll.Saw? && poll.state.Failed? && IsActiveExecution(row.state))
  }

  /** With no fault and no concurrent step, a reconciler visit to an unsettled row settles
      it and delivers one answer if and only if `Decides`; otherwise the row stays open
      and nothing is delivered. */
  lemma VisitSettlesExactlyWhen(row: Row, l: Ledger, o: Oracle, now: Time)
    requires !row.settled && IsFaultless(o)
    ensures var f := Alone(Some(row), l, Overdue(row), o, now);
            && (f.outcome.Settled? <==> Decides(row, o.poll, now))
            && f.ledger.delivered == l.delivered + Bit(Decides(row, o.poll, now))
            && f.row.Some? && (f.row.value.settled <==> Decides(row, o.poll, now))
            && (Decides(row, o.poll, now) ==> IsTerminal(f.row.value.state))
  {
    var r := Some(row);
    if IsActiveExecution(row.state) && row.deadlineAt <= now {
      var e := PhaseStep(r, l, Expire(row, now), o, now);
      assert e.phase == PostAnswer(row);
      AnswerIsPosted(e.row, e.ledger, row, o, now);
    } else {
      PollSettlesExactlyWhen(row, l, o, now);
      assert Alone(r, l, Overdue(row), o, now) == Alone(r, l, PollRemote(row), o, now);
    }
  }

  lemma AnswerIsPosted(r: Option<Row>, l: Ledger, row: Row, o: Oracle, now: Time)
    requires o.postOk
    ensures Alone(r, l, PostAnswer(row), o, now)
         == Finished(r, l.(delivered := l.delivered + 1, counted := l.counted + 1), Settled)
  {
    var l1 := l.(delivered := l.delivered + 1);
    assert Alone(r, l1, MarkResponded(row), o, now) == Finished(r, l1.(counted := l.counted + 1), Settled);
  }

  lemma PollSettlesExactlyWhen(row: Row, l: Ledger, o: Oracle, now: Time)
    requires !row.settled && IsFaultless(o)
    requires !(IsActiveExecution(row.state) && row.deadlineAt <= now)
    ensures var f := Alone(Some(row), l, PollRemote(row), o, now);
            && (f.outcome.Settled? <==> Decides(row, o.poll, now))
            && f.ledger.delivered == l.delivered + Bit(Decides(row, o.poll, now))
            && f.row.Some? && (f.row.value.settled <==> Decides(row, o.poll, now))
            && (Decides(row, o.poll, now) ==> IsTerminal(f.row.value.state))
  {
    var r := Some(row);
    var p := PhaseStep(r, l, PollRemote(row), o, now).phase;
    AloneUnfolds(r, l, PollRemote(row), o, now);
    AloneUnfolds(r, l, p, o, now);
    if !p.Done? {
      var s := PhaseStep(r, l, p, o, now);
      AloneUnfolds(s.row, s.ledger, s.phase, o, now);
      match s.phase {
        case PostAnswer(_) => AnswerIsPosted(s.row, s.ledger, row, o, now);
        case PostQuestion(_) => QuestionIsPosted(s.row, s.ledger, row, o, now);
        case _ =>
      }
    }
  }

  lemma QuestionIsPosted(r: Option<Row>, l: Ledger, row: Row, o: Oracle, now: Time)
    requires o.postOk
    ensures Alone(r, l, PostQuestion(row), o, now) == Finished(r, l.(asked := l.asked + 1), Asked)
  {
  }

  /* ---- recovery ---- */

  /** The polls that leave a row out of active execution exactly as it is. */
  predicate LeavesStuck(poll: Poll) {
    match poll
    case Saw(s) => s.Failed? || s.InputRequired?
    case NotFound => false
    case _ => true
  }

  /** The deadline of an overdue row that a failed post left unsettled is only reached
      through a heartbeat.  Of two faultless visits, each with a poll of its own, the first
      delivers the answer if it decides; failing that, the second delivers it whatever its
      poll is if the first saw the agent at work, and otherwise exactly if it decides. */
  lemma TwoVisitsRecoverExactlyWhen(row: Row, l: Ledger, o1: Oracle, o2: Oracle, first: Time, second: Time)
    requires !row.settled && IsFaultless(o1) && IsFaultless(o2) && row.deadlineAt <= first <= second
    ensures var f := Alone(Some(row), l, Overdue(row), o1, first);
            var g := Alone(f.row, f.ledger, Overdue(f.row.value), o2, second);
            var recovers := !LeavesStuck(o1.poll) || Decides(row, o2.poll, second);
            if Decides(row, o1.poll, first)
            then f.outcome.Settled? && f.row.value.settled && f.ledger.delivered == l.delivered + 1
            else
              && !f.row.value.settled && f.row.value.deadlineAt == row.deadlineAt && f.ledger.delivered == l.delivered
              && (g.outcome.Settled? <==> recovers) && (g.row.value.settled <==> recovers)
              && g.ledger.delivered == l.delivered + Bit(recovers)
  {
    VisitSettlesExactlyWhen(row, l, o1, first);
    var f := Alone(Some(row), l, Overdue(row), o1, first);
    if !Decides(row, o1.poll, first) {
      VisitWithoutDecision(row, l, o1, first);
      VisitSettlesExactlyWhen(f.row.value, f.ledger, o2, second);
    }
  }

  /** What an undecided visit to an overdue row does: a heartbeat moves it to the state
      seen and touches nothing else but the update time; any other poll changes nothing. */
  lemma VisitWithoutDecision(row: Row, l: Ledger, o: Oracle, now: Time)
    requires !row.settled && IsFaultless(o) && row.deadlineAt <= now && !Decides(row, o.poll, now)
    ensures var f := Alone(Some(row), l, Overdue(row), o, now);
            && f.row == Some(if LeavesStuck(o.poll) then row else row.(state := o.poll.state, updatedAt := now))
            && f.ledger.delivered == l.delivered && f.ledger.asked == l.asked
            && (!LeavesStuck(o.poll) ==> IsActiveExecution(o.poll.state))
  {
    var r := Some(row);
    assert Alone(r, l, Overdue(row), o, now) == Alone(r, l, PollRemote(row), o, now);
    var p := PhaseStep(r, l, PollRemote(row), o, now).phase;
    AloneUnfolds(r, l, PollRemote(row), o, now);
    AloneUnfolds(r, l, p, o, now);
    if !p.Done? {
      var s := PhaseStep(r, l, p, o, now);
      AloneUnfolds(s.row, s.ledger, s.phase, o, now);
      assert s.phase.Done?;
    }
  }

  /** One attempt at a task's answer: a reconciler visit or a push notification. */
  datatype Attempt = Attempt(byPush: bool, oracle: Oracle, now: Time)

  function StartOf(row: Row, a: Attempt): Phase {
    if a.byPush then Lookup(1) else Overdue(row)
  }

  /** A row and its ledger after a series of attempts, one after another. */
  function Attempted(row: Row, l: Ledger, attempts: seq<Attempt>): (Row, Ledger)
    decreases |attempts|
  {
    if attempts == [] then (row, l)
    else
      var a := attempts[0];
      var f := Alone(Some(row), l, StartOf(row, a), a.oracle, a.now);
      Attempted(f.row.value, f.ledger, attempts[1..])
  }

  /** The documented retry does not happen for a remote failure: a row that stands failed
      and unsettled stays so, with nothing posted, over any number of attempts that see
      `failed` again, by the reconciler or by push, whatever else fails. */
  lemma {:induction false} RefusedFailureIsNeverRetried(row: Row, l: Ledger, attempts: seq<Attempt>)
    requires !row.settled && row.state.Failed?
    requires forall a :: a in attempts ==> a.oracle.poll == Saw(Failed)
    ensures Attempted(row, l, attempts) == (row, l)
    decreases |attempts|
  {
    if attempts == [] {
    } else {
      AttemptIsRefused(row, l, attempts[0]);
      RefusedFailureIsNeverRetried(row, l, attempts[1..]);
    }
  }

  lemma AttemptIsRefused(row: Row, l: Ledger, a: Attempt)
    requires !row.settled && row.state.Failed? && a.oracle.poll == Saw(Failed)
    ensures var f := Alone(Some(row), l, StartOf(row, a), a.oracle, a.now);
            f.row == Some(row) && f.ledger == l
  {
    var (r, o) := (Some(row), a.oracle);
    AloneUnfolds(r, l, Observe(row, Failed), o, a.now);
    AloneUnfolds(r, l, PollRemote(row), o, a.now);
    AloneUnfolds(r, l, Overdue(row), o, a.now);
    AloneUnfolds(r, l, Fetch(row), o, a.now);
    AloneUnfolds(r, l, Lookup(1), o, a.now);
  }

  /** Nor is the question of a row that stands at input-required ever posted by an attempt
      that finds the agent still waiting. */
  lemma {:induction false} StandingQuestionIsNeverPosted(row: Row, l: Ledger, attempts: seq<Attempt>)
    requires !row.settled && row.state.InputRequired?
    requires forall a :: a in attempts ==> a.oracle.poll == Saw(InputRequired)
    ensures Attempted(row, l, attempts) == (row, l)
    decreases |attempts|
  {
    if attempts == [] {
    } else {
      QuestionIsDuplicate(row, l, attempts[0]);
      StandingQuestionIsNeverPosted(row, l, attempts[1..]);
    }
  }

  lemma QuestionIsDuplicate(row: Row, l: Ledger, a: Attempt)
    requires !row.settled && row.state.InputRequired? && a.oracle.poll == Saw(InputRequired)
    ensures var f := Alone(Some(row), l, StartOf(row, a), a.oracle, a.now); f.row == Some(row) && f.ledger == l
  {
    var (r, o) := (Some(row), a.oracle);
    AloneUnfolds(r, l, Observe(row, InputRequired), o, a.now);
    AloneUnfolds(r, l, PollRemote(row), o, a.now);
    AloneUnfolds(r, l, Overdue(row), o, a.now);
    AloneUnfolds(r, l, Fetch(row), o, a.now);
    AloneUnfolds(r, l, Lookup(1), o, a.now);
  }

  /* ---- what a push decides ---- */

  /** When a push decides a row's outcome: it knows no deadline, and a failed lookup of the
      remote task decides nothing. */
  predicate PushDecides(row: Row, poll: Poll) {
    poll.Saw? && IsTerminal(poll.state) && (poll.state.Failed? ==> IsActiveExecution(row.state))
  }

  /** With no fault and no concurrent step, a push about an unsettled row settles it and
      delivers one answer if and only if `PushDecides`. */
  lemma PushSettlesExactlyWhen(row: Row, l: Ledger, o: Oracle, now: Time)
    requires !row.settled && IsFaultless(o)
    ensures var f := Alone(Some(row), l, Lookup(1), o, now);
            && (f.outcome.Settled? <==> PushDecides(row, o.poll))
            && f.ledger.delivered == l.delivered + Bit(PushDecides(row, o.poll))
            && f.row.Some? && (f.row.value.settled <==> PushDecides(row, o.poll))
            && (PushDecides(row, o.poll) ==> f.row.value.state == o.poll.state)
  {
    var r := Some(row);
    AloneUnfolds(r, l, Lookup(1), o, now);
    AloneUnfolds(r, l, Fetch(row), o, now);
    if o.poll.Saw? {
      AloneUnfolds(r, l, Observe(row, o.poll.state), o, now);
      var s := PhaseStep(r, l, Observe(row, o.poll.state), o, now);
      AloneUnfolds(s.row, s.ledger, s.phase, o, now);
      match s.phase {
        case PostAnswer(_) => AnswerIsPosted(s.row, s.ledger, row, o, now);
        case PostQuestion(_) => QuestionIsPosted(s.row, s.ledger, row, o, now);
        case _ =>
      }
    } else {
      AloneUnfolds(r, l, Done(Failure), o, now);
    }
  }

  /** The retry, exactly: the answer of a settle that was rolled back in a terminal state is
      delivered by a faultless attempt that sees that state again, by push or by the
      reconciler, if and only if the state is not `failed`. */
  lemma RetryDeliversExactlyWhen(row: Row, l: Ledger, a: Attempt)
    requires !row.settled && IsTerminal(row.state)
    requires IsFaultless(a.oracle) && a.oracle.poll == Saw(row.state)
    ensures var f := Alone(Some(row), l, StartOf(row, a), a.oracle, a.now);
            && (f.outcome.Settled? <==> !row.state.Failed?)
            && f.ledger.delivered == l.delivered + Bit(!row.state.Failed?)
            && f.row.Some? && (f.row.value.settled <==> !row.state.Failed?)
  {
    if a.byPush {
      PushSettlesExactlyWhen(row, l, a.oracle, a.now);
    } else {
      VisitSettlesExactlyWhen(row, l, a.oracle, a.now);
    }
  }
}
