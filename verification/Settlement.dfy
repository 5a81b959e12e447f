/**
  The actors that race to settle one delegated task: a push notification, a row of a
  reconciler sweep, and a user's reply to a question.  A phase names the await an actor
  is about to take; `PhaseStep` is everything it does up to its next await.  Whatever the
  surroundings decide (the remote agent, Slack, the database) arrives in an `Oracle`.
 */
module Settlement {
  import opened Shared
  import opened A2aTaskTracker

  /** What polling tasks/get can give; `Malformed` also covers an unrecognised state. */
  datatype Poll = NoAgent | Unreachable | NotFound | Malformed | Saw(state: TaskState)

  /** What message/send can give when a reply resumes a task. */
  datatype Send = SendFailed | Unresumable | Resumes(state: TaskState, deadlineAt: Time)

  /** The outcome of each kind of await, should the actor come to it. */
  datatype Oracle = Oracle(poll: Poll, send: Send, postOk: bool,
                           lookup: Fault, expire: Fault, commit: Fault, undo: Fault)

  /** What the polled task's own finalizer call reports back. */
  datatype Outcome = Settled | Asked | Duplicate | Heartbeat | Failure | UnknownTask | Skipped | Resumed | NotResumed

  /** Every row carried by a phase is a snapshot the actor took earlier. */
  datatype Phase =
    | Lookup(retries: nat)
    | Fetch(row: Row)
    | Overdue(row: Row)
    | Expire(row: Row, clock: Time)
    | PollRemote(row: Row)
    | SettleGone(row: Row)
    | Observe(row: Row, state: TaskState)
    | PostAnswer(row: Row)
    | RollBack(row: Row)
    | MarkResponded(row: Row)
    | PostQuestion(row: Row)
    | RevertQuestion(row: Row)
    | SendReply(row: Row)
    | CommitResume(row: Row, state: TaskState, deadlineAt: Time)
    | SettleUnresumable(row: Row)
    | Done(outcome: Outcome)

  /** What has happened to one task, counted.
      `inserted`, `pruned`: rows inserted and deleted.
      `delivered`: answers Slack accepted; `counted`, `uncounted`: of those, how many were
      reported as settled, and how many by an actor that died before it could.
      `replaced`: settled by a reply the agent could not resume; a new task takes its place.
      `finished`: settled by a reply the agent answered with a finished task; nothing is posted.
      `reverted`: settled by undoing a question.
      `lost`: settled by a call that failed or an actor that died owing the answer.
      `orphaned`: owed answers whose roll back found nothing to undo.
      `bornAsking`: rows inserted already asking; `entered`, `left`: guarded entries into
      input-required and exits from it; `asked`, `unasked`: of the entries, the questions
      Slack accepted and the ones given up. */
  datatype Ledger = Ledger(inserted: nat, pruned: nat, delivered: nat, counted: nat, uncounted: nat,
                           replaced: nat, finished: nat, reverted: nat, lost: nat, orphaned: nat,
                           bornAsking: nat, entered: nat, left: nat, asked: nat, unasked: nat)

  function Blank(): Ledger {
    Ledger(0, 0, 0, 0, 0, 0, 0, 0, 0, 0, 0, 0, 0, 0, 0)
  }

  /** Why a row was written. */
  datatype Cause =
    | ByInsert
    | ByObservation(state: TaskState)
    | ByExpiry(clock: Time)
    | ByTaskNotFound
    | ByRollBack
    | ByRevert
    | ByResume(deadlineAt: Time)
    | ByUnresumable

  datatype Stepped = Stepped(row: Option<Row>, ledger: Ledger, phase: Phase, cause: Option<Cause>)

  predicate IsAsking(r: Option<Row>) {
    r.Some? && r.value.state.InputRequired?
  }

  predicate IsOpen(r: Option<Row>) {
    r.Some? && !r.value.settled
  }

  function GoneLifecycle(row: Row): Lifecycle {
    if IsActiveExecution(row.state) then To(Failed)
    else To(Failed).(requireCurrentStates := Some({row.state}))
  }

  function RevertLifecycle(row: Row): Lifecycle {
    To(row.state).(requireCurrentStates := Some({InputRequired}))
  }

  function ResumeLifecycle(s: TaskState, deadlineAt: Time): Lifecycle {
    Lifecycle(s, Some(deadlineAt), None, Some({InputRequired}))
  }

  function UnresumableLifecycle(): Lifecycle {
    To(Failed).(requireCurrentStates := Some({InputRequired}))
  }

  /** One committed UPDATE leaves input-required. */
  function CountExit(l: Ledger, before: Option<Row>, after: Option<Row>): Ledger {
    if IsAsking(before) && !IsAsking(after) then l.(left := l.left + 1) else l
  }

  /** A guarded transition to a terminal state that makes the winner owe a post. */
  function Claim(r: Option<Row>, l: Ledger, to: Lifecycle, now: Time, fault: Fault, cause: Cause,
                 won: Phase, beaten: Phase, failed: Phase): Stepped
  {
    var r' := TransitionRow(r, to, now, fault);
    var executed := Executed(r, to, fault);
    var l1 := CountExit(l, r, r');
    Stepped(r',
            if executed && fault.ReplyLost? then l1.(lost := l1.lost + 1) else l1,
            match TransitionReply(r, to, fault) case Updated => won case NotUpdated => beaten case DbError => failed,
            if executed then Some(cause) else None)
  }

  function ObserveStep(r: Option<Row>, l: Ledger, row: Row, s: TaskState, o: Oracle, now: Time): Stepped {
    if IsTerminal(s) then
      Claim(r, l, To(s), now, o.commit, ByObservation(s), PostAnswer(row), Done(Duplicate), Done(Failure))
    else
      var r' := TransitionRow(r, To(s), now, o.commit);
      var executed := Executed(r, To(s), o.commit);
      var cause := if executed then Some(ByObservation(s)) else None;
      if s.InputRequired? then
        var l1 := if executed then l.(entered := l.entered + 1) else l;
        match TransitionReply(r, To(s), o.commit)
        case Updated => Stepped(r', l1, PostQuestion(row), cause)
        case NotUpdated => Stepped(r', l1, Done(Duplicate), cause)
        case DbError => Stepped(r', if executed then l1.(unasked := l1.unasked + 1) else l1, Done(Failure), cause)
      else
        Stepped(r', CountExit(l, r, r'), Done(Heartbeat), cause)
  }

  function RollBackStep(r: Option<Row>, l: Ledger, o: Oracle, now: Time): Stepped {
    var undone := Unsettles(r, o.undo);
    Stepped(UnsettleRow(r, now, o.undo),
            if undone then l
            else if o.undo.NotExecuted? then l.(lost := l.lost + 1)
            else l.(orphaned := l.orphaned + 1),
            Done(Failure),
            if undone then Some(ByRollBack) else None)
  }

  function RevertStep(r: Option<Row>, l: Ledger, row: Row, o: Oracle, now: Time): Stepped {
    var to := RevertLifecycle(row);
    var executed := Executed(r, to, o.undo);
    var r' := TransitionRow(r, to, now, o.undo);
    var l1 := CountExit(l, r, r').(unasked := l.unasked + 1);
    Stepped(r',
            if executed && IsTerminal(row.state) then l1.(reverted := l1.reverted + 1) else l1,
            Done(Failure),
            if executed then Some(ByRevert) else None)
  }

  /** The resume path's best-effort transition: whatever comes of it, nothing is posted. */
  function ResumeStep(r: Option<Row>, l: Ledger, to: Lifecycle, now: Time, fault: Fault, cause: Cause): Stepped {
    var executed := Executed(r, to, fault);
    var r' := TransitionRow(r, to, now, fault);
    var l1 := CountExit(l, r, r');
    Stepped(r',
            if !executed || !IsTerminal(to.state) then l1
            else if cause.ByUnresumable? then l1.(replaced := l1.replaced + 1)
            else l1.(finished := l1.finished + 1),
            Done(Resumed),
            if executed then Some(cause) else None)
  }

  function PhaseStep(r: Option<Row>, l: Ledger, p: Phase, o: Oracle, now: Time): Stepped {
    match p
    case Lookup(retries) =>
      Stepped(r, l,
              if !o.lookup.NoFault? then Done(Failure)
              else if r.Some? then Fetch(r.value)
              else if retries > 0 then Lookup(retries - 1)
              else Done(UnknownTask),
              None)
    case Fetch(row) =>
      Stepped(r, l, if o.poll.Saw? then Observe(row, o.poll.state) else Done(Failure), None)
    case Overdue(row) =>
      Stepped(r, l,
              if IsActiveExecution(row.state) && row.deadlineAt <= now then Expire(row, now) else PollRemote(row),
              None)
    case Expire(row, clock) =>
      Claim(r, l, To(Failed).(ifDeadlineAtOrBefore := Some(clock)), now, o.expire, ByExpiry(clock),
            PostAnswer(row), PollRemote(row), PollRemote(row))
    case PollRemote(row) =>
      Stepped(r, l,
              match o.poll
              case NoAgent => Done(Skipped)
              case Unreachable => Done(Skipped)
              case NotFound => SettleGone(row)
              case Malformed => Done(Failure)
              case Saw(s) => Observe(row, s),
              None)
    case SettleGone(row) =>
      Claim(r, l, GoneLifecycle(row), now, o.commit, ByTaskNotFound, PostAnswer(row), Done(Skipped), Done(Skipped))
    case Observe(row, s) =>
      ObserveStep(r, l, row, s, o, now)
    case PostAnswer(row) =>
      if o.postOk then Stepped(r, l.(delivered := l.delivered + 1), MarkResponded(row), None)
      else Stepped(r, l, RollBack(row), None)
    case RollBack(row) =>
      RollBackStep(r, l, o, now)
    case MarkResponded(row) =>
      Stepped(r, l.(counted := l.counted + 1), Done(Settled), None)
    case PostQuestion(row) =>
      if o.postOk then Stepped(r, l.(asked := l.asked + 1), Done(Asked), None)
      else Stepped(r, l, RevertQuestion(row), None)
    case RevertQuestion(row) =>
      RevertStep(r, l, row, o, now)
    case SendReply(row) =>
      Stepped(r, l,
              match o.send
              case SendFailed => Done(NotResumed)
              case Unresumable => SettleUnresumable(row)
              case Resumes(s, d) => CommitResume(row, s, d),
              None)
    case CommitResume(row, s, d) =>
      ResumeStep(r, l, ResumeLifecycle(s, d), now, o.commit, ByResume(d))
    case SettleUnresumable(row) =>
      ResumeStep(r, l, UnresumableLifecycle(), now, o.commit, ByUnresumable)
    case Done(_) =>
      Stepped(r, l, p, None)
  }

  /* ---- what one step keeps ---- */

  /** Debts an actor in phase `p` carries: an answer, a question, a report. */
  datatype Debt = OwesAnswer | OwesQuestion | OwesReport

  predicate Owes(p: Phase, d: Debt) {
    match d
    case OwesAnswer => p.PostAnswer? || p.RollBack?
    case OwesQuestion => p.PostQuestion? || p.RevertQuestion?
    case OwesReport => p.MarkResponded?
  }

  /** Every row ever inserted is accounted for exactly once: it is still open, somebody
      owes its answer, the answer was delivered, or it was settled in one of the five
      ways that deliver none. */
  predicate AnswersBalance(r: Option<Row>, l: Ledger, owing: nat) {
    l.inserted == Bit(IsOpen(r)) + owing + l.delivered + l.replaced + l.finished + l.reverted + l.lost + l.orphaned
  }

  /** Every guarded entry into input-required is its own question. */
  predicate QuestionsBalance(l: Ledger, owing: nat) {
    l.entered == owing + l.asked + l.unasked
  }

  predicate ReportsBalance(l: Ledger, owing: nat) {
    l.delivered == owing + l.counted + l.uncounted
  }

  /** Entries into and exits from input-required alternate. */
  predicate EpisodesBalance(r: Option<Row>, l: Ledger) {
    l.bornAsking + l.entered == l.left + Bit(IsAsking(r))
  }

  predicate RowsBalance(r: Option<Row>, l: Ledger) {
    l.inserted == l.pruned + Bit(r.Some?)
  }

  predicate SettledMeansTerminal(r: Option<Row>) {
    r.Some? && r.value.settled ==> IsTerminal(r.value.state)
  }

  lemma ClaimKeepsAnswers(r: Option<Row>, l: Ledger, to: Lifecycle, now: Time, fault: Fault, cause: Cause,
                          row: Row, beaten: Phase, failed: Phase, owing: nat)
    requires IsTerminal(to.state)
    requires !Owes(beaten, OwesAnswer) && !Owes(failed, OwesAnswer)
    requires AnswersBalance(r, l, owing)
    ensures var s := Claim(r, l, to, now, fault, cause, PostAnswer(row), beaten, failed);
            AnswersBalance(s.row, s.ledger, owing + Bit(Owes(s.phase, OwesAnswer)))
  {
  }

  lemma UndoKeepsAnswers(r: Option<Row>, l: Ledger, row: Row, o: Oracle, now: Time, owing: nat)
    requires AnswersBalance(r, l, owing)
    ensures owing > 0 ==> AnswersBalance(RollBackStep(r, l, o, now).row, RollBackStep(r, l, o, now).ledger, owing - 1)
    ensures AnswersBalance(RevertStep(r, l, row, o, now).row, RevertStep(r, l, row, o, now).ledger, owing)
  {
  }

  lemma ResumeKeepsAnswers(r: Option<Row>, l: Ledger, to: Lifecycle, now: Time, fault: Fault, cause: Cause, owing: nat)
    requires AnswersBalance(r, l, owing)
    ensures var s := ResumeStep(r, l, to, now, fault, cause); AnswersBalance(s.row, s.ledger, owing)
  {
  }

  lemma StepKeepsAnswers(r: Option<Row>, l: Ledger, p: Phase, o: Oracle, now: Time, owing: nat)
    requires AnswersBalance(r, l, owing) && owing >= Bit(Owes(p, OwesAnswer))
    ensures var s := PhaseStep(r, l, p, o, now);
            AnswersBalance(s.row, s.ledger, owing - Bit(Owes(p, OwesAnswer)) + Bit(Owes(s.phase, OwesAnswer)))
  {
    match p {
      case Expire(row, clock) =>
        ClaimKeepsAnswers(r, l, To(Failed).(ifDeadlineAtOrBefore := Some(clock)), now, o.expire, ByExpiry(clock),
                          row, PollRemote(row), PollRemote(row), owing);
      case SettleGone(row) =>
        ClaimKeepsAnswers(r, l, GoneLifecycle(row), now, o.commit, ByTaskNotFound, row, Done(Skipped), Done(Skipped),
                          owing);
      case Observe(row, s) =>
        if IsTerminal(s) {
          ClaimKeepsAnswers(r, l, To(s), now, o.commit, ByObservation(s), row, Done(Duplicate), Done(Failure), owing);
        }
      case RollBack(row) =>
        UndoKeepsAnswers(r, l, row, o, now, owing);
      case RevertQuestion(row) =>
        UndoKeepsAnswers(r, l, row, o, now, owing);
      case CommitResume(_, s, d) =>
        ResumeKeepsAnswers(r, l, ResumeLifecycle(s, d), now, o.commit, ByResume(d), owing);
      case SettleUnresumable(_) =>
        ResumeKeepsAnswers(r, l, UnresumableLifecycle(), now, o.commit, ByUnresumable, owing);
      case _ =>
    }
  }

  /** An owed answer is orphaned only if its row was pruned or inserted anew meanwhile. */
  predicate OrphansExplained(l: Ledger) {
    l.inserted <= 1 && l.pruned == 0 ==> l.orphaned == 0
  }

  lemma StepKeepsOrphansExplained(r: Option<Row>, l: Ledger, p: Phase, o: Oracle, now: Time, owing: nat)
    requires OrphansExplained(l) && RowsBalance(r, l)
    requires AnswersBalance(r, l, owing) && owing >= Bit(Owes(p, OwesAnswer))
    ensures OrphansExplained(PhaseStep(r, l, p, o, now).ledger)
  {
    if p.RollBack? && l.inserted <= 1 && l.pruned == 0 {
      assert r.Some? && r.value.settled;
    }
  }

  lemma StepKeepsQuestions(r: Option<Row>, l: Ledger, p: Phase, o: Oracle, now: Time, owing: nat)
    requires QuestionsBalance(l, owing) && owing >= Bit(Owes(p, OwesQuestion))
    ensures var s := PhaseStep(r, l, p, o, now);
            QuestionsBalance(s.ledger, owing - Bit(Owes(p, OwesQuestion)) + Bit(Owes(s.phase, OwesQuestion)))
  {
  }

  lemma StepKeepsReports(r: Option<Row>, l: Ledger, p: Phase, o: Oracle, now: Time, owing: nat)
    requires ReportsBalance(l, owing) && owing >= Bit(Owes(p, OwesReport))
    ensures var s := PhaseStep(r, l, p, o, now);
            ReportsBalance(s.ledger, owing - Bit(Owes(p, OwesReport)) + Bit(Owes(s.phase, OwesReport)))
  {
  }

  lemma StepKeepsEpisodes(r: Option<Row>, l: Ledger, p: Phase, o: Oracle, now: Time)
    requires EpisodesBalance(r, l)
    ensures var s := PhaseStep(r, l, p, o, now); EpisodesBalance(s.row, s.ledger)
  {
  }

  lemma StepKeepsRow(r: Option<Row>, l: Ledger, p: Phase, o: Oracle, now: Time)
    requires RowsBalance(r, l) && SettledMeansTerminal(r)
    ensures var s := PhaseStep(r, l, p, o, now); RowsBalance(s.row, s.ledger) && SettledMeansTerminal(s.row)
  {
  }

  /** One task's row and ledger, with the debts its actors carry. */
  datatype Books = Books(row: Option<Row>, ledger: Ledger, answers: nat, questions: nat, reports: nat)

  predicate Balanced(b: Books) {
    && AnswersBalance(b.row, b.ledger, b.answers)
    && QuestionsBalance(b.ledger, b.questions)
    && ReportsBalance(b.ledger, b.reports)
    && EpisodesBalance(b.row, b.ledger)
    && RowsBalance(b.row, b.ledger)
    && SettledMeansTerminal(b.row)
    && OrphansExplained(b.ledger)
  }

  /** The debts of an actor in phase `p` are among those in the books. */
  predicate Booked(b: Books, p: Phase) {
    && b.answers >= Bit(Owes(p, OwesAnswer))
    && b.questions >= Bit(Owes(p, OwesQuestion))
    && b.reports >= Bit(Owes(p, OwesReport))
  }

  /** The books after one actor's debts in phase `p` become those of phase `q`. */
  function Rebooked(b: Books, row: Option<Row>, l: Ledger, p: Phase, q: Phase): Books
    requires Booked(b, p)
  {
    Books(row, l,
          b.answers - Bit(Owes(p, OwesAnswer)) + Bit(Owes(q, OwesAnswer)),
          b.questions - Bit(Owes(p, OwesQuestion)) + Bit(Owes(q, OwesQuestion)),
          b.reports - Bit(Owes(p, OwesReport)) + Bit(Owes(q, OwesReport)))
  }

  lemma StepKeepsBalanced(b: Books, p: Phase, o: Oracle, now: Time)
    requires Balanced(b) && Booked(b, p)
    ensures var s := PhaseStep(b.row, b.ledger, p, o, now);
            Balanced(Rebooked(b, s.row, s.ledger, p, s.phase))
  {
    StepKeepsAnswers(b.row, b.ledger, p, o, now, b.answers);
    StepKeepsQuestions(b.row, b.ledger, p, o, now, b.questions);
    StepKeepsReports(b.row, b.ledger, p, o, now, b.reports);
    StepKeepsEpisodes(b.row, b.ledger, p, o, now);
    StepKeepsRow(b.row, b.ledger, p, o, now);
    StepKeepsOrphansExplained(b.row, b.ledger, p, o, now, b.answers);
  }

  /** An actor that dies leaves its debt on the ledger. */
  function Bury(l: Ledger, p: Phase): Ledger {
    if Owes(p, OwesAnswer) then l.(lost := l.lost + 1)
    else if Owes(p, OwesQuestion) then l.(unasked := l.unasked + 1)
    else if Owes(p, OwesReport) then l.(uncounted := l.uncounted + 1)
    else l
  }

  lemma DeathKeepsBalanced(b: Books, p: Phase)
    requires Balanced(b) && Booked(b, p)
    ensures Balanced(Rebooked(b, b.row, Bury(b.ledger, p), p, Done(Failure)))
  {
  }

  lemma InsertKeepsBalanced(b: Books, row: Row)
    requires Balanced(b) && b.row.None? && !row.settled
    ensures Balanced(b.(row := Some(row),
                        ledger := b.ledger.(inserted := b.ledger.inserted + 1,
                                            bornAsking := b.ledger.bornAsking + Bit(row.state.InputRequired?))))
  {
  }

  lemma PruneKeepsBalanced(b: Books)
    requires Balanced(b) && b.row.Some? && b.row.value.settled
    ensures Balanced(b.(row := None, ledger := b.ledger.(pruned := b.ledger.pruned + 1)))
  {
  }
}
