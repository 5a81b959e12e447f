/**
  The committed writes of a run, in order.  Deadline failures and questions are promises
  about what came before them, so they are stated over this history.
 */
module SettlementHistory {
  import opened Shared
  import opened A2aTaskTracker
  import opened Settlement
  import opened SettlementRuns
  import opened SettlementGuarantees

  /** The row as the last write for `id` left it. */
  function LastWrite(ws: seq<Write>, id: TaskId): Option<Row> {
    if ws == [] then None
    else if ws[|ws| - 1].task == id then ws[|ws| - 1].after
    else LastWrite(ws[..|ws| - 1], id)
  }

  /** What a write demands of the row it finds and promises of the row it leaves. */
  predicate Sound(x: Write) {
    && x.after.Some?
    && var after := x.after.value;
       match x.cause
       case ByInsert => x.before.None? && !after.settled
       case ByResume(d) => IsOpen(x.before) && IsAsking(x.before) && after.deadlineAt == d
       case _ =>
         && x.before.Some?
         && var before := x.before.value;
            && after.deadlineAt == before.deadlineAt
            && match x.cause
               case ByObservation(s) =>
                 && !before.settled && after.state == s && after.settled == IsTerminal(s)
                 && (s.Failed? || s.InputRequired? ==> IsActiveExecution(before.state))
               case ByExpiry(clock) =>
                 && !before.settled && IsActiveExecution(before.state) && before.deadlineAt <= clock <= x.at
                 && after.state.Failed? && after.settled
               case ByTaskNotFound => !before.settled && after.state.Failed? && after.settled
               case ByRollBack => before.settled && !after.settled && after.state == before.state
               case ByRevert => !before.settled && before.state.InputRequired?
               case ByUnresumable =>
                 !before.settled && before.state.InputRequired? && after.state.Failed? && after.settled
  }

  /** An update finds the row as the last write left it; an insertion finds no row, and
      never one whose question is still open. */
  predicate Follows(ws: seq<Write>, x: Write) {
    if x.cause.ByInsert? then !IsAsking(LastWrite(ws, x.task)) else x.before == LastWrite(ws, x.task)
  }

  predicate Linked(ws: seq<Write>, k: nat)
    requires k < |ws|
  {
    Sound(ws[k]) && Follows(ws[..k], ws[k])
  }

  ghost predicate History(ws: seq<Write>) {
    forall k :: 0 <= k < |ws| ==> Linked(ws, k)
  }

  ghost predicate Recorded(w: World) {
    && History(w.writes)
    && (forall id :: id in w.table ==> LastWrite(w.writes, id) == Some(w.table[id]))
    && (forall id :: id in w.table ==> SettledMeansTerminal(Some(w.table[id])))
    && (forall id :: id !in w.table ==> !IsAsking(LastWrite(w.writes, id)))
    && (forall a :: a in w.actors && w.actors[a].phase.Expire? ==> w.actors[a].phase.clock <= w.now)
  }

  lemma AppendKeepsHistory(ws: seq<Write>, x: Write)
    requires History(ws) && Sound(x) && Follows(ws, x)
    ensures History(ws + [x])
    ensures forall id :: LastWrite(ws + [x], id) == if id == x.task then x.after else LastWrite(ws, id)
  {
    var ws' := ws + [x];
    assert ws'[..|ws|] == ws;
    forall k | 0 <= k < |ws'| ensures Linked(ws', k) {
      if k < |ws| {
        assert Linked(ws, k) && ws'[..k] == ws[..k];
      }
    }
  }

  lemma StepWritesSoundly(r: Option<Row>, l: Ledger, p: Phase, o: Oracle, now: Time, id: TaskId)
    requires p.Expire? ==> p.clock <= now
    ensures var s := PhaseStep(r, l, p, o, now);
            && (s.cause.Some? ==> r.Some? && !s.cause.value.ByInsert? && Sound(Write(id, s.cause.value, r, s.row, now)))
            && (s.cause.None? ==> s.row == r)
            && (SettledMeansTerminal(r) ==> SettledMeansTerminal(s.row))
            && (s.phase.Expire? ==> s.phase.clock <= now)
  {
  }

  lemma StepActorKeepsRecorded(w: World, actor: ActorId, o: Oracle)
    requires Recorded(w) && actor in w.actors
    ensures Recorded(StepActor(w, actor, o))
  {
    var me, s, w' := w.actors[actor], StepOf(w, actor, o), StepActor(w, actor, o);
    var r := RowOf(w.table, me.task);
    StepWritesSoundly(r, LedgerOf(w, me.task), me.phase, o, w.now, me.task);
    if s.cause.Some? {
      AppendKeepsHistory(w.writes, Write(me.task, s.cause.value, r, s.row, w.now));
    } else {
      assert w'.writes == w.writes;
    }
    forall id: TaskId
      ensures id in w'.table ==> LastWrite(w'.writes, id) == Some(w'.table[id])
      ensures id in w'.table ==> SettledMeansTerminal(Some(w'.table[id]))
      ensures id !in w'.table ==> !IsAsking(LastWrite(w'.writes, id))
    {
      assert RowOf(w'.table, id) == if id == me.task then s.row else RowOf(w.table, id);
    }
  }

  lemma InsertKeepsRecorded(w: World, id: TaskId, row: Row)
    requires Recorded(w)
    ensures Recorded(Insert(w, id, row))
  {
    if id !in w.table {
      var w' := Insert(w, id, row);
      AppendKeepsHistory(w.writes, w'.writes[|w.writes|]);
      forall other | other in w'.table ensures LastWrite(w'.writes, other) == Some(w'.table[other]) {
        assert RowOf(w'.table, other) == if other == id then w'.writes[|w.writes|].after else RowOf(w.table, other);
      }
    }
  }

  lemma PruneKeepsRecorded(w: World)
    requires Recorded(w)
    ensures Recorded(Prune(w))
  {
    var w' := Prune(w);
    forall id | id !in w'.table ensures !IsAsking(LastWrite(w'.writes, id)) {
      if id in w.table {
        assert SettledMeansTerminal(Some(w.table[id]));
      }
    }
  }

  lemma NextKeepsRecorded(w: World, a: Action)
    requires Recorded(w)
    ensures Recorded(Next(w, a))
  {
    if Enabled(w, a) {
      match a {
        case Delegate(id, row) => InsertKeepsRecorded(w, id, row);
        case Step(actor, o) => StepActorKeepsRecorded(w, actor, o);
        case FinishRun(run, fault) => PruneKeepsRecorded(w);
        case _ =>
      }
    }
  }

  lemma {:induction false} ReachableIsRecorded(start: Time, actions: seq<Action>)
    ensures Recorded(After(start, actions))
  {
    if actions == [] {
    } else {
      var n := |actions| - 1;
      ReachableIsRecorded(start, actions[..n]);
      NextKeepsRecorded(After(start, actions[..n]), actions[n]);
    }
  }

  /** A deadline failure is only ever committed on a row that is, at that moment, unsettled,
      in active execution and past the deadline it has at that moment. */
  lemma DeadlineFailureIsSound(start: Time, actions: seq<Action>, k: nat)
    requires k < |After(start, actions).writes| && After(start, actions).writes[k].cause.ByExpiry?
    ensures var ws := After(start, actions).writes;
            var row := LastWrite(ws[..k], ws[k].task);
            && IsOpen(row) && IsActiveExecution(row.value.state)
            && row.value.deadlineAt <= ws[k].cause.clock <= ws[k].at
  {
    ReachableIsRecorded(start, actions);
    assert Linked(After(start, actions).writes, k);
  }

  predicate Arms(x: Write, id: TaskId) {
    x.task == id && (x.cause.ByResume? || x.cause.ByInsert?)
  }

  lemma {:induction false} DeadlineHolds(ws: seq<Write>, i: nat, k: nat, id: TaskId)
    requires History(ws) && i < k <= |ws| && ws[i].task == id
    requires forall j :: i < j < k ==> !Arms(ws[j], id)
    ensures LastWrite(ws[..k], id).Some? && ws[i].after.Some?
    ensures LastWrite(ws[..k], id).value.deadlineAt == ws[i].after.value.deadlineAt
    decreases k
  {
    assert ws[..k][..k - 1] == ws[..k - 1];
    assert Linked(ws, i) && Linked(ws, k - 1);
    if i < k - 1 {
      DeadlineHolds(ws, i, k - 1, id);
    }
  }

  /** A resume that armed a later deadline than a tick's clock is never clobbered by that
      tick: before the failure commits, another resume or a new insertion must have come. */
  lemma ResumeIsNotClobbered(start: Time, actions: seq<Action>, i: nat, k: nat)
    requires i < k < |After(start, actions).writes|
    requires var ws := After(start, actions).writes;
             ws[i].task == ws[k].task && ws[i].cause.ByResume? && ws[k].cause.ByExpiry?
             && ws[k].cause.clock < ws[i].cause.deadlineAt
    ensures exists j :: i < j < k && Arms(After(start, actions).writes[j], After(start, actions).writes[k].task)
  {
    var ws := After(start, actions).writes;
    ReachableIsRecorded(start, actions);
    assert Linked(ws, i) && Linked(ws, k);
    if forall j :: i < j < k ==> !Arms(ws[j], ws[k].task) {
      DeadlineHolds(ws, i, k, ws[k].task);
    }
  }

  predicate Leaves(x: Write, id: TaskId) {
    x.task == id && IsAsking(x.before) && !IsAsking(x.after)
  }

  /** The write that makes a question be posted. */
  predicate Enters(x: Write, id: TaskId) {
    x.task == id && x.cause == ByObservation(InputRequired)
  }

  lemma {:induction false} AskingHolds(ws: seq<Write>, i: nat, k: nat, id: TaskId)
    requires History(ws) && i < k <= |ws| && ws[i].task == id && IsAsking(ws[i].after)
    requires forall j :: i < j < k ==> !Leaves(ws[j], id)
    ensures IsAsking(LastWrite(ws[..k], id))
    decreases k
  {
    assert ws[..k][..k - 1] == ws[..k - 1];
    assert Linked(ws, k - 1);
    if i < k - 1 {
      AskingHolds(ws, i, k - 1, id);
    }
  }

  /** While a row stays input-required, nothing commits a deadline failure on it and no
      second question is committed: either must be preceded by an exit. */
  lemma NothingInterruptsAQuestion(start: Time, actions: seq<Action>, i: nat, k: nat)
    requires i < k < |After(start, actions).writes|
    requires var ws := After(start, actions).writes;
             && ws[i].task == ws[k].task && IsAsking(ws[i].after)
             && (ws[k].cause.ByExpiry? || Enters(ws[k], ws[k].task))
    ensures var ws := After(start, actions).writes;
            exists j :: i < j < k && Leaves(ws[j], ws[k].task)
  {
    var ws := After(start, actions).writes;
    var id := ws[k].task;
    ReachableIsRecorded(start, actions);
    assert Linked(ws, k);
    if forall j :: i < j < k ==> !Leaves(ws[j], id) {
      AskingHolds(ws, i, k, id);
    }
  }
}
