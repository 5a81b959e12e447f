/**
  The one response of a Slack event.  Everyone who would answer first marks the event's
  `event_log` row responded; only the call whose UPDATE changed the row goes on, and a post
  that fails gives the mark back.
 */
module ResponseSlot {
  import opened Shared

  type EventId = string
  type CallId = nat

  datatype Outcome = Accepted | Responded

  /** `postFinalResponse` marks, posts and may unmark; `suppressFinalResponse` and the
      finalizer's bookkeeping only mark. */
  datatype Kind = Post | Suppress | Bookkeep

  datatype Phase = Marking(kind: Kind) | Posting | Unmarking

  datatype Call = Call(event: EventId, phase: Phase)

  /** Counts for one event.  `recorded`: rows inserted.  `posted`, `suppressed`,
      `bookkept`: calls that won the slot and kept it.  `failed`: posts given back.
      `lost`: slots taken by a call that then failed or died.  `orphaned`: marks whose row
      was gone or already open again when given back.  `withdrawn`: open rows deleted. */
  datatype Ledger = Ledger(recorded: nat, posted: nat, suppressed: nat, bookkept: nat,
                           failed: nat, lost: nat, orphaned: nat, withdrawn: nat)

  datatype State = State(log: map<EventId, Outcome>, ledgers: map<EventId, Ledger>, calls: map<CallId, Call>)

  datatype Action =
    | Record(event: EventId)
    | Delete(event: EventId)
    | Begin(call: CallId, event: EventId, kind: Kind)
    | Step(call: CallId, fault: Fault, postOk: bool)
    | Die(call: CallId)

  function LedgerOf(s: State, e: EventId): Ledger {
    if e in s.ledgers then s.ledgers[e] else Ledger(0, 0, 0, 0, 0, 0, 0, 0)
  }

  predicate IsOpen(log: map<EventId, Outcome>, e: EventId) {
    e in log && log[e].Accepted?
  }

  /** One step of a call: the row, the ledger and the call's next phase (`None`: over). */
  datatype Stepped = Stepped(row: Option<Outcome>, ledger: Ledger, next: Option<Phase>)

  function MarkStep(row: Option<Outcome>, l: Ledger, kind: Kind, fault: Fault): Stepped {
    if fault.NotExecuted? || row != Some(Accepted) then Stepped(row, l, None)
    else if fault.ReplyLost? then Stepped(Some(Responded), l.(lost := l.lost + 1), None)
    else match kind
      case Post => Stepped(Some(Responded), l, Some(Posting))
      case Suppress => Stepped(Some(Responded), l.(suppressed := l.suppressed + 1), None)
      case Bookkeep => Stepped(Some(Responded), l.(bookkept := l.bookkept + 1), None)
  }

  function PhaseStep(row: Option<Outcome>, l: Ledger, p: Phase, fault: Fault, postOk: bool): Stepped {
    match p
    case Marking(kind) => MarkStep(row, l, kind, fault)
    case Posting => if postOk then Stepped(row, l.(posted := l.posted + 1), None) else Stepped(row, l, Some(Unmarking))
    case Unmarking =>
      if fault.NotExecuted? then Stepped(row, l.(lost := l.lost + 1), None)
      else if row == Some(Responded) then Stepped(Some(Accepted), l.(failed := l.failed + 1), None)
      else Stepped(row, l.(orphaned := l.orphaned + 1), None)
  }

  function RowIn(log: map<EventId, Outcome>, e: EventId): Option<Outcome> {
    if e in log then Some(log[e]) else None
  }

  function StepCall(s: State, c: CallId, fault: Fault, postOk: bool): State
    requires c in s.calls
  {
    var call := s.calls[c];
    var t := PhaseStep(RowIn(s.log, call.event), LedgerOf(s, call.event), call.phase, fault, postOk);
    State(if t.row.Some? then s.log[call.event := t.row.value] else s.log,
          s.ledgers[call.event := t.ledger],
          if t.next.Some? then s.calls[c := Call(call.event, t.next.value)] else s.calls - {c})
  }

  predicate Holds(p: Phase) {
    p.Posting? || p.Unmarking?
  }

  function Next(s: State, a: Action): State {
    match a
    case Record(e) =>
      if e in s.log then s
      else
        var l := LedgerOf(s, e);
        s.(log := s.log[e := Accepted], ledgers := s.ledgers[e := l.(recorded := l.recorded + 1)])
    case Delete(e) =>
      var l := LedgerOf(s, e);
      s.(log := s.log - {e},
         ledgers := if IsOpen(s.log, e) then s.ledgers[e := l.(withdrawn := l.withdrawn + 1)] else s.ledgers)
    case Begin(c, e, kind) => if c in s.calls then s else s.(calls := s.calls[c := Call(e, Marking(kind))])
    case Step(c, fault, postOk) => if c in s.calls then StepCall(s, c, fault, postOk) else s
    case Die(c) =>
      if c !in s.calls then s
      else
        var e := s.calls[c].event;
        var l := LedgerOf(s, e);
        s.(ledgers := if Holds(s.calls[c].phase) then s.ledgers[e := l.(lost := l.lost + 1)] else s.ledgers,
           calls := s.calls - {c})
  }

  function Run(actions: seq<Action>): State {
    if actions == [] then State(map[], map[], map[])
    else Next(Run(actions[..|actions| - 1]), actions[|actions| - 1])
  }

  predicate HoldsFor(c: Call, e: EventId) {
    c.event == e && Holds(c.phase)
  }

  function HoldersIn(calls: map<CallId, Call>, e: EventId): set<CallId> {
    set c | c in calls && HoldsFor(calls[c], e)
  }

  function Holders(s: State, e: EventId): set<CallId> {
    HoldersIn(s.calls, e)
  }

  /** An event's slot is always in exactly one place: open, held by a call, used, lost or
      withdrawn, once for every row recorded. */
  predicate Balanced(open: bool, l: Ledger, holders: nat) {
    l.recorded == Bit(open) + holders + l.posted + l.suppressed + l.bookkept + l.lost + l.orphaned + l.withdrawn
  }

  lemma StepKeepsBalanced(row: Option<Outcome>, l: Ledger, p: Phase, fault: Fault, postOk: bool, holders: nat)
    requires Balanced(row == Some(Accepted), l, holders) && holders >= Bit(Holds(p))
    ensures var t := PhaseStep(row, l, p, fault, postOk);
            Balanced(t.row == Some(Accepted), t.ledger,
                     holders - Bit(Holds(p)) + Bit(t.next.Some? && Holds(t.next.value)))
  {
  }

  lemma HoldersAfterRemoval(calls: map<CallId, Call>, c: CallId, e: EventId)
    requires c in calls
    ensures |HoldersIn(calls - {c}, e)| == |HoldersIn(calls, e)| - Bit(HoldsFor(calls[c], e))
  {
    assert HoldersIn(calls - {c}, e) == HoldersIn(calls, e) - {c};
  }

  lemma HoldersAfterPut(calls: map<CallId, Call>, c: CallId, x: Call, e: EventId)
    ensures |HoldersIn(calls[c := x], e)|
         == |HoldersIn(calls, e)| - Bit(c in calls && HoldsFor(calls[c], e)) + Bit(HoldsFor(x, e))
  {
    var rest := HoldersIn(calls, e) - {c};
    assert HoldersIn(calls[c := x], e) == if HoldsFor(x, e) then rest + {c} else rest;
    assert c in HoldersIn(calls, e) <==> c in calls && HoldsFor(calls[c], e);
    assert |rest + {c}| == |rest| + 1;
  }

  /** What the law speaks of, for one event. */
  datatype Slot = Slot(open: bool, ledger: Ledger, holders: nat)

  function SlotOf(s: State, e: EventId): Slot {
    Slot(IsOpen(s.log, e), LedgerOf(s, e), |Holders(s, e)|)
  }

  predicate SlotLaw(s: State, e: EventId) {
    Balanced(IsOpen(s.log, e), LedgerOf(s, e), |Holders(s, e)|)
  }

  function StepOf(s: State, c: CallId, fault: Fault, postOk: bool): Stepped
    requires c in s.calls
  {
    PhaseStep(RowIn(s.log, s.calls[c].event), LedgerOf(s, s.calls[c].event), s.calls[c].phase, fault, postOk)
  }

  lemma StepCallSlot(s: State, c: CallId, fault: Fault, postOk: bool, e: EventId)
    requires c in s.calls
    ensures var call, t := s.calls[c], StepOf(s, c, fault, postOk);
            && |Holders(s, call.event)| >= Bit(Holds(call.phase))
            && SlotOf(StepCall(s, c, fault, postOk), e) == if e != call.event then SlotOf(s, e) else
                 Slot(t.row == Some(Accepted), t.ledger,
                      |Holders(s, e)| - Bit(Holds(call.phase)) + Bit(t.next.Some? && Holds(t.next.value)))
  {
    var call, t := s.calls[c], StepOf(s, c, fault, postOk);
    HoldersAfterRemoval(s.calls, c, e);
    HoldersAfterRemoval(s.calls, c, call.event);
    if t.next.Some? {
      HoldersAfterPut(s.calls, c, Call(call.event, t.next.value), e);
    }
  }

  lemma StepCallKeepsSlotLaw(s: State, c: CallId, fault: Fault, postOk: bool, e: EventId)
    requires SlotLaw(s, e) && c in s.calls
    ensures SlotLaw(StepCall(s, c, fault, postOk), e)
  {
    StepCallSlot(s, c, fault, postOk, e);
    if e == s.calls[c].event {
      StepKeepsBalanced(RowIn(s.log, e), LedgerOf(s, e), s.calls[c].phase, fault, postOk, |Holders(s, e)|);
    }
  }

  lemma DeathKeepsSlotLaw(s: State, c: CallId, e: EventId)
    requires SlotLaw(s, e) && c in s.calls
    ensures SlotLaw(Next(s, Die(c)), e)
  {
    HoldersAfterRemoval(s.calls, c, e);
  }

  lemma NextKeepsSlotLaw(s: State, a: Action, e: EventId)
    requires SlotLaw(s, e)
    ensures SlotLaw(Next(s, a), e)
  {
    match a {
      case Step(c, fault, postOk) =>
        if c in s.calls {
          StepCallKeepsSlotLaw(s, c, fault, postOk, e);
        }
      case Die(c) =>
        if c in s.calls {
          DeathKeepsSlotLaw(s, c, e);
        }
      case Begin(c, event, kind) => HoldersAfterPut(s.calls, c, Call(event, Marking(kind)), e);
      case _ =>
    }
  }

  lemma {:induction false} RunKeepsSlotLaw(actions: seq<Action>, e: EventId)
    ensures SlotLaw(Run(actions), e)
  {
    if actions == [] {
      assert Holders(Run([]), e) == {};
    } else {
      RunKeepsSlotLaw(actions[..|actions| - 1], e);
      NextKeepsSlotLaw(Run(actions[..|actions| - 1]), actions[|actions| - 1], e);
    }
  }

  /** Over every interleaving, an event recorded once is answered by at most one call, and
      while one call holds the slot no other has used it. */
  lemma OneResponsePerEvent(actions: seq<Action>, e: EventId)
    requires LedgerOf(Run(actions), e).recorded <= 1
    ensures var s := Run(actions);
            var l := LedgerOf(s, e);
            l.posted + l.suppressed + l.bookkept + |Holders(s, e)| + Bit(IsOpen(s.log, e)) <= 1
  {
    RunKeepsSlotLaw(actions, e);
  }

  /** A failed post that could give its mark back leaves the slot open for the next call,
      with nothing answered. */
  lemma {:induction false} FailedPostLeavesTheSlotWinnable(actions: seq<Action>, c: CallId, fault: Fault)
    requires var s := Run(actions);
             && c in s.calls && s.calls[c].phase.Unmarking? && !fault.NotExecuted?
             && s.calls[c].event in s.log && LedgerOf(s, s.calls[c].event).recorded == 1
    ensures var s := Run(actions);
            var e := s.calls[c].event;
            var s' := Next(s, Step(c, fault, false));
            && IsOpen(s'.log, e) && Holders(s', e) == {}
            && LedgerOf(s', e).posted + LedgerOf(s', e).suppressed + LedgerOf(s', e).bookkept == 0
            && LedgerOf(s', e).failed == LedgerOf(s, e).failed + 1
  {
    var s, e := Run(actions), Run(actions).calls[c].event;
    RunKeepsSlotLaw(actions, e);
    StepCallSlot(s, c, fault, false, e);
    StepCallKeepsSlotLaw(s, c, fault, false, e);
  }

  /* ---- one call alone ---- */

  /** A post with nobody else moving, from its mark to its end.  The last two steps are no
      steps if the call is over by then. */
  function PostedAlone(s: State, c: CallId, e: EventId, mark: Fault, postOk: bool, unmark: Fault): State {
    Next(Next(Next(Next(s, Begin(c, e, Post)), Step(c, mark, postOk)), Step(c, NoFault, postOk)),
         Step(c, unmark, postOk))
  }

  /** It takes an open slot and no other, keeps it if Slack accepts, and gives it back if not;
      the slot is lost exactly if the mark lost its reply or the way back never ran. */
  lemma PostAloneDoesExactly(s: State, c: CallId, e: EventId, mark: Fault, postOk: bool, unmark: Fault)
    requires c !in s.calls
    ensures var (s', l) := (PostedAlone(s, c, e, mark, postOk, unmark), LedgerOf(s, e));
            && s'.calls == s.calls
            && if !IsOpen(s.log, e) || mark.NotExecuted? then s'.log == s.log && LedgerOf(s', e) == l
               else if mark.NoFault? && !postOk && !unmark.NotExecuted?
               then s'.log == s.log && LedgerOf(s', e) == l.(failed := l.failed + 1)
               else && s'.log == s.log[e := Responded]
                    && LedgerOf(s', e) == if mark.NoFault? && postOk then l.(posted := l.posted + 1)
                                          else l.(lost := l.lost + 1)
  {
    var s1 := Next(s, Begin(c, e, Post));
    var s2 := Next(s1, Step(c, mark, postOk));
    assert s1.log == s.log && s1.ledgers == s.ledgers && s1.calls - {c} == s.calls;
    if c in s2.calls {
      HeldSlotEnds(s2, c, e, postOk, unmark);
      assert s2.calls - {c} == s.calls && s.log[e := Responded][e := Accepted] == s.log;
    }
  }

  lemma HeldSlotEnds(s: State, c: CallId, e: EventId, postOk: bool, unmark: Fault)
    requires c in s.calls && s.calls[c] == Call(e, Posting) && RowIn(s.log, e) == Some(Responded)
    ensures var s' := Next(Next(s, Step(c, NoFault, postOk)), Step(c, unmark, postOk));
            var l := LedgerOf(s, e);
            && s'.calls == s.calls - {c}
            && s'.log == (if postOk || unmark.NotExecuted? then s.log else s.log[e := Accepted])
            && LedgerOf(s', e) == if postOk then l.(posted := l.posted + 1)
                                  else if unmark.NotExecuted? then l.(lost := l.lost + 1)
                                  else l.(failed := l.failed + 1)
  {
    var s1 := Next(s, Step(c, NoFault, postOk));
    assert s1.log == s.log && s1.calls - {c} == s.calls - {c};
  }

  /** A call that only marks takes an open slot for good; any other it leaves alone. */
  lemma MarkAloneDoesExactly(s: State, c: CallId, e: EventId, kind: Kind, mark: Fault)
    requires c !in s.calls && !kind.Post?
    ensures var (s', l) := (Next(Next(s, Begin(c, e, kind)), Step(c, mark, true)), LedgerOf(s, e));
            && s'.calls == s.calls
            && if !IsOpen(s.log, e) || mark.NotExecuted? then s'.log == s.log && LedgerOf(s', e) == l
               else && s'.log == s.log[e := Responded]
                    && LedgerOf(s', e) == if mark.ReplyLost? then l.(lost := l.lost + 1)
                                          else if kind.Suppress? then l.(suppressed := l.suppressed + 1)
                                          else l.(bookkept := l.bookkept + 1)
  {
    var s1 := Next(s, Begin(c, e, kind));
    assert s1.log == s.log && s1.ledgers == s.ledgers && s1.calls - {c} == s.calls;
  }

  /* ---- the store and the steps as they are written ---- */

  /** `Posted`, a lost race, or an error passed on to the caller. */
  datatype PostResult = Posted | AlreadyResponded | PostError

  class EventLogStore {
    var log: map<EventId, Outcome>

    constructor ()
      ensures log == map[]
    {
      log := map[];
    }

    method RecordReceived(e: EventId) returns (inserted: bool)
      modifies this
      ensures inserted <==> e !in old(log)
      ensures log == if inserted then old(log)[e := Accepted] else old(log)
    {
      inserted := e !in log;
      if inserted {
        log := log[e := Accepted];
      }
    }

    method DeleteReceived(e: EventId)
      modifies this
      ensures log == old(log) - {e}
    {
      log := log - {e};
    }

    /** `None` is a database error; the count is 1 exactly for the call that wins. */
    method MarkResponded(e: EventId, fault: Fault) returns (updated: Option<nat>)
      modifies this
      ensures updated == if !fault.NoFault? then None else Some(Bit(IsOpen(old(log), e)))
      ensures log == if IsOpen(old(log), e) && !fault.NotExecuted? then old(log)[e := Responded] else old(log)
    {
      var open := e in log && log[e].Accepted?;
      if open && !fault.NotExecuted? {
        log := log[e := Responded];
      }
      updated := if !fault.NoFault? then None else if open then Some(1) else Some(0);
    }

    /** `None` is a database error; the count is 1 exactly if the row was responded. */
    method UnmarkResponded(e: EventId, fault: Fault) returns (updated: Option<nat>)
      modifies this
      ensures updated == if !fault.NoFault? then None else Some(Bit(RowIn(old(log), e) == Some(Responded)))
      ensures log == if RowIn(old(log), e) == Some(Responded) && !fault.NotExecuted? then old(log)[e := Accepted]
                     else old(log)
    {
      var responded := e in log && log[e].Responded?;
      if responded && !fault.NotExecuted? {
        log := log[e := Accepted];
      }
      updated := if !fault.NoFault? then None else if responded then Some(1) else Some(0);
    }

    /** Posts if and only if this call won the slot and Slack accepted; a refused post that
        can give its mark back leaves the log exactly as it was. */
    method PostFinalResponse(e: EventId, mark: Fault, unmark: Fault, postOk: bool) returns (result: PostResult)
      modifies this
      ensures result.Posted? <==> IsOpen(old(log), e) && mark.NoFault? && postOk
      ensures result.AlreadyResponded? <==> !IsOpen(old(log), e) && mark.NoFault?
      ensures log == if && IsOpen(old(log), e) && !mark.NotExecuted?
                        && (mark.ReplyLost? || postOk || unmark.NotExecuted?)
                     then old(log)[e := Responded] else old(log)
      ensures log == PostedAlone(State(old(log), map[], map[]), 0, e, mark, postOk, unmark).log
    {
      PostAloneDoesExactly(State(log, map[], map[]), 0, e, mark, postOk, unmark);
      var updated := MarkResponded(e, mark);
      if updated.None? {
        return PostError;
      }
      if updated.value == 0 {
        return AlreadyResponded;
      }
      if postOk {
        return Posted;
      }
      var reopened := UnmarkResponded(e, unmark);
      result := PostError;
    }

    method SuppressFinalResponse(e: EventId, mark: Fault) returns (responded: Option<bool>)
      modifies this
      ensures responded == if !mark.NoFault? then None else Some(IsOpen(old(log), e))
      ensures log == if IsOpen(old(log), e) && !mark.NotExecuted? then old(log)[e := Responded] else old(log)
    {
      var updated := MarkResponded(e, mark);
      responded := if updated.None? then None else Some(updated.value > 0);
    }
  }
}
