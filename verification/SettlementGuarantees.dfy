/**
  What the settlement protocol promises over every run from an empty table: any
  interleaving, any database fault, any actor dying at any await.
 */
module SettlementGuarantees {
  import opened Shared
  import opened A2aTaskTracker
  import opened Settlement
  import opened SettlementRuns

  ghost function After(start: Time, actions: seq<Action>): World {
    Run(Initial(start), actions)
  }

  lemma ReachableIsBalanced(start: Time, actions: seq<Action>, id: TaskId)
    ensures Balanced(BooksOf(After(start, actions), id))
  {
    var w := Initial(start);
    assert forall g: Group :: Members(w.actors, g) == {};
    assert BooksOf(w, id) == Books(None, Blank(), 0, 0, 0);
    RunKeepsLaw(w, actions, id);
  }

  /** At most one answer per inserted row: one insertion, at most one delivery, and never
      two actors owing an answer. */
  lemma AtMostOneAnswer(start: Time, actions: seq<Action>, id: TaskId)
    ensures var w := After(start, actions);
            LedgerOf(w, id).delivered + Debtors(w, id, OwesAnswer) <= LedgerOf(w, id).inserted
  {
    ReachableIsBalanced(start, actions, id);
  }

  /** The ways a row recorded once and never pruned can stand settled. */
  datatype Disposition = Delivered | StillOwed | Replaced | FinishedByReply | SettledByRevert | LostToFault

  function Tally(b: Books, d: Disposition): nat {
    match d
    case Delivered => b.ledger.delivered
    case StillOwed => b.answers
    case Replaced => b.ledger.replaced
    case FinishedByReply => b.ledger.finished
    case SettledByRevert => b.ledger.reverted
    case LostToFault => b.ledger.lost
  }

  /** No answer is lost silently: a settled row is in a terminal state and has exactly one
      disposition; an unsettled one has none. */
  lemma EverySettleIsAccountedFor(start: Time, actions: seq<Action>, id: TaskId)
    requires var l := LedgerOf(After(start, actions), id); l.inserted == 1 && l.pruned == 0
    ensures var w := After(start, actions);
            var b := BooksOf(w, id);
            && id in w.table
            && (w.table[id].settled ==> IsTerminal(w.table[id].state))
            && (w.table[id].settled <==> exists d :: Tally(b, d) == 1)
            && (forall d :: Tally(b, d) <= 1)
            && (forall d, e :: Tally(b, d) == 1 && Tally(b, e) == 1 ==> d == e)
  {
    ReachableIsBalanced(start, actions, id);
    var b := BooksOf(After(start, actions), id);
    assert b.ledger.orphaned == 0 && b.row.Some?;
    var all := Tally(b, Delivered) + Tally(b, StillOwed) + Tally(b, Replaced)
             + Tally(b, FinishedByReply) + Tally(b, SettledByRevert) + Tally(b, LostToFault);
    assert all == Bit(b.row.value.settled);
  }

  /** A step in which no database call fails and no actor dies. */
  predicate IsCalm(a: Action) {
    match a
    case Step(_, o) => o.lookup.NoFault? && o.expire.NoFault? && o.commit.NoFault? && o.undo.NoFault?
    case Die(_) => false
    case AbortRun(_) => false
    case FinishRun(_, fault) => fault.NoFault?
    case _ => true
  }

  lemma CalmStepLosesNothing(r: Option<Row>, l: Ledger, p: Phase, o: Oracle, now: Time)
    requires o.expire.NoFault? && o.commit.NoFault? && o.undo.NoFault?
    ensures PhaseStep(r, l, p, o, now).ledger.lost == l.lost
    ensures PhaseStep(r, l, p, o, now).ledger.uncounted == l.uncounted
  {
  }

  /** Without database errors and crashes the last disposition does not occur. */
  lemma {:induction false} CalmRunLosesNothing(start: Time, actions: seq<Action>, id: TaskId)
    requires forall a :: a in actions ==> IsCalm(a)
    ensures LedgerOf(After(start, actions), id).lost == 0
    ensures After(start, actions).totals.aborted == 0 && After(start, actions).totals.uncounted == 0
  {
    if actions == [] {
    } else {
      var n := |actions| - 1;
      CalmRunLosesNothing(start, actions[..n], id);
      CalmNextLosesNothing(After(start, actions[..n]), actions[n], id);
    }
  }

  lemma CalmNextLosesNothing(w: World, a: Action, id: TaskId)
    requires IsCalm(a)
    ensures LedgerOf(Next(w, a), id).lost == LedgerOf(w, id).lost
    ensures Next(w, a).totals.aborted == w.totals.aborted && Next(w, a).totals.uncounted == w.totals.uncounted
  {
    if a.Step? && a.actor in w.actors {
      var me := w.actors[a.actor];
      CalmStepLosesNothing(RowOf(w.table, me.task), LedgerOf(w, me.task), me.phase, a.oracle, w.now);
    }
  }

  /** Between any two moments of a run, at most one more entry into input-required than
      exits from it: two questions for one task never belong to one episode. */
  lemma OneQuestionPerEpisode(start: Time, earlier: seq<Action>, later: seq<Action>, id: TaskId)
    ensures var l, m := LedgerOf(After(start, earlier), id), LedgerOf(After(start, earlier + later), id);
            && m.asked + m.unasked + Debtors(After(start, earlier + later), id, OwesQuestion) == m.entered
            && m.entered - l.entered <= m.left - l.left + 1 - (m.bornAsking - l.bornAsking)
  {
    ReachableIsBalanced(start, earlier, id);
    ReachableIsBalanced(start, earlier + later, id);
  }
}
