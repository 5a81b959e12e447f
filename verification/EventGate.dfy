/**
  Which Slack deliveries are acted on.  A channel mention arrives twice, as a `message` and
  as an `app_mention`, in either order and any number of times; the decision reads the log
  before the row that records it is written.
 */
module EventGate {
  import opened Shared

  type EventId = string

  datatype Subtype = NoSubtype | FileShare | OtherSubtype

  /** The Slack message an event is about, where the payload names it. */
  datatype Where = Where(team: Option<string>, channel: Option<string>, ts: Option<string>)

  /** What the thread lookups of a mention-less message found; a failed lookup counts as
      nothing found. */
  datatype Lookups = Lookups(activeTask: bool, checkpoint: bool, participation: bool)

  datatype Event =
    | MessageEvent(id: EventId, at: Where, subtype: Subtype, fromBot: bool, isDm: bool, mentionsBot: bool,
                   inThread: bool, lookups: Lookups)
    | AppMention(id: EventId, at: Where, fromBot: bool)
    | OtherEvent(id: EventId)

  datatype Reason =
    | ByMention | ByDm | ByContinuation | ByResumption | ByParticipation | ByAttachment
    | DuplicateOfMention | DuplicateOfMessage | NoContext | UnsupportedSubtype | UnsupportedEvent

  predicate Accepts(r: Reason) {
    r.ByMention? || r.ByDm? || r.ByContinuation? || r.ByResumption? || r.ByParticipation? || r.ByAttachment?
  }

  function DecideForMessage(e: Event): Reason
    requires e.MessageEvent?
  {
    if e.subtype.OtherSubtype? then UnsupportedSubtype
    else if e.isDm then ByDm
    else if e.subtype.FileShare? && e.mentionsBot then ByAttachment
    else if e.mentionsBot then DuplicateOfMention
    else if e.inThread && e.at.team.Some? && e.at.channel.Some? then
      if e.lookups.activeTask then ByResumption
      else if e.lookups.checkpoint then ByContinuation
      else if e.lookups.participation then ByParticipation
      else NoContext
    else NoContext
  }

  type Log = map<EventId, Where>

  ghost predicate HasSibling(log: Log, at: Where, exclude: EventId) {
    exists id :: id in log && id != exclude && log[id] == at
  }

  ghost function DecideForAppMention(e: Event, log: Log): Reason
    requires e.AppMention?
  {
    if e.at.team.Some? && e.at.channel.Some? && e.at.ts.Some? && HasSibling(log, e.at, e.id) then DuplicateOfMessage
    else ByMention
  }

  ghost function Decide(e: Event, log: Log): Reason {
    match e
    case MessageEvent(_, _, _, _, _, _, _, _) => DecideForMessage(e)
    case AppMention(_, _, _) => DecideForAppMention(e, log)
    case OtherEvent(_) => UnsupportedEvent
  }

  predicate IsSkipped(e: Event) {
    (!e.OtherEvent? && e.fromBot) || e.id == ""
  }

  /** `waiting`: deliveries accepted but not yet recorded.  `dispatched`: events handed to
      the dispatcher, in order. */
  datatype State = State(log: Log, waiting: multiset<Event>, dispatched: multiset<EventId>)

  datatype Action = Deliver(event: Event) | Record(event: Event)

  ghost function Next(s: State, a: Action): State {
    match a
    case Deliver(e) =>
      if !IsSkipped(e) && Accepts(Decide(e, s.log)) then s.(waiting := s.waiting + multiset{e}) else s
    case Record(e) =>
      if e !in s.waiting || e.OtherEvent? then s
      else
        var s1 := s.(waiting := s.waiting - multiset{e});
        if e.id in s.log then s1
        else s1.(log := s.log[e.id := e.at], dispatched := s.dispatched + multiset{e.id})
  }

  ghost function RunFrom(s: State, actions: seq<Action>): State {
    if actions == [] then s else Next(RunFrom(s, actions[..|actions| - 1]), actions[|actions| - 1])
  }

  ghost function Run(actions: seq<Action>): State {
    RunFrom(State(map[], multiset{}, multiset{}), actions)
  }

  /** Every event is dispatched once if it is in the log and otherwise not at all. */
  ghost predicate DispatchedOnce(s: State) {
    forall id :: s.dispatched[id] == if id in s.log then 1 else 0
  }

  lemma {:induction false} EveryEventIsDispatchedOnce(actions: seq<Action>)
    ensures DispatchedOnce(Run(actions))
  {
    if actions == [] {
    } else {
      EveryEventIsDispatchedOnce(actions[..|actions| - 1]);
    }
  }

  /* ---- which deliveries are heard ---- */

  /** A message is heard if its subtype is supported and it is a direct message, or carries a
      file and mentions the bot, or mentions nobody in a thread that is the bot's: one with a
      task that waits, a checkpoint, or the bot's earlier part in it. */
  predicate IsHeardMessage(e: Event)
    requires e.MessageEvent?
  {
    && e.subtype in {NoSubtype, FileShare}
    && (|| e.isDm
        || (e.subtype == FileShare && e.mentionsBot)
        || (&& !e.mentionsBot && e.inThread && e.at.team.Some? && e.at.channel.Some?
            && e.lookups != Lookups(false, false, false)))
  }

  /** A mention is heard unless another event about the same Slack message is on record. */
  ghost predicate IsHeardMention(e: Event, log: Log)
    requires e.AppMention?
  {
    e.at.team.None? || e.at.channel.None? || e.at.ts.None? || forall id :: id in log && id != e.id ==> log[id] != e.at
  }

  /** What is heard is a user's message or mention that has an id. */
  ghost predicate IsHeard(e: Event, log: Log) {
    && !e.OtherEvent? && !e.fromBot && e.id != ""
    && (e.MessageEvent? ==> IsHeardMessage(e)) && (e.AppMention? ==> IsHeardMention(e, log))
  }

  /** The gate lets through what is heard and nothing else. */
  lemma GateHearsExactly(e: Event, log: Log)
    ensures !IsSkipped(e) && Accepts(Decide(e, log)) <==> IsHeard(e, log)
  {
    if e.AppMention? {
      assert HasSibling(log, e.at, e.id) <==> !forall id :: id in log && id != e.id ==> log[id] != e.at;
    }
  }

  /** The reason it gives for a message, apart from the order in which it looks. */
  lemma ReasonsOfMessages(e: Event, log: Log)
    requires e.MessageEvent?
    ensures var reason := Decide(e, log);
            var supported := e.subtype in {NoSubtype, FileShare};
            var joins := && supported && !e.isDm && !e.mentionsBot
                         && e.inThread && e.at.team.Some? && e.at.channel.Some?;
            && (reason.UnsupportedSubtype? <==> !supported)
            && (reason.ByDm? <==> supported && e.isDm)
            && (reason.ByAttachment? <==> e.subtype == FileShare && !e.isDm && e.mentionsBot)
            && (reason.DuplicateOfMention? <==> e.subtype == NoSubtype && !e.isDm && e.mentionsBot)
            && (reason.ByResumption? <==> joins && e.lookups.activeTask)
            && (reason.ByContinuation? <==> joins && !e.lookups.activeTask && e.lookups.checkpoint)
            && (reason.ByParticipation? <==> joins && e.lookups == Lookups(false, false, true))
  {
  }

  /** The `i`th action delivers an event of that id which is heard at that moment. */
  ghost predicate HeardAt(actions: seq<Action>, i: nat, id: EventId)
    requires i < |actions|
  {
    actions[i].Deliver? && actions[i].event.id == id && IsHeard(actions[i].event, Run(actions[..i]).log)
  }

  ghost predicate WasHeard(actions: seq<Action>, id: EventId) {
    exists i :: 0 <= i < |actions| && HeardAt(actions, i, id)
  }

  /** The event is on record or about to be. */
  ghost predicate IsKept(s: State, id: EventId) {
    id in s.log || exists e :: e in s.waiting && e.id == id
  }

  ghost predicate NoStrayWaits(s: State) {
    forall e :: e in s.waiting ==> !e.OtherEvent?
  }

  lemma StepKeepsExactly(s: State, a: Action, id: EventId)
    requires NoStrayWaits(s)
    ensures NoStrayWaits(Next(s, a))
    ensures IsKept(Next(s, a), id) <==> IsKept(s, id) || (a.Deliver? && a.event.id == id && IsHeard(a.event, s.log))
  {
    var s' := Next(s, a);
    GateHearsExactly(a.event, s.log);
    if IsKept(s, id) && id !in s.log {
      var e :| e in s.waiting && e.id == id;
      assert e in s'.waiting || id in s'.log;
    }
    if a.Deliver? && a.event.id == id && IsHeard(a.event, s.log) {
      assert a.event in s'.waiting;
    }
    if IsKept(s', id) && !IsKept(s, id) {
      if id !in s'.log {
        var e :| e in s'.waiting && e.id == id;
        assert e in s.waiting || a == Deliver(e);
      }
    }
  }

  lemma {:induction false} KeptExactlyWhenHeard(actions: seq<Action>, id: EventId)
    ensures NoStrayWaits(Run(actions)) && (IsKept(Run(actions), id) <==> WasHeard(actions, id))
  {
    if actions == [] {
    } else {
      var n := |actions| - 1;
      KeptExactlyWhenHeard(actions[..n], id);
      StepKeepsExactly(Run(actions[..n]), actions[n], id);
      HeardAppends(actions, id);
    }
  }

  lemma HeardAppends(actions: seq<Action>, id: EventId)
    requires actions != []
    ensures var n := |actions| - 1; WasHeard(actions, id) <==> WasHeard(actions[..n], id) || HeardAt(actions, n, id)
  {
    var n := |actions| - 1;
    forall i | 0 <= i < n ensures HeardAt(actions[..n], i, id) <==> HeardAt(actions, i, id) {
      assert actions[..n][..i] == actions[..i];
    }
    if WasHeard(actions, id) {
      var i :| 0 <= i < |actions| && HeardAt(actions, i, id);
      assert i < n ==> HeardAt(actions[..n], i, id);
    }
    if WasHeard(actions[..n], id) {
      var i :| 0 <= i < n && HeardAt(actions[..n], i, id);
      assert HeardAt(actions, i, id);
    }
  }

  /** Over any run, once everything accepted is recorded: an event is dispatched exactly once
      if some delivery of it was heard, and never otherwise, in particular if it came from a
      bot or has no id. */
  lemma {:induction false} DispatchedExactlyWhenHeard(actions: seq<Action>, id: EventId)
    requires Run(actions).waiting == multiset{}
    ensures Run(actions).dispatched[id] == if WasHeard(actions, id) then 1 else 0
  {
    EveryEventIsDispatchedOnce(actions);
    KeptExactlyWhenHeard(actions, id);
  }

  /** Messages are heard whatever is on record: a user's direct message, or a reply in a thread
      of the bot's, once delivered is dispatched exactly once. */
  lemma {:induction false} HeardMessageIsDispatchedOnce(actions: seq<Action>, e: Event)
    requires Run(actions).waiting == multiset{} && Deliver(e) in actions
    requires e.MessageEvent? && !e.fromBot && e.id != "" && IsHeardMessage(e)
    ensures Run(actions).dispatched[e.id] == 1
  {
    var i :| 0 <= i < |actions| && actions[i] == Deliver(e);
    assert HeardAt(actions, i, e.id);
    DispatchedExactlyWhenHeard(actions, e.id);
  }

  /* ---- one mention, delivered as a pair ---- */

  /** The two events of one channel mention by a user; the message names its place. */
  predicate IsPair(m: Event, a: Event) {
    && m.MessageEvent? && a.AppMention? && m.id != a.id && m.id != "" && a.id != ""
    && !m.fromBot && !a.fromBot && !m.isDm && m.mentionsBot && !m.subtype.OtherSubtype?
    && m.at == a.at && m.at.team.Some? && m.at.channel.Some? && m.at.ts.Some?
  }

  /** The event is one of the pair, or neither about their Slack message nor under their ids. */
  predicate IsApart(x: Event, m: Event, a: Event)
    requires IsPair(m, a)
  {
    x == m || x == a || x.OtherEvent? || (x.at != m.at && x.id != m.id && x.id != a.id)
  }

  predicate OnlyPair(actions: seq<Action>, m: Event, a: Event)
    requires IsPair(m, a)
  {
    forall x :: x in actions ==> IsApart(x.event, m, a)
  }

  function DispatchesOf(s: State, m: Event, a: Event): nat {
    s.dispatched[m.id] + s.dispatched[a.id]
  }

  /** What the log and the waiting deliveries can hold about the pair. */
  ghost predicate PairOnly(s: State, m: Event, a: Event)
    requires IsPair(m, a)
  {
    && (forall id :: id in s.log && s.log[id] == m.at ==> id == m.id || id == a.id)
    && (forall e :: e in s.waiting ==> IsApart(e, m, a) && !e.OtherEvent?)
    && (m.id in s.log ==> s.log[m.id] == m.at) && (a.id in s.log ==> s.log[a.id] == m.at)
    && (!m.subtype.FileShare? ==> m.id !in s.log && m !in s.waiting)
  }

  lemma DeliverKeepsPairOnly(s: State, e: Event, m: Event, a: Event)
    requires IsPair(m, a) && PairOnly(s, m, a) && IsApart(e, m, a)
    ensures PairOnly(Next(s, Deliver(e)), m, a)
  {
  }

  lemma RecordKeepsPairOnly(s: State, e: Event, m: Event, a: Event)
    requires IsPair(m, a) && PairOnly(s, m, a) && IsApart(e, m, a)
    ensures PairOnly(Next(s, Record(e)), m, a)
  {
  }

  /** Is the event on record, or accepted and about to be? */
  predicate Has(s: State, e: Event) {
    e.id in s.log || e in s.waiting
  }

  /** One step: a delivery of the message is kept if it has a file; nothing kept is lost, and
      nothing else is kept. */
  lemma StepOnMessage(s: State, x: Action, m: Event, a: Event)
    requires IsPair(m, a) && PairOnly(s, m, a) && IsApart(x.event, m, a)
    ensures Has(Next(s, x), m) <==> Has(s, m) || (x == Deliver(m) && m.subtype.FileShare?)
  {
  }

  /** The same for the app_mention, which is kept unless the message is on record. */
  lemma StepOnMention(s: State, x: Action, m: Event, a: Event)
    requires IsPair(m, a) && PairOnly(s, m, a) && IsApart(x.event, m, a)
    ensures Has(Next(s, x), a) <==> Has(s, a) || (x == Deliver(a) && m.id !in s.log)
  {
    if x == Deliver(a) {
      if m.id in s.log {
        assert HasSibling(s.log, a.at, a.id);
      } else {
        assert !HasSibling(s.log, a.at, a.id);
      }
    }
  }

  lemma {:induction false} PairStaysOnly(actions: seq<Action>, m: Event, a: Event)
    requires IsPair(m, a) && OnlyPair(actions, m, a)
    ensures PairOnly(Run(actions), m, a)
  {
    if actions == [] {
    } else {
      var n := |actions| - 1;
      assert actions[n] in actions && forall x :: x in actions[..n] ==> x in actions;
      PairStaysOnly(actions[..n], m, a);
      match actions[n]
      case Deliver(e) => DeliverKeepsPairOnly(Run(actions[..n]), e, m, a);
      case Record(e) => RecordKeepsPairOnly(Run(actions[..n]), e, m, a);
    }
  }

  /** The last step of a run, on the pair. */
  lemma {:induction false} LastStepOnPair(actions: seq<Action>, m: Event, a: Event)
    requires IsPair(m, a) && OnlyPair(actions, m, a) && actions != []
    ensures var n := |actions| - 1;
            var s, s' := Run(actions[..n]), Run(actions);
            && OnlyPair(actions[..n], m, a)
            && (Has(s', m) <==> Has(s, m) || (actions[n] == Deliver(m) && m.subtype.FileShare?))
            && (Has(s', a) <==> Has(s, a) || (actions[n] == Deliver(a) && m.id !in s.log))
            && (Delivered(actions, m) <==> Delivered(actions[..n], m) || actions[n] == Deliver(m))
            && (Delivered(actions, a) <==> Delivered(actions[..n], a) || actions[n] == Deliver(a))
            && (!m.subtype.FileShare? ==> m.id !in s.log)
            && (m.id in s.log ==> Has(s, m))
  {
    var n := |actions| - 1;
    assert actions == actions[..n] + [actions[n]];
    assert actions[n] in actions && forall x :: x in actions[..n] ==> x in actions;
    PairStaysOnly(actions[..n], m, a);
    StepOnMessage(Run(actions[..n]), actions[n], m, a);
    StepOnMention(Run(actions[..n]), actions[n], m, a);
  }

  predicate Delivered(actions: seq<Action>, e: Event) {
    Deliver(e) in actions
  }

  /** A mention without a file: whatever the order and the repetitions, once everything
      accepted is recorded it has been dispatched exactly once if its app_mention was
      delivered, and not otherwise. */
  lemma {:induction false} PlainMentionIsDispatchedOnce(actions: seq<Action>, m: Event, a: Event)
    requires IsPair(m, a) && OnlyPair(actions, m, a) && !m.subtype.FileShare?
    requires Run(actions).waiting == multiset{}
    ensures DispatchesOf(Run(actions), m, a) == if Delivered(actions, a) then 1 else 0
  {
    EveryEventIsDispatchedOnce(actions);
    PairStaysOnly(actions, m, a);
    MentionIsKept(actions, m, a);
  }

  /** A plain mention's app_mention is never lost between its delivery and its record. */
  lemma {:induction false} MentionIsKept(actions: seq<Action>, m: Event, a: Event)
    requires IsPair(m, a) && OnlyPair(actions, m, a) && !m.subtype.FileShare?
    ensures Has(Run(actions), a) <==> Delivered(actions, a)
  {
    if actions == [] {
    } else {
      LastStepOnPair(actions, m, a);
      MentionIsKept(actions[..|actions| - 1], m, a);
    }
  }

  /** With a file: at least once as soon as either delivery came, and never the same
      delivery twice. */
  lemma {:induction false} AttachedMentionIsDispatched(actions: seq<Action>, m: Event, a: Event)
    requires IsPair(m, a) && OnlyPair(actions, m, a) && m.subtype.FileShare?
    requires Run(actions).waiting == multiset{}
    requires Delivered(actions, m) || Delivered(actions, a)
    ensures 1 <= DispatchesOf(Run(actions), m, a) <= 2
    ensures Run(actions).dispatched[m.id] <= 1 && Run(actions).dispatched[a.id] <= 1
  {
    EveryEventIsDispatchedOnce(actions);
    PairStaysOnly(actions, m, a);
    PairIsKept(actions, m, a);
  }

  lemma {:induction false} PairIsKept(actions: seq<Action>, m: Event, a: Event)
    requires IsPair(m, a) && OnlyPair(actions, m, a) && m.subtype.FileShare?
    ensures Has(Run(actions), m) <==> Delivered(actions, m)
    ensures Delivered(actions, a) ==> Has(Run(actions), a) || Has(Run(actions), m)
  {
    if actions == [] {
    } else {
      LastStepOnPair(actions, m, a);
      PairIsKept(actions[..|actions| - 1], m, a);
    }
  }

  /** Some delivery of the app_mention was checked before the message was on record. */
  ghost predicate MentionCheckedFirst(actions: seq<Action>, m: Event, a: Event) {
    exists i :: 0 <= i < |actions| && CheckedAt(actions, i, m, a)
  }

  ghost predicate CheckedAt(actions: seq<Action>, i: nat, m: Event, a: Event)
    requires i < |actions|
  {
    actions[i] == Deliver(a) && m.id !in Run(actions[..i]).log
  }

  lemma {:induction false} CheckedFirstExactlyWhen(actions: seq<Action>, m: Event, a: Event)
    requires IsPair(m, a) && OnlyPair(actions, m, a)
    ensures MentionCheckedFirst(actions, m, a) <==> Has(Run(actions), a)
  {
    if actions == [] {
    } else {
      LastStepOnPair(actions, m, a);
      CheckedFirstExactlyWhen(actions[..|actions| - 1], m, a);
      CheckedFirstAppends(actions, m, a);
    }
  }

  lemma CheckedInPrefix(actions: seq<Action>, n: nat, i: nat, m: Event, a: Event)
    requires i < n <= |actions|
    ensures CheckedAt(actions[..n], i, m, a) <==> CheckedAt(actions, i, m, a)
  {
    assert actions[..n][..i] == actions[..i];
  }

  lemma CheckedFirstAppends(actions: seq<Action>, m: Event, a: Event)
    requires actions != []
    ensures var n := |actions| - 1;
            MentionCheckedFirst(actions, m, a) <==>
              MentionCheckedFirst(actions[..n], m, a) || CheckedAt(actions, n, m, a)
  {
    var n := |actions| - 1;
    if MentionCheckedFirst(actions[..n], m, a) {
      var i :| 0 <= i < n && CheckedAt(actions[..n], i, m, a);
      CheckedInPrefix(actions, n, i, m, a);
    }
    if MentionCheckedFirst(actions, m, a) {
      var i :| 0 <= i < |actions| && CheckedAt(actions, i, m, a);
      if i < n {
        CheckedInPrefix(actions, n, i, m, a);
      }
    }
  }

  /** It is dispatched exactly once unless both deliveries got through, which happens
      exactly when the message came and some app_mention was checked before it was on
      record. */
  lemma {:induction false} AttachedMentionTwiceExactlyWhen(actions: seq<Action>, m: Event, a: Event)
    requires IsPair(m, a) && OnlyPair(actions, m, a) && m.subtype.FileShare?
    requires Run(actions).waiting == multiset{}
    ensures DispatchesOf(Run(actions), m, a) == 2 <==> Delivered(actions, m) && MentionCheckedFirst(actions, m, a)
  {
    EveryEventIsDispatchedOnce(actions);
    CheckedFirstExactlyWhen(actions, m, a);
    PairIsKept(actions, m, a);
  }

  /* ---- the handler itself ---- */

  /** A delivery that is heard, of an event not on record yet. */
  ghost predicate IsNew(log: Log, e: Event) {
    IsHeard(e, log) && e.id !in log
  }

  /** A delivery handled without another in between. */
  lemma OneDelivery(log: Log, dispatched: multiset<EventId>, e: Event)
    ensures Next(Next(State(log, multiset{}, dispatched), Deliver(e)), Record(e))
         == if IsNew(log, e) then State(log[e.id := e.at], multiset{}, dispatched + multiset{e.id})
            else State(log, multiset{}, dispatched)
  {
    GateHearsExactly(e, log);
  }

  lemma {:induction false} Handled(actions: seq<Action>, e: Event) returns (actions': seq<Action>)
    requires Run(actions).waiting == multiset{}
    ensures actions' == actions + [Deliver(e), Record(e)]
    ensures var s := Run(actions);
            Run(actions') == if IsNew(s.log, e)
                             then State(s.log[e.id := e.at], multiset{}, s.dispatched + multiset{e.id}) else s
  {
    actions' := actions + [Deliver(e), Record(e)];
    var middle := actions + [Deliver(e)];
    assert actions'[..|actions| + 1] == middle && middle[..|actions|] == actions;
    assert Run(middle) == Next(Run(actions), Deliver(e)) && Run(actions') == Next(Run(middle), Record(e));
    OneDelivery(Run(actions).log, Run(actions).dispatched, e);
  }

  /** The app_mention of a pair is handled first. */
  lemma {:induction false} MentionIsHandledFirst(m: Event, a: Event) returns (actions: seq<Action>)
    requires IsPair(m, a)
    ensures actions == [Deliver(a), Record(a)]
    ensures Run(actions) == State(map[a.id := a.at], multiset{}, multiset{a.id})
  {
    actions := [];
    assert !HasSibling(map[], a.at, a.id) && IsNew(map[], a);
    actions := Handled(actions, a);
    assert map[][a.id := a.at] == map[a.id := a.at];
  }

  /** Then the message, which has a file, comes. */
  lemma {:induction false} MessageIsHandledNext(m: Event, a: Event) returns (actions: seq<Action>)
    requires IsPair(m, a) && m.subtype.FileShare?
    ensures actions == [Deliver(a), Record(a), Deliver(m), Record(m)]
    ensures Run(actions).waiting == multiset{} && Run(actions).dispatched == multiset{a.id, m.id}
  {
    actions := MentionIsHandledFirst(m, a);
    assert IsNew(Run(actions).log, m);
    actions := Handled(actions, m);
  }

  /** So every mention with a file may be dispatched twice. */
  lemma AttachedMentionMayBeDispatchedTwice(m: Event, a: Event) returns (actions: seq<Action>)
    requires IsPair(m, a) && m.subtype.FileShare?
    ensures OnlyPair(actions, m, a) && Run(actions).waiting == multiset{} && DispatchesOf(Run(actions), m, a) == 2
  {
    actions := MessageIsHandledNext(m, a);
  }

  lemma PairsExist() returns (m: Event, a: Event)
    ensures IsPair(m, a) && m.subtype.FileShare?
  {
    var at := Where(Some("team"), Some("channel"), Some("ts"));
    m := MessageEvent("m", at, FileShare, false, false, true, false, Lookups(false, false, false));
    a := AppMention("a", at, false);
    assert m.id[0] != a.id[0];
  }

  /** How its calls fare, should the handler come to them. */
  datatype Faults = Faults(lookupFails: bool, record: Fault, onAcceptedFails: bool, delete: Fault)

  /** The handler never gets to the log. */
  predicate StopsAtLookup(e: Event, f: Faults) {
    f.lookupFails && e.AppMention? && !IsSkipped(e) && e.at.team.Some? && e.at.channel.Some? && e.at.ts.Some?
  }

  ghost predicate Reaches(log: Log, e: Event, f: Faults) {
    !StopsAtLookup(e, f) && IsNew(log, e)
  }

  /** `runOnEvent` over the log, with the events its `onAccepted` took. */
  class EventIntake {
    var log: Log
    var dispatched: multiset<EventId>

    constructor ()
      ensures log == map[] && dispatched == multiset{}
    {
      log, dispatched := map[], multiset{};
    }

    /** `None`: the lookup it needed failed. */
    method DecideForMention(e: Event, lookupFails: bool) returns (decision: Option<Reason>)
      requires e.AppMention?
      ensures decision == if lookupFails && e.at.team.Some? && e.at.channel.Some? && e.at.ts.Some? then None
                          else Some(DecideForAppMention(e, log))
    {
      if e.at.team.Some? && e.at.channel.Some? && e.at.ts.Some? {
        if lookupFails {
          return None;
        }
        if exists id | id in log :: id != e.id && log[id] == e.at {
          return Some(DuplicateOfMessage);
        }
      }
      return Some(ByMention);
    }

    /** Handles one delivery.  A delivery the gate lets through is dispatched exactly if its
        row is recorded and `onAccepted` takes it; its row stays exactly if it was dispatched,
        its insert ran and lost its reply, or it could not be rolled back.  Nothing else
        changes either; without faults there is no error, and a failed lookup stops the rest. */
    method RunOnEvent(e: Event, f: Faults) returns (ok: bool)
      modifies this
      ensures f == Faults(false, NoFault, false, f.delete) ==> ok
      ensures && f.lookupFails && e.AppMention? && !e.fromBot && e.id != ""
              && e.at.team.Some? && e.at.channel.Some? && e.at.ts.Some?
              ==> !ok && log == old(log) && dispatched == old(dispatched)
      ensures log == if && Reaches(old(log), e, f)
                        && (f.record.ReplyLost?
                            || (f.record.NoFault? && (!f.onAcceptedFails || f.delete.NotExecuted?)))
                     then old(log)[e.id := e.at] else old(log)
      ensures dispatched == if Reaches(old(log), e, f) && f.record.NoFault? && !f.onAcceptedFails
                            then old(dispatched) + multiset{e.id} else old(dispatched)
      ensures ok && Reaches(old(log), e, f) ==> dispatched == old(dispatched) + multiset{e.id}
    {
      GateHearsExactly(e, log);
      if IsSkipped(e) || e.OtherEvent? {
        return true;
      }
      if e.AppMention? {
        var decision := DecideForMention(e, f.lookupFails);
        if decision.None? {
          return false;
        }
        if !Accepts(decision.value) {
          return true;
        }
      } else if !Accepts(DecideForMessage(e)) {
        return true;
      }
      if e.id !in log && !f.record.NotExecuted? {
        log := log[e.id := e.at];
        if f.record.NoFault? {
          ok := Accept(e, f);
          return;
        }
      }
      return f.record.NoFault?;
    }

    /** `onAccepted` for a row just recorded, which a failure rolls back. */
    method Accept(e: Event, f: Faults) returns (ok: bool)
      requires e.id in log
      modifies this
      ensures ok <==> !f.onAcceptedFails
      ensures log == if f.onAcceptedFails && !f.delete.NotExecuted? then old(log) - {e.id} else old(log)
      ensures dispatched == if f.onAcceptedFails then old(dispatched) else old(dispatched) + multiset{e.id}
    {
      if f.onAcceptedFails {
        if !f.delete.NotExecuted? {
          log := log - {e.id};
        }
        return false;
      }
      dispatched := dispatched + multiset{e.id};
      return true;
    }
  }

  /** A row that stays behind an error hides its event: whatever is delivered later, it is
      not dispatched again. */
  lemma {:induction false} RecordedIsNeverDispatchedAgain(s: State, actions: seq<Action>, id: EventId)
    requires id in s.log
    ensures id in RunFrom(s, actions).log && RunFrom(s, actions).dispatched[id] == s.dispatched[id]
  {
    if actions == [] {
    } else {
      RecordedIsNeverDispatchedAgain(s, actions[..|actions| - 1], id);
    }
  }
}
