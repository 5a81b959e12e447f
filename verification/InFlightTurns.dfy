/**
  The registry of turns in flight: it keeps a message that is a turn of its own from also
  being told to another turn as context
  (src/plugins/llm-agent/in-flight-turns.ts, src/plugins/llm-agent/dispatcher.ts).
 */
module InFlightTurns {
  import opened Shared
  import opened ThreadContext
  import opened ThreadTurns

  /** A thread's channel is fixed, so a turn is keyed by its thread and its trigger. */
  datatype TurnKey = TurnKey(thread: ThreadId, ts: Ts)

  /** What had happened when a call synced its context: how many calls had come, and which
      had finished their key. */
  datatype Moment = Moment(calls: nat, finished: set<CallId>)

  /** `keys` is the registry, `finished` the calls that have withdrawn their key, and `seen`
      the moment of each call's sync. */
  datatype Site = Site(turns: State, keys: set<TurnKey>, finished: set<CallId>, seen: map<CallId, Moment>)

  /** A turn starts its key before it enters the queue, and finishes it when its function is
      over or later. */
  datatype Event = Move(action: Action) | Finish(call: CallId)

  predicate IsOver(stage: Stage) {
    stage.Returned? || stage.Released?
  }

  function KeyOf(call: Call): TurnKey {
    TurnKey(call.thread, call.triggerTs)
  }

  /** The registry as a sync finds it, and Slack: a message that triggered a turn is a
      user's, never a bot's. */
  ghost predicate SyncSees(site: Site, th: ThreadId, sync: Sync) {
    sync.Replies? ==>
      && (forall key :: key in site.keys && key.thread == th ==> key.ts in sync.inFlight)
      && (PagesFrom(sync.replies, 0).Some? ==>
            forall m, c :: m in PagesFrom(sync.replies, 0).value.messages && 0 <= c < |site.turns.calls|
                           && site.turns.calls[c].thread == th && m.ts == Some(site.turns.calls[c].triggerTs)
                           ==> m.botId.None? && m.userId != Some(sync.botUserId))
  }

  /** Syncs read the registry. */
  ghost predicate IsPossible(site: Site, a: Action) {
    && Enabled(site.turns, a, true)
    && (a.SyncContext? ==> SyncSees(site, site.turns.calls[a.call].thread, a.sync))
  }

  ghost function After(site: Site, e: Event): Site {
    match e
    case Move(a) =>
      if !IsPossible(site, a) then site
      else Site(ThreadTurns.Next(site.turns, a, true),
                if a.Enter? then site.keys + {TurnKey(a.thread, a.triggerTs)} else site.keys,
                site.finished,
                if a.SyncContext? then site.seen[a.call := Moment(|site.turns.calls|, site.finished)] else site.seen)
    case Finish(c) =>
      if c < |site.turns.calls| && IsOver(site.turns.calls[c].stage)
      then site.(keys := site.keys - {KeyOf(site.turns.calls[c])}, finished := site.finished + {c})
      else site
  }

  ghost function AfterAll(events: seq<Event>): Site {
    if events == [] then Site(ThreadTurns.EMPTY, {}, {}, map[])
    else After(AfterAll(events[..|events| - 1]), events[|events| - 1])
  }

  // ---- what every step keeps ----

  /** Another call with the same trigger has withdrawn the key that both share. */
  ghost predicate LostToTwin(calls: seq<Call>, finished: set<CallId>, c: CallId)
    requires c < |calls|
  {
    exists d :: d in finished && d != c && d < |calls| && KeyOf(calls[d]) == KeyOf(calls[c])
  }

  /** A call's key is registered until it is over, unless a twin's finish took it. */
  ghost predicate Registered(site: Site) {
    && (forall c :: c in site.finished ==> c < |site.turns.calls| && IsOver(site.turns.calls[c].stage))
    && (forall c :: 0 <= c < |site.turns.calls| && !IsOver(site.turns.calls[c].stage)
                    ==> KeyOf(site.turns.calls[c]) in site.keys || LostToTwin(site.turns.calls, site.finished, c))
  }

  /** Of the calls that had come when `t` was synced, it was told no trigger but those of
      earlier turns that failed, and those whose key a twin had withdrawn. */
  ghost predicate IsUnmixed(site: Site, th: ThreadId, t: Turn) {
    var calls := site.turns.calls;
    && t.call < |calls| && calls[t.call].thread == th && t.turnTs == calls[t.call].triggerTs
    && t.call in site.seen && t.call < site.seen[t.call].calls <= |calls|
    && forall d :: 0 <= d < site.seen[t.call].calls && calls[d].thread == th && calls[d].triggerTs in t.injected
                   ==> (d < t.call && calls[d].stage == Released(false))
                       || LostToTwin(calls, site.seen[t.call].finished, d)
  }

  predicate Carries(call: Call) {
    call.stage.Prepared? || call.stage.Invoking?
  }

  ghost predicate Unmixed(site: Site) {
    && (forall th, t :: t in HistoryOf(site.turns, th) ==> IsUnmixed(site, th, t))
    && (forall c :: 0 <= c < |site.turns.calls| && Carries(site.turns.calls[c])
                    ==> IsUnmixed(site, site.turns.calls[c].thread, site.turns.calls[c].stage.turn))
  }

  ghost predicate Lawful(site: Site) {
    Orderly(site.turns) && Faithful(site.turns) && Registered(site) && Unmixed(site)
  }

  /** What a step leaves as it was: threads, triggers, and how a call ended. */
  ghost predicate CallsGrow(s: State, s': State) {
    && |s.calls| <= |s'.calls|
    && forall c :: 0 <= c < |s.calls| ==>
         && s'.calls[c].thread == s.calls[c].thread && s'.calls[c].triggerTs == s.calls[c].triggerTs
         && (s.calls[c].stage.Released? ==> s'.calls[c].stage == s.calls[c].stage)
  }

  lemma NextGrowsCalls(s: State, a: Action)
    ensures CallsGrow(s, ThreadTurns.Next(s, a, true))
  {
  }

  lemma TwinsStay(s: State, s': State, finished: set<CallId>, finished': set<CallId>, c: CallId)
    requires CallsGrow(s, s') && finished <= finished' && c < |s.calls|
    requires LostToTwin(s.calls, finished, c)
    ensures LostToTwin(s'.calls, finished', c)
  {
    var d :| d in finished && d != c && d < |s.calls| && KeyOf(s.calls[d]) == KeyOf(s.calls[c]);
    assert KeyOf(s'.calls[d]) == KeyOf(s'.calls[c]);
  }

  /** What is over stays over, and what is not yet was not before. */
  lemma NextKeepsOver(s: State, a: Action, c: CallId)
    requires c < |s.calls|
    ensures IsOver(s.calls[c].stage) ==> IsOver(ThreadTurns.Next(s, a, true).calls[c].stage)
  {
  }

  lemma NextKeepsRegistered(site: Site, a: Action)
    requires Registered(site)
    ensures Registered(After(site, Move(a)))
  {
    var site' := After(site, Move(a));
    NextGrowsCalls(site.turns, a);
    forall c | 0 <= c < |site'.turns.calls| && !IsOver(site'.turns.calls[c].stage)
      ensures KeyOf(site'.turns.calls[c]) in site'.keys || LostToTwin(site'.turns.calls, site'.finished, c)
    {
      if c < |site.turns.calls| {
        NextKeepsOver(site.turns, a, c);
        if LostToTwin(site.turns.calls, site.finished, c) {
          TwinsStay(site.turns, site'.turns, site.finished, site'.finished, c);
        }
      }
    }
    forall c | c in site.finished ensures c < |site'.turns.calls| && IsOver(site'.turns.calls[c].stage) {
      NextKeepsOver(site.turns, a, c);
    }
  }

  lemma FinishKeepsRegistered(site: Site, c: CallId)
    requires Registered(site)
    ensures Registered(After(site, Finish(c)))
  {
    var site', calls := After(site, Finish(c)), site.turns.calls;
    forall d | 0 <= d < |calls| && !IsOver(calls[d].stage)
      ensures KeyOf(calls[d]) in site'.keys || LostToTwin(calls, site'.finished, d)
    {
      if LostToTwin(calls, site.finished, d) {
        TwinsStay(site.turns, site'.turns, site.finished, site'.finished, d);
      } else if KeyOf(calls[d]) !in site'.keys {
        assert c in site'.finished && c != d && KeyOf(calls[c]) == KeyOf(calls[d]);
      }
    }
  }

  lemma FinishKeepsUnmixed(site: Site, c: CallId)
    requires Unmixed(site)
    ensures Unmixed(After(site, Finish(c)))
  {
    var site' := After(site, Finish(c));
    forall th: ThreadId, t: Turn | IsUnmixed(site, th, t) ensures IsUnmixed(site', th, t) {
      UnmixedSurvives(site, site', th, t);
    }
  }

  lemma UnmixedSurvives(site: Site, site': Site, th: ThreadId, t: Turn)
    requires IsUnmixed(site, th, t) && CallsGrow(site.turns, site'.turns)
    requires t.call in site'.seen && site'.seen[t.call] == site.seen[t.call]
    ensures IsUnmixed(site', th, t)
  {
    var calls, calls', moment := site.turns.calls, site'.turns.calls, site.seen[t.call];
    forall d | 0 <= d < moment.calls && calls'[d].thread == th && calls'[d].triggerTs in t.injected
      ensures (d < t.call && calls'[d].stage == Released(false)) || LostToTwin(calls', moment.finished, d)
    {
      assert calls[d].thread == th && calls[d].triggerTs in t.injected;
      if LostToTwin(calls, moment.finished, d) {
        TwinsStay(site.turns, site'.turns, moment.finished, moment.finished, d);
      }
    }
  }

  /** A call that is still to sync has left no turn anywhere. */
  lemma SyncingHasNoTurn(s: State, c: CallId, th: ThreadId, t: Turn)
    requires Faithful(s) && c < |s.calls| && s.calls[c].stage.Syncing?
    requires t in HistoryOf(s, th)
    ensures t.call != c
  {
    SuccessfulTurn(s, th, t);
  }

  lemma SuccessfulTurn(s: State, th: ThreadId, t: Turn)
    requires Faithful(s) && t in HistoryOf(s, th)
    ensures t.call < |s.calls| && Succeeded(s.calls[t.call])
  {
    var h := HistoryOf(s, th);
    var i :| 0 <= i < |h| && h[i] == t;
    SuccessesAre(s.calls, th, |s.calls|);
    assert CallsOf(h)[i] == t.call;
    assert CallsOf(h)[i] in Successes(s.calls, th, |s.calls|);
  }

  lemma {:induction false} SuccessesAre(calls: seq<Call>, th: ThreadId, n: nat)
    requires n <= |calls|
    ensures forall c: CallId :: c in Successes(calls, th, n) <==> c < n && calls[c].thread == th && Succeeded(calls[c])
  {
    if n == 0 {
    } else {
      SuccessesAre(calls, th, n - 1);
    }
  }

  lemma TurnOfSuccess(s: State, th: ThreadId, c: CallId) returns (t: Turn)
    requires Faithful(s) && c < |s.calls| && s.calls[c].thread == th && Succeeded(s.calls[c])
    ensures t in HistoryOf(s, th) && t.call == c
  {
    SuccessesAre(s.calls, th, |s.calls|);
    var h := HistoryOf(s, th);
    assert c in CallsOf(h);
    var i :| 0 <= i < |h| && CallsOf(h)[i] == c;
    t := h[i];
  }

  lemma ToldFailedOrLost(site: Site, c: CallId, sync: Sync, context: Context, d: CallId)
    requires Lawful(site) && IsPossible(site, SyncContext(c, sync, context))
    requires var calls := site.turns.calls;
             d < |calls| && calls[d].thread == calls[c].thread && calls[d].triggerTs in Stamps(context.injected)
    ensures var calls := site.turns.calls;
            (d < c && calls[d].stage == Released(false)) || LostToTwin(calls, site.finished, d)
  {
    var calls := site.turns.calls;
    var th := calls[c].thread;
    ToldIsOver(site, th, sync, HistoryOf(site.turns, th), context, d);
    if IsOver(calls[d].stage) {
      OverIsReleased(site.turns, c, d);
      if calls[d].stage.ok {
        SuccessIsOld(site, c, sync, context, d);
      }
    }
  }

  /** The step that matters: what a sync tells. */
  lemma SyncIsUnmixed(site: Site, c: CallId, sync: Sync, context: Context)
    requires Lawful(site) && IsPossible(site, SyncContext(c, sync, context))
    ensures var call := site.turns.calls[c];
            IsUnmixed(After(site, Move(SyncContext(c, sync, context))), call.thread,
                      Turn(c, call.triggerTs, context.contextMaxTs, Stamps(context.injected)))
  {
    var calls := site.turns.calls;
    var site' := After(site, Move(SyncContext(c, sync, context)));
    NextGrowsCalls(site.turns, SyncContext(c, sync, context));
    assert site'.seen[c] == Moment(|calls|, site.finished) && |site'.turns.calls| == |calls|;
    forall d | 0 <= d < |calls| && calls[d].thread == calls[c].thread && calls[d].triggerTs in Stamps(context.injected)
      ensures (d < c && site'.turns.calls[d].stage == Released(false))
              || LostToTwin(site'.turns.calls, site.finished, d)
    {
      ToldFailedOrLost(site, c, sync, context, d);
      if LostToTwin(calls, site.finished, d) {
        TwinsStay(site.turns, site'.turns, site.finished, site.finished, d);
      }
    }
  }

  lemma SuccessIsOld(site: Site, c: CallId, sync: Sync, context: Context, d: CallId)
    requires Lawful(site) && IsPossible(site, SyncContext(c, sync, context))
    requires var calls := site.turns.calls; d < |calls| && calls[d].thread == calls[c].thread && Succeeded(calls[d])
    ensures site.turns.calls[d].triggerTs !in Stamps(context.injected)
  {
    var th := site.turns.calls[c].thread;
    var t := TurnOfSuccess(site.turns, th, d);
    assert IsUnmixed(site, th, t);
    SyncTellsOnlyNews(sync, HistoryOf(site.turns, th), context, c, site.turns.calls[c].triggerTs);
  }

  /** Where a told message comes from: it was fetched, and if a user's, not in flight. */
  lemma ToldWasFetched(sync: Sync, h: seq<Turn>, context: Context, ts: Ts) returns (m: Message)
    requires IsSyncResult(sync, h, context) && ts in Stamps(context.injected)
    ensures sync.Replies? && PagesFrom(sync.replies, 0).Some?
    ensures m in PagesFrom(sync.replies, 0).value.messages && m.ts == Some(ts)
    ensures m.userId == Some(sync.botUserId) || m.botId.Some? || ts !in sync.inFlight
  {
    m :| m in context.injected && m.ts == Some(ts);
    var f := PagesFrom(sync.replies, 0).value;
    assert m in Eligible(f.messages, Dedup(sync.botUserId, Cursor(h), sync.inFlight));
  }

  lemma ToldIsOver(site: Site, th: ThreadId, sync: Sync, h: seq<Turn>, context: Context, d: CallId)
    requires Registered(site) && SyncSees(site, th, sync) && IsSyncResult(sync, h, context)
    requires d < |site.turns.calls| && site.turns.calls[d].thread == th
    requires site.turns.calls[d].triggerTs in Stamps(context.injected)
    ensures IsOver(site.turns.calls[d].stage) || LostToTwin(site.turns.calls, site.finished, d)
  {
    var call := site.turns.calls[d];
    var m := ToldWasFetched(sync, h, context, call.triggerTs);
    assert m.botId.None? && m.userId != Some(sync.botUserId);
    assert call.triggerTs !in sync.inFlight;
    assert KeyOf(call) !in site.keys;
  }

  /** What is over while another call of the thread syncs came before it and is released. */
  lemma OverIsReleased(s: State, c: CallId, d: CallId)
    requires InOrder(s) && c < |s.calls| && s.calls[c].stage.Syncing?
    requires d < |s.calls| && s.calls[d].thread == s.calls[c].thread && IsOver(s.calls[d].stage)
    ensures d < c && s.calls[d].stage.Released?
  {
  }

  lemma MoveKeepsUnmixed(site: Site, a: Action)
    requires Lawful(site) && IsPossible(site, a)
    ensures Unmixed(After(site, Move(a)))
  {
    var site' := After(site, Move(a));
    NextGrowsCalls(site.turns, a);
    forall th: ThreadId, t: Turn | t in HistoryOf(site'.turns, th) ensures IsUnmixed(site', th, t) {
      HistoryStaysUnmixed(site, a, th, t);
    }
    forall c | 0 <= c < |site'.turns.calls| && Carries(site'.turns.calls[c])
      ensures IsUnmixed(site', site'.turns.calls[c].thread, site'.turns.calls[c].stage.turn)
    {
      CallStaysUnmixed(site, a, c);
    }
  }

  lemma HistoryStaysUnmixed(site: Site, a: Action, th: ThreadId, t: Turn)
    requires Lawful(site) && IsPossible(site, a)
    requires t in HistoryOf(After(site, Move(a)).turns, th)
    ensures IsUnmixed(After(site, Move(a)), th, t)
  {
    var site' := After(site, Move(a));
    NextGrowsCalls(site.turns, a);
    if a.Commit? {
      CommitAppendsTurn(site.turns, a.call, th);
    }
    assert t in HistoryOf(site.turns, th)
           || (a.Commit? && t == site.turns.calls[a.call].stage.turn && th == site.turns.calls[a.call].thread);
    assert IsUnmixed(site, th, t);
    if a.SyncContext? {
      SyncingHasNoTurn(site.turns, a.call, th, t);
    }
    UnmixedSurvives(site, site', th, t);
  }

  lemma TurnIsCarried(s: State, a: Action, c: CallId)
    requires c < |ThreadTurns.Next(s, a, true).calls| && Carries(ThreadTurns.Next(s, a, true).calls[c])
    requires !(a.SyncContext? && a.call == c)
    ensures c < |s.calls| && Carries(s.calls[c])
    ensures ThreadTurns.Next(s, a, true).calls[c].stage.turn == s.calls[c].stage.turn
  {
  }

  lemma CallStaysUnmixed(site: Site, a: Action, c: CallId)
    requires Lawful(site) && IsPossible(site, a)
    requires c < |After(site, Move(a)).turns.calls| && Carries(After(site, Move(a)).turns.calls[c])
    ensures var call := After(site, Move(a)).turns.calls[c];
            IsUnmixed(After(site, Move(a)), call.thread, call.stage.turn)
  {
    var site' := After(site, Move(a));
    NextGrowsCalls(site.turns, a);
    if a.SyncContext? && a.call == c {
      SyncIsUnmixed(site, c, a.sync, a.context);
    } else {
      TurnIsCarried(site.turns, a, c);
      assert CallIsFaithful(site.turns, c);
      UnmixedSurvives(site, site', site.turns.calls[c].thread, site.turns.calls[c].stage.turn);
    }
  }

  lemma AfterKeepsLawful(site: Site, e: Event)
    requires Lawful(site)
    ensures Lawful(After(site, e))
  {
    match e
    case Finish(c) =>
      FinishKeepsRegistered(site, c);
      FinishKeepsUnmixed(site, c);
    case Move(a) =>
      if IsPossible(site, a) {
        NextKeepsOrderly(site.turns, a);
        NextKeepsFaithful(site.turns, a);
        NextKeepsRegistered(site, a);
        MoveKeepsUnmixed(site, a);
      }
  }

  lemma {:induction false} ReachableIsLawful(events: seq<Event>)
    ensures Lawful(AfterAll(events))
  {
    if events == [] {
    } else {
      ReachableIsLawful(events[..|events| - 1]);
      AfterKeepsLawful(AfterAll(events[..|events| - 1]), events[|events| - 1]);
    }
  }

  /** A message that is a turn in the history is told to no turn that synced after its call
      came, itself included, unless by then another call with the same trigger had finished. */
  lemma ATurnIsNotAlsoContext(events: seq<Event>, th: ThreadId, t: Turn, u: Turn)
    requires var site := AfterAll(events);
             && t in HistoryOf(site.turns, th) && u in HistoryOf(site.turns, th)
             && t.call in site.seen && u.call < site.seen[t.call].calls
    ensures u.call < |AfterAll(events).turns.calls|
    ensures var site := AfterAll(events);
            u.turnTs in t.injected ==> LostToTwin(site.turns.calls, site.seen[t.call].finished, u.call)
  {
    ReachableIsLawful(events);
    var site := AfterAll(events);
    assert IsUnmixed(site, th, t) && IsUnmixed(site, th, u);
    SuccessfulTurn(site.turns, th, u);
  }

  /** So where no two calls share a trigger, the model reads every such message once. */
  lemma DistinctTriggersAreReadOnce(events: seq<Event>, th: ThreadId, t: Turn, u: Turn)
    requires var site := AfterAll(events);
             && t in HistoryOf(site.turns, th) && u in HistoryOf(site.turns, th)
             && t.call in site.seen && u.call < site.seen[t.call].calls
    requires var calls := AfterAll(events).turns.calls;
             forall c, d :: 0 <= c < d < |calls| ==> KeyOf(calls[c]) != KeyOf(calls[d])
    ensures u.turnTs !in t.injected
  {
    ATurnIsNotAlsoContext(events, th, t, u);
  }

  // ---- what the registry leaves open ----

  lemma Also(events: seq<Event>, site: Site, a: Action) returns (events': seq<Event>, site': Site)
    requires site == AfterAll(events) && IsPossible(site, a)
    ensures site' == AfterAll(events') && site'.turns == ThreadTurns.Next(site.turns, a, true)
    ensures site'.keys == if a.Enter? then site.keys + {TurnKey(a.thread, a.triggerTs)} else site.keys
  {
    events' := events + [Move(a)];
    assert events'[..|events|] == events;
    site' := After(site, Move(a));
  }

  /** A step of a call that neither enters nor syncs, to the stage given. */
  lemma CallMoves(events: seq<Event>, site: Site, a: Action, calls: seq<Call>, history: map<ThreadId, seq<Turn>>)
    returns (events': seq<Event>, site': Site)
    requires site == AfterAll(events) && Enabled(site.turns, a, true) && !a.Enter? && !a.SyncContext?
    requires ThreadTurns.Next(site.turns, a, true) == State(calls, site.turns.tails, history)
    ensures site' == AfterAll(events') && site'.turns == State(calls, site.turns.tails, history)
            && site'.keys == site.keys
  {
    events', site' := Also(events, site, a);
  }

  const MENTION := Message(Some(2), Some("user"), None, "")

  function OnePage(m: Message): nat -> PageReply {
    _ => Page([m], false)
  }

  const TOLD := Turn(0, 1, Some(2), {2})

  function First(th: ThreadId, stage: Stage): Call {
    Call(th, 1, None, stage, false)
  }

  function Second(th: ThreadId, stage: Stage): Call {
    Call(th, 2, Some(0), stage, false)
  }

  lemma FirstTurnBegins(th: ThreadId) returns (events: seq<Event>, site: Site)
    ensures site == AfterAll(events) && site.turns == State([First(th, Syncing)], map[th := 0], map[])
    ensures site.keys == {TurnKey(th, 1)}
  {
    assert AfterAll([]).turns == ThreadTurns.EMPTY;
    events, site := Also([], AfterAll([]), Enter(th, 1));
    assert site.turns == State([First(th, Queued)], map[th := 0], map[]) && site.keys == {TurnKey(th, 1)};
    events, site := CallMoves(events, site, Begin(0), [First(th, Syncing)], map[]);
  }

  /** A call of a thread without history syncs, and is told the mention. */
  lemma {:induction false} SyncsMention(events: seq<Event>, site: Site, c: CallId, call: Call, inFlight: set<Ts>)
    returns (events': seq<Event>, site': Site)
    requires site == AfterAll(events) && c < |site.turns.calls| && site.turns.calls[c] == call && call.stage.Syncing?
    requires HistoryOf(site.turns, call.thread) == [] && 2 !in inFlight
    requires forall key :: key in site.keys && key.thread == call.thread ==> key.ts in inFlight
    ensures site' == AfterAll(events')
    ensures var turn := Turn(c, call.triggerTs, Some(2), {2});
            site'.turns == site.turns.(calls := site.turns.calls[c := call.(stage := Prepared(turn))])
  {
    var sync, context := SyncOfOnePage(inFlight);
    MentionIsSeen(call.thread, site, sync);
    events', site' := SyncsTo(events, site, c, call, sync, context);
  }

  lemma {:induction false} SyncsTo(events: seq<Event>, site: Site, c: CallId, call: Call, sync: Sync, context: Context)
    returns (events': seq<Event>, site': Site)
    requires site == AfterAll(events) && c < |site.turns.calls| && site.turns.calls[c] == call && call.stage.Syncing?
    requires HistoryOf(site.turns, call.thread) == []
    requires IsSyncResult(sync, [], context) && SyncSees(site, call.thread, sync)
    ensures site' == AfterAll(events')
    ensures var turn := Turn(c, call.triggerTs, context.contextMaxTs, Stamps(context.injected));
            site'.turns == site.turns.(calls := site.turns.calls[c := call.(stage := Prepared(turn))])
  {
    events', site' := Also(events, site, SyncContext(c, sync, context));
  }

  lemma MentionIsSeen(th: ThreadId, site: Site, sync: Sync)
    requires sync.Replies? && sync.botUserId == "bot"
    requires forall key :: key in site.keys && key.thread == th ==> key.ts in sync.inFlight
    requires PagesFrom(sync.replies, 0) == Some(Fetched([MENTION], false))
    ensures SyncSees(site, th, sync)
  {
    assert |"user"| != |"bot"|;
  }

  lemma FirstTurnSyncs(th: ThreadId) returns (events: seq<Event>, site: Site)
    ensures site == AfterAll(events) && site.turns == State([First(th, Prepared(TOLD))], map[th := 0], map[])
  {
    events, site := FirstTurnBegins(th);
    events, site := SyncsMention(events, site, 0, First(th, Syncing), {1});
  }

  lemma FirstTurnEnds(th: ThreadId) returns (events: seq<Event>, site: Site)
    ensures site == AfterAll(events)
    ensures site.turns == State([First(th, Released(true))], map[th := 0], map[th := [TOLD]])
  {
    events, site := FirstTurnSyncs(th);
    events, site := CallMoves(events, site, Invoke(0), [First(th, Invoking(TOLD, []))], map[]);
    assert [] + [TOLD] == [TOLD];
    events, site := CallMoves(events, site, Commit(0), [First(th, Returned(true))], map[th := [TOLD]]);
    events, site := CallMoves(events, site, Release(0), [First(th, Released(true))], map[th := [TOLD]]);
  }

  lemma SecondTurnSyncs(th: ThreadId) returns (events: seq<Event>, site: Site)
    ensures site == AfterAll(events)
    ensures site.turns == State([First(th, Released(true)), Second(th, Prepared(Turn(1, 2, None, {})))],
                                map[th := 1], map[th := [TOLD]])
  {
    var history := map[th := [TOLD]];
    events, site := FirstTurnEnds(th);
    events, site := Also(events, site, Enter(th, 2));
    assert site.turns == State([First(th, Released(true)), Second(th, Queued)], map[th := 1], history);
    events, site := CallMoves(events, site, Begin(1), [First(th, Released(true)), Second(th, Syncing)], history);
    assert Stamps([]) == {};
    events, site := Also(events, site, SyncContext(1, CursorUnknown, EMPTY_CONTEXT));
  }

  /** The window: a message already in the thread whose call comes only after another turn's
      sync is told to that turn and then becomes a turn of its own. */
  lemma AMentionMayBeReadTwice(th: ThreadId) returns (events: seq<Event>)
    ensures var h := HistoryOf(AfterAll(events).turns, th);
            |h| == 2 && h[1].turnTs in h[0].injected
  {
    var site;
    var turn := Turn(1, 2, None, {});
    events, site := SecondTurnSyncs(th);
    events, site := CallMoves(events, site, Invoke(1),
                              [First(th, Released(true)), Second(th, Invoking(turn, [TOLD]))], map[th := [TOLD]]);
    assert [TOLD] + [turn] == [TOLD, turn];
    events, site := CallMoves(events, site, Commit(1),
                              [First(th, Released(true)), Second(th, Returned(true))], map[th := [TOLD, turn]]);
  }

  lemma SyncOfOnePage(inFlight: set<Ts>) returns (sync: Sync, context: Context)
    requires 2 !in inFlight
    ensures sync.Replies? && sync.botUserId == "bot" && sync.inFlight == inFlight
    ensures PagesFrom(sync.replies, 0) == Some(Fetched([MENTION], false))
    ensures IsSyncResult(sync, [], context) && Stamps(context.injected) == {2} && context.contextMaxTs == Some(2)
  {
    sync, context := Replies(OnePage(MENTION), "bot", inFlight), Context([MENTION], false, Some(2));
    var d := Dedup("bot", None, inFlight);
    assert Cursor([]) == None;
    assert PagesFrom(sync.replies, 0) == Some(Fetched([MENTION], false));
    assert Eligible([], d) == [] && Eligible([MENTION], d) == [MENTION];
    assert [MENTION] == [MENTION][0..];
    assert IsLongestAllowedSuffix([MENTION], [MENTION]);
    assert MENTION in [MENTION];
  }

  /* a mention dispatched twice */

  lemma Ends(events: seq<Event>, site: Site, c: CallId) returns (events': seq<Event>, site': Site)
    requires site == AfterAll(events) && c < |site.turns.calls| && IsOver(site.turns.calls[c].stage)
    ensures site' == AfterAll(events') && site'.turns == site.turns
    ensures site'.keys == site.keys - {KeyOf(site.turns.calls[c])}
  {
    events' := events + [Event.Finish(c)];
    assert events'[..|events|] == events;
    site' := After(site, Event.Finish(c));
  }

  function Twin(th: ThreadId, prior: Option<CallId>, stage: Stage): Call {
    Call(th, 2, prior, stage, false)
  }

  /** Two calls with one trigger: the first fails and withdraws the key of both. */
  lemma {:induction false} FirstTwinFails(th: ThreadId) returns (events: seq<Event>, site: Site)
    ensures site == AfterAll(events) && site.keys == {}
    ensures site.turns == State([Twin(th, None, Released(false)), Twin(th, Some(0), Queued)], map[th := 1], map[])
  {
    assert AfterAll([]).turns == ThreadTurns.EMPTY;
    events, site := Also([], AfterAll([]), Enter(th, 2));
    assert site.turns == State([Twin(th, None, Queued)], map[th := 0], map[]);
    events, site := Also(events, site, Enter(th, 2));
    var waiting := Twin(th, Some(0), Queued);
    assert site.turns == State([Twin(th, None, Queued), waiting], map[th := 1], map[]);
    assert site.keys == {TurnKey(th, 2)};
    events, site := CallMoves(events, site, Begin(0), [Twin(th, None, Syncing), waiting], map[]);
    events, site := CallMoves(events, site, Fail(0), [Twin(th, None, Returned(false)), waiting], map[]);
    events, site := CallMoves(events, site, Release(0), [Twin(th, None, Released(false)), waiting], map[]);
    events, site := Ends(events, site, 0);
  }

  lemma {:induction false} SecondTwinSyncs(th: ThreadId) returns (events: seq<Event>, site: Site)
    ensures site == AfterAll(events)
    ensures site.turns == State([Twin(th, None, Released(false)),
                                 Twin(th, Some(0), Prepared(Turn(1, 2, Some(2), {2})))],
                                map[th := 1], map[])
  {
    var failed := Twin(th, None, Released(false));
    events, site := FirstTwinFails(th);
    events, site := CallMoves(events, site, Begin(1), [failed, Twin(th, Some(0), Syncing)], map[]);
    events, site := SyncsMention(events, site, 1, Twin(th, Some(0), Syncing), {});
  }

  /** The second is then told its own trigger, and is the only turn in the history. */
  lemma {:induction false} ATwinMayBeToldItself(th: ThreadId) returns (events: seq<Event>)
    ensures HistoryOf(AfterAll(events).turns, th) == [Turn(1, 2, Some(2), {2})]
  {
    var site;
    var turn := Turn(1, 2, Some(2), {2});
    var failed := Twin(th, None, Released(false));
    events, site := SecondTwinSyncs(th);
    events, site := CallMoves(events, site, Invoke(1), [failed, Twin(th, Some(0), Invoking(turn, []))], map[]);
    assert [] + [turn] == [turn];
    events, site := CallMoves(events, site, Commit(1), [failed, Twin(th, Some(0), Returned(true))], map[th := [turn]]);
  }

  /* a mention told to nobody */

  const SILENT := Turn(0, 1, Some(2), {})

  lemma {:induction false} MentionIsLeftOut() returns (sync: Sync, context: Context)
    ensures sync.Replies? && sync.botUserId == "bot" && sync.inFlight == {1, 2}
    ensures PagesFrom(sync.replies, 0) == Some(Fetched([MENTION], false))
    ensures IsSyncResult(sync, [], context) && Stamps(context.injected) == {} && context.contextMaxTs == Some(2)
  {
    sync, context := Replies(OnePage(MENTION), "bot", {1, 2}), Context([], false, Some(2));
    var d := Dedup("bot", None, {1, 2});
    assert |"user"| != |"bot"|;
    assert PagesFrom(sync.replies, 0) == Some(Fetched([MENTION], false));
    assert Eligible([], d) == [] && Eligible([MENTION], d) == [];
    assert IsLongestAllowedSuffix([], []);
    assert MENTION in [MENTION];
  }

  lemma {:induction false} BothEnter(th: ThreadId) returns (events: seq<Event>, site: Site)
    ensures site == AfterAll(events) && site.keys == {TurnKey(th, 1), TurnKey(th, 2)}
    ensures site.turns == State([First(th, Syncing), Second(th, Queued)], map[th := 1], map[])
  {
    assert AfterAll([]).turns == ThreadTurns.EMPTY;
    events, site := Also([], AfterAll([]), Enter(th, 1));
    assert site.turns == State([First(th, Queued)], map[th := 0], map[]);
    events, site := Also(events, site, Enter(th, 2));
    assert site.turns == State([First(th, Queued), Second(th, Queued)], map[th := 1], map[]);
    events, site := CallMoves(events, site, Begin(0), [First(th, Syncing), Second(th, Queued)], map[]);
  }

  lemma {:induction false} FirstIsNotTold(th: ThreadId) returns (events: seq<Event>, site: Site)
    ensures site == AfterAll(events)
    ensures site.turns == State([First(th, Prepared(SILENT)), Second(th, Queued)], map[th := 1], map[])
  {
    events, site := BothEnter(th);
    var sync, context := MentionIsLeftOut();
    MentionIsSeen(th, site, sync);
    events, site := SyncsTo(events, site, 0, First(th, Syncing), sync, context);
  }

  lemma {:induction false} FirstCommitsSecondFails(th: ThreadId) returns (events: seq<Event>, site: Site)
    ensures site == AfterAll(events)
    ensures site.turns == State([First(th, Released(true)), Second(th, Returned(false))],
                                map[th := 1], map[th := [SILENT]])
  {
    var (waiting, history) := (Second(th, Queued), map[th := [SILENT]]);
    events, site := FirstIsNotTold(th);
    events, site := CallMoves(events, site, Invoke(0), [First(th, Invoking(SILENT, [])), waiting], map[]);
    assert [] + [SILENT] == [SILENT];
    events, site := CallMoves(events, site, Commit(0), [First(th, Returned(true)), waiting], history);
    events, site := CallMoves(events, site, Release(0), [First(th, Released(true)), waiting], history);
    events, site := CallMoves(events, site, Begin(1), [First(th, Released(true)), Second(th, Syncing)], history);
    events, site := CallMoves(events, site, Fail(1), [First(th, Released(true)), Second(th, Returned(false))], history);
  }

  /** A mention that is in flight while another turn syncs, and whose own turn then fails, is
      in no turn, and no later sync tells it: the other turn's tag has passed it. */
  lemma {:induction false} AMentionMayBeReadByNobody(th: ThreadId) returns (events: seq<Event>)
    ensures var s := AfterAll(events).turns;
            && |s.calls| == 2 && s.calls[1] == Second(th, Returned(false))
            && HistoryOf(s, th) == [SILENT]
            && forall sync, c :: IsSyncResult(sync, HistoryOf(s, th), c) ==> s.calls[1].triggerTs !in Stamps(c.injected)
  {
    var site;
    events, site := FirstCommitsSecondFails(th);
    forall sync, c | IsSyncResult(sync, [SILENT], c) ensures 2 !in Stamps(c.injected) {
      SyncTellsOnlyNews(sync, [SILENT], c, 0, 0);
      assert SILENT in [SILENT] && NewestTag(SILENT) == 2;
    }
  }

  // ---- the registry as it is written ----

  class InFlightTurnRegistry {
    var keys: set<TurnKey>

    constructor ()
      ensures keys == {}
    {
      keys := {};
    }

    /** What `After` does to the registry when the turn's call enters. */
    method Start(key: TurnKey)
      modifies this
      ensures keys == old(keys) + {key}
      ensures forall turns: State, finished, seen ::
                var (site, a) := (Site(turns, old(keys), finished, seen), Enter(key.thread, key.ts));
                After(site, Move(a)) == Site(ThreadTurns.Next(turns, a, true), keys, finished, seen)
    {
      keys := keys + {key};
    }

    /** What `After` does when the turn is over. */
    method Finish(key: TurnKey)
      modifies this
      ensures keys == old(keys) - {key}
      ensures forall turns: State, finished, seen, c: CallId ::
                c < |turns.calls| && IsOver(turns.calls[c].stage) && KeyOf(turns.calls[c]) == key
                ==> After(Site(turns, old(keys), finished, seen), Event.Finish(c))
                    == Site(turns, keys, finished + {c}, seen)
    {
      keys := keys - {key};
    }

    predicate Has(key: TurnKey)
      reads this
    {
      key in keys
    }
  }
}
