/**
  Conversation turns on Slack threads.  A turn reads its thread's cursor, fetches what the
  thread said since, reads the checkpoint and, when the model has answered, writes a child
  of what it read.  The queue chains each call behind the last one of its thread; a
  thread's history is only as good as that chain.
 */
module ThreadTurns {
  import opened Shared
  import opened ThreadContext

  type ThreadId = string
  type CallId = nat

  /** One checkpointed turn: its call, the tags it left, and the messages it was told. */
  datatype Turn = Turn(call: CallId, turnTs: Ts, contextMaxTs: Option<Ts>, injected: set<Ts>)

  /** Where a call is: waiting for the one before it, running its function (three awaits),
      returned, or released (its normalised tail promise has resolved). */
  datatype Stage =
    | Queued
    | Syncing
    | Prepared(turn: Turn)
    | Invoking(turn: Turn, base: seq<Turn>)
    | Returned(ok: bool)
    | Released(ok: bool)

  datatype Call = Call(thread: ThreadId, triggerTs: Ts, prior: Option<CallId>, stage: Stage, evicted: bool)

  datatype State = State(calls: seq<Call>, tails: map<ThreadId, CallId>, history: map<ThreadId, seq<Turn>>)

  /** How a turn's context sync ends. */
  datatype Sync = CursorUnknown | Replies(replies: nat -> PageReply, botUserId: string, inFlight: set<Ts>)

  datatype Action =
    | Enter(thread: ThreadId, triggerTs: Ts)
    | Begin(call: CallId)
    | SyncContext(call: CallId, sync: Sync, context: Context)
    | Invoke(call: CallId)
    | Commit(call: CallId)
    | Fail(call: CallId)
    | Release(call: CallId)
    | Evict(call: CallId)

  function HistoryOf(s: State, th: ThreadId): seq<Turn> {
    if th in s.history then s.history[th] else []
  }

  /** The tags of one turn, newest first. */
  function NewestTag(t: Turn): Ts {
    if t.contextMaxTs.Some? && t.contextMaxTs.value > t.turnTs then t.contextMaxTs.value else t.turnTs
  }

  /** The newest tag in a history; `None` on a cold start. */
  function Cursor(h: seq<Turn>): (c: Option<Ts>)
    ensures c.None? <==> h == []
    ensures c.Some? ==> (exists t :: t in h && (c.value == t.turnTs || c == t.contextMaxTs))
    ensures c.Some? ==> (forall t :: t in h ==>
              t.turnTs <= c.value && (t.contextMaxTs.Some? ==> t.contextMaxTs.value <= c.value))
    ensures c.Some? ==> (exists t :: t in h && NewestTag(t) == c.value)
    ensures c.Some? ==> (forall t :: t in h ==> NewestTag(t) <= c.value)
  {
    if h == [] then None
    else
      var rest, last := Cursor(h[..|h| - 1]), NewestTag(h[|h| - 1]);
      assert h == h[..|h| - 1] + [h[|h| - 1]];
      if rest.Some? && rest.value >= last then rest else Some(last)
  }

  /** A message of the checkpoint: one that carries a turn's tag, or any other (the agent's,
      a tool's, or a user's from before turns were tagged). */
  datatype HistoryMessage = Tagged(turn: Turn) | Untagged

  /** The turns a checkpoint remembers; the rest of the module speaks of these. */
  function TurnsOf(messages: seq<HistoryMessage>): seq<Turn> {
    if messages == [] then []
    else
      var n := |messages| - 1;
      TurnsOf(messages[..n]) + (if messages[n].Tagged? then [messages[n].turn] else [])
  }

  lemma {:induction false} NoTurnsExactlyWhen(messages: seq<HistoryMessage>)
    ensures TurnsOf(messages) == [] <==> forall i :: 0 <= i < |messages| ==> messages[i].Untagged?
  {
    if messages == [] {
    } else {
      var n := |messages| - 1;
      NoTurnsExactlyWhen(messages[..n]);
      assert forall i :: 0 <= i < n ==> messages[..n][i] == messages[i];
    }
  }

  lemma TurnsGrow(messages: seq<HistoryMessage>, i: nat)
    requires i < |messages|
    ensures var h := TurnsOf(messages[..i]);
            TurnsOf(messages[..i + 1]) == if messages[i].Tagged? then h + [messages[i].turn] else h
  {
    assert messages[..i + 1][..i] == messages[..i];
  }

  /** The cursor after both tags of a turn. */
  method Raise(cursor: Option<Ts>, turn: Turn) returns (raised: Option<Ts>)
    ensures raised == if cursor.Some? && cursor.value >= NewestTag(turn) then cursor else Some(NewestTag(turn))
  {
    raised := cursor;
    if raised.None? || turn.turnTs > raised.value {
      raised := Some(turn.turnTs);
    }
    if turn.contextMaxTs.Some? && turn.contextMaxTs.value > raised.value {
      raised := turn.contextMaxTs;
    }
  }

  /** `computeThreadCursor`: one pass over the messages.  A history without a tag is a cold
      start, however long it is. */
  method ComputeThreadCursor(messages: seq<HistoryMessage>) returns (cursor: Option<Ts>)
    ensures cursor == Cursor(TurnsOf(messages))
    ensures cursor.None? <==> forall i :: 0 <= i < |messages| ==> messages[i].Untagged?
  {
    cursor := None;
    for i := 0 to |messages|
      invariant cursor == Cursor(TurnsOf(messages[..i]))
    {
      TurnsGrow(messages, i);
      if messages[i].Tagged? {
        var turn := messages[i].turn;
        CursorGrows(TurnsOf(messages[..i]), turn);
        cursor := Raise(cursor, turn);
      }
    }
    assert messages[..|messages|] == messages;
    NoTurnsExactlyWhen(messages);
  }

  lemma CursorGrows(h: seq<Turn>, t: Turn)
    ensures Cursor(h + [t])
         == if Cursor(h).Some? && Cursor(h).value >= NewestTag(t) then Cursor(h) else Some(NewestTag(t))
  {
    assert (h + [t])[..|h|] == h;
  }

  function Stamps(messages: seq<Message>): set<Ts> {
    set m | m in messages && m.ts.Some? :: m.ts.value
  }

  /** A context is what syncing against `h` gives: nothing when the cursor or the fetch
      failed, else what `SyncThreadContext` selects past the history's cursor. */
  ghost predicate IsSyncResult(sync: Sync, h: seq<Turn>, c: Context) {
    match sync
    case CursorUnknown => c == EMPTY_CONTEXT
    case Replies(replies, bot, inFlight) =>
      match PagesFrom(replies, 0)
      case None => c == EMPTY_CONTEXT
      case Some(f) => IsContextOf(f, Dedup(bot, Cursor(h), inFlight), c)
  }

  predicate PriorReleased(s: State, c: CallId)
    requires c < |s.calls|
  {
    s.calls[c].prior.Some? ==> s.calls[c].prior.value < |s.calls| && s.calls[s.calls[c].prior.value].stage.Released?
  }

  /** `queued`: calls wait their turn.  Without it, every call begins when it likes. */
  ghost predicate Enabled(s: State, a: Action, queued: bool) {
    if a.Enter? then true
    else
      && a.call < |s.calls|
      && var c := s.calls[a.call];
         match a
         case Begin(_) => c.stage.Queued? && (queued ==> PriorReleased(s, a.call))
         case SyncContext(_, sync, context) => c.stage.Syncing? && IsSyncResult(sync, HistoryOf(s, c.thread), context)
         case Invoke(_) => c.stage.Prepared?
         case Commit(_) => c.stage.Invoking?
         case Fail(_) => c.stage.Syncing? || c.stage.Prepared? || c.stage.Invoking?
         case Release(_) => c.stage.Returned?
         case Evict(_) => c.stage.Released? && !c.evicted
  }

  function Moved(s: State, call: CallId, stage: Stage): State
    requires call < |s.calls|
  {
    s.(calls := s.calls[call := s.calls[call].(stage := stage)])
  }

  function TailOf(s: State, th: ThreadId): Option<CallId> {
    if th in s.tails then Some(s.tails[th]) else None
  }

  function EnterQueue(s: State, th: ThreadId, triggerTs: Ts): State {
    s.(calls := s.calls + [Call(th, triggerTs, TailOf(s, th), Queued, false)], tails := s.tails[th := |s.calls|])
  }

  /** The cleanup a call registered on its own tail: it removes the entry only if no later
      call has replaced it. */
  function EvictTail(s: State, call: CallId): State
    requires call < |s.calls|
  {
    var th := s.calls[call].thread;
    s.(calls := s.calls[call := s.calls[call].(evicted := true)],
       tails := if TailOf(s, th) == Some(call) then s.tails - {th} else s.tails)
  }

  ghost function Next(s: State, a: Action, queued: bool): State {
    if !Enabled(s, a, queued) then s
    else match a
      case Enter(th, triggerTs) => EnterQueue(s, th, triggerTs)
      case Begin(c) => Moved(s, c, Syncing)
      case SyncContext(c, sync, context) =>
        Moved(s, c, Prepared(Turn(c, s.calls[c].triggerTs, context.contextMaxTs, Stamps(context.injected))))
      case Invoke(c) => Moved(s, c, Invoking(s.calls[c].stage.turn, HistoryOf(s, s.calls[c].thread)))
      case Commit(c) =>
        var stage := s.calls[c].stage;
        Moved(s, c, Returned(true)).(history := s.history[s.calls[c].thread := stage.base + [stage.turn]])
      case Fail(c) => Moved(s, c, Returned(false))
      case Release(c) => Moved(s, c, Released(s.calls[c].stage.ok))
      case Evict(c) => EvictTail(s, c)
  }

  const EMPTY := State([], map[], map[])

  ghost function Run(actions: seq<Action>, queued: bool): State {
    if actions == [] then EMPTY
    else Next(Run(actions[..|actions| - 1], queued), actions[|actions| - 1], queued)
  }

  /* ---- the queue is a lock, first come first served ---- */

  /** `c` is the call of its thread that came right before `d`. */
  ghost predicate RightBefore(s: State, c: CallId, d: CallId) {
    && c < d <= |s.calls|
    && forall e :: c < e < d ==> s.calls[e].thread != s.calls[c].thread
  }

  ghost predicate Chained(s: State, d: CallId)
    requires d < |s.calls|
  {
    match s.calls[d].prior
    case None => forall c :: 0 <= c < d && s.calls[c].thread == s.calls[d].thread ==> s.calls[c].stage.Released?
    case Some(p) => RightBefore(s, p, d) && s.calls[p].thread == s.calls[d].thread
  }

  /** A call has left the queue only once every earlier call of its thread is released. */
  ghost predicate InOrder(s: State) {
    forall c, d :: 0 <= c < d < |s.calls| && s.calls[c].thread == s.calls[d].thread && !s.calls[d].stage.Queued?
                   ==> s.calls[c].stage.Released?
  }

  ghost predicate TailsAreLast(s: State) {
    && (forall th :: th in s.tails ==>
          && s.tails[th] < |s.calls| && s.calls[s.tails[th]].thread == th
          && RightBefore(s, s.tails[th], |s.calls|) && !s.calls[s.tails[th]].evicted)
    && (forall c :: 0 <= c < |s.calls| && s.calls[c].thread !in s.tails ==> s.calls[c].stage.Released?)
    && (forall c :: 0 <= c < |s.calls| && s.calls[c].evicted ==> s.calls[c].stage.Released?)
  }

  ghost predicate Orderly(s: State) {
    && InOrder(s)
    && TailsAreLast(s)
    && forall d :: 0 <= d < |s.calls| ==> Chained(s, d)
  }

  lemma EnterKeepsOrderly(s: State, th: ThreadId, triggerTs: Ts)
    requires Orderly(s)
    ensures Orderly(EnterQueue(s, th, triggerTs))
  {
    var s', n := EnterQueue(s, th, triggerTs), |s.calls|;
    forall d | 0 <= d < |s'.calls| ensures Chained(s', d) {
      if d < n {
        assert Chained(s, d);
      }
    }
  }

  lemma MoveKeepsOrderly(s: State, c: CallId, stage: Stage)
    requires Orderly(s) && c < |s.calls| && !stage.Queued?
    requires s.calls[c].stage.Released? ==> stage.Released?
    requires s.calls[c].stage.Queued? ==> PriorReleased(s, c)
    ensures Orderly(Moved(s, c, stage))
  {
    var s' := Moved(s, c, stage);
    assert Chained(s, c);
    forall d | 0 <= d < |s'.calls| ensures Chained(s', d) {
      assert Chained(s, d);
    }
  }

  lemma EvictKeepsOrderly(s: State, c: CallId)
    requires Orderly(s) && c < |s.calls| && s.calls[c].stage.Released?
    ensures Orderly(EvictTail(s, c))
  {
    var s', th := EvictTail(s, c), s.calls[c].thread;
    if TailOf(s, th) == Some(c) {
      forall d | 0 <= d < |s.calls| && s.calls[d].thread == th ensures s'.calls[d].stage.Released? {
        assert d <= c;
      }
    }
    forall d | 0 <= d < |s'.calls| ensures Chained(s', d) {
      assert Chained(s, d);
    }
  }

  lemma HistoryIsNoMatter(s: State, s': State)
    requires Orderly(s) && s'.calls == s.calls && s'.tails == s.tails
    ensures Orderly(s')
  {
    forall d | 0 <= d < |s'.calls| ensures Chained(s', d) {
      assert Chained(s, d);
    }
  }

  lemma NextKeepsOrderly(s: State, a: Action)
    requires Orderly(s)
    ensures Orderly(Next(s, a, true))
  {
    if Enabled(s, a, true) {
      match a {
        case Enter(th, triggerTs) => EnterKeepsOrderly(s, th, triggerTs);
        case Begin(c) => MoveKeepsOrderly(s, c, Syncing);
        case SyncContext(c, sync, context) =>
          MoveKeepsOrderly(s, c, Prepared(Turn(c, s.calls[c].triggerTs, context.contextMaxTs,
                                               Stamps(context.injected))));
        case Invoke(c) => MoveKeepsOrderly(s, c, Next(s, a, true).calls[c].stage);
        case Commit(c) =>
          MoveKeepsOrderly(s, c, Returned(true));
          HistoryIsNoMatter(Moved(s, c, Returned(true)), Next(s, a, true));
        case Fail(c) => MoveKeepsOrderly(s, c, Returned(false));
        case Release(c) => MoveKeepsOrderly(s, c, Released(s.calls[c].stage.ok));
        case Evict(c) => EvictKeepsOrderly(s, c);
      }
    }
  }

  lemma {:induction false} RunIsOrderly(actions: seq<Action>)
    ensures Orderly(Run(actions, true))
  {
    if actions == [] {
    } else {
      RunIsOrderly(actions[..|actions| - 1]);
      NextKeepsOrderly(Run(actions[..|actions| - 1], true), actions[|actions| - 1]);
    }
  }

  /** At most one function runs per thread, and calls start in the order they came: when
      one is past the queue, every earlier call of its thread has returned (however it
      ended) and every later one still waits. */
  lemma QueueIsAFifoLock(actions: seq<Action>, c: CallId, d: CallId)
    requires var s := Run(actions, true); c < d < |s.calls| && s.calls[c].thread == s.calls[d].thread
    ensures var s := Run(actions, true);
            && (!s.calls[d].stage.Queued? ==> s.calls[c].stage.Released?)
            && (!s.calls[c].stage.Released? ==> s.calls[d].stage.Queued?)
  {
    RunIsOrderly(actions);
  }

  /** A waiting call is never wedged: the oldest unreleased call of its thread can move. */
  lemma {:induction false} SomebodyCanMove(actions: seq<Action>, d: CallId) returns (c: CallId)
    requires var s := Run(actions, true); d < |s.calls| && !s.calls[d].stage.Released?
    ensures var s := Run(actions, true);
            && c <= d && s.calls[c].thread == s.calls[d].thread && !s.calls[c].stage.Released?
            && (s.calls[c].stage.Queued? ==> Enabled(s, Begin(c), true))
    decreases d
  {
    var s := Run(actions, true);
    RunIsOrderly(actions);
    assert Chained(s, d);
    c := d;
    if s.calls[d].stage.Queued? && s.calls[d].prior.Some? && !s.calls[s.calls[d].prior.value].stage.Released? {
      c := SomebodyCanMove(actions, s.calls[d].prior.value);
    }
  }

  /** No tail is removed while a later call is chained on it, and once every call has been
      cleaned up after, the map is empty. */
  lemma {:induction false} TailsDrain(actions: seq<Action>)
    ensures var s := Run(actions, true);
            && (forall th :: th in s.tails ==> forall d :: s.tails[th] < d < |s.calls| ==> s.calls[d].thread != th)
            && (forall c :: 0 <= c < |s.calls| && !s.calls[c].stage.Released? ==> s.calls[c].thread in s.tails)
            && ((forall c :: 0 <= c < |s.calls| ==> s.calls[c].evicted) ==> s.tails == map[])
  {
    RunIsOrderly(actions);
    var s := Run(actions, true);
    if forall c :: 0 <= c < |s.calls| ==> s.calls[c].evicted {
      assert s.tails.Keys == {};
    }
  }

  /* ---- no turn is lost ---- */

  predicate Succeeded(c: Call) {
    (c.stage.Returned? || c.stage.Released?) && c.stage.ok
  }

  /** The successful calls of a thread among the first `n`, in call order. */
  function Successes(calls: seq<Call>, th: ThreadId, n: nat): seq<CallId>
    requires n <= |calls|
  {
    if n == 0 then []
    else Successes(calls, th, n - 1) + (if calls[n - 1].thread == th && Succeeded(calls[n - 1]) then [n - 1] else [])
  }

  function CallsOf(h: seq<Turn>): seq<CallId> {
    seq(|h|, i requires 0 <= i < |h| => h[i].call)
  }

  /** Every message a turn was told is newer than every tag before it, and no newer than
      the tag it leaves itself. */
  ghost predicate TellsOnlyNews(h: seq<Turn>, t: Turn) {
    forall ts :: ts in t.injected ==>
      t.contextMaxTs.Some? && ts <= t.contextMaxTs.value && forall u :: u in h ==> NewestTag(u) < ts
  }

  ghost predicate Faithful(s: State) {
    && (forall th :: CallsOf(HistoryOf(s, th)) == Successes(s.calls, th, |s.calls|))
    && (forall th, i :: 0 <= i < |HistoryOf(s, th)| ==> TellsOnlyNews(HistoryOf(s, th)[..i], HistoryOf(s, th)[i]))
    && (forall c :: 0 <= c < |s.calls| ==> CallIsFaithful(s, c))
  }

  /** A call under way holds what its thread's history still is. */
  ghost predicate CallIsFaithful(s: State, c: CallId)
    requires c < |s.calls|
  {
    var call := s.calls[c];
    && (call.stage.Prepared? || call.stage.Invoking? ==>
          call.stage.turn.call == c && TellsOnlyNews(HistoryOf(s, call.thread), call.stage.turn))
    && (call.stage.Invoking? ==> call.stage.base == HistoryOf(s, call.thread))
  }

  lemma {:induction false} SuccessesIgnoreStages(calls: seq<Call>, calls': seq<Call>, th: ThreadId, n: nat)
    requires n <= |calls| <= |calls'|
    requires forall c :: 0 <= c < n ==>
               calls'[c].thread == calls[c].thread
                   && (calls[c].thread == th ==> (Succeeded(calls'[c]) <==> Succeeded(calls[c])))
    ensures Successes(calls', th, n) == Successes(calls, th, n)
  {
    if n == 0 {
    } else {
      SuccessesIgnoreStages(calls, calls', th, n - 1);
    }
  }

  lemma {:induction false} SuccessesAfterLast(calls: seq<Call>, th: ThreadId, n: nat, m: nat)
    requires n <= m <= |calls|
    requires forall c :: n <= c < m && calls[c].thread == th ==> !Succeeded(calls[c])
    ensures Successes(calls, th, m) == Successes(calls, th, n)
  {
    if n < m {
      SuccessesAfterLast(calls, th, n, m - 1);
    }
  }

  /** Steps that neither end a call successfully nor touch a history. */
  lemma QuietStepKeepsFaithful(s: State, s': State)
    requires Faithful(s) && s'.history == s.history && |s.calls| <= |s'.calls|
    requires forall c :: 0 <= c < |s.calls| ==>
               s'.calls[c].thread == s.calls[c].thread && (Succeeded(s'.calls[c]) <==> Succeeded(s.calls[c]))
    requires forall c :: |s.calls| <= c < |s'.calls| ==> s'.calls[c].stage.Queued?
    requires forall c :: 0 <= c < |s'.calls| ==> CallIsFaithful(s', c)
    ensures Faithful(s')
  {
    forall th: ThreadId
      ensures HistoryOf(s', th) == HistoryOf(s, th)
      ensures CallsOf(HistoryOf(s', th)) == Successes(s'.calls, th, |s'.calls|)
    {
      SuccessesAfterLast(s'.calls, th, |s.calls|, |s'.calls|);
      SuccessesIgnoreStages(s.calls, s'.calls, th, |s.calls|);
    }
  }

  lemma SyncTellsOnlyNews(sync: Sync, h: seq<Turn>, c: Context, call: CallId, triggerTs: Ts)
    requires IsSyncResult(sync, h, c)
    ensures TellsOnlyNews(h, Turn(call, triggerTs, c.contextMaxTs, Stamps(c.injected)))
  {
    forall ts | ts in Stamps(c.injected)
      ensures c.contextMaxTs.Some? && ts <= c.contextMaxTs.value
      ensures forall u :: u in h ==> NewestTag(u) < ts
    {
      var f := PagesFrom(sync.replies, 0).value;
      var m :| m in c.injected && m.ts == Some(ts);
      assert m in Eligible(f.messages, Dedup(sync.botUserId, Cursor(h), sync.inFlight));
    }
  }

  /** What becomes of every message of every page a sync reads: it is told only if it is newer
      than the cursor, not the bot's own once there is a cursor, and not a user's in flight;
      and if all that holds and it is not told, a limit dropped it and the note says so. */
  lemma SyncAccountsForEveryMessage(sync: Sync, h: seq<Turn>, c: Context, n: nat, i: nat, m: Message)
    requires IsSyncResult(sync, h, c) && sync.Replies? && ReadsPages(sync.replies, n)
    requires i < n && m in sync.replies(i).messages && m.ts.Some?
    ensures c.contextMaxTs.Some? && m.ts.value <= c.contextMaxTs.value
    ensures var own := m.userId == Some(sync.botUserId);
            var isNews := && (Cursor(h).Some? ==> Cursor(h).value < m.ts.value) && (own ==> Cursor(h).None?)
                          && (!own && m.botId.None? ==> m.ts.value !in sync.inFlight);
            (m in c.injected ==> isNews) && (isNews && m !in c.injected ==> c.note)
  {
    PagesAreReadExactly(sync.replies);
    EveryPageIsJoined(sync.replies, 0, i, n);
    var eligible := Eligible(PagesFrom(sync.replies, 0).value.messages,
                             Dedup(sync.botUserId, Cursor(h), sync.inFlight));
    if m in eligible && m !in c.injected {
      assert |c.injected| != |eligible|;
    }
  }

  /** The limits cut from the old end: what is told are the eligible messages from some point
      of the pages on, all of them if they keep within both limits; and the note is set
      exactly if some eligible message came before, or pages were left unread. */
  lemma SyncTellsTheNewest(sync: Sync, h: seq<Turn>, c: Context, n: nat) returns (k: nat)
    requires IsSyncResult(sync, h, c) && sync.Replies? && ReadsPages(sync.replies, n)
    ensures var all := Joined(sync.replies, 0, n);
            var d := Dedup(sync.botUserId, Cursor(h), sync.inFlight);
            && k <= |all| && c.injected == Eligible(all[k..], d)
            && (c.injected != [] ==> (c.note <==> Eligible(all[..k], d) != [] || sync.replies(n - 1).more))
            && (c.injected == [] ==> Eligible(all, d) == [] && !c.note)
            && |c.injected| <= 100 && (|c.injected| > 1 ==> |Told(c.injected)| <= 16_000)
            && (c.contextMaxTs.Some? ==> exists m :: m in all && m.ts == c.contextMaxTs)
            && (|Eligible(all, d)| <= 100 && |Told(Eligible(all, d))| <= 16_000 ==> c.injected == Eligible(all, d))
  {
    PagesAreReadExactly(sync.replies);
    var all, d := Joined(sync.replies, 0, n), Dedup(sync.botUserId, Cursor(h), sync.inFlight);
    var eligible := Eligible(all, d);
    k := EligibleSuffix(all, d, |eligible| - |c.injected|);
    AllowedExactlyWhen(c.injected);
    AllowedExactlyWhen(eligible);
    assert eligible[0..] == eligible;
  }

  /** And when a page fails, or the cursor is unknown, nothing is told and no tag is left. */
  lemma FailedSyncTellsNothing(sync: Sync, h: seq<Turn>, c: Context, n: nat)
    requires IsSyncResult(sync, h, c) && (sync.Replies? ==> FailsAt(sync.replies, n))
    ensures c.injected == [] && !c.note && c.contextMaxTs.None?
  {
    if sync.Replies? {
      PagesAreReadExactly(sync.replies);
    }
  }

  lemma MoveKeepsFaithful(s: State, c: CallId, stage: Stage)
    requires Faithful(s) && c < |s.calls| && Succeeded(s.calls[c].(stage := stage)) == Succeeded(s.calls[c])
    requires stage.Prepared? || stage.Invoking? ==>
               stage.turn.call == c && TellsOnlyNews(HistoryOf(s, s.calls[c].thread), stage.turn)
    requires stage.Invoking? ==> stage.base == HistoryOf(s, s.calls[c].thread)
    ensures Faithful(Moved(s, c, stage))
  {
    var s' := Moved(s, c, stage);
    forall d | 0 <= d < |s'.calls| ensures CallIsFaithful(s', d) {
      assert CallIsFaithful(s, d);
    }
    QuietStepKeepsFaithful(s, s');
  }

  lemma CommitAppendsSuccess(s: State, c: CallId, t: ThreadId)
    requires InOrder(s) && c < |s.calls| && s.calls[c].stage.Invoking?
    ensures var calls' := s.calls[c := s.calls[c].(stage := Returned(true))];
            Successes(calls', t, |calls'|)
                == Successes(s.calls, t, |s.calls|) + (if t == s.calls[c].thread then [c] else [])
  {
    var calls' := s.calls[c := s.calls[c].(stage := Returned(true))];
    if t == s.calls[c].thread {
      SuccessesAfterLast(calls', t, c + 1, |calls'|);
      SuccessesAfterLast(s.calls, t, c, |s.calls|);
      SuccessesIgnoreStages(s.calls, calls', t, c);
    } else {
      SuccessesIgnoreStages(s.calls, calls', t, |s.calls|);
    }
  }

  lemma CommitAppendsTurn(s: State, c: CallId, t: ThreadId)
    requires Faithful(s) && c < |s.calls| && s.calls[c].stage.Invoking?
    ensures HistoryOf(Next(s, Commit(c), true), t)
         == HistoryOf(s, t) + (if t == s.calls[c].thread then [s.calls[c].stage.turn] else [])
  {
    assert CallIsFaithful(s, c);
  }

  lemma CommitKeepsCalls(s: State, c: CallId, d: CallId)
    requires Faithful(s) && InOrder(s) && c < |s.calls| && s.calls[c].stage.Invoking? && d < |s.calls|
    ensures CallIsFaithful(Next(s, Commit(c), true), d)
  {
    CommitAppendsTurn(s, c, s.calls[d].thread);
    assert CallIsFaithful(s, d);
  }

  lemma AppendTellsOnlyNews(h: seq<Turn>, turn: Turn)
    requires forall i :: 0 <= i < |h| ==> TellsOnlyNews(h[..i], h[i])
    requires TellsOnlyNews(h, turn)
    ensures forall i :: 0 <= i < |h| + 1 ==> TellsOnlyNews((h + [turn])[..i], (h + [turn])[i])
  {
    forall i | 0 <= i < |h| + 1 ensures TellsOnlyNews((h + [turn])[..i], (h + [turn])[i]) {
      assert (h + [turn])[..i] == h[..i];
      assert h[..|h|] == h;
    }
  }

  lemma CommitKeepsFaithful(s: State, c: CallId)
    requires Faithful(s) && InOrder(s) && c < |s.calls| && s.calls[c].stage.Invoking?
    ensures Faithful(Next(s, Commit(c), true))
  {
    var s' := Next(s, Commit(c), true);
    assert CallIsFaithful(s, c);
    forall t: ThreadId
      ensures CallsOf(HistoryOf(s', t)) == Successes(s'.calls, t, |s'.calls|)
      ensures forall i :: 0 <= i < |HistoryOf(s', t)| ==> TellsOnlyNews(HistoryOf(s', t)[..i], HistoryOf(s', t)[i])
    {
      CommitAppendsTurn(s, c, t);
      CommitAppendsSuccess(s, c, t);
      assert CallsOf(HistoryOf(s, t)) == Successes(s.calls, t, |s.calls|);
      AppendTellsOnlyNews(HistoryOf(s, s.calls[c].thread), s.calls[c].stage.turn);
    }
    forall d | 0 <= d < |s'.calls| ensures CallIsFaithful(s', d) {
      CommitKeepsCalls(s, c, d);
    }
  }

  lemma EnterKeepsFaithful(s: State, th: ThreadId, triggerTs: Ts)
    requires Faithful(s)
    ensures Faithful(EnterQueue(s, th, triggerTs))
  {
    var s' := EnterQueue(s, th, triggerTs);
    forall d | 0 <= d < |s.calls| ensures CallIsFaithful(s', d) {
      assert CallIsFaithful(s, d);
    }
    QuietStepKeepsFaithful(s, s');
  }

  lemma EvictKeepsFaithful(s: State, c: CallId)
    requires Faithful(s) && c < |s.calls|
    ensures Faithful(EvictTail(s, c))
  {
    var s' := EvictTail(s, c);
    forall d | 0 <= d < |s.calls| ensures CallIsFaithful(s', d) {
      assert CallIsFaithful(s, d);
    }
    QuietStepKeepsFaithful(s, s');
  }

  lemma NextKeepsFaithful(s: State, a: Action)
    requires Faithful(s) && Orderly(s)
    ensures Faithful(Next(s, a, true))
  {
    if Enabled(s, a, true) {
      match a {
        case Enter(th, triggerTs) => EnterKeepsFaithful(s, th, triggerTs);
        case Begin(c) => MoveKeepsFaithful(s, c, Syncing);
        case SyncContext(c, sync, context) =>
          var call := s.calls[c];
          SyncTellsOnlyNews(sync, HistoryOf(s, call.thread), context, c, call.triggerTs);
          MoveKeepsFaithful(s, c, Prepared(Turn(c, call.triggerTs, context.contextMaxTs, Stamps(context.injected))));
        case Invoke(c) =>
          assert CallIsFaithful(s, c);
          MoveKeepsFaithful(s, c, Invoking(s.calls[c].stage.turn, HistoryOf(s, s.calls[c].thread)));
        case Commit(c) => CommitKeepsFaithful(s, c);
        case Fail(c) => MoveKeepsFaithful(s, c, Returned(false));
        case Release(c) => MoveKeepsFaithful(s, c, Released(s.calls[c].stage.ok));
        case Evict(c) => EvictKeepsFaithful(s, c);
      }
    }
  }

  lemma {:induction false} RunIsFaithful(actions: seq<Action>)
    ensures Faithful(Run(actions, true))
  {
    if actions == [] {
    } else {
      var n := |actions| - 1;
      RunIsFaithful(actions[..n]);
      RunIsOrderly(actions[..n]);
      NextKeepsFaithful(Run(actions[..n], true), actions[n]);
    }
  }

  /** With the queue, a thread's history is exactly its successful turns in call order. */
  lemma NoTurnIsLost(actions: seq<Action>, th: ThreadId)
    ensures var s := Run(actions, true);
            CallsOf(HistoryOf(s, th)) == Successes(s.calls, th, |s.calls|)
  {
    RunIsFaithful(actions);
  }

  /** No Slack message is told to two different turns, however often cursor or fetch failed. */
  lemma NothingIsToldTwice(actions: seq<Action>, th: ThreadId, i: nat, j: nat)
    requires i < j < |HistoryOf(Run(actions, true), th)|
    ensures var h := HistoryOf(Run(actions, true), th); h[i].injected !! h[j].injected
  {
    RunIsFaithful(actions);
    var h := HistoryOf(Run(actions, true), th);
    assert TellsOnlyNews(h[..j], h[j]) && TellsOnlyNews(h[..i], h[i]);
    assert h[i] == h[..j][i];
    assert h[i] in h[..j];
  }

  lemma NextExtendsHistory(s: State, a: Action, th: ThreadId)
    requires Faithful(s)
    ensures HistoryOf(s, th) <= HistoryOf(Next(s, a, true), th)
  {
    if Enabled(s, a, true) && a.Commit? {
      CommitAppendsTurn(s, a.call, th);
    }
  }

  lemma {:induction false} RunExtendsHistory(earlier: seq<Action>, later: seq<Action>, th: ThreadId)
    ensures HistoryOf(Run(earlier, true), th) <= HistoryOf(Run(earlier + later, true), th)
    decreases |later|
  {
    if later == [] {
      assert earlier + later == earlier;
    } else {
      var n := |later| - 1;
      RunExtendsHistory(earlier, later[..n], th);
      RunIsFaithful(earlier + later[..n]);
      assert (earlier + later)[..|earlier + later| - 1] == earlier + later[..n];
      NextExtendsHistory(Run(earlier + later[..n], true), later[n], th);
    }
  }

  lemma CursorOfExtension(h: seq<Turn>, more: seq<Turn>)
    requires h != []
    ensures Cursor(h + more).Some? && Cursor(h).value <= Cursor(h + more).value
  {
    var c := Cursor(h);
    assert exists t :: t in h && NewestTag(t) == c.value;
    var t :| t in h && NewestTag(t) == c.value;
    assert t in h + more;
  }

  /** A thread's cursor never goes back, and never back to a cold start. */
  lemma {:induction false} CursorNeverDecreases(earlier: seq<Action>, later: seq<Action>, th: ThreadId)
    requires HistoryOf(Run(earlier, true), th) != []
    ensures var c, d := Cursor(HistoryOf(Run(earlier, true), th)), Cursor(HistoryOf(Run(earlier + later, true), th));
            d.Some? && c.value <= d.value
  {
    RunExtendsHistory(earlier, later, th);
    var h, g := HistoryOf(Run(earlier, true), th), HistoryOf(Run(earlier + later, true), th);
    assert g == h + g[|h|..];
    CursorOfExtension(h, g[|h|..]);
  }

  /* ---- what the queue is for ---- */

  lemma Unqueued(actions: seq<Action>, a: Action) returns (actions': seq<Action>, s: State)
    ensures s == Next(Run(actions, false), a, false) == Run(actions', false)
  {
    actions' := actions + [a];
    assert actions'[..|actions|] == actions;
    s := Next(Run(actions, false), a, false);
  }

  /** Without it, two turns on one thread can both succeed and leave one of them out of the
      history. */
  lemma WithoutTheQueueATurnIsLost(th: ThreadId) returns (actions: seq<Action>)
    ensures var s := Run(actions, false);
            && Successes(s.calls, th, |s.calls|) == [0, 1]
            && CallsOf(HistoryOf(s, th)) == [1]
  {
    var s;
    actions, s := BothBegin(th);
    actions, s := BothInvoke(actions, s, th);
    actions, s := BothCommit(actions, s, th);
  }

  lemma {:induction false} BothBegin(th: ThreadId) returns (actions: seq<Action>, s: State)
    ensures s == Run(actions, false) && |s.calls| == 2 && s.history == map[]
    ensures s.calls[0].stage.Syncing? && s.calls[1].stage.Syncing?
    ensures s.calls[0].thread == s.calls[1].thread == th && s.calls[0].triggerTs == 1 && s.calls[1].triggerTs == 2
  {
    actions, s := Unqueued([], Enter(th, 1));
    actions, s := Unqueued(actions, Enter(th, 2));
    actions, s := Unqueued(actions, Begin(0));
    actions, s := Unqueued(actions, Begin(1));
  }

  lemma {:induction false} BothCommit(actions: seq<Action>, s: State, th: ThreadId)
    returns (actions': seq<Action>, s': State)
    requires s == Run(actions, false) && |s.calls| == 2 && s.history == map[]
    requires s.calls[0].thread == s.calls[1].thread == th
    requires s.calls[0].stage == Invoking(Turn(0, 1, None, {}), [])
             && s.calls[1].stage == Invoking(Turn(1, 2, None, {}), [])
    ensures s' == Run(actions', false) && Successes(s'.calls, th, |s'.calls|) == [0, 1]
    ensures CallsOf(HistoryOf(s', th)) == [1]
  {
    actions', s' := Unqueued(actions, Commit(0));
    assert s'.calls[1].stage == s.calls[1].stage;
    actions', s' := Unqueued(actions', Commit(1));
    assert HistoryOf(s', th) == [Turn(1, 2, None, {})];
    assert Successes(s'.calls, th, 0) == [] && Successes(s'.calls, th, 1) == [0];
  }

  lemma BothInvoke(actions: seq<Action>, s: State, th: ThreadId) returns (actions': seq<Action>, s': State)
    requires s == Run(actions, false) && |s.calls| == 2 && s.history == map[]
    requires s.calls[0].stage.Syncing? && s.calls[1].stage.Syncing?
    requires s.calls[0].thread == s.calls[1].thread == th && s.calls[0].triggerTs == 1 && s.calls[1].triggerTs == 2
    ensures s' == Run(actions', false) && |s'.calls| == 2 && s'.history == map[]
    ensures s'.calls[0].thread == s'.calls[1].thread == th
    ensures s'.calls[0].stage == Invoking(Turn(0, 1, None, {}), [])
    ensures s'.calls[1].stage == Invoking(Turn(1, 2, None, {}), [])
  {
    assert Stamps([]) == {};
    actions', s' := Unqueued(actions, SyncContext(0, CursorUnknown, EMPTY_CONTEXT));
    actions', s' := Unqueued(actions', SyncContext(1, CursorUnknown, EMPTY_CONTEXT));
    actions', s' := Unqueued(actions', Invoke(0));
    actions', s' := Unqueued(actions', Invoke(1));
  }

  /* ---- the queue as it is written ---- */

  /** `createThreadTurnQueue`: the map of tails, updated as calls come and as their tail
      promises resolve. */
  class ThreadTurnQueue {
    var calls: seq<Call>
    var tails: map<ThreadId, CallId>

    constructor ()
      ensures calls == [] && tails == map[]
    {
      calls, tails := [], map[];
    }

    /** `run`: chain behind the current tail, if any, and become the tail. */
    method Run(th: ThreadId, triggerTs: Ts) returns (call: CallId)
      modifies this
      ensures call == |old(calls)|
      ensures forall history ::
                State(calls, tails, history) == EnterQueue(State(old(calls), old(tails), history), th, triggerTs)
    {
      var prior := if th in tails then Some(tails[th]) else None;
      call := |calls|;
      calls := calls + [Call(th, triggerTs, prior, Queued, false)];
      tails := tails[th := call];
    }

    /** What a call's own tail promise does when it resolves. */
    method OnSettled(call: CallId)
      requires call < |calls|
      modifies this
      ensures forall history ::
                State(calls, tails, history) == EvictTail(State(old(calls), old(tails), history), call)
    {
      var th := calls[call].thread;
      calls := calls[call := calls[call].(evicted := true)];
      if th in tails && tails[th] == call {
        tails := tails - {th};
      }
    }
  }
}
