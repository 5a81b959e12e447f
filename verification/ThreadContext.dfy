/**
  Which unseen messages of a Slack thread are folded into a turn: paging, the rules that
  keep a message from being told twice, and the two limits on how much is told.
 */
module ThreadContext {
  import opened Shared

  /** A Slack timestamp, in microseconds. */
  type Ts = nat

  /** A thread reply, with the line it would be told as. */
  datatype Message = Message(ts: Option<Ts>, userId: Option<string>, botId: Option<string>, line: string)

  /** What decides whether a message has been seen: the bot's own user, the thread's cursor
      (`None` before the first turn), and the messages other turns are working on. */
  datatype Dedup = Dedup(botUserId: string, cursor: Option<Ts>, inFlight: set<Ts>)

  predicate ShouldInject(m: Message, d: Dedup) {
    && m.ts.Some?
    && (d.cursor.Some? ==> m.ts.value > d.cursor.value)
    && (if m.userId == Some(d.botUserId) then d.cursor.None?
        else m.botId.Some? || m.ts.value !in d.inFlight)
  }

  function Eligible(messages: seq<Message>, d: Dedup): (r: seq<Message>)
    ensures forall m :: m in r <==> m in messages && ShouldInject(m, d)
  {
    if messages == [] then []
    else
      var n := |messages| - 1;
      assert messages == messages[..n] + [messages[n]];
      Eligible(messages[..n], d) + (if ShouldInject(messages[n], d) then [messages[n]] else [])
  }

  /** Message by message, in fetch order. */
  lemma {:induction false} EligibleConcat(a: seq<Message>, b: seq<Message>, d: Dedup)
    ensures Eligible(a + b, d) == Eligible(a, d) + Eligible(b, d)
    decreases |b|
  {
    if b == [] {
      assert a + b == a;
    } else {
      var n := |b| - 1;
      EligibleConcat(a, b[..n], d);
      assert (a + b)[..|a + b| - 1] == a + b[..n] && (a + b)[|a + b| - 1] == b[n];
    }
  }

  /** One message: none without a timestamp, nothing up to the cursor, the bot's own words only
      before its first turn, other bots' always, and a user's unless in flight. */
  lemma EligibleOne(m: Message, d: Dedup)
    ensures var own := m.userId == Some(d.botUserId);
            Eligible([m], d)
            == if && m.ts.Some? && (d.cursor.Some? ==> d.cursor.value < m.ts.value) && (own ==> d.cursor.None?)
                  && (!own && m.botId.None? ==> m.ts.value !in d.inFlight)
               then [m] else []
  {
    assert [m][..0] == [] && Eligible([], d) == [];
  }

  /** The newest of the eligible messages are the eligible ones among the newest. */
  lemma {:induction false} EligibleSuffix(all: seq<Message>, d: Dedup, n: nat) returns (k: nat)
    requires n <= |Eligible(all, d)|
    ensures k <= |all| && Eligible(all[k..], d) == Eligible(all, d)[n..]
    ensures |Eligible(all[..k], d)| == n
  {
    k := EligiblePrefix(all, d, n);
    var (older, newer) := (all[..k], all[k..]);
    EligibleConcat(older, newer, d);
    assert older + newer == all;
    assert (Eligible(older, d) + Eligible(newer, d))[n..] == Eligible(newer, d);
  }

  lemma {:induction false} EligiblePrefix(all: seq<Message>, d: Dedup, n: nat) returns (k: nat)
    requires n <= |Eligible(all, d)|
    ensures k <= |all| && |Eligible(all[..k], d)| == n
  {
    if n == |Eligible(all, d)| {
      k := |all|;
      assert all[..k] == all;
    } else {
      var last := |all| - 1;
      k := EligiblePrefix(all[..last], d, n);
      assert all[..last][..k] == all[..k];
    }
  }

  method SelectForInjection(messages: seq<Message>, d: Dedup) returns (r: seq<Message>)
    ensures r == Eligible(messages, d)
  {
    r := [];
    for i := 0 to |messages|
      invariant r == Eligible(messages[..i], d)
    {
      assert messages[..i + 1][..i] == messages[..i];
      if ShouldInject(messages[i], d) {
        r := r + [messages[i]];
      }
    }
    assert messages[..|messages|] == messages;
  }

  ghost predicate IsNewest(messages: seq<Message>, max: Option<Ts>) {
    && (max.None? <==> forall m :: m in messages ==> m.ts.None?)
    && (max.Some? ==> exists m :: m in messages && m.ts == max)
    && (max.Some? ==> forall m :: m in messages && m.ts.Some? ==> m.ts.value <= max.value)
  }

  /** The newest timestamp of all, eligible or not. */
  method MaxTsOf(messages: seq<Message>) returns (max: Option<Ts>)
    ensures IsNewest(messages, max)
  {
    max := None;
    for i := 0 to |messages|
      invariant IsNewest(messages[..i], max)
    {
      assert messages[..i + 1] == messages[..i] + [messages[i]];
      if messages[i].ts.Some? && (max.None? || messages[i].ts.value > max.value) {
        max := messages[i].ts;
      }
    }
    assert messages[..|messages|] == messages;
  }

  /* ---- paging ---- */

  const REPLIES_MAX_PAGES: nat := 5

  datatype PageReply = FetchFailed | Page(messages: seq<Message>, more: bool)

  datatype Fetched = Fetched(messages: seq<Message>, cut: bool)

  /** The pages from the `n`th on, as far as they are read. */
  function PagesFrom(replies: nat -> PageReply, n: nat): Option<Fetched>
    requires n < REPLIES_MAX_PAGES
    decreases REPLIES_MAX_PAGES - n
  {
    match replies(n)
    case FetchFailed => None
    case Page(messages, more) =>
      if !more then Some(Fetched(messages, false))
      else if n + 1 == REPLIES_MAX_PAGES then Some(Fetched(messages, true))
      else match PagesFrom(replies, n + 1)
        case None => None
        case Some(rest) => Some(Fetched(messages + rest.messages, rest.cut))
  }

  /** `n` pages are read: each but the last has more behind it, and the last has none or is
      the fifth. */
  ghost predicate ReadsPages(replies: nat -> PageReply, n: nat) {
    && 1 <= n <= 5 && (forall i :: 0 <= i < n ==> replies(i).Page?)
    && (forall i :: 0 <= i < n - 1 ==> replies(i).more) && (replies(n - 1).more ==> n == 5)
  }

  /** The `n`th page is asked for and fails. */
  ghost predicate FailsAt(replies: nat -> PageReply, n: nat) {
    n < 5 && replies(n).FetchFailed? && forall i :: 0 <= i < n ==> replies(i).Page? && replies(i).more
  }

  /** The messages of the pages from the `i`th up to the `n`th, one page after the other. */
  function Joined(replies: nat -> PageReply, i: nat, n: nat): seq<Message>
    requires i <= n && forall k :: i <= k < n ==> replies(k).Page?
    decreases n - i
  {
    if i == n then [] else replies(i).messages + Joined(replies, i + 1, n)
  }

  lemma {:induction false} PagesFromAre(replies: nat -> PageReply, n: nat, i: nat)
    requires i < n && ReadsPages(replies, n)
    ensures PagesFrom(replies, i) == Some(Fetched(Joined(replies, i, n), replies(n - 1).more))
    decreases n - i
  {
    if i + 1 < n {
      PagesFromAre(replies, n, i + 1);
    } else {
      assert replies(i).messages + Joined(replies, n, n) == replies(i).messages;
    }
  }

  lemma {:induction false} PagesFromFail(replies: nat -> PageReply, n: nat, i: nat)
    requires i <= n && FailsAt(replies, n)
    ensures PagesFrom(replies, i).None?
    decreases n - i
  {
    if i < n {
      PagesFromFail(replies, n, i + 1);
    }
  }

  /** Paging ends: with every page read, or with one that fails. */
  lemma {:induction false} PagingEnds(replies: nat -> PageReply, i: nat) returns (n: nat)
    requires i < 5 && forall k :: 0 <= k < i ==> replies(k).Page? && replies(k).more
    ensures ReadsPages(replies, n) || FailsAt(replies, n)
    decreases 5 - i
  {
    if replies(i).FetchFailed? {
      n := i;
    } else if replies(i).more && i + 1 < 5 {
      n := PagingEnds(replies, i + 1);
    } else {
      n := i + 1;
    }
  }

  /** What paging gives, from the pages alone: all messages of all pages read, in order, and
      whether more were to come; or nothing, exactly if a page fails. */
  lemma PagesAreReadExactly(replies: nat -> PageReply)
    ensures forall n: nat :: ReadsPages(replies, n) ==>
              PagesFrom(replies, 0) == Some(Fetched(Joined(replies, 0, n), replies(n - 1).more))
    ensures PagesFrom(replies, 0).Some? <==> exists n: nat :: ReadsPages(replies, n)
    ensures PagesFrom(replies, 0).None? <==> exists n: nat :: FailsAt(replies, n)
  {
    forall n: nat | ReadsPages(replies, n)
      ensures PagesFrom(replies, 0) == Some(Fetched(Joined(replies, 0, n), replies(n - 1).more))
    {
      PagesFromAre(replies, n, 0);
    }
    forall n: nat | FailsAt(replies, n) ensures PagesFrom(replies, 0).None? {
      PagesFromFail(replies, n, 0);
    }
    var n := PagingEnds(replies, 0);
  }

  lemma {:induction false} EveryPageIsJoined(replies: nat -> PageReply, i: nat, k: nat, n: nat)
    requires i <= k < n && forall j :: i <= j < n ==> replies(j).Page?
    ensures forall m :: m in replies(k).messages ==> m in Joined(replies, i, n)
    decreases n - i
  {
    if i < k {
      EveryPageIsJoined(replies, i + 1, k, n);
    }
  }

  method FetchThreadReplies(replies: nat -> PageReply) returns (r: Option<Fetched>)
    ensures r == PagesFrom(replies, 0)
  {
    var messages, pages := [], 0;
    assert forall rest: seq<Message> :: messages + rest == rest;
    while true
      invariant pages < REPLIES_MAX_PAGES
      invariant PagesFrom(replies, 0) == match PagesFrom(replies, pages)
                  case None => None
                  case Some(rest) => Some(Fetched(messages + rest.messages, rest.cut))
      decreases REPLIES_MAX_PAGES - pages
    {
      var page := replies(pages);
      if page.FetchFailed? {
        return None;
      }
      ghost var before := messages;
      messages := messages + page.messages;
      if !page.more {
        return Some(Fetched(messages, false));
      }
      if pages + 1 == REPLIES_MAX_PAGES {
        return Some(Fetched(messages, true));
      }
      assert forall rest: seq<Message> :: before + (page.messages + rest) == messages + rest;
      pages := pages + 1;
    }
  }

  /* ---- the limits ---- */

  const MESSAGE_LIMIT: nat := 100
  const CHAR_BUDGET: nat := 16_000

  /** Characters of the lines, one more for each line's end. */
  function Cost(messages: seq<Message>): nat {
    if messages == [] then 0 else |messages[0].line| + 1 + Cost(messages[1..])
  }

  /** The lines one after the other, each ended. */
  function Told(messages: seq<Message>): string {
    if messages == [] then "" else messages[0].line + "\n" + Told(messages[1..])
  }

  lemma {:induction false} CostIsLength(messages: seq<Message>)
    ensures Cost(messages) == |Told(messages)|
  {
    if messages != [] {
      CostIsLength(messages[1..]);
    }
  }

  /** The newest message is told whatever it costs. */
  predicate WithinBudget(s: seq<Message>) {
    |s| <= 1 || Cost(s) <= CHAR_BUDGET
  }

  lemma {:induction false} CostGrows(s: seq<Message>, i: nat, j: nat)
    requires i <= j <= |s|
    ensures Cost(s[i..]) >= Cost(s[j..])
    decreases j - i
  {
    if i < j {
      CostGrows(s, i + 1, j);
      assert s[i..][1..] == s[i + 1..];
    }
  }

  /** Walks from the newest line back; stops at the first that no longer fits. */
  method FitByCharBudget(s: seq<Message>) returns (startIndex: nat, truncated: bool)
    ensures startIndex <= |s| && (s != [] ==> startIndex < |s|)
    ensures truncated <==> startIndex > 0
    ensures WithinBudget(s[startIndex..])
    ensures forall k :: 0 <= k < startIndex ==> !WithinBudget(s[k..])
  {
    var total := 0;
    startIndex := |s|;
    var i := |s|;
    while i > 0
      invariant 0 <= i == startIndex <= |s|
      invariant total == Cost(s[i..]) && WithinBudget(s[i..])
    {
      assert s[i - 1..][1..] == s[i..];
      var nextTotal := total + |s[i - 1].line| + 1;
      if nextTotal > CHAR_BUDGET && startIndex < |s| {
        forall k | 0 <= k < startIndex ensures !WithinBudget(s[k..]) {
          CostGrows(s, k, i - 1);
        }
        break;
      }
      total := nextTotal;
      i := i - 1;
      startIndex := i;
    }
    truncated := startIndex > 0;
  }

  /** Both limits at once. */
  predicate Allowed(s: seq<Message>) {
    |s| <= MESSAGE_LIMIT && WithinBudget(s)
  }

  /** A hundred messages, and sixteen thousand characters unless it is a single message. */
  lemma AllowedExactlyWhen(s: seq<Message>)
    ensures Allowed(s) <==> |s| <= 100 && (|s| > 1 ==> |Told(s)| <= 16_000)
  {
    CostIsLength(s);
  }

  /** `s` is the longest suffix of `all` that both limits allow. */
  ghost predicate IsLongestAllowedSuffix(all: seq<Message>, s: seq<Message>) {
    && |s| <= |all| && s == all[|all| - |s|..] && Allowed(s)
    && (all != [] ==> s != [])
    && forall i :: 0 <= i < |all| - |s| ==> !Allowed(all[i..])
  }

  /** There is only one such suffix. */
  lemma LongestAllowedSuffixIsUnique(all: seq<Message>, s: seq<Message>, t: seq<Message>)
    requires IsLongestAllowedSuffix(all, s) && IsLongestAllowedSuffix(all, t)
    ensures s == t
  {
  }

  /** What a turn is told: the messages, whether the omission note leads them, and the
      newest timestamp the fetch saw. */
  datatype Context = Context(injected: seq<Message>, note: bool, contextMaxTs: Option<Ts>)

  const EMPTY_CONTEXT := Context([], false, None)

  /** Cuts the eligible messages to both limits. */
  method FitBoth(selected: seq<Message>, cut: bool) returns (budgeted: seq<Message>, note: bool)
    ensures IsLongestAllowedSuffix(selected, budgeted)
    ensures note <==> |budgeted| < |selected| || cut
  {
    var truncatedByCount := |selected| > MESSAGE_LIMIT;
    var windowed := if truncatedByCount then selected[|selected| - MESSAGE_LIMIT..] else selected;
    var startIndex, truncatedByBudget := FitByCharBudget(windowed);
    budgeted := windowed[startIndex..];
    SuffixIsLongest(selected, windowed, startIndex);
    note := truncatedByCount || truncatedByBudget || cut;
  }

  /** What the fetched messages make of a turn's context. */
  ghost predicate IsContextOf(f: Fetched, d: Dedup, c: Context) {
    var eligible := Eligible(f.messages, d);
    && IsLongestAllowedSuffix(eligible, c.injected)
    && (c.note <==> c.injected != [] && (|c.injected| < |eligible| || f.cut))
    && IsNewest(f.messages, c.contextMaxTs)
  }

  method SyncThreadContext(replies: nat -> PageReply, d: Dedup) returns (c: Context)
    ensures PagesFrom(replies, 0).None? ==> c == EMPTY_CONTEXT
    ensures PagesFrom(replies, 0).Some? ==> IsContextOf(PagesFrom(replies, 0).value, d, c)
  {
    var fetched := FetchThreadReplies(replies);
    if fetched.None? {
      return EMPTY_CONTEXT;
    }
    var contextMaxTs := MaxTsOf(fetched.value.messages);
    if fetched.value.messages == [] {
      return EMPTY_CONTEXT;
    }
    var selected := SelectForInjection(fetched.value.messages, d);
    var budgeted, note := FitBoth(selected, fetched.value.cut);
    c := Context(budgeted, budgeted != [] && note, contextMaxTs);
  }

  lemma SuffixIsLongest(all: seq<Message>, windowed: seq<Message>, startIndex: nat)
    requires windowed == if |all| > MESSAGE_LIMIT then all[|all| - MESSAGE_LIMIT..] else all
    requires startIndex <= |windowed| && (windowed != [] ==> startIndex < |windowed|)
    requires WithinBudget(windowed[startIndex..])
    requires forall k :: 0 <= k < startIndex ==> !WithinBudget(windowed[k..])
    ensures IsLongestAllowedSuffix(all, windowed[startIndex..])
  {
    var s := windowed[startIndex..];
    assert s == all[|all| - |s|..];
    forall i | 0 <= i < |all| - |s| ensures !Allowed(all[i..]) {
      if |all| - i <= MESSAGE_LIMIT {
        assert all[i..] == windowed[|windowed| - |all| + i..];
      }
    }
  }
}
