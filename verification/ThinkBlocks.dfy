/** Removing a model's inline reasoning from a reply
    (src/plugins/llm-agent/conversation-agent/strip-think-blocks.ts). */
module ThinkBlocks {

  /** All that is used of the two tags: they start with their only `<` and end with `>`. */
  predicate IsBracketed(s: string) {
    |s| > 1 && s[0] == '<' && s[|s| - 1] == '>' && forall k | 0 < k < |s| :: s[k] != '<'
  }

  type Tag = s: string | IsBracketed(s) witness "<>"

  const OPEN: Tag := "<think>"
  const CLOSE: Tag := "</think>"

  // ---- finding tags, in any letter case ----

  function Lower(c: char): char {
    if 'A' <= c <= 'Z' then c - 'A' + 'a' else c
  }

  /** `text` from `i` on agrees with the first `n` letters of the tag. */
  predicate Agrees(text: string, i: nat, tag: string, n: nat)
    requires i + n <= |text| && n <= |tag|
  {
    n == 0 || (Agrees(text, i, tag, n - 1) && Lower(text[i + n - 1]) == tag[n - 1])
  }

  predicate TagAt(text: string, tag: Tag, i: nat) {
    i + |tag| <= |text| && Agrees(text, i, tag, |tag|)
  }

  predicate IsTag(s: string, tag: Tag) {
    |s| == |tag| && TagAt(s, tag, 0)
  }

  predicate Contains(text: string, tag: Tag) {
    exists i: nat | i < |text| :: TagAt(text, tag, i)
  }

  predicate IsFirst(text: string, tag: Tag, from: nat, at: int) {
    from <= at < |text| && TagAt(text, tag, at) && forall i: nat | from <= i < at :: !TagAt(text, tag, i)
  }

  predicate IsIndex(text: string, tag: Tag, from: nat, at: int) {
    if at == -1 then forall i: nat | from <= i < |text| :: !TagAt(text, tag, i)
    else IsFirst(text, tag, from, at)
  }

  /** The leftmost occurrence at or after `from`, or -1. */
  function Find(text: string, tag: Tag, from: nat): (at: int)
    requires from <= |text|
    ensures at == -1 || from <= at <= |text| - |tag|
    decreases |text| - from
  {
    if from == |text| then -1
    else if TagAt(text, tag, from) then from
    else Find(text, tag, from + 1)
  }

  lemma {:induction false} FindIsIndex(text: string, tag: Tag, from: nat)
    requires from <= |text|
    ensures IsIndex(text, tag, from, Find(text, tag, from))
    decreases |text| - from
  {
    if from < |text| && !TagAt(text, tag, from) {
      FindIsIndex(text, tag, from + 1);
    }
  }

  // ---- a reply as visible text and reasoning ----

  /** A reply, read from the left: visible text up to the first opening tag, the reasoning up
      to the first closing tag after it, and so on. */
  datatype Reply =
    | Plain(visible: string)
    | Block(visible: string, start: string, thought: string, end: string, rest: Reply)
    | Unclosed(visible: string, start: string, thought: string)

  function Render(r: Reply): string {
    match r
    case Plain(v) => v
    case Block(v, start, t, end, rest) => v + start + t + end + Render(rest)
    case Unclosed(v, start, t) => v + start + t
  }

  /** What the reader of the reply is meant to see. */
  function Visible(r: Reply): string {
    match r
    case Plain(v) => v
    case Block(v, _, _, _, rest) => v + Visible(rest)
    case Unclosed(v, _, _) => v
  }

  /** Reasoning that was cut off before its closing tag. */
  function Tail(r: Reply): string {
    match r
    case Plain(_) => ""
    case Block(_, _, _, _, rest) => Tail(rest)
    case Unclosed(_, start, t) => start + t
  }

  /** The text split by successive matches of an opening tag and the nearest closing tag after it. */
  function Read(text: string, from: nat, open: Tag, close: Tag): Reply
    requires from <= |text|
    decreases |text| - from
  {
    var i := Find(text, open, from);
    if i == -1 then Plain(text[from..]) else
    var body := i + |open|;
    var j := Find(text, close, body);
    if j == -1 then Unclosed(text[from..i], text[i..body], text[body..]) else
    var after := j + |close|;
    Block(text[from..i], text[i..body], text[body..j], text[j..after], Read(text, after, open, close))
  }

  // ---- stripThinkBlocks ----

  /** Replaces every closed block by nothing. */
  function RemoveBlocks(text: string, open: Tag, close: Tag): string {
    var r := Read(text, 0, open, close);
    Visible(r) + Tail(r)
  }

  function CutUnclosed(text: string, open: Tag): string {
    var i := Find(text, open, 0);
    if i == -1 then text else text[..i]
  }

  /** The white space and line terminators that `String.prototype.trim` removes. */
  predicate IsSpace(c: char) {
    || '\t' <= c <= '\r' || c == ' ' || c == '\U{A0}' || c == '\U{1680}' || '\U{2000}' <= c <= '\U{200A}'
    || c == '\U{2028}' || c == '\U{2029}' || c == '\U{202F}' || c == '\U{205F}' || c == '\U{3000}' || c == '\U{FEFF}'
  }

  function TrimStart(text: string): string {
    if text != [] && IsSpace(text[0]) then TrimStart(text[1..]) else text
  }

  function TrimEnd(text: string): string {
    if text != [] && IsSpace(text[|text| - 1]) then TrimEnd(text[..|text| - 1]) else text
  }

  function Trim(text: string): string {
    TrimEnd(TrimStart(text))
  }

  datatype Stripped = Stripped(text: string, stripped: bool)

  function StripThinkBlocks(text: string): Stripped {
    var withoutThinkBlocks := CutUnclosed(RemoveBlocks(text, OPEN, CLOSE), OPEN);
    Stripped(Trim(withoutThinkBlocks), withoutThinkBlocks != text)
  }

  // ---- what a reading is, independently of how it is found ----

  ghost predicate IsReading(r: Reply, open: Tag, close: Tag) {
    !Contains(r.visible, open) &&
    match r
    case Plain(_) => true
    case Block(_, start, t, end, rest) =>
      IsTag(start, open) && IsTag(end, close) && !Contains(t, close) && IsReading(rest, open, close)
    case Unclosed(_, start, t) => IsTag(start, open) && !Contains(t, close)
  }

  // ---- tags do not straddle ----

  lemma FirstIsUnique(text: string, tag: Tag, from: nat, at: int)
    requires from <= |text| && IsIndex(text, tag, from, at)
    ensures Find(text, tag, from) == at
  {
    FindIsIndex(text, tag, from);
  }

  lemma {:induction false} AgreesAt(text: string, i: nat, tag: string, n: nat, k: nat)
    requires k < n <= |tag| && i + n <= |text|
    requires Agrees(text, i, tag, n)
    ensures Lower(text[i + k]) == tag[k]
  {
    if k < n - 1 {
      AgreesAt(text, i, tag, n - 1, k);
    }
  }

  /** The tags, letter by letter: each letter in either case, the rest as it is. */
  lemma TagsInAnyCase(s: string)
    ensures IsTag(s, OPEN) <==>
              && |s| == 7 && s[0] == '<' && s[1] in {'t', 'T'} && s[2] in {'h', 'H'} && s[3] in {'i', 'I'}
              && s[4] in {'n', 'N'} && s[5] in {'k', 'K'} && s[6] == '>'
    ensures IsTag(s, CLOSE) <==>
              && |s| == 8 && s[0] == '<' && s[1] == '/' && s[2] in {'t', 'T'} && s[3] in {'h', 'H'}
              && s[4] in {'i', 'I'} && s[5] in {'n', 'N'} && s[6] in {'k', 'K'} && s[7] == '>'
  {
    if |s| == 7 {
      assert Agrees(s, 0, OPEN, 1) <==> s[0] == '<';
      assert Agrees(s, 0, OPEN, 2) <==> s[0] == '<' && s[1] in {'t', 'T'};
      assert Agrees(s, 0, OPEN, 4) <==> Agrees(s, 0, OPEN, 2) && s[2] in {'h', 'H'} && s[3] in {'i', 'I'};
      assert Agrees(s, 0, OPEN, 6) <==> Agrees(s, 0, OPEN, 4) && s[4] in {'n', 'N'} && s[5] in {'k', 'K'};
    }
    if |s| == 8 {
      assert Agrees(s, 0, CLOSE, 1) <==> s[0] == '<';
      assert Agrees(s, 0, CLOSE, 2) <==> s[0] == '<' && s[1] == '/';
      assert Agrees(s, 0, CLOSE, 4) <==> Agrees(s, 0, CLOSE, 2) && s[2] in {'t', 'T'} && s[3] in {'h', 'H'};
      assert Agrees(s, 0, CLOSE, 6) <==> Agrees(s, 0, CLOSE, 4) && s[4] in {'i', 'I'} && s[5] in {'n', 'N'};
      assert Agrees(s, 0, CLOSE, 8) <==> Agrees(s, 0, CLOSE, 6) && s[6] in {'k', 'K'} && s[7] == '>';
    }
  }

  lemma {:induction false} AgreesInPart(before: string, part: string, after: string, tag: string, i: nat, n: nat)
    requires i + n <= |part| && n <= |tag|
    ensures Agrees(before + part + after, |before| + i, tag, n) <==> Agrees(part, i, tag, n)
  {
    if n == 0 {
    } else {
      AgreesInPart(before, part, after, tag, i, n - 1);
      assert (before + part + after)[|before| + i + n - 1] == part[i + n - 1];
    }
  }

  lemma TagInPart(before: string, part: string, after: string, tag: Tag, i: nat)
    requires i + |tag| <= |part|
    ensures TagAt(before + part + after, tag, |before| + i) <==> TagAt(part, tag, i)
  {
    AgreesInPart(before, part, after, tag, i, |tag|);
  }

  /** In `before + part + found + after`, where `part` has no tag and `found` is one, the
      first tag from `part` on is `found`. */
  lemma FirstTagIsFound(before: string, part: string, found: string, after: string, tag: Tag)
    requires !Contains(part, tag) && IsTag(found, tag)
    ensures Find(before + part + found + after, tag, |before|) == |before + part|
  {
    var text := before + part + found + after;
    var at := |before + part|;
    assert text == before + part + found + after;
    TagInPart(before + part, found, after, tag, 0);
    AgreesAt(text, at, tag, |tag|, 0);
    forall i: nat | |before| <= i < at ensures !TagAt(text, tag, i) {
      if i + |tag| <= at {
        assert text == before + part + (found + after);
        TagInPart(before, part, found + after, tag, i - |before|);
      } else if TagAt(text, tag, i) {
        AgreesAt(text, i, tag, |tag|, at - i);
      }
    }
    FirstIsUnique(text, tag, |before|, at);
  }

  lemma BeforeFirstTag(text: string, tag: Tag, from: nat, at: nat)
    requires from <= at <= |text|
    requires forall i: nat | from <= i < at :: !TagAt(text, tag, i)
    ensures !Contains(text[from..at], tag)
  {
    var part := text[from..at];
    assert text == text[..from] + part + text[at..];
    forall i: nat | i < |part| ensures !TagAt(part, tag, i) {
      if i + |tag| <= |part| {
        TagInPart(text[..from], part, text[at..], tag, i);
      }
    }
  }

  // ---- every text has exactly one reading ----

  lemma ReadsBlock(text: string, from: nat, i: nat, body: nat, j: nat, after: nat, open: Tag, close: Tag)
    requires from <= i && body == i + |open| <= j && after == j + |close| <= |text|
    requires Find(text, open, from) == i && Find(text, close, body) == j
    ensures Read(text, from, open, close)
            == Block(text[from..i], text[i..body], text[body..j], text[j..after], Read(text, after, open, close))
  {
  }

  lemma BlockRenders(text: string, o: nat, a: nat, b: nat, c: nat, d: nat, rest: Reply)
    requires o <= a <= b <= c <= d <= |text| && Render(rest) == text[d..]
    ensures Render(Block(text[o..a], text[a..b], text[b..c], text[c..d], rest)) == text[o..]
  {
  }

  lemma {:induction false} ReadRenders(text: string, from: nat, open: Tag, close: Tag)
    requires from <= |text|
    ensures Render(Read(text, from, open, close)) == text[from..]
    decreases |text| - from
  {
    var i := Find(text, open, from);
    if i != -1 {
      var body := i + |open|;
      var j := Find(text, close, body);
      if j == -1 {
        assert text[from..i] + text[i..body] + text[body..] == text[from..];
      } else {
        var after := j + |close|;
        ReadRenders(text, after, open, close);
        BlockRenders(text, from, i, body, j, after, Read(text, after, open, close));
        ReadsBlock(text, from, i, body, j, after, open, close);
      }
    }
  }

  lemma {:induction false} ReadIsAReading(text: string, from: nat, open: Tag, close: Tag)
    requires from <= |text|
    ensures IsReading(Read(text, from, open, close), open, close)
    decreases |text| - from
  {
    var i := Find(text, open, from);
    FindSplits(text, open, from);
    if i != -1 {
      var body := i + |open|;
      var j := Find(text, close, body);
      FindSplits(text, close, body);
      if j != -1 {
        ReadIsAReading(text, j + |close|, open, close);
      }
    }
  }

  lemma {:induction false} FindSplits(text: string, tag: Tag, from: nat)
    requires from <= |text|
    ensures var at := Find(text, tag, from);
            if at == -1 then !Contains(text[from..], tag)
            else !Contains(text[from..at], tag) && IsTag(text[at..at + |tag|], tag)
  {
    FindIsIndex(text, tag, from);
    var at := Find(text, tag, from);
    if at == -1 {
      BeforeFirstTag(text, tag, from, |text|);
      assert text[from..] == text[from..|text|];
    } else {
      BeforeFirstTag(text, tag, from, at);
      var found := text[at..at + |tag|];
      assert text == text[..at] + found + text[at + |tag|..];
      TagInPart(text[..at], found, text[at + |tag|..], tag, 0);
    }
  }

  /** Where a text's first tag is, and what comes before and after it, is settled by the text. */
  lemma FirstTagIsFixed(v: string, start: string, after: string, tag: Tag,
                                           v': string, start': string, after': string)
    requires v + start + after == v' + start' + after'
    requires !Contains(v, tag) && IsTag(start, tag) && !Contains(v', tag) && IsTag(start', tag)
    ensures v == v' && start == start' && after == after'
  {
    var text := v + start + after;
    assert text == "" + v + start + after == "" + v' + start' + after';
    FirstTagIsFound("", v, start, after, tag);
    FirstTagIsFound("", v', start', after', tag);
    assert v == text[..|v|] && start == text[|v|..|v| + |tag|] && after == text[|v| + |tag|..];
    assert v' == text[..|v'|] && start' == text[|v'|..|v'| + |tag|] && after' == text[|v'| + |tag|..];
  }

  lemma TagIsContained(v: string, start: string, after: string, tag: Tag)
    requires IsTag(start, tag)
    ensures Contains(v + start + after, tag)
  {
    TagInPart(v, start, after, tag, 0);
    assert TagAt(v + start + after, tag, |v|);
  }

  lemma {:induction false} ReadingIsUnique(a: Reply, b: Reply, open: Tag, close: Tag)
    requires IsReading(a, open, close) && IsReading(b, open, close)
    requires Render(a) == Render(b)
    ensures a == b
  {
    if a.Plain? || b.Plain? {
      StartsWithTag(a, open, close);
      StartsWithTag(b, open, close);
    } else {
      Opened(a);
      Opened(b);
      FirstTagIsFixed(a.visible, a.start, AfterOpening(a), open, b.visible, b.start, AfterOpening(b));
      if a.Unclosed? || b.Unclosed? {
        EndsWithTag(a, open, close);
        EndsWithTag(b, open, close);
      } else {
        FirstTagIsFixed(a.thought, a.end, Render(a.rest), close, b.thought, b.end, Render(b.rest));
        ReadingIsUnique(a.rest, b.rest, open, close);
      }
    }
  }

  function AfterOpening(r: Reply): string
    requires !r.Plain?
  {
    if r.Block? then r.thought + r.end + Render(r.rest) else r.thought
  }

  lemma Opened(r: Reply)
    requires !r.Plain?
    ensures Render(r) == r.visible + r.start + AfterOpening(r)
  {
  }

  lemma StartsWithTag(r: Reply, open: Tag, close: Tag)
    requires IsReading(r, open, close)
    ensures Contains(Render(r), open) <==> !r.Plain?
  {
    if !r.Plain? {
      Opened(r);
      TagIsContained(r.visible, r.start, AfterOpening(r), open);
    }
  }

  lemma EndsWithTag(r: Reply, open: Tag, close: Tag)
    requires IsReading(r, open, close) && !r.Plain?
    ensures Contains(AfterOpening(r), close) <==> r.Block?
  {
    if r.Block? {
      TagIsContained(r.thought, r.end, Render(r.rest), close);
    }
  }

  // ---- stripping shows the visible text ----

  lemma {:induction false} TailIsATag(r: Reply, open: Tag, close: Tag)
    requires IsReading(r, open, close) && Tail(r) != ""
    ensures exists start, t :: Tail(r) == start + t && IsTag(start, open)
  {
    if r.Block? {
      TailIsATag(r.rest, open, close);
    }
  }

  /** Cutting at the first opening tag forgets whatever follows an opening tag. */
  lemma CutForgetsTheTail(before: string, start: string, after: string, open: Tag)
    requires IsTag(start, open)
    ensures CutUnclosed(before + start + after, open) == CutUnclosed(before, open)
  {
    var text := before + start + after;
    FindIsIndex(before, open, 0);
    var i := Find(before, open, 0);
    if i == -1 {
      assert text == "" + before + start + after;
      FirstTagIsFound("", before, start, after, open);
      assert text[..|before|] == before;
    } else {
      FindSplits(before, open, 0);
      var found := before[i..i + |open|];
      var left := before[0..i];
      var right := before[i + |open|..] + start + after;
      assert text == "" + left + found + right;
      FirstTagIsFound("", left, found, right, open);
      assert text[..i] == before[..i];
    }
  }

  /** The stripped text is the visible text, cut where pieces of it join into a new opening tag. */
  lemma StripShowsTheVisible(r: Reply)
    requires IsReading(r, OPEN, CLOSE)
    ensures StripThinkBlocks(Render(r)).text == Trim(CutUnclosed(Visible(r), OPEN))
  {
    ReadIsAReading(Render(r), 0, OPEN, CLOSE);
    ReadRenders(Render(r), 0, OPEN, CLOSE);
    ReadingIsUnique(r, Read(Render(r), 0, OPEN, CLOSE), OPEN, CLOSE);
    if Tail(r) != "" {
      TailIsATag(r, OPEN, CLOSE);
      var start, t :| Tail(r) == start + t && IsTag(start, OPEN);
      assert Visible(r) + Tail(r) == Visible(r) + start + t;
      CutForgetsTheTail(Visible(r), start, t, OPEN);
    } else {
      assert Visible(r) + Tail(r) == Visible(r);
    }
  }

  /** No reasoning reaches the reader: replies that differ only in it come out the same. */
  lemma {:induction false} ReasoningDoesNotLeak(a: Reply, b: Reply)
    requires IsReading(a, OPEN, CLOSE) && IsReading(b, OPEN, CLOSE)
    requires Visible(a) == Visible(b)
    ensures StripThinkBlocks(Render(a)).text == StripThinkBlocks(Render(b)).text
  {
    StripShowsTheVisible(a);
    StripShowsTheVisible(b);
  }

  // ---- what the trim does ----

  lemma {:induction false} TrimStartIsASlice(text: string) returns (lo: nat)
    ensures lo <= |text| && TrimStart(text) == text[lo..]
    ensures forall k: nat | k < lo :: IsSpace(text[k])
    ensures lo < |text| ==> !IsSpace(text[lo])
  {
    lo := 0;
    if text != [] && IsSpace(text[0]) {
      var n := TrimStartIsASlice(text[1..]);
      lo := n + 1;
      assert text[1..][n..] == text[lo..];
    }
  }

  lemma {:induction false} TrimEndIsASlice(text: string) returns (hi: nat)
    ensures hi <= |text| && TrimEnd(text) == text[..hi]
    ensures forall k: nat | hi <= k < |text| :: IsSpace(text[k])
    ensures hi > 0 ==> !IsSpace(text[hi - 1])
  {
    hi := |text|;
    if text != [] && IsSpace(text[|text| - 1]) {
      hi := TrimEndIsASlice(text[..|text| - 1]);
      assert text[..|text| - 1][..hi] == text[..hi];
    } else {
      assert text[..|text|] == text;
    }
  }

  /** The trim takes away white space at both ends, all of it and nothing else. */
  lemma TrimIsASlice(text: string) returns (lo: nat, hi: nat)
    ensures lo <= hi <= |text| && Trim(text) == text[lo..hi]
    ensures forall k: nat | k < |text| && !(lo <= k < hi) :: IsSpace(text[k])
    ensures lo < hi ==> !IsSpace(text[lo]) && !IsSpace(text[hi - 1])
  {
    lo := TrimStartIsASlice(text);
    var n := TrimEndIsASlice(text[lo..]);
    hi := lo + n;
    assert text[lo..][..n] == text[lo..hi];
    forall k: nat | hi <= k < |text| ensures IsSpace(text[k]) {
      assert text[k] == text[lo..][k - lo];
    }
  }

  /** White space is the ECMAScript Language Specification's WhiteSpace and LineTerminator
      (sections 12.2 and 12.3), by code point. */
  lemma SpacesByCodePoint(c: char)
    ensures IsSpace(c) <==>
              || c as int in {9, 10, 11, 12, 13, 32, 160, 5760, 8232, 8233, 8239, 8287, 12288, 65279}
              || 8192 <= c as int <= 8202
  {
  }

  lemma TrimIsIdempotent(text: string)
    ensures Trim(Trim(text)) == Trim(text)
  {
    var lo, hi := TrimIsASlice(text);
  }

  /** White space never hides a tag, and trimming never makes one. */
  lemma TrimKeepsTags(text: string, tag: Tag)
    ensures Contains(Trim(text), tag) <==> Contains(text, tag)
  {
    var lo, hi := TrimIsASlice(text);
    var part := text[lo..hi];
    assert text == text[..lo] + part + text[hi..];
    if Contains(part, tag) {
      var i: nat :| i < |part| && TagAt(part, tag, i);
      TagInPart(text[..lo], part, text[hi..], tag, i);
    }
    if Contains(text, tag) {
      var i: nat :| i < |text| && TagAt(text, tag, i);
      TagIsNotSpace(text, tag, i);
      assert lo <= i && i + |tag| <= hi;
      TagInPart(text[..lo], part, text[hi..], tag, i - lo);
    }
  }

  lemma TagIsNotSpace(text: string, tag: Tag, i: nat)
    requires TagAt(text, tag, i)
    ensures !IsSpace(text[i]) && !IsSpace(text[i + |tag| - 1])
  {
    AgreesAt(text, i, tag, |tag|, 0);
    AgreesAt(text, i, tag, |tag|, |tag| - 1);
  }

  // ---- the promises of stripThinkBlocks ----

  lemma CutHasNoTag(text: string, open: Tag)
    ensures !Contains(CutUnclosed(text, open), open)
    ensures |CutUnclosed(text, open)| <= |text|
    ensures CutUnclosed(text, open) == text <==> !Contains(text, open)
  {
    FindIsIndex(text, open, 0);
    var at := Find(text, open, 0);
    if at != -1 {
      BeforeFirstTag(text, open, 0, at);
      assert text[0..at] == text[..at];
    }
  }

  /** No opening tag is left in any letter case, not even one that removing a block joins up. */
  lemma NoOpeningTagIsLeft(text: string)
    ensures !Contains(StripThinkBlocks(text).text, OPEN)
  {
    var removed := RemoveBlocks(text, OPEN, CLOSE);
    CutHasNoTag(removed, OPEN);
    TrimKeepsTags(CutUnclosed(removed, OPEN), OPEN);
  }

  lemma {:induction false} RemovingShrinks(r: Reply)
    ensures |Visible(r)| + |Tail(r)| <= |Render(r)|
    ensures r.Block? && r.start != "" ==> |Visible(r)| + |Tail(r)| < |Render(r)|
  {
    if r.Block? {
      RemovingShrinks(r.rest);
    }
  }

  /** Removing the blocks leaves a text as it was or makes it shorter. */
  lemma RemoveBlocksChanges(text: string, open: Tag, close: Tag)
    ensures RemoveBlocks(text, open, close) == text || |RemoveBlocks(text, open, close)| < |text|
    ensures !Contains(text, open) ==> RemoveBlocks(text, open, close) == text
  {
    var r := Read(text, 0, open, close);
    ReadIsAReading(text, 0, open, close);
    ReadRenders(text, 0, open, close);
    StartsWithTag(r, open, close);
    RemovingShrinks(r);
  }

  /** `stripped` reports an opening tag, closed or not. */
  lemma StrippedExactlyWhen(text: string)
    ensures StripThinkBlocks(text).stripped <==> Contains(text, OPEN)
  {
    if Contains(text, OPEN) {
      RemoveBlocksChanges(text, OPEN, CLOSE);
      CutHasNoTag(RemoveBlocks(text, OPEN, CLOSE), OPEN);
    } else {
      PlainTextIsOnlyTrimmed(text);
    }
  }

  lemma PlainTextIsOnlyTrimmed(text: string)
    requires !Contains(text, OPEN)
    ensures StripThinkBlocks(text) == Stripped(Trim(text), false)
  {
    RemoveBlocksChanges(text, OPEN, CLOSE);
    CutHasNoTag(text, OPEN);
  }

  lemma StripIsIdempotent(text: string)
    ensures StripThinkBlocks(StripThinkBlocks(text).text) == Stripped(StripThinkBlocks(text).text, false)
  {
    NoOpeningTagIsLeft(text);
    PlainTextIsOnlyTrimmed(StripThinkBlocks(text).text);
    TrimIsIdempotent(CutUnclosed(RemoveBlocks(text, OPEN, CLOSE), OPEN));
  }

  /** All the visible text survives exactly when removing the blocks joins up no new opening tag. */
  lemma VisibleSurvivesExactlyWhen(r: Reply)
    requires IsReading(r, OPEN, CLOSE)
    ensures StripThinkBlocks(Render(r)).text == Trim(Visible(r)) <==> !Contains(Visible(r), OPEN)
  {
    StripShowsTheVisible(r);
    CutHasNoTag(Visible(r), OPEN);
    TrimKeepsTags(Visible(r), OPEN);
    TrimKeepsTags(CutUnclosed(Visible(r), OPEN), OPEN);
  }

  lemma SplicedText(r: Reply)
    requires r == Block("<th", "<think>", "x", "</think>", Plain("ink>seen"))
    ensures Render(r) == "<th<think>x</think>ink>seen" && Visible(r) == "<think>seen"
  {
  }

  lemma SplicedIsAReading(r: Reply)
    requires r == Block("<th", "<think>", "x", "</think>", Plain("ink>seen"))
    ensures IsReading(r, OPEN, CLOSE)
  {
    TagAtStart("<think>", OPEN);
    TagAtStart("</think>", CLOSE);
    TooShort("<th", OPEN);
    TooShort("x", CLOSE);
    NoBracket("ink>seen", OPEN);
  }

  lemma CutAtStart(start: string, after: string, open: Tag)
    requires IsTag(start, open)
    ensures Trim(CutUnclosed(start + after, open)) == ""
  {
    TooShort("", open);
    assert start + after == "" + "" + start + after;
    FirstTagIsFound("", "", start, after, open);
  }

  /** Removing a block can join what is around it, `<th` and `ink>`; what follows is cut too. */
  lemma VisibleTextMayBeCut() returns (r: Reply)
    ensures IsReading(r, OPEN, CLOSE)
    ensures Render(r) == "<th<think>x</think>ink>seen" && Visible(r) == "<think>seen"
    ensures StripThinkBlocks(Render(r)).text == ""
  {
    r := Block("<th", "<think>", "x", "</think>", Plain("ink>seen"));
    SplicedText(r);
    SplicedIsAReading(r);
    TagAtStart("<think>", OPEN);
    CutAtStart("<think>", "seen", OPEN);
    assert Visible(r) == "<think>" + "seen";
    StripShowsTheVisible(r);
  }

  lemma {:induction false} AgreesWithItself(tag: Tag, n: nat)
    requires n <= |tag| && forall k :: 0 <= k < |tag| ==> Lower(tag[k]) == tag[k]
    ensures Agrees(tag, 0, tag, n)
  {
    if n == 0 {
    } else {
      AgreesWithItself(tag, n - 1);
    }
  }

  lemma TagAtStart(s: string, tag: Tag)
    requires s == tag && forall k :: 0 <= k < |tag| ==> Lower(tag[k]) == tag[k]
    ensures IsTag(s, tag)
  {
    AgreesWithItself(tag, |tag|);
  }

  lemma TooShort(text: string, tag: Tag)
    requires |text| < |tag|
    ensures !Contains(text, tag)
  {
  }

  lemma NoBracket(text: string, tag: Tag)
    requires '<' !in text
    ensures !Contains(text, tag)
  {
    forall i: nat | i < |text| ensures !TagAt(text, tag, i) {
      if TagAt(text, tag, i) {
        AgreesAt(text, i, tag, |tag|, 0);
      }
    }
  }
}
