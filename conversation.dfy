/**
 * The conversation reducer of the chat page (src/pages/Index.tsx:22-87):
 * starting a turn appends the user's message and an empty streaming
 * assistant placeholder; every streamed event then rewrites the last message
 * only; a transport failure drops the last two messages again.
 */
module Conversation {
  import opened ChatTypes
  import opened ToolMerge

  function Last(msgs: seq<Message>): Message
    requires |msgs| > 0
  {
    msgs[|msgs| - 1]
  }

  /**
   * The ids and ISO timestamps the page takes from the clock when a turn
   * starts (`Date.now()`, `new Date().toISOString()`), passed in as opaque
   * strings.
   */
  datatype TurnStamp = TurnStamp(userId: string, userTime: string, assistantId: string, assistantTime: string)

  /** The user's message: no tool list and no streaming flag. */
  function UserMessage(content: string, stamp: TurnStamp): Message {
    Message(stamp.userId, User, content, stamp.userTime, None, None)
  }

  /** The assistant placeholder the stream fills in. */
  function Placeholder(stamp: TurnStamp): Message {
    Message(stamp.assistantId, Assistant, "", stamp.assistantTime, Some([]), Some(true))
  }

  /**
   * Sending appends exactly two messages to the conversation: the user's
   * text, then an empty assistant message with no tools that is streaming.
   */
  function StartTurn(prev: seq<Message>, content: string, stamp: TurnStamp): (r: seq<Message>)
    ensures |r| == |prev| + 2 && r[..|prev|] == prev
    ensures r[|prev|].role == User && r[|prev|].content == content
    ensures r[|prev|].tools.None? && r[|prev|].isStreaming.None?
    ensures r[|prev| + 1].role == Assistant && r[|prev| + 1].content == ""
    ensures r[|prev| + 1].tools == Some([]) && r[|prev| + 1].isStreaming == Some(true)
  {
    prev + [UserMessage(content, stamp), Placeholder(stamp)]
  }

  /**
   * The effect of one event on the message it is applied to: the message
   * keeps its id, role and timestamp, and only `done` touches its flag.
   */
  function ApplyToMessage(m: Message, e: StreamEvent): (r: Message)
    ensures r.id == m.id && r.role == m.role && r.timestamp == m.timestamp
    ensures e.kind != Done ==> r.isStreaming == m.isStreaming
    ensures e.kind != Text ==> r.content == m.content
  {
    match e.kind
    case Text => m.(content := m.content + e.content)
    case ToolCall | ToolResult =>
      if e.tool.Some? then m.(tools := Some(MergeTool(m.tools, e.tool.value))) else m
    case Error => m
    case Done => m.(isStreaming := Some(false))
  }

  /**
   * The state update for one streamed event: the array is copied and only
   * its last message changes. `text` extends the content, `tool_call` and
   * `tool_result` merge their tool, `error` changes nothing (its
   * notification is raised by the page), `done` clears the streaming flag.
   */
  function ApplyEvent(msgs: seq<Message>, e: StreamEvent): (r: seq<Message>)
    requires |msgs| > 0
    ensures |r| == |msgs| && r[..|msgs| - 1] == msgs[..|msgs| - 1]
    ensures Last(r).id == Last(msgs).id && Last(r).role == Last(msgs).role
    ensures Last(r).timestamp == Last(msgs).timestamp
    ensures e.kind == Error ==> r == msgs
    ensures (e.kind == ToolCall || e.kind == ToolResult) && e.tool.None? ==> r == msgs
    ensures e.kind == Text ==>
      Last(r) == Last(msgs).(content := Last(msgs).content + e.content)
    ensures (e.kind == ToolCall || e.kind == ToolResult) && e.tool.Some? ==>
      Last(r) == Last(msgs).(tools := Some(MergeTool(Last(msgs).tools, e.tool.value)))
    ensures e.kind == Done ==> Last(r) == Last(msgs).(isStreaming := Some(false))
  {
    msgs[|msgs| - 1 := ApplyToMessage(Last(msgs), e)]
  }

  /** `done` is idempotent: a second one changes nothing. */
  lemma DoneIdempotent(msgs: seq<Message>, e: StreamEvent)
    requires |msgs| > 0
    requires e.kind == Done
    ensures ApplyEvent(ApplyEvent(msgs, e), e) == ApplyEvent(msgs, e)
  {
  }

  /** The events of a stream, applied in the order they were delivered. */
  function ApplyEvents(msgs: seq<Message>, events: seq<StreamEvent>): (r: seq<Message>)
    requires |msgs| > 0
    ensures |r| == |msgs|
  {
    if events == [] then msgs
    else ApplyEvent(ApplyEvents(msgs, events[..|events| - 1]), events[|events| - 1])
  }

  /** The concatenated contents of the `text` events, in order. */
  function TextOf(events: seq<StreamEvent>): string {
    if events == [] then ""
    else
      var e := events[|events| - 1];
      TextOf(events[..|events| - 1]) + (if e.kind == Text then e.content else "")
  }

  /** The tools carried by `tool_call` and `tool_result` events, in order. */
  function ToolsOf(events: seq<StreamEvent>): seq<ToolInfo> {
    if events == [] then []
    else
      var e := events[|events| - 1];
      ToolsOf(events[..|events| - 1]) +
        (if (e.kind == ToolCall || e.kind == ToolResult) && e.tool.Some? then [e.tool.value] else [])
  }

  predicate HasDone(events: seq<StreamEvent>) {
    exists k :: 0 <= k < |events| && events[k].kind == Done
  }

  /** The notifications the `error` events raise, in order. */
  function ErrorNotices(events: seq<StreamEvent>): seq<string> {
    if events == [] then []
    else
      var e := events[|events| - 1];
      ErrorNotices(events[..|events| - 1]) + (if e.kind == Error then ["Error: " + e.content] else [])
  }

  lemma HasDoneSnoc(front: seq<StreamEvent>, e: StreamEvent)
    ensures HasDone(front + [e]) <==> HasDone(front) || e.kind == Done
  {
    var events := front + [e];
    if HasDone(events) {
      var k :| 0 <= k < |events| && events[k].kind == Done;
      if k < |front| { assert front[k] == events[k]; }
    }
    if HasDone(front) {
      var k :| 0 <= k < |front| && front[k].kind == Done;
      assert events[k] == front[k];
    }
    if e.kind == Done {
      assert events[|front|] == e;
    }
  }

  lemma FoldToolsOfSnoc(existing: Option<seq<ToolInfo>>, front: seq<StreamEvent>, e: StreamEvent)
    ensures FoldTools(existing, ToolsOf(front + [e])) ==
      if (e.kind == ToolCall || e.kind == ToolResult) && e.tool.Some?
      then Some(MergeTool(FoldTools(existing, ToolsOf(front)), e.tool.value))
      else FoldTools(existing, ToolsOf(front))
  {
    var events := front + [e];
    assert events[..|events| - 1] == front;
    var added := if (e.kind == ToolCall || e.kind == ToolResult) && e.tool.Some? then [e.tool.value] else [];
    var all := ToolsOf(front) + added;
    assert ToolsOf(events) == all;
    if added != [] {
      assert all[..|all| - 1] == ToolsOf(front);
    } else {
      assert all == ToolsOf(front);
    }
  }

  /**
   * The message `m` becomes once `events` have been applied to it, stated
   * field by field through the reference definitions above.
   */
  function Accumulated(m: Message, events: seq<StreamEvent>): Message {
    m.(content := m.content + TextOf(events),
       tools := FoldTools(m.tools, ToolsOf(events)),
       isStreaming := if HasDone(events) then Some(false) else m.isStreaming)
  }

  lemma AccumulatedStep(m: Message, front: seq<StreamEvent>, e: StreamEvent)
    ensures ApplyToMessage(Accumulated(m, front), e) == Accumulated(m, front + [e])
  {
    var events := front + [e];
    HasDoneSnoc(front, e);
    FoldToolsOfSnoc(m.tools, front, e);
    assert events[..|events| - 1] == front;
    assert TextOf(events) == TextOf(front) + (if e.kind == Text then e.content else "");
    match e.kind
    case Text =>
      assert m.content + TextOf(events) == (m.content + TextOf(front)) + e.content;
    case _ =>
      assert TextOf(events) == TextOf(front);
  }

  /**
   * What a stream of events does to a conversation: every message but the
   * last is untouched; the last one gains the texts in order, folds in the
   * tools in order, and stops streaming exactly when a `done` arrived.
   */
  lemma {:induction false} ApplyEventsEffect(msgs: seq<Message>, events: seq<StreamEvent>)
    requires |msgs| > 0
    ensures var r := ApplyEvents(msgs, events);
      && r[..|msgs| - 1] == msgs[..|msgs| - 1]
      && Last(r) == Accumulated(Last(msgs), events)
  {
    if events == [] {
      assert Accumulated(Last(msgs), events) == Last(msgs);
    } else {
      var n := |events| - 1;
      var front, e := events[..n], events[n];
      assert events == front + [e];
      ApplyEventsEffect(msgs, front);
      AccumulatedStep(Last(msgs), front, e);
    }
  }

  /** `prev.slice(0, -2)`: drop the last two messages, if there are two. */
  function Rollback(prev: seq<Message>): (r: seq<Message>)
    ensures |prev| >= 2 ==> |r| == |prev| - 2
    ensures |prev| < 2 ==> r == []
    ensures r <= prev
  {
    if |prev| >= 2 then prev[..|prev| - 2] else []
  }

  /**
   * Whatever events arrived before a transport failure, rolling back the
   * turn gives the conversation as it was before the send: events only ever
   * touch the placeholder, and the send added exactly two messages.
   */
  lemma RollbackRestores(prev: seq<Message>, content: string, stamp: TurnStamp, events: seq<StreamEvent>)
    ensures Rollback(ApplyEvents(StartTurn(prev, content, stamp), events)) == prev
  {
    var start := StartTurn(prev, content, stamp);
    ApplyEventsEffect(start, events);
    var r := ApplyEvents(start, events);
    assert r[..|prev|] == r[..|start| - 1][..|prev|];
  }

  /**
   * A whole turn, on the placeholder: the earlier messages and the user's
   * message are kept; the assistant's content is the texts in order; its
   * tools hold each tool id once, in order of first appearance, each at the
   * version that arrived last; it is still streaming exactly when no `done`
   * arrived.
   */
  lemma TurnEffect(prev: seq<Message>, content: string, stamp: TurnStamp, events: seq<StreamEvent>)
    ensures var r := ApplyEvents(StartTurn(prev, content, stamp), events);
      && |r| == |prev| + 2
      && r[..|prev| + 1] == prev + [UserMessage(content, stamp)]
      && Last(r).id == stamp.assistantId && Last(r).role == Assistant
      && Last(r).content == TextOf(events)
      && Last(r).isStreaming == Some(!HasDone(events))
      && Last(r).tools.Some?
      && InFirstAppearanceOrder(Last(r).tools.value, IdsOf(ToolsOf(events)))
      && HoldsLatestVersions(Last(r).tools.value, ToolsOf(events))
  {
    var start := StartTurn(prev, content, stamp);
    ApplyEventsEffect(start, events);
    assert start[..|prev| + 1] == prev + [UserMessage(content, stamp)];
    assert IdsOf([]) == [];
    FoldToolsIds([], ToolsOf(events));
    FoldToolsEntries([], ToolsOf(events));
    assert [] + ToolsOf(events) == ToolsOf(events);
  }

  /** Tool ids stay unique in the message the events are applied to. */
  lemma EventsKeepToolIdsDistinct(msgs: seq<Message>, events: seq<StreamEvent>)
    requires |msgs| > 0
    requires Distinct(IdsOf(Last(msgs).tools.GetOr([])))
    ensures Distinct(IdsOf(Last(ApplyEvents(msgs, events)).tools.GetOr([])))
  {
    ApplyEventsEffect(msgs, events);
    FoldToolsKeepsDistinct(Last(msgs).tools, ToolsOf(events));
  }
}
