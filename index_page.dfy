/**
 * The chat page's state and its send handler (src/pages/Index.tsx:9-87).
 * The page holds the conversation and a page-wide streaming flag; the
 * notifications it raises are kept as the sequence of their texts.
 */
module IndexPage {
  import opened ChatTypes
  import opened ToolMerge
  import opened Conversation
  import opened ChatApi
  import opened Text

  const SendFailedNotice := "Failed to send message. Please try again."

  class ChatPage {
    var messages: seq<Message>
    var isStreaming: bool
    /** The texts of the toast notifications raised so far, oldest first. */
    var notices: seq<string>

    constructor ()
      ensures messages == [] && !isStreaming && notices == []
    {
      messages := [];
      isStreaming := false;
      notices := [];
    }

    /**
     * `handleSendMessage`: start a turn, stream the reply into the
     * placeholder, and on a transport failure raise one notice and drop the
     * turn again. Either way the page is no longer streaming afterwards.
     * The response the server gives and the parser of its lines are
     * parameters.
     */
    method HandleSendMessage(content: string, stamp: TurnStamp, response: Response,
                             parse: string -> Option<StreamEvent>)
      modifies this
      ensures var t := Transmit(response, parse);
        && messages == (if t.outcome.Succeeded? then ApplyEvents(StartTurn(old(messages), content, stamp), t.delivered)
                        else old(messages))
        && notices == old(notices) + ErrorNotices(t.delivered) + (if t.outcome.Aborted? then [SendFailedNotice] else [])
        && !isStreaming
    {
      messages := StartTurn(messages, content, stamp);
      isStreaming := true;
      var delivered, logged, outcome := SendChatMessage(response, parse);
      messages := ApplyEvents(messages, delivered);
      notices := notices + ErrorNotices(delivered);
      if outcome.Aborted? {
        notices := notices + [SendFailedNotice];
        RollbackRestores(old(messages), content, stamp, delivered);
        messages := Rollback(messages);
      }
      isStreaming := false;
    }
  }

  /**
   * A completed send adds exactly the user's message and the assistant's
   * reply, whose text is all the streamed text and whose tools hold each tool
   * once at its latest version; a failed send, whose events were applied
   * before the rollback, leaves the conversation as it was, whatever was
   * streamed before the failure.
   */
  lemma SendEffect(prev: seq<Message>, content: string, stamp: TurnStamp, response: Response,
                   parse: string -> Option<StreamEvent>)
    ensures var t := Transmit(response, parse);
      var r := ApplyEvents(StartTurn(prev, content, stamp), t.delivered);
      && (t.outcome.Aborted? ==> Rollback(r) == prev)
      && (t.outcome.Succeeded? ==>
            && |r| == |prev| + 2
            && r[..|prev| + 1] == prev + [UserMessage(content, stamp)]
            && Last(r).role == Assistant
            && Last(r).content == TextOf(t.delivered)
            && Last(r).isStreaming == Some(!HasDone(t.delivered))
            && Last(r).tools.Some?
            && Distinct(IdsOf(Last(r).tools.value))
            && InFirstAppearanceOrder(Last(r).tools.value, IdsOf(ToolsOf(t.delivered)))
            && HoldsLatestVersions(Last(r).tools.value, ToolsOf(t.delivered)))
  {
    var t := Transmit(response, parse);
    TurnEffect(prev, content, stamp, t.delivered);
    RollbackRestores(prev, content, stamp, t.delivered);
  }

  /**
   * A successful stream that never sends `done` leaves the reply flagged as
   * streaming even though the page-wide flag is cleared.
   */
  lemma MissingDoneKeepsReplyStreaming(prev: seq<Message>, content: string, stamp: TurnStamp,
                                       events: seq<StreamEvent>)
    requires forall k :: 0 <= k < |events| ==> events[k].kind != Done
    ensures Last(ApplyEvents(StartTurn(prev, content, stamp), events)).isStreaming == Some(true)
  {
    var start := StartTurn(prev, content, stamp);
    ApplyEventsEffect(start, events);
    assert Last(start).isStreaming == Some(true);
  }

  function CalculatorCall(): ToolInfo {
    ToolInfo("calculator", "1", Running, None)
  }

  function CalculatorResult(): ToolInfo {
    ToolInfo("calculator", "1", Completed, Some(JString("4")))
  }

  /** The events of the calculator exchange, in the order they are streamed. */
  function CalculatorEvents(): seq<StreamEvent> {
    [StreamEvent(ToolCall, "", Some(CalculatorCall()), "t1"),
     StreamEvent(Text, "The answer is ", None, "t2"),
     StreamEvent(ToolResult, "", Some(CalculatorResult()), "t3"),
     StreamEvent(Text, "4.", None, "t4"),
     StreamEvent(Done, "", None, "t5")]
  }

  lemma EventsSnoc(front: seq<StreamEvent>, e: StreamEvent)
    ensures TextOf(front + [e]) == TextOf(front) + (if e.kind == Text then e.content else "")
    ensures ToolsOf(front + [e]) ==
      ToolsOf(front) + (if (e.kind == ToolCall || e.kind == ToolResult) && e.tool.Some? then [e.tool.value] else [])
  {
    assert (front + [e])[..|front|] == front;
  }

  lemma CalculatorText()
    ensures TextOf(CalculatorEvents()) == "The answer is 4."
  {
    var es := CalculatorEvents();
    assert es[..1] == [] + [es[0]] && es[..2] == es[..1] + [es[1]] && es[..3] == es[..2] + [es[2]]
      && es[..4] == es[..3] + [es[3]] && es == es[..4] + [es[4]];
    EventsSnoc([], es[0]);
    EventsSnoc(es[..1], es[1]);
    EventsSnoc(es[..2], es[2]);
    EventsSnoc(es[..3], es[3]);
    EventsSnoc(es[..4], es[4]);
  }

  lemma CalculatorToolEvents()
    ensures ToolsOf(CalculatorEvents()) == [CalculatorCall(), CalculatorResult()]
  {
    var es := CalculatorEvents();
    assert es[..1] == [] + [es[0]] && es[..2] == es[..1] + [es[1]] && es[..3] == es[..2] + [es[2]]
      && es[..4] == es[..3] + [es[3]] && es == es[..4] + [es[4]];
    EventsSnoc([], es[0]);
    EventsSnoc(es[..1], es[1]);
    EventsSnoc(es[..2], es[2]);
    EventsSnoc(es[..3], es[3]);
    EventsSnoc(es[..4], es[4]);
  }

  lemma CalculatorTools()
    ensures FoldTools(Some([]), [CalculatorCall(), CalculatorResult()]) == Some([CalculatorResult()])
  {
    var call, result := CalculatorCall(), CalculatorResult();
    assert [call, result][..1] == [call];
    assert [call][..0] == [];
    assert FoldTools(Some([]), [call]) == Some(MergeTool(Some([]), call));
    assert MergeTool(Some([]), call) == [call];
    assert IndexOfId([call], "1") == 0;
    assert MergeTool(Some([call]), result) == [result];
  }

  /**
   * The calculator exchange: a tool call, the text "The answer is ", the
   * tool's result, the text "4." and `done` give the reply "The answer is 4."
   * with the one tool completed, and the reply no longer streaming.
   */
  lemma CalculatorExchange(prev: seq<Message>, stamp: TurnStamp)
    ensures var r := ApplyEvents(StartTurn(prev, "Calculate 2+2", stamp), CalculatorEvents());
      && Last(r).content == "The answer is 4."
      && Last(r).tools == Some([CalculatorResult()])
      && Last(r).isStreaming == Some(false)
  {
    var m0 := StartTurn(prev, "Calculate 2+2", stamp);
    ApplyEventsEffect(m0, CalculatorEvents());
    CalculatorText();
    CalculatorToolEvents();
    CalculatorTools();
    assert CalculatorEvents()[4].kind == Done;
    assert Last(m0) == Placeholder(stamp);
  }

  /**
   * A reply whose chunk holds a malformed line before a text line, an empty
   * line and `done`: the turn completes with the text as its content, no
   * notice is raised, and the reply is no longer streaming.
   */
  lemma MalformedLineReply(prev: seq<Message>, content: string, stamp: TurnStamp,
                           parse: string -> Option<StreamEvent>, bad: string, a: string, b: string)
    requires '\n' !in bad && '\n' !in a && '\n' !in b
    requires !Blank(bad) && !Blank(a) && !Blank(b)
    requires parse(bad).None? && parse(a).Some? && parse(b).Some?
    requires parse(a).value.kind == Text && parse(b).value.kind == Done
    ensures var t := Transmit(Response(true, Some(Body([bad + "\n" + a + "\n\n" + b], Finished))), parse);
      var r := ApplyEvents(StartTurn(prev, content, stamp), t.delivered);
      && t.outcome == Succeeded
      && ErrorNotices(t.delivered) == []
      && r[..|prev| + 1] == prev + [UserMessage(content, stamp)]
      && Last(r).content == parse(a).value.content
      && Last(r).isStreaming == Some(false)
  {
    MalformedLineInChunk(parse, bad, a, b);
    var ea, eb := parse(a).value, parse(b).value;
    assert [ea, eb][..1] == [ea] && [ea][..0] == [];
    assert ErrorNotices([ea]) == [];
    assert ErrorNotices([ea, eb]) == [];
    assert TextOf([ea]) == "" + ea.content;
    assert TextOf([ea, eb]) == TextOf([ea]) + "";
    assert [ea, eb][1].kind == Done;
    TurnEffect(prev, content, stamp, [ea, eb]);
  }
}
