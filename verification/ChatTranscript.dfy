/** No streamed text is lost or reordered, and only the end of the transcript ever changes. */
module ChatTranscript {
  import opened Wrappers
  import opened AgentChat

  /** Everything the assistant has said. */
  function AssistantText(messages: seq<ChatMessage>): Text {
    if messages == [] then []
    else AssistantText(messages[..|messages| - 1])
         + if Last(messages).role == ASSISTANT then Last(messages).content else []
  }

  /** The text of the last snapshot followed by every chunk received since. */
  function StreamedText(start: Text, inputs: seq<Input>): Text {
    if inputs == [] then start
    else
      var earlier := StreamedText(start, inputs[..|inputs| - 1]);
      match inputs[|inputs| - 1]
      case Received(Snapshot(messages, _, _, _, _)) => AssistantText(messages)
      case Received(MessageChunk(content)) => earlier + content
      case _ => earlier
  }

  lemma TextPush(messages: seq<ChatMessage>, message: ChatMessage)
    ensures AssistantText(messages + [message])
         == AssistantText(messages) + if message.role == ASSISTANT then message.content else []
  {
    assert (messages + [message])[..|messages|] == messages;
  }

  lemma TextWithLast(messages: seq<ChatMessage>, last: ChatMessage)
    requires messages != [] && last.role == Last(messages).role
    ensures AssistantText(WithLast(messages, last))
         == AssistantText(messages[..|messages| - 1]) + if last.role == ASSISTANT then last.content else []
  {
    TextPush(messages[..|messages| - 1], last);
  }

  lemma TextAppended(messages: seq<ChatMessage>, content: Text)
    ensures AssistantText(Appended(messages, content)) == AssistantText(messages) + content
  {
    if LastIs(messages, ASSISTANT) {
      var last := Last(messages);
      TextWithLast(messages, last.(content := last.content + content));
      Assoc(AssistantText(messages[..|messages| - 1]), last.content, content);
    } else {
      TextPush(messages, NewMessage(ASSISTANT, content));
    }
  }

  /** Chunks add their text, snapshots replace it, and every other input leaves it alone. */
  lemma StepText(chat: Chat, input: Input)
    ensures AssistantText(Step(chat, input).messages)
         == match input
            case Received(Snapshot(messages, _, _, _, _)) => AssistantText(messages)
            case Received(MessageChunk(content)) => AssistantText(chat.messages) + content
            case _ => AssistantText(chat.messages)
  {
    hide AssistantText;
    match input
    case Sent(message) =>
      TextPush(chat.messages, NewMessage(USER, message));
    case Received(event) =>
      match event
      case MessageChunk(content) => TextAppended(chat.messages, content);
      case ToolCall(name, toolStatus) => SameContent(chat.messages, WithToolCall(chat.messages, name + " (" + toolStatus + ")"));
      case TurnCompleted => SameContent(chat.messages, WithTurnTotals(chat));
      case Error(message) => TextPush(chat.messages, NewMessage(ERROR, message));
      case UserMessage(content) => TextPush(chat.messages, NewMessage(USER, content));
      case _ =>
  }

  /** Changing anything but role and text of the last message changes no text. */
  lemma SameContent(messages: seq<ChatMessage>, changed: seq<ChatMessage>)
    requires |changed| == |messages|
    requires messages != [] ==>
      && changed[..|messages| - 1] == messages[..|messages| - 1]
      && Last(changed).role == Last(messages).role
      && Last(changed).content == Last(messages).content
    ensures AssistantText(changed) == AssistantText(messages)
  {
  }

  /** Conservation: in any run the assistant's messages hold exactly the last snapshot's text followed by
      every chunk since, in order, whatever else interleaves. */
  lemma {:induction false} TranscriptConserved(chat: Chat, inputs: seq<Input>)
    ensures AssistantText(After(chat, inputs).messages) == StreamedText(AssistantText(chat.messages), inputs)
    decreases |inputs|
  {
    if inputs != [] {
      hide Step, AssistantText;
      TranscriptConserved(chat, inputs[..|inputs| - 1]);
      StepText(After(chat, inputs[..|inputs| - 1]), inputs[|inputs| - 1]);
    }
  }

  // ---------- shape of the transcript ----------

  predicate NoAdjacentAssistants(messages: seq<ChatMessage>) {
    forall i :: 0 <= i < |messages| - 1 ==> !(messages[i].role == ASSISTANT && messages[i + 1].role == ASSISTANT)
  }

  predicate SnapshotsClean(inputs: seq<Input>) {
    forall i :: 0 <= i < |inputs| && inputs[i].Received? && inputs[i].event.Snapshot? ==>
      NoAdjacentAssistants(inputs[i].event.messages)
  }

  lemma PushClean(messages: seq<ChatMessage>, message: ChatMessage)
    requires NoAdjacentAssistants(messages)
    requires message.role == ASSISTANT ==> !LastIs(messages, ASSISTANT)
    ensures NoAdjacentAssistants(messages + [message])
  {
  }

  lemma WithLastClean(messages: seq<ChatMessage>, last: ChatMessage)
    requires NoAdjacentAssistants(messages) && messages != [] && last.role == Last(messages).role
    ensures NoAdjacentAssistants(WithLast(messages, last))
  {
  }

  lemma StepClean(chat: Chat, input: Input)
    requires NoAdjacentAssistants(chat.messages) && SnapshotsClean([input])
    ensures NoAdjacentAssistants(Step(chat, input).messages)
  {
    assert [input][0] == input;
    hide NoAdjacentAssistants;
    var messages := chat.messages;
    match input
    case Sent(message) => PushClean(messages, NewMessage(USER, message));
    case Received(event) =>
      match event
      case MessageChunk(content) =>
        if LastIs(messages, ASSISTANT) {
          WithLastClean(messages, Last(messages).(content := Last(messages).content + content));
        } else {
          PushClean(messages, NewMessage(ASSISTANT, content));
        }
      case ToolCall(name, toolStatus) =>
        if LastIs(messages, ASSISTANT) {
          WithLastClean(messages, Last(WithToolCall(messages, name + " (" + toolStatus + ")")));
        }
      case TurnCompleted =>
        if LastIs(messages, ASSISTANT) {
          WithLastClean(messages, Last(WithTurnTotals(chat)));
        }
      case Error(message) => PushClean(messages, NewMessage(ERROR, message));
      case UserMessage(content) => PushClean(messages, NewMessage(USER, content));
      case _ =>
  }

  /** If no snapshot has two assistant messages in a row, no reachable transcript does. */
  lemma {:induction false} AssistantsStayApart(chat: Chat, inputs: seq<Input>)
    requires NoAdjacentAssistants(chat.messages) && SnapshotsClean(inputs)
    ensures NoAdjacentAssistants(After(chat, inputs).messages)
    decreases |inputs|
  {
    if inputs != [] {
      hide Step, NoAdjacentAssistants;
      var n := |inputs| - 1;
      assert SnapshotsClean([inputs[n]]);
      AssistantsStayApart(chat, inputs[..n]);
      StepClean(After(chat, inputs[..n]), inputs[n]);
    }
  }

  predicate NoSnapshot(inputs: seq<Input>) {
    forall i :: 0 <= i < |inputs| ==> !(inputs[i].Received? && inputs[i].event.Snapshot?)
  }

  /** Everything but the last message is settled. */
  function Settled(messages: seq<ChatMessage>): seq<ChatMessage> {
    if messages == [] then [] else messages[..|messages| - 1]
  }

  lemma StepKeepsSettled(chat: Chat, input: Input)
    requires NoSnapshot([input])
    ensures |chat.messages| <= |Step(chat, input).messages|
    ensures Settled(chat.messages) <= Step(chat, input).messages
    ensures Settled(chat.messages) <= Settled(Step(chat, input).messages)
  {
    assert [input][0] == input;
  }

  lemma PrefixTrans<T>(a: seq<T>, b: seq<T>, c: seq<T>)
    requires a <= b && b <= c
    ensures a <= c
  {
  }

  /** Between snapshots the transcript only grows, and only its last message can change. */
  lemma {:induction false} OnlyTheLastChanges(chat: Chat, inputs: seq<Input>)
    requires NoSnapshot(inputs)
    ensures |chat.messages| <= |After(chat, inputs).messages|
    ensures Settled(chat.messages) <= Settled(After(chat, inputs).messages) <= After(chat, inputs).messages
    decreases |inputs|
  {
    if inputs != [] {
      hide Step, Settled;
      var n := |inputs| - 1;
      var previous := After(chat, inputs[..n]);
      assert NoSnapshot([inputs[n]]);
      OnlyTheLastChanges(chat, inputs[..n]);
      StepKeepsSettled(previous, inputs[n]);
      PrefixTrans(Settled(chat.messages), Settled(previous.messages), Settled(After(chat, inputs).messages));
      SettledIsPrefix(After(chat, inputs).messages);
    } else {
      SettledIsPrefix(chat.messages);
    }
  }

  lemma SettledIsPrefix(messages: seq<ChatMessage>)
    ensures Settled(messages) <= messages
  {
  }
}
