/** What a session records besides the assistant's text: the messages of everyone else, tool calls, the status, the
    totals and who answered, each read off the inputs. */
module ChatRecord {
  import opened Wrappers
  import opened AgentChat
  import opened ChatTranscript

  // ---------- who has the last word ----------

  /** The last message of a transcript, as far as it matters here: whose it is and, if the user's, what it says. */
  datatype Word = Nothing | Assistants | Users(text: Text)

  function WordOf(messages: seq<ChatMessage>): Word {
    if LastIs(messages, ASSISTANT) then Assistants
    else if LastIs(messages, USER) then Users(Last(messages).content)
    else Nothing
  }

  /** One more input. */
  function NextWord(word: Word, input: Input): Word {
    match input
    case Sent(message) => if message == [] then word else Users(message)
    case Received(Snapshot(snapshot, _, _, _, _)) => WordOf(snapshot)
    case Received(MessageChunk(_)) => Assistants
    case Received(UserMessage(content)) => Users(content)
    case Received(Error(_)) => Nothing
    case _ => word
  }

  /** The last word after some inputs: whoever spoke last has it. */
  function LastWord(messages: seq<ChatMessage>, inputs: seq<Input>): Word {
    if inputs == [] then WordOf(messages)
    else NextWord(LastWord(messages, inputs[..|inputs| - 1]), inputs[|inputs| - 1])
  }

  lemma StepWord(chat: Chat, input: Input)
    ensures WordOf(Step(chat, input).messages) == NextWord(WordOf(chat.messages), input)
  {
  }

  lemma {:induction false} LastWordIs(chat: Chat, inputs: seq<Input>)
    ensures WordOf(After(chat, inputs).messages) == LastWord(chat.messages, inputs)
    decreases |inputs|
  {
    hide Step, WordOf, NextWord;
    if inputs != [] {
      LastWordIs(chat, inputs[..|inputs| - 1]);
      StepWord(After(chat, inputs[..|inputs| - 1]), inputs[|inputs| - 1]);
    }
  }

  // ---------- what everyone but the assistant said ----------

  /** The contents of the messages of a role, in order. */
  function Texts(messages: seq<ChatMessage>, role: string): seq<Text> {
    if messages == [] then []
    else Texts(messages[..|messages| - 1], role)
         + if Last(messages).role == role then [Last(messages).content] else []
  }

  /** What an input adds under a role: a message sent, an echo that does not repeat the user's last word, an error. */
  function Adds(word: Word, input: Input, role: string): seq<Text> {
    match input
    case Sent(message) => if role == USER && message != [] then [message] else []
    case Received(UserMessage(content)) => if role == USER && word != Users(content) then [content] else []
    case Received(Error(message)) => if role == ERROR then [message] else []
    case _ => []
  }

  /** Everything said under a role: what the last snapshot has, or the start, and what was added since. */
  function Heard(messages: seq<ChatMessage>, inputs: seq<Input>, role: string): seq<Text> {
    if inputs == [] then Texts(messages, role)
    else
      var earlier, input := inputs[..|inputs| - 1], inputs[|inputs| - 1];
      if input.Received? && input.event.Snapshot? then Texts(input.event.messages, role)
      else Heard(messages, earlier, role) + Adds(LastWord(messages, earlier), input, role)
  }

  lemma TextsPush(messages: seq<ChatMessage>, message: ChatMessage, role: string)
    ensures Texts(messages + [message], role)
         == Texts(messages, role) + if message.role == role then [message.content] else []
  {
    assert (messages + [message])[..|messages|] == messages;
  }

  lemma TextsWithLast(messages: seq<ChatMessage>, last: ChatMessage, role: string)
    requires messages != [] && last.role == Last(messages).role && (last.role == role ==> last.content == Last(messages).content)
    ensures Texts(WithLast(messages, last), role) == Texts(messages, role)
  {
    TextsPush(messages[..|messages| - 1], last, role);
  }

  lemma StepHeard(chat: Chat, input: Input, role: string)
    requires role != ASSISTANT && !(input.Received? && input.event.Snapshot?)
    ensures Texts(Step(chat, input).messages, role) == Texts(chat.messages, role) + Adds(WordOf(chat.messages), input, role)
  {
    hide Texts;
    match input
    case Sent(message) => TextsPush(chat.messages, NewMessage(USER, message), role);
    case Received(event) =>
      match event
      case MessageChunk(content) =>
        if LastIs(chat.messages, ASSISTANT) {
          TextsWithLast(chat.messages, Last(Step(chat, input).messages), role);
        } else {
          TextsPush(chat.messages, NewMessage(ASSISTANT, content), role);
        }
      case ToolCall(_, _) =>
        if LastIs(chat.messages, ASSISTANT) { TextsWithLast(chat.messages, Last(Step(chat, input).messages), role); }
      case TurnCompleted =>
        if LastIs(chat.messages, ASSISTANT) { TextsWithLast(chat.messages, Last(Step(chat, input).messages), role); }
      case Error(message) => TextsPush(chat.messages, NewMessage(ERROR, message), role);
      case UserMessage(content) => TextsPush(chat.messages, NewMessage(USER, content), role);
      case _ =>
  }

  /** In any run the user's messages are those of the last snapshot, then every message sent and every echo that does
      not repeat the user's last word, in order; the errors are those of the snapshot, then every error received; and
      any other role but the assistant's keeps what the snapshot has. */
  lemma {:induction false} EveryoneIsHeard(chat: Chat, inputs: seq<Input>, role: string)
    requires role != ASSISTANT
    ensures Texts(After(chat, inputs).messages, role) == Heard(chat.messages, inputs, role)
    decreases |inputs|
  {
    if inputs != [] {
      var earlier, input := inputs[..|inputs| - 1], inputs[|inputs| - 1];
      EveryoneIsHeard(chat, earlier, role);
      LastWordIs(chat, earlier);
      if input.Received? && input.event.Snapshot? {
        SnapshotReplaces(After(chat, earlier), input);
      } else {
        StepHeard(After(chat, earlier), input, role);
      }
      hide Step, Texts, Adds, LastWord, WordOf;
    }
  }

  lemma SnapshotReplaces(chat: Chat, input: Input)
    requires input.Received? && input.event.Snapshot?
    ensures Step(chat, input).messages == input.event.messages
  {
  }

  // ---------- tool calls ----------

  function Calls(messages: seq<ChatMessage>): seq<string> {
    if messages == [] then [] else Calls(messages[..|messages| - 1]) + Last(messages).toolCalls
  }

  /** Every tool call that arrives while the assistant has the last word, after those of the last snapshot. */
  function Called(messages: seq<ChatMessage>, inputs: seq<Input>): seq<string> {
    if inputs == [] then Calls(messages)
    else
      var earlier, input := inputs[..|inputs| - 1], inputs[|inputs| - 1];
      match input
      case Received(Snapshot(snapshot, _, _, _, _)) => Calls(snapshot)
      case Received(ToolCall(name, toolStatus)) =>
        Called(messages, earlier)
        + if LastWord(messages, earlier) == Assistants then [name + " (" + toolStatus + ")"] else []
      case _ => Called(messages, earlier)
  }

  lemma CallsPush(messages: seq<ChatMessage>, message: ChatMessage)
    ensures Calls(messages + [message]) == Calls(messages) + message.toolCalls
  {
    assert (messages + [message])[..|messages|] == messages;
  }

  lemma CallsWithLast(messages: seq<ChatMessage>, last: ChatMessage, more: seq<string>)
    requires messages != [] && last.toolCalls == Last(messages).toolCalls + more
    ensures Calls(WithLast(messages, last)) == Calls(messages) + more
  {
    CallsPush(messages[..|messages| - 1], last);
    Assoc(Calls(messages[..|messages| - 1]), Last(messages).toolCalls, more);
  }

  lemma StepCalls(chat: Chat, input: Input)
    requires !(input.Received? && input.event.Snapshot?)
    ensures Calls(Step(chat, input).messages)
         == Calls(chat.messages)
            + if input.Received? && input.event.ToolCall? && LastIs(chat.messages, ASSISTANT)
              then [input.event.name + " (" + input.event.toolStatus + ")"] else []
  {
    hide Calls;
    var after := Step(chat, input).messages;
    if input.Received? && input.event.ToolCall? && LastIs(chat.messages, ASSISTANT) {
      CallsWithLast(chat.messages, Last(after), [input.event.name + " (" + input.event.toolStatus + ")"]);
    } else if |after| == |chat.messages| + 1 {
      assert after == chat.messages + [Last(after)];
      CallsPush(chat.messages, Last(after));
    } else if after != chat.messages {
      assert after == WithLast(chat.messages, Last(after));
      CallsWithLast(chat.messages, Last(after), []);
    }
  }

  /** In any run no tool call of the assistant's is lost and none is made up. */
  lemma {:induction false} CallsAreKept(chat: Chat, inputs: seq<Input>)
    ensures Calls(After(chat, inputs).messages) == Called(chat.messages, inputs)
    decreases |inputs|
  {
    if inputs != [] {
      var earlier, input := inputs[..|inputs| - 1], inputs[|inputs| - 1];
      CallsAreKept(chat, earlier);
      LastWordIs(chat, earlier);
      if input.Received? && input.event.Snapshot? {
        SnapshotReplaces(After(chat, earlier), input);
      } else {
        StepCalls(After(chat, earlier), input);
      }
      hide Step, Calls, LastWord;
    }
  }

  // ---------- status, totals, transport ----------

  /** The status is set by the last input that says anything about it. */
  function StatusAfter(status: string, inputs: seq<Input>): string {
    if inputs == [] then status
    else
      match inputs[|inputs| - 1]
      case Sent(message) => if message != [] then "working" else StatusAfter(status, inputs[..|inputs| - 1])
      case Received(Snapshot(_, snapshotStatus, _, _, _)) => snapshotStatus
      case Received(TurnStarted) => "working"
      case Received(TurnCompleted) => "idle"
      case Received(Error(_)) => "idle"
      case Received(SessionExited) => "exited"
      case _ => StatusAfter(status, inputs[..|inputs| - 1])
  }

  /** So are the totals, by the last usage report or snapshot. */
  function TotalsAfter(totals: (nat, nat), inputs: seq<Input>): (nat, nat) {
    if inputs == [] then totals
    else
      match inputs[|inputs| - 1]
      case Received(Snapshot(_, _, input, output, _)) => (input, output)
      case Received(UsageUpdate(input, output)) => (input, output)
      case _ => TotalsAfter(totals, inputs[..|inputs| - 1])
  }

  /** And the transport label, by the last snapshot that has one. */
  function LabelAfter(transport: Option<string>, inputs: seq<Input>): Option<string> {
    if inputs == [] then transport
    else
      match inputs[|inputs| - 1]
      case Received(Snapshot(_, _, _, _, Some(snapshotLabel))) => Some(snapshotLabel)
      case _ => LabelAfter(transport, inputs[..|inputs| - 1])
  }

  /** The totals at the last start of a turn. */
  function StartAfter(start: (nat, nat), totals: (nat, nat), inputs: seq<Input>): (nat, nat) {
    if inputs == [] then start
    else
      match inputs[|inputs| - 1]
      case Received(TurnStarted) => TotalsAfter(totals, inputs[..|inputs| - 1])
      case _ => StartAfter(start, totals, inputs[..|inputs| - 1])
  }

  /** The bytes streamed since a turn last started or completed. */
  function StreamedAfter(streamed: nat, inputs: seq<Input>): nat {
    if inputs == [] then streamed
    else
      match inputs[|inputs| - 1]
      case Received(TurnStarted) => 0
      case Received(TurnCompleted) => 0
      case Received(MessageChunk(content)) => StreamedAfter(streamed, inputs[..|inputs| - 1]) + |content|
      case _ => StreamedAfter(streamed, inputs[..|inputs| - 1])
  }

  /** In any run the account of the current turn is that since it started. */
  lemma {:induction false} AccountIsOfTheTurn(chat: Chat, inputs: seq<Input>)
    ensures var end := After(chat, inputs);
      && end.turnStreamedChars == StreamedAfter(chat.turnStreamedChars, inputs)
      && (end.turnStartInputTokens, end.turnStartOutputTokens)
         == StartAfter((chat.turnStartInputTokens, chat.turnStartOutputTokens), (chat.inputTokens, chat.outputTokens),
                       inputs)
    decreases |inputs|
  {
    hide Appended, WithToolCall, WithUserMessage, WithTurnTotals, TotalsAfter, StatusAfter, LabelAfter;
    if inputs != [] {
      AccountIsOfTheTurn(chat, inputs[..|inputs| - 1]);
      LastSetterWins(chat, inputs[..|inputs| - 1]);
    }
  }

  /** In any run the status, the totals and the transport label are those of the last input that sets them. */
  lemma {:induction false} LastSetterWins(chat: Chat, inputs: seq<Input>)
    ensures var end := After(chat, inputs);
      && end.status == StatusAfter(chat.status, inputs)
      && (end.inputTokens, end.outputTokens) == TotalsAfter((chat.inputTokens, chat.outputTokens), inputs)
      && end.transportLabel == LabelAfter(chat.transportLabel, inputs)
      && end.selectedModelId == chat.selectedModelId
    decreases |inputs|
  {
    hide Appended, WithToolCall, WithUserMessage, WithTurnTotals;
    if inputs != [] {
      LastSetterWins(chat, inputs[..|inputs| - 1]);
    }
  }

  // ---------- who answered ----------

  /** What is known of who answered stays as it is. */
  predicate Answered(before: ChatMessage, after: ChatMessage) {
    && (before.transportLabel.Some? ==> after.transportLabel == before.transportLabel)
    && (before.modelId.Some? ==> after.modelId == before.modelId)
  }

  lemma StepAnswers(chat: Chat, input: Input, i: nat)
    requires !(input.Received? && input.event.Snapshot?) && i < |chat.messages|
    ensures i < |Step(chat, input).messages| && Answered(chat.messages[i], Step(chat, input).messages[i])
  {
  }

  /** A message credited with a turn names the session's transport and model unless it named others before; what it
      names never changes until a snapshot. */
  lemma {:induction false} AnswersStay(chat: Chat, inputs: seq<Input>, i: nat)
    requires LastIs(chat.messages, ASSISTANT) && NoSnapshot(inputs)
    requires i < |Step(chat, Received(TurnCompleted)).messages|
    ensures var credited := Step(chat, Received(TurnCompleted));
      && i < |After(credited, inputs).messages|
      && Answered(credited.messages[i], After(credited, inputs).messages[i])
      && Answered(chat.messages[i], credited.messages[i])
      && (i == |chat.messages| - 1 && chat.transportLabel.Some? && chat.messages[i].transportLabel.None? ==>
            After(credited, inputs).messages[i].transportLabel == chat.transportLabel)
      && (i == |chat.messages| - 1 && chat.selectedModelId.Some? && chat.messages[i].modelId.None? ==>
            After(credited, inputs).messages[i].modelId == chat.selectedModelId)
    decreases |inputs|
  {
    if inputs != [] {
      var n, credited := |inputs| - 1, Step(chat, Received(TurnCompleted));
      AnswersStay(chat, inputs[..n], i);
      StepAnswers(After(credited, inputs[..n]), inputs[n], i);
      hide Step;
    }
  }
}
