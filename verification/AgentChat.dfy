/** A chat session fed by the daemon's event stream and by messages typed locally. */
module AgentChat {
  import opened Wrappers

  /** Message text as its UTF-8 bytes, the unit in which streamed text is counted. */
  type Text = seq<byte>

  const ASSISTANT := "assistant"
  const USER := "user"
  const ERROR := "error"

  datatype ChatMessage = ChatMessage(
    role: string,
    content: Text,
    toolCalls: seq<string>,
    inputTokens: nat,
    outputTokens: nat,
    modelId: Option<string>,
    transportLabel: Option<string>)

  datatype Chat = Chat(
    messages: seq<ChatMessage>,
    status: string,
    inputTokens: nat,
    outputTokens: nat,
    turnStartInputTokens: nat,
    turnStartOutputTokens: nat,
    turnStreamedChars: nat,
    transportLabel: Option<string>,
    selectedModelId: Option<string>)

  datatype Event =
    | Snapshot(messages: seq<ChatMessage>, status: string, inputTokens: nat, outputTokens: nat,
               transportLabel: Option<string>)
    | MessageChunk(content: Text)
    | ToolCall(name: string, toolStatus: string)
    | TurnStarted
    | TurnCompleted
    | UsageUpdate(inputTokens: nat, outputTokens: nat)
    | Error(message: Text)
    | SessionExited
    | UserMessage(content: Text)
    | ThoughtChunk
    | StatusUpdate

  /** What reaches a session: an event of the stream, or a message sent from the input box, trimmed. */
  datatype Input = Received(event: Event) | Sent(message: Text)

  function NewMessage(role: string, content: Text): ChatMessage {
    ChatMessage(role, content, [], 0, 0, None, None)
  }

  predicate LastIs(messages: seq<ChatMessage>, role: string) {
    messages != [] && messages[|messages| - 1].role == role
  }

  function WithLast(messages: seq<ChatMessage>, last: ChatMessage): seq<ChatMessage>
    requires messages != []
  {
    messages[..|messages| - 1] + [last]
  }

  function Last(messages: seq<ChatMessage>): ChatMessage
    requires messages != []
  {
    messages[|messages| - 1]
  }

  /** Text goes to the assistant message at the end, or starts one. */
  function Appended(messages: seq<ChatMessage>, content: Text): seq<ChatMessage> {
    if LastIs(messages, ASSISTANT)
    then WithLast(messages, Last(messages).(content := Last(messages).content + content))
    else messages + [NewMessage(ASSISTANT, content)]
  }

  function WithToolCall(messages: seq<ChatMessage>, call: string): seq<ChatMessage> {
    if LastIs(messages, ASSISTANT)
    then WithLast(messages, Last(messages).(toolCalls := Last(messages).toolCalls + [call]))
    else messages
  }

  /** A user message the daemon echoes back is not added twice. */
  function WithUserMessage(messages: seq<ChatMessage>, content: Text): seq<ChatMessage> {
    if LastIs(messages, USER) && Last(messages).content == content then messages
    else messages + [NewMessage(USER, content)]
  }

  function EstimatedTokens(streamed: nat): nat {
    (streamed + 3) / 4
  }

  /** Tokens credited to a turn: what the usage totals grew by, or an estimate from the streamed text. */
  function TurnInput(chat: Chat): nat {
    SaturatingSub(chat.inputTokens, chat.turnStartInputTokens)
  }

  function TurnOutput(chat: Chat): nat {
    var usage := SaturatingSub(chat.outputTokens, chat.turnStartOutputTokens);
    if usage == 0 && chat.turnStreamedChars > 0 then EstimatedTokens(chat.turnStreamedChars) else usage
  }

  function WithTurnTotals(chat: Chat): seq<ChatMessage> {
    if LastIs(chat.messages, ASSISTANT) then
      var last := Last(chat.messages);
      WithLast(chat.messages, last.(
        inputTokens := TurnInput(chat),
        outputTokens := TurnOutput(chat),
        transportLabel := if last.transportLabel.None? then chat.transportLabel else last.transportLabel,
        modelId := if last.modelId.None? then chat.selectedModelId else last.modelId))
    else chat.messages
  }

  function Step(chat: Chat, input: Input): Chat {
    match input
    case Sent(message) =>
      if message == [] then chat
      else chat.(messages := chat.messages + [NewMessage(USER, message)], status := "working")
    case Received(event) =>
      match event
      case Snapshot(messages, status, inputTokens, outputTokens, snapshotLabel) =>
        chat.(messages := messages, status := status, inputTokens := inputTokens, outputTokens := outputTokens,
              transportLabel := if snapshotLabel.Some? then snapshotLabel else chat.transportLabel)
      case MessageChunk(content) =>
        chat.(messages := Appended(chat.messages, content),
              turnStreamedChars := chat.turnStreamedChars + |content|)
      case ToolCall(name, toolStatus) =>
        chat.(messages := WithToolCall(chat.messages, name + " (" + toolStatus + ")"))
      case TurnStarted =>
        chat.(turnStartInputTokens := chat.inputTokens, turnStartOutputTokens := chat.outputTokens,
              turnStreamedChars := 0, status := "working")
      case TurnCompleted =>
        chat.(messages := WithTurnTotals(chat), turnStreamedChars := 0, status := "idle")
      case UsageUpdate(inputTokens, outputTokens) =>
        chat.(inputTokens := inputTokens, outputTokens := outputTokens)
      case Error(message) =>
        chat.(messages := chat.messages + [NewMessage(ERROR, message)], status := "idle")
      case SessionExited => chat.(status := "exited")
      case UserMessage(content) => chat.(messages := WithUserMessage(chat.messages, content))
      case ThoughtChunk => chat
      case StatusUpdate => chat
  }

  function After(chat: Chat, inputs: seq<Input>): Chat {
    if inputs == [] then chat else Step(After(chat, inputs[..|inputs| - 1]), inputs[|inputs| - 1])
  }

  // ---------- the session object ----------

  class AgentChatSession {
    var messages: seq<ChatMessage>
    var status: string
    var inputTokens: nat
    var outputTokens: nat
    var turnStartInputTokens: nat
    var turnStartOutputTokens: nat
    var turnStreamedChars: nat
    var transportLabel: Option<string>
    var selectedModelId: Option<string>

    function State(): Chat
      reads this
    {
      Chat(messages, status, inputTokens, outputTokens, turnStartInputTokens, turnStartOutputTokens,
           turnStreamedChars, transportLabel, selectedModelId)
    }

    constructor (transportLabel: Option<string>, selectedModelId: Option<string>)
      ensures State() == Fresh(transportLabel, selectedModelId)
    {
      this.transportLabel, this.selectedModelId := transportLabel, selectedModelId;
      messages, status := [], "idle";
      inputTokens, outputTokens, turnStartInputTokens, turnStartOutputTokens, turnStreamedChars := 0, 0, 0, 0, 0;
    }

    method SendMessage(message: Text)
      modifies this
      ensures State() == old(Step(State(), Sent(message)))
    {
      if message == [] {
        return;
      }
      messages := messages + [NewMessage(USER, message)];
      status := "working";
    }

    /** Applies one event; the stream is to be closed when the session has exited. */
    method ApplyEvent(event: Event) returns (stop: bool)
      modifies this
      ensures State() == old(Step(State(), Received(event)))
      ensures stop == event.SessionExited?
    {
      match event {
        case Snapshot(snapshot, newStatus, input, output, snapshotLabel) =>
          messages := snapshot;
          status := newStatus;
          inputTokens := input;
          outputTokens := output;
          if snapshotLabel.Some? {
            transportLabel := snapshotLabel;
          }
        case MessageChunk(content) =>
          turnStreamedChars := turnStreamedChars + |content|;
          AppendChunk(content);
        case ToolCall(name, toolStatus) =>
          if |messages| > 0 && messages[|messages| - 1].role == ASSISTANT {
            var last := messages[|messages| - 1];
            messages := messages[..|messages| - 1]
              + [last.(toolCalls := last.toolCalls + [name + " (" + toolStatus + ")"])];
          }
        case TurnStarted =>
          turnStartInputTokens := inputTokens;
          turnStartOutputTokens := outputTokens;
          turnStreamedChars := 0;
          status := "working";
        case TurnCompleted =>
          CompleteTurn();
        case UsageUpdate(input, output) =>
          inputTokens := input;
          outputTokens := output;
        case Error(message) =>
          messages := messages + [NewMessage(ERROR, message)];
          status := "idle";
        case SessionExited =>
          status := "exited";
        case UserMessage(content) =>
          if !(|messages| > 0 && messages[|messages| - 1].role == USER && messages[|messages| - 1].content == content) {
            messages := messages + [NewMessage(USER, content)];
          }
        case ThoughtChunk =>
        case StatusUpdate =>
      }
      stop := event.SessionExited?;
    }

    method AppendChunk(content: Text)
      modifies this`messages
      ensures messages == Appended(old(messages), content)
    {
      if |messages| > 0 {
        var last := messages[|messages| - 1];
        if last.role == ASSISTANT {
          messages := messages[..|messages| - 1] + [last.(content := last.content + content)];
        } else {
          messages := messages + [NewMessage(ASSISTANT, content)];
        }
      } else {
        messages := messages + [NewMessage(ASSISTANT, content)];
      }
    }

    method CompleteTurn()
      modifies this
      ensures State() == old(Step(State(), Received(TurnCompleted)))
    {
      var turnInput := SaturatingSub(inputTokens, turnStartInputTokens);
      var turnOutput := SaturatingSub(outputTokens, turnStartOutputTokens);
      if turnOutput == 0 && turnStreamedChars > 0 {
        turnOutput := (turnStreamedChars + 3) / 4;
      }
      if |messages| > 0 && messages[|messages| - 1].role == ASSISTANT {
        var last := messages[|messages| - 1];
        last := last.(inputTokens := turnInput, outputTokens := turnOutput);
        if last.transportLabel.None? {
          last := last.(transportLabel := transportLabel);
        }
        if last.modelId.None? {
          last := last.(modelId := selectedModelId);
        }
        messages := messages[..|messages| - 1] + [last];
      }
      turnStreamedChars := 0;
      status := "idle";
    }
  }

  function Fresh(transportLabel: Option<string>, selectedModelId: Option<string>): Chat {
    Chat([], "idle", 0, 0, 0, 0, 0, transportLabel, selectedModelId)
  }
}
