/** The per-message token counts the panel adds up, compared with the session's cumulative totals. */
module ChatTokens {
  import opened Wrappers
  import opened AgentChat

  datatype Totals = Totals(input: nat, output: nat)

  const ZERO := Totals(0, 0)

  function Sums(messages: seq<ChatMessage>): Totals {
    if messages == [] then ZERO
    else
      var earlier, last := Sums(messages[..|messages| - 1]), Last(messages);
      if last.role == ASSISTANT then Totals(earlier.input + last.inputTokens, earlier.output + last.outputTokens)
      else earlier
  }

  /** The totals the panel shows: the sums, or the session totals when no message carries any. */
  function PanelTotals(chat: Chat): Totals {
    var sums := Sums(chat.messages);
    if sums.input > 0 || sums.output > 0 then sums else SessionTotals(chat)
  }

  function SessionTotals(chat: Chat): Totals {
    Totals(chat.inputTokens, chat.outputTokens)
  }

  // ---------- what a turn is credited with ----------

  /** Everything a session receives up to a TurnCompleted is one turn: messages typed or echoed, marks, text,
      errors, in any order. Only a snapshot, which replaces the session, is left out. */
  predicate IsTurn(turn: seq<Input>) {
    forall i :: 0 <= i < |turn| ==> !(turn[i].Received? && (turn[i].event.Snapshot? || turn[i].event.TurnCompleted?))
  }

  function AfterTurn(chat: Chat, turn: seq<Input>): Chat {
    After(chat, turn + [Received(TurnCompleted)])
  }

  function AfterTurns(chat: Chat, turns: seq<seq<Input>>): Chat {
    if turns == [] then chat else AfterTurn(AfterTurns(chat, turns[..|turns| - 1]), turns[|turns| - 1])
  }

  /** The usage totals after some inputs. */
  function Usage(start: Totals, inputs: seq<Input>): Totals {
    if inputs == [] then start
    else
      match inputs[|inputs| - 1]
      case Received(UsageUpdate(input, output)) => Totals(input, output)
      case _ => Usage(start, inputs[..|inputs| - 1])
  }

  predicate Starts(input: Input) {
    input.Received? && input.event.TurnStarted?
  }

  /** The usage totals when the turn was last marked as started. */
  function UsageAtStart(chat: Chat, inputs: seq<Input>): Totals {
    if inputs == [] then Totals(chat.turnStartInputTokens, chat.turnStartOutputTokens)
    else if Starts(inputs[|inputs| - 1]) then Usage(SessionTotals(chat), inputs[..|inputs| - 1])
    else UsageAtStart(chat, inputs[..|inputs| - 1])
  }

  /** The bytes streamed since then. */
  function Streamed(chat: Chat, inputs: seq<Input>): nat {
    if inputs == [] then chat.turnStreamedChars
    else
      var last, earlier := inputs[|inputs| - 1], inputs[..|inputs| - 1];
      if Starts(last) then 0
      else Streamed(chat, earlier) + if SpeakerOf(last).Assistant? then |last.event.content| else 0
  }

  datatype Speaker = Nobody | Assistant | Other

  /** Who says something in the transcript; only the assistant's text is ever credited. */
  function SpeakerOf(input: Input): Speaker {
    match input
    case Sent(message) => if message == [] then Nobody else Other
    case Received(MessageChunk(_)) => Assistant
    case Received(UserMessage(_)) => Other
    case Received(Error(_)) => Other
    case Received(_) => Nobody
  }

  function LastSpeaker(inputs: seq<Input>): Speaker {
    if inputs == [] then Nobody
    else if SpeakerOf(inputs[|inputs| - 1]).Nobody? then LastSpeaker(inputs[..|inputs| - 1])
    else SpeakerOf(inputs[|inputs| - 1])
  }

  predicate OthersSilent(inputs: seq<Input>) {
    inputs == [] || (!SpeakerOf(inputs[|inputs| - 1]).Other? && OthersSilent(inputs[..|inputs| - 1]))
  }

  /** The assistant has the last word, in the turn or, if nobody speaks in it, before it. */
  predicate EndsInText(chat: Chat, turn: seq<Input>) {
    LastSpeaker(turn).Assistant? || (LastSpeaker(turn).Nobody? && LastIs(chat.messages, ASSISTANT))
  }

  /** The counts a turn overwrites: those of the message it continues, if nobody else spoke since. */
  function Replaced(chat: Chat, turn: seq<Input>): Totals {
    if OthersSilent(turn) && LastIs(chat.messages, ASSISTANT)
    then Totals(Last(chat.messages).inputTokens, Last(chat.messages).outputTokens)
    else ZERO
  }

  function Credit(start: Totals, after: Totals, streamed: nat): Totals {
    Totals(SaturatingSub(after.input, start.input),
           if after.output <= start.output && streamed > 0 then EstimatedTokens(streamed)
           else SaturatingSub(after.output, start.output))
  }

  /** What a turn is credited with, read off its inputs. */
  function TurnCredit(chat: Chat, turn: seq<Input>): Totals {
    Credit(UsageAtStart(chat, turn), Usage(SessionTotals(chat), turn), Streamed(chat, turn))
  }

  // ---------- one turn ----------

  lemma AfterNext(chat: Chat, inputs: seq<Input>, input: Input)
    ensures After(chat, inputs + [input]) == Step(After(chat, inputs), input)
  {
    hide Step;
    assert (inputs + [input])[..|inputs|] == inputs;
  }

  lemma SumsPush(messages: seq<ChatMessage>, message: ChatMessage)
    ensures Sums(messages + [message])
         == if message.role == ASSISTANT
            then Totals(Sums(messages).input + message.inputTokens, Sums(messages).output + message.outputTokens)
            else Sums(messages)
  {
    assert (messages + [message])[..|messages|] == messages;
  }

  lemma TextKeepsSums(messages: seq<ChatMessage>, changed: seq<ChatMessage>)
    requires |changed| == |messages| > 0 && changed[..|messages| - 1] == messages[..|messages| - 1]
    requires Last(changed).role == Last(messages).role
    requires Last(changed).inputTokens == Last(messages).inputTokens
    requires Last(changed).outputTokens == Last(messages).outputTokens
    ensures Sums(changed) == Sums(messages)
  {
  }

  lemma {:induction false} OthersHeard(inputs: seq<Input>)
    ensures LastSpeaker(inputs).Other? ==> !OthersSilent(inputs)
  {
    if inputs != [] {
      OthersHeard(inputs[..|inputs| - 1]);
    }
  }

  /** Until the turn completes, the session keeps the turn's account and no count in the transcript changes. */
  ghost predicate Streaming(chat: Chat, inputs: seq<Input>, now: Chat) {
    && Totals(now.turnStartInputTokens, now.turnStartOutputTokens) == UsageAtStart(chat, inputs)
    && now.turnStreamedChars == Streamed(chat, inputs)
    && SessionTotals(now) == Usage(SessionTotals(chat), inputs)
    && TextStreaming(chat, inputs, now.messages)
  }

  ghost predicate TextStreaming(chat: Chat, inputs: seq<Input>, messages: seq<ChatMessage>) {
    && Sums(messages) == Sums(chat.messages)
    && (LastIs(messages, ASSISTANT) <==> EndsInText(chat, inputs))
    && (LastIs(messages, ASSISTANT) ==>
          Totals(Last(messages).inputTokens, Last(messages).outputTokens) == Replaced(chat, inputs))
  }

  /** Who has the last word and what is overwritten, from one input to the next. */
  lemma SpeakerNext(chat: Chat, inputs: seq<Input>)
    requires inputs != []
    ensures var earlier, speaker := inputs[..|inputs| - 1], SpeakerOf(inputs[|inputs| - 1]);
      && (EndsInText(chat, inputs) <==> speaker.Assistant? || (speaker.Nobody? && EndsInText(chat, earlier)))
      && (!speaker.Other? ==> Replaced(chat, inputs) == Replaced(chat, earlier))
      && (!EndsInText(chat, earlier) ==> Replaced(chat, earlier) == ZERO)
  {
    OthersHeard(inputs[..|inputs| - 1]);
  }

  lemma SilentStep(chat: Chat, inputs: seq<Input>, previous: Chat)
    requires inputs != [] && IsTurn(inputs) && SpeakerOf(inputs[|inputs| - 1]).Nobody?
    requires TextStreaming(chat, inputs[..|inputs| - 1], previous.messages)
    ensures TextStreaming(chat, inputs, Step(previous, inputs[|inputs| - 1]).messages)
  {
    hide Sums, EndsInText, Replaced;
    SpeakerNext(chat, inputs);
    var now := Step(previous, inputs[|inputs| - 1]);
    if inputs[|inputs| - 1].Received? && inputs[|inputs| - 1].event.ToolCall? && LastIs(previous.messages, ASSISTANT) {
      TextKeepsSums(previous.messages, now.messages);
    }
  }

  lemma ChunkStep(chat: Chat, inputs: seq<Input>, messages: seq<ChatMessage>, content: Text)
    requires inputs != [] && SpeakerOf(inputs[|inputs| - 1]).Assistant?
    requires TextStreaming(chat, inputs[..|inputs| - 1], messages)
    ensures TextStreaming(chat, inputs, Appended(messages, content))
  {
    hide Sums, EndsInText, Replaced;
    SpeakerNext(chat, inputs);
    if LastIs(messages, ASSISTANT) {
      TextKeepsSums(messages, Appended(messages, content));
    } else {
      SumsPush(messages, NewMessage(ASSISTANT, content));
    }
  }

  lemma OtherStep(chat: Chat, inputs: seq<Input>, messages: seq<ChatMessage>, message: ChatMessage)
    requires inputs != [] && SpeakerOf(inputs[|inputs| - 1]).Other? && message.role != ASSISTANT
    requires TextStreaming(chat, inputs[..|inputs| - 1], messages)
    ensures TextStreaming(chat, inputs, messages + [message])
    ensures messages != [] && Last(messages).role != ASSISTANT ==> TextStreaming(chat, inputs, messages)
  {
    hide Sums, EndsInText, Replaced;
    SpeakerNext(chat, inputs);
    SumsPush(messages, message);
  }

  lemma TextStep(chat: Chat, inputs: seq<Input>, previous: Chat)
    requires inputs != [] && IsTurn(inputs)
    requires TextStreaming(chat, inputs[..|inputs| - 1], previous.messages)
    ensures TextStreaming(chat, inputs, Step(previous, inputs[|inputs| - 1]).messages)
  {
    hide TextStreaming, Appended, WithTurnTotals, WithToolCall;
    match inputs[|inputs| - 1]
    case Sent(message) =>
      if message == [] {
        SilentStep(chat, inputs, previous);
      } else {
        OtherStep(chat, inputs, previous.messages, NewMessage(USER, message));
      }
    case Received(MessageChunk(content)) => ChunkStep(chat, inputs, previous.messages, content);
    case Received(UserMessage(content)) => OtherStep(chat, inputs, previous.messages, NewMessage(USER, content));
    case Received(Error(message)) => OtherStep(chat, inputs, previous.messages, NewMessage(ERROR, message));
    case _ => SilentStep(chat, inputs, previous);
  }

  lemma {:induction false} TurnStreams(chat: Chat, inputs: seq<Input>)
    requires IsTurn(inputs)
    ensures Streaming(chat, inputs, After(chat, inputs))
    decreases |inputs|
  {
    hide TextStreaming;
    if inputs == [] {
      NothingStreamed(chat);
    } else {
      var n := |inputs| - 1;
      TurnStreams(chat, inputs[..n]);
      TextStep(chat, inputs, After(chat, inputs[..n]));
      AccountStep(chat, inputs, After(chat, inputs[..n]));
      hide Step, UsageAtStart, Streamed, Usage;
    }
  }

  lemma NothingStreamed(chat: Chat)
    ensures TextStreaming(chat, [], chat.messages)
  {
  }

  lemma AccountStep(chat: Chat, inputs: seq<Input>, previous: Chat)
    requires inputs != [] && IsTurn(inputs)
    requires Streaming(chat, inputs[..|inputs| - 1], previous)
    ensures var now := Step(previous, inputs[|inputs| - 1]);
      && Totals(now.turnStartInputTokens, now.turnStartOutputTokens) == UsageAtStart(chat, inputs)
      && now.turnStreamedChars == Streamed(chat, inputs)
      && SessionTotals(now) == Usage(SessionTotals(chat), inputs)
  {
    hide TextStreaming, Appended, WithToolCall, WithUserMessage;
  }

  /** Completing a turn gives the last message, if it is the assistant's, the turn's counts for its own. */
  lemma TotalsCredited(chat: Chat)
    requires LastIs(chat.messages, ASSISTANT)
    ensures Sums(WithTurnTotals(chat)).input + Last(chat.messages).inputTokens
         == Sums(chat.messages).input + TurnInput(chat)
    ensures Sums(WithTurnTotals(chat)).output + Last(chat.messages).outputTokens
         == Sums(chat.messages).output + TurnOutput(chat)
  {
    SumsPush(chat.messages[..|chat.messages| - 1], Last(WithTurnTotals(chat)));
  }

  /** Whatever happens in a turn, it leaves the usage totals last reported, and the sums change by its credit, less
      what it overwrites, if the assistant has the last word, and not at all otherwise. */
  lemma TurnEffect(chat: Chat, turn: seq<Input>)
    requires IsTurn(turn)
    ensures var after := AfterTurn(chat, turn); var sums, sums' := Sums(chat.messages), Sums(after.messages);
      var credit, replaced := TurnCredit(chat, turn), Replaced(chat, turn);
      && SessionTotals(after) == Usage(SessionTotals(chat), turn)
      && if EndsInText(chat, turn)
         then sums'.input + replaced.input == sums.input + credit.input
              && sums'.output + replaced.output == sums.output + credit.output
         else sums' == sums
  {
    var now := After(chat, turn);
    TurnStreams(chat, turn);
    AfterNext(chat, turn, Received(TurnCompleted));
    hide After, Sums, Usage, UsageAtStart, Streamed, EndsInText, Replaced;
    if LastIs(now.messages, ASSISTANT) {
      TotalsCredited(now);
    }
  }

  // ---------- when the sums keep up ----------

  predicate InBalance(chat: Chat) {
    Sums(chat.messages) == SessionTotals(chat)
  }

  /** How a turn keeps the sums and the totals together. If the assistant has the last word, then the totals it
      started from, with what it overwrites, are the totals before it, and none has fallen since; where the output
      total has not grown, the estimate must be what is missing. Otherwise the totals stay as they are. */
  predicate Fits(chat: Chat, turn: seq<Input>) {
    var before, after, start := SessionTotals(chat), Usage(SessionTotals(chat), turn), UsageAtStart(chat, turn);
    var replaced, streamed := Replaced(chat, turn), Streamed(chat, turn);
    if EndsInText(chat, turn) then
      && Min(start.input, after.input) + replaced.input == before.input
      && (if after.output > start.output || streamed == 0
          then Min(start.output, after.output) + replaced.output == before.output
          else before.output + EstimatedTokens(streamed) == after.output + replaced.output)
    else after == before
  }

  lemma TurnKeepsBalance(chat: Chat, turn: seq<Input>)
    requires IsTurn(turn) && InBalance(chat)
    ensures InBalance(AfterTurn(chat, turn)) <==> Fits(chat, turn)
  {
    TurnEffect(chat, turn);
    hide AfterTurn, Sums, Usage, UsageAtStart, Streamed, EndsInText, Replaced;
  }

  ghost predicate BalancedThroughout(chat: Chat, turns: seq<seq<Input>>) {
    forall k :: 0 <= k <= |turns| ==> InBalance(AfterTurns(chat, turns[..k]))
  }

  ghost predicate AllFit(chat: Chat, turns: seq<seq<Input>>) {
    forall k :: 0 <= k < |turns| ==> Fits(AfterTurns(chat, turns[..k]), turns[k])
  }

  /** Over any run of turns, the sums equal the totals after every turn exactly if every turn fits. */
  lemma SumsFollowTotals(chat: Chat, turns: seq<seq<Input>>)
    requires forall k :: 0 <= k < |turns| ==> IsTurn(turns[k])
    requires InBalance(chat)
    ensures BalancedThroughout(chat, turns) <==> AllFit(chat, turns)
  {
    hide IsTurn, InBalance, Fits, AfterTurn, AfterTurns;
    if BalancedThroughout(chat, turns) {
      forall k | 0 <= k < |turns|
        ensures Fits(AfterTurns(chat, turns[..k]), turns[k])
      {
        assert InBalance(AfterTurns(chat, turns[..k])) && InBalance(AfterTurns(chat, turns[..k + 1]));
        NextTurn(chat, turns, k);
        TurnKeepsBalance(AfterTurns(chat, turns[..k]), turns[k]);
      }
    }
    if AllFit(chat, turns) {
      forall k | 0 <= k <= |turns|
        ensures InBalance(AfterTurns(chat, turns[..k]))
      {
        BalancedUpTo(chat, turns, k);
      }
    }
  }

  lemma {:induction false} BalancedUpTo(chat: Chat, turns: seq<seq<Input>>, k: nat)
    requires forall i :: 0 <= i < |turns| ==> IsTurn(turns[i])
    requires InBalance(chat) && AllFit(chat, turns) && k <= |turns|
    ensures InBalance(AfterTurns(chat, turns[..k]))
  {
    hide IsTurn, InBalance, Fits, AfterTurn;
    if k > 0 {
      BalancedUpTo(chat, turns, k - 1);
      NextTurn(chat, turns, k - 1);
      TurnKeepsBalance(AfterTurns(chat, turns[..k - 1]), turns[k - 1]);
    }
  }

  lemma NextTurn(chat: Chat, turns: seq<seq<Input>>, k: nat)
    requires k < |turns|
    ensures AfterTurns(chat, turns[..k + 1]) == AfterTurn(AfterTurns(chat, turns[..k]), turns[k])
  {
    hide AfterTurn;
    assert turns[..k + 1][..k] == turns[..k];
  }

  lemma Prefixes<T>(s: seq<T>)
    requires s != []
    ensures s[..|s|] == s
    ensures forall k :: 0 <= k < |s| ==> s[..|s| - 1][..k] == s[..k]
    ensures forall k :: 0 <= k < |s| - 1 ==> s[..|s| - 1][k] == s[k]
  {
  }

  // ---------- ordinary turns ----------

  /** Someone else has spoken since the last turn, and usage has not changed between the turns. */
  predicate Ordinary(chat: Chat, turn: seq<Input>) {
    IsTurn(turn) && !OthersSilent(turn) && UsageAtStart(chat, turn) == SessionTotals(chat)
  }

  /** The usage totals never fall in the turn, and the output total grows unless nothing was streamed. */
  predicate UsageAdvances(chat: Chat, turn: seq<Input>) {
    var before, after := SessionTotals(chat), Usage(SessionTotals(chat), turn);
    && before.input <= after.input
    && before.output <= after.output
    && (before.output == after.output ==> Streamed(chat, turn) == 0)
  }

  predicate Proper(chat: Chat, turn: seq<Input>) {
    if EndsInText(chat, turn) then UsageAdvances(chat, turn)
    else Usage(SessionTotals(chat), turn) == SessionTotals(chat)
  }

  ghost predicate AllOrdinary(chat: Chat, turns: seq<seq<Input>>) {
    forall k :: 0 <= k < |turns| ==> Ordinary(AfterTurns(chat, turns[..k]), turns[k])
  }

  ghost predicate AllProper(chat: Chat, turns: seq<seq<Input>>) {
    forall k :: 0 <= k < |turns| ==> Proper(AfterTurns(chat, turns[..k]), turns[k])
  }

  lemma ProperFits(chat: Chat, turn: seq<Input>)
    requires Ordinary(chat, turn)
    ensures IsTurn(turn) && (Fits(chat, turn) <==> Proper(chat, turn))
  {
    hide Usage, UsageAtStart, Streamed, EndsInText, OthersSilent;
  }

  /** Over any run of ordinary turns, the sums equal the totals after every turn exactly if each turn either ends in
      the assistant's text and advances usage, or does not and leaves usage as it was. */
  lemma OrdinaryTurnsBalance(chat: Chat, turns: seq<seq<Input>>)
    requires InBalance(chat) && AllOrdinary(chat, turns)
    ensures BalancedThroughout(chat, turns) <==> AllProper(chat, turns)
  {
    hide InBalance, Fits, Proper, AfterTurns, BalancedThroughout;
    forall k | 0 <= k < |turns|
      ensures IsTurn(turns[k])
      ensures Fits(AfterTurns(chat, turns[..k]), turns[k]) <==> Proper(AfterTurns(chat, turns[..k]), turns[k])
    {
      ProperFits(AfterTurns(chat, turns[..k]), turns[k]);
    }
    SumsFollowTotals(chat, turns);
  }

  predicate ReportsUsage(input: Input) {
    input.Received? && input.event.UsageUpdate?
  }

  /** The turns one expects are ordinary: a message, no usage reported before the start, one start. */
  lemma OpenedTurnIsOrdinary(chat: Chat, opening: seq<Input>, body: seq<Input>)
    requires IsTurn(opening) && IsTurn(body)
    requires exists i :: 0 <= i < |opening| && SpeakerOf(opening[i]).Other?
    requires forall i :: 0 <= i < |opening| ==> !ReportsUsage(opening[i])
    requires forall i :: 0 <= i < |body| ==> !Starts(body[i])
    ensures Ordinary(chat, opening + [Received(TurnStarted)] + body)
  {
    var ready := opening + [Received(TurnStarted)];
    assert ready[..|opening|] == opening;
    NoUsage(SessionTotals(chat), opening);
    OneStart(chat, ready, body);
    SomeoneHeard(opening);
    SomeoneHeardLater(opening, [Received(TurnStarted)] + body);
    Assoc(opening, [Received(TurnStarted)], body);
  }

  lemma {:induction false} NoUsage(start: Totals, inputs: seq<Input>)
    requires forall i :: 0 <= i < |inputs| ==> !ReportsUsage(inputs[i])
    ensures Usage(start, inputs) == start
  {
    if inputs != [] {
      NoUsage(start, inputs[..|inputs| - 1]);
    }
  }

  lemma {:induction false} OneStart(chat: Chat, before: seq<Input>, body: seq<Input>)
    requires forall i :: 0 <= i < |body| ==> !Starts(body[i])
    ensures UsageAtStart(chat, before + body) == UsageAtStart(chat, before)
    decreases |body|
  {
    if body == [] {
      assert before + body == before;
    } else {
      assert (before + body)[..|before + body| - 1] == before + body[..|body| - 1];
      OneStart(chat, before, body[..|body| - 1]);
    }
  }

  lemma {:induction false} SomeoneHeard(inputs: seq<Input>)
    requires exists i :: 0 <= i < |inputs| && SpeakerOf(inputs[i]).Other?
    ensures !OthersSilent(inputs)
  {
    var n, i :| n == |inputs| - 1 && 0 <= i <= n && SpeakerOf(inputs[i]).Other?;
    if i < n {
      assert inputs[..n][i] == inputs[i];
      SomeoneHeard(inputs[..n]);
    }
  }

  lemma {:induction false} SomeoneHeardLater(inputs: seq<Input>, more: seq<Input>)
    requires !OthersSilent(inputs)
    ensures !OthersSilent(inputs + more)
    decreases |more|
  {
    if more == [] {
      assert inputs + more == inputs;
    } else {
      assert (inputs + more)[..|inputs + more| - 1] == inputs + more[..|more| - 1];
      SomeoneHeardLater(inputs, more[..|more| - 1]);
    }
  }

  ghost predicate AllCredited(chat: Chat, turns: seq<seq<Input>>) {
    forall k :: 0 <= k < |turns| ==>
      Ordinary(AfterTurns(chat, turns[..k]), turns[k]) && EndsInText(AfterTurns(chat, turns[..k]), turns[k])
  }

  ghost predicate AllAdvance(chat: Chat, turns: seq<seq<Input>>) {
    forall k :: 0 <= k < |turns| ==> UsageAdvances(AfterTurns(chat, turns[..k]), turns[k])
  }

  /** What a credited turn adds is at least what usage grew by, and exactly that if and only if usage advances. */
  lemma CreditAtLeastGrowth(chat: Chat, turn: seq<Input>)
    requires Ordinary(chat, turn) && EndsInText(chat, turn)
    ensures var after := AfterTurn(chat, turn); var sums, sums' := Sums(chat.messages), Sums(after.messages);
      && sums'.input + chat.inputTokens >= sums.input + after.inputTokens
      && sums'.output + chat.outputTokens >= sums.output + after.outputTokens
      && (sums'.input + chat.inputTokens == sums.input + after.inputTokens
          && sums'.output + chat.outputTokens == sums.output + after.outputTokens
          <==> UsageAdvances(chat, turn))
  {
    TurnEffect(chat, turn);
    hide AfterTurn, Sums, Usage, UsageAtStart, Streamed, EndsInText, OthersSilent;
  }

  lemma SplitTurns(chat: Chat, turns: seq<seq<Input>>)
    requires turns != []
    ensures var n := |turns| - 1; var previous := AfterTurns(chat, turns[..n]);
      && (AllCredited(chat, turns) <==>
            AllCredited(chat, turns[..n]) && Ordinary(previous, turns[n]) && EndsInText(previous, turns[n]))
      && (AllAdvance(chat, turns) <==> AllAdvance(chat, turns[..n]) && UsageAdvances(previous, turns[n]))
  {
    hide AfterTurns, UsageAdvances, Ordinary, EndsInText;
    Prefixes(turns);
  }

  /** While the assistant has the last word in every turn, the sums never fall behind the totals, and equal them at
      the end exactly if usage advanced in every turn. */
  lemma {:induction false} SumsAgainstTotals(chat: Chat, turns: seq<seq<Input>>)
    requires AllCredited(chat, turns) && InBalance(chat)
    ensures var end := AfterTurns(chat, turns);
      && Sums(end.messages).input >= end.inputTokens
      && Sums(end.messages).output >= end.outputTokens
      && (InBalance(end) <==> AllAdvance(chat, turns))
    decreases |turns|
  {
    hide AfterTurn, Sums, Ordinary, EndsInText, UsageAdvances, AllCredited, AllAdvance;
    if turns == [] {
      NoTurns(chat);
    } else {
      var n := |turns| - 1;
      SplitTurns(chat, turns);
      SumsAgainstTotals(chat, turns[..n]);
      CreditAtLeastGrowth(AfterTurns(chat, turns[..n]), turns[n]);
    }
  }

  lemma NoTurns(chat: Chat)
    ensures AllAdvance(chat, [])
  {
  }

  /** From a fresh session, while the assistant has the last word in every turn, the panel shows the session's
      cumulative totals exactly if in every turn they do not fall and the output total grows (or nothing was
      streamed). */
  lemma TokensTelescope(transportLabel: Option<string>, selectedModelId: Option<string>, turns: seq<seq<Input>>)
    requires AllCredited(Fresh(transportLabel, selectedModelId), turns)
    ensures var start := Fresh(transportLabel, selectedModelId); var end := AfterTurns(start, turns);
      PanelTotals(end) == SessionTotals(end) <==> AllAdvance(start, turns)
  {
    hide AllAdvance, AllCredited, AfterTurns;
    SumsAgainstTotals(Fresh(transportLabel, selectedModelId), turns);
  }

  // ---------- what the panel shows ----------

  predicate PanelRight(chat: Chat) {
    PanelTotals(chat) == SessionTotals(chat)
  }

  /** As long as nothing is credited the panel falls back on the totals; the first credit must make up all of them,
      and from then on turns must fit, unless one overwrites the only counts there are with nothing. */
  predicate PanelFits(chat: Chat, turn: seq<Input>) {
    var credit := TurnCredit(chat, turn);
    if Sums(chat.messages) == ZERO
    then !EndsInText(chat, turn) || credit == ZERO || credit == Usage(SessionTotals(chat), turn)
    else Fits(chat, turn) || (EndsInText(chat, turn) && Replaced(chat, turn) == Sums(chat.messages) && credit == ZERO)
  }

  lemma ReplacedInSums(chat: Chat, turn: seq<Input>)
    ensures Replaced(chat, turn).input <= Sums(chat.messages).input
    ensures Replaced(chat, turn).output <= Sums(chat.messages).output
  {
  }

  lemma TurnKeepsPanelRight(chat: Chat, turn: seq<Input>)
    requires IsTurn(turn) && PanelRight(chat)
    ensures PanelRight(AfterTurn(chat, turn)) <==> PanelFits(chat, turn)
  {
    TurnEffect(chat, turn);
    ReplacedInSums(chat, turn);
    if InBalance(chat) {
      TurnKeepsBalance(chat, turn);
    }
    hide AfterTurn, Sums, Usage, UsageAtStart, Streamed, EndsInText, Replaced, Fits, Credit;
  }

  ghost predicate PanelRightThroughout(chat: Chat, turns: seq<seq<Input>>) {
    forall k :: 0 <= k <= |turns| ==> PanelRight(AfterTurns(chat, turns[..k]))
  }

  ghost predicate AllPanelFit(chat: Chat, turns: seq<seq<Input>>) {
    forall k :: 0 <= k < |turns| ==> PanelFits(AfterTurns(chat, turns[..k]), turns[k])
  }

  /** Over any run of turns, the panel shows the session totals after every turn exactly if every turn fits the
      panel. */
  lemma PanelFollowsTotals(chat: Chat, turns: seq<seq<Input>>)
    requires forall k :: 0 <= k < |turns| ==> IsTurn(turns[k])
    requires PanelRight(chat)
    ensures PanelRightThroughout(chat, turns) <==> AllPanelFit(chat, turns)
  {
    hide IsTurn, PanelRight, PanelFits, AfterTurn, AfterTurns;
    if PanelRightThroughout(chat, turns) {
      forall k | 0 <= k < |turns|
        ensures PanelFits(AfterTurns(chat, turns[..k]), turns[k])
      {
        assert PanelRight(AfterTurns(chat, turns[..k])) && PanelRight(AfterTurns(chat, turns[..k + 1]));
        NextTurn(chat, turns, k);
        TurnKeepsPanelRight(AfterTurns(chat, turns[..k]), turns[k]);
      }
    }
    if AllPanelFit(chat, turns) {
      forall k | 0 <= k <= |turns|
        ensures PanelRight(AfterTurns(chat, turns[..k]))
      {
        PanelRightUpTo(chat, turns, k);
      }
    }
  }

  lemma {:induction false} PanelRightUpTo(chat: Chat, turns: seq<seq<Input>>, k: nat)
    requires forall i :: 0 <= i < |turns| ==> IsTurn(turns[i])
    requires PanelRight(chat) && AllPanelFit(chat, turns) && k <= |turns|
    ensures PanelRight(AfterTurns(chat, turns[..k]))
  {
    hide IsTurn, PanelRight, PanelFits, AfterTurn;
    if k > 0 {
      PanelRightUpTo(chat, turns, k - 1);
      NextTurn(chat, turns, k - 1);
      TurnKeepsPanelRight(AfterTurns(chat, turns[..k - 1]), turns[k - 1]);
    }
  }

  // ---------- where it goes wrong ----------

  const LETTER: Text := [65]

  function PlainTurn(total: nat): seq<Input> {
    [Sent(LETTER), Received(TurnStarted), Received(MessageChunk(LETTER)), Received(UsageUpdate(total, total))]
  }

  lemma ScanNext(chat: Chat, inputs: seq<Input>, input: Input)
    ensures Usage(SessionTotals(chat), inputs + [input])
         == if ReportsUsage(input) then Totals(input.event.inputTokens, input.event.outputTokens)
            else Usage(SessionTotals(chat), inputs)
    ensures UsageAtStart(chat, inputs + [input])
         == if Starts(input) then Usage(SessionTotals(chat), inputs) else UsageAtStart(chat, inputs)
    ensures LastSpeaker(inputs + [input]) == if SpeakerOf(input).Nobody? then LastSpeaker(inputs) else SpeakerOf(input)
    ensures OthersSilent(inputs + [input]) <==> !SpeakerOf(input).Other? && OthersSilent(inputs)
  {
    assert (inputs + [input])[..|inputs|] == inputs;
  }

  /** What a plain turn looks like when read off its inputs. */
  lemma PlainTurnIs(chat: Chat, total: nat)
    ensures var turn := PlainTurn(total);
      && IsTurn(turn) && !OthersSilent(turn) && LastSpeaker(turn).Assistant?
      && UsageAtStart(chat, turn) == SessionTotals(chat)
      && Usage(SessionTotals(chat), turn) == Totals(total, total)
  {
    hide Usage, UsageAtStart, LastSpeaker, OthersSilent;
    var first: seq<Input> := [Sent(LETTER)];
    var second := first + [Received(TurnStarted)];
    var third := second + [Received(MessageChunk(LETTER))];
    assert PlainTurn(total) == third + [Received(UsageUpdate(total, total))];
    NoUsage(SessionTotals(chat), first);
    ScanNext(chat, first, Received(TurnStarted));
    ScanNext(chat, second, Received(MessageChunk(LETTER)));
    ScanNext(chat, third, Received(UsageUpdate(total, total)));
    assert SpeakerOf(first[0]).Other?;
    SomeoneHeard(first);
  }

  /** A message sent while the second turn still streams leaves nobody to credit: usage advances in both turns, and
      the panel shows half of it. */
  lemma MessageDuringTurnLosesTokens(transportLabel: Option<string>, selectedModelId: Option<string>)
    ensures var start := Fresh(transportLabel, selectedModelId);
      var end := AfterTurn(AfterTurn(start, PlainTurn(1)), PlainTurn(2) + [Sent(LETTER + LETTER)]);
      SessionTotals(end) == Totals(2, 2) && PanelTotals(end) == Totals(1, 1)
  {
    var start := Fresh(transportLabel, selectedModelId);
    PlainTurnIs(start, 1);
    TurnEffect(start, PlainTurn(1));
    var middle := AfterTurn(start, PlainTurn(1));
    PlainTurnIs(middle, 2);
    ScanNext(middle, PlainTurn(2), Sent(LETTER + LETTER));
    TurnEffect(middle, PlainTurn(2) + [Sent(LETTER + LETTER)]);
    hide AfterTurn, PlainTurn, Usage, UsageAtStart, Streamed, LastSpeaker, OthersSilent;
  }
}
