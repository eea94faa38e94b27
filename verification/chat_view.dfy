/**
 * The chat view (components/ChatView.tsx). `handleSend` awaits the service, so it
 * is split into the part that runs before the call (`BeginSend`) and the part
 * that runs when the reply arrives (`FinishSend`).
 */
module ChatSession {
  import opened Wrappers
  import opened Text
  import opened Types
  import opened Assistant

  /** The transcript, the draft, whether a send is outstanding, and the mode. */
  datatype ChatState = ChatState(messages: seq<ChatMessage>, input: string, loading: bool, mode: ChatMode)

  /** No messages, an empty draft, nothing outstanding, standard mode. */
  const InitialChat: ChatState := ChatState([], "", false, Standard)

  /** The arguments of the `sendChatMessage` call an accepted send makes. */
  datatype ServiceCall = ServiceCall(history: seq<ChatMessage>, message: string, goals: seq<Goal>, mode: ChatMode)

  /** The state after the synchronous part of `handleSend`, and the call it made, if any. */
  datatype SendStart = SendStart(state: ChatState, call: Option<ServiceCall>)

  /** The guard of `handleSend`: a non-blank draft and no send outstanding. */
  predicate CanSend(s: ChatState) {
    !IsBlank(s.input) && !s.loading
  }

  /**
   * The part of `handleSend` before the service call: append the user's message,
   * clear the draft, mark a send as outstanding, and call the service with the
   * transcript as it was before the new message.
   */
  function BeginSend(s: ChatState, goals: seq<Goal>): (r: SendStart)
    ensures !CanSend(s) ==> r == SendStart(s, None)
    ensures CanSend(s) ==> r.call == Some(ServiceCall(s.messages, s.input, goals, s.mode))
    ensures CanSend(s) ==>
      && r.state.messages == s.messages + [ChatMessage(User, s.input, None)]
      && r.state.input == "" && r.state.loading && r.state.mode == s.mode
  {
    if !CanSend(s) then SendStart(s, None)
    else
      SendStart(
        ChatState(s.messages + [ChatMessage(User, s.input, None)], "", true, s.mode),
        Some(ServiceCall(s.messages, s.input, goals, s.mode)))
  }

  /** The part of `handleSend` after the reply: append the assistant's message, clear loading. */
  function FinishSend(s: ChatState, reply: Reply): (r: ChatState)
    ensures |r.messages| == |s.messages| + 1 && r.messages[..|s.messages|] == s.messages
    ensures r.messages[|s.messages|] == ChatMessage(Model, reply.text, Some(reply.sources))
    ensures !r.loading && r.input == s.input && r.mode == s.mode
  {
    s.(messages := s.messages + [ChatMessage(Model, reply.text, Some(reply.sources))], loading := false)
  }

  /**
   * The whole of `handleSend`, with the service replying `reply`: a refused send
   * changes nothing; an accepted one appends the user's message and then the
   * reply, clears the draft and loading, and keeps the mode.
   */
  function Send(s: ChatState, goals: seq<Goal>, reply: Reply): (r: ChatState)
    ensures !CanSend(s) ==> r == s
    ensures CanSend(s) ==>
      && r.messages == s.messages + [ChatMessage(User, s.input, None), ChatMessage(Model, reply.text, Some(reply.sources))]
      && r.input == "" && !r.loading && r.mode == s.mode
  {
    var start := BeginSend(s, goals);
    if start.call.None? then start.state else FinishSend(start.state, reply)
  }

  /** A completed send grows the transcript by the user's message followed by the reply. */
  lemma SendAppendsTwo(s: ChatState, goals: seq<Goal>, reply: Reply)
    requires CanSend(s)
    ensures var t := Send(s, goals, reply);
      && |t.messages| == |s.messages| + 2
      && t.messages == s.messages + [ChatMessage(User, s.input, None), ChatMessage(Model, reply.text, Some(reply.sources))]
      && !t.loading && t.input == ""
  {
    var t := Send(s, goals, reply);
    assert t.messages[..|s.messages| + 1] == s.messages + [ChatMessage(User, s.input, None)];
  }

  /** A rejected send leaves everything as it was. */
  lemma BlankOrBusySendIsNoOp(s: ChatState, goals: seq<Goal>, reply: Reply)
    requires IsBlank(s.input) || s.loading
    ensures Send(s, goals, reply) == s
  {
  }

  /** While a send is outstanding, no further send starts, whatever is typed meanwhile. */
  lemma OutstandingSendBlocksOthers(s: ChatState, goals: seq<Goal>, typed: string)
    requires CanSend(s)
    ensures BeginSend(BeginSend(s, goals).state.(input := typed), goals).call.None?
  {
  }

  /**
   * The request that reaches the remote service carries the earlier transcript as
   * turns, without the message being sent, and that message separately.
   */
  lemma ServiceSeesPriorHistory(s: ChatState, goals: seq<Goal>)
    requires CanSend(s)
    ensures var call := BeginSend(s, goals).call.value;
      var req := BuildRequest(call.history, call.message, goals, s.mode);
      && req.history == ToTurns(s.messages)
      && |req.history| + 1 == |BeginSend(s, goals).state.messages|
      && req.message == s.input
      && req.config.systemInstruction == Context(goals)
  {
  }

  /** Roles alternate user, assistant, user, ... from the first message. */
  predicate Alternating(messages: seq<ChatMessage>) {
    forall i :: 0 <= i < |messages| ==> messages[i].role == (if i % 2 == 0 then User else Model)
  }

  /** The transcript alternates, and it ends with an unanswered user message exactly while loading. */
  predicate Consistent(s: ChatState) {
    Alternating(s.messages) && (|s.messages| % 2 == 1 <==> s.loading)
  }

  /** The initial state is consistent. */
  lemma InitialConsistent()
    ensures Consistent(InitialChat)
  {
  }

  /** Appending a message whose role is the one due next keeps the roles alternating. */
  lemma AlternatingAppend(messages: seq<ChatMessage>, m: ChatMessage)
    requires Alternating(messages)
    requires m.role == (if |messages| % 2 == 0 then User else Model)
    ensures Alternating(messages + [m])
  {
    var r := messages + [m];
    forall i | 0 <= i < |r| ensures r[i].role == (if i % 2 == 0 then User else Model) {
      if i < |messages| {
        assert r[i] == messages[i];
      }
    }
  }

  /** One more message flips the parity of the transcript's length. */
  lemma NextParity(n: int)
    ensures (n + 1) % 2 == 1 - n % 2
  {
  }

  /** Both halves of a send keep the transcript consistent. */
  lemma SendKeepsConsistent(s: ChatState, goals: seq<Goal>, reply: Reply)
    requires Consistent(s)
    ensures Consistent(BeginSend(s, goals).state)
    ensures BeginSend(s, goals).call.Some? ==> Consistent(FinishSend(BeginSend(s, goals).state, reply))
  {
    if CanSend(s) {
      var t := BeginSend(s, goals).state;
      var answer := ChatMessage(Model, reply.text, Some(reply.sources));
      NextParity(|s.messages|);
      NextParity(|t.messages|);
      AlternatingAppend(s.messages, ChatMessage(User, s.input, None));
      AlternatingAppend(t.messages, answer);
      assert FinishSend(t, reply).messages == t.messages + [answer];
    }
  }
}
