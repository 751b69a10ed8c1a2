/**
  The chat revision turn of the web app (`on_chat_submit`).

  The chat history is a list of (role, content) turns.  A submission appends
  the user's suggestion and a composed follow-up message, sends the whole
  history to the chat model as messages, and appends the model's reply.  The
  chat model is a function of its own state, so the single call is visible.
 */
module ChatRevision {
  import opened Outcomes
  import opened Text

  /** One entry of the chat history: a role name and the text. */
  datatype Turn = Turn(role: string, content: string)

  /** The speaker of a chat message. */
  datatype Role = Human | Ai

  datatype Message = Message(role: Role, content: string)

  /** A chat model: one call with a conversation, from a state to the next. */
  type ChatModel<!S> = (S, seq<Message>) -> (Raises<string>, S)

  /** The role `"user"` is the human; every other role is the model. */
  function RoleOf(role: string): Role
  {
    if role == "user" then Human else Ai
  }

  /** The history as chat messages, turn by turn. */
  function ToMessages(turns: seq<Turn>): (ms: seq<Message>)
    ensures |ms| == |turns|
    ensures forall i :: 0 <= i < |turns| ==>
      && ms[i].content == turns[i].content
      && (ms[i].role == Human <==> turns[i].role == "user")
  {
    if |turns| == 0 then []
    else [Message(RoleOf(turns[0].role), turns[0].content)] + ToMessages(turns[1..])
  }

  /** Converting a history is converting its parts. */
  lemma {:induction false} ToMessagesAppend(a: seq<Turn>, b: seq<Turn>)
    ensures ToMessages(a + b) == ToMessages(a) + ToMessages(b)
    decreases |a|
  {
    if |a| > 0 {
      assert (a + b)[1..] == a[1..] + b;
      ToMessagesAppend(a[1..], b);
    }
  }

  const FollowUpLead := "Here's the current PlantUML text:\n"
  const FenceOpen := "```plantuml\n"
  const FenceClose := "\n```"
  const FollowUpAsk := "\nAnd here's the description of how I would like it changed:\n"
  const FollowUpOutro := "\nPlease return only the updated PlantUML code."

  /** The follow-up message: the trimmed current code in a `plantuml` fence,
      then the user's suggestion, then the instruction.  It shows the trimmed
      code between a ```` ```plantuml ```` line and a closing fence, and ends
      with the suggestion followed by the instruction. */
  function FollowUp(code: string, input: string): (msg: string)
    ensures Contains(msg, FenceOpen + Strip(code) + FenceClose)
    ensures Contains(msg, input)
    ensures |input + FollowUpOutro| <= |msg|
    ensures msg[|msg| - |input + FollowUpOutro|..] == input + FollowUpOutro
  {
    PartsEmbedded(FollowUpLead, FenceOpen, Strip(code), FenceClose, FollowUpAsk, input, FollowUpOutro);
    FollowUpLead + FenceOpen + Strip(code) + FenceClose + FollowUpAsk + input + FollowUpOutro
  }

  lemma PartsEmbedded(lead: string, open: string, body: string, close: string, ask: string, input: string, outro: string)
    ensures var m := lead + open + body + close + ask + input + outro;
      && Contains(m, open + body + close)
      && Contains(m, input)
      && |input + outro| <= |m|
      && m[|m| - |input + outro|..] == input + outro
  {
    var m := lead + open + body + close + ask + input + outro;
    var head := lead + (open + body + close) + ask;
    assert m == lead + (open + body + close) + (ask + input + outro);
    InfixContained(m, lead, open + body + close, ask + input + outro);
    assert m == head + input + outro;
    InfixContained(m, head, input, outro);
    assert m[|head|..] == input + outro;
  }

  /** The history as it stands once the suggestion and the follow-up are added:
      the earlier turns (none when the history is empty or absent), then the
      user's suggestion, then the follow-up as a system turn. */
  function Request(history: Option<seq<Turn>>, input: string, code: string): (turns: seq<Turn>)
    ensures var earlier := if history.Some? then history.value else [];
      && |turns| == |earlier| + 2
      && turns[..|earlier|] == earlier
      && turns[|earlier|] == Turn("user", input)
      && turns[|earlier| + 1] == Turn("system", FollowUp(code, input))
  {
    var earlier := if history.Some? then history.value else [];
    earlier + [Turn("user", input), Turn("system", FollowUp(code, input))]
  }

  /** `on_chat_submit(user_input, chat_history, plantuml_code_text)`: returns the
      new history and the cleared input box.  Reading the API key may raise;
      then no call is made.  Otherwise the model is called once with the whole
      request, and its exception, if any, propagates.  The second component is
      the model's state. */
  function OnChatSubmit<S>(apiKey: Raises<string>, input: string, history: Option<seq<Turn>>, code: string,
                           chat: ChatModel<S>, s: S): (out: (Raises<(seq<Turn>, string)>, S))
    ensures apiKey.Raised? ==> out == (Raised(apiKey.error), s)
    ensures apiKey.Returned? ==>
      var reply := chat(s, ToMessages(Request(history, input, code)));
      && out.1 == reply.1
      && (reply.0.Raised? ==> out.0 == Raised(reply.0.error))
      && (reply.0.Returned? ==> out.0.Returned? && out.0.value.1 == "")
  {
    match apiKey
    case Raised(e) => (Raised(e), s)
    case Returned(_) =>
      var turns := Request(history, input, code);
      var reply := chat(s, ToMessages(turns));
      match reply.0
      case Raised(e) => (Raised(e), reply.1)
      case Returned(updated) => (Returned((turns + [Turn("system", updated)], "")), reply.1)
  }

  /** The chat model is sent one message per earlier turn, plus two: the human's
      suggestion and the follow-up, from the model's side. */
  lemma SentMessages(history: seq<Turn>, input: string, code: string)
    ensures var ms := ToMessages(Request(Some(history), input, code));
      && |ms| == |history| + 2
      && ms[..|history|] == ToMessages(history)
      && ms[|history|] == Message(Human, input)
      && ms[|history| + 1] == Message(Ai, FollowUp(code, input))
  {
    ToMessagesAppend(history, [Turn("user", input), Turn("system", FollowUp(code, input))]);
  }

  /** A successful turn only appends: the earlier turns are kept in order, and
      exactly three follow, the suggestion, the follow-up and the reply as
      returned (not fence-stripped, not trimmed). */
  lemma HistoryAppendOnly<S>(apiKey: Raises<string>, input: string, history: seq<Turn>, code: string,
                             chat: ChatModel<S>, s: S)
    requires OnChatSubmit(apiKey, input, Some(history), code, chat, s).0.Returned?
    ensures var h := OnChatSubmit(apiKey, input, Some(history), code, chat, s).0.value.0;
      var reply := chat(s, ToMessages(Request(Some(history), input, code))).0;
      && reply.Returned?
      && |h| == |history| + 3
      && h[..|history|] == history
      && h[|history|] == Turn("user", input)
      && h[|history| + 1] == Turn("system", FollowUp(code, input))
      && h[|history| + 2] == Turn("system", reply.value)
  {
    var h := OnChatSubmit(apiKey, input, Some(history), code, chat, s).0.value.0;
    assert h[..|history|] == history;
  }

  /** An absent history behaves as an empty one. */
  lemma AbsentHistoryIsEmpty<S>(apiKey: Raises<string>, input: string, code: string, chat: ChatModel<S>, s: S)
    ensures OnChatSubmit(apiKey, input, None, code, chat, s) == OnChatSubmit(apiKey, input, Some([]), code, chat, s)
  {
  }

  /** The returned history, converted again, is the conversation just sent
      followed by the reply as a model message: the next turn extends it. */
  lemma NextConversationExtends<S>(apiKey: Raises<string>, input: string, history: Option<seq<Turn>>, code: string,
                                   chat: ChatModel<S>, s: S)
    requires OnChatSubmit(apiKey, input, history, code, chat, s).0.Returned?
    ensures var sent := ToMessages(Request(history, input, code));
      var reply := chat(s, sent).0;
      && reply.Returned?
      && ToMessages(OnChatSubmit(apiKey, input, history, code, chat, s).0.value.0)
           == sent + [Message(Ai, reply.value)]
  {
    var turns := Request(history, input, code);
    ToMessagesAppend(turns, [Turn("system", chat(s, ToMessages(turns)).0.value)]);
  }
}
