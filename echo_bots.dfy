/**
 The two simplest bots: `Bot`, which echoes every message back, and
 `QuoteBot`, which replies by quoting the message unless asked not to.
 */
module EchoBots {
  import opened Telegram
  import opened Text

  const ECHO_PREFIX := "Your original message: "
  const DO_NOT_QUOTE := "Please don't quote me"

  /**
   `Bot.handle_message`: one text to the message's chat, the prefix followed
   by the unchanged text. A message without text raises `KeyError('text')`
   before anything is sent.
   */
  function EchoHandle(msg: Message): (o: Outcome)
    ensures msg.text.None? <==> o == Outcome([], Some(KeyError("text")))
    ensures msg.text.Some? ==>
      o.raised.None? && |o.actions| == 1 && o.actions[0].SendText?
      && o.actions[0].chat == msg.chatId
      && StartsWith(o.actions[0].text, ECHO_PREFIX)
      && o.actions[0].text[|ECHO_PREFIX|..] == msg.text.value
  {
    match msg.text
    case None => Outcome([], Some(KeyError("text")))
    case Some(t) => Outcome([SendText(msg.chatId, ECHO_PREFIX + t)], None)
  }

  /**
   `QuoteBot.handle_message`: nothing is sent exactly when the text is the
   exempt phrase (compared case-sensitively); otherwise one reply quoting the
   message, carrying its text unchanged. A message without text raises
   `KeyError('text')`.
   */
  function QuoteHandle(msg: Message): (o: Outcome)
    ensures msg.text.None? <==> o.raised == Some(KeyError("text"))
    ensures msg.text.Some? ==> o.raised.None?
    ensures o.raised.Some? ==> o.actions == []
    ensures msg.text.Some? ==>
      (o.actions == [] <==> msg.text.value == DO_NOT_QUOTE)
    ensures msg.text.Some? && msg.text.value != DO_NOT_QUOTE ==>
      o.actions == [SendQuoted(msg.chatId, msg.text.value, msg.messageId)]
  {
    match msg.text
    case None => Outcome([], Some(KeyError("text")))
    case Some(t) =>
      if t != DO_NOT_QUOTE then Outcome([SendQuoted(msg.chatId, t, msg.messageId)], None)
      else Outcome([], None)
  }

  /** The exempt phrase is matched exactly: a lower-cased variant is still quoted. */
  lemma QuoteIsCaseSensitive(chat: int, id: int)
    ensures QuoteHandle(Message(chat, id, Some("please don't quote me"), None, false)).actions
      == [SendQuoted(chat, "please don't quote me", id)]
    ensures QuoteHandle(Message(chat, id, Some(DO_NOT_QUOTE), None, false)).actions == []
  {
    assert "please don't quote me"[0] != DO_NOT_QUOTE[0];
  }
}
