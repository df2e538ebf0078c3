/**
 * TelegramBot.sendMessage, reduced to its effect: a message that the Bot
 * API accepts joins the outbox. Every request uses parse mode HTML with
 * link previews disabled, so those fields are not recorded. `network` says,
 * per attempt, whether the API accepted the message, answered with an
 * error object (which `response.json()` returns without throwing), or the
 * request itself threw.
 */
module Telegram {
  import opened Js
  import Constants

  /** A fixed reply (a MESSAGES string) or a composed text. */
  datatype Body = Fixed(notice: Constants.Notice) | Text(text: JsString)

  /** chat_id (a number from an update, or a telegram_id string from the users table), text, reply_to_message_id. */
  datatype Message = Message(chat: JsValue, body: Body, replyTo: Option<int>)

  datatype Delivery = Delivered | Rejected | Fails(message: JsString)

  /** The outbox after an attempt with the given delivery. */
  function Posted(outbox: seq<Message>, d: Delivery, m: Message): seq<Message> {
    if d == Delivered then outbox + [m] else outbox
  }

  /** The send throws exactly when the request fails, and only delivery adds the message. */
  function SendResult(d: Delivery): (r: Completion<()>)
    ensures r.Abrupt? <==> d.Fails?
  {
    if d.Fails? then Abrupt(d.message) else Normal(())
  }

  class TelegramBot {
    /** The messages the Bot API accepted, oldest first. */
    var outbox: seq<Message>
    /** Send requests made so far. */
    var attempts: nat
    const network: nat -> Delivery

    constructor(network: nat -> Delivery)
      ensures outbox == [] && attempts == 0 && this.network == network
    {
      outbox := [];
      attempts := 0;
      this.network := network;
    }

    method SendMessage(chat: JsValue, body: Body, replyTo: Option<int>) returns (r: Completion<()>)
      modifies this
      ensures attempts == old(attempts) + 1
      ensures outbox == Posted(old(outbox), network(old(attempts)), Message(chat, body, replyTo))
      ensures r == SendResult(network(old(attempts)))
    {
      var d := network(attempts);
      attempts := attempts + 1;
      outbox := Posted(outbox, d, Message(chat, body, replyTo));
      r := SendResult(d);
    }
  }
}
