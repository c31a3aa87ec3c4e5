/**
 What a bot sees and what it does. An incoming Telegram message is a value;
 everything a bot does to the outside world (send a text, download a photo,
 run an image filter, upload to object storage, ask the detection service) is
 recorded as an `Action`, so a handler is described by the list of actions it
 performs, in order, and by the exception it lets escape, if any.
 */
module Telegram {

  datatype Option<T> = None | Some(value: T) {
    function GetOr(default: T): T {
      match this
      case Some(v) => v
      case None => default
    }
  }

  /**
   The fields of a Telegram message the bots read: `msg['chat']['id']`,
   `msg['message_id']`, the optional `'text'` and `'caption'` keys, and whether
   a `'photo'` key is present.
   */
  datatype Message = Message(
    chatId: int,
    messageId: int,
    text: Option<string>,
    caption: Option<string>,
    hasPhoto: bool)

  /** The image filters the image-processing bot dispatches, in dispatch order. */
  datatype Filter = Rotate | Blur | Contour

  /** A call into a collaborator: the Telegram client, the image library, S3, the detector. */
  datatype Action =
    | SendText(chat: int, text: string)
    | SendQuoted(chat: int, text: string, replyTo: int)
    | DownloadPhoto(chat: int)
    | ApplyFilter(filter: Filter)
    | SendPhoto(chat: int)
    | Upload(localPath: string, bucket: string, key: string)
    | Detect(key: string)

  /** A Python exception that escapes a handler. */
  datatype Error = KeyError(key: string)

  /** The actions a handler performed, and the exception it ended with, if any. */
  datatype Outcome = Outcome(actions: seq<Action>, raised: Option<Error>)

  /** The number of `SendText` actions in `actions`. */
  function TextCount(actions: seq<Action>): nat {
    if actions == [] then 0
    else (if actions[0].SendText? then 1 else 0) + TextCount(actions[1..])
  }

  /** Appending to a run of actions in two steps appends their concatenation. */
  lemma AppendAssoc<T>(a: seq<T>, b: seq<T>, c: seq<T>)
    ensures a + b + c == a + (b + c)
  {
  }

  /** Text replies of two runs of actions add up. */
  lemma {:induction false} TextCountAppend(a: seq<Action>, b: seq<Action>)
    ensures TextCount(a + b) == TextCount(a) + TextCount(b)
    decreases |a|
  {
    if a == [] {
      assert a + b == b;
    } else {
      assert (a + b)[0] == a[0];
      assert (a + b)[1..] == a[1..] + b;
      TextCountAppend(a[1..], b);
    }
  }
}
