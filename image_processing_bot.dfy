/**
 `ImageProcessingBot`: answers commands and free text (with a rotating set of
 answers to swear words), and applies the image filters named in a photo's
 caption. The bot object keeps the swear-word counter and the word list; the
 replies it sends are kept in `sent`, the record of what went out through the
 Telegram client.
 */
module ImageProcessing {
  import opened Telegram
  import opened Text
  import opened WordList

  const START_RESPONSE := "Hey there! Welcome to Image Processing Bot! For available commands type \"/help\""
  const HELP_RESPONSE := "How to use Image Processing Bot: \nSimply upload a photo to me, and add your desired "
    + "filter in the caption.\nSupported filters: Rotate, Blur, Contour, Salt n pepper, "
    + "concat and segment."
  const DEFAULT_RESPONSE := "Sorry, I didn't understand that. Type /help for available commands."
  const GRATITUDE_RESPONSE := "You're welcome! If you need any further assistance, try using the available "
    + "commands :)"
  const SWEAR_RESPONSES: seq<string> := [
    "Excuse me... who do you think I am that you're being filthy here? Stop it.",
    "Seriously? You're just going to continue to swear? I'm an image processing bot not a prostitute!",
    "(\U{256F}\U{B0}\U{25A1}\U{B0})\U{256F}\U{FE35} \U{253B}\U{2501}\U{253B} WHAT'S WRONG WITH YOU!"
  ]

  // ---------------------------------------------------------------------------
  // Commands

  /**
   The reply to a command (the whole lower-cased text): the welcome text for
   exactly "/start", the help text for exactly "/help", the default reply for
   anything else.
   */
  function CommandReply(command: string): (reply: string)
    ensures reply == START_RESPONSE <==> command == "/start"
    ensures reply == HELP_RESPONSE <==> command == "/help"
    ensures reply == DEFAULT_RESPONSE <==> command != "/start" && command != "/help"
  {
    if command == "/start" then START_RESPONSE
    else if command == "/help" then HELP_RESPONSE
    else DEFAULT_RESPONSE
  }

  // ---------------------------------------------------------------------------
  // Free text and the swear-word counter

  /** Which of the three swear answers. */
  type SwearIndex = i: int | 0 <= i < 3

  /** Which answer a non-command text gets; its wording is `ReplyText`. */
  datatype Reply = Swear(index: SwearIndex) | Gratitude | Default

  function ReplyText(r: Reply): (text: string)
    ensures r.Swear? ==> text == SWEAR_RESPONSES[r.index]
    ensures text in SWEAR_RESPONSES <==> r.Swear?
    ensures r == Gratitude ==> text == GRATITUDE_RESPONSE
    ensures r == Default ==> text == DEFAULT_RESPONSE
  {
    match r
    case Swear(i) => SWEAR_RESPONSES[i]
    case Gratitude => GRATITUDE_RESPONSE
    case Default => DEFAULT_RESPONSE
  }

  /** An unknown command gets the same wording as free text that matches nothing. */
  lemma UnknownCommandIsDefault(command: string)
    requires command != "/start" && command != "/help"
    ensures CommandReply(command) == ReplyText(Default)
  {
  }

  /** Different answers are worded differently, so the user can tell them apart. */
  lemma ReplyTextInjective(r: Reply, q: Reply)
    ensures ReplyText(r) == ReplyText(q) <==> r == q
  {
    if r != q {
      var a, b := ReplyText(r), ReplyText(q);
      assert a[0] != b[0] || |a| != |b|;
    }
  }

  /** The reply to one non-command text and the counter after it. */
  datatype Turn = Turn(reply: Reply, count: int)

  /** The gratitude test as written: `'thanks' in message or 'thank' in message`. */
  predicate IsGratitude(message: string)
    ensures IsGratitude(message) <==> Contains(message, "thank")
  {
    ContainsLonger(message, "thank", "s");
    assert "thank" + "s" == "thanks";
    Contains(message, "thanks") || Contains(message, "thank")
  }

  /**
   `handle_non_command`: a text that is exactly one of the words gets the swear
   answer the counter selects and moves the counter on by one, modulo 3;
   otherwise the counter stays, and the text gets the gratitude answer when
   "thank" occurs in it and the default answer when not.
   */
  function NonCommandTurn(words: seq<string>, count: int, message: string): (t: Turn)
    ensures message in words ==>
      t.reply == Swear(count % 3) && t.count == (count + 1) % 3
    ensures message !in words ==> t.count == count
    ensures message !in words ==>
      t.reply == (if Contains(message, "thank") then Gratitude else Default)
  {
    if message in words then
      Turn(Swear(count % 3), (count + 1) % 3)
    else if IsGratitude(message) then
      Turn(Gratitude, count)
    else
      Turn(Default, count)
  }

  /** The replies to a run of non-command texts, and the counter after the last. */
  datatype Conversation = Conversation(replies: seq<Reply>, count: int)

  function Converse(words: seq<string>, count: int, messages: seq<string>): (c: Conversation)
    ensures |c.replies| == |messages|
    decreases |messages|
  {
    if messages == [] then Conversation([], count)
    else
      var t := NonCommandTurn(words, count, messages[0]);
      var rest := Converse(words, t.count, messages[1..]);
      Conversation([t.reply] + rest.replies, rest.count)
  }

  /**
   The swear answers cycle: starting from counter `count`, the (k+1)-th of a
   run of swear words gets answer `(count + k) % 3`, and the counter ends at
   `(count + n) % 3` after n of them. A fresh bot starts at 0, so its k-th swear
   word gets answer `(k - 1) % 3`.
   */
  lemma SwearCycle(words: seq<string>, count: int, messages: seq<string>)
    requires 0 <= count < 3
    requires forall k :: 0 <= k < |messages| ==> messages[k] in words
    ensures |Converse(words, count, messages).replies| == |messages|
    ensures forall k :: 0 <= k < |messages| ==>
      Converse(words, count, messages).replies[k] == Swear((count + k) % 3)
    ensures Converse(words, count, messages).count == (count + |messages|) % 3
  {
    SwearRunCount(words, count, messages);
    forall k | 0 <= k < |messages|
      ensures Converse(words, count, messages).replies[k] == Swear((count + k) % 3)
    {
      SwearAnswerAt(words, count, messages, k);
    }
  }

  /** A run of n swear words gets n answers and moves the counter n steps. */
  lemma {:induction false} SwearRunCount(words: seq<string>, count: int, messages: seq<string>)
    requires 0 <= count < 3
    requires forall k :: 0 <= k < |messages| ==> messages[k] in words
    ensures |Converse(words, count, messages).replies| == |messages|
    ensures Converse(words, count, messages).count == (count + |messages|) % 3
    decreases |messages|
  {
    if messages != [] {
      SwearStep(words, count, messages);
      SwearRunCount(words, NextCount(count), messages[1..]);
      ModThreeShift(count, |messages| - 1);
    }
  }

  /** The answer to the (k+1)-th swear word of a run. */
  lemma {:induction false} SwearAnswerAt(words: seq<string>, count: int, messages: seq<string>, k: int)
    requires 0 <= count < 3
    requires forall j :: 0 <= j < |messages| ==> messages[j] in words
    requires 0 <= k < |messages|
    ensures k < |Converse(words, count, messages).replies|
    ensures Converse(words, count, messages).replies[k] == Swear((count + k) % 3)
    decreases k
  {
    var c := Converse(words, count, messages);
    var rest := Converse(words, NextCount(count), messages[1..]);
    SwearStep(words, count, messages);
    assert c.replies == [Swear(count)] + rest.replies;
    if k == 0 {
      assert (count + k) % 3 == count;
    } else {
      SwearAnswerAt(words, NextCount(count), messages[1..], k - 1);
      ModThreeShift(count, k - 1);
      assert c.replies[k] == rest.replies[k - 1];
    }
  }

  /** The counter after one swear word, for a counter in [0, 3). */
  function NextCount(count: int): int {
    if count == 2 then 0 else count + 1
  }

  /** A run that opens with a swear word: its first answer, then the rest of the run from the next counter. */
  lemma SwearStep(words: seq<string>, count: int, messages: seq<string>)
    requires 0 <= count < 3
    requires |messages| > 0 && messages[0] in words
    ensures var rest := Converse(words, NextCount(count), messages[1..]);
      Converse(words, count, messages) == Conversation([Swear(count)] + rest.replies, rest.count)
  {
    var t := NonCommandTurn(words, count, messages[0]);
    assert t.reply == Swear(count) && t.count == NextCount(count);
  }

  /** One step on the counter, then k more, is k + 1 steps. */
  lemma ModThreeShift(count: int, k: nat)
    requires 0 <= count < 3
    ensures (NextCount(count) + k) % 3 == (count + k + 1) % 3
  {
    if count == 2 {
      assert count + k + 1 == k + 3;
    }
  }

  /** Only a swear word moves the counter, and it always stays in [0, 3). */
  lemma CounterBounds(words: seq<string>, count: int, message: string)
    requires 0 <= count < 3
    ensures 0 <= NonCommandTurn(words, count, message).count < 3
    ensures NonCommandTurn(words, count, message).count != count ==> message in words
  {
  }

  /**
   A swear word wins over gratitude: a text in the word list gets a swear
   answer even when it says "thanks".
   */
  lemma SwearBeforeGratitude(words: seq<string>, count: int, message: string)
    requires message in words && Contains(message, "thanks")
    ensures NonCommandTurn(words, count, message).reply.Swear?
    ensures ReplyText(NonCommandTurn(words, count, message).reply) in SWEAR_RESPONSES
    ensures ReplyText(NonCommandTurn(words, count, message).reply) != GRATITUDE_RESPONSE
  {
    ReplyTextInjective(NonCommandTurn(words, count, message).reply, Gratitude);
  }

  /**
   When the word list could not be fetched, no text is ever a swear word: the
   counter never moves and the answer is gratitude or the default.
   */
  lemma FailOpen(status: int, body: string, count: int, message: string)
    requires status != 200
    ensures var t := NonCommandTurn(ParseWordList(status, body), count, message);
      t.count == count && (t.reply == Gratitude || t.reply == Default)
  {
  }

  // ---------------------------------------------------------------------------
  // Filters named in a caption

  function FilterName(f: Filter): string {
    match f
    case Rotate => "rotate"
    case Blur => "blur"
    case Contour => "contour"
  }

  /** Position of a filter in the fixed dispatch order. */
  function Rank(f: Filter): nat {
    match f
    case Rotate => 0
    case Blur => 1
    case Contour => 2
  }

  /** The filters whose names occur in the (lower-cased) caption, in dispatch order. */
  function RequestedFilters(caption: string): (fs: seq<Filter>)
    ensures |fs| <= 3
    ensures Rotate in fs <==> Contains(caption, "rotate")
    ensures Blur in fs <==> Contains(caption, "blur")
    ensures Contour in fs <==> Contains(caption, "contour")
  {
    (if Contains(caption, "rotate") then [Rotate] else [])
    + (if Contains(caption, "blur") then [Blur] else [])
    + (if Contains(caption, "contour") then [Contour] else [])
  }

  /**
   A filter is requested exactly when its name occurs in the caption, each at
   most once, and always in the order rotate, blur, contour, whatever the
   order of the words in the caption.
   */
  lemma RequestedFiltersSpec(caption: string)
    ensures forall f :: f in RequestedFilters(caption) <==> Contains(caption, FilterName(f))
    ensures forall i, j :: 0 <= i < j < |RequestedFilters(caption)| ==>
      Rank(RequestedFilters(caption)[i]) < Rank(RequestedFilters(caption)[j])
  {
    var fs := RequestedFilters(caption);
    forall f ensures f in fs <==> Contains(caption, FilterName(f)) {
      match f {
        case Rotate =>
        case Blur =>
        case Contour =>
      }
    }
    var r := if Contains(caption, "rotate") then [Rotate] else [];
    var b := if Contains(caption, "blur") then [Blur] else [];
    var c := if Contains(caption, "contour") then [Contour] else [];
    assert fs == r + b + c;
    forall i, j | 0 <= i < j < |fs| ensures Rank(fs[i]) < Rank(fs[j]) {
      // Each block holds at most one filter, so i and j lie in different blocks.
      assert Rank(fs[i]) == (if i < |r| then 0 else if i < |r| + |b| then 1 else 2);
      assert Rank(fs[j]) == (if j < |r| then 0 else if j < |r| + |b| then 1 else 2);
    }
  }

  /** One filter's steps: download the photo, apply the filter, send the result. */
  function FilterSteps(chat: int, f: Filter): (steps: seq<Action>)
    ensures |steps| == 3 && steps[1] == ApplyFilter(f)
    ensures steps[0].DownloadPhoto? && steps[2].SendPhoto? && steps[0].chat == steps[2].chat == chat
    ensures TextCount(steps) == 0
  {
    var steps := [DownloadPhoto(chat), ApplyFilter(f), SendPhoto(chat)];
    assert TextCount(steps[2..]) == 0 by {
      assert steps[2..][1..] == [];
    }
    assert TextCount(steps[1..]) == 0 by {
      assert steps[1..][1..] == steps[2..];
    }
    steps
  }

  function FiltersSteps(chat: int, fs: seq<Filter>): (steps: seq<Action>)
    ensures |steps| == 3 * |fs|
    decreases |fs|
  {
    if fs == [] then [] else FilterSteps(chat, fs[0]) + FiltersSteps(chat, fs[1..])
  }

  /**
   The photo part of `handle_message`: nothing without a photo; otherwise the
   steps of every filter requested by the lower-cased caption, a missing
   caption read as "".
   */
  function PhotoActions(msg: Message): (acts: seq<Action>)
    ensures !msg.hasPhoto ==> acts == []
    ensures msg.hasPhoto ==> |acts| == 3 * |RequestedFilters(Lower(msg.caption.GetOr("")))|
    ensures msg.hasPhoto ==> acts == FiltersSteps(msg.chatId, RequestedFilters(Lower(msg.caption.GetOr(""))))
  {
    if msg.hasPhoto then FiltersSteps(msg.chatId, RequestedFilters(Lower(msg.caption.GetOr(""))))
    else []
  }

  /**
   The steps for a list of filters are one block of three per filter, in the
   list's order: the k-th block downloads, applies the k-th filter and sends.
   */
  lemma {:induction false} FiltersStepsAt(chat: int, fs: seq<Filter>, k: int)
    requires 0 <= k < |fs|
    ensures |FiltersSteps(chat, fs)| == 3 * |fs|
    ensures FiltersSteps(chat, fs)[3 * k..3 * k + 3] == FilterSteps(chat, fs[k])
    decreases |fs|
  {
    if k == 0 {
      if |fs| > 1 {
        FiltersStepsAt(chat, fs[1..], 0);
      }
    } else {
      FiltersStepsAt(chat, fs[1..], k - 1);
      var rest := FiltersSteps(chat, fs[1..]);
      assert FiltersSteps(chat, fs)[3 * k..3 * k + 3] == rest[3 * (k - 1)..3 * (k - 1) + 3];
    }
  }

  /** No filter step is a text reply. */
  lemma {:induction false} FiltersStepsSendNoText(chat: int, fs: seq<Filter>)
    ensures TextCount(FiltersSteps(chat, fs)) == 0
    decreases |fs|
  {
    if fs != [] {
      FiltersStepsSendNoText(chat, fs[1..]);
      var block := FilterSteps(chat, fs[0]);
      assert TextCount(block[2..]) == 0 by {
        assert block[2..][1..] == [];
      }
      assert TextCount(block[1..]) == 0 by {
        assert block[1..][1..] == block[2..];
      }
      TextCountAppend(block, FiltersSteps(chat, fs[1..]));
    }
  }

  /** Characters of a contained string occur in the containing one. */
  lemma CharsOfContained(s: string, t: string, j: int)
    requires 0 <= j < |t|
    ensures Contains(s, t) ==> t[j] in s
  {
    ContainsIff(s, t);
    if Contains(s, t) {
      var i :| OccursAt(s, t, i);
      assert s[i + j] == t[j];
    }
  }

  /** Filter dispatch on a caption naming two filters. */
  lemma RotateAndBlur(caption: string)
    requires caption == "please rotate and blur this"
    ensures RequestedFilters(caption) == [Rotate, Blur]
  {
    assert caption[7..13] == "rotate";
    ContainsAt(caption, "rotate", 7);
    assert caption[18..22] == "blur";
    ContainsAt(caption, "blur", 18);
    forall i | 0 <= i < |caption| ensures caption[i] != 'c' {
    }
    CharsOfContained(caption, "contour", 0);
  }

  /** The order of the words in the caption does not matter. */
  lemma BlurThenRotate(caption: string)
    requires caption == "blur first, then rotate"
    ensures RequestedFilters(caption) == [Rotate, Blur]
  {
    assert caption[17..23] == "rotate";
    ContainsAt(caption, "rotate", 17);
    assert caption[0..4] == "blur";
    ContainsAt(caption, "blur", 0);
    forall i | 0 <= i < |caption| ensures caption[i] != 'c' {
    }
    CharsOfContained(caption, "contour", 0);
  }

  /** A caption naming no filter requests none. */
  lemma NoFilterNamed(caption: string)
    requires caption == "do nothing special"
    ensures RequestedFilters(caption) == []
  {
    forall i | 0 <= i < |caption| ensures caption[i] !in "rbu" {
    }
    CharsOfContained(caption, "rotate", 0);
    CharsOfContained(caption, "blur", 0);
    CharsOfContained(caption, "contour", 5);
  }

  // ---------------------------------------------------------------------------
  // The whole handler

  /** The actions one message produces and the counter after it. */
  datatype Step = Step(actions: seq<Action>, count: int)

  /**
   The text part of `handle_message`: the text is lower-cased; when it starts
   with '/' it is a command, otherwise free text.
   */
  function TextStep(words: seq<string>, count: int, chat: int, text: string): (s: Step)
    ensures |s.actions| == 1 && s.actions[0].SendText? && s.actions[0].chat == chat
    ensures StartsWith(text, "/") ==> s.actions[0].text == CommandReply(Lower(text)) && s.count == count
    ensures !StartsWith(text, "/") ==>
      var t := NonCommandTurn(words, count, Lower(text));
      s == Step([SendText(chat, ReplyText(t.reply))], t.count)
    ensures s.count != count ==> !StartsWith(text, "/") && Lower(text) in words
  {
    CommandIffSlash(text);
    var message := Lower(text);
    if StartsWith(message, "/") then Step([SendText(chat, CommandReply(message))], count)
    else
      var t := NonCommandTurn(words, count, message);
      Step([SendText(chat, ReplyText(t.reply))], t.count)
  }

  /** `handle_message`: the text branch, then the photo branch, independently. */
  function Dispatch(words: seq<string>, count: int, msg: Message): (d: Step)
    ensures |d.actions| == (if msg.text.Some? then 1 else 0) + |PhotoActions(msg)|
    ensures d.actions[|d.actions| - |PhotoActions(msg)|..] == PhotoActions(msg)
    ensures msg.text.None? ==> d.count == count
    ensures msg.text.Some? ==>
      var t := TextStep(words, count, msg.chatId, msg.text.value);
      d.actions[..1] == t.actions && d.count == t.count
  {
    var t := if msg.text.Some? then TextStep(words, count, msg.chatId, msg.text.value)
             else Step([], count);
    Step(t.actions + PhotoActions(msg), t.count)
  }

  /** Commands are matched after lower-casing: "/START" gets the welcome text. */
  lemma UpperCaseCommand(words: seq<string>, count: int, chat: int, text: string)
    requires text == "/START"
    ensures TextStep(words, count, chat, text) == Step([SendText(chat, START_RESPONSE)], count)
  {
    assert Lower(text) == "/start";
  }

  /** Free text is lower-cased too: "THANKS a lot", when not a swear word, gets the gratitude answer. */
  lemma UpperCaseThanks(words: seq<string>, count: int, chat: int, text: string)
    requires text == "THANKS a lot" && Lower(text) !in words
    ensures TextStep(words, count, chat, text) == Step([SendText(chat, GRATITUDE_RESPONSE)], count)
  {
    var message := Lower(text);
    assert message[0..5] == "thank";
    ContainsAt(message, "thank", 0);
    assert text[0] != "/"[0];
  }

  /** Lower-casing keeps the leading '/', so the command test sees the raw text's first character. */
  lemma CommandIffSlash(text: string)
    ensures StartsWith(Lower(text), "/") <==> StartsWith(text, "/")
  {
    LowerIdempotent(text);
  }

  /**
   What one message produces: exactly one text reply when it has text, and
   that reply comes first, addressed to its chat; then the photo actions;
   nothing at all for a message with neither text nor photo. The counter moves
   only for a free text that is in the word list.
   */
  lemma {:induction false} DispatchShape(words: seq<string>, count: int, msg: Message)
    ensures var d := Dispatch(words, count, msg);
      TextCount(d.actions) == (if msg.text.Some? then 1 else 0)
      && (msg.text.Some? ==>
            |d.actions| >= 1 && d.actions[0].SendText? && d.actions[0].chat == msg.chatId
            && d.actions[1..] == PhotoActions(msg))
      && (msg.text.None? ==> d == Step(PhotoActions(msg), count))
      && (msg.text.None? && !msg.hasPhoto ==> d.actions == [])
      && (d.count != count ==>
            msg.text.Some? && !StartsWith(msg.text.value, "/") && Lower(msg.text.value) in words)
  {
    var d := Dispatch(words, count, msg);
    var photo := PhotoActions(msg);
    if msg.hasPhoto {
      FiltersStepsSendNoText(msg.chatId, RequestedFilters(Lower(msg.caption.GetOr(""))));
    }
    assert TextCount(photo) == 0;
    if msg.text.Some? {
      CommandIffSlash(msg.text.value);
      assert d.actions[1..] == photo;
      var first := d.actions[..1];
      assert first[0].SendText? && first[1..] == [];
      assert TextCount(first) == 1;
      TextCountAppend(first, photo);
      assert d.actions[..1] + photo == d.actions;
    } else {
      assert d.actions == photo;
    }
  }

  // ---------------------------------------------------------------------------
  // The bot object

  class ImageProcessingBot {
    /** The word list fetched at start-up. */
    const swearWords: seq<string>
    /** Selects the next swear answer; always the index of one of the three. */
    var swearWordsCount: int
    /** Everything sent through the Telegram client and the image library so far. */
    var sent: seq<Action>

    ghost predicate Valid()
      reads this
    {
      0 <= swearWordsCount < 3
    }

    /** Start-up: the counter at 0 and the word list parsed from the fetch's status and body. */
    constructor (wordListStatus: int, wordListBody: string)
      ensures Valid()
      ensures swearWords == ParseWordList(wordListStatus, wordListBody)
      ensures swearWordsCount == 0 && sent == []
    {
      swearWords := ParseWordList(wordListStatus, wordListBody);
      swearWordsCount := 0;
      sent := [];
    }

    method SendText(chat: int, text: string)
      modifies this`sent
      ensures sent == old(sent) + [Action.SendText(chat, text)]
    {
      sent := sent + [Action.SendText(chat, text)];
    }

    /** Downloads the message's photo, applies one filter and sends the result back. */
    method ProcessPhoto(chat: int, f: Filter)
      modifies this`sent
      ensures sent == old(sent) + FilterSteps(chat, f)
    {
      sent := sent + [DownloadPhoto(chat)];
      sent := sent + [ApplyFilter(f)];
      sent := sent + [SendPhoto(chat)];
    }

    /** `handle_command`: one reply; the counter is not touched. */
    method HandleCommand(chat: int, command: string)
      modifies this`sent
      ensures sent == old(sent) + [Action.SendText(chat, CommandReply(command))]
    {
      if command == "/start" {
        SendText(chat, START_RESPONSE);
      } else if command == "/help" {
        SendText(chat, HELP_RESPONSE);
      } else {
        SendText(chat, DEFAULT_RESPONSE);
      }
    }

    /** `handle_non_command`: one reply; the counter moves only on a swear word. */
    method HandleNonCommand(chat: int, message: string)
      requires Valid()
      modifies this`sent, this`swearWordsCount
      ensures Valid()
      ensures var t := NonCommandTurn(swearWords, old(swearWordsCount), message);
        sent == old(sent) + [Action.SendText(chat, ReplyText(t.reply))] && swearWordsCount == t.count
    {
      if message in swearWords {
        var botResponse := SWEAR_RESPONSES[swearWordsCount % |SWEAR_RESPONSES|];
        swearWordsCount := (swearWordsCount + 1) % |SWEAR_RESPONSES|;
        SendText(chat, botResponse);
      } else if Contains(message, "thanks") || Contains(message, "thank") {
        SendText(chat, GRATITUDE_RESPONSE);
      } else {
        SendText(chat, DEFAULT_RESPONSE);
      }
    }

    /** The photo branch of `handle_message`: one download, filter and send per requested filter. */
    method HandlePhoto(msg: Message)
      requires msg.hasPhoto
      modifies this`sent
      ensures sent == old(sent) + PhotoActions(msg)
    {
      var caption := Lower(msg.caption.GetOr(""));
      ghost var photoStart := sent;
      ghost var r := if Contains(caption, "rotate") then FilterSteps(msg.chatId, Rotate) else [];
      ghost var b := if Contains(caption, "blur") then FilterSteps(msg.chatId, Blur) else [];
      ghost var c := if Contains(caption, "contour") then FilterSteps(msg.chatId, Contour) else [];
      if Contains(caption, "rotate") {
        ProcessPhoto(msg.chatId, Rotate);
      }
      assert sent == photoStart + r;
      if Contains(caption, "blur") {
        ProcessPhoto(msg.chatId, Blur);
      }
      AppendAssoc(photoStart, r, b);
      assert sent == photoStart + (r + b);
      if Contains(caption, "contour") {
        ProcessPhoto(msg.chatId, Contour);
      }
      AppendAssoc(photoStart, r + b, c);
      assert sent == photoStart + (r + b + c);
      FiltersStepsAppend(msg.chatId, caption);
      assert r + b + c == PhotoActions(msg);
    }

    /** The text branch of `handle_message`: a command or a free text, after lower-casing. */
    method HandleText(chat: int, text: string)
      requires Valid()
      modifies this`sent, this`swearWordsCount
      ensures Valid()
      ensures var t := TextStep(swearWords, old(swearWordsCount), chat, text);
        sent == old(sent) + t.actions && swearWordsCount == t.count
    {
      var message := Lower(text);
      if StartsWith(message, "/") {
        HandleCommand(chat, message);
      } else {
        HandleNonCommand(chat, message);
      }
    }

    /** `handle_message`: appends exactly the actions `Dispatch` describes. */
    method HandleMessage(msg: Message)
      requires Valid()
      modifies this`sent, this`swearWordsCount
      ensures Valid()
      ensures var d := Dispatch(swearWords, old(swearWordsCount), msg);
        sent == old(sent) + d.actions && swearWordsCount == d.count
    {
      ghost var text := if msg.text.Some? then TextStep(swearWords, swearWordsCount, msg.chatId, msg.text.value)
                        else Step([], swearWordsCount);
      if msg.text.Some? {
        HandleText(msg.chatId, msg.text.value);
      }
      ghost var afterText := sent;
      assert afterText == old(sent) + text.actions;
      if msg.hasPhoto {
        HandlePhoto(msg);
      }
      assert sent == afterText + PhotoActions(msg);
      AppendAssoc(old(sent), text.actions, PhotoActions(msg));
    }
  }

  /** The steps for the requested filters, block by block. */
  lemma FiltersStepsAppend(chat: int, caption: string)
    ensures FiltersSteps(chat, RequestedFilters(caption))
      == (if Contains(caption, "rotate") then FilterSteps(chat, Rotate) else [])
      + (if Contains(caption, "blur") then FilterSteps(chat, Blur) else [])
      + (if Contains(caption, "contour") then FilterSteps(chat, Contour) else [])
  {
    var r := if Contains(caption, "rotate") then [Rotate] else [];
    var b := if Contains(caption, "blur") then [Blur] else [];
    var c := if Contains(caption, "contour") then [Contour] else [];
    assert FiltersSteps(chat, r + b + c) == FiltersSteps(chat, r) + FiltersSteps(chat, b) + FiltersSteps(chat, c) by {
      FiltersStepsConcat(chat, r, b + c);
      FiltersStepsConcat(chat, b, c);
      assert r + b + c == r + (b + c);
    }
    FiltersStepsOne(chat, Rotate);
    FiltersStepsOne(chat, Blur);
    FiltersStepsOne(chat, Contour);
  }

  lemma FiltersStepsOne(chat: int, f: Filter)
    ensures FiltersSteps(chat, [f]) == FilterSteps(chat, f)
  {
    assert [f][1..] == [];
  }

  lemma {:induction false} FiltersStepsConcat(chat: int, fs: seq<Filter>, gs: seq<Filter>)
    ensures FiltersSteps(chat, fs + gs) == FiltersSteps(chat, fs) + FiltersSteps(chat, gs)
    decreases |fs|
  {
    if fs == [] {
      assert fs + gs == gs;
    } else {
      assert (fs + gs)[0] == fs[0];
      assert (fs + gs)[1..] == fs[1..] + gs;
      FiltersStepsConcat(chat, fs[1..], gs);
    }
  }
}
