# polybot message dispatch, modelled in Dafny

polybot is a Telegram bot front end with four variants in `polybot/bot.py`:
the base class `Bot` and its three subclasses.

- `Bot` echoes every text back with a fixed prefix.
- `QuoteBot` replies by quoting the message, unless its text is exactly "Please don't quote me".
- `ImageProcessingBot` handles three kinds of input:
  - It answers `/start`, `/help` and any other command.
  - It answers free text: swear words (from a word list fetched at start-up) get one of three answers in rotation, thanks get a fixed answer, and anything else gets a default reply.
  - It applies the rotate, blur and contour filters named in a photo's caption.
- `ObjectDetectionBot` downloads a photo and uploads it to S3. It then asks a YOLOv5 service about the photo and sends back a one-text summary of the detections.

This project models, for each variant, which replies and collaborator calls a
message produces, and in what order. Each call to Telegram, the image
library, S3 or the detection service is an `Action` value. The echo and quote
handlers, and the detection pipeline, return the list of actions they
perform. When the source lets an exception escape, they also return that
exception (`Outcome`).

`ImageProcessingBot` is a class that keeps three fields:
- `swearWordsCount`, updated in place;
- its word list;
- `sent`, the actions sent out so far.

Its methods append to `sent`. Each method is proved equal to a pure
specification function (`CommandReply`, `NonCommandTurn`, `TextStep`,
`PhotoActions`, `Dispatch`), and the lemmas state what those functions
promise. `NonCommandTurn` says which answer a free text gets (swear answer
number i, gratitude, or the default, a `Reply`); `ReplyText` gives its wording.

Python's string operations are written out in module `Text`: `lower`,
`startswith`, the `in` substring test, `split`, `strip`, `join`, and the
decimal rendering of an integer.

Files: `text.dfy` (`Text`), `telegram.dfy` (`Telegram`: messages, actions,
outcomes), `echo_bots.dfy` (`EchoBots`), `word_list.dfy` (`WordList`),
`image_processing_bot.dfy` (`ImageProcessing`), `object_detection_bot.dfy`
(`ObjectDetection`).

Behaviour of the code worth noting:
- A command is compared as the whole lower-cased text (`/start now` gets the default reply), not as its first token.
- The word list is not lower-cased, so a word list entry with an upper-case letter never matches.
- Free text is lower-cased but not trimmed.
- Only rotate, blur and contour are dispatched. There is no per-filter error handling.
- In the detection bot, download and upload failures are not caught.
- The echo and quote bots raise `KeyError('text')` on a message without text.

## Model

| member | source | states |
|---|---|---|
| Text.Lower | polybot/bot.py:109 | `lower()` keeps the length, turns each upper-case ASCII letter into its lower-case letter, changes no other character, and leaves no upper-case ASCII letter |
| Text.LowerIdempotent | polybot/bot.py:109 | lower-casing is idempotent and maps '/' to '/' and nothing else to '/' |
| Text.StartsWith | polybot/bot.py:111 | `startswith` holds exactly when the prefix is no longer than the text and agrees with it character by character |
| Text.Contains | polybot/bot.py:117 | the `in` substring test: it holds when the text starts with the pattern, and only when the pattern is no longer than the text |
| Text.ContainsIff | polybot/bot.py:117 | the `in` substring test holds exactly when the pattern occurs at some index of the text |
| Text.Split | polybot/bot.py:88 | `split('\n')` gives at least one piece, and exactly one when the string holds no separator |
| Text.JoinSplit | polybot/bot.py:88 | joining the pieces of `split('\n')` with '\n' rebuilds the string |
| Text.SplitJoin | polybot/bot.py:88 | splitting a join of separator-free pieces gives the pieces back |
| Text.SplitPiecesFree | polybot/bot.py:88 | no piece of a split contains the separator |
| Text.Strip | polybot/bot.py:88 | `strip()` never lengthens the string, and a non-empty result neither starts nor ends with white space |
| Text.StripSpec | polybot/bot.py:88 | `strip()` returns the slice left after removing only white space at both ends, and that slice has no white space at either end |
| Text.StripIdempotent | polybot/bot.py:88 | stripping twice is stripping once |
| Text.IntToDecimal | polybot/bot.py:181 | `f"{n}"` of an integer is non-empty, starts with '-' exactly for a negative integer, is otherwise decimal digits, and has no leading zero unless it is "0" |
| Text.IntToDecimalRoundTrip | polybot/bot.py:181 | the decimal rendering of any integer reads back as that integer |
| Text.IntToDecimalInjective | polybot/bot.py:181 | different status codes render differently |
| EchoBots.EchoHandle | polybot/bot.py:69-72 | a message with text gets exactly one text, to its chat, equal to "Your original message: " followed by the unchanged text; a message without text raises KeyError('text') and sends nothing |
| EchoBots.QuoteHandle | polybot/bot.py:76-80 | nothing is sent exactly when the text is "Please don't quote me"; otherwise one quoted reply to the chat, carrying the unchanged text and reply_to_message_id = message_id; a message with text raises nothing; no text raises KeyError('text') and sends nothing |
| EchoBots.QuoteIsCaseSensitive | polybot/bot.py:79 | the exempt phrase is compared exactly: its lower-case variant is still quoted |
| WordList.ParseWordList | polybot/bot.py:83-91 | status 200 gives one word per line of the body, each the stripped line, in order; any other status gives the empty list |
| WordList.WordsAreStripped | polybot/bot.py:88 | each word holds no line break and has no white space at either end |
| WordList.WordListRoundTrip | polybot/bot.py:87-89 | a body made of stripped lines joined by '\n' parses back to exactly those lines |
| WordList.TrailingNewlineGivesEmptyWord | polybot/bot.py:88 | a body ending in '\n' puts the empty string in the word list |
| ImageProcessing.CommandReply | polybot/bot.py:138-148 | the reply is the welcome text iff the command is "/start", the help text iff "/help", the default reply iff neither |
| ImageProcessing.ReplyText | polybot/bot.py:98-157 | swear answer i is worded as the i-th of the three swear texts, the gratitude answer as the gratitude text (lines 156-157) and the default answer as the default text (line 104); a text is one of the swear texts exactly when the answer is a swear answer |
| ImageProcessing.UnknownCommandIsDefault | polybot/bot.py:104-160 | a command other than "/start" and "/help" gets the same text as free text that matches nothing |
| ImageProcessing.ReplyTextInjective | polybot/bot.py:98-157 | the three swear answers, the gratitude answer and the default answer are five different texts, so which answer was sent can be read off the text |
| ImageProcessing.IsGratitude | polybot/bot.py:155 | `'thanks' in m or 'thank' in m` holds exactly when "thank" occurs in m |
| ImageProcessing.NonCommandTurn | polybot/bot.py:150-160 | a text in the word list gets swear answer number count % 3 and the counter becomes (count + 1) % 3; otherwise the counter is unchanged and the answer is gratitude when "thank" occurs, else the default |
| ImageProcessing.Converse | polybot/bot.py:150-160 | a run of free texts handled one after the other gets one answer per text |
| ImageProcessing.SwearCycle | polybot/bot.py:151-154 | a run of n swear words from counter c gets answers (c + k) % 3 in order and leaves the counter at (c + n) % 3; from the initial 0 the k-th gets answer (k - 1) % 3 |
| ImageProcessing.CounterBounds | polybot/bot.py:152-153 | the counter stays in [0, 3) and changes only on a swear word |
| ImageProcessing.SwearBeforeGratitude | polybot/bot.py:151-158 | a text in the word list that says "thanks" still gets a swear answer, whose text is one of the three swear texts and not the gratitude text |
| ImageProcessing.FailOpen | polybot/bot.py:86-91 | when the word-list fetch returns a status other than 200, no text ever gets a swear answer and the counter never moves |
| ImageProcessing.RequestedFilters | polybot/bot.py:116-131 | the rotate filter is requested iff "rotate" occurs in the caption, likewise blur and contour; at most three filters |
| ImageProcessing.RequestedFiltersSpec | polybot/bot.py:116-136 | a filter is requested iff its name occurs in the lower-cased caption; requested filters come in the order rotate, blur, contour, each at most once |
| ImageProcessing.FilterSteps | polybot/bot.py:118-122 | one filter's block is three actions: download the chat's photo, apply that filter, send the photo to the same chat; no text among them |
| ImageProcessing.FiltersSteps | polybot/bot.py:117-136 | the blocks of a list of filters are three actions per filter |
| ImageProcessing.PhotoActions | polybot/bot.py:114-136 | no photo gives no action; a photo gives exactly `FiltersSteps` of the filters requested by the lower-cased caption (download, apply, send for each, in the order rotate, blur, contour), a missing caption read as "" |
| ImageProcessing.FiltersStepsAt | polybot/bot.py:117-136 | the photo actions are one block per requested filter, in order: the k-th block is download, apply the k-th filter, send the photo |
| ImageProcessing.FiltersStepsSendNoText | polybot/bot.py:115-136 | the photo branch sends no text |
| ImageProcessing.RotateAndBlur | polybot/bot.py:116-130 | the caption "please rotate and blur this" requests exactly rotate then blur |
| ImageProcessing.BlurThenRotate | polybot/bot.py:116-130 | the caption "blur first, then rotate" also requests rotate then blur, whatever the order of the words |
| ImageProcessing.NoFilterNamed | polybot/bot.py:116-136 | the caption "do nothing special" requests no filter |
| ImageProcessing.TextStep | polybot/bot.py:107-113 | a text gets exactly one text reply, to its chat; a text starting with '/' gets `CommandReply` of the lower-cased text and leaves the counter; any other text gets the wording of `NonCommandTurn`'s answer for the lower-cased text, and the counter `NonCommandTurn` gives; the counter moves only for a lower-cased text in the word list that does not start with '/' |
| ImageProcessing.UpperCaseCommand | polybot/bot.py:109-111 | "/START" is lower-cased first and gets the welcome text |
| ImageProcessing.UpperCaseThanks | polybot/bot.py:109-114 | "THANKS a lot", when not in the word list, is lower-cased first and gets the gratitude text, counter unchanged |
| ImageProcessing.Dispatch | polybot/bot.py:106-136 | one message produces its text reply, when it has text, followed by exactly the photo actions; the text reply and the new counter are those `TextStep` gives for the text; without text the counter stays |
| ImageProcessing.CommandIffSlash | polybot/bot.py:109-111 | the lower-cased text starts with '/' iff the original text does |
| ImageProcessing.DispatchShape | polybot/bot.py:106-136 | a message with text produces exactly one text reply, first and to its chat, followed by the photo actions; one without text produces only the photo actions; one with neither produces nothing; the counter moves only for a non-command text in the word list |
| ImageProcessing.ImageProcessingBot.constructor | polybot/bot.py:95-104 | a new bot has counter 0, the word list parsed from the fetch, and has sent nothing |
| ImageProcessing.ImageProcessingBot.SendText | polybot/bot.py:31-32 | appends one text to the chat |
| ImageProcessing.ImageProcessingBot.ProcessPhoto | polybot/bot.py:118-122 | appends download, apply the filter, send the photo |
| ImageProcessing.ImageProcessingBot.HandleCommand | polybot/bot.py:138-148 | appends one text, `CommandReply` of the command; the counter is outside its frame and so never changes |
| ImageProcessing.ImageProcessingBot.HandleNonCommand | polybot/bot.py:150-160 | appends the text of the answer `NonCommandTurn` picks and sets the counter to its new value, keeping it in [0, 3) |
| ImageProcessing.ImageProcessingBot.HandlePhoto | polybot/bot.py:115-136 | appends the photo actions of the lower-cased caption, a missing caption read as "" |
| ImageProcessing.ImageProcessingBot.HandleText | polybot/bot.py:107-113 | appends the one reply `TextStep` gives for the lower-cased text, a command when it starts with '/', and sets the counter as `TextStep` does |
| ImageProcessing.ImageProcessingBot.HandleMessage | polybot/bot.py:106-136 | appends the text branch's reply and then the photo branch's actions, exactly as `Dispatch` describes, and updates the counter accordingly |
| ObjectDetection.RemoteKey | polybot/bot.py:189 | the key is "tg-photos/" followed by the local path, which removing the prefix gives back |
| ObjectDetection.Yolo5Decision | polybot/bot.py:169-181 | status 200 with a JSON body gives that body; status 200 with a non-JSON body gives the error entry "Invalid JSON response from YOLOv5 API"; any other status gives an error entry without labels that is exactly "Error response from YOLOv5 API: " followed by the decimal status code, which reads back as the status |
| ObjectDetection.LineTextFields | polybot/bot.py:199 | a label's line starts with "Class: " followed by the class text, and holds no line break when neither the class nor the confidence text does |
| ObjectDetection.LabelLine | polybot/bot.py:199 | a label's line ends with a line break |
| ObjectDetection.Lines | polybot/bot.py:197-199 | the label lines are empty exactly when there is no label, and otherwise end with a line break |
| ObjectDetection.SummaryReply | polybot/bot.py:194-202 | without a `"labels"` entry the text is "No objects detected in the image."; with one, there is no text exactly when a label lacks a class, and otherwise the text is the header followed by the label lines |
| ObjectDetection.SummaryOutcome | polybot/bot.py:194-202 | nothing is raised exactly when there is a summary text, which is then sent as one text to the chat; otherwise nothing is sent and KeyError('class') is raised |
| ObjectDetection.SendSummaryToUser | polybot/bot.py:194-202 | sends the header and one line per label when labels are present, "No objects detected in the image." when not, and raises KeyError('class') without sending when a label lacks a class |
| ObjectDetection.LinesAt | polybot/bot.py:198-199 | label k's line stands between the lines of the labels before it and after it |
| ObjectDetection.SummaryLines | polybot/bot.py:195-200 | splitting the summary at line breaks gives the header, one `Class: c, Confidence: x` line per label in order, and a final empty piece |
| ObjectDetection.InferenceFailureDegrades | polybot/bot.py:173-181 | a non-200 status or a non-JSON body never raises: the user gets exactly "No objects detected in the image." |
| ObjectDetection.OneCat | polybot/bot.py:197-199 | one label cat with confidence 0.9 gives the header and the line "Class: cat, Confidence: 0.9" |
| ObjectDetection.OneCatWithoutConfidence | polybot/bot.py:199 | a label without confidence is written with "N/A" |
| ObjectDetection.HandleMessage | polybot/bot.py:183-192 | without a photo nothing happens; with one: download, upload to "moshikosbucket" under "tg-photos/" + path, detect on that same key, then the summary; when nothing is raised exactly four actions and one text, the last |

## Left out

- Telegram client set-up, webhook registration and the half-second sleep (polybot/bot.py:17-29): network I/O at construction. The constructor takes only the word-list fetch's result.
- `download_user_photo` and `send_photo` (polybot/bot.py:40-67) are the actions `DownloadPhoto` and `SendPhoto`. The file system, the Telegram file API and `send_photo`'s path-existence check are not modelled. The downloaded path is a parameter of the detection handler.
- The `Img` filters and `save_img` (polybot.img_proc is not part of this model): a filter is the opaque action `ApplyFilter(filter)`, and the path of the saved image is not carried by `SendPhoto`.
- `requests.get`, `requests.post`, `boto3` and JSON decoding are foreign calls. The model takes their results as parameters: the status and body of the word-list fetch, and the status and parse result of the detection call. Exceptions these calls raise (network errors, S3 errors) are not modelled. The source does not catch them.
- A decoded detection body is modelled as its `"labels"` and `"error"` entries. A JSON body that is not an object is not modelled.
- Each label's class and confidence are taken as already-rendered text. Python's `str` of a float or of another JSON value is not modelled.
- Text.Lower: lower-cases ASCII letters only; Python's `str.lower` also maps non-ASCII upper-case letters.
- Logging through loguru, and the unused `ObjectDetectionBot.default_response`.
- Concurrent calls to one `ImageProcessingBot`: the counter is modelled as updated by one call at a time.
- `msg['chat']['id']` and `msg['message_id']` are assumed present, as Telegram always sets them. A missing `'text'` is modelled.
