/**
 `ObjectDetectionBot`: a photo is downloaded, uploaded to S3 under a key
 derived from its local path, sent to the YOLOv5 service by that key, and the
 detections are summarised back to the user in one text. The downloaded path
 and the service's answer (status code and whether its body parsed as JSON)
 are parameters; the transfers themselves are recorded as actions.
 */
module ObjectDetection {
  import opened Telegram
  import opened Text

  const BUCKET := "moshikosbucket"
  const KEY_PREFIX := "tg-photos/"
  const HEADER := "YOLOv5 Object Detection Results:\n"
  const NO_OBJECTS := "No objects detected in the image."
  const INVALID_JSON := "Invalid JSON response from YOLOv5 API"
  const STATUS_ERROR_PREFIX := "Error response from YOLOv5 API: "

  /** One detection: its `'class'` and `'confidence'` keys, each rendered as text, either possibly absent. */
  datatype Label = Label(cls: Option<string>, confidence: Option<string>)

  /** The dictionary `yolo5_request` returns: its `"labels"` and `"error"` keys. */
  datatype YoloSummary = YoloSummary(labels: Option<seq<Label>>, error: Option<string>)

  /** Whether the body of the service's answer decoded as JSON. */
  datatype JsonBody = Parsed(summary: YoloSummary) | Malformed

  datatype InferenceResponse = InferenceResponse(status: int, body: JsonBody)

  /** The S3 key for a downloaded photo: the prefix, then the local path unchanged. */
  function RemoteKey(localPath: string): (key: string)
    ensures StartsWith(key, KEY_PREFIX) && key[|KEY_PREFIX|..] == localPath
  {
    KEY_PREFIX + localPath
  }

  /**
   `yolo5_request`'s decision on the answer: the decoded body for status 200;
   an `"error"` entry when status 200 came with a body that is not JSON; for
   any other status, an `"error"` entry, and no `"labels"`, whose text ends in
   the status code (it reads back as the status).
   */
  function Yolo5Decision(response: InferenceResponse): (summary: YoloSummary)
    ensures response.status == 200 && response.body.Parsed? ==> summary == response.body.summary
    ensures response.status == 200 && response.body.Malformed? ==>
      summary == YoloSummary(None, Some(INVALID_JSON))
    ensures response.status != 200 ==>
      summary.labels.None? && summary.error.Some?
      && summary.error.value == STATUS_ERROR_PREFIX + IntToDecimal(response.status)
      && StartsWith(summary.error.value, STATUS_ERROR_PREFIX)
      && ParseInt(summary.error.value[|STATUS_ERROR_PREFIX|..]) == response.status
  {
    if response.status == 200 then
      match response.body
      case Parsed(s) => s
      case Malformed => YoloSummary(None, Some(INVALID_JSON))
    else
      var code := IntToDecimal(response.status);
      IntToDecimalRoundTrip(response.status);
      assert (STATUS_ERROR_PREFIX + code)[|STATUS_ERROR_PREFIX|..] == code;
      YoloSummary(None, Some(STATUS_ERROR_PREFIX + code))
  }

  // ---------------------------------------------------------------------------
  // The summary text

  predicate AllClassed(labels: seq<Label>) {
    forall k :: 0 <= k < |labels| ==> labels[k].cls.Some?
  }

  /** One label's line without its line break. */
  function LineText(det: Label): string
    requires det.cls.Some?
  {
    "Class: " + det.cls.value + ", Confidence: " + det.confidence.GetOr("N/A")
  }

  /**
   A label's line starts with "Class: " and the class text, and holds a line
   break only when the class or the confidence text does.
   */
  lemma LineTextFields(det: Label)
    requires det.cls.Some?
    ensures StartsWith(LineText(det), "Class: ")
    ensures |LineText(det)| >= 7 + |det.cls.value| && LineText(det)[7..7 + |det.cls.value|] == det.cls.value
    ensures '\n' !in det.cls.value && '\n' !in det.confidence.GetOr("N/A") ==> '\n' !in LineText(det)
  {
  }

  /** One label's line, `Class: c, Confidence: x\n`, with "N/A" for a missing confidence. */
  function LabelLine(det: Label): (line: string)
    requires det.cls.Some?
    ensures |line| >= 1 && line[|line| - 1] == '\n'
  {
    LineText(det) + "\n"
  }

  /** The lines of all labels, in order. */
  function Lines(labels: seq<Label>): (r: string)
    requires AllClassed(labels)
    ensures r == "" <==> labels == []
    ensures r != "" ==> r[|r| - 1] == '\n'
    decreases |labels|
  {
    if labels == [] then ""
    else Lines(labels[..|labels| - 1]) + LabelLine(labels[|labels| - 1])
  }

  /**
   The text `send_summary_to_user` sends: the header and one line per label
   when there is a `"labels"` entry, the fixed no-objects text when not. `None`
   when a label has no `'class'`, where the source raises `KeyError('class')`
   and sends nothing.
   */
  function SummaryReply(summary: YoloSummary): (r: Option<string>)
    ensures summary.labels.None? ==> r == Some(NO_OBJECTS)
    ensures summary.labels.Some? ==> (r.None? <==> !AllClassed(summary.labels.value))
    ensures summary.labels.Some? && r.Some? ==>
      StartsWith(r.value, HEADER) && r.value[|HEADER|..] == Lines(summary.labels.value)
  {
    match summary.labels
    case None => Some(NO_OBJECTS)
    case Some(labels) => if AllClassed(labels) then Some(HEADER + Lines(labels)) else None
  }

  /** What sending the summary to a chat amounts to. */
  function SummaryOutcome(chat: int, summary: YoloSummary): (o: Outcome)
    ensures o.raised.None? <==> SummaryReply(summary).Some?
    ensures o.raised.None? ==> o.actions == [SendText(chat, SummaryReply(summary).value)]
    ensures o.raised.Some? ==> o.actions == [] && o.raised == Some(KeyError("class"))
  {
    match SummaryReply(summary)
    case Some(text) => Outcome([SendText(chat, text)], None)
    case None => Outcome([], Some(KeyError("class")))
  }

  /**
   `send_summary_to_user`: builds the text label by label and sends it; a
   label without `'class'` ends the loop with `KeyError('class')`.
   */
  method SendSummaryToUser(chat: int, summary: YoloSummary) returns (o: Outcome)
    ensures o == SummaryOutcome(chat, summary)
  {
    if summary.labels.Some? {
      var labels := summary.labels.value;
      var summaryStr := HEADER;
      for i := 0 to |labels|
        invariant AllClassed(labels[..i])
        invariant summaryStr == HEADER + Lines(labels[..i])
      {
        var det := labels[i];
        if det.cls.None? {
          assert !AllClassed(labels);
          return Outcome([], Some(KeyError("class")));
        }
        assert labels[..i + 1][..i] == labels[..i];
        assert AllClassed(labels[..i + 1]);
        assert Lines(labels[..i + 1]) == Lines(labels[..i]) + LabelLine(det);
        AppendAssoc(HEADER, Lines(labels[..i]), LabelLine(det));
        summaryStr := summaryStr + LabelLine(det);
      }
      assert labels[..|labels|] == labels;
      o := Outcome([SendText(chat, summaryStr)], None);
    } else {
      o := Outcome([SendText(chat, NO_OBJECTS)], None);
    }
  }

  /** Two runs of labels that all have a class make one run that does. */
  lemma ClassedAppend(a: seq<Label>, b: seq<Label>)
    requires AllClassed(a) && AllClassed(b)
    ensures AllClassed(a + b)
  {
    forall k | 0 <= k < |a + b| ensures (a + b)[k].cls.Some? {
      if k < |a| { assert (a + b)[k] == a[k]; } else { assert (a + b)[k] == b[k - |a|]; }
    }
  }

  /** The lines of two runs of labels, one after the other. */
  lemma {:induction false} LinesAppend(a: seq<Label>, b: seq<Label>)
    requires AllClassed(a) && AllClassed(b)
    ensures AllClassed(a + b)
    ensures Lines(a + b) == Lines(a) + Lines(b)
    decreases |b|
  {
    ClassedAppend(a, b);
    if b == [] {
      assert a + b == a;
    } else {
      var b' := b[..|b| - 1];
      var last := b[|b| - 1];
      assert AllClassed(b');
      LinesAppend(a, b');
      assert (a + b)[..|a + b| - 1] == a + b';
      assert (a + b)[|a + b| - 1] == last;
      assert Lines(a + b) == Lines(a + b') + LabelLine(last);
      assert Lines(b) == Lines(b') + LabelLine(last);
      AppendAssoc(Lines(a), Lines(b'), LabelLine(last));
    }
  }

  /**
   Label k's line stands between the lines of the labels before it and those
   after it: one line per label, in the order received.
   */
  lemma LinesAt(labels: seq<Label>, k: int)
    requires AllClassed(labels) && 0 <= k < |labels|
    ensures Lines(labels) == Lines(labels[..k]) + LabelLine(labels[k]) + Lines(labels[k + 1..])
  {
    var before, at, after := labels[..k], [labels[k]], labels[k + 1..];
    assert AllClassed(before) && AllClassed(at) && AllClassed(after);
    assert AllClassed(before + at + after) && Lines(labels) == Lines(before + at + after) by {
      SliceAround(labels, k);
    }
    assert Lines(at) == LabelLine(labels[k]) by {
      assert at[..0] == [];
    }
    assert Lines(before + at) == Lines(before) + Lines(at) by {
      LinesAppend(before, at);
    }
    assert Lines(before + at + after) == Lines(before + at) + Lines(after) by {
      ClassedAppend(before, at);
      LinesAppend(before + at, after);
    }
  }

  lemma SliceAround(labels: seq<Label>, k: int)
    requires 0 <= k < |labels|
    ensures labels == labels[..k] + [labels[k]] + labels[k + 1..]
  {
  }

  /** The header and the label lines, as the lines of the text. */
  function SummaryLineTexts(labels: seq<Label>): seq<string>
    requires AllClassed(labels)
  {
    ["YOLOv5 Object Detection Results:"] + seq(|labels|, k requires 0 <= k < |labels| => LineText(labels[k]))
  }

  /** The summary is its lines joined by line breaks, with a final line break. */
  lemma {:induction false} SummaryIsJoin(labels: seq<Label>)
    requires AllClassed(labels)
    ensures Join(SummaryLineTexts(labels) + [""], '\n') == HEADER + Lines(labels)
    decreases |labels|
  {
    var parts := SummaryLineTexts(labels);
    assert Join(parts + [""], '\n') == Join(parts, '\n') + "\n" by {
      JoinAppend(parts, "", '\n');
      assert Join(parts, '\n') + ['\n'] + "" == Join(parts, '\n') + "\n";
    }
    if labels == [] {
      assert parts == ["YOLOv5 Object Detection Results:"];
    } else {
      var init := labels[..|labels| - 1];
      var last := labels[|labels| - 1];
      assert AllClassed(init);
      var initParts := SummaryLineTexts(init);
      var j, line := Join(initParts, '\n'), LineText(last);
      assert HEADER + Lines(init) == j + "\n" by {
        SummaryIsJoin(init);
        JoinAppend(initParts, "", '\n');
        assert j + ['\n'] + "" == j + "\n";
      }
      assert Join(parts, '\n') == j + "\n" + line by {
        assert parts == initParts + [line];
        JoinAppend(initParts, line, '\n');
      }
      assert HEADER + Lines(labels) == (j + "\n") + (line + "\n") by {
        assert Lines(labels) == Lines(init) + LabelLine(last);
        AppendAssoc(HEADER, Lines(init), LabelLine(last));
      }
      AppendAssoc(j + "\n", line, "\n");
    }
  }

  /**
   When no class or confidence text holds a line break, splitting the summary
   at line breaks gives back the header, one line per label in order, and the
   empty piece after the final line break.
   */
  lemma SummaryLines(labels: seq<Label>)
    requires AllClassed(labels)
    requires forall k :: 0 <= k < |labels| ==>
      '\n' !in labels[k].cls.value && '\n' !in labels[k].confidence.GetOr("N/A")
    ensures Split(HEADER + Lines(labels), '\n') == SummaryLineTexts(labels) + [""]
    ensures |Split(HEADER + Lines(labels), '\n')| == |labels| + 2
  {
    var parts := SummaryLineTexts(labels) + [""];
    forall k | 0 <= k < |parts| ensures '\n' !in parts[k] {
      if 1 <= k <= |labels| {
        var l := labels[k - 1];
        assert parts[k] == "Class: " + l.cls.value + ", Confidence: " + l.confidence.GetOr("N/A");
      }
    }
    SummaryIsJoin(labels);
    SplitJoin(parts, '\n');
  }

  /**
   A failed request (a status other than 200, or a body that is not JSON)
   never raises: the user gets exactly the no-objects text.
   */
  lemma InferenceFailureDegrades(chat: int, response: InferenceResponse)
    requires response.status != 200 || response.body.Malformed?
    ensures SummaryOutcome(chat, Yolo5Decision(response)) == Outcome([SendText(chat, NO_OBJECTS)], None)
  {
  }

  /** One detected cat with its confidence. */
  lemma OneCat()
    ensures SummaryReply(YoloSummary(Some([Label(Some("cat"), Some("0.9"))]), None))
      == Some(HEADER + "Class: cat, Confidence: 0.9\n")
  {
    var labels := [Label(Some("cat"), Some("0.9"))];
    assert labels[..0] == [];
    assert AllClassed(labels);
    assert "Class: " + "cat" == "Class: cat";
    assert "Class: cat" + ", Confidence: " == "Class: cat, Confidence: ";
    assert "Class: cat, Confidence: " + "0.9" == "Class: cat, Confidence: 0.9";
    assert "Class: cat, Confidence: 0.9" + "\n" == "Class: cat, Confidence: 0.9\n";
    assert Lines(labels) == "Class: cat, Confidence: 0.9\n";
  }

  /** A missing confidence is written "N/A". */
  lemma OneCatWithoutConfidence()
    ensures SummaryReply(YoloSummary(Some([Label(Some("cat"), None)]), None))
      == Some(HEADER + "Class: cat, Confidence: N/A\n")
  {
    var labels := [Label(Some("cat"), None)];
    assert labels[..0] == [];
    assert AllClassed(labels);
    assert "Class: " + "cat" == "Class: cat";
    assert "Class: cat" + ", Confidence: " == "Class: cat, Confidence: ";
    assert "Class: cat, Confidence: " + "N/A" == "Class: cat, Confidence: N/A";
    assert "Class: cat, Confidence: N/A" + "\n" == "Class: cat, Confidence: N/A\n";
    assert Lines(labels) == "Class: cat, Confidence: N/A\n";
  }

  // ---------------------------------------------------------------------------
  // The handler

  /**
   `handle_message`: for a photo, download it, upload it to the bucket under
   `tg-photos/<path>`, ask the service about that same key, and send the
   summary; without a photo, nothing. When nothing is raised the user gets
   exactly one text, the last action.
   */
  method HandleMessage(msg: Message, downloadedPath: string, response: InferenceResponse)
    returns (o: Outcome)
    ensures !msg.hasPhoto ==> o == Outcome([], None)
    ensures msg.hasPhoto ==>
      var key := RemoteKey(downloadedPath);
      var reply := SummaryOutcome(msg.chatId, Yolo5Decision(response));
      o.raised == reply.raised
      && o.actions == [DownloadPhoto(msg.chatId), Upload(downloadedPath, BUCKET, key), Detect(key)]
                      + reply.actions
    ensures msg.hasPhoto && o.raised.None? ==>
      |o.actions| == 4 && TextCount(o.actions) == 1 && o.actions[3].SendText?
      && o.actions[3].chat == msg.chatId
  {
    if !msg.hasPhoto {
      return Outcome([], None);
    }
    var actions := [DownloadPhoto(msg.chatId)];
    var imgName := KEY_PREFIX + downloadedPath;
    actions := actions + [Upload(downloadedPath, BUCKET, imgName)];
    actions := actions + [Detect(imgName)];
    var yoloSummary := Yolo5Decision(response);
    var sendOutcome := SendSummaryToUser(msg.chatId, yoloSummary);
    o := Outcome(actions + sendOutcome.actions, sendOutcome.raised);
    if o.raised.None? {
      var steps := actions;
      assert steps == [DownloadPhoto(msg.chatId), Upload(downloadedPath, BUCKET, imgName), Detect(imgName)];
      assert TextCount(steps[2..]) == 0 by {
        assert steps[2..][1..] == [];
      }
      assert TextCount(steps[1..]) == 0 by {
        assert steps[1..][1..] == steps[2..];
      }
      assert TextCount(steps) == 0;
      TextCountAppend(steps, sendOutcome.actions);
      assert sendOutcome.actions[1..] == [];
    }
  }
}
