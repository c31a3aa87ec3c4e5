/**
 `swear_words_github`: the vocabulary of swear words, read once when the
 image-processing bot starts from a newline-separated word list fetched over
 HTTP. The fetch itself is a parameter: its status code and body.
 */
module WordList {
  import opened Text

  /**
   The list of words: every line of the body, stripped of surrounding white
   space, in order, when the status is 200; the empty list for any other status.
   */
  function ParseWordList(status: int, body: string): (words: seq<string>)
    ensures status != 200 ==> words == []
    ensures status == 200 ==> |words| == |Split(body, '\n')|
    ensures status == 200 ==>
      forall k :: 0 <= k < |words| ==> words[k] == Strip(Split(body, '\n')[k])
  {
    if status == 200 then
      var lines := Split(body, '\n');
      seq(|lines|, k requires 0 <= k < |lines| => Strip(lines[k]))
    else []
  }

  /**
   Each word is a stripped line: no line break inside it and no white space
   at either end, so stripping it again leaves it unchanged.
   */
  lemma WordsAreStripped(status: int, body: string, k: int)
    requires 0 <= k < |ParseWordList(status, body)|
    ensures '\n' !in ParseWordList(status, body)[k]
    ensures Strip(ParseWordList(status, body)[k]) == ParseWordList(status, body)[k]
    ensures var w := ParseWordList(status, body)[k];
      w != "" ==> !IsSpace(w[0]) && !IsSpace(w[|w| - 1])
  {
    var line := Split(body, '\n')[k];
    assert ParseWordList(status, body)[k] == Strip(line);
    assert '\n' !in line by {
      SplitPiecesFree(body, '\n');
    }
    StripKeepsOut(line, '\n');
    StripIdempotent(line);
  }

  /**
   Lines are joined back by line breaks: with status 200, a body whose lines
   carry no surrounding white space is exactly the words joined by "\n".
   */
  lemma WordListRoundTrip(words: seq<string>)
    requires |words| >= 1
    requires forall k :: 0 <= k < |words| ==> '\n' !in words[k] && Strip(words[k]) == words[k]
    ensures ParseWordList(200, Join(words, '\n')) == words
  {
    SplitJoin(words, '\n');
  }

  /**
   A body that ends with a line break yields the empty word as its last entry,
   so the empty text counts as a swear word for such a list.
   */
  lemma TrailingNewlineGivesEmptyWord(body: string)
    requires |body| > 0 && body[|body| - 1] == '\n'
    ensures "" in ParseWordList(200, body)
  {
    var prefix := body[..|body| - 1];
    var lines := Split(prefix, '\n');
    JoinSplit(prefix, '\n');
    SplitPiecesFree(prefix, '\n');
    assert body == Join(lines, '\n') + ['\n'] + "";
    SplitJoin(lines + [""], '\n');
    JoinAppend(lines, "", '\n');
    var words := ParseWordList(200, body);
    assert Split(body, '\n') == lines + [""];
    assert words[|words| - 1] == Strip("");
  }
}
