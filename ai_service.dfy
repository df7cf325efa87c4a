/** The text analysis around the autocomplete model call: the prompt built from
    the text before the cursor, and the normalisation of the model's reply. The
    HTTP request itself is an input: its outcome is a `Reply` value. */
module AIService {
  import opened Wrappers
  import opened Text

  const ContextWords: nat := 10
  const MinLastWord: nat := 2

  /** `fullText.substring(0, cursorPosition)`: the bound is clamped to the text. */
  function BeforeCursor(fullText: string, cursorPosition: int): (before: string)
    ensures before <= fullText
    ensures 0 <= cursorPosition <= |fullText| ==> |before| == cursorPosition
  {
    if cursorPosition <= 0 then []
    else if cursorPosition >= |fullText| then fullText
    else fullText[..cursorPosition]
  }

  /** `words.slice(-n)`: the last `n` elements, or all of them when there are fewer. */
  function LastN<T>(s: seq<T>, n: nat): (r: seq<T>)
    ensures |r| == if |s| <= n then |s| else n
    ensures r == s[|s| - |r|..]
  {
    if |s| <= n then s else s[|s| - n..]
  }

  /** The prompt sent to the model for the text before the cursor, or `None`
      when the last word is shorter than two characters and no call is made. */
  function SmartPrompt(fullText: string, cursorPosition: int): Option<string> {
    var words := JsSplitTrimmed(BeforeCursor(fullText, cursorPosition));
    var lastWord := words[|words| - 1];
    var context := Unwords(LastN(words, ContextWords));
    if |lastWord| < MinLastWord then None else Some(context + " " + lastWord)
  }

  /** Text after the cursor never reaches the prompt. */
  lemma PromptIgnoresAfterCursor(fullText: string, cursorPosition: int, after: string)
    requires 0 <= cursorPosition <= |fullText|
    ensures SmartPrompt(fullText[..cursorPosition] + after, cursorPosition) == SmartPrompt(fullText, cursorPosition)
  {
    assert BeforeCursor(fullText[..cursorPosition] + after, cursorPosition) == BeforeCursor(fullText, cursorPosition);
  }

  /** The prompt over the words before the cursor: the piece `[""]` of a blank
      prefix has a last word too short for a prompt. */
  lemma SmartPromptOfWords(fullText: string, cursorPosition: int)
    ensures var ws := Words(BeforeCursor(fullText, cursorPosition));
      SmartPrompt(fullText, cursorPosition) ==
        if ws == [] || |ws[|ws| - 1]| < MinLastWord then None
        else Some(Unwords(LastN(ws, ContextWords)) + " " + ws[|ws| - 1])
  {
    var before := BeforeCursor(fullText, cursorPosition);
    var pieces := JsSplitTrimmed(before);
    assert Words(before) == [] ==> pieces == [""];
  }

  /** A prompt is made exactly when there are words before the cursor and the
      last has at least two characters. */
  lemma SmartPromptGate(fullText: string, cursorPosition: int)
    ensures var ws := Words(BeforeCursor(fullText, cursorPosition));
      SmartPrompt(fullText, cursorPosition).Some? <==> ws != [] && |ws[|ws| - 1]| >= MinLastWord
  {
    SmartPromptOfWords(fullText, cursorPosition);
  }

  /** The prompt in terms of the words before the cursor: there is one exactly
      when there are words and the last has at least two characters; it is the
      last (at most ten) words joined by single spaces, a space, and the last
      word again. A blank prefix gives no prompt. */
  lemma SmartPromptFacts(fullText: string, cursorPosition: int)
    ensures var ws := Words(BeforeCursor(fullText, cursorPosition));
      var p := SmartPrompt(fullText, cursorPosition);
      && (p.Some? <==> ws != [] && |ws[|ws| - 1]| >= MinLastWord)
      && (p.Some? ==> p.value == Unwords(LastN(ws, ContextWords)) + " " + ws[|ws| - 1])
      && (p.Some? ==> Words(Unwords(LastN(ws, ContextWords))) == LastN(ws, ContextWords))
      && (p.Some? ==> |LastN(ws, ContextWords)| <= ContextWords)
      && (IsBlank(BeforeCursor(fullText, cursorPosition)) ==> p.None?)
  {
    var before := BeforeCursor(fullText, cursorPosition);
    var ws := Words(before);
    SmartPromptOfWords(fullText, cursorPosition);
    WordsAllSpace(before);
    BlankIffAllSpace(before);
    if ws != [] {
      var ctx := LastN(ws, ContextWords);
      assert forall i :: 0 <= i < |ctx| ==> ctx[i] == ws[|ws| - |ctx| + i];
      WordsOfUnwords(ctx);
    }
  }

  /** The outcome of the model call: a reply that is not `ok`, a call that
      throws, or a JSON body whose `[0].generated_text` and `.generated_text`
      fields may be absent. */
  datatype Reply = NotOk | Threw | Ok(firstGenerated: Option<string>, topGenerated: Option<string>)

  /** `text?.trim()` as a candidate: present and non-empty once trimmed. */
  function Candidate(text: Option<string>): Option<string> {
    if text.Some? && Trim(text.value) != "" then Some(Trim(text.value)) else None
  }

  /** `result[0]?.generated_text?.trim() || result.generated_text?.trim()`, then `|| ''`. */
  function Normalize(reply: Reply): (s: string)
    ensures s == "" || (!IsSpace(s[0]) && !IsSpace(s[|s| - 1]))
    ensures !reply.Ok? ==> s == ""
    ensures reply.Ok? && reply.firstGenerated.Some? && !IsBlank(reply.firstGenerated.value) ==>
      s == Trim(reply.firstGenerated.value)
    ensures reply.Ok? && (reply.firstGenerated.None? || IsBlank(reply.firstGenerated.value)) ==>
      s == (if reply.topGenerated.Some? then Trim(reply.topGenerated.value) else "")
  {
    match reply
    case Ok(first, top) =>
      (match Candidate(first)
       case Some(t) => t
       case None => (match Candidate(top) case Some(t) => t case None => ""))
    case _ => ""
  }

  /** `generateSmartSuggestion`: `''` when there is no word before the cursor or the
      last word is shorter than two characters, whatever the model would say;
      otherwise the model's normalised reply. The suggestion is always trimmed,
      and a failed call gives `''`. */
  function GenerateSmartSuggestion(fullText: string, cursorPosition: int, reply: Reply): (s: string)
    ensures var ws := Words(BeforeCursor(fullText, cursorPosition));
      (ws == [] || |ws[|ws| - 1]| < MinLastWord) ==> s == ""
    ensures var ws := Words(BeforeCursor(fullText, cursorPosition));
      (ws != [] && |ws[|ws| - 1]| >= MinLastWord) ==> s == Normalize(reply)
    ensures s == "" || (!IsSpace(s[0]) && !IsSpace(s[|s| - 1]))
    ensures !reply.Ok? ==> s == ""
  {
    SmartPromptGate(fullText, cursorPosition);
    if SmartPrompt(fullText, cursorPosition).None? then "" else Normalize(reply)
  }
}
