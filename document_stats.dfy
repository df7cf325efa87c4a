/** The statistics bar of the editor: character, word and page counts of the
    document content, and the "opened for" / "created" time labels. The React
    state the component keeps is the `Stats` value each update returns. */
module DocumentStats {
  import opened Wrappers
  import opened Text

  const CharsPerPage: nat := 3000

  datatype Stats = Stats(characters: nat, words: nat, pages: nat, timeOpened: string, timeCreated: string)

  /** The state before any update. */
  const InitialStats := Stats(0, 0, 0, "0m", "Just now")

  /** A JavaScript value that is truthy: present and not the empty string. */
  predicate SomeText(content: Option<string>) {
    content.Some? && content.value != ""
  }

  /** A timestamp prop that is truthy: present and not `0`. */
  predicate SomeTime(t: Option<int>) {
    t.Some? && t.value != 0
  }

  // ------------------------------------------------------------ counts

  /** `Math.max(1, Math.ceil(characters / 3000))`. */
  function Pages(characters: nat): (p: nat)
    ensures p >= 1
    ensures characters > 0 ==> (p - 1) * CharsPerPage < characters <= p * CharsPerPage
    ensures characters == 0 ==> p == 1
  {
    var ceiling := (characters + CharsPerPage - 1) / CharsPerPage;
    if ceiling > 1 then ceiling else 1
  }

  /** `.filter(word => word.length > 0).length`. */
  function CountNonEmpty(pieces: seq<string>): nat {
    if pieces == [] then 0 else (if pieces[0] != "" then 1 else 0) + CountNonEmpty(pieces[1..])
  }

  lemma {:induction false} CountNonEmptyWords(ws: seq<string>)
    requires forall i :: 0 <= i < |ws| ==> IsWord(ws[i])
    ensures CountNonEmpty(ws) == |ws|
  {
    if ws != [] {
      CountNonEmptyWords(ws[1..]);
    }
  }

  /** `text.trim().split(/\s+/).filter(word => word.length > 0).length`. */
  function WordCount(text: string): nat {
    CountNonEmpty(JsSplitTrimmed(text))
  }

  /** The word count is the number of whitespace-separated words, so a blank
      text has none, and never exceeds the number of characters. */
  lemma WordCountFacts(text: string)
    ensures WordCount(text) == |Words(text)|
    ensures IsBlank(text) <==> WordCount(text) == 0
    ensures WordCount(text) <= |text|
  {
    CountNonEmptyWords(Words(text));
    WordsAllSpace(text);
    BlankIffAllSpace(text);
    WordsAtMostLength(text);
  }

  /** The first effect: the counts of the tag-free content, kept as they were
      when the content is falsy. */
  function ContentStats(prev: Stats, content: Option<string>): Stats {
    if !SomeText(content) then prev
    else
      var text := StripTags(content.value, false);
      prev.(characters := |text|, words := WordCount(text), pages := Pages(|text|))
  }

  /** What the first effect promises. */
  lemma ContentStatsFacts(prev: Stats, content: Option<string>)
    ensures var s := ContentStats(prev, content);
      && (!SomeText(content) ==> s == prev)
      && (SomeText(content) ==>
            var text := StripTags(content.value, false);
            && s.characters == |text| <= |content.value|
            && s.words == |Words(text)| <= s.characters
            && (IsBlank(text) <==> s.words == 0)
            && s.pages >= 1
            && (s.characters > 0 ==> (s.pages - 1) * CharsPerPage < s.characters <= s.pages * CharsPerPage)
            && s.timeOpened == prev.timeOpened && s.timeCreated == prev.timeCreated)
  {
    if SomeText(content) {
      var text := StripTags(content.value, false);
      StripTagsShorter(content.value, false);
      WordCountFacts(text);
    }
  }

  // --------------------------------------------------------- time labels

  /** `timeOpened` for `diff` milliseconds since the document was opened;
      `minutes % 60` is only evaluated for positive minutes, where JavaScript's
      remainder and Dafny's agree. */
  function OpenedLabel(diff: int): string {
    var minutes := diff / MsPerMinute;
    var hours := minutes / 60;
    if hours > 0 then IntToString(hours) + "h " + IntToString(minutes % 60) + "m"
    else IntToString(minutes) + "m"
  }

  /** Reads an `OpenedLabel` back as a number of minutes. */
  function ParseOpened(shown: string): Option<int> {
    if shown == [] || shown[|shown| - 1] != 'm' then None
    else ParseMinutesBody(shown[..|shown| - 1])
  }

  /** `"{h}h {m}"` as `60 h + m`, or `"{m}"` as `m`. */
  function ParseMinutesBody(body: string): Option<int> {
    match IndexOf(body, 'h')
    case None => ParseInt(body)
    case Some(i) =>
      if i + 1 < |body| && body[i + 1] == ' ' then
        match (ParseInt(body[..i]), ParseInt(body[i + 2..]))
        case (Some(h), Some(m)) => Some(h * 60 + m)
        case _ => None
      else None
  }

  lemma ParseOpenedBody(body: string)
    ensures ParseOpened(body + "m") == ParseMinutesBody(body)
  {
    assert (body + "m")[..|body|] == body;
  }

  lemma IndexOfAfterNumber(n: string, rest: string)
    requires forall k :: 0 <= k < |n| ==> IsDigit(n[k]) || n[k] == '-'
    ensures IndexOf(n + "h" + rest, 'h') == Some(|n|)
  {
    var s := n + "h" + rest;
    assert s[|n|] == 'h';
    assert forall k :: 0 <= k < |n| ==> s[k] == n[k] && s[k] != 'h';
  }

  lemma NoH(n: string)
    requires forall k :: 0 <= k < |n| ==> IsDigit(n[k]) || n[k] == '-'
    ensures IndexOf(n, 'h') == None
  {
    assert forall k :: 0 <= k < |n| ==> n[k] != 'h';
  }

  /** The label tells the whole minutes elapsed: it reads back as `⌊diff/60000⌋`.
      Below an hour it is `"{m}m"`, from an hour on `"{h}h {m mod 60}m"`. */
  lemma ParseOpenedLabel(diff: int)
    ensures ParseOpened(OpenedLabel(diff)) == Some(diff / MsPerMinute)
    ensures diff / MsPerMinute < 60 ==> OpenedLabel(diff) == IntToString(diff / MsPerMinute) + "m"
    ensures diff / MsPerMinute >= 60 ==>
      OpenedLabel(diff) == IntToString(diff / MsPerMinute / 60) + "h " + IntToString(diff / MsPerMinute % 60) + "m"
  {
    var minutes := diff / MsPerMinute;
    var hours := minutes / 60;
    if hours > 0 {
      ParseHoursMinutes(hours, minutes % 60);
      assert hours * 60 + minutes % 60 == minutes;
    } else {
      ParseMinutes(minutes);
    }
  }

  lemma ParseHoursMinutes(h: int, m: int)
    ensures ParseOpened(IntToString(h) + "h " + IntToString(m) + "m") == Some(h * 60 + m)
  {
    var hs := IntToString(h);
    var ms := IntToString(m);
    var body := hs + "h" + (" " + ms);
    assert hs + "h " + ms + "m" == body + "m";
    ParseOpenedBody(body);
    IndexOfAfterNumber(hs, " " + ms);
    assert body[|hs| + 1] == ' ';
    assert body[..|hs|] == hs;
    assert body[|hs| + 2..] == ms;
    ParseIntToString(h);
    ParseIntToString(m);
  }

  lemma ParseMinutes(m: int)
    ensures ParseOpened(IntToString(m) + "m") == Some(m)
  {
    ParseOpenedBody(IntToString(m));
    NoH(IntToString(m));
    ParseIntToString(m);
  }

  /** `timeCreated` for `diff` milliseconds since the document was created. */
  function CreatedLabel(diff: int): string {
    var days := diff / MsPerDay;
    var hours := diff / MsPerHour;
    var minutes := diff / MsPerMinute;
    if days > 0 then IntToString(days) + "d ago"
    else if hours > 0 then IntToString(hours) + "h ago"
    else if minutes > 0 then IntToString(minutes) + "m ago"
    else "Just now"
  }

  /** The label by elapsed time: whole days from a day on, whole hours (1 to 23)
      from an hour on, whole minutes (1 to 59) from a minute on, and `"Just now"`
      exactly when less than a minute has passed. */
  lemma CreatedLabelThresholds(diff: int)
    ensures diff >= MsPerDay ==> CreatedLabel(diff) == NatToString(diff / MsPerDay) + "d ago"
    ensures MsPerHour <= diff < MsPerDay ==>
      1 <= diff / MsPerHour < 24 && CreatedLabel(diff) == NatToString(diff / MsPerHour) + "h ago"
    ensures MsPerMinute <= diff < MsPerHour ==>
      1 <= diff / MsPerMinute < 60 && CreatedLabel(diff) == NatToString(diff / MsPerMinute) + "m ago"
    ensures CreatedLabel(diff) == "Just now" <==> diff < MsPerMinute
  {
    var shown := CreatedLabel(diff);
    if diff >= MsPerMinute {
      var digits := if diff >= MsPerDay then NatToString(diff / MsPerDay)
        else if diff >= MsPerHour then NatToString(diff / MsPerHour)
        else NatToString(diff / MsPerMinute);
      assert shown[0] == digits[0] && IsDigit(digits[0]);
      assert shown[0] != 'J';
    }
  }

  /** The second effect: each shown is recomputed only when its timestamp is truthy. */
  function CalculateTime(prev: Stats, now: int, openedAt: Option<int>, createdAt: Option<int>): Stats {
    var withOpened := if SomeTime(openedAt) then prev.(timeOpened := OpenedLabel(now - openedAt.value)) else prev;
    if SomeTime(createdAt) then withOpened.(timeCreated := CreatedLabel(now - createdAt.value)) else withOpened
  }

  /** The time update leaves the counts alone and each shown depends only on its own timestamp. */
  lemma CalculateTimeFacts(prev: Stats, now: int, openedAt: Option<int>, createdAt: Option<int>)
    ensures var s := CalculateTime(prev, now, openedAt, createdAt);
      && s.characters == prev.characters && s.words == prev.words && s.pages == prev.pages
      && s.timeOpened == (if SomeTime(openedAt) then OpenedLabel(now - openedAt.value) else prev.timeOpened)
      && s.timeCreated == (if SomeTime(createdAt) then CreatedLabel(now - createdAt.value) else prev.timeCreated)
  {
  }
}
