/** Characters and the string operations the services share: character classes,
    whitespace splitting and joining, trimming, tag stripping, substring tests
    and decimal numerals.

    Python's `str.split()`, `str.strip()` and `' '.join(...)`, JavaScript's
    `trim()` and `split(/\s+/)`, and the regular expressions `\s+`, `[.!?]+`,
    `<[^>]+>` and `<[^>]*>` are all stated here over one abstract whitespace
    class, so that the services can be compared with each other. */
module Text {
  import opened Wrappers

  /** The character classes that the regular expressions and strip calls use. */
  datatype CharClass =
    | Whitespace       // `\s`, str.split(), str.strip(), String.prototype.trim
    | SentenceEnd      // `[.!?]`
    | WordPunctuation  // the argument of str.strip('.,!?;:')

  /** ASCII whitespace: space, tab, line feed, carriage return, vertical tab, form feed. */
  predicate IsSpace(c: char) {
    c == ' ' || c == '\t' || c == '\n' || c == '\r' || c == '\U{0B}' || c == '\U{0C}'
  }

  predicate InClass(c: char, k: CharClass) {
    match k
    case Whitespace => IsSpace(c)
    case SentenceEnd => c == '.' || c == '!' || c == '?'
    case WordPunctuation => c == '.' || c == ',' || c == '!' || c == '?' || c == ';' || c == ':'
  }

  predicate AllIn(s: string, k: CharClass) {
    forall i :: 0 <= i < |s| ==> InClass(s[i], k)
  }

  /** Position of the first character of `s` in class `k`, or `|s|` when there is none. */
  function FirstIn(s: string, k: CharClass): (n: nat)
    ensures n <= |s|
    ensures forall i :: 0 <= i < n ==> !InClass(s[i], k)
    ensures n < |s| ==> InClass(s[n], k)
  {
    if s == [] || InClass(s[0], k) then 0 else 1 + FirstIn(s[1..], k)
  }

  /** Length of the run of class-`k` characters that `s` starts with. */
  function SpanIn(s: string, k: CharClass): (n: nat)
    ensures n <= |s|
    ensures forall i :: 0 <= i < n ==> InClass(s[i], k)
    ensures n < |s| ==> !InClass(s[n], k)
  {
    if s != [] && InClass(s[0], k) then 1 + SpanIn(s[1..], k) else 0
  }

  /** Length of the run of class-`k` characters that `s` ends with. */
  function BackSpanIn(s: string, k: CharClass): (n: nat)
    ensures n <= |s|
    ensures forall i :: |s| - n <= i < |s| ==> InClass(s[i], k)
    ensures n < |s| ==> !InClass(s[|s| - 1 - n], k)
  {
    if s != [] && InClass(s[|s| - 1], k) then 1 + BackSpanIn(s[..|s| - 1], k) else 0
  }

  /** Python's `s.strip(chars)` / JavaScript's `s.trim()` for the class `k`. */
  function TrimIn(s: string, k: CharClass): (r: string)
    ensures r == [] || (!InClass(r[0], k) && !InClass(r[|r| - 1], k))
    ensures r == [] <==> AllIn(s, k)
  {
    var t := s[SpanIn(s, k)..];
    t[..|t| - BackSpanIn(t, k)]
  }

  function Trim(s: string): string {
    TrimIn(s, Whitespace)
  }

  /** `s.trim()` is falsy in JavaScript, `s.strip()` in Python. */
  predicate IsBlank(s: string) {
    Trim(s) == []
  }

  lemma BlankIffAllSpace(s: string)
    ensures IsBlank(s) <==> forall i :: 0 <= i < |s| ==> IsSpace(s[i])
  {
  }

  // ---------------------------------------------------------------- words

  /** A token of `str.split()`: non-empty and free of whitespace. */
  predicate IsWord(w: string) {
    w != [] && forall i :: 0 <= i < |w| ==> !IsSpace(w[i])
  }

  /** Python's `s.split()` with no argument: the maximal runs of non-whitespace. */
  function Words(s: string): (ws: seq<string>)
    ensures forall i :: 0 <= i < |ws| ==> IsWord(ws[i])
    decreases |s|
  {
    if s == [] then []
    else if IsSpace(s[0]) then Words(s[1..])
    else
      var n := FirstIn(s, Whitespace);
      [s[..n]] + Words(s[n..])
  }

  /** `' '.join(ws)` in Python, `ws.join(' ')` in JavaScript. */
  function Unwords(ws: seq<string>): string {
    if ws == [] then ""
    else if |ws| == 1 then ws[0]
    else ws[0] + " " + Unwords(ws[1..])
  }

  /** The shape `clean_html` produces: no whitespace at either end, and every
      whitespace run is one plain space. */
  predicate Collapsed(s: string) {
    forall i :: 0 <= i < |s| && IsSpace(s[i]) ==> s[i] == ' ' && (i + 1 < |s| ==> !IsSpace(s[i + 1]))
  }

  predicate Normalized(s: string) {
    (s == [] || (!IsSpace(s[0]) && !IsSpace(s[|s| - 1]))) && Collapsed(s)
  }

  lemma {:induction false} WordsSkipSpaces(s: string, k: nat)
    requires k <= |s|
    requires forall i :: 0 <= i < k ==> IsSpace(s[i])
    ensures Words(s) == Words(s[k..])
    decreases k
  {
    if k > 0 {
      assert s[1..][k - 1..] == s[k..];
      WordsSkipSpaces(s[1..], k - 1);
    }
  }

  lemma {:induction false} WordsAllSpace(s: string)
    ensures Words(s) == [] <==> forall i :: 0 <= i < |s| ==> IsSpace(s[i])
    decreases |s|
  {
    if s != [] {
      if IsSpace(s[0]) {
        WordsAllSpace(s[1..]);
        assert forall i :: 1 <= i < |s| ==> s[i] == s[1..][i - 1];
      }
    }
  }

  lemma WordsPrepend(w: string, t: string)
    requires IsWord(w)
    requires t == [] || IsSpace(t[0])
    ensures Words(w + t) == [w] + Words(t)
  {
    var s := w + t;
    assert forall i :: 0 <= i < |w| ==> !IsSpace(s[i]);
    assert |w| < |s| ==> IsSpace(s[|w|]);
    assert FirstIn(s, Whitespace) == |w|;
    assert s[..|w|] == w;
    assert s[|w|..] == t;
  }

  lemma {:induction false} WordsOfUnwords(ws: seq<string>)
    requires forall i :: 0 <= i < |ws| ==> IsWord(ws[i])
    ensures Words(Unwords(ws)) == ws
  {
    if ws == [] {
    } else if |ws| == 1 {
      WordsPrepend(ws[0], "");
      assert ws[0] + "" == ws[0];
    } else {
      var rest := Unwords(ws[1..]);
      WordsOfUnwords(ws[1..]);
      WordsPrepend(ws[0], " " + rest);
      assert (" " + rest)[1..] == rest;
      assert ws[0] + " " + rest == ws[0] + (" " + rest);
    }
  }

  lemma {:induction false} UnwordsOfWords(s: string)
    requires Normalized(s)
    ensures Unwords(Words(s)) == s
    decreases |s|
  {
    if s != [] {
      var n := FirstIn(s, Whitespace);
      WordsStep(s);
      if n == |s| {
        assert s[..n] == s;
        assert s[n..] == [];
      } else {
        var t := s[n + 1..];
        NormalizedTail(s, n);
        UnwordsOfWords(t);
        WordsSkipSpaces(s[n..], 1);
        assert s[n..][1..] == t;
        WordsAllSpace(t);
        UnwordsCons(s[..n], Words(t));
        assert s == s[..n] + " " + t;
      }
    }
  }

  /** Behind the first word of a normalized text come one space and a normalized rest. */
  lemma NormalizedTail(s: string, n: nat)
    requires Normalized(s) && s != [] && n == FirstIn(s, Whitespace) < |s|
    ensures n + 1 < |s| && s[n] == ' ' && Normalized(s[n + 1..]) && !IsSpace(s[n + 1])
  {
    var t := s[n + 1..];
    assert IsSpace(s[n]);
    assert forall i :: 0 <= i < |t| ==> t[i] == s[n + 1 + i];
  }

  lemma UnwordsCons(w: string, ws: seq<string>)
    requires ws != []
    ensures Unwords([w] + ws) == w + " " + Unwords(ws)
  {
    assert ([w] + ws)[1..] == ws;
  }

  lemma {:induction false} WordsDropTrailing(s: string, m: nat)
    requires m <= |s|
    requires forall i :: m <= i < |s| ==> IsSpace(s[i])
    ensures Words(s[..m]) == Words(s)
    decreases |s|
  {
    if s == [] {
    } else if IsSpace(s[0]) {
      if m == 0 {
        WordsAllSpace(s);
      } else {
        assert s[..m][1..] == s[1..][..m - 1];
        WordsDropTrailing(s[1..], m - 1);
      }
    } else {
      var n := FirstIn(s, Whitespace);
      var p := s[..m];
      assert m > 0;
      assert m < |s| ==> IsSpace(s[m]);
      assert n <= m;
      assert forall i :: 0 <= i < n ==> !IsSpace(p[i]);
      assert n < |p| ==> IsSpace(p[n]);
      assert FirstIn(p, Whitespace) == n;
      assert p[..n] == s[..n];
      assert p[n..] == s[n..][..m - n];
      WordsDropTrailing(s[n..], m - n);
    }
  }

  lemma WordsOfTrim(s: string)
    ensures Words(Trim(s)) == Words(s)
  {
    var a := SpanIn(s, Whitespace);
    var t := s[a..];
    WordsSkipSpaces(s, a);
    var b := BackSpanIn(t, Whitespace);
    WordsDropTrailing(t, |t| - b);
  }

  // --------------------------------------------------- whitespace collapse

  /** `re.sub(r'\s+', ' ', s)`: every maximal whitespace run becomes one space. */
  function Collapse(s: string): (r: string)
    ensures Collapsed(r)
    ensures s != [] && !IsSpace(s[0]) ==> r != [] && r[0] == s[0]
    decreases |s|
  {
    if s == [] then []
    else if IsSpace(s[0]) then
      var n := SpanIn(s, Whitespace);
      [' '] + Collapse(s[n..])
    else [s[0]] + Collapse(s[1..])
  }

  lemma {:induction false} WordsOfCollapse(s: string)
    ensures Words(Collapse(s)) == Words(s)
    decreases |s|
  {
    if s == [] {
    } else if IsSpace(s[0]) {
      var n := SpanIn(s, Whitespace);
      WordsOfCollapse(s[n..]);
      WordsSkipSpaces(s, n);
      assert ([' '] + Collapse(s[n..]))[1..] == Collapse(s[n..]);
    } else {
      var n := FirstIn(s, Whitespace);
      var rest := Collapse(s[n..]);
      CollapseKeepsToken(s, n);
      assert IsWord(s[..n]);
      assert rest == [] || IsSpace(rest[0]);
      WordsPrepend(s[..n], rest);
      WordsOfCollapse(s[n..]);
    }
  }

  /** Collapse copies a leading token and then continues on the rest. */
  lemma {:induction false} CollapseKeepsToken(s: string, n: nat)
    requires n == FirstIn(s, Whitespace)
    ensures Collapse(s) == s[..n] + Collapse(s[n..])
  {
    assert s == s[..n] + s[n..];
    CollapseKeepsPrefix(s[..n], s[n..]);
  }

  lemma {:induction false} CollapseKeepsPrefix(t: string, rest: string)
    requires forall i :: 0 <= i < |t| ==> !IsSpace(t[i])
    ensures Collapse(t + rest) == t + Collapse(rest)
    decreases |t|
  {
    if t != [] {
      var u := t[1..];
      assert (t + rest)[0] == t[0] && (t + rest)[1..] == u + rest;
      assert Collapse(t + rest) == [t[0]] + Collapse(u + rest);
      CollapseKeepsPrefix(u, rest);
      assert [t[0]] + (u + Collapse(rest)) == t + Collapse(rest);
    } else {
      assert t + rest == rest;
    }
  }

  lemma TrimKeepsCollapsed(s: string)
    requires Collapsed(s)
    ensures Normalized(Trim(s))
  {
    var a := SpanIn(s, Whitespace);
    var t := s[a..];
    var r := Trim(s);
    assert r == t[..|t| - BackSpanIn(t, Whitespace)];
    forall i | 0 <= i < |r| && IsSpace(r[i])
      ensures r[i] == ' ' && (i + 1 < |r| ==> !IsSpace(r[i + 1]))
    {
      assert r[i] == s[a + i];
      if i + 1 < |r| { assert r[i + 1] == s[a + i + 1]; }
    }
  }

  /** Collapsing whitespace and trimming yields the words joined by single spaces. */
  lemma NormalizeIsUnwords(s: string)
    ensures Normalized(Trim(Collapse(s)))
    ensures Trim(Collapse(s)) == Unwords(Words(s))
  {
    var r := Trim(Collapse(s));
    TrimKeepsCollapsed(Collapse(s));
    WordsOfTrim(Collapse(s));
    WordsOfCollapse(s);
    UnwordsOfWords(r);
  }

  // ------------------------------------------------------ regular splits

  /** `re.split(P+, s)` (and JavaScript's `s.split(/P+/)`) for the class `P`:
      the pieces between maximal runs of class characters, empty pieces included. */
  function SplitOn(s: string, k: CharClass): (pieces: seq<string>)
    ensures |pieces| >= 1
    decreases |s|
  {
    var i := FirstIn(s, k);
    if i == |s| then [s]
    else
      var j := i + SpanIn(s[i..], k);
      [s[..i]] + SplitOn(s[j..], k)
  }

  /** Splitting a trimmed string on whitespace runs gives its words; the blank
      string gives the single empty piece `[""]`. */
  lemma SplitTrimmed(t: string)
    requires t == [] || (!IsSpace(t[0]) && !IsSpace(t[|t| - 1]))
    ensures SplitOn(t, Whitespace) == if t == [] then [""] else Words(t)
  {
    if t != [] {
      SplitWords(t);
    }
  }

  lemma {:induction false} SplitWords(t: string)
    requires t != [] && !IsSpace(t[0]) && !IsSpace(t[|t| - 1])
    ensures SplitOn(t, Whitespace) == Words(t)
    decreases |t|
  {
    var i := FirstIn(t, Whitespace);
    if i == |t| {
      WordsStep(t);
      assert t[..i] == t;
      assert Words(t[i..]) == [];
    } else {
      var n := SpanIn(t[i..], Whitespace);
      SplitStep(t, i, n);
      SplitWords(t[i + n..]);
      SplitWordsStep(t, i, n);
    }
  }

  /** The step of `SplitWords`: a first word, a whitespace run, and a rest that splits into its words. */
  lemma {:induction false} SplitWordsStep(t: string, i: nat, n: nat)
    requires t != [] && !IsSpace(t[0])
    requires i == FirstIn(t, Whitespace) < |t| && n == SpanIn(t[i..], Whitespace) && i + n <= |t|
    requires SplitOn(t[i + n..], Whitespace) == Words(t[i + n..])
    ensures SplitOn(t, Whitespace) == Words(t)
  {
    var u := t[i..];
    var v := t[i + n..];
    calc {
      SplitOn(t, Whitespace);
      { SplitOnStep(t, Whitespace); }
      [t[..i]] + SplitOn(v, Whitespace);
      [t[..i]] + Words(v);
      { WordsSkipSpaces(u, n); assert u[n..] == v; }
      [t[..i]] + Words(u);
      { WordsStep(t); }
      Words(t);
    }
  }

  /** `Words` of a text that starts with a word. */
  lemma {:induction false} WordsStep(t: string)
    requires t != [] && !IsSpace(t[0])
    ensures Words(t) == [t[..FirstIn(t, Whitespace)]] + Words(t[FirstIn(t, Whitespace)..])
  {
  }

  /** One split of a trimmed text that still holds whitespace: the rest is trimmed too. */
  lemma {:induction false} SplitStep(t: string, i: nat, n: nat)
    requires t != [] && !IsSpace(t[|t| - 1])
    requires i == FirstIn(t, Whitespace) < |t| && n == SpanIn(t[i..], Whitespace)
    ensures 0 < n && i + n < |t|
    ensures !IsSpace(t[i + n]) && !IsSpace(t[i + n..][|t[i + n..]| - 1])
  {
    var u := t[i..];
    assert u[0] == t[i] && InClass(u[0], Whitespace);
    assert u[|u| - 1] == t[|t| - 1] && !InClass(u[|u| - 1], Whitespace);
    assert u[n] == t[i + n];
  }

  /** `SplitOn` of a text holding a separator: the first piece, then the rest
      after the separator run. */
  lemma {:induction false} SplitOnStep(s: string, k: CharClass)
    requires FirstIn(s, k) < |s|
    ensures SplitOn(s, k) == [s[..FirstIn(s, k)]] + SplitOn(s[FirstIn(s, k) + SpanIn(s[FirstIn(s, k)..], k)..], k)
  {
  }

  /** A text has no more words than characters. */
  lemma {:induction false} WordsAtMostLength(s: string)
    ensures |Words(s)| <= |s|
    decreases |s|
  {
    if s != [] {
      if IsSpace(s[0]) {
        WordsAtMostLength(s[1..]);
      } else {
        WordsAtMostLength(s[FirstIn(s, Whitespace)..]);
      }
    }
  }

  /** `s.trim().split(/\s+/)`: the words of `s`, or `[""]` when `s` is blank. */
  function JsSplitTrimmed(s: string): (pieces: seq<string>)
    ensures pieces == if Words(s) == [] then [""] else Words(s)
  {
    WordsOfTrim(s);
    WordsAllSpace(Trim(s));
    SplitTrimmed(Trim(s));
    SplitOn(Trim(s), Whitespace)
  }

  // -------------------------------------------------------- tag stripping

  /** Position of the first `c` in `s`. */
  function IndexOf(s: string, c: char): (r: Option<nat>)
    ensures r.Some? ==> r.value < |s| && s[r.value] == c && forall i :: 0 <= i < r.value ==> s[i] != c
    ensures r.None? ==> forall i :: 0 <= i < |s| ==> s[i] != c
  {
    if s == [] then None
    else if s[0] == c then Some(0)
    else match IndexOf(s[1..], c)
      case None => None
      case Some(i) => Some(i + 1)
  }

  /** `re.sub(r'<[^>]+>', '', s)` when `nonEmptyBody`, and
      `s.replace(/<[^>]*>/g, '')` otherwise: scanning from the left, a `<` and
      everything up to the next `>` is removed; with `nonEmptyBody`, `<>` is kept. */
  function StripTags(s: string, nonEmptyBody: bool): (r: string)
    decreases |s|
  {
    if s == [] then []
    else if s[0] == '<' then
      match IndexOf(s[1..], '>')
      case Some(k) =>
        if nonEmptyBody && k == 0 then ['<'] + StripTags(s[1..], nonEmptyBody)
        else StripTags(s[k + 2..], nonEmptyBody)
      case None => ['<'] + StripTags(s[1..], nonEmptyBody)
    else [s[0]] + StripTags(s[1..], nonEmptyBody)
  }

  lemma {:induction false} StripTagsChars(s: string, nonEmptyBody: bool)
    ensures forall c :: c in StripTags(s, nonEmptyBody) ==> c in s
    decreases |s|
  {
    if s != [] {
      StripTagsChars(s[1..], nonEmptyBody);
      if s[0] == '<' {
        match IndexOf(s[1..], '>')
        case Some(k) =>
          StripTagsChars(s[k + 2..], nonEmptyBody);
          assert forall c :: c in s[k + 2..] ==> c in s;
        case None =>
      }
    }
  }

  /** No tag is left in `r`: a `<` has no `>` anywhere after it, except that
      with `nonEmptyBody` an empty `<>` may remain. */
  predicate TagFree(r: string, nonEmptyBody: bool) {
    forall i, j :: 0 <= i < j < |r| && r[i] == '<' && r[j] == '>' ==> nonEmptyBody && r[i + 1] == '>'
  }

  lemma {:induction false} StripTagsRemovesTags(s: string, nonEmptyBody: bool)
    ensures TagFree(StripTags(s, nonEmptyBody), nonEmptyBody)
    decreases |s|
  {
    if s != [] {
      var r := StripTags(s, nonEmptyBody);
      var rest := StripTags(s[1..], nonEmptyBody);
      StripTagsRemovesTags(s[1..], nonEmptyBody);
      if s[0] == '<' {
        match IndexOf(s[1..], '>')
        case Some(k) =>
          if nonEmptyBody && k == 0 {
            assert s[1..][0] == '>';
            assert rest == ['>'] + StripTags(s[1..][1..], nonEmptyBody);
            assert r == ['<'] + rest;
            TagsShifted('<', rest, nonEmptyBody);
          } else {
            assert r == StripTags(s[k + 2..], nonEmptyBody);
            StripTagsRemovesTags(s[k + 2..], nonEmptyBody);
          }
        case None =>
          StripTagsChars(s[1..], nonEmptyBody);
          assert '>' !in s[1..];
          assert forall j :: 0 <= j < |rest| ==> rest[j] in rest && rest[j] != '>';
          assert r == ['<'] + rest;
          TagsShifted('<', rest, nonEmptyBody);
      } else {
        assert r == [s[0]] + rest;
        TagsShifted(s[0], rest, nonEmptyBody);
      }
    }
  }

  /** Prefixing a character that is not `<`, or a `<` with no `>` after it, or
      (with `nonEmptyBody`) a `<` directly followed by `>`, keeps a string tag free. */
  lemma TagsShifted(c: char, rest: string, nonEmptyBody: bool)
    requires TagFree(rest, nonEmptyBody)
    requires c != '<' || (forall j :: 0 <= j < |rest| ==> rest[j] != '>') || (nonEmptyBody && rest != [] && rest[0] == '>')
    ensures TagFree([c] + rest, nonEmptyBody)
  {
    var r := [c] + rest;
    forall i, j | 0 <= i < j < |r| && r[i] == '<' && r[j] == '>'
      ensures nonEmptyBody && r[i + 1] == '>'
    {
      assert r[j] == rest[j - 1];
      if i > 0 {
        assert r[i] == rest[i - 1];
      }
    }
  }

  /** Text without `<` has no tag and passes through unchanged. */
  lemma {:induction false} StripTagsNoTag(s: string, nonEmptyBody: bool)
    requires '<' !in s
    ensures StripTags(s, nonEmptyBody) == s
    decreases |s|
  {
    if s != [] {
      assert s[0] != '<';
      assert '<' !in s[1..];
      StripTagsNoTag(s[1..], nonEmptyBody);
    }
  }

  lemma {:induction false} StripTagsShorter(s: string, nonEmptyBody: bool)
    ensures |StripTags(s, nonEmptyBody)| <= |s|
    decreases |s|
  {
    if s != [] {
      StripTagsShorter(s[1..], nonEmptyBody);
      if s[0] == '<' {
        match IndexOf(s[1..], '>')
        case Some(k) => StripTagsShorter(s[k + 2..], nonEmptyBody);
        case None =>
      }
    }
  }

  /** Text before the first `<` passes through, and stripping goes on after it. */
  lemma {:induction false} StripTagsKeepsPrefix(a: string, t: string, nonEmptyBody: bool)
    requires '<' !in a
    ensures StripTags(a + t, nonEmptyBody) == a + StripTags(t, nonEmptyBody)
    decreases |a|
  {
    if a != [] {
      assert a[0] in a;
      assert (a + t)[0] == a[0] != '<';
      assert (a + t)[1..] == a[1..] + t;
      assert '<' !in a[1..];
      StripTagsKeepsPrefix(a[1..], t, nonEmptyBody);
      assert StripTags(a + t, nonEmptyBody) == [a[0]] + StripTags(a[1..] + t, nonEmptyBody);
      assert a == [a[0]] + a[1..];
    } else {
      assert a + t == t;
    }
  }

  /** The first `>` after a tag's `<` is the one that closes a body without `>`. */
  lemma TagClose(body: string, b: string)
    requires '>' !in body
    ensures IndexOf(body + ">" + b, '>') == Some(|body|)
  {
    var s := body + ">" + b;
    assert s[|body|] == '>';
    assert forall i :: 0 <= i < |body| ==> s[i] == body[i];
  }

  /** What stays: text outside a tag is kept, and the tag `<body>` alone is
      removed (with `nonEmptyBody`, only a tag whose body is not empty). */
  lemma StripTagsSkipsTag(a: string, body: string, b: string, nonEmptyBody: bool)
    requires '<' !in a && '>' !in body && (nonEmptyBody ==> body != [])
    ensures StripTags(a + "<" + body + ">" + b, nonEmptyBody) == a + StripTags(b, nonEmptyBody)
  {
    var t := "<" + body + ">" + b;
    assert a + "<" + body + ">" + b == a + t;
    StripTagsKeepsPrefix(a, t, nonEmptyBody);
    assert t[1..] == body + ">" + b;
    TagClose(body, b);
    assert t[|body| + 2..] == b;
  }

  // ------------------------------------------------------ case and search

  /** ASCII lower-casing of one character. */
  function LowerChar(c: char): char {
    if 'A' <= c <= 'Z' then (c as int + 32) as char else c
  }

  /** `s.lower()` / `s.toLowerCase()` on ASCII letters. */
  function Lower(s: string): (r: string)
    ensures |r| == |s|
    ensures forall i :: 0 <= i < |s| ==> r[i] == LowerChar(s[i])
  {
    seq(|s|, i requires 0 <= i < |s| => LowerChar(s[i]))
  }

  /** Python's substring test `t in s`. */
  predicate Contains(s: string, t: string)
    decreases |s|
  {
    t <= s || (s != [] && Contains(s[1..], t))
  }

  /** Python's `any(w in s for w in ts)`. */
  predicate ContainsAny(s: string, ts: seq<string>) {
    ts != [] && (Contains(s, ts[0]) || ContainsAny(s, ts[1..]))
  }

  // ------------------------------------------------------ decimal numerals

  predicate IsDigit(c: char) {
    '0' <= c <= '9'
  }

  predicate AllDigits(s: string) {
    forall i :: 0 <= i < |s| ==> IsDigit(s[i])
  }

  function DigitChar(d: nat): (c: char)
    requires d < 10
    ensures IsDigit(c) && c as int - '0' as int == d
  {
    ('0' as int + d) as char
  }

  /** The decimal numeral of `n`, as a template literal or an f-string prints it. */
  function NatToString(n: nat): (s: string)
    ensures s != [] && AllDigits(s)
    decreases n
  {
    if n < 10 then [DigitChar(n)] else NatToString(n / 10) + [DigitChar(n % 10)]
  }

  function ParseNat(s: string): nat
    requires AllDigits(s)
  {
    if s == [] then 0 else 10 * ParseNat(s[..|s| - 1]) + (s[|s| - 1] as int - '0' as int)
  }

  lemma {:induction false} ParseNatToString(n: nat)
    ensures ParseNat(NatToString(n)) == n
    decreases n
  {
    if n >= 10 {
      var s := NatToString(n);
      ParseNatToString(n / 10);
      assert s[..|s| - 1] == NatToString(n / 10);
    }
  }

  /** The decimal numeral of an integer, with a leading `-` when it is negative. */
  function IntToString(i: int): (s: string)
    ensures s != [] && forall k :: 0 <= k < |s| ==> IsDigit(s[k]) || s[k] == '-'
  {
    if i < 0 then "-" + NatToString(-i) else NatToString(i)
  }

  function ParseInt(s: string): Option<int> {
    if s != [] && s[0] == '-' && s[1..] != [] && AllDigits(s[1..]) then Some(-(ParseNat(s[1..]) as int))
    else if s != [] && AllDigits(s) then Some(ParseNat(s))
    else None
  }

  lemma ParseIntToString(i: int)
    ensures ParseInt(IntToString(i)) == Some(i)
  {
    if i < 0 {
      var s := IntToString(i);
      assert s[1..] == NatToString(-i);
      ParseNatToString(-i);
    } else {
      var s := NatToString(i);
      assert !IsDigit('-');
      assert s[0] != '-';
      ParseNatToString(i);
    }
  }
}
