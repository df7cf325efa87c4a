/** The document text analytics service: HTML cleaning, chunking, keyword
    ranking of chunks, rule-based answers, three-sentence summaries, the word
    frequency table of the analysis route, and the input guards of the routes. */
module RagService {
  import opened Wrappers
  import opened Text
  import opened Ranking

  const DefaultChunkSize: int := 500
  const DefaultTopK: nat := 3
  const TopWordCount: nat := 10
  /** Sentences of at most this many characters are left out of a summary. */
  const MinSummarySentence: nat := 20

  const NotEnoughContext := "I don't have enough context from the document to answer that question."
  const TooShortToSummarize := "The document appears to be empty or too short to summarize."
  const MissingContentOrQuestion := "Missing content or question"
  const MissingDocumentContent := "Missing document content"

  // ------------------------------------------------------------ clean_html

  /** `clean_html`: drop the tags, turn every whitespace run into one space, strip. */
  function CleanHtml(html: string): string {
    Trim(Collapse(StripTags(html, true)))
  }

  /** The cleaned text is the words of the tag-free text joined by single spaces:
      no whitespace at either end and every whitespace run a single space. */
  lemma CleanHtmlIsWords(html: string)
    ensures Normalized(CleanHtml(html))
    ensures CleanHtml(html) == Unwords(Words(StripTags(html, true)))
    ensures Words(CleanHtml(html)) == Words(StripTags(html, true))
  {
    NormalizeIsUnwords(StripTags(html, true));
    WordsOfTrim(Collapse(StripTags(html, true)));
    WordsOfCollapse(StripTags(html, true));
  }

  // ------------------------------------------------------------ chunk_text

  /** Σ (len(w) + 1) over a run of words: the value of `current_length`. */
  function Weight(ws: seq<string>): nat {
    if ws == [] then 0 else Weight(ws[..|ws| - 1]) + |ws[|ws| - 1]| + 1
  }

  /** The greedy grouping of `chunk_text`: `current` is the run collected so far;
      a run is closed as soon as its weight reaches `size`. */
  function Group(ws: seq<string>, current: seq<string>, size: int): seq<seq<string>>
    decreases |ws|
  {
    if ws == [] then (if current == [] then [] else [current])
    else
      var run := current + [ws[0]];
      if Weight(run) >= size then [run] + Group(ws[1..], [], size)
      else Group(ws[1..], run, size)
  }

  function ChunkGroups(text: string, size: int): seq<seq<string>> {
    Group(Words(text), [], size)
  }

  function Joined(gs: seq<seq<string>>): (cs: seq<string>)
    ensures |cs| == |gs|
    ensures forall i :: 0 <= i < |gs| ==> cs[i] == Unwords(gs[i])
  {
    seq(|gs|, i requires 0 <= i < |gs| => Unwords(gs[i]))
  }

  /** The value `chunk_text(text, size)` returns. */
  function Chunks(text: string, size: int): seq<string> {
    Joined(ChunkGroups(text, size))
  }

  function Flatten(gs: seq<seq<string>>): seq<string> {
    if gs == [] then [] else gs[0] + Flatten(gs[1..])
  }

  /** The words of each chunk, one after the other. */
  function WordsOfAll(cs: seq<string>): seq<string> {
    if cs == [] then [] else Words(cs[0]) + WordsOfAll(cs[1..])
  }

  /** `chunk_text`: the loop of the source, proved to build `Chunks(text, chunkSize)`. */
  method ChunkText(text: string, chunkSize: int) returns (chunks: seq<string>)
    ensures chunks == Chunks(text, chunkSize)
  {
    var words := Words(text);
    chunks := [];
    var currentChunk: seq<string> := [];
    var currentLength := 0;
    for i := 0 to |words|
      invariant currentLength == Weight(currentChunk)
      invariant chunks + Joined(Group(words[i..], currentChunk, chunkSize)) == Chunks(text, chunkSize)
    {
      assert words[i..][1..] == words[i + 1..];
      ghost var before := Group(words[i..], currentChunk, chunkSize);
      currentChunk := currentChunk + [words[i]];
      assert currentChunk[..|currentChunk| - 1] == currentChunk[..|currentChunk| - 1];
      currentLength := currentLength + |words[i]| + 1;
      if currentLength >= chunkSize {
        assert before == [currentChunk] + Group(words[i + 1..], [], chunkSize);
        assert Joined(before) == [Unwords(currentChunk)] + Joined(Group(words[i + 1..], [], chunkSize));
        chunks := chunks + [Unwords(currentChunk)];
        currentChunk := [];
        currentLength := 0;
      }
    }
    if currentChunk != [] {
      chunks := chunks + [Unwords(currentChunk)];
    }
  }

  lemma {:induction false} WeightPrefix(ws: seq<string>, k: nat)
    requires k <= |ws|
    ensures Weight(ws[..k]) <= Weight(ws)
    decreases |ws|
  {
    if k < |ws| {
      assert ws[..|ws| - 1][..k] == ws[..k];
      WeightPrefix(ws[..|ws| - 1], k);
    } else {
      assert ws[..k] == ws;
    }
  }

  lemma FlattenCons(g: seq<string>, gs: seq<seq<string>>)
    ensures Flatten([g] + gs) == g + Flatten(gs)
  {
    assert ([g] + gs)[1..] == gs;
  }

  lemma {:induction false} GroupFlatten(ws: seq<string>, current: seq<string>, size: int)
    ensures Flatten(Group(ws, current, size)) == current + ws
    decreases |ws|
  {
    if ws == [] {
      if current != [] {
        FlattenCons(current, []);
      }
    } else {
      var run := current + [ws[0]];
      assert current + ws == run + ws[1..];
      if Weight(run) >= size {
        GroupFlatten(ws[1..], [], size);
        FlattenCons(run, Group(ws[1..], [], size));
        assert [] + ws[1..] == ws[1..];
      } else {
        GroupFlatten(ws[1..], run, size);
      }
    }
  }

  /** Every run is non-empty and made of words. */
  predicate RunsOfWords(gs: seq<seq<string>>) {
    forall i :: 0 <= i < |gs| ==> gs[i] != [] && forall j :: 0 <= j < |gs[i]| ==> IsWord(gs[i][j])
  }

  lemma RunsOfWordsCons(g: seq<string>, gs: seq<seq<string>>)
    requires g != [] && forall j :: 0 <= j < |g| ==> IsWord(g[j])
    requires RunsOfWords(gs)
    ensures RunsOfWords([g] + gs)
  {
    forall i | 0 <= i < |[g] + gs|
      ensures ([g] + gs)[i] != [] && forall j :: 0 <= j < |([g] + gs)[i]| ==> IsWord(([g] + gs)[i][j])
    {
      if i > 0 {
        assert ([g] + gs)[i] == gs[i - 1];
      }
    }
  }

  lemma {:induction false} GroupShape(ws: seq<string>, current: seq<string>, size: int)
    requires forall i :: 0 <= i < |ws| ==> IsWord(ws[i])
    requires forall i :: 0 <= i < |current| ==> IsWord(current[i])
    ensures RunsOfWords(Group(ws, current, size))
    decreases |ws|
  {
    if ws == [] {
      if current != [] {
        RunsOfWordsCons(current, []);
      }
    } else {
      var run := current + [ws[0]];
      assert forall j :: 0 <= j < |run| ==> IsWord(run[j]);
      if Weight(run) >= size {
        GroupShape(ws[1..], [], size);
        RunsOfWordsCons(run, Group(ws[1..], [], size));
      } else {
        GroupShape(ws[1..], run, size);
      }
    }
  }

  /** Extending a run that is still below the size: all its proper prefixes stay below. */
  lemma RunPrefixes(current: seq<string>, w: string, size: int)
    requires current == [] || Weight(current) < size
    ensures var run := current + [w];
      forall k :: 1 <= k < |run| ==> Weight(run[..k]) < size
  {
    var run := current + [w];
    forall k | 1 <= k < |run| ensures Weight(run[..k]) < size {
      assert run[..k] == current[..k];
      WeightPrefix(current, k);
    }
  }

  /** Every run but the last reached `size`, and no proper prefix of a run did. */
  predicate ClosedAtSize(gs: seq<seq<string>>, size: int) {
    && (forall i :: 0 <= i < |gs| - 1 ==> Weight(gs[i]) >= size)
    && (forall i, k :: 0 <= i < |gs| && 1 <= k < |gs[i]| ==> Weight(gs[i][..k]) < size)
  }

  lemma ClosedAtSizeCons(g: seq<string>, gs: seq<seq<string>>, size: int)
    requires gs != [] ==> Weight(g) >= size
    requires forall k :: 1 <= k < |g| ==> Weight(g[..k]) < size
    requires ClosedAtSize(gs, size)
    ensures ClosedAtSize([g] + gs, size)
  {
    var all := [g] + gs;
    forall i | 0 <= i < |all| - 1 ensures Weight(all[i]) >= size {
      if i > 0 {
        assert all[i] == gs[i - 1];
      }
    }
    forall i, k | 0 <= i < |all| && 1 <= k < |all[i]| ensures Weight(all[i][..k]) < size {
      if i > 0 {
        assert all[i] == gs[i - 1];
      }
    }
  }

  lemma {:induction false} GroupWeights(ws: seq<string>, current: seq<string>, size: int)
    requires current == [] || Weight(current) < size
    ensures ClosedAtSize(Group(ws, current, size), size)
    decreases |ws|
  {
    if ws == [] {
      if current != [] {
        forall k | 1 <= k < |current| ensures Weight(current[..k]) < size {
          WeightPrefix(current, k);
        }
        ClosedAtSizeCons(current, [], size);
      }
    } else {
      var run := current + [ws[0]];
      RunPrefixes(current, ws[0], size);
      if Weight(run) >= size {
        GroupWeights(ws[1..], [], size);
        ClosedAtSizeCons(run, Group(ws[1..], [], size), size);
      } else {
        GroupWeights(ws[1..], run, size);
      }
    }
  }

  lemma {:induction false} WordsOfJoined(gs: seq<seq<string>>)
    requires forall i :: 0 <= i < |gs| ==> forall j :: 0 <= j < |gs[i]| ==> IsWord(gs[i][j])
    ensures WordsOfAll(Joined(gs)) == Flatten(gs)
    ensures forall i :: 0 <= i < |gs| ==> Words(Joined(gs)[i]) == gs[i]
  {
    forall i | 0 <= i < |gs| ensures Words(Joined(gs)[i]) == gs[i] {
      WordsOfUnwords(gs[i]);
    }
    if gs != [] {
      WordsOfJoined(gs[1..]);
      assert Joined(gs)[1..] == Joined(gs[1..]);
    }
  }

  /** What `chunk_text` promises: the chunks hold exactly the words of the text in
      order, none is empty, every chunk but the last reached the size, and every
      chunk was closed at the first word that made it reach the size. */
  lemma ChunksPartitionWords(text: string, size: int)
    ensures var cs := Chunks(text, size);
      && WordsOfAll(cs) == Words(text)
      && (forall i :: 0 <= i < |cs| ==> cs[i] != "")
      && (forall i :: 0 <= i < |cs| - 1 ==> Weight(Words(cs[i])) >= size)
      && (forall i, k :: 0 <= i < |cs| && 1 <= k < |Words(cs[i])| ==> Weight(Words(cs[i])[..k]) < size)
  {
    var gs := ChunkGroups(text, size);
    GroupFlatten(Words(text), [], size);
    GroupShape(Words(text), [], size);
    GroupWeights(Words(text), [], size);
    WordsOfJoined(gs);
    forall i | 0 <= i < |gs| ensures Joined(gs)[i] != "" {
      assert Words(Joined(gs)[i]) == gs[i];
    }
  }

  /** A text without words, the empty text among them, gives no chunk. */
  lemma ChunksOfBlank(text: string, size: int)
    requires IsBlank(text)
    ensures Chunks(text, size) == []
  {
    WordsAllSpace(text);
  }

  // ------------------------------------------------- find_relevant_context

  function WordSet(s: string): set<string> {
    set w | w in Words(s)
  }

  /** `set(query.lower().split())`. */
  function QueryWords(query: string): set<string> {
    WordSet(Lower(query))
  }

  /** The number of distinct query words among the distinct words of the chunk. */
  function Score(queryWords: set<string>, chunk: string): nat {
    |queryWords * WordSet(Lower(chunk))|
  }

  /** `scored_chunks` before the sort: one `(score, chunk)` per chunk, in chunk order. */
  function Scored(chunks: seq<string>, queryWords: set<string>): (es: seq<Entry>)
    ensures |es| == |chunks|
    ensures forall i :: 0 <= i < |chunks| ==> es[i] == Entry(Score(queryWords, chunks[i]), chunks[i])
  {
    seq(|chunks|, i requires 0 <= i < |chunks| => Entry(Score(queryWords, chunks[i]), chunks[i]))
  }

  /** Scoring one more chunk appends its entry. */
  lemma ScoredAppend(cs: seq<string>, c: string, queryWords: set<string>)
    ensures Scored(cs + [c], queryWords) == Scored(cs, queryWords) + [Entry(Score(queryWords, c), c)]
  {
    assert (cs + [c])[|cs|] == c;
  }

  /** `[chunk for score, chunk in entries if score > 0]`. */
  function PositiveItems(es: seq<Entry>): seq<string> {
    if es == [] then []
    else (if es[0].key > 0 then [es[0].item] else []) + PositiveItems(es[1..])
  }

  /** The value `find_relevant_context(text, query, top_k)` returns. */
  function RelevantContext(text: string, query: string, topK: nat): seq<string> {
    Ranked(Chunks(text, DefaultChunkSize), QueryWords(query), topK)
  }

  /** `find_relevant_context`: the scoring loop, the stable sort and the filter. */
  method FindRelevantContext(text: string, query: string, topK: nat) returns (context: seq<string>)
    ensures context == RelevantContext(text, query, topK)
  {
    var chunks := ChunkText(text, DefaultChunkSize);
    var queryWords := QueryWords(query);
    var scoredChunks: seq<Entry> := [];
    for i := 0 to |chunks|
      invariant scoredChunks == Scored(chunks[..i], queryWords)
    {
      var chunkWords := WordSet(Lower(chunks[i]));
      var score := |queryWords * chunkWords|;
      assert chunks[..i + 1] == chunks[..i] + [chunks[i]];
      ScoredAppend(chunks[..i], chunks[i], queryWords);
      scoredChunks := scoredChunks + [Entry(score, chunks[i])];
    }
    assert chunks[..|chunks|] == chunks;
    scoredChunks := SortDesc(scoredChunks);
    context := PositiveItems(Take(scoredChunks, topK));
  }

  /** Every entry carries the score of its chunk. */
  predicate ScoresMatch(es: seq<Entry>, queryWords: set<string>) {
    forall i :: 0 <= i < |es| ==> es[i].key == Score(queryWords, es[i].item)
  }

  /** The chunks of `cs` whose score is `k`, in their order in `cs`. */
  function ChunksWithScore(cs: seq<string>, queryWords: set<string>, k: nat): seq<string> {
    if cs == [] then []
    else (if Score(queryWords, cs[0]) == k then [cs[0]] else []) + ChunksWithScore(cs[1..], queryWords, k)
  }

  function Items(es: seq<Entry>): (r: seq<string>)
    ensures |r| == |es|
    ensures forall i :: 0 <= i < |es| ==> r[i] == es[i].item
  {
    if es == [] then [] else [es[0].item] + Items(es[1..])
  }

  lemma ItemsCons(e: Entry, es: seq<Entry>)
    ensures Items([e] + es) == [e.item] + Items(es)
  {
    assert ([e] + es)[1..] == es;
  }

  /** After a descending sort the chunks of positive score are a prefix: keeping
      the positive ones is taking the first `CountPositive(es)` entries. */
  lemma {:induction false} PositiveItemsArePrefix(es: seq<Entry>)
    requires SortedDesc(es)
    ensures CountPositive(es) <= |es|
    ensures PositiveItems(es) == Items(es[..CountPositive(es)])
    ensures forall i :: 0 <= i < CountPositive(es) ==> es[i].key > 0
  {
    CountPositiveAtMostLength(es);
    if es != [] {
      if es[0].key > 0 {
        PositiveItemsArePrefix(es[1..]);
        var c := CountPositive(es[1..]);
        assert es[..c + 1] == [es[0]] + es[1..][..c];
        assert Items([es[0]] + es[1..][..c]) == [es[0].item] + Items(es[1..][..c]);
      } else {
        SortedZero(es);
        PositiveItemsNone(es);
      }
    }
  }

  lemma {:induction false} PositiveItemsNone(es: seq<Entry>)
    requires forall i :: 0 <= i < |es| ==> es[i].key == 0
    ensures PositiveItems(es) == []
  {
    if es != [] {
      PositiveItemsNone(es[1..]);
    }
  }

  /** Filtering the entries of a scored sequence by key is filtering its chunks by score. */
  lemma {:induction false} WithKeyIsChunksWithScore(es: seq<Entry>, queryWords: set<string>, k: nat)
    requires ScoresMatch(es, queryWords)
    ensures Items(WithKey(es, k)) == ChunksWithScore(Items(es), queryWords, k)
  {
    if es != [] {
      var rest := WithKey(es[1..], k);
      WithKeyIsChunksWithScore(es[1..], queryWords, k);
      assert Items(es)[1..] == Items(es[1..]);
      if es[0].key == k {
        assert WithKey(es, k) == [es[0]] + rest;
        ItemsCons(es[0], rest);
      } else {
        assert WithKey(es, k) == rest;
      }
    }
  }

  lemma ItemsPrefix(p: seq<Entry>, s: seq<Entry>)
    requires p <= s
    ensures Items(p) <= Items(s)
  {
  }

  /** A permutation of scored chunks keeps their scores, and its chunks are among theirs. */
  lemma SortedMembers(es: seq<Entry>, sorted: seq<Entry>, qw: set<string>)
    requires ScoresMatch(es, qw) && multiset(sorted) == multiset(es)
    ensures ScoresMatch(sorted, qw)
    ensures forall i :: 0 <= i < |sorted| ==> sorted[i].item in Items(es)
  {
    forall i | 0 <= i < |sorted|
      ensures sorted[i].key == Score(qw, sorted[i].item) && sorted[i].item in Items(es)
    {
      assert sorted[i] in multiset(sorted);
      var m :| 0 <= m < |es| && es[m] == sorted[i];
      assert Items(es)[m] == sorted[i].item;
    }
  }

  /** The chunks of a prefix of positive entries of a sorted, scored ranking. */
  lemma RankedPrefix(p: seq<Entry>, sorted: seq<Entry>, qw: set<string>, chunks: seq<string>)
    requires p <= sorted && SortedDesc(sorted) && ScoresMatch(sorted, qw)
    requires forall i :: 0 <= i < |sorted| ==> sorted[i].item in chunks
    requires forall i :: 0 <= i < |p| ==> p[i].key > 0
    ensures var r := Items(p);
      && (forall i :: 0 <= i < |r| ==> r[i] in chunks && Score(qw, r[i]) > 0)
      && (forall i, j :: 0 <= i < j < |r| ==> Score(qw, r[i]) >= Score(qw, r[j]))
  {
    assert forall i :: 0 <= i < |p| ==> p[i] == sorted[i];
  }

  /** The ranking of `find_relevant_context` over given chunks and query words. */
  function Ranked(chunks: seq<string>, qw: set<string>, topK: nat): seq<string> {
    PositiveItems(Take(SortDesc(Scored(chunks, qw)), topK))
  }

  /** As many chunks as have a positive score, up to `topK`. */
  lemma RankedCount(chunks: seq<string>, qw: set<string>, topK: nat)
    ensures |Ranked(chunks, qw, topK)| ==
      (if topK <= CountPositive(Scored(chunks, qw)) then topK else CountPositive(Scored(chunks, qw)))
  {
    var es := Scored(chunks, qw);
    var top := Take(SortDesc(es), topK);
    PositiveItemsArePrefix(top);
    TakePositive(SortDesc(es), topK);
    SortDescKeeps(es);
  }

  /** Chunks of the text with positive scores, best first. */
  lemma RankedOrder(chunks: seq<string>, qw: set<string>, topK: nat)
    ensures var r := Ranked(chunks, qw, topK);
      && (forall i :: 0 <= i < |r| ==> r[i] in chunks && Score(qw, r[i]) > 0)
      && (forall i, j :: 0 <= i < j < |r| ==> Score(qw, r[i]) >= Score(qw, r[j]))
  {
    var es := Scored(chunks, qw);
    assert Items(es) == chunks;
    var sorted := SortDesc(es);
    var top := Take(sorted, topK);
    SortedMembers(es, sorted, qw);
    PositiveItemsArePrefix(top);
    var p := top[..CountPositive(top)];
    assert p <= sorted;
    RankedPrefix(p, sorted, qw, chunks);
  }

  /** A chunk whose positive-scored entry is among the first `topK` is returned. */
  lemma TakenPositiveReturned(top: seq<Entry>, m: nat)
    requires SortedDesc(top) && m < |top| && top[m].key > 0
    ensures top[m].item in PositiveItems(top)
  {
    PositiveItemsArePrefix(top);
    PositivesFirst(top);
    assert Items(top[..CountPositive(top)])[m] == top[m].item;
  }

  /** The entry of a chunk of the text, with its score, is among the scored entries. */
  lemma ScoredEntry(chunks: seq<string>, qw: set<string>, c: string)
    requires c in chunks
    ensures Entry(Score(qw, c), c) in Scored(chunks, qw)
  {
    var j :| 0 <= j < |chunks| && chunks[j] == c;
    assert Scored(chunks, qw)[j] == Entry(Score(qw, c), c);
  }

  /** The `i`-th chunk returned is the item of the `i`-th entry of the ranking, with its score. */
  lemma RankedEntry(chunks: seq<string>, qw: set<string>, topK: nat, i: nat)
    requires i < |Ranked(chunks, qw, topK)|
    ensures var top := Take(SortDesc(Scored(chunks, qw)), topK);
      i < |top| && top[i].item == Ranked(chunks, qw, topK)[i] && top[i].key == Score(qw, top[i].item)
  {
    var es := Scored(chunks, qw);
    var sorted := SortDesc(es);
    var top := Take(sorted, topK);
    SortedMembers(es, sorted, qw);
    PositiveItemsArePrefix(top);
    assert top[i] == sorted[i];
  }

  /** A chunk that outscores the `i`-th chunk returned is returned too. */
  lemma RankedTopHigher(chunks: seq<string>, qw: set<string>, topK: nat, i: nat, c: string)
    requires i < |Ranked(chunks, qw, topK)| && c in chunks
    requires Score(qw, c) > Score(qw, Ranked(chunks, qw, topK)[i])
    ensures c in Ranked(chunks, qw, topK)
  {
    var es := Scored(chunks, qw);
    var sorted := SortDesc(es);
    var top := Take(sorted, topK);
    var e := Entry(Score(qw, c), c);
    ScoredEntry(chunks, qw, c);
    RankedEntry(chunks, qw, topK, i);
    TopOfSort(es, topK);
    assert e in top;
    var m :| 0 <= m < |top| && top[m] == e;
    assert top[m] == sorted[m];
    TakenPositiveReturned(top, m);
  }

  /** When fewer than `topK` chunks are returned, no chunk with a positive score is missing. */
  lemma RankedTopShort(chunks: seq<string>, qw: set<string>, topK: nat, c: string)
    requires |Ranked(chunks, qw, topK)| < topK && c in chunks && Score(qw, c) > 0
    ensures c in Ranked(chunks, qw, topK)
  {
    var es := Scored(chunks, qw);
    var sorted := SortDesc(es);
    var top := Take(sorted, topK);
    var e := Entry(Score(qw, c), c);
    ScoredEntry(chunks, qw, c);
    PositiveItemsArePrefix(top);
    PositivesFirst(top);
    TopOfSort(es, topK);
    var m :| 0 <= m < |top| && top[m] == e;
    TakenPositiveReturned(top, m);
  }

  /** The chunks returned are the best ones: a chunk of the text that scores
      higher than some chunk returned is returned too, and when fewer than `topK`
      come back, every chunk with a positive score is among them. */
  lemma RankedTop(chunks: seq<string>, qw: set<string>, topK: nat)
    ensures var r := Ranked(chunks, qw, topK);
      && (forall i, c :: 0 <= i < |r| && c in chunks && Score(qw, c) > Score(qw, r[i]) ==> c in r)
      && (|r| < topK ==> forall c :: c in chunks && Score(qw, c) > 0 ==> c in r)
  {
    var r := Ranked(chunks, qw, topK);
    forall i, c | 0 <= i < |r| && c in chunks && Score(qw, c) > Score(qw, r[i]) ensures c in r {
      RankedTopHigher(chunks, qw, topK, i, c);
    }
    if |r| < topK {
      forall c | c in chunks && Score(qw, c) > 0 ensures c in r {
        RankedTopShort(chunks, qw, topK, c);
      }
    }
  }

  /** Chunks of one positive score appear in their order in the text. */
  lemma RankedStable(chunks: seq<string>, qw: set<string>, topK: nat, k: nat)
    requires k > 0
    ensures ChunksWithScore(Ranked(chunks, qw, topK), qw, k) <= ChunksWithScore(chunks, qw, k)
  {
    var es := Scored(chunks, qw);
    assert Items(es) == chunks;
    var sorted := SortDesc(es);
    var top := Take(sorted, topK);
    SortedMembers(es, sorted, qw);
    PositiveItemsArePrefix(top);
    var p := top[..CountPositive(top)];
    assert p <= sorted;
    assert ScoresMatch(p, qw) by {
      assert forall i :: 0 <= i < |p| ==> p[i] == sorted[i];
    }
    PrefixKeeps(p, sorted);
    ItemsPrefix(WithKey(p, k), WithKey(sorted, k));
    SortDescKeeps(es);
    WithKeyIsChunksWithScore(p, qw, k);
    WithKeyIsChunksWithScore(es, qw, k);
  }

  /** What `find_relevant_context` promises: at most `top_k` chunks of the text,
      each with a positive score, in non-increasing score order; as many as there
      are chunks with a positive score, up to `top_k`; no chunk left out scores
      higher than one returned; and chunks with the same score in their order in
      the text (the sort is stable). */
  lemma RelevantContextFacts(text: string, query: string, topK: nat)
    ensures var r := RelevantContext(text, query, topK);
      var chunks := Chunks(text, DefaultChunkSize);
      var qw := QueryWords(query);
      && |r| <= topK
      && |r| == (if topK <= CountPositive(Scored(chunks, qw)) then topK else CountPositive(Scored(chunks, qw)))
      && (forall i :: 0 <= i < |r| ==> r[i] in chunks && Score(qw, r[i]) > 0)
      && (forall i, j :: 0 <= i < j < |r| ==> Score(qw, r[i]) >= Score(qw, r[j]))
      && (forall i, c :: 0 <= i < |r| && c in chunks && Score(qw, c) > Score(qw, r[i]) ==> c in r)
      && (|r| < topK ==> forall c :: c in chunks && Score(qw, c) > 0 ==> c in r)
      && (forall k: nat :: k > 0 ==> ChunksWithScore(r, qw, k) <= ChunksWithScore(chunks, qw, k))
  {
    var chunks := Chunks(text, DefaultChunkSize);
    var qw := QueryWords(query);
    assert RelevantContext(text, query, topK) == Ranked(chunks, qw, topK);
    RankedCount(chunks, qw, topK);
    RankedOrder(chunks, qw, topK);
    RankedTop(chunks, qw, topK);
    forall k: nat | k > 0 ensures ChunksWithScore(Ranked(chunks, qw, topK), qw, k) <= ChunksWithScore(chunks, qw, k) {
      RankedStable(chunks, qw, topK, k);
    }
  }

  // ------------------------------------------------------- summarize_text

  /** A piece that, once stripped, is long enough for a summary. */
  predicate LongPiece(piece: string) {
    |Trim(piece)| > MinSummarySentence
  }

  /** The stripped sentences of `text` that are longer than 20 characters. */
  function KeptSentences(pieces: seq<string>): (ss: seq<string>)
    ensures |ss| <= |pieces|
    ensures forall i :: 0 <= i < |ss| ==> |ss[i]| > MinSummarySentence
  {
    if pieces == [] then []
    else (if LongPiece(pieces[0]) then [Trim(pieces[0])] else []) + KeptSentences(pieces[1..])
  }

  /** Every long piece is kept, stripped. */
  lemma {:induction false} KeptLong(pieces: seq<string>)
    ensures forall j :: 0 <= j < |pieces| && LongPiece(pieces[j]) ==> Trim(pieces[j]) in KeptSentences(pieces)
  {
    if pieces != [] {
      var tail := pieces[1..];
      KeptLong(tail);
      var rest := KeptSentences(tail);
      var head := if LongPiece(pieces[0]) then [Trim(pieces[0])] else [];
      assert KeptSentences(pieces) == head + rest;
      forall j | 0 <= j < |pieces| && LongPiece(pieces[j]) ensures Trim(pieces[j]) in head + rest {
        if j == 0 {
          assert (head + rest)[0] == Trim(pieces[0]);
        } else {
          assert pieces[j] == tail[j - 1];
          var m :| 0 <= m < |rest| && rest[m] == Trim(tail[j - 1]);
          assert (head + rest)[|head| + m] == rest[m];
        }
      }
    }
  }

  /** Nothing but a long piece, stripped, is kept. */
  lemma {:induction false} KeptFrom(pieces: seq<string>)
    ensures forall x :: x in KeptSentences(pieces) ==>
      exists j :: 0 <= j < |pieces| && LongPiece(pieces[j]) && x == Trim(pieces[j])
  {
    if pieces != [] {
      var tail := pieces[1..];
      KeptFrom(tail);
      var rest := KeptSentences(tail);
      var head := if LongPiece(pieces[0]) then [Trim(pieces[0])] else [];
      assert KeptSentences(pieces) == head + rest;
      forall x | x in head + rest ensures exists j :: 0 <= j < |pieces| && LongPiece(pieces[j]) && x == Trim(pieces[j]) {
        if x in head {
          assert LongPiece(pieces[0]) && x == Trim(pieces[0]);
        } else {
          assert x in rest;
          var j :| 0 <= j < |tail| && LongPiece(tail[j]) && x == Trim(tail[j]);
          assert pieces[j + 1] == tail[j];
        }
      }
    }
  }

  /** The filter keeps exactly the long pieces: every long piece is kept, stripped,
      nothing else is, and none is kept exactly when no piece is long. */
  lemma KeptSentencesFacts(pieces: seq<string>)
    ensures var ss := KeptSentences(pieces);
      && (forall j :: 0 <= j < |pieces| && LongPiece(pieces[j]) ==> Trim(pieces[j]) in ss)
      && (forall x :: x in ss ==> exists j :: 0 <= j < |pieces| && LongPiece(pieces[j]) && x == Trim(pieces[j]))
      && (ss == [] <==> forall j :: 0 <= j < |pieces| ==> !LongPiece(pieces[j]))
  {
    KeptLong(pieces);
    KeptFrom(pieces);
    KeptNone(pieces);
  }

  /** No sentence is kept exactly when no piece is long. */
  lemma KeptNone(pieces: seq<string>)
    ensures KeptSentences(pieces) == [] <==> forall j :: 0 <= j < |pieces| ==> !LongPiece(pieces[j])
  {
    KeptLong(pieces);
    KeptFrom(pieces);
    var ss := KeptSentences(pieces);
    if ss != [] {
      assert ss[0] in ss;
    }
  }

  /** The sentences a summary is made of: all of them, or the first, the middle
      (`len // 2`) and the last. */
  function SummarySentences(ss: seq<string>): seq<string> {
    if |ss| <= 3 then ss
    else
      [ss[0]]
      + (if |ss| / 2 < |ss| then [ss[|ss| / 2]] else [])
      + (if |ss| > 1 then [ss[|ss| - 1]] else [])
  }

  /** `summarize_text`. */
  function SummarizeText(text: string): string {
    var ss := KeptSentences(SplitOn(text, SentenceEnd));
    if ss == [] then TooShortToSummarize
    else Unwords(SummarySentences(ss)) + "."
  }

  /** Three sentences or fewer are kept whole; of more, exactly the first, the
      middle and the last, at three distinct positions in increasing order. */
  lemma SummarySelection(ss: seq<string>)
    ensures |ss| <= 3 ==> SummarySentences(ss) == ss
    ensures |ss| > 3 ==>
      0 < |ss| / 2 < |ss| - 1 && SummarySentences(ss) == [ss[0], ss[|ss| / 2], ss[|ss| - 1]]
  {
  }

  /** What `summarize_text` promises: the fixed message when no piece of the split
      is longer than 20 characters once stripped, otherwise the chosen sentences
      joined by spaces, and always a final `.`. */
  lemma SummarizeTextFacts(text: string)
    ensures var s := SummarizeText(text);
      var pieces := SplitOn(text, SentenceEnd);
      var ss := KeptSentences(pieces);
      var none := forall j :: 0 <= j < |pieces| ==> !LongPiece(pieces[j]);
      && |s| > 0 && s[|s| - 1] == '.'
      && (none ==> s == TooShortToSummarize)
      && (!none ==> ss != [] && s == Unwords(SummarySentences(ss)) + ".")
  {
    var pieces := SplitOn(text, SentenceEnd);
    KeptNone(pieces);
    SummaryCases(text);
  }

  /** The two outcomes of `summarize_text`, by the sentences kept. */
  lemma SummaryCases(text: string)
    ensures var s := SummarizeText(text);
      var ss := KeptSentences(SplitOn(text, SentenceEnd));
      && |s| > 0 && s[|s| - 1] == '.'
      && (ss == [] ==> s == TooShortToSummarize)
      && (ss != [] ==> s == Unwords(SummarySentences(ss)) + ".")
  {
  }

  // -------------------------------------------------------- generate_answer

  const DefineWords: seq<string> := ["what", "define", "meaning"]
  const CountWords: seq<string> := ["how many", "count", "number"]
  const SummaryWords: seq<string> := ["summary", "summarize", "about"]

  /** `any(word in sentence.lower() for word in question_words)`. */
  predicate Mentions(sentence: string, questionWords: seq<string>) {
    ContainsAny(Lower(sentence), questionWords)
  }

  /** Sentence `j` is the first that mentions a question word. */
  predicate FirstMention(sentences: seq<string>, questionWords: seq<string>, j: int) {
    && 0 <= j < |sentences| && Mentions(sentences[j], questionWords)
    && forall i :: 0 <= i < j ==> !Mentions(sentences[i], questionWords)
  }

  /** `[s.strip() for s in sentences if any(w in s.lower() for w in question_words)]`. */
  function RelevantSentences(sentences: seq<string>, questionWords: seq<string>): (rs: seq<string>)
    ensures forall i :: 0 <= i < |rs| ==> exists j :: 0 <= j < |sentences| && rs[i] == Trim(sentences[j]) && Mentions(sentences[j], questionWords)
  {
    if sentences == [] then []
    else
      var rest := RelevantSentences(sentences[1..], questionWords);
      (if Mentions(sentences[0], questionWords) then [Trim(sentences[0])] else []) + rest
  }

  /** Every sentence that mentions a question word is kept. */
  lemma {:induction false} RelevantKeepsAll(sentences: seq<string>, questionWords: seq<string>)
    ensures forall j :: 0 <= j < |sentences| && Mentions(sentences[j], questionWords) ==>
      Trim(sentences[j]) in RelevantSentences(sentences, questionWords)
  {
    if sentences != [] {
      var tail := sentences[1..];
      RelevantKeepsAll(tail, questionWords);
      var rest := RelevantSentences(tail, questionWords);
      var head := if Mentions(sentences[0], questionWords) then [Trim(sentences[0])] else [];
      assert RelevantSentences(sentences, questionWords) == head + rest;
      forall j | 0 <= j < |sentences| && Mentions(sentences[j], questionWords)
        ensures Trim(sentences[j]) in head + rest
      {
        if j > 0 {
          assert sentences[j] == tail[j - 1];
          assert Trim(tail[j - 1]) in rest;
        }
      }
    }
  }

  /** The first sentence kept is the first that mentions a question word. */
  lemma {:induction false} RelevantFirst(sentences: seq<string>, questionWords: seq<string>, j: int)
    requires FirstMention(sentences, questionWords, j)
    ensures var rs := RelevantSentences(sentences, questionWords);
      rs != [] && rs[0] == Trim(sentences[j])
  {
    if !Mentions(sentences[0], questionWords) {
      var tail := sentences[1..];
      assert FirstMention(tail, questionWords, j - 1) by {
        assert forall i :: 0 <= i < j - 1 ==> tail[i] == sentences[i + 1];
      }
      RelevantFirst(tail, questionWords, j - 1);
    }
  }

  /** A sentence is kept only if some sentence mentions a question word, and then
      there is a first one. */
  lemma {:induction false} RelevantSomeFirst(sentences: seq<string>, questionWords: seq<string>)
    requires RelevantSentences(sentences, questionWords) != []
    ensures exists j :: FirstMention(sentences, questionWords, j)
  {
    if !Mentions(sentences[0], questionWords) {
      var tail := sentences[1..];
      RelevantSomeFirst(tail, questionWords);
      var j :| FirstMention(tail, questionWords, j);
      assert forall i :: 1 <= i < j + 1 ==> sentences[i] == tail[i - 1];
      assert FirstMention(sentences, questionWords, j + 1);
    } else {
      assert FirstMention(sentences, questionWords, 0);
    }
  }

  /** No sentence that mentions a question word is dropped: at most as many
      sentences as given, every mentioning one kept, one kept exactly when some
      sentence mentions a question word, and the first kept the first such. */
  lemma RelevantSentencesFacts(sentences: seq<string>, questionWords: seq<string>)
    ensures var rs := RelevantSentences(sentences, questionWords);
      && |rs| <= |sentences|
      && (forall j :: 0 <= j < |sentences| && Mentions(sentences[j], questionWords) ==> Trim(sentences[j]) in rs)
      && (rs != [] <==> exists j :: 0 <= j < |sentences| && Mentions(sentences[j], questionWords))
      && (rs != [] ==> exists j :: FirstMention(sentences, questionWords, j) && rs[0] == Trim(sentences[j]))
  {
    RelevantShorter(sentences, questionWords);
    RelevantKeepsAll(sentences, questionWords);
    var rs := RelevantSentences(sentences, questionWords);
    if rs != [] {
      RelevantSomeFirst(sentences, questionWords);
      var j :| FirstMention(sentences, questionWords, j);
      RelevantFirst(sentences, questionWords, j);
    }
  }

  lemma {:induction false} RelevantShorter(sentences: seq<string>, questionWords: seq<string>)
    ensures |RelevantSentences(sentences, questionWords)| <= |sentences|
  {
    if sentences != [] {
      RelevantShorter(sentences[1..], questionWords);
    }
  }

  function CountAnswer(n: nat): (s: string)
    ensures |s| > 0 && s[|s| - 1] == '.'
  {
    "Based on the relevant context, there are approximately " + NatToString(n) + " words in the related sections."
  }

  /** `generate_answer`: the rules are tried in their order in the source. */
  function GenerateAnswer(context: seq<string>, question: string): string {
    var combined := Unwords(context);
    if context == [] || IsBlank(combined) then NotEnoughContext
    else
      var questionLower := Lower(question);
      var relevant := RelevantSentences(SplitOn(combined, SentenceEnd), Words(question));
      if ContainsAny(questionLower, DefineWords) && relevant != [] then relevant[0] + "."
      else if ContainsAny(questionLower, CountWords) then CountAnswer(|Words(combined)|)
      else if ContainsAny(questionLower, SummaryWords) then SummarizeText(combined)
      // The split always yields a piece, so the `"Here's what I found: "`
      // fallback after this branch is never reached.
      else Trim(SplitOn(combined, SentenceEnd)[0]) + "."
  }

  /** Which rule of `generate_answer` answers: the fixed message for an empty or
      blank context; otherwise, for a definition question with a sentence of the
      context that mentions a word of the question, the first such sentence; the
      word count for a counting question, the summary for a summary question, and
      the first sentence for anything else. */
  lemma {:induction false} GenerateAnswerFacts(context: seq<string>, question: string)
    ensures var a := GenerateAnswer(context, question);
      var combined := Unwords(context);
      var ql := Lower(question);
      var sentences := SplitOn(combined, SentenceEnd);
      var blank := IsBlank(combined);
      var define := ContainsAny(ql, DefineWords) &&
        exists j :: 0 <= j < |sentences| && Mentions(sentences[j], Words(question));
      var count := ContainsAny(ql, CountWords);
      var summary := ContainsAny(ql, SummaryWords);
      && (blank ==> a == NotEnoughContext)
      && (!blank && define ==>
            exists j :: FirstMention(sentences, Words(question), j) && a == Trim(sentences[j]) + ".")
      && (!blank && !define && count ==> a == CountAnswer(|Words(combined)|))
      && (!blank && !define && !count && summary ==> a == SummarizeText(combined))
      && (!blank && !define && !count && !summary ==> a == Trim(sentences[0]) + ".")
  {
    var combined := Unwords(context);
    assert context == [] ==> IsBlank(combined);
    var sentences := SplitOn(combined, SentenceEnd);
    RelevantSentencesFacts(sentences, Words(question));
    if !IsBlank(combined) && ContainsAny(Lower(question), DefineWords) && RelevantSentences(sentences, Words(question)) != [] {
      GenerateAnswerDefine(context, question);
    }
  }

  /** A definition question over a context with a mentioning sentence is answered
      by the first such sentence. */
  lemma GenerateAnswerDefine(context: seq<string>, question: string)
    requires !IsBlank(Unwords(context)) && ContainsAny(Lower(question), DefineWords)
    requires RelevantSentences(SplitOn(Unwords(context), SentenceEnd), Words(question)) != []
    ensures var sentences := SplitOn(Unwords(context), SentenceEnd);
      exists j :: FirstMention(sentences, Words(question), j) && GenerateAnswer(context, question) == Trim(sentences[j]) + "."
  {
    var sentences := SplitOn(Unwords(context), SentenceEnd);
    var relevant := RelevantSentences(sentences, Words(question));
    RelevantSomeFirst(sentences, Words(question));
    var j :| FirstMention(sentences, Words(question), j);
    RelevantFirst(sentences, Words(question), j);
    assert context != [];
    assert GenerateAnswer(context, question) == relevant[0] + ".";
  }

  /** Every answer of `generate_answer` is a sentence ending with a `.`. */
  lemma {:induction false} GenerateAnswerPeriod(context: seq<string>, question: string)
    ensures var a := GenerateAnswer(context, question);
      |a| > 0 && a[|a| - 1] == '.'
  {
    var combined := Unwords(context);
    var a := GenerateAnswer(context, question);
    assert context == [] ==> IsBlank(combined);
    if context == [] || IsBlank(combined) {
      assert NotEnoughContext[|NotEnoughContext| - 1] == '.';
    } else if !ContainsAny(Lower(question), DefineWords) || RelevantSentences(SplitOn(combined, SentenceEnd), Words(question)) == [] {
      if !ContainsAny(Lower(question), CountWords) && ContainsAny(Lower(question), SummaryWords) {
        SummarizeTextFacts(combined);
      }
    }
  }

  // --------------------------------------------------- analyze_document

  /** `word.lower().strip('.,!?;:')`. */
  function NormalizeWord(w: string): string {
    TrimIn(Lower(w), WordPunctuation)
  }

  /** Only normalised words longer than three characters are counted. */
  predicate Counted(w: string) {
    |NormalizeWord(w)| > 3
  }

  /** The normalised forms of the counted words, in text order. */
  function CountedWords(ws: seq<string>): (cw: seq<string>)
    ensures |cw| <= |ws|
    ensures forall i :: 0 <= i < |cw| ==> |cw[i]| > 3
    decreases |ws|
  {
    if ws == [] then []
    else
      var prefix := CountedWords(ws[..|ws| - 1]);
      var w := ws[|ws| - 1];
      if Counted(w) then prefix + [NormalizeWord(w)] else prefix
  }

  /** The number of words of `ws` whose normalised form is `k`. */
  function Occurrences(ws: seq<string>, k: string): nat
    decreases |ws|
  {
    if ws == [] then 0
    else Occurrences(ws[..|ws| - 1], k) + (if NormalizeWord(ws[|ws| - 1]) == k then 1 else 0)
  }

  /** The counted words hold each normalised form longer than three characters as
      often as words of the text normalise to it, and no other string. */
  lemma {:induction false} CountedWordsCounts(ws: seq<string>)
    ensures forall k :: multiset(CountedWords(ws))[k] == if |k| > 3 then Occurrences(ws, k) else 0
    decreases |ws|
  {
    if ws != [] {
      var prev := ws[..|ws| - 1];
      var w := ws[|ws| - 1];
      CountedWordsCounts(prev);
      if Counted(w) {
        assert CountedWords(ws) == CountedWords(prev) + [NormalizeWord(w)];
        assert multiset(CountedWords(ws)) == multiset(CountedWords(prev)) + multiset{NormalizeWord(w)};
      } else {
        assert CountedWords(ws) == CountedWords(prev);
      }
    }
  }

  /** Every word of the text adds one to the occurrences of its normalised form. */
  lemma {:induction false} OccurrencesOfWord(ws: seq<string>, j: nat)
    requires j < |ws|
    ensures Occurrences(ws, NormalizeWord(ws[j])) >= 1
    decreases |ws|
  {
    if j < |ws| - 1 {
      var prev := ws[..|ws| - 1];
      assert prev[j] == ws[j];
      OccurrencesOfWord(prev, j);
    }
  }

  /** A word of the text that is counted contributes its normalised form. */
  lemma CountedWordsIn(ws: seq<string>)
    ensures forall j :: 0 <= j < |ws| && Counted(ws[j]) ==> NormalizeWord(ws[j]) in CountedWords(ws)
  {
    CountedWordsCounts(ws);
    forall j | 0 <= j < |ws| && Counted(ws[j]) ensures NormalizeWord(ws[j]) in CountedWords(ws) {
      OccurrencesOfWord(ws, j);
    }
  }

  /** Every counted entry is the normalised form of a counted word of the text. */
  lemma {:induction false} CountedWordsFrom(ws: seq<string>)
    ensures forall x :: x in CountedWords(ws) ==> exists j :: 0 <= j < |ws| && Counted(ws[j]) && x == NormalizeWord(ws[j])
    decreases |ws|
  {
    if ws != [] {
      var prev := ws[..|ws| - 1];
      var w := ws[|ws| - 1];
      CountedWordsFrom(prev);
      var cw := CountedWords(ws);
      var before := CountedWords(prev);
      forall x | x in cw ensures exists j :: 0 <= j < |ws| && Counted(ws[j]) && x == NormalizeWord(ws[j]) {
        if x in before {
          var j :| 0 <= j < |prev| && Counted(prev[j]) && x == NormalizeWord(prev[j]);
          assert ws[j] == prev[j];
        } else {
          assert Counted(w) && cw == before + [NormalizeWord(w)];
          assert x == NormalizeWord(ws[|ws| - 1]);
        }
      }
    }
  }

  /** A word of the text that is counted contributes its normalised form, and
      every counted entry is the normalised form of a counted word of the text. */
  lemma CountedWordsMembers(ws: seq<string>)
    ensures forall j :: 0 <= j < |ws| && Counted(ws[j]) ==> NormalizeWord(ws[j]) in CountedWords(ws)
    ensures forall x :: x in CountedWords(ws) ==> exists j :: 0 <= j < |ws| && Counted(ws[j]) && x == NormalizeWord(ws[j])
  {
    CountedWordsIn(ws);
    CountedWordsFrom(ws);
  }

  /** The dictionary `word_freq` once the words `cw` have been counted. */
  function Tally(cw: seq<string>): map<string, nat>
    decreases |cw|
  {
    if cw == [] then map[]
    else
      var m := Tally(cw[..|cw| - 1]);
      var k := cw[|cw| - 1];
      m[k := (if k in m then m[k] else 0) + 1]
  }

  /** The key order of `word_freq`: a dict keeps its keys in first-insertion order. */
  function FirstSeen(cw: seq<string>): seq<string>
    decreases |cw|
  {
    if cw == [] then []
    else
      var order := FirstSeen(cw[..|cw| - 1]);
      var k := cw[|cw| - 1];
      if k !in order then order + [k] else order
  }

  predicate Distinct(s: seq<string>) {
    forall i, j :: 0 <= i < j < |s| ==> s[i] != s[j]
  }

  /** The table counts each word exactly as often as it occurs. */
  lemma {:induction false} TallyCounts(cw: seq<string>)
    ensures forall k :: k in Tally(cw) <==> k in multiset(cw)
    ensures forall k :: k in Tally(cw) ==> Tally(cw)[k] == multiset(cw)[k] >= 1
    decreases |cw|
  {
    if cw != [] {
      var prev := cw[..|cw| - 1];
      TallyCounts(prev);
      assert cw == prev + [cw[|cw| - 1]];
      assert multiset(cw) == multiset(prev) + multiset{cw[|cw| - 1]};
    }
  }

  /** The key order lists every key of the table, each once. */
  lemma {:induction false} FirstSeenFacts(cw: seq<string>)
    ensures forall k :: k in FirstSeen(cw) <==> k in Tally(cw)
    ensures forall i :: 0 <= i < |FirstSeen(cw)| ==> FirstSeen(cw)[i] in Tally(cw)
    ensures Distinct(FirstSeen(cw))
    decreases |cw|
  {
    if cw != [] {
      FirstSeenFacts(cw[..|cw| - 1]);
    }
  }

  /** `word_freq.items()`, in key order. */
  function TableItems(order: seq<string>, m: map<string, nat>): seq<Entry>
    requires forall i :: 0 <= i < |order| ==> order[i] in m
  {
    if order == [] then [] else [Entry(m[order[0]], order[0])] + TableItems(order[1..], m)
  }

  lemma {:induction false} TableItemsAppend(order: seq<string>, k: string, m: map<string, nat>)
    requires forall i :: 0 <= i < |order| ==> order[i] in m
    requires k in m
    ensures TableItems(order + [k], m) == TableItems(order, m) + [Entry(m[k], k)]
  {
    if order != [] {
      assert (order + [k])[1..] == order[1..] + [k];
      TableItemsAppend(order[1..], k, m);
    } else {
      assert order + [k] == [k];
    }
  }

  lemma {:induction false} SumKeysAppend(s: seq<Entry>, e: Entry)
    ensures SumKeys(s + [e]) == SumKeys(s) + e.key
  {
    if s != [] {
      assert (s + [e])[1..] == s[1..] + [e];
      SumKeysAppend(s[1..], e);
    }
  }

  /** Adding one to the count of a key listed once adds one to the total. */
  lemma {:induction false} TableItemsBump(order: seq<string>, m: map<string, nat>, k: string)
    requires forall i :: 0 <= i < |order| ==> order[i] in m
    requires Distinct(order) && k in m
    ensures var m' := m[k := m[k] + 1];
      SumKeys(TableItems(order, m')) == SumKeys(TableItems(order, m)) + (if k in order then 1 else 0)
  {
    if order != [] {
      assert Distinct(order[1..]);
      TableItemsBump(order[1..], m, k);
      assert order[0] == k ==> k !in order[1..];
      assert k in order <==> order[0] == k || k in order[1..];
    }
  }

  lemma {:induction false} TableItemsFresh(order: seq<string>, m: map<string, nat>, k: string, v: nat)
    requires forall i :: 0 <= i < |order| ==> order[i] in m
    requires k !in order
    ensures TableItems(order, m[k := v]) == TableItems(order, m)
  {
    if order != [] {
      TableItemsFresh(order[1..], m, k, v);
    }
  }

  /** A new key adds its count of one at the end of the items. */
  lemma TableFresh(order: seq<string>, m: map<string, nat>, k: string)
    requires forall i :: 0 <= i < |order| ==> order[i] in m
    requires k !in order
    ensures forall i :: 0 <= i < |order + [k]| ==> (order + [k])[i] in m[k := 1]
    ensures SumKeys(TableItems(order + [k], m[k := 1])) == SumKeys(TableItems(order, m)) + 1
  {
    var m' := m[k := 1];
    TableItemsFresh(order, m, k, 1);
    TableItemsAppend(order, k, m');
    SumKeysAppend(TableItems(order, m'), Entry(1, k));
  }

  /** The counts in the table add up to the number of counted words. */
  lemma {:induction false} TallyTotal(cw: seq<string>)
    ensures forall i :: 0 <= i < |FirstSeen(cw)| ==> FirstSeen(cw)[i] in Tally(cw)
    ensures SumKeys(TableItems(FirstSeen(cw), Tally(cw))) == |cw|
    decreases |cw|
  {
    FirstSeenFacts(cw);
    if cw != [] {
      var prev := cw[..|cw| - 1];
      var k := cw[|cw| - 1];
      TallyTotal(prev);
      FirstSeenFacts(prev);
      var m := Tally(prev);
      var order := FirstSeen(prev);
      if k in order {
        TableItemsBump(order, m, k);
      } else {
        TableFresh(order, m, k);
      }
    }
  }

  /** The analysis loop `for word in words: ... word_freq[w] = word_freq.get(w, 0) + 1`,
      with the insertion order of the keys kept beside the dictionary. */
  method WordFrequency(words: seq<string>) returns (freq: map<string, nat>, order: seq<string>)
    ensures freq == Tally(CountedWords(words)) && order == FirstSeen(CountedWords(words))
  {
    freq := map[];
    order := [];
    for i := 0 to |words|
      invariant freq == Tally(CountedWords(words[..i])) && order == FirstSeen(CountedWords(words[..i]))
    {
      ghost var counted := CountedWords(words[..i]);
      var wordLower := NormalizeWord(words[i]);
      CountedWordsStep(words, i);
      if |wordLower| > 3 {
        assert CountedWords(words[..i + 1]) == counted + [wordLower];
        TallySnoc(counted, wordLower);
        if wordLower !in order {
          order := order + [wordLower];
        }
        freq := freq[wordLower := (if wordLower in freq then freq[wordLower] else 0) + 1];
        assert freq == Tally(counted + [wordLower]) && order == FirstSeen(counted + [wordLower]);
      } else {
        assert CountedWords(words[..i + 1]) == counted;
      }
    }
    assert words[..|words|] == words;
  }

  lemma {:induction false} CountedWordsStep(ws: seq<string>, i: nat)
    requires i < |ws|
    ensures CountedWords(ws[..i + 1]) ==
      CountedWords(ws[..i]) + (if |NormalizeWord(ws[i])| > 3 then [NormalizeWord(ws[i])] else [])
  {
    assert ws[..i + 1][..i] == ws[..i];
  }

  lemma {:induction false} TallySnoc(cw: seq<string>, k: string)
    ensures Tally(cw + [k]) == Tally(cw)[k := (if k in Tally(cw) then Tally(cw)[k] else 0) + 1]
    ensures FirstSeen(cw + [k]) == if k !in FirstSeen(cw) then FirstSeen(cw) + [k] else FirstSeen(cw)
  {
    assert (cw + [k])[..|cw|] == cw;
  }

  /** `word_freq.items()` for the words of a text. */
  function Frequencies(ws: seq<string>): seq<Entry> {
    var cw := CountedWords(ws);
    FirstSeenFacts(cw);
    TableItems(FirstSeen(cw), Tally(cw))
  }

  /** `top_words`: the ten most frequent counted words. */
  function TopWords(ws: seq<string>): seq<Entry> {
    Take(SortDesc(Frequencies(ws)), TopWordCount)
  }

  lemma {:induction false} TableItemsCounts(order: seq<string>, m: map<string, nat>, cw: seq<string>)
    requires forall i :: 0 <= i < |order| ==> order[i] in m
    requires forall k :: k in m ==> m[k] == multiset(cw)[k] >= 1
    ensures forall e :: e in TableItems(order, m) ==> e.key == multiset(cw)[e.item] >= 1
  {
    if order != [] {
      TableItemsCounts(order[1..], m, cw);
    }
  }

  /** The items list the key order's words, one item per word. */
  lemma {:induction false} TableItemsOrder(order: seq<string>, m: map<string, nat>)
    requires forall i :: 0 <= i < |order| ==> order[i] in m
    ensures |TableItems(order, m)| == |order|
    ensures forall i :: 0 <= i < |order| ==> TableItems(order, m)[i].item == order[i]
  {
    if order != [] {
      TableItemsOrder(order[1..], m);
    }
  }

  /** Every counted word of the text has an item, and no word has two. */
  lemma FrequenciesItems(ws: seq<string>)
    ensures forall j :: 0 <= j < |ws| && Counted(ws[j]) ==>
      exists i :: 0 <= i < |Frequencies(ws)| && Frequencies(ws)[i].item == NormalizeWord(ws[j])
    ensures forall i, j :: 0 <= i < j < |Frequencies(ws)| ==> Frequencies(ws)[i].item != Frequencies(ws)[j].item
  {
    var cw := CountedWords(ws);
    var order := FirstSeen(cw);
    FirstSeenFacts(cw);
    TallyCounts(cw);
    TableItemsOrder(order, Tally(cw));
    CountedWordsIn(ws);
    forall j | 0 <= j < |ws| && Counted(ws[j])
      ensures exists i :: 0 <= i < |Frequencies(ws)| && Frequencies(ws)[i].item == NormalizeWord(ws[j])
    {
      var w := NormalizeWord(ws[j]);
      assert w in multiset(cw);
      var i :| 0 <= i < |order| && order[i] == w;
      assert Frequencies(ws)[i].item == w;
    }
  }

  /** The items of the table: each word is longer than three characters and its
      count is the number of words of the text that normalise to it; the counts
      add up to the number of counted words; every counted word of the text has
      an item, and no word has two. */
  lemma {:induction false} FrequenciesCounts(ws: seq<string>)
    ensures forall e :: e in Frequencies(ws) ==> e.key == multiset(CountedWords(ws))[e.item] >= 1
    ensures forall e :: e in Frequencies(ws) ==> e.key == Occurrences(ws, e.item) && |e.item| > 3
    ensures SumKeys(Frequencies(ws)) == |CountedWords(ws)|
    ensures forall j :: 0 <= j < |ws| && Counted(ws[j]) ==>
      exists i :: 0 <= i < |Frequencies(ws)| && Frequencies(ws)[i].item == NormalizeWord(ws[j])
    ensures forall i, j :: 0 <= i < j < |Frequencies(ws)| ==> Frequencies(ws)[i].item != Frequencies(ws)[j].item
  {
    var cw := CountedWords(ws);
    FrequenciesItems(ws);
    CountedWordsCounts(ws);
    TallyTotal(cw);
    TallyCounts(cw);
    TableItemsCounts(FirstSeen(cw), Tally(cw), cw);
  }

  /** `top_words` keeps the most frequent words: ten entries, or all of them when
      fewer words are counted, and no word left out is more frequent than a word kept. */
  lemma TopWordsAreTop(ws: seq<string>)
    ensures var t := TopWords(ws);
      && |t| == (if |Frequencies(ws)| <= TopWordCount then |Frequencies(ws)| else TopWordCount)
      && (forall e :: e in Frequencies(ws) && e !in t ==> forall i :: 0 <= i < |t| ==> e.key <= t[i].key)
  {
    var items := Frequencies(ws);
    var t := Take(SortDesc(items), TopWordCount);
    assert TopWords(ws) == t;
    assert |SortDesc(items)| == |multiset(SortDesc(items))| == |items|;
    TopOfSort(items, TopWordCount);
  }

  /** Each count kept is the number of words of the text that normalise to its
      word, and the counts kept add up to at most the number of words. */
  lemma TopWordsCounts(ws: seq<string>)
    ensures var t := TopWords(ws);
      && (forall i :: 0 <= i < |t| ==> t[i].key == multiset(CountedWords(ws))[t[i].item] >= 1)
      && (forall i :: 0 <= i < |t| ==> t[i].key == Occurrences(ws, t[i].item) && |t[i].item| > 3)
      && SumKeys(t) <= |ws|
  {
    var items := Frequencies(ws);
    FrequenciesCounts(ws);
    var sorted := SortDesc(items);
    var t := Take(sorted, TopWordCount);
    TopOfSort(items, TopWordCount);
    SortDescKeeps(items);
    PrefixKeeps(t, sorted);
  }

  /** What the analysis promises of `top_words`: ten entries, or all of them when
      fewer words are counted, sorted by count; no word left out is more frequent
      than a word kept; each count the number of occurrences of its word (so at
      least one), all counts together at most the word count, and words of equal
      count in the order they first occur. */
  lemma TopWordsFacts(ws: seq<string>)
    ensures var t := TopWords(ws);
      && |t| == (if |Frequencies(ws)| <= TopWordCount then |Frequencies(ws)| else TopWordCount)
      && SortedDesc(t)
      && (forall e :: e in Frequencies(ws) && e !in t ==> forall i :: 0 <= i < |t| ==> e.key <= t[i].key)
      && (forall i :: 0 <= i < |t| ==> t[i].key == multiset(CountedWords(ws))[t[i].item] >= 1)
      && (forall i :: 0 <= i < |t| ==> t[i].key == Occurrences(ws, t[i].item) && |t[i].item| > 3)
      && SumKeys(t) <= |ws|
      && (forall c :: WithKey(t, c) <= WithKey(Frequencies(ws), c))
  {
    TopWordsAreTop(ws);
    TopWordsCounts(ws);
    TopWordsOrder(ws);
  }

  /** The words kept are sorted by count, and words of equal count keep the order
      in which they first occur. */
  lemma TopWordsOrder(ws: seq<string>)
    ensures var t := TopWords(ws);
      && SortedDesc(t)
      && (forall c :: WithKey(t, c) <= WithKey(Frequencies(ws), c))
  {
    var items := Frequencies(ws);
    var sorted := SortDesc(items);
    var t := Take(sorted, TopWordCount);
    assert TopWords(ws) == t;
    SortDescKeeps(items);
    PrefixKeeps(t, sorted);
  }

  // ------------------------------------------------------------- routes

  /** The responses of the three routes; `BadRequest` is the HTTP 400 reply. */
  datatype Response =
    | BadRequest(error: string)
    | Answered(answer: string, contextUsed: seq<string>)
    | Summarized(summary: string, wordCount: nat, characterCount: nat, originalLength: nat)
    | Analyzed(wordCount: nat, sentenceCount: nat, characterCount: nat, topWords: seq<Entry>)

  function Status(r: Response): nat {
    if r.BadRequest? then 400 else 200
  }

  /** `not data.get(field, '')`: the field is absent, null or empty. */
  predicate Missing(field: Option<string>) {
    field.None? || field.value == ""
  }

  /** `/api/rag/query`. */
  method QueryDocument(content: Option<string>, question: Option<string>) returns (r: Response)
    ensures Status(r) == 400 <==> Missing(content) || Missing(question)
    ensures r.BadRequest? ==> r.error == MissingContentOrQuestion
    ensures !r.BadRequest? ==>
      var context := RelevantContext(CleanHtml(content.value), question.value, DefaultTopK);
      r == Answered(GenerateAnswer(context, question.value), Take(context, 2))
  {
    if Missing(content) || Missing(question) {
      return BadRequest(MissingContentOrQuestion);
    }
    var cleanText := CleanHtml(content.value);
    var relevantContext := FindRelevantContext(cleanText, question.value, DefaultTopK);
    var answer := GenerateAnswer(relevantContext, question.value);
    r := Answered(answer, Take(relevantContext, 2));
  }

  /** `/api/rag/summarize`. */
  function SummarizeDocument(content: Option<string>): (r: Response)
    ensures Status(r) == 400 <==> Missing(content)
    ensures r.BadRequest? ==> r.error == MissingDocumentContent
    ensures !r.BadRequest? ==>
      r.Summarized? && |r.summary| > 0 && r.summary[|r.summary| - 1] == '.' &&
      r.wordCount <= r.characterCount <= r.originalLength
  {
    if Missing(content) then BadRequest(MissingDocumentContent)
    else
      var cleanText := CleanHtml(content.value);
      CleanTextBounds(content.value);
      SummarizeTextFacts(cleanText);
      Summarized(SummarizeText(cleanText), |Words(cleanText)|, |cleanText|, |content.value|)
  }

  lemma {:induction false} CollapseShorter(s: string)
    ensures |Collapse(s)| <= |s|
    decreases |s|
  {
    if s != [] {
      if IsSpace(s[0]) {
        CollapseShorter(s[SpanIn(s, Whitespace)..]);
      } else {
        CollapseShorter(s[1..]);
      }
    }
  }

  /** Cleaning never lengthens the text, and a text has no more words than characters. */
  lemma CleanTextBounds(html: string)
    ensures |Words(CleanHtml(html))| <= |CleanHtml(html)| <= |html|
  {
    StripTagsShorter(html, true);
    CollapseShorter(StripTags(html, true));
    WordsAtMostLength(CleanHtml(html));
  }

  /** `[s.strip() for s in re.split(r'[.!?]+', text) if s.strip()]`, counted. */
  function SentenceCount(pieces: seq<string>): nat {
    if pieces == [] then 0
    else (if IsBlank(pieces[0]) then 0 else 1) + SentenceCount(pieces[1..])
  }

  /** `/api/rag/analyze`: counts and the top words; the average word length is left out. */
  method AnalyzeDocument(content: Option<string>) returns (r: Response)
    ensures Status(r) == 400 <==> Missing(content)
    ensures r.BadRequest? ==> r.error == MissingDocumentContent
    ensures !r.BadRequest? ==>
      var cleanText := CleanHtml(content.value);
      r == Analyzed(|Words(cleanText)|, SentenceCount(SplitOn(cleanText, SentenceEnd)), |cleanText|, TopWords(Words(cleanText)))
    ensures r.Analyzed? ==> |r.topWords| <= TopWordCount && SortedDesc(r.topWords) && SumKeys(r.topWords) <= r.wordCount
  {
    if Missing(content) {
      return BadRequest(MissingDocumentContent);
    }
    var cleanText := CleanHtml(content.value);
    var words := Words(cleanText);
    var sentenceCount := SentenceCount(SplitOn(cleanText, SentenceEnd));
    var wordFreq, order := WordFrequency(words);
    FirstSeenFacts(CountedWords(words));
    var topWords := Take(SortDesc(TableItems(order, wordFreq)), TopWordCount);
    TopWordsFacts(words);
    r := Analyzed(|words|, sentenceCount, |cleanText|, topWords);
  }
}
