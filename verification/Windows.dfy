/** Overlapping-window chunking of collected webpage text. */
module Windows {
  import opened Common
  import opened SyncModel

  const STRIDE := 1440
  const WINDOW := 1600
  /** Any passage this short lies whole in some window. */
  const OVERLAP := WINDOW - STRIDE + 1

  datatype WebpagePage = WebpagePage(url: Url, text: string)
  datatype Source = Source(url: Url, page: WebpagePage)

  /** The characters Python's str.strip removes. */
  predicate IsSpace(c: char) {
    var n := c as int;
    || 9 <= n <= 13 || 28 <= n <= 32 || n == 0x85 || n == 0xA0 || n == 0x1680
    || 0x2000 <= n <= 0x200A || n == 0x2028 || n == 0x2029 || n == 0x202F || n == 0x205F || n == 0x3000
  }

  /** One by one. */
  lemma WhiteSpaceCharacters(c: char)
    ensures IsSpace(c) <==> c as int in {
      0x9, 0xA, 0xB, 0xC, 0xD, 0x1C, 0x1D, 0x1E, 0x1F, 0x20, 0x85, 0xA0, 0x1680,
      0x2000, 0x2001, 0x2002, 0x2003, 0x2004, 0x2005, 0x2006, 0x2007, 0x2008, 0x2009, 0x200A,
      0x2028, 0x2029, 0x202F, 0x205F, 0x3000}
  {
  }

  /** The first visible position in [lo, hi), or hi. */
  function FirstVisible(s: string, lo: nat, hi: nat): (i: nat)
    requires lo <= hi <= |s|
    ensures lo <= i <= hi
    decreases hi - lo
  {
    if lo < hi && IsSpace(s[lo]) then FirstVisible(s, lo + 1, hi) else lo
  }

  /** One past the last visible position in [lo, hi), or lo. */
  function EndVisible(s: string, lo: nat, hi: nat): (i: nat)
    requires lo <= hi <= |s|
    ensures lo <= i <= hi
    decreases hi - lo
  {
    if lo < hi && IsSpace(s[hi - 1]) then EndVisible(s, lo, hi - 1) else hi
  }

  lemma {:induction false} FirstVisibleIsFirst(s: string, lo: nat, hi: nat)
    requires lo <= hi <= |s|
    ensures var i := FirstVisible(s, lo, hi);
      (i < hi ==> !IsSpace(s[i])) && (forall k :: lo <= k < i ==> IsSpace(s[k]))
    decreases hi - lo
  {
    if lo < hi && IsSpace(s[lo]) {
      FirstVisibleIsFirst(s, lo + 1, hi);
    }
  }

  lemma {:induction false} EndVisibleIsLast(s: string, lo: nat, hi: nat)
    requires lo <= hi <= |s|
    ensures var i := EndVisible(s, lo, hi);
      (i > lo ==> !IsSpace(s[i - 1])) && (forall k :: i <= k < hi ==> IsSpace(s[k]))
    decreases hi - lo
  {
    if lo < hi && IsSpace(s[hi - 1]) {
      EndVisibleIsLast(s, lo, hi - 1);
    }
  }

  /** str.strip. */
  function Strip(s: string): string {
    var lo := FirstVisible(s, 0, |s|);
    s[lo..EndVisible(s, lo, |s|)]
  }

  predicate Blank(s: string) {
    forall k :: 0 <= k < |s| ==> IsSpace(s[k])
  }

  /** Stripping leaves nothing exactly when the text is blank. */
  lemma StripEmptyIffBlank(s: string)
    ensures Strip(s) == "" <==> Blank(s)
  {
    var lo := FirstVisible(s, 0, |s|);
    FirstVisibleIsFirst(s, 0, |s|);
    EndVisibleIsLast(s, lo, |s|);
  }

  /** What is left is a stretch between visible ends, and all around it is white space. */
  lemma StripIsTheMiddle(s: string) returns (lo: nat, hi: nat)
    ensures lo <= hi <= |s| && Strip(s) == s[lo..hi]
    ensures forall k :: 0 <= k < lo || hi <= k < |s| ==> IsSpace(s[k])
    ensures lo < hi ==> !IsSpace(s[lo]) && !IsSpace(s[hi - 1])
  {
    lo := FirstVisible(s, 0, |s|);
    hi := EndVisible(s, lo, |s|);
    FirstVisibleIsFirst(s, 0, |s|);
    EndVisibleIsLast(s, lo, |s|);
  }

  /** A stretch of a page's text. */
  datatype Span = Span(lo: nat, hi: nat)

  function Cut(text: string, span: Span): string
    requires span.lo <= span.hi <= |text|
  {
    text[span.lo..span.hi]
  }

  /** The window that starts at `start`, stripped. */
  function StrippedWindow(text: string, start: nat): (span: Span)
    requires start <= |text|
    ensures start <= span.lo <= span.hi <= |text| && span.hi <= start + WINDOW
  {
    var hi := Min(start + WINDOW, |text|);
    var lo := FirstVisible(text, start, hi);
    Span(lo, EndVisible(text, lo, hi))
  }

  /** The stripped non-empty windows from position `start` on. */
  function WindowsFrom(text: string, start: nat): (spans: seq<Span>)
    ensures forall k :: 0 <= k < |spans| ==> spans[k].lo < spans[k].hi <= |text|
    decreases |text| - start
  {
    if start >= |text| then []
    else
      var span := StrippedWindow(text, start);
      var rest := WindowsFrom(text, start + STRIDE);
      if span.lo == span.hi then rest else [span] + rest
  }

  function PageChunks(source: Source, first: nat): (r: seq<IngestChunk>) {
    var spans := WindowsFrom(source.page.text, 0);
    seq(|spans|, i requires 0 <= i < |spans| =>
      IngestChunk(first + i, Cut(source.page.text, spans[i]), source.url, source.page.url))
  }

  /** The chunks of all pages in order, numbered consecutively across pages. */
  function Chunks(sources: seq<Source>): (r: seq<IngestChunk>)
    ensures forall i :: 0 <= i < |r| ==> r[i].seqNo == i
  {
    if sources == [] then []
    else
      var front := Chunks(sources[..|sources| - 1]);
      front + PageChunks(sources[|sources| - 1], |front|)
  }

  // ---- stripping a slice is the stripped span of the whole ------------------------------

  lemma {:induction false} VisibleInSlice(s: string, lo: nat, hi: nat, a: nat)
    requires lo <= a <= hi <= |s|
    ensures FirstVisible(s[lo..hi], a - lo, hi - lo) == FirstVisible(s, a, hi) - lo
    decreases hi - a
  {
    if a < hi && IsSpace(s[a]) {
      VisibleInSlice(s, lo, hi, a + 1);
    }
  }

  lemma {:induction false} EndInSlice(s: string, lo: nat, hi: nat, a: nat, b: nat)
    requires lo <= a <= b <= hi <= |s|
    ensures EndVisible(s[lo..hi], a - lo, b - lo) == EndVisible(s, a, b) - lo
    decreases b - a
  {
    if a < b && IsSpace(s[b - 1]) {
      EndInSlice(s, lo, hi, a, b - 1);
    }
  }

  lemma SliceOfSlice(s: string, lo: nat, hi: nat, a: nat, b: nat)
    requires lo <= a <= b <= hi <= |s|
    ensures s[lo..hi][a - lo..b - lo] == s[a..b]
  {
    forall k | 0 <= k < b - a ensures s[lo..hi][a - lo..b - lo][k] == s[a..b][k] {
      assert s[lo..hi][a - lo + k] == s[a + k];
    }
  }

  lemma StripOfSlice(s: string, lo: nat, hi: nat, a: nat, b: nat)
    requires lo <= hi <= |s|
    requires a == FirstVisible(s, lo, hi) && b == EndVisible(s, a, hi)
    ensures Strip(s[lo..hi]) == s[a..b]
  {
    var piece := s[lo..hi];
    assert FirstVisible(piece, 0, hi - lo) == a - lo by { VisibleInSlice(s, lo, hi, lo); }
    assert EndVisible(piece, a - lo, hi - lo) == b - lo by { EndInSlice(s, lo, hi, a, hi); }
    assert piece[a - lo..b - lo] == s[a..b] by { SliceOfSlice(s, lo, hi, a, b); }
  }

  /** `text[start:start + 1600].strip()` is the cut of the stripped window. */
  lemma StripOfWindow(text: string, start: nat)
    requires start <= |text|
    ensures Strip(text[start..Min(start + WINDOW, |text|)]) == Cut(text, StrippedWindow(text, start))
  {
    var span := StrippedWindow(text, start);
    StripOfSlice(text, start, Min(start + WINDOW, |text|), span.lo, span.hi);
  }

  // ---- what the chunks guarantee --------------------------------------------------------

  predicate Within(a: nat, b: nat, span: Span) {
    span.lo <= a && b <= span.hi
  }

  predicate Tight(text: string, span: Span) {
    && span.lo < span.hi <= |text| && span.hi - span.lo <= WINDOW
    && !IsSpace(text[span.lo]) && !IsSpace(text[span.hi - 1])
  }

  lemma StrippedWindowIsTight(text: string, start: nat)
    requires start <= |text|
    ensures var span := StrippedWindow(text, start); span.lo < span.hi ==> Tight(text, span)
  {
    var hi := Min(start + WINDOW, |text|);
    FirstVisibleIsFirst(text, start, hi);
    EndVisibleIsLast(text, FirstVisible(text, start, hi), hi);
  }

  lemma StrippedWindowHolds(text: string, start: nat, a: nat, b: nat)
    requires start <= a < start + STRIDE && a < b <= |text| && b - a <= OVERLAP
    requires !IsSpace(text[a]) && !IsSpace(text[b - 1])
    ensures Within(a, b, StrippedWindow(text, start))
  {
    var hi := Min(start + WINDOW, |text|);
    FirstVisibleIsFirst(text, start, hi);
    EndVisibleIsLast(text, FirstVisible(text, start, hi), hi);
  }

  /** A short stretch with visible ends lies in one of the windows from `start` on. */
  lemma {:induction false} WindowHoldsStretch(text: string, start: nat, a: nat, b: nat) returns (k: nat)
    requires start <= a < b <= |text| && b - a <= OVERLAP
    requires !IsSpace(text[a]) && !IsSpace(text[b - 1])
    ensures k < |WindowsFrom(text, start)| && Within(a, b, WindowsFrom(text, start)[k])
    decreases |text| - start
  {
    if a < start + STRIDE {
      StrippedWindowHolds(text, start, a, b);
      k := 0;
    } else {
      k := WindowHoldsStretch(text, start + STRIDE, a, b);
      var span := StrippedWindow(text, start);
      if span.lo < span.hi {
        k := k + 1;
      }
    }
  }

  /** The windows start and end on visible characters and are at most 1600 characters long. */
  lemma {:induction false} WindowsAreTight(text: string, start: nat, k: nat)
    requires k < |WindowsFrom(text, start)|
    ensures Tight(text, WindowsFrom(text, start)[k])
    decreases |text| - start
  {
    StrippedWindowIsTight(text, start);
    var span := StrippedWindow(text, start);
    if span.lo == span.hi {
      WindowsAreTight(text, start + STRIDE, k);
    } else if k > 0 {
      WindowsAreTight(text, start + STRIDE, k - 1);
    }
  }

  /** Chunk `c` is the cut of window `k` of page `p`. */
  predicate CutFrom(sources: seq<Source>, c: nat, p: nat, k: nat) {
    && c < |Chunks(sources)| && p < |sources| && k < |WindowsFrom(sources[p].page.text, 0)|
    && Chunks(sources)[c] == IngestChunk(c, Cut(sources[p].page.text, WindowsFrom(sources[p].page.text, 0)[k]),
                                         sources[p].url, sources[p].page.url)
  }

  /** Every window of every page becomes a chunk. */
  lemma {:induction false} WindowBecomesChunk(sources: seq<Source>, p: nat, k: nat) returns (c: nat)
    requires p < |sources| && k < |WindowsFrom(sources[p].page.text, 0)|
    ensures CutFrom(sources, c, p, k)
  {
    var front := sources[..|sources| - 1];
    if p == |sources| - 1 {
      c := |Chunks(front)| + k;
    } else {
      c := WindowBecomesChunk(front, p, k);
      assert CutFrom(front, c, p, k);
    }
  }

  /** Every chunk is a window of a page, filed under that page's URL. */
  lemma {:induction false} ChunkComesFromWindow(sources: seq<Source>, c: nat) returns (p: nat, k: nat)
    requires c < |Chunks(sources)|
    ensures CutFrom(sources, c, p, k)
  {
    var front := sources[..|sources| - 1];
    if c < |Chunks(front)| {
      p, k := ChunkComesFromWindow(front, c);
      assert CutFrom(front, c, p, k);
    } else {
      p, k := |sources| - 1, c - |Chunks(front)|;
    }
  }

  /** `part` stands at position `o` of `whole`. */
  predicate OccursAt(part: string, whole: string, o: int) {
    0 <= o <= |whole| - |part| && whole[o..o + |part|] == part
  }

  /**
   Nothing visible is lost: every passage of at most 161 characters with visible ends, on any
   page, lies whole in one chunk filed under that page.
   */
  lemma PassageInOneChunk(sources: seq<Source>, p: nat, a: nat, b: nat) returns (c: nat, o: nat)
    requires p < |sources|
    requires a < b <= |sources[p].page.text| && b - a <= 161
    requires !IsSpace(sources[p].page.text[a]) && !IsSpace(sources[p].page.text[b - 1])
    ensures c < |Chunks(sources)| && Chunks(sources)[c].sourceUrl == sources[p].url
    ensures OccursAt(sources[p].page.text[a..b], Chunks(sources)[c].text, o)
  {
    var text := sources[p].page.text;
    var k := WindowHoldsStretch(text, 0, a, b);
    c := WindowBecomesChunk(sources, p, k);
    var span := WindowsFrom(text, 0)[k];
    o := a - span.lo;
    SliceOfSlice(text, span.lo, span.hi, a, b);
  }

  /**
   Nothing is invented: chunk `c` is numbered `c` and is a stretch of one collected page, with
   visible ends and 1 to 1600 characters.
   */
  lemma ChunkIsAStretch(sources: seq<Source>, c: nat) returns (p: nat, o: nat)
    requires c < |Chunks(sources)|
    ensures var chunk := Chunks(sources)[c];
      && chunk.seqNo == c && 1 <= |chunk.text| <= 1600
      && !IsSpace(chunk.text[0]) && !IsSpace(chunk.text[|chunk.text| - 1])
      && p < |sources| && chunk.sourceUrl == sources[p].url && chunk.pageUrl == sources[p].page.url
      && OccursAt(chunk.text, sources[p].page.text, o)
  {
    var k: nat;
    p, k := ChunkComesFromWindow(sources, c);
    WindowsAreTight(sources[p].page.text, 0, k);
    o := WindowsFrom(sources[p].page.text, 0)[k].lo;
  }

  /** A page list with visible text yields at least one chunk. */
  lemma VisibleTextYieldsChunks(sources: seq<Source>, p: nat)
    requires p < |sources| && !Blank(sources[p].page.text)
    ensures Chunks(sources) != []
  {
    var text := sources[p].page.text;
    var a :| 0 <= a < |text| && !IsSpace(text[a]);
    var c, o := PassageInOneChunk(sources, p, a, a + 1);
  }

  // ---- the chunks, read from the front ----------------------------------------------------------

  /** The texts of the windows from a position on. */
  function WindowTexts(text: string, start: nat): seq<string> {
    var spans := WindowsFrom(text, start);
    seq(|spans|, i requires 0 <= i < |spans| => Cut(text, spans[i]))
  }

  /** Slice by slice: 1600 characters every 1440, stripped, unless nothing is left. */
  lemma WindowTextsFromTheFront(text: string, start: nat)
    ensures start >= |text| ==> WindowTexts(text, start) == []
    ensures start < |text| ==>
      var piece := Strip(text[start..Min(start + 1600, |text|)]);
      WindowTexts(text, start) == (if piece == "" then [] else [piece]) + WindowTexts(text, start + 1440)
  {
    if start < |text| {
      StripOfWindow(text, start);
    }
  }

  lemma OnePage(source: Source)
    ensures Chunks([source]) == PageChunks(source, 0)
  {
  }

  /** A chunk of the last page, by its place there. */
  lemma ChunkOfLast(sources: seq<Source>, c: nat)
    requires sources != [] && |Chunks(sources[..|sources| - 1])| <= c < |Chunks(sources)|
    ensures var page, k := sources[|sources| - 1], c - |Chunks(sources[..|sources| - 1])|;
      && k < |WindowTexts(page.page.text, 0)|
      && Chunks(sources)[c] == IngestChunk(c, WindowTexts(page.page.text, 0)[k], page.url, page.page.url)
  {
  }

  lemma ChunkOfFront(sources: seq<Source>, c: nat)
    requires sources != [] && c < |Chunks(sources[..|sources| - 1])|
    ensures c < |Chunks(sources)| && Chunks(sources)[c] == Chunks(sources[..|sources| - 1])[c]
  {
  }

  /** The chunks of the first page, with its addresses, then those of the others, numbered on. */
  lemma {:induction false} ChunksFromTheFront(sources: seq<Source>, c: nat)
    requires sources != [] && c < |Chunks(sources)|
    ensures var texts := WindowTexts(sources[0].page.text, 0);
      && |Chunks(sources)| == |texts| + |Chunks(sources[1..])|
      && Chunks(sources)[c] ==
           if c < |texts| then IngestChunk(c, texts[c], sources[0].url, sources[0].page.url)
           else Chunks(sources[1..])[c - |texts|].(seqNo := c)
  {
    var last := |sources| - 1;
    var front, rest := sources[..last], sources[1..];
    FrontCount(sources);
    if last == 0 {
      ChunkOfLast(sources, c);
    } else {
      FrontCount(front);
      var m := |WindowTexts(sources[0].page.text, 0)|;
      assert front[1..] == rest[..last - 1];
      if c < |Chunks(front)| {
        ChunkOfFront(sources, c);
        ChunksFromTheFront(front, c);
        if c >= m {
          ChunkOfFront(rest, c - m);
        }
      } else {
        ChunkOfLast(sources, c);
        ChunkOfLast(rest, c - m);
      }
    }
  }

  lemma {:induction false} FrontCount(sources: seq<Source>)
    requires sources != []
    ensures |Chunks(sources)| == |WindowTexts(sources[0].page.text, 0)| + |Chunks(sources[1..])|
  {
    var last := |sources| - 1;
    if last == 0 {
      assert Chunks(sources) == PageChunks(sources[0], 0);
    } else {
      FrontCount(sources[..last]);
      assert sources[..last][1..] == sources[1..][..last - 1];
    }
  }
}
