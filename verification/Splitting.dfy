/** Splitting a document into chunks, and finding the chunks again
    (src/libs/splitter/recursive_splitter.py, src/ingestion/chunking/document_chunker.py). */
module Splitting {
  import opened Outcomes
  import opened Text

  /** The preferred boundaries, most preferred first. */
  const BREAKS: seq<string> := ["\n\n", "\n#", "\n", "\U{3002}", ". ", "\U{FF1B}", "; ", "\U{FF0C}", ", ", " "]

  /** The positions from `start` up to `end`. */
  datatype Span = Span(start: nat, end: nat)

  /** The chunk is the text of the span, without white space at its ends. */
  predicate ChunkAt(text: string, span: Span, chunk: string) {
    span.start < span.end <= |text| && text[span.start..span.end] == chunk && Trimmed(text, span)
  }

  predicate Trimmed(text: string, span: Span)
    requires span.start < span.end <= |text|
  {
    !IsSpace(text[span.start]) && !IsSpace(text[span.end - 1])
  }

  predicate InSome(spans: seq<Span>, i: int) {
    exists j :: 0 <= j < |spans| && spans[j].start <= i < spans[j].end
  }

  /** Every position in `[lo, hi)` that is not white space is in some span. */
  predicate Covers(text: string, spans: seq<Span>, lo: nat, hi: nat)
    requires hi <= |text|
  {
    forall i :: lo <= i < hi && !IsSpace(text[i]) ==> InSome(spans, i)
  }

  /** No span starts more than `overlap` before the end of the one before it, and none before its start. */
  predicate Chained(spans: seq<Span>, overlap: nat) {
    forall j :: 0 < j < |spans| ==> spans[j].start + overlap >= spans[j - 1].end && spans[j].start >= spans[j - 1].start
  }

  predicate Within(spans: seq<Span>, lo: nat, hi: nat) {
    forall j :: 0 <= j < |spans| ==> lo <= spans[j].start && spans[j].end <= hi
  }

  lemma InSomeMore(spans: seq<Span>, more: seq<Span>, i: int)
    ensures InSome(spans, i) || InSome(more, i) ==> InSome(spans + more, i)
  {
    if j :| 0 <= j < |spans| && spans[j].start <= i < spans[j].end {
      assert (spans + more)[j] == spans[j];
    }
    if j :| 0 <= j < |more| && more[j].start <= i < more[j].end {
      assert (spans + more)[|spans| + j] == more[j];
    }
  }

  /** Where the text of a range is, without the white space at its ends. */
  function StripSpan(text: string, start: nat, end: nat): Span
    requires start <= end <= |text|
  {
    var part := text[start..end];
    var i := SkipSpaces(part, 0);
    Span(start + i, start + TrimEnd(part, i, |part|))
  }

  lemma SliceOfSlice(text: string, start: nat, end: nat, i: nat, e: nat)
    requires start <= end <= |text| && i <= e <= end - start
    ensures text[start..end][i..e] == text[start + i..start + e]
  {
    assert forall k :: 0 <= k < e - i ==> text[start..end][i..e][k] == text[start + i..start + e][k];
  }

  lemma StripPlaced(text: string, start: nat, end: nat)
    requires start <= end <= |text|
    ensures var span := StripSpan(text, start, end);
      && start <= span.start <= span.end <= end && Strip(text[start..end]) == text[span.start..span.end]
      && (span.start < span.end ==> !IsSpace(text[span.start]) && !IsSpace(text[span.end - 1]))
  {
    var part := text[start..end];
    var i := SkipSpaces(part, 0);
    var e := TrimEnd(part, i, |part|);
    SliceOfSlice(text, start, end, i, e);
    assert StripSpan(text, start, end) == Span(start + i, start + e);
    if i == e {
      return;
    }
    assert part[i] == text[start + i];
    assert part[e - 1] == text[start + e - 1];
  }

  lemma StripLeavesSpaces(text: string, start: nat, end: nat, k: nat)
    requires start <= k < end <= |text| && !IsSpace(text[k])
    ensures StripSpan(text, start, end).start <= k < StripSpan(text, start, end).end
  {
    var part := text[start..end];
    assert part[k - start] == text[k];
  }

  lemma StripCovers(text: string, start: nat, end: nat)
    requires start <= end <= |text|
    ensures Covers(text, [StripSpan(text, start, end)], start, end)
  {
    var span := StripSpan(text, start, end);
    forall k | start <= k < end && !IsSpace(text[k]) ensures InSome([span], k) {
      StripLeavesSpaces(text, start, end, k);
      assert [span][0].start <= k < [span][0].end;
    }
  }

  /** `text[start:end].strip()`, and where it is when there is anything. */
  method StripRange(text: string, start: nat, end: nat) returns (chunk: string, ghost span: Span)
    requires start <= end <= |text|
    ensures chunk == Strip(text[start..end]) && span == StripSpan(text, start, end)
    ensures NonEmpty(span) == if chunk == "" then [] else [span]
    ensures chunk == "" ==> forall i :: start <= i < end ==> IsSpace(text[i])
    ensures chunk != "" ==> ChunkAt(text, span, chunk) && start <= span.start && span.end <= end
    ensures chunk != "" ==> Covers(text, [span], start, end)
  {
    chunk := Strip(text[start..end]);
    span := StripSpan(text, start, end);
    StripPlaced(text, start, end);
    StripCovers(text, start, end);
    if chunk == "" {
      assert forall i :: start <= i < end && !IsSpace(text[i]) ==> InSome([span], i);
    }
  }

  /** Where the most preferred boundary of the last place starts in a window, and its length; -1 when there is none. */
  function BestBreak(window: string, n: nat): (best: (int, nat))
    requires n <= |BREAKS|
    ensures best.0 >= -1 && forall j :: 0 <= j < n ==> RFind(window, BREAKS[j]) <= best.0
    ensures best.0 >= 0 ==> FirstBreakAt(window, n, best)
  {
    if n == 0 then (-1, 0) else
    var before, position := BestBreak(window, n - 1), RFind(window, BREAKS[n - 1]);
    if position > before.0 then
      assert IsFirstBreak(window, n - 1, position);
      (position, |BREAKS[n - 1]|)
    else before
  }

  predicate IsFirstBreak(window: string, j: nat, position: int)
    requires j < |BREAKS|
  {
    RFind(window, BREAKS[j]) == position && forall k :: 0 <= k < j ==> RFind(window, BREAKS[k]) < position
  }

  /** The boundary is the first one, in order of preference, that occurs last at this place. */
  predicate FirstBreakAt(window: string, n: nat, best: (int, nat))
    requires n <= |BREAKS|
  {
    exists j :: 0 <= j < n && IsFirstBreak(window, j, best.0) && best.1 == |BREAKS[j]|
  }

  /** Right after the boundary that starts last in the window, if there is one. */
  function BreakAfter(text: string, minimum: nat, maximum: nat): nat
    requires minimum <= maximum <= |text|
  {
    var best := BestBreak(text[minimum..maximum], |BREAKS|);
    if best.0 < 0 then maximum else minimum + best.0 + best.1
  }

  lemma BreakInWindow(text: string, minimum: nat, maximum: nat)
    requires minimum <= maximum <= |text|
    ensures minimum <= BreakAfter(text, minimum, maximum) <= maximum
    ensures minimum < maximum ==> minimum < BreakAfter(text, minimum, maximum)
  {
    var window := text[minimum..maximum];
    var best := BestBreak(window, |BREAKS|);
    if best.0 >= 0 {
      var j :| 0 <= j < |BREAKS| && IsFirstBreak(window, j, best.0) && best.1 == |BREAKS[j]|;
      assert OccursAt(window, BREAKS[j], best.0);
      NoEmptyBreak(BREAKS[j]);
    }
  }

  /** `_preferred_break`: of the boundaries that occur in the window the one that starts last, and of those that start
      there the most preferred one. */
  method PreferredBreak(text: string, minimum: nat, maximum: nat) returns (end: nat)
    requires minimum <= maximum <= |text|
    ensures end == BreakAfter(text, minimum, maximum)
    ensures minimum <= end <= maximum && (minimum < maximum ==> minimum < end)
    ensures var window := text[minimum..maximum];
      || (end == maximum && forall j :: 0 <= j < |BREAKS| ==> RFind(window, BREAKS[j]) == -1)
      || exists j :: 0 <= j < |BREAKS| && IsFirstBreak(window, j, RFind(window, BREAKS[j])) &&
           0 <= RFind(window, BREAKS[j]) && end == minimum + RFind(window, BREAKS[j]) + |BREAKS[j]| &&
           forall k :: 0 <= k < |BREAKS| ==> RFind(window, BREAKS[k]) <= RFind(window, BREAKS[j])
  {
    var window := text[minimum..maximum];
    var best, length := -1, 0;
    for i := 0 to |BREAKS|
      invariant (best, length) == BestBreak(window, i)
    {
      var position := RFind(window, BREAKS[i]);
      if position > best {
        best, length := position, |BREAKS[i]|;
      }
    }
    BreakInWindow(text, minimum, maximum);
    end := if best < 0 then maximum else minimum + best + length;
  }

  lemma NoEmptyBreak(s: string)
    requires s in BREAKS
    ensures |s| > 0
  {
  }

  function Max(a: int, b: int): int {
    if a > b then a else b
  }

  // ----- where the chunks come from ----------------------------------------------------------------------

  /** The end of the range that the next chunk is taken from. */
  function EndFrom(text: string, start: nat, size: nat): (end: nat)
    requires 0 < size && start < |text|
    ensures start < end <= |text| && end <= start + size
  {
    if start + size >= |text| then |text| else
    var minimum := start + Max(size / 2, 1);
    BreakInWindow(text, minimum, start + size);
    BreakAfter(text, minimum, start + size)
  }

  function NonEmpty(span: Span): seq<Span> {
    if span.start < span.end then [span] else []
  }

  /** Where the range after this one starts. */
  function StartAfter(text: string, start: nat, end: nat, overlap: nat): (next: nat)
    requires start < end <= |text|
    ensures start < next <= |text|
  {
    SkipSpaces(text, Max(start + 1, end - overlap))
  }

  /** The next range begins at the first text within the overlap, or after the start of this one. */
  lemma StartsInOverlap(text: string, start: nat, end: nat, overlap: nat)
    requires start < end <= |text|
    ensures var next := StartAfter(text, start, end, overlap);
      && next >= end - overlap && (next < |text| ==> !IsSpace(text[next]))
      && forall k :: start < k < next && k >= end - overlap ==> IsSpace(text[k])
  {
  }

  /** The spans of the chunks of a long text, from a position on. */
  function SpansFrom(text: string, start: nat, size: nat, overlap: nat): seq<Span>
    requires 0 < size && start <= |text|
    decreases |text| - start
  {
    if start == |text| then [] else
    var end := EndFrom(text, start, size);
    NonEmpty(StripSpan(text, start, end)) +
    if end == |text| then [] else SpansFrom(text, StartAfter(text, start, end, overlap), size, overlap)
  }

  /** Chunks of one range have at most the overlap in common, however far apart they are. */
  lemma {:induction false} SpansOverlapAtMost(text: string, start: nat, size: nat, overlap: nat)
    requires 0 < size && start <= |text|
    ensures OverlapsAtMost(SpansFrom(text, start, size, overlap), start, overlap)
    decreases |text| - start
  {
    if start < |text| {
      var end := EndFrom(text, start, size);
      var first := NonEmpty(StripSpan(text, start, end));
      StripsWithin(text, start, end);
      if end < |text| {
        var next := StartAfter(text, start, end, overlap);
        StartsInOverlap(text, start, end, overlap);
        SpansOverlapAtMost(text, next, size, overlap);
        OverlapJoined(first, SpansFrom(text, next, size, overlap), start, next, overlap);
      }
    }
  }

  lemma StripsWithin(text: string, start: nat, end: nat)
    requires start <= end <= |text|
    ensures var s := StripSpan(text, start, end); start <= s.start <= s.end <= end
  {
  }

  predicate OverlapsAtMost(spans: seq<Span>, start: nat, overlap: nat) {
    && (forall i :: 0 <= i < |spans| ==> start <= spans[i].start)
    && forall i, j :: 0 <= i < j < |spans| ==> spans[j].start >= spans[i].end - overlap
  }

  lemma OverlapJoined(first: seq<Span>, more: seq<Span>, start: nat, next: nat, overlap: nat)
    requires |first| <= 1 && start <= next && OverlapsAtMost(more, next, overlap)
    requires forall i :: 0 <= i < |first| ==> start <= first[i].start && next >= first[i].end - overlap
    ensures OverlapsAtMost(first + more, start, overlap)
  {
    var all := first + more;
    forall i, j | 0 <= i < j < |all| ensures all[j].start >= all[i].end - overlap {
      assert all[j] == more[j - |first|];
      assert i >= |first| ==> all[i] == more[i - |first|];
    }
  }

  function PlainSpans(text: string, size: nat, overlap: nat): seq<Span>
    requires 0 < size
  {
    if Blank(text) then [] else if |Strip(text)| <= size then [StripSpan(text, 0, |text|)]
    else SpansFrom(text, 0, size, overlap)
  }

  function Shifted(spans: seq<Span>, lo: nat): (shifted: seq<Span>)
    ensures |shifted| == |spans|
    ensures forall j :: 0 <= j < |spans| ==> shifted[j] == Span(lo + spans[j].start, lo + spans[j].end)
  {
    seq(|spans|, j requires 0 <= j < |spans| => Span(lo + spans[j].start, lo + spans[j].end))
  }

  /** The spans of the chunks of `text[lo:hi]`. */
  function PartSpans(text: string, lo: nat, hi: nat, size: nat, overlap: nat): seq<Span>
    requires 0 < size && lo <= hi <= |text|
  {
    Shifted(PlainSpans(text[lo..hi], size, overlap), lo)
  }

  /** The end of the first `f` fenced blocks. */
  function FencesEnd(fences: seq<Span>, f: nat): nat
    requires f <= |fences|
  {
    if f == 0 then 0 else fences[f - 1].end
  }

  /** The spans of the chunks up to the end of the first `f` fenced blocks. */
  function FencedSpans(text: string, fences: seq<Span>, f: nat, size: nat, overlap: nat): seq<Span>
    requires 0 < size && Fenced(text, fences) && f <= |fences|
  {
    if f == 0 then [] else
    var fence := fences[f - 1];
    FencedSpans(text, fences, f - 1, size, overlap) +
      PartSpans(text, FencesEnd(fences, f - 1), fence.start, size, overlap)
    + NonEmpty(StripSpan(text, fence.start, fence.end))
  }

  /** The spans of all chunks of a document. */
  function DocumentSpans(text: string, fences: seq<Span>, size: nat, overlap: nat): seq<Span>
    requires 0 < size && Fenced(text, fences)
  {
    if Blank(text) then [] else
    FencedSpans(text, fences, |fences|, size, overlap) +
    PartSpans(text, FencesEnd(fences, |fences|), |text|, size, overlap)
  }

  datatype SettingsError = SizeNotPositive | NegativeOverlap | OverlapTooLarge

  class RecursiveSplitter {
    const chunkSize: nat
    const chunkOverlap: nat

    predicate Valid() {
      0 <= chunkOverlap < chunkSize
    }

    constructor (chunkSize: nat, chunkOverlap: nat)
      requires chunkOverlap < chunkSize
      ensures Valid() && this.chunkSize == chunkSize && this.chunkOverlap == chunkOverlap
    {
      this.chunkSize, this.chunkOverlap := chunkSize, chunkOverlap;
    }

    static method Create(chunkSize: int, chunkOverlap: int) returns (r: Result<RecursiveSplitter, SettingsError>)
      ensures r.Ok? <==> chunkSize > 0 && 0 <= chunkOverlap < chunkSize
      ensures r.Ok? ==> r.value.Valid() && r.value.chunkSize == chunkSize && r.value.chunkOverlap == chunkOverlap
    {
      if chunkSize <= 0 {
        return Err(SizeNotPositive);
      }
      if chunkOverlap < 0 {
        return Err(NegativeOverlap);
      }
      if chunkOverlap >= chunkSize {
        return Err(OverlapTooLarge);
      }
      var splitter := new RecursiveSplitter(chunkSize, chunkOverlap);
      r := Ok(splitter);
    }

    /** The chunks up to a position are the texts of spans that overlap by at most the configured overlap, are
        no longer than the chunk size, and leave out nothing but white space. */
    ghost predicate SplitsUpTo(text: string, chunks: seq<string>, spans: seq<Span>, hi: nat)
      requires hi <= |text|
    {
      && |chunks| == |spans|
      && (forall j :: 0 <= j < |chunks| ==> Fits(text, chunks[j], spans[j]))
      && Chained(spans, chunkOverlap)
      && Covers(text, spans, 0, hi)
    }

    predicate Fits(text: string, chunk: string, span: Span) {
      ChunkAt(text, span, chunk) && |chunk| <= chunkSize
    }

    /** The next span may start here. */
    predicate MayFollow(spans: seq<Span>, start: nat) {
      var n := |spans|;
      n > 0 ==> start + chunkOverlap >= spans[n - 1].end && start >= spans[n - 1].start
    }

    lemma CoversMore(text: string, spans: seq<Span>, span: Span, lo: nat, hi: nat)
      requires lo <= hi <= |text| && Covers(text, spans, 0, lo) && Covers(text, [span], lo, hi)
      ensures Covers(text, spans + [span], 0, hi)
    {
      forall i | 0 <= i < hi && !IsSpace(text[i]) ensures InSome(spans + [span], i) {
        InSomeMore(spans, [span], i);
      }
    }

    lemma ChainedMore(spans: seq<Span>, span: Span)
      requires Chained(spans, chunkOverlap) && MayFollow(spans, span.start)
      ensures Chained(spans + [span], chunkOverlap)
    {
      var all := spans + [span];
      forall j | 0 < j < |all|
        ensures all[j].start + chunkOverlap >= all[j - 1].end && all[j].start >= all[j - 1].start
      {
        if j < |spans| {
          assert all[j] == spans[j] && all[j - 1] == spans[j - 1];
        }
      }
    }

    lemma ChunkAdded(text: string, chunks: seq<string>, spans: seq<Span>, start: nat, end: nat, chunk: string,
                     span: Span)
      requires start < end <= |text| && end <= start + chunkSize
      requires SplitsUpTo(text, chunks, spans, start) && MayFollow(spans, start)
      requires ChunkAt(text, span, chunk) && start <= span.start && span.end <= end && Covers(text, [span], start, end)
      ensures SplitsUpTo(text, chunks + [chunk], spans + [span], end)
    {
      CoversMore(text, spans, span, start, end);
      ChainedMore(spans, span);
      assert span.end - span.start <= chunkSize;
    }

    /** Where the next chunk starts, after one that ends at `end`. */
    lemma NextMayFollow(text: string, spans: seq<Span>, start: nat, end: nat, span: Span, next: nat)
      requires Valid() && start < end < |text| && start <= span.start < span.end <= end
      requires !IsSpace(text[span.start]) && Covers(text, [span], start, end)
      requires start < next && end <= next + chunkOverlap && next <= |text|
      ensures MayFollow(spans + [span], SkipSpaces(text, next))
    {
      var j := SkipSpaces(text, next);
      if j < end {
        assert InSome([span], j);
        assert span.start <= j;
      }
    }

    lemma SpacesAdded(text: string, chunks: seq<string>, spans: seq<Span>, lo: nat, hi: nat)
      requires lo <= hi <= |text| && SplitsUpTo(text, chunks, spans, lo)
      requires forall i :: lo <= i < hi ==> IsSpace(text[i])
      ensures SplitsUpTo(text, chunks, spans, hi)
    {
    }

    /** Going on from a position that is not past the end of the last chunk leaves out only white space. */
    lemma Resumed(text: string, chunks: seq<string>, spans: seq<Span>, end: nat, next: nat)
      requires next <= end <= |text| && SplitsUpTo(text, chunks, spans, end)
      ensures SplitsUpTo(text, chunks, spans, SkipSpaces(text, next))
    {
      var j := SkipSpaces(text, next);
      if end < j {
        SpacesAdded(text, chunks, spans, end, j);
      }
    }

    lemma PieceAdded(text: string, chunks: seq<string>, spans: seq<Span>, start: nat, end: nat, chunk: string,
                     span: Span, next: nat)
      requires Valid() && start < end <= |text| && end <= start + chunkSize
      requires SplitsUpTo(text, chunks, spans, start) && MayFollow(spans, start)
      requires ChunkAt(text, span, chunk) && start <= span.start && span.end <= end && Covers(text, [span], start, end)
      requires start < next <= |text| && end <= next + chunkOverlap
      ensures SplitsUpTo(text, chunks + [chunk], spans + [span], end)
      ensures end < |text| ==> MayFollow(spans + [span], SkipSpaces(text, next))
    {
      ChunkAdded(text, chunks, spans, start, end, chunk, span);
      if end < |text| {
        NextMayFollow(text, spans, start, end, span, next);
      }
    }

    lemma BlankAdded(text: string, chunks: seq<string>, spans: seq<Span>, start: nat, end: nat, next: nat)
      requires start <= end <= |text| && start <= next <= |text|
      requires SplitsUpTo(text, chunks, spans, start) && MayFollow(spans, start)
      requires forall i :: start <= i < end ==> IsSpace(text[i])
      ensures SplitsUpTo(text, chunks, spans, end)
      ensures MayFollow(spans, SkipSpaces(text, next))
    {
      SpacesAdded(text, chunks, spans, start, end);
    }

    /** One round of the loop: the next chunk, unless it would be blank, and the end of what it covers. */
    method Piece(text: string, start: nat, chunks: seq<string>, ghost spans: seq<Span>)
      returns (end: nat, chunks': seq<string>, ghost spans': seq<Span>, next: nat)
      requires Valid() && start < |text| && SplitsUpTo(text, chunks, spans, start) && MayFollow(spans, start)
      ensures start < end <= |text| && start < next <= end && SplitsUpTo(text, chunks', spans', end)
      ensures end < |text| ==> MayFollow(spans', SkipSpaces(text, next))
      ensures end == EndFrom(text, start, chunkSize) &&
        SkipSpaces(text, next) == StartAfter(text, start, end, chunkOverlap)
      ensures spans' == spans + NonEmpty(StripSpan(text, start, end))
    {
      end := NextEnd(text, start);
      next := Max(start + 1, end - chunkOverlap);
      chunks', spans' := TakeChunk(text, start, end, next, chunks, spans);
    }

    /** The chunk of one range, unless it would be blank. */
    method TakeChunk(text: string, start: nat, end: nat, next: nat, chunks: seq<string>, ghost spans: seq<Span>)
      returns (chunks': seq<string>, ghost spans': seq<Span>)
      requires Valid() && start < end <= |text| && end <= start + chunkSize
      requires start < next <= end && end <= next + chunkOverlap
      requires SplitsUpTo(text, chunks, spans, start) && MayFollow(spans, start)
      ensures SplitsUpTo(text, chunks', spans', end)
      ensures end < |text| ==> MayFollow(spans', SkipSpaces(text, next))
      ensures spans' == spans + NonEmpty(StripSpan(text, start, end))
    {
      var chunk, span := StripRange(text, start, end);
      if chunk == "" {
        BlankAdded(text, chunks, spans, start, end, next);
        assert spans + [] == spans;
        return chunks, spans;
      }
      PieceAdded(text, chunks, spans, start, end, chunk, span, next);
      return chunks + [chunk], spans + [span];
    }

    /** `_split_plain`. */
    method SplitPlain(text: string) returns (chunks: seq<string>, ghost spans: seq<Span>)
      requires Valid()
      ensures SplitsUpTo(text, chunks, spans, |text|) && spans == PlainSpans(text, chunkSize, chunkOverlap)
      ensures forall c :: c in chunks ==> 0 < |c| <= chunkSize
    {
      chunks, spans := [], [];
      if Blank(text) {
        return;
      }
      var whole, wholeSpan := StripRange(text, 0, |text|);
      assert text[0..|text|] == text;
      if |whole| <= chunkSize {
        return [whole], [wholeSpan];
      }
      chunks, spans := SplitLong(text);
      ChunksFit(text, chunks, spans);
    }

    lemma ChunksFit(text: string, chunks: seq<string>, spans: seq<Span>)
      requires |chunks| == |spans|
      requires forall j :: 0 <= j < |chunks| ==> Fits(text, chunks[j], spans[j])
      ensures forall c :: c in chunks ==> 0 < |c| <= chunkSize
    {
      forall c | c in chunks ensures 0 < |c| <= chunkSize {
        var j :| 0 <= j < |chunks| && chunks[j] == c;
        assert Fits(text, chunks[j], spans[j]);
      }
    }

    lemma GoesOn(text: string, start: nat, before: seq<Span>, all: seq<Span>)
      requires Valid() && start < |text| && before + SpansFrom(text, start, chunkSize, chunkOverlap) == all
      ensures var end := EndFrom(text, start, chunkSize);
        var spans := before + NonEmpty(StripSpan(text, start, end));
        if end == |text| then spans == all
        else spans + SpansFrom(text, StartAfter(text, start, end, chunkOverlap), chunkSize, chunkOverlap) == all
    {
    }

    /** The loop over a text that does not fit one chunk. */
    method SplitLong(text: string) returns (chunks: seq<string>, ghost spans: seq<Span>)
      requires Valid()
      ensures SplitsUpTo(text, chunks, spans, |text|) && spans == SpansFrom(text, 0, chunkSize, chunkOverlap)
    {
      chunks, spans := [], [];
      var start := 0;
      while start < |text|
        invariant 0 <= start <= |text|
        invariant SplitsUpTo(text, chunks, spans, start) && MayFollow(spans, start)
        invariant spans + SpansFrom(text, start, chunkSize, chunkOverlap) == SpansFrom(text, 0, chunkSize, chunkOverlap)
        decreases |text| - start
      {
        ghost var before := spans;
        var end, next;
        end, chunks, spans, next := Piece(text, start, chunks, spans);
        GoesOn(text, start, before, SpansFrom(text, 0, chunkSize, chunkOverlap));
        if end >= |text| {
          return;
        }
        Resumed(text, chunks, spans, end, next);
        start := SkipSpaces(text, next);
      }
    }

    method NextEnd(text: string, start: nat) returns (end: nat)
      requires Valid() && start < |text|
      ensures end == EndFrom(text, start, chunkSize)
    {
      var maxEnd := if start + chunkSize < |text| then start + chunkSize else |text|;
      end := maxEnd;
      if maxEnd < |text| {
        end := PreferredBreak(text, start + Max(chunkSize / 2, 1), maxEnd);
      }
    }

    // ----- fenced blocks -----------------------------------------------------------------------------

    /** A chunk is short, or is a whole fenced block. */
    predicate FitsOrFenced(text: string, fences: seq<Span>, chunk: string)
      requires Fenced(text, fences)
    {
      |chunk| <= chunkSize || exists f :: 0 <= f < |fences| && chunk == Strip(text[fences[f].start..fences[f].end])
    }

    /** Every chunk is the text of its span, and no longer than it may be. */
    ghost predicate Placed(text: string, fences: seq<Span>, chunks: seq<string>, spans: seq<Span>)
      requires Fenced(text, fences)
    {
      && |chunks| == |spans|
      && forall j :: 0 <= j < |chunks| ==> PlacedAt(text, fences, chunks[j], spans[j])
    }

    predicate PlacedAt(text: string, fences: seq<Span>, chunk: string, span: Span)
      requires Fenced(text, fences)
    {
      ChunkAt(text, span, chunk) && FitsOrFenced(text, fences, chunk)
    }

    lemma PlacedJoined(text: string, fences: seq<Span>, chunks: seq<string>, spans: seq<Span>,
                       more: seq<string>, moreSpans: seq<Span>)
      requires Fenced(text, fences) && Placed(text, fences, chunks, spans) && Placed(text, fences, more, moreSpans)
      ensures Placed(text, fences, chunks + more, spans + moreSpans)
    {
      var all, allSpans := chunks + more, spans + moreSpans;
      forall j | 0 <= j < |all| ensures PlacedAt(text, fences, all[j], allSpans[j]) {
        if j < |chunks| {
          assert all[j] == chunks[j] && allSpans[j] == spans[j];
        } else {
          assert all[j] == more[j - |chunks|] && allSpans[j] == moreSpans[j - |chunks|];
        }
      }
    }

    /** The chunks of a document up to a position. */
    ghost predicate SplitsDocument(text: string, fences: seq<Span>, chunks: seq<string>, spans: seq<Span>, hi: nat)
      requires hi <= |text| && Fenced(text, fences)
    {
      && Placed(text, fences, chunks, spans)
      && Chained(spans, chunkOverlap) && Within(spans, 0, hi)
      && Covers(text, spans, 0, hi)
    }

    lemma CoversJoined(text: string, spans: seq<Span>, more: seq<Span>, lo: nat, hi: nat)
      requires lo <= hi <= |text| && Covers(text, spans, 0, lo) && Covers(text, more, lo, hi)
      ensures Covers(text, spans + more, 0, hi)
    {
      forall i | 0 <= i < hi && !IsSpace(text[i]) ensures InSome(spans + more, i) {
        InSomeMore(spans, more, i);
      }
    }

    lemma ChainedJoined(spans: seq<Span>, more: seq<Span>, lo: nat, hi: nat)
      requires Chained(spans, chunkOverlap) && Chained(more, chunkOverlap) && Within(spans, 0, lo) &&
        Within(more, lo, hi)
      requires forall j :: 0 <= j < |spans| ==> spans[j].start <= spans[j].end
      ensures Chained(spans + more, chunkOverlap)
    {
      var all := spans + more;
      forall j | 0 < j < |all|
        ensures all[j].start + chunkOverlap >= all[j - 1].end && all[j].start >= all[j - 1].start
      {
        if j < |spans| {
          assert all[j] == spans[j] && all[j - 1] == spans[j - 1];
        } else if j == |spans| {
          assert all[j] == more[0] && all[j - 1] == spans[j - 1];
        } else {
          assert all[j] == more[j - |spans|] && all[j - 1] == more[j - 1 - |spans|];
        }
      }
    }

    /** Chunks of what comes next are added to the chunks so far. */
    lemma DocumentJoined(text: string, fences: seq<Span>, chunks: seq<string>, spans: seq<Span>, lo: nat,
                         more: seq<string>, moreSpans: seq<Span>, hi: nat)
      requires lo <= hi <= |text| && Fenced(text, fences) && SplitsDocument(text, fences, chunks, spans, lo)
      requires Placed(text, fences, more, moreSpans)
      requires Chained(moreSpans, chunkOverlap) && Within(moreSpans, lo, hi) && Covers(text, moreSpans, lo, hi)
      ensures SplitsDocument(text, fences, chunks + more, spans + moreSpans, hi)
    {
      PlacedJoined(text, fences, chunks, spans, more, moreSpans);
      CoversJoined(text, spans, moreSpans, lo, hi);
      ChainedJoined(spans, moreSpans, lo, hi);
      assert Within(spans + moreSpans, 0, hi);
    }

    /** The chunks of `text[lo:hi]`, located in the text. */
    method PlainPart(text: string, fences: seq<Span>, lo: nat, hi: nat)
      returns (chunks: seq<string>, ghost spans: seq<Span>)
      requires Valid() && lo <= hi <= |text| && Fenced(text, fences)
      ensures Placed(text, fences, chunks, spans) && spans == PartSpans(text, lo, hi, chunkSize, chunkOverlap)
      ensures Chained(spans, chunkOverlap) && Within(spans, lo, hi) && Covers(text, spans, lo, hi)
    {
      ghost var local;
      chunks, local := SplitPlain(text[lo..hi]);
      spans := Shifted(local, lo);
      PartShifted(text, fences, lo, hi, chunks, local);
      CoversShifted(text, lo, hi, local);
    }

    lemma PartShifted(text: string, fences: seq<Span>, lo: nat, hi: nat, chunks: seq<string>, local: seq<Span>)
      requires lo <= hi <= |text| && Fenced(text, fences) && SplitsUpTo(text[lo..hi], chunks, local, hi - lo)
      ensures Placed(text, fences, chunks, Shifted(local, lo))
      ensures Chained(Shifted(local, lo), chunkOverlap) && Within(Shifted(local, lo), lo, hi)
    {
      forall j | 0 <= j < |chunks|
        ensures ChunkAt(text, Shifted(local, lo)[j], chunks[j]) && |chunks[j]| <= chunkSize
      {
        PieceShifted(text, lo, hi, chunks, local, j);
      }
      forall j | 0 <= j < |local| ensures Shifted(local, lo)[j].end <= hi {
        PieceShifted(text, lo, hi, chunks, local, j);
      }
      ChainedShifted(local, lo);
    }

    lemma PieceShifted(text: string, lo: nat, hi: nat, chunks: seq<string>, local: seq<Span>, j: nat)
      requires lo <= hi <= |text| && j < |chunks| == |local|
      requires ChunkAt(text[lo..hi], local[j], chunks[j]) && |chunks[j]| <= chunkSize
      ensures ChunkAt(text, Shifted(local, lo)[j], chunks[j])
      ensures Shifted(local, lo)[j].end <= hi
    {
      var span := Shifted(local, lo)[j];
      ChunkShifted(text, lo, hi, local[j], chunks[j]);
      assert span == Span(lo + local[j].start, lo + local[j].end);
    }

    lemma ChainedShifted(local: seq<Span>, lo: nat)
      requires Chained(local, chunkOverlap)
      ensures Chained(Shifted(local, lo), chunkOverlap)
    {
      var spans := Shifted(local, lo);
      forall j | 0 < j < |spans|
        ensures spans[j].start + chunkOverlap >= spans[j - 1].end && spans[j].start >= spans[j - 1].start
      {
        assert local[j].start + chunkOverlap >= local[j - 1].end;
      }
    }

    lemma CoversShifted(text: string, lo: nat, hi: nat, local: seq<Span>)
      requires lo <= hi <= |text| && Covers(text[lo..hi], local, 0, hi - lo)
      ensures Covers(text, Shifted(local, lo), lo, hi)
    {
      forall i | lo <= i < hi && !IsSpace(text[i]) ensures InSome(Shifted(local, lo), i) {
        assert text[i] == text[lo..hi][i - lo];
        assert InSome(local, i - lo);
        var j :| 0 <= j < |local| && local[j].start <= i - lo < local[j].end;
        assert Shifted(local, lo)[j].start <= i < Shifted(local, lo)[j].end;
      }
    }

    lemma ChunkShifted(text: string, lo: nat, hi: nat, span: Span, chunk: string)
      requires lo <= hi <= |text| && ChunkAt(text[lo..hi], span, chunk)
      ensures ChunkAt(text, Span(lo + span.start, lo + span.end), chunk) && lo + span.end <= hi
    {
      SliceOfSlice(text, lo, hi, span.start, span.end);
    }

    /** One round of the loop: the text before a fenced block, and the block. */
    method BeforeAndFence(text: string, fences: seq<Span>, f: nat, cursor: nat, chunks: seq<string>,
                          ghost spans: seq<Span>)
      returns (chunks': seq<string>, ghost spans': seq<Span>)
      requires Valid() && Fenced(text, fences) && f < |fences| && cursor <= fences[f].start
      requires SplitsDocument(text, fences, chunks, spans, cursor)
      ensures SplitsDocument(text, fences, chunks', spans', fences[f].end)
      ensures spans' == spans + PartSpans(text, cursor, fences[f].start, chunkSize, chunkOverlap)
                          + NonEmpty(StripSpan(text, fences[f].start, fences[f].end))
    {
      var plain, plainSpans := PlainPart(text, fences, cursor, fences[f].start);
      DocumentJoined(text, fences, chunks, spans, cursor, plain, plainSpans, fences[f].start);
      chunks', spans' := chunks + plain, spans + plainSpans;
      var block, span := StripRange(text, fences[f].start, fences[f].end);
      var blocks := if block != "" then [block] else [];
      ghost var blockSpans := if block != "" then [span] else [];
      DocumentJoined(text, fences, chunks', spans', fences[f].start, blocks, blockSpans, fences[f].end);
      chunks', spans' := chunks' + blocks, spans' + blockSpans;
    }

    /** `split_text`: the chunks of a document, given where its fenced blocks are. */
    method SplitText(text: string, fences: seq<Span>) returns (chunks: seq<string>, ghost spans: seq<Span>)
      requires Valid() && Fenced(text, fences)
      ensures SplitsDocument(text, fences, chunks, spans, |text|)
      ensures spans == DocumentSpans(text, fences, chunkSize, chunkOverlap)
      ensures forall c :: c in chunks ==> c != "" && FitsOrFenced(text, fences, c)
    {
      chunks, spans := [], [];
      if Blank(text) {
        return;
      }
      var cursor: nat := 0;
      for f := 0 to |fences|
        invariant cursor == FencesEnd(fences, f) <= |text| && (f < |fences| ==> cursor <= fences[f].start)
        invariant spans == FencedSpans(text, fences, f, chunkSize, chunkOverlap)
        invariant SplitsDocument(text, fences, chunks, spans, cursor)
      {
        chunks, spans := BeforeAndFence(text, fences, f, cursor, chunks, spans);
        cursor := fences[f].end;
      }
      var rest, restSpans := PlainPart(text, fences, cursor, |text|);
      DocumentJoined(text, fences, chunks, spans, cursor, rest, restSpans, |text|);
      chunks, spans := chunks + rest, spans + restSpans;
      NoneEmpty(text, fences, chunks, spans);
      chunks := KeepNonEmpty(chunks);
    }

    lemma NoneEmpty(text: string, fences: seq<Span>, chunks: seq<string>, spans: seq<Span>)
      requires Fenced(text, fences) && Placed(text, fences, chunks, spans)
      ensures KeepNonEmpty(chunks) == chunks
      ensures forall c :: c in chunks ==> c != "" && FitsOrFenced(text, fences, c)
    {
      forall j | 0 <= j < |chunks| ensures chunks[j] != "" && FitsOrFenced(text, fences, chunks[j]) {
        assert ChunkAt(text, spans[j], chunks[j]);
      }
      KeepAll(chunks);
    }
  }

  /** Fenced blocks in order, none overlapping another. */
  predicate Fenced(text: string, fences: seq<Span>) {
    && (forall f :: 0 <= f < |fences| ==> fences[f].start <= fences[f].end <= |text|)
    && (forall f :: 0 < f < |fences| ==> fences[f - 1].end <= fences[f].start)
  }

  function KeepNonEmpty(chunks: seq<string>): seq<string> {
    if chunks == [] then [] else (if chunks[0] != "" then [chunks[0]] else []) + KeepNonEmpty(chunks[1..])
  }

  lemma {:induction false} KeepAll(chunks: seq<string>)
    requires forall j :: 0 <= j < |chunks| ==> chunks[j] != ""
    ensures KeepNonEmpty(chunks) == chunks
  {
    if chunks != [] {
      KeepAll(chunks[1..]);
      assert chunks == [chunks[0]] + chunks[1..];
    }
  }

  // ----- finding the chunks again ----------------------------------------------------------------------

  datatype Located = Located(start: nat, end: nat)
  datatype LocateError = NotInDocument

  /** `_locate_offsets`. */
  method LocateOffsets(text: string, chunk: string, previousEnd: nat, overlap: nat)
    returns (r: Result<Located, LocateError>)
    ensures var first := Find(text, chunk, SearchStart(previousEnd, overlap));
      r == if first >= 0 then Ok(Located(first, first + |chunk|))
           else if Find(text, chunk, 0) >= 0 then Ok(Located(Find(text, chunk, 0), Find(text, chunk, 0) + |chunk|))
           else Err(NotInDocument)
  {
    var start := Find(text, chunk, SearchStart(previousEnd, overlap));
    if start < 0 {
      start := Find(text, chunk, 0);
    }
    if start < 0 {
      return Err(NotInDocument);
    }
    r := Ok(Located(start, start + |chunk|));
  }

  function SearchStart(previousEnd: nat, overlap: nat): nat {
    Max(0, previousEnd - overlap - 2)
  }

  /** The end of the previous chunk as it was located. */
  function PreviousEnd(places: seq<Located>, j: nat): nat
    requires j <= |places|
  {
    if j == 0 then 0 else places[j - 1].end
  }

  /** A chunk starts where the first search finds it, at or before where it came from. */
  ghost predicate FoundAtOnce(text: string, chunks: seq<string>, spans: seq<Span>, places: seq<Located>, overlap: nat,
                              j: nat)
    requires j < |chunks| == |spans| && j < |places|
  {
    && places[j].start == Find(text, chunks[j], SearchStart(PreviousEnd(places, j), overlap))
    && places[j].end == places[j].start + |chunks[j]| && places[j].start <= spans[j].start
  }

  lemma FirstSearchSucceeds(text: string, chunk: string, span: Span, from: nat)
    requires ChunkAt(text, span, chunk) && from <= span.start
    ensures 0 <= Find(text, chunk, from) <= span.start
  {
    assert text[span.start..][..|chunk|] == text[span.start..span.end];
    assert OccursAt(text, chunk, span.start);
  }

  /** The offsets of a chunk are those of its text. */
  lemma FoundText(text: string, chunk: string, from: nat)
    requires Find(text, chunk, from) >= 0
    ensures var i := Find(text, chunk, from); i + |chunk| <= |text| && text[i..i + |chunk|] == chunk
  {
    var i := Find(text, chunk, from);
    assert text[i..][..|chunk|] == text[i..i + |chunk|];
  }

  /** `split_document`: for the chunks of this splitter the first search always succeeds, at or before the place
      the chunk was taken from; the search from the beginning and the error are never reached. The offsets are those
      the chunks were taken from exactly when no chunk is ambiguous, which the text and the settings decide. */
  method SplitDocument(splitter: RecursiveSplitter, text: string, fences: seq<Span>)
    returns (r: Result<(seq<string>, seq<Located>), LocateError>, ghost spans: seq<Span>)
    requires splitter.Valid() && Fenced(text, fences)
    ensures r.Ok?
    ensures |r.value.0| == |r.value.1| == |spans|
    ensures splitter.SplitsDocument(text, fences, r.value.0, spans, |text|)
    ensures spans == DocumentSpans(text, fences, splitter.chunkSize, splitter.chunkOverlap)
    ensures AllFoundAtOnce(text, r.value.0, spans, r.value.1, splitter.chunkOverlap)
    ensures Proper(text, spans)
    ensures AllExact(r.value.1, spans, |spans|) <==> NoneAmbiguous(text, spans, splitter.chunkOverlap, |spans|)
  {
    var chunks;
    chunks, spans := splitter.SplitText(text, fences);
    var places: seq<Located> := [];
    var previousEnd := 0;
    for i := 0 to |chunks|
      invariant |places| == i && previousEnd == PreviousEnd(places, i)
      invariant AllFoundAtOnce(text, chunks, spans, places, splitter.chunkOverlap)
    {
      var located := LocateNext(text, chunks, spans, places, previousEnd, splitter.chunkOverlap);
      if located.Err? {
        return Err(NotInDocument), spans;
      }
      AllStayFound(text, chunks, spans, places, located.value, splitter.chunkOverlap);
      places := places + [located.value];
      previousEnd := located.value.end;
    }
    ProperlyPlaced(text, chunks, spans);
    LocatedExactlyIff(text, chunks, spans, places, splitter.chunkOverlap, |spans|);
    r := Ok((chunks, places));
  }

  lemma ProperlyPlaced(text: string, chunks: seq<string>, spans: seq<Span>)
    requires |chunks| == |spans| && forall j :: 0 <= j < |chunks| ==> ChunkAt(text, spans[j], chunks[j])
    ensures Proper(text, spans)
  {
    forall j | 0 <= j < |spans| ensures spans[j].start < spans[j].end <= |text| {
      assert ChunkAt(text, spans[j], chunks[j]);
    }
  }

  /** One round of the loop: where the next chunk is. */
  method LocateNext(text: string, chunks: seq<string>, ghost spans: seq<Span>, places: seq<Located>,
                    previousEnd: nat, overlap: nat)
    returns (r: Result<Located, LocateError>)
    requires |places| < |chunks| == |spans| && previousEnd == PreviousEnd(places, |places|)
    requires forall j :: 0 <= j < |chunks| ==> ChunkAt(text, spans[j], chunks[j])
    requires Chained(spans, overlap) && AllFoundAtOnce(text, chunks, spans, places, overlap)
    ensures r.Ok? && r.value.start == Find(text, chunks[|places|], SearchStart(previousEnd, overlap))
    ensures r.value.start <= spans[|places|].start && r.value.end == r.value.start + |chunks[|places|]|
  {
    ghost var i := |places|;
    if i > 0 {
      FoundEnds(text, chunks, spans, places, overlap, i - 1);
    }
    SearchStartsBefore(spans, places, overlap, i);
    FirstSearchSucceeds(text, chunks[i], spans[i], SearchStart(previousEnd, overlap));
    r := LocateOffsets(text, chunks[|places|], previousEnd, overlap);
  }

  ghost predicate AllFoundAtOnce(text: string, chunks: seq<string>, spans: seq<Span>, places: seq<Located>,
                                 overlap: nat)
    requires |places| <= |chunks| == |spans|
  {
    forall j :: 0 <= j < |places| ==> FoundAtOnce(text, chunks, spans, places, overlap, j)
  }

  /** The search for the next chunk starts no later than where the chunk came from. */
  lemma SearchStartsBefore(spans: seq<Span>, places: seq<Located>, overlap: nat, i: nat)
    requires i == |places| < |spans| && Chained(spans, overlap)
    requires i > 0 ==> places[i - 1].end <= spans[i - 1].end
    ensures SearchStart(PreviousEnd(places, i), overlap) <= spans[i].start
  {
  }

  lemma FoundEnds(text: string, chunks: seq<string>, spans: seq<Span>, places: seq<Located>, overlap: nat, j: nat)
    requires j < |places| < |chunks| == |spans| && ChunkAt(text, spans[j], chunks[j])
    requires FoundAtOnce(text, chunks, spans, places, overlap, j)
    ensures places[j].end <= spans[j].end
  {
  }

  lemma AllStayFound(text: string, chunks: seq<string>, spans: seq<Span>, places: seq<Located>, next: Located,
                     overlap: nat)
    requires |places| < |chunks| == |spans| && AllFoundAtOnce(text, chunks, spans, places, overlap)
    requires next.start == Find(text, chunks[|places|], SearchStart(PreviousEnd(places, |places|), overlap))
    requires next.end == next.start + |chunks[|places|]| && next.start <= spans[|places|].start
    ensures AllFoundAtOnce(text, chunks, spans, places + [next], overlap)
  {
    var i := |places|;
    forall j | 0 <= j <= i ensures FoundAtOnce(text, chunks, spans, places + [next], overlap, j) {
      if j < i {
        StaysFound(text, chunks, spans, places, next, overlap, j);
      } else {
        assert PreviousEnd(places + [next], i) == PreviousEnd(places, i);
      }
    }
  }

  lemma StaysFound(text: string, chunks: seq<string>, spans: seq<Span>, places: seq<Located>, next: Located,
                   overlap: nat, j: nat)
    requires |places| < |chunks| == |spans| && j < |places| && FoundAtOnce(text, chunks, spans, places, overlap, j)
    ensures FoundAtOnce(text, chunks, spans, places + [next], overlap, j)
  {
    assert PreviousEnd(places + [next], j) == PreviousEnd(places, j);
  }

  predicate Proper(text: string, spans: seq<Span>) {
    forall j :: 0 <= j < |spans| ==> spans[j].start < spans[j].end <= |text|
  }

  /** The text of a chunk does not also occur between the place where the search for it starts, if all chunks so far
      were located where they came from, and its own. */
  predicate Unambiguous(text: string, spans: seq<Span>, overlap: nat, j: nat)
    requires j < |spans| && Proper(text, spans)
  {
    var from := SearchStart(if j == 0 then 0 else spans[j - 1].end, overlap);
    forall i :: from <= i < spans[j].start ==> !OccursAt(text, text[spans[j].start..spans[j].end], i)
  }

  predicate Exact(places: seq<Located>, spans: seq<Span>, j: nat)
    requires j < |places| && j < |spans|
  {
    places[j].start == spans[j].start && places[j].end == spans[j].end
  }

  predicate AllExact(places: seq<Located>, spans: seq<Span>, n: nat)
    requires n <= |places| && n <= |spans|
  {
    forall j :: 0 <= j < n ==> Exact(places, spans, j)
  }

  predicate NoneAmbiguous(text: string, spans: seq<Span>, overlap: nat, n: nat)
    requires n <= |spans| && Proper(text, spans)
  {
    forall j :: 0 <= j < n ==> Unambiguous(text, spans, overlap, j)
  }

  lemma FoundExactlyIff(text: string, chunk: string, span: Span, from: nat)
    requires ChunkAt(text, span, chunk) && from <= span.start
    ensures Find(text, chunk, from) == span.start <==> forall i :: from <= i < span.start ==> !OccursAt(text, chunk, i)
  {
    FirstSearchSucceeds(text, chunk, span, from);
  }

  /** After a chunk that was located where it came from, the next one is, exactly when it is not ambiguous. */
  lemma NextExactIff(text: string, chunks: seq<string>, spans: seq<Span>, places: seq<Located>, overlap: nat, j: nat)
    requires j < |chunks| == |spans| == |places| && Chained(spans, overlap)
    requires Proper(text, spans) && ChunkAt(text, spans[j], chunks[j])
    requires FoundAtOnce(text, chunks, spans, places, overlap, j)
    requires j > 0 ==> Exact(places, spans, j - 1)
    ensures Exact(places, spans, j) <==> Unambiguous(text, spans, overlap, j)
  {
    FoundExactlyIff(text, chunks[j], spans[j], SearchStart(PreviousEnd(places, j), overlap));
  }

  /** Exactly when no chunk of a document is ambiguous, all of them are located where they came from. */
  lemma {:induction false} LocatedExactlyIff(text: string, chunks: seq<string>, spans: seq<Span>, places: seq<Located>,
                                             overlap: nat, n: nat)
    requires n <= |chunks| == |spans| == |places| && Chained(spans, overlap)
    requires Proper(text, spans) && forall j :: 0 <= j < |chunks| ==> ChunkAt(text, spans[j], chunks[j])
    requires AllFoundAtOnce(text, chunks, spans, places, overlap)
    ensures AllExact(places, spans, n) <==> NoneAmbiguous(text, spans, overlap, n)
  {
    if n > 0 {
      LocatedExactlyIff(text, chunks, spans, places, overlap, n - 1);
      if AllExact(places, spans, n - 1) {
        assert FoundAtOnce(text, chunks, spans, places, overlap, n - 1);
        NextExactIff(text, chunks, spans, places, overlap, n - 1);
      }
    }
  }

  const AA := "aa aa"

  /** With a chunk size of 2 and no overlap, "aa aa" becomes two chunks, and the second one is located at the first. */
  method LocatedTooEarly() returns (places: seq<Located>)
    ensures DocumentSpans(AA, [], 2, 0) == [Span(0, 2), Span(3, 5)]
    ensures places == [Located(0, 2), Located(0, 2)]
  {
    var splitter := new RecursiveSplitter(2, 0);
    var r;
    ghost var spans;
    AaSpans();
    AaOccurs();
    r, spans := SplitDocument(splitter, AA, []);
    places := r.value.1;
    AaChunks(splitter, r.value.0, spans);
    AaPlaces(r.value.0, spans, places);
  }

  lemma AaChunks(splitter: RecursiveSplitter, chunks: seq<string>, spans: seq<Span>)
    requires spans == [Span(0, 2), Span(3, 5)] && splitter.Placed(AA, [], chunks, spans)
    ensures chunks == ["aa", "aa"]
  {
    AaOccurs();
    assert splitter.PlacedAt(AA, [], chunks[0], spans[0]) && splitter.PlacedAt(AA, [], chunks[1], spans[1]);
  }

  lemma AaPlaces(chunks: seq<string>, spans: seq<Span>, places: seq<Located>)
    requires chunks == ["aa", "aa"] && spans == [Span(0, 2), Span(3, 5)] && |places| == 2
    requires AllFoundAtOnce(AA, chunks, spans, places, 0)
    ensures places == [Located(0, 2), Located(0, 2)]
  {
    AaOccurs();
    assert FoundAtOnce(AA, chunks, spans, places, 0, 0) && FoundAtOnce(AA, chunks, spans, places, 0, 1);
  }

  lemma AaOccurs()
    ensures AA[0..2] == AA[3..5] == "aa" && Find(AA, "aa", 0) == 0
  {
    assert OccursAt(AA, "aa", 0);
  }

  lemma NotInA(s: string)
    ensures s != [] && s[0] != 'a' ==> RFind("a", s) == -1
  {
    var i := RFind("a", s);
    if i >= 0 && s != [] {
      assert s <= "a"[i..] && s[0] == "a"[i..][0];
    }
  }

  lemma NoBreakInA(best: (int, nat))
    requires best == BestBreak("a", |BREAKS|)
    ensures best.0 == -1
  {
    forall j | 0 <= j < |BREAKS| ensures RFind("a", BREAKS[j]) == -1 {
      BreaksStart(j);
      NotInA(BREAKS[j]);
    }
  }

  lemma BreaksStart(j: nat)
    requires j < |BREAKS|
    ensures BREAKS[j] != [] && BREAKS[j][0] != 'a'
  {
  }

  lemma AaEnds()
    ensures EndFrom(AA, 0, 2) == 2 && EndFrom(AA, 3, 2) == 5
  {
    assert AA[1..2] == "a";
    NoBreakInA(BestBreak("a", |BREAKS|));
  }

  lemma AaStripped()
    ensures StripSpan(AA, 0, 2) == Span(0, 2) && StripSpan(AA, 3, 5) == Span(3, 5) && StartAfter(AA, 0, 2, 0) == 3
  {
    AaOccurs();
    assert !IsSpace("aa"[0]) && !IsSpace("aa"[1]) && IsSpace(AA[2]) && !IsSpace(AA[3]);
  }

  lemma AaIsLong()
    ensures Strip(AA) == AA && !Blank(AA)
  {
    assert !IsSpace(AA[0]) && !IsSpace(AA[4]);
  }

  lemma AaSpans()
    ensures DocumentSpans(AA, [], 2, 0) == [Span(0, 2), Span(3, 5)]
  {
    AaIsLong();
    AaEnds();
    AaStripped();
    assert SpansFrom(AA, 3, 2, 0) == [Span(3, 5)];
    assert SpansFrom(AA, 0, 2, 0) == [Span(0, 2), Span(3, 5)];
    assert AA[0..5] == AA;
    assert PartSpans(AA, 0, 5, 2, 0) == [Span(0, 2), Span(3, 5)];
  }
}
