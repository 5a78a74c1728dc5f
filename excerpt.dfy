// The page-window excerpt: around the top retrieved source page N, the
// application copies the pages N-2 .. N+2 (clamped to the document) into a
// fresh PDF writer, one page at a time, in document order.
module PdfExcerpt {

  /** How many pages on either side of the source page the excerpt shows. */
  const Radius: nat := 2

  /** The largest number of pages an excerpt can hold. */
  const MaxExcerpt: nat := 2 * Radius + 1

  /** First page index of the window: `max(N - 2, 0)`. */
  function WindowStart(n: int): (s: nat)
    ensures n - Radius <= s
    ensures s == 0 || s == n - Radius
  {
    if n - Radius > 0 then n - Radius else 0
  }

  /** Last page index of the window: `min(N + 2, count - 1)`; it is -1 for an empty document. */
  function WindowEnd(n: int, count: nat): (e: int)
    ensures e <= count - 1 && e <= n + Radius
    ensures e == count - 1 || e == n + Radius
  {
    if n + Radius < count - 1 then n + Radius else count - 1
  }

  /** Page index `i` lies inside the document and within `Radius` pages of `n`. */
  predicate NearSource(i: int, n: int, count: nat)
  {
    0 <= i < count && n - Radius <= i <= n + Radius
  }

  /**
   * The pages the excerpt receives: the consecutive pages from WindowStart to
   * WindowEnd, or none when the window is empty.
   */
  function Window<P>(pages: seq<P>, n: int): (w: seq<P>)
    ensures |w| <= MaxExcerpt
    ensures forall k :: 0 <= k < |w| ==>
              NearSource(WindowStart(n) + k, n, |pages|) && w[k] == pages[WindowStart(n) + k]
    ensures forall i :: NearSource(i, n, |pages|) ==>
              0 <= i - WindowStart(n) < |w| && w[i - WindowStart(n)] == pages[i]
  {
    var s, e := WindowStart(n), WindowEnd(n, |pages|);
    if s <= e then
      WindowBoundsExact(n, |pages|);
      pages[s..e + 1]
    else []
  }

  /** The window's bounds select exactly the in-document pages within `Radius` of `n`. */
  lemma WindowBoundsExact(n: int, count: nat)
    ensures forall i :: WindowStart(n) <= i <= WindowEnd(n, count) <==> NearSource(i, n, count)
  {
  }

  /** A source page that exists in the document is always part of its excerpt. */
  lemma SourcePageIncluded<P>(pages: seq<P>, n: int)
    requires 0 <= n < |pages|
    ensures 1 <= |Window(pages, n)|
    ensures n - WindowStart(n) < |Window(pages, n)| && Window(pages, n)[n - WindowStart(n)] == pages[n]
  {
  }

  /**
   * An empty document copies nothing; for any page number that is not below
   * -3 (page numbers are never negative) the window end is -1.
   */
  lemma EmptyDocument<P>(pages: seq<P>, n: int)
    requires |pages| == 0
    ensures -3 <= n ==> WindowEnd(n, |pages|) == -1
    ensures Window(pages, n) == []
  {
  }

  /** Away from the document's edges the excerpt holds exactly five pages. */
  lemma FullWindow<P>(pages: seq<P>, n: int)
    requires Radius <= n && n + Radius < |pages|
    ensures |Window(pages, n)| == MaxExcerpt
  {
  }

  /** The page the inline viewer opens in the excerpt, as written: always page 3 (1-based). */
  const ViewerPageAsWritten: nat := 3

  /**
   * As written, the viewer misses the source page near the start of the
   * document: for source page 0 of a four-page document, the excerpt's third
   * page is the document's page 2.
   */
  lemma ViewerPageAsWrittenMissesSource()
    ensures var pages := [10, 11, 12, 13];
            ViewerPageAsWritten <= |Window(pages, 0)| &&
            Window(pages, 0)[ViewerPageAsWritten - 1] != pages[0]
  {
  }

  /**
   * The 1-based excerpt page that shows source page `n`. It equals the
   * as-written page 3 exactly when there are two pages before `n`.
   */
  function SourceViewerPage<P>(pages: seq<P>, n: int): (p: nat)
    requires 0 <= n < |pages|
    ensures 1 <= p <= |Window(pages, n)| && Window(pages, n)[p - 1] == pages[n]
    ensures p == ViewerPageAsWritten <==> Radius <= n
  {
    SourcePageIncluded(pages, n);
    n - WindowStart(n) + 1
  }

  /**
   * What the copy loop appends: starting from the pages `written` already in the
   * writer and the index `start`, each step appends `pages[start]` and moves on,
   * until `start` passes `end`.
   */
  function RunLoop<P>(written: seq<P>, pages: seq<P>, start: int, end: int): seq<P>
    requires 0 <= start && end < |pages|
    decreases end - start + 1
  {
    if start <= end then RunLoop(written + [pages[start]], pages, start + 1, end) else written
  }

  /** The copy loop appends, after what the writer held, the pages `start .. end` in order. */
  lemma {:induction false} RunLoopAppendsRange<P>(written: seq<P>, pages: seq<P>, start: int, end: int)
    requires 0 <= start && end < |pages|
    ensures RunLoop(written, pages, start, end) ==
            written + (if start <= end then pages[start..end + 1] else [])
    decreases end - start + 1
  {
    if start <= end {
      RunLoopAppendsRange(written + [pages[start]], pages, start + 1, end);
      if start < end {
        assert [pages[start]] + pages[start + 1..end + 1] == pages[start..end + 1];
      }
    }
  }

  /** Run from the window's bounds, the copy loop appends exactly the window. */
  lemma RunLoopAppendsWindow<P>(written: seq<P>, pages: seq<P>, n: int)
    ensures RunLoop(written, pages, WindowStart(n), WindowEnd(n, |pages|)) == written + Window(pages, n)
  {
    RunLoopAppendsRange(written, pages, WindowStart(n), WindowEnd(n, |pages|));
  }

  /** The PDF writer under construction: the pages added to it so far, in order. */
  class Writer<P> {
    var pages: seq<P>

    /** A new writer holds no pages. */
    constructor ()
      ensures pages == []
    {
      pages := [];
    }

    /** `add_page`: appends one page after those already added. */
    method AddPage(p: P)
      modifies this
      ensures pages == old(pages) + [p]
    {
      pages := pages + [p];
    }
  }

  /**
   * The copy loop: computes the clamped window around page `n` and adds the
   * pages of `reader` inside it to `writer`, one at a time. Every index read
   * from `reader` is in bounds.
   */
  method CopyWindow<P>(reader: seq<P>, n: int, writer: Writer<P>)
    modifies writer
    ensures writer.pages == old(writer.pages) + Window(reader, n)
  {
    var start := WindowStart(n);
    var end := WindowEnd(n, |reader|);
    while start <= end
      invariant 0 <= start
      invariant RunLoop(writer.pages, reader, start, end) ==
                RunLoop(old(writer.pages), reader, WindowStart(n), end)
      decreases end - start + 1
    {
      writer.AddPage(reader[start]);
      start := start + 1;
    }
    RunLoopAppendsWindow(old(writer.pages), reader, n);
  }
}
