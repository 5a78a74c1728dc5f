// One question round: when the user has typed a question, the session records
// the exchange, then the excerpt around the new source page is copied into a
// fresh writer.
module App {
  import opened PdfExcerpt
  import opened ChatHistory

  /**
   * The round run on each page render. An empty `query` (no question typed)
   * runs nothing: the session is unchanged, no writer is built (`null`) and
   * no viewer page is chosen (0). Otherwise the query is answered with the
   * chain's `answer` and source `page`, the excerpt of `reader` around that
   * page is built, and the viewer page is the corrected one that shows the
   * source page; when the page is outside the document there is no source
   * page to show and the fixed page 3 is kept.
   */
  method AnswerQuestion<P>(session: Session, query: string, answer: string, page: int, reader: seq<P>)
    returns (writer: Writer?<P>, viewerPage: nat)
    modifies session
    ensures query == "" ==> writer == null && viewerPage == 0
    ensures query == "" ==> session.history == old(session.history) && session.sourcePage == old(session.sourcePage)
    ensures query != "" ==> writer != null && fresh(writer)
    ensures query != "" ==> session.history == Record(old(session.history), query, answer)
    ensures query != "" ==> session.sourcePage == page
    ensures query != "" ==> writer.pages == Window(reader, page)
    ensures query != "" && 0 <= page < |reader| ==>
              1 <= viewerPage <= |writer.pages| && writer.pages[viewerPage - 1] == reader[page]
    ensures query != "" && !(0 <= page < |reader|) ==> viewerPage == ViewerPageAsWritten
  {
    if query == "" {
      writer, viewerPage := null, 0;
      return;
    }
    session.HandleUserInput(query, answer, page);
    var w := new Writer();
    CopyWindow(reader, session.sourcePage, w);
    writer := w;
    viewerPage := if 0 <= page < |reader| then SourceViewerPage(reader, page) else ViewerPageAsWritten;
  }
}
