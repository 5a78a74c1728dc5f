# Interactive PDF reader: page-window excerpt and chat history

The application is a single-session question-answering page over an uploaded
PDF. Almost all of its work is done by external libraries (embedding, vector
search, the chat chain, PDF parsing and writing, UI rendering). This project
models the two pieces of logic that run in the application itself:

- **The page-window excerpt** (`PdfExcerpt`, file `excerpt.dfy`). Given the
  top source page `N` of an answer and the document's pages, the application
  computes `start = max(N - 2, 0)` and `end = min(N + 2, len(pages) - 1)` and
  copies `pages[start]`, …, `pages[end]` one by one into a new PDF writer.
  Pages are values of an opaque type parameter `P`; the writer is the class
  `Writer` whose `pages` field `AddPage` appends to. `CopyWindow` is the copy
  loop, proved against the specification function `Window`. `RunLoop` is the
  loop's step-by-step meaning written as recursion, and
  `RunLoopAppendsRange` proves it appends exactly the range of pages.
- **The chat history** (`ChatHistory`, file `chat.dfy`). The session keeps a
  list of (question, answer) pairs and the latest source page. Handling a
  question appends exactly one pair; the answer and the page come from the
  external chain and are inputs.
- **One question round** (`App`, file `app.dfy`) chains the two. When a
  question has been typed, it records the exchange and then builds the excerpt
  around the new source page. It also picks the excerpt page the viewer opens,
  using the corrected page from "## Findings". With no question typed, the
  round does nothing.

Page numbers are unbounded integers, which matches Python's `int`. The model
accepts any `N`, including values outside the document. In that case the
window may be empty and nothing is copied.

## Model

| member | source | states |
|---|---|---|
| PdfExcerpt.WindowStart | app.py:93 | the start index is never negative, never earlier than `N - 2`, and is either 0 or `N - 2` |
| PdfExcerpt.WindowEnd | app.py:94 | the end index never exceeds the last page index `len(pages) - 1` nor `N + 2`, and is one of the two |
| PdfExcerpt.WindowBoundsExact | app.py:93-94 | an index lies between start and end if and only if it is a page of the document within two pages of `N` |
| PdfExcerpt.Window | app.py:93-97 | the excerpt holds at most 5 pages; its k-th page is document page `start + k`, which is near `N`; every document page within two of `N` appears in it at offset `i - start` |
| PdfExcerpt.SourcePageIncluded | app.py:93-97 | when `0 <= N < len(pages)`, the excerpt is non-empty and holds page `N` at offset `N - start` |
| PdfExcerpt.EmptyDocument | app.py:94-95 | a document with no pages yields an empty excerpt, and the end index is -1 for every `N >= -3` |
| PdfExcerpt.FullWindow | app.py:93-95 | with two pages on both sides of `N`, the excerpt holds exactly 5 pages |
| PdfExcerpt.RunLoopAppendsRange | app.py:95-97 | the loop appends, after what the writer already held, the pages `start .. end` in increasing order, each once, and nothing when `start > end` |
| PdfExcerpt.RunLoopAppendsWindow | app.py:93-97 | run from the computed bounds, the loop appends exactly the window |
| PdfExcerpt.Writer.constructor | app.py:92 | a new writer holds no pages |
| PdfExcerpt.Writer.AddPage | app.py:96 | `add_page` appends one page after those already held |
| PdfExcerpt.CopyWindow | app.py:93-97 | the while loop reads only in-bounds pages and leaves the writer holding its old pages followed by the window; its invariant keeps the loop's recursive meaning `RunLoop` (app.py:95-97) unchanged across each step |
| PdfExcerpt.ViewerPageAsWrittenMissesSource | app.py:103 | as written, the viewer's fixed page 3 does not show source page 0 of a four-page document |
| PdfExcerpt.SourceViewerPage | app.py:103 | the 1-based excerpt page `N - start + 1` shows source page `N`; it equals 3 exactly when `N >= 2` |
| ChatHistory.Record | app.py:36 | the new history is one longer, keeps every earlier entry as a prefix, and ends with `(query, answer)` |
| ChatHistory.Session.constructor | app.py:56-59 | a new session has an empty history and source page 0 |
| ChatHistory.Session.HandleUserInput | app.py:33-38 | handling a question appends exactly `(query, answer)` and stores the answer's source page |
| App.AnswerQuestion | app.py:85-97 | an empty question changes nothing and builds no writer (the guard at line 85); otherwise the round records the exchange, returns a fresh writer holding exactly the window around the new source page, and a viewer page that shows the source page when it is in the document |

## Left out

- Streamlit layout, widgets, the CSS and HTML templates, and the display loop over the history (app.py:14, 41-43, 53-69, 103-106): UI owned by the hosting framework.
- The embedding model, the Chroma index and the retrieval chain (app.py:17-29, 35): external calls. Their answer and source page are inputs to `Session.HandleUserInput`. The model also leaves out one failure. If a question is asked before a PDF is processed, `conversation` is still `None` (app.py:55), so the call at app.py:35 raises before the append at app.py:36.
- Reading `N` out of the source document's metadata (app.py:38): it depends on an external object layout, so the page is a parameter.
- The file upload, temporary files, PDF parsing with `PyPDFLoader` and `PdfReader`, and `PdfWriter.write` (app.py:71-80, 87-90, 98-100): I/O and PDF format handling. The document is a sequence of pages.
- Base64 encoding and the rest of the iframe markup (app.py:101-106): a library call and UI. Only the viewer's page number is modelled.
- App.AnswerQuestion: its viewer page is the corrected `SourceViewerPage` from "## Findings", not the program's fixed page 3 (app.py:103). It keeps the fixed 3 only when the source page is outside the document, where no page shows it.
- The chain sees the history as it was before the new exchange (app.py:35): the chain is external, so this ordering has no effect in the model.

## Findings

| source | as written | input that shows it | evidently intended | confidence | as-written member | corrected member |
|---|---|---|---|---|---|---|
| app.py:103 | the viewer always opens page 3 of the excerpt | source page `N = 0` of a four-page document: the excerpt is pages 0-2, and its page 3 is document page 2 | open the excerpt at page `N - start + 1`, the page that shows `N` | medium, not executed | PdfExcerpt.ViewerPageAsWrittenMissesSource | PdfExcerpt.SourceViewerPage |
