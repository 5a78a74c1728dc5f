// The conversation state kept across questions: the growing list of
// (question, answer) pairs and the page number of the latest top source.
module ChatHistory {

  /** One exchange: the user's question and the chain's answer. */
  type Exchange = (string, string)

  /** The history after one more exchange is recorded. */
  function Record(history: seq<Exchange>, query: string, answer: string): (h: seq<Exchange>)
    ensures |h| == |history| + 1
    ensures h[..|history|] == history
    ensures h[|history|] == (query, answer)
  {
    history + [(query, answer)]
  }

  /** The session state: the chat history and the latest source page `N`. */
  class Session {
    var history: seq<Exchange>
    var sourcePage: int

    /** A fresh session starts with an empty history and source page 0. */
    constructor ()
      ensures history == [] && sourcePage == 0
    {
      history := [];
      sourcePage := 0;
    }

    /**
     * Handling a question: the answer and its top source page come from the
     * retrieval chain and are inputs here. Exactly one exchange is appended.
     */
    method HandleUserInput(query: string, answer: string, page: int)
      modifies this
      ensures history == Record(old(history), query, answer)
      ensures sourcePage == page
    {
      history := history + [(query, answer)];
      sourcePage := page;
    }
  }
}
