/**
 * The consumer of the classified stream: token classes and a writer that
 * receives (text, class) pairs in order. The renderers behind the writer
 * (terminal colours, HTML, LaTeX) are not modelled.
 */
module Output {

  /** The highlighting classes; NONE means "not classified yet". */
  datatype TokenClass =
    | NONE
    | Type
    | Keyword
    | Comment
    | Namespace
    | Preprocessor
    | String
    | Char
    | Numeric
    | Other
    | Whitespace
    | Variable
    | Function

  /** One call of writeToken: a piece of source text and its class. */
  datatype Span = Span(text: string, cls: TokenClass)

  /** The concatenation of the texts of `spans`, in order. */
  function Text(spans: seq<Span>): string {
    if spans == [] then [] else Text(spans[..|spans| - 1]) + spans[|spans| - 1].text
  }

  /** Appending a span appends its text. */
  lemma TextAppend(spans: seq<Span>, s: Span)
    ensures Text(spans + [s]) == Text(spans) + s.text
  {
    assert (spans + [s])[..|spans|] == spans;
  }

  /** An output writer, observed as the sequence of spans it has received. */
  class OutputWriter {
    var written: seq<Span>

    constructor ()
      ensures written == []
    {
      written := [];
    }

    method WriteToken(text: string, cls: TokenClass)
      modifies this
      ensures written == old(written) + [Span(text, cls)]
    {
      written := written + [Span(text, cls)];
    }
  }
}
