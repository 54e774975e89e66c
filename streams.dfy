/** A text file or console opened for writing, seen as the lines written to it
    so far (each `write` in the script ends its text with a newline). */
module Streams {

  class TextStream {
    var lines: seq<string>

    constructor ()
      ensures lines == []
    {
      lines := [];
    }

    /** Writes `s` followed by a newline. */
    method WriteLine(s: string)
      modifies this
      ensures lines == old(lines) + [s]
    {
      lines := lines + [s];
    }
  }
}
