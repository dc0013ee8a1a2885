/**
 * The two sinks. `ConsoleAppender::log` writes the line and `endl` to standard output;
 * `FileAppender::log` does the same to its file stream, but only when the stream is open,
 * and nothing ever opens it. Each sink's output is the sequence of lines it was given;
 * `Text` gives the characters those lines make on the stream.
 */
module Appenders {
  import opened Text

  /** The characters a sequence of lines puts on a stream: each line followed by '\n'. */
  function Joined(lines: seq<string>): (r: string)
    ensures r == [] <==> lines == []
    ensures lines != [] ==> r[|r| - 1] == '\n'
  {
    if lines == [] then "" else lines[0] + "\n" + Joined(lines[1..])
  }

  /** Reads a stream back as lines, cutting at each '\n'; unterminated trailing text is one more line. */
  function SplitLines(s: string): seq<string>
    decreases |s|
  {
    match SplitAt(s, '\n')
    case None => if s == [] then [] else [s]
    case Some(lineRest) => [lineRest.0] + SplitLines(lineRest.1)
  }

  /** Writing one more line adds that line and one terminator at the end of the stream. */
  lemma {:induction false} JoinedAppend(lines: seq<string>, line: string)
    ensures Joined(lines + [line]) == Joined(lines) + line + "\n"
    decreases |lines|
  {
    if lines != [] {
      assert (lines + [line])[1..] == lines[1..] + [line];
      JoinedAppend(lines[1..], line);
    }
  }

  /** As long as no line holds a newline, the stream reads back as exactly the lines written. */
  lemma {:induction false} SplitJoinedLines(lines: seq<string>)
    requires forall i :: 0 <= i < |lines| ==> '\n' !in lines[i]
    ensures SplitLines(Joined(lines)) == lines
    decreases |lines|
  {
    if lines != [] {
      SplitAtJoin(lines[0], '\n', Joined(lines[1..]));
      assert Joined(lines) == lines[0] + ['\n'] + Joined(lines[1..]);
      SplitJoinedLines(lines[1..]);
    }
  }

  /** A message with an embedded newline puts the same text on the stream as two lines, and reads back as two. */
  lemma EmbeddedNewlineSplitsRecord(a: string, b: string)
    requires '\n' !in a && '\n' !in b
    ensures Joined([a + "\n" + b]) == Joined([a, b])
    ensures SplitLines(Joined([a + "\n" + b])) == [a, b]
  {
    SplitJoinedLines([a, b]);
  }

  /** The console sink: every line it is given goes to standard output. */
  class ConsoleAppender {
    /** The lines written to standard output, oldest first. */
    var lines: seq<string>

    constructor ()
      ensures lines == []
    {
      lines := [];
    }

    /** The characters on standard output. */
    function Text(): string
      reads this
    {
      Joined(lines)
    }

    method Log(msg: string)
      modifies this
      ensures lines == old(lines) + [msg]
      ensures Text() == old(Text()) + msg + "\n"
    {
      JoinedAppend(lines, msg);
      lines := lines + [msg];
    }
  }

  /** The effect of `FileAppender::log` on the file: the line is added only when the stream is open. */
  function FileWrite(isOpen: bool, contents: seq<string>, msg: string): (r: seq<string>)
    // Earlier lines are never touched; at most the one new line is added.
    ensures |r| == if isOpen then |contents| + 1 else |contents|
    ensures r[..|contents|] == contents
    ensures isOpen ==> r[|contents|] == msg
  {
    if isOpen then contents + [msg] else contents
  }

  /** The file sink. Its stream is default-constructed and never opened. */
  class FileAppender {
    /** `file_.is_open()` */
    var isOpen: bool
    /** The lines written to the file, oldest first. */
    var contents: seq<string>

    /** The default constructor: `file_` is a closed `std::ofstream`. */
    constructor ()
      ensures !isOpen && contents == []
    {
      isOpen := false;
      contents := [];
    }

    function Text(): string
      reads this
    {
      Joined(contents)
    }

    method Log(msg: string)
      modifies this`contents
      ensures contents == FileWrite(isOpen, old(contents), msg)
      ensures isOpen == old(isOpen)
      ensures !isOpen ==> contents == old(contents)
      ensures isOpen ==> Text() == old(Text()) + msg + "\n"
    {
      if isOpen {
        JoinedAppend(contents, msg);
        contents := contents + [msg];
      }
    }
  }
}
