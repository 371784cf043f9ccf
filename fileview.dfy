/** The file-facing helpers of main.py: the result-limit loop of
    `search_files`, the context window of `get_file_content` and the
    extension table `_get_file_type`.

    The `ag` process is not run: its standard output is given as the lines
    `readline()` would return, each still carrying its line break. */
module FileView {
  import opened Text

  /** A line as `readline()` returns it before the end of the stream: never
      empty (the empty string is how the end of the stream shows). */
  type RawLine = s: string | s != [] witness "\n"

  function Min(a: int, b: int): int { if a <= b then a else b }
  function Max(a: int, b: int): int { if a <= b then b else a }

  /** The number of lines `search_files` keeps: all of them when the limit is
      not positive, at most `limit` otherwise. */
  function Kept(total: nat, limit: int): (n: nat)
    ensures n <= total
    ensures limit > 0 ==> n <= limit
    ensures limit <= 0 ==> n == total
    ensures limit > 0 ==> n == Min(total, limit)
  {
    if limit <= 0 then total else Min(total, limit)
  }

  /** Each line stripped, in order. */
  function StripAll(lines: seq<string>): (r: seq<string>)
    ensures |r| == |lines|
    ensures forall i :: 0 <= i < |lines| ==> r[i] == Strip(lines[i])
  {
    if lines == [] then [] else StripAll(lines[..|lines| - 1]) + [Strip(lines[|lines| - 1])]
  }

  lemma StripAllStep(lines: seq<string>, i: nat)
    requires i < |lines|
    ensures StripAll(lines[..i + 1]) == StripAll(lines[..i]) + [Strip(lines[i])]
  {
    assert lines[..i + 1][..i] == lines[..i];
  }

  /** The result-limit loop of `search_files` (main.py:53-69): the first lines
      of the output, stripped, and whether another line follows the first
      `limit` ones. */
  method SearchFiles(output: seq<RawLine>, limit: int) returns (results: seq<string>, limited: bool)
    ensures results == StripAll(output[..Kept(|output|, limit)])
    ensures limited <==> limit > 0 && |output| > limit
  {
    results := [];
    var count := 0;
    while limit <= 0 || count < limit
      invariant 0 <= count <= |output|
      invariant limit > 0 ==> count <= limit
      invariant results == StripAll(output[..count])
      decreases |output| - count
    {
      var line: string := if count < |output| then output[count] else "";
      if line == "" {
        break;
      }
      StripAllStep(output, count);
      results := results + [Strip(line)];
      count := count + 1;
    }
    limited := false;
    if limit > 0 && count == limit {
      var line: string := if count < |output| then output[count] else "";
      if line != "" {
        limited := true;
      }
    }
  }

  /** One entry of the `context` list of `get_file_content`. */
  datatype ContextLine = ContextLine(lineNumber: int, content: string, isMatch: bool)

  predicate IsLineBreak(c: char) {
    c == '\n' || c == '\r'
  }

  /** `line.rstrip('\n\r')`. */
  function RStripLineBreaks(line: string): string {
    TrimEnd(line, IsLineBreak)
  }

  /** What `rstrip('\n\r')` leaves: a prefix of the line that does not end
      in a line break, with only line breaks cut off. */
  lemma RStripLineBreaksMeaning(line: string)
    ensures var r := RStripLineBreaks(line);
            && |r| <= |line| && r == line[..|r|]
            && (r == [] || !IsLineBreak(r[|r| - 1]))
            && forall i :: |r| <= i < |line| ==> IsLineBreak(line[i])
  {
  }

  /** The window of lines `max(1, n - k)` to `min(total, n + k)` around line
      `n`, numbered from 1. */
  function Window(lines: seq<string>, lineNumber: int, contextLines: int): seq<ContextLine> {
    var lo := Max(1, lineNumber - contextLines);
    var hi := Min(|lines|, lineNumber + contextLines);
    if hi < lo then []
    else seq(hi - lo + 1, j requires 0 <= j < hi - lo + 1 =>
               ContextLine(lo + j, RStripLineBreaks(lines[lo + j - 1]), lo + j == lineNumber))
  }

  /** The context loop of `get_file_content` (main.py:138-150). */
  method ContextWindow(lines: seq<string>, lineNumber: int, contextLines: int)
    returns (context: seq<ContextLine>)
    ensures context == Window(lines, lineNumber, contextLines)
  {
    var totalLines := |lines|;
    var startLine := Max(1, lineNumber - contextLines);
    var endLine := Min(totalLines, lineNumber + contextLines);
    context := [];
    var i := startLine - 1;
    while i < endLine
      invariant startLine - 1 <= i
      invariant endLine < startLine ==> context == []
      invariant startLine <= endLine ==> i <= endLine
      invariant |context| == i - startLine + 1
      invariant forall j :: 0 <= j < |context| ==>
                  context[j] == ContextLine(startLine + j, RStripLineBreaks(lines[startLine + j - 1]),
                                            startLine + j == lineNumber)
    {
      if i < |lines| {
        context := context + [ContextLine(i + 1, RStripLineBreaks(lines[i]), i + 1 == lineNumber)];
      }
      i := i + 1;
    }
  }

  /** The window holds consecutive line numbers, from `max(1, n - k)` up,
      each naming a line of the file, with the line's text without its line
      break. */
  lemma WindowLines(lines: seq<string>, lineNumber: int, contextLines: int)
    ensures var w := Window(lines, lineNumber, contextLines);
            && |w| == Max(0, Min(|lines|, lineNumber + contextLines) - Max(1, lineNumber - contextLines) + 1)
            && forall j :: 0 <= j < |w| ==>
                 && w[j].lineNumber == Max(1, lineNumber - contextLines) + j
                 && 1 <= w[j].lineNumber <= |lines|
                 && w[j].content == RStripLineBreaks(lines[w[j].lineNumber - 1])
                 && (j + 1 < |w| ==> w[j + 1].lineNumber == w[j].lineNumber + 1)
  {
  }

  /** At most one entry is marked as the match, and one is exactly when line
      `n` exists and the context size is not negative. */
  lemma WindowMatch(lines: seq<string>, lineNumber: int, contextLines: int)
    ensures var w := Window(lines, lineNumber, contextLines);
            && (forall i, j :: 0 <= i < |w| && 0 <= j < |w| && w[i].isMatch && w[j].isMatch ==> i == j)
            && ((exists j :: 0 <= j < |w| && w[j].isMatch)
                <==> 1 <= lineNumber <= |lines| && contextLines >= 0)
  {
    var w := Window(lines, lineNumber, contextLines);
    var lo := Max(1, lineNumber - contextLines);
    if 1 <= lineNumber <= |lines| && contextLines >= 0 {
      assert w[lineNumber - lo].isMatch;
    }
  }

  /** The extension table of `_get_file_type` (main.py:169-185). */
  const TypeMapping: map<string, string> := map[
    ".c" := "c", ".h" := "c", ".hpp" := "c",
    ".cpp" := "cpp", ".cc" := "cpp", ".cxx" := "cpp",
    ".py" := "python",
    ".js" := "javascript", ".jsx" := "javascript",
    ".md" := "markdown", ".markdown" := "markdown",
    ".html" := "html", ".htm" := "html",
    ".css" := "css",
    ".json" := "json"]

  /** The file types `_get_file_type` can answer. */
  const FileTypes: set<string> := {"c", "cpp", "python", "javascript", "markdown", "html", "css", "json", "text"}

  /** `_get_file_type` (main.py:167-186): the table's entry, `"text"` for an
      extension not in it. The lookup is exact: `get_file_content` lowers the
      extension before asking. */
  function FileType(extension: string): (t: string)
    ensures t in FileTypes
    ensures t == "text" <==> extension !in TypeMapping
  {
    if extension in TypeMapping then TypeMapping[extension] else "text"
  }

  /** The C family: `.c`, `.h` and `.hpp` are C, `.cpp`, `.cc` and `.cxx` are
      C++, and nothing else is either. */
  lemma CFamily(extension: string)
    ensures FileType(extension) == "c" <==> extension in {".c", ".h", ".hpp"}
    ensures FileType(extension) == "cpp" <==> extension in {".cpp", ".cc", ".cxx"}
  {
  }
}
