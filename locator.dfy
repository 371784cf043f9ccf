/** The occurrence locator of main.py: `find_function_callers` reads the
    output of `cscope -d -L -3 <name>`, and falls back to
    `grep_function_callers`, which reads the output of a recursive `grep -rn`.

    The external processes are not run: each tool run is given as its exit
    status and its decoded standard output, or `None` when starting or
    waiting for it raised. Reading a source file is a parameter too. */
module Locator {
  import opened Wrappers
  import opened Text
  import opened Classifier

  /** One caller record as the locator builds it (main.py:454-460, 544-550). */
  datatype CallSite = CallSite(
    filePath: string,
    functionContext: string,
    lineNumber: int,
    codeLine: string,
    callerFunction: string)

  /** A finished tool run: `returncode` and `stdout.decode()`. */
  datatype ProcessOutput = ProcessOutput(returnCode: int, stdout: string)

  /** The `os.path` functions the locator calls. */
  datatype PathOps = PathOps(
    relpath: (string, string) -> string,
    join: (string, string) -> string,
    isAbs: string -> bool)

  /** What the loop body does with one output line: skip it, append a caller
      record, or raise (`int()` of a malformed line number). */
  datatype LineOutcome = Skip | Keep(site: CallSite) | Raise

  /** `stdout.decode().strip().split('\n')`. */
  function OutputLines(stdout: string): seq<string> {
    Split(Strip(stdout), '\n', -1)
  }

  /** `os.path.relpath(file_path, base_path)` when the path starts with the
      base path, the path itself otherwise. */
  function Relative(paths: PathOps, filePath: string, basePath: string): string {
    if StartsWith(filePath, basePath) then paths.relpath(filePath, basePath) else filePath
  }

  /** The path `find_containing_function` opens (main.py:565-566). */
  function FullPath(paths: PathOps, basePath: string, filePath: string): string {
    if paths.isAbs(filePath) then filePath else paths.join(basePath, filePath)
  }

  /** One line of cscope output, `file context line code` (main.py:429-460). */
  function CscopeLine(m: Matchers, paths: PathOps, name: string, basePath: string, line: string): LineOutcome {
    if Strip(line) == [] then Skip
    else
      var parts := Split(line, ' ', 3);
      if |parts| < 4 then Skip
      else if IsFunctionDeclaration(m, parts[3], name) then Skip
      else if !IsFunctionCall(m, parts[3], name) then Skip
      else
        var filePath := Relative(paths, parts[0], basePath);
        var caller := ExtractCallerFunction(m, parts[1], parts[3]);
        match PyInt(parts[2])
        case None => Raise
        case Some(n) => Keep(CallSite(filePath, parts[1], n, Strip(parts[3]), caller))
  }

  /** One line of grep output, `file:line:code` (main.py:519-550); the caller
      is found by scanning the file backwards. */
  function GrepLine(m: Matchers, paths: PathOps, name: string, basePath: string,
                    readFile: string -> Option<seq<string>>, line: string): LineOutcome {
    if Strip(line) == [] then Skip
    else
      var parts := Split(line, ':', 2);
      if |parts| < 3 then Skip
      else if IsFunctionDeclaration(m, parts[2], name) then Skip
      else if !IsFunctionCall(m, parts[2], name) then Skip
      else
        var filePath := Relative(paths, parts[0], basePath);
        match PyInt(parts[1])
        case None => Raise
        case Some(n) =>
          var caller := ContainingFunction(m, readFile(FullPath(paths, basePath, filePath)), n);
          Keep(CallSite(filePath, caller, n, Strip(parts[2]), caller))
  }

  function CscopeOutcomes(m: Matchers, paths: PathOps, name: string, basePath: string, lines: seq<string>)
    : (os: seq<LineOutcome>)
    ensures |os| == |lines|
  {
    seq(|lines|, i requires 0 <= i < |lines| => CscopeLine(m, paths, name, basePath, lines[i]))
  }

  function GrepOutcomes(m: Matchers, paths: PathOps, name: string, basePath: string,
                        readFile: string -> Option<seq<string>>, lines: seq<string>): (os: seq<LineOutcome>)
    ensures |os| == |lines|
  {
    seq(|lines|, i requires 0 <= i < |lines| => GrepLine(m, paths, name, basePath, readFile, lines[i]))
  }

  /** The records the loop appends, in output order. */
  function Keeps(os: seq<LineOutcome>): seq<CallSite> {
    if os == [] then []
    else Keeps(os[..|os| - 1]) + (if os[|os| - 1].Keep? then [os[|os| - 1].site] else [])
  }

  predicate Raises(os: seq<LineOutcome>) {
    exists i :: 0 <= i < |os| && os[i].Raise?
  }

  /** The index of the first line that raises, or the number of lines. */
  function FirstRaise(os: seq<LineOutcome>): (n: nat)
    ensures n <= |os| && !Raises(os[..n])
    ensures n < |os| ==> os[n].Raise?
    ensures n == |os| <==> !Raises(os)
  {
    if os == [] then 0
    else if os[0].Raise? then 0
    else
      var n := FirstRaise(os[1..]) + 1;
      assert os[..n] == [os[0]] + os[1..][..n - 1];
      n
  }

  /** A raising line with none before it is the first one. */
  lemma FirstRaiseAt(os: seq<LineOutcome>, i: nat)
    requires i < |os| && os[i].Raise? && !Raises(os[..i])
    ensures FirstRaise(os) == i
  {
  }

  /** One more line: its record, if any, is appended, and the prefix raises
      when it did before or the new line raises. */
  lemma KeepsStep(os: seq<LineOutcome>, i: nat)
    requires i < |os|
    ensures Keeps(os[..i + 1]) == Keeps(os[..i]) + (if os[i].Keep? then [os[i].site] else [])
    ensures Raises(os[..i + 1]) <==> Raises(os[..i]) || os[i].Raise?
  {
    assert os[..i + 1][..i] == os[..i];
    assert forall k :: 0 <= k < i ==> os[..i + 1][k] == os[..i][k];
  }

  /** Appending outcomes appends their records: the records keep the order of
      the output lines. */
  lemma {:induction false} KeepsAppend(os1: seq<LineOutcome>, os2: seq<LineOutcome>)
    ensures Keeps(os1 + os2) == Keeps(os1) + Keeps(os2)
    decreases |os2|
  {
    if os2 != [] {
      var last := os2[|os2| - 1];
      assert (os1 + os2)[..|os1 + os2| - 1] == os1 + os2[..|os2| - 1];
      KeepsAppend(os1, os2[..|os2| - 1]);
    } else {
      assert os1 + os2 == os1;
    }
  }

  /** Every record comes from a line whose outcome kept it, and there are
      never more records than lines. */
  lemma {:induction false} KeepsProvenance(os: seq<LineOutcome>)
    ensures |Keeps(os)| <= |os|
    ensures forall c :: c in Keeps(os) ==> exists i :: 0 <= i < |os| && os[i] == Keep(c)
  {
    if os != [] {
      var init := os[..|os| - 1];
      KeepsProvenance(init);
      forall c | c in Keeps(os) ensures exists i :: 0 <= i < |os| && os[i] == Keep(c) {
        if c in Keeps(init) {
          var i :| 0 <= i < |init| && init[i] == Keep(c);
          assert os[i] == Keep(c);
        } else {
          assert os[|os| - 1] == Keep(c);
        }
      }
    }
  }

  /** The cscope records of an output, or `None` when one of its lines raises
      (the exception aborts the whole parse). */
  function CscopeCallers(m: Matchers, paths: PathOps, name: string, basePath: string, lines: seq<string>)
    : Option<seq<CallSite>>
  {
    var os := CscopeOutcomes(m, paths, name, basePath, lines);
    if Raises(os) then None else Some(Keeps(os))
  }

  /** `grep_function_callers`: nothing unless grep ran, exited 0 and printed
      something; otherwise the records of the lines before the first one that
      raises (the exception is caught after the loop). */
  function GrepCallers(m: Matchers, paths: PathOps, name: string, basePath: string,
                       readFile: string -> Option<seq<string>>, grep: Option<ProcessOutput>): seq<CallSite>
  {
    if grep.Some? && grep.value.returnCode == 0 && grep.value.stdout != "" then
      GrepLinesCallers(m, paths, name, basePath, readFile, OutputLines(grep.value.stdout))
    else []
  }

  /** The records of the grep lines before the first one that raises. */
  function GrepLinesCallers(m: Matchers, paths: PathOps, name: string, basePath: string,
                            readFile: string -> Option<seq<string>>, lines: seq<string>): seq<CallSite>
  {
    var os := GrepOutcomes(m, paths, name, basePath, readFile, lines);
    Keeps(os[..FirstRaise(os)])
  }

  /** cscope's answer counts when it exited 0 with some output. */
  predicate CscopeAnswered(cscope: Option<ProcessOutput>) {
    cscope.Some? && cscope.value.returnCode == 0 && cscope.value.stdout != ""
  }

  /** `find_function_callers`: cscope's records when cscope answered and no
      line raised, grep's records otherwise. */
  function LocateCallers(m: Matchers, paths: PathOps, name: string, basePath: string,
                         cscope: Option<ProcessOutput>, grep: Option<ProcessOutput>,
                         readFile: string -> Option<seq<string>>): seq<CallSite>
  {
    if CscopeAnswered(cscope) then
      match CscopeCallers(m, paths, name, basePath, OutputLines(cscope.value.stdout))
      case Some(callers) => callers
      case None => GrepCallers(m, paths, name, basePath, readFile, grep)
    else GrepCallers(m, paths, name, basePath, readFile, grep)
  }

  /** The body of the cscope loop for one line (main.py:429-460). */
  method ReadCscopeLine(m: Matchers, paths: PathOps, name: string, basePath: string, line: string)
    returns (o: LineOutcome)
    ensures o == CscopeLine(m, paths, name, basePath, line)
  {
    o := Skip;
    if Strip(line) != [] {
      var parts := Split(line, ' ', 3);
      if |parts| >= 4 {
        var filePath, functionContext, lineField, codeLine := parts[0], parts[1], parts[2], parts[3];
        if IsFunctionDeclaration(m, codeLine, name) {
          return;
        }
        if !IsFunctionCall(m, codeLine, name) {
          return;
        }
        if StartsWith(filePath, basePath) {
          filePath := paths.relpath(filePath, basePath);
        }
        var callerFunc := ExtractCallerFunction(m, functionContext, codeLine);
        var lineNumber := PyInt(lineField);
        if lineNumber.None? {
          return Raise;
        }
        o := Keep(CallSite(filePath, functionContext, lineNumber.value, Strip(codeLine), callerFunc));
      }
    }
  }

  /** The cscope parsing loop (main.py:428-460); `None` stands for the
      `ValueError` that `int()` raises on a malformed line number. */
  method ParseCscopeOutput(m: Matchers, paths: PathOps, name: string, basePath: string, lines: seq<string>)
    returns (r: Option<seq<CallSite>>)
    ensures r == CscopeCallers(m, paths, name, basePath, lines)
  {
    ghost var os := CscopeOutcomes(m, paths, name, basePath, lines);
    var callers: seq<CallSite> := [];
    var i := 0;
    while i < |lines|
      invariant 0 <= i <= |lines|
      invariant !Raises(os[..i])
      invariant callers == Keeps(os[..i])
    {
      var o := ReadCscopeLine(m, paths, name, basePath, lines[i]);
      assert o == os[i];
      KeepsStep(os, i);
      match o {
        case Skip =>
        case Keep(site) => callers := callers + [site];
        case Raise => return None;
      }
      i := i + 1;
    }
    assert os[..i] == os;
    return Some(callers);
  }

  /** The body of the grep loop for one line (main.py:520-550). */
  method ReadGrepLine(m: Matchers, paths: PathOps, name: string, basePath: string,
                      readFile: string -> Option<seq<string>>, line: string)
    returns (o: LineOutcome)
    ensures o == GrepLine(m, paths, name, basePath, readFile, line)
  {
    o := Skip;
    if Strip(line) != [] {
      var parts := Split(line, ':', 2);
      if |parts| >= 3 {
        var filePath, lineField, codeLine := parts[0], parts[1], parts[2];
        if IsFunctionDeclaration(m, codeLine, name) {
          return;
        }
        if !IsFunctionCall(m, codeLine, name) {
          return;
        }
        if StartsWith(filePath, basePath) {
          filePath := paths.relpath(filePath, basePath);
        }
        var lineNumber := PyInt(lineField);
        if lineNumber.None? {
          return Raise;
        }
        var callerFunc := FindContainingFunction(m, readFile(FullPath(paths, basePath, filePath)), lineNumber.value);
        o := Keep(CallSite(filePath, callerFunc, lineNumber.value, Strip(codeLine), callerFunc));
      }
    }
  }

  /** `grep_function_callers` (main.py:494-555): the loop stops at the first
      line that raises and returns what it has collected so far. */
  method GrepFunctionCallers(m: Matchers, paths: PathOps, name: string, basePath: string,
                             readFile: string -> Option<seq<string>>, grep: Option<ProcessOutput>)
    returns (callers: seq<CallSite>)
    ensures callers == GrepCallers(m, paths, name, basePath, readFile, grep)
  {
    callers := [];
    if grep.None? || grep.value.returnCode != 0 || grep.value.stdout == "" {
      return;
    }
    callers := ParseGrepOutput(m, paths, name, basePath, readFile, OutputLines(grep.value.stdout));
  }

  /** The grep parsing loop (main.py:519-550). */
  method ParseGrepOutput(m: Matchers, paths: PathOps, name: string, basePath: string,
                         readFile: string -> Option<seq<string>>, lines: seq<string>)
    returns (callers: seq<CallSite>)
    ensures callers == GrepLinesCallers(m, paths, name, basePath, readFile, lines)
  {
    callers := [];
    ghost var os := GrepOutcomes(m, paths, name, basePath, readFile, lines);
    var i := 0;
    while i < |lines|
      invariant 0 <= i <= |lines|
      invariant !Raises(os[..i])
      invariant callers == Keeps(os[..i])
    {
      var o := ReadGrepLine(m, paths, name, basePath, readFile, lines[i]);
      assert o == os[i];
      KeepsStep(os, i);
      match o {
        case Skip =>
        case Keep(site) => callers := callers + [site];
        case Raise =>
          FirstRaiseAt(os, i);
          return;
      }
      i := i + 1;
    }
    assert os[..i] == os;
  }

  /** `find_function_callers` (main.py:409-469). */
  method FindFunctionCallers(m: Matchers, paths: PathOps, name: string, basePath: string,
                             cscope: Option<ProcessOutput>, grep: Option<ProcessOutput>,
                             readFile: string -> Option<seq<string>>)
    returns (callers: seq<CallSite>)
    ensures callers == LocateCallers(m, paths, name, basePath, cscope, grep, readFile)
  {
    if CscopeAnswered(cscope) {
      var lines := OutputLines(cscope.value.stdout);
      var parsed := ParseCscopeOutput(m, paths, name, basePath, lines);
      if parsed.Some? {
        callers := parsed.value;
      } else {
        callers := GrepFunctionCallers(m, paths, name, basePath, readFile, grep);
      }
    } else {
      callers := GrepFunctionCallers(m, paths, name, basePath, readFile, grep);
    }
  }

  /** Once cscope has answered and no line raised, grep is never consulted:
      the result does not depend on grep's run, even when every cscope line
      was filtered out. */
  lemma CscopeAnswerIsFinal(m: Matchers, paths: PathOps, name: string, basePath: string,
                            cscope: Option<ProcessOutput>, grep1: Option<ProcessOutput>,
                            grep2: Option<ProcessOutput>, readFile: string -> Option<seq<string>>)
    requires CscopeAnswered(cscope)
    requires CscopeCallers(m, paths, name, basePath, OutputLines(cscope.value.stdout)).Some?
    ensures LocateCallers(m, paths, name, basePath, cscope, grep1, readFile)
            == LocateCallers(m, paths, name, basePath, cscope, grep2, readFile)
            == Keeps(CscopeOutcomes(m, paths, name, basePath, OutputLines(cscope.value.stdout)))
  {
  }

  /** When cscope could not be run, failed, printed nothing, or one of its
      lines raised, the answer is grep's. */
  lemma GrepIsFallback(m: Matchers, paths: PathOps, name: string, basePath: string,
                       cscope: Option<ProcessOutput>, grep: Option<ProcessOutput>,
                       readFile: string -> Option<seq<string>>)
    requires !CscopeAnswered(cscope)
             || Raises(CscopeOutcomes(m, paths, name, basePath, OutputLines(cscope.value.stdout)))
    ensures LocateCallers(m, paths, name, basePath, cscope, grep, readFile)
            == GrepCallers(m, paths, name, basePath, readFile, grep)
  {
  }

  /** A cscope line made of a file, a context (neither holding a space), a
      line number and the code is read back field for field when the code is
      a call, and skipped otherwise. */
  lemma CscopeLineRoundTrip(m: Matchers, paths: PathOps, name: string, basePath: string,
                            file: string, context: string, n: nat, code: string)
    requires ' ' !in file && ' ' !in context
    ensures CscopeLine(m, paths, name, basePath, file + " " + context + " " + NatToString(n) + " " + code)
            == if IsFunctionCall(m, code, name) then
                 Keep(CallSite(Relative(paths, file, basePath), context, n, Strip(code),
                               ExtractCallerFunction(m, context, code)))
               else Skip
  {
    var digits := NatToString(n);
    var line := file + " " + context + " " + digits + " " + code;
    assert ' ' !in digits by {
      forall i | 0 <= i < |digits| ensures digits[i] != ' ' {
        assert IsDigit(digits[i]);
      }
    }
    CscopeFields(file, context, digits, code);
    StripNotEmpty(line, |file| + |context| + 2);
    NatToStringValue(n);
    PyIntOfDigits(digits);
    CallExcludesDeclaration(m, code, name);
  }

  lemma CscopeFields(file: string, context: string, digits: string, code: string)
    requires ' ' !in file && ' ' !in context && ' ' !in digits
    ensures Split(file + " " + context + " " + digits + " " + code, ' ', 3) == [file, context, digits, code]
  {
    var r3 := digits + [' '] + code;
    var r2 := context + [' '] + r3;
    assert " " == [' '];
    assert file + " " + context + " " + digits + " " + code == file + [' '] + r2;
    assert Split(code, ' ', 0) == [code];
    SplitAfter(digits, ' ', code, 1);
    assert Split(r3, ' ', 1) == [digits, code];
    SplitAfter(context, ' ', r3, 2);
    assert Split(r2, ' ', 2) == [context, digits, code];
    SplitAfter(file, ' ', r2, 3);
    assert Split(file + [' '] + r2, ' ', 3) == [file, context, digits, code];
  }

  /** A grep line `file:number:code` (the file holding no colon) is read back
      with the caller found by the backward scan when the code is a call, and
      skipped otherwise. */
  lemma GrepLineRoundTrip(m: Matchers, paths: PathOps, name: string, basePath: string,
                          readFile: string -> Option<seq<string>>, file: string, n: nat, code: string)
    requires ':' !in file
    ensures GrepLine(m, paths, name, basePath, readFile, file + ":" + NatToString(n) + ":" + code)
            == if IsFunctionCall(m, code, name) then
                 var rel := Relative(paths, file, basePath);
                 var caller := ContainingFunction(m, readFile(FullPath(paths, basePath, rel)), n);
                 Keep(CallSite(rel, caller, n, Strip(code), caller))
               else Skip
  {
    var digits := NatToString(n);
    var line := file + ":" + digits + ":" + code;
    assert ':' !in digits by {
      forall i | 0 <= i < |digits| ensures digits[i] != ':' {
        assert IsDigit(digits[i]);
      }
    }
    GrepFields(file, digits, code);
    StripNotEmpty(line, |file| + 1);
    NatToStringValue(n);
    PyIntOfDigits(digits);
    CallExcludesDeclaration(m, code, name);
  }

  lemma GrepFields(file: string, digits: string, code: string)
    requires ':' !in file && ':' !in digits
    ensures Split(file + ":" + digits + ":" + code, ':', 2) == [file, digits, code]
  {
    var r2 := digits + [':'] + code;
    assert ":" == [':'];
    assert file + ":" + digits + ":" + code == file + [':'] + r2;
    assert Split(code, ':', 0) == [code];
    SplitAfter(digits, ':', code, 1);
    assert Split(r2, ':', 1) == [digits, code];
    SplitAfter(file, ':', r2, 2);
    assert Split(file + [':'] + r2, ':', 2) == [file, digits, code];
  }

  /** A line holding a digit does not strip to nothing. */
  lemma StripNotEmpty(line: string, k: nat)
    requires k < |line| && IsDigit(line[k])
    ensures Strip(line) != []
  {
    if Strip(line) == [] {
      TrimEmpty(line, PyIsSpace);
      assert false;
    }
  }
}
