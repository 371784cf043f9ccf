/** The line classifier of main.py: whether a source line declares or defines
    a function, whether it calls it, and which function encloses a call.

    The regular expressions of the source are not interpreted here: each is a
    parameter (a `LinePattern`), and so are the capture of the definition
    pattern and the character class behind `str.isalnum`. The control
    structure around them (stripping, the comment and preprocessor checks, the
    order of the tests, the early returns) is modelled exactly. */
module Classifier {
  import opened Wrappers
  import opened Text

  /** One regular-expression search of a source line for one function name:
      `re.search(pattern(name), line)`. */
  type LinePattern = (string, string) -> bool

  /** What main.py asks of Python's `re` module and of `str.isalnum`. */
  datatype Matchers = Matchers(
    /** The four declaration patterns, searched case-insensitively (main.py:344-354). */
    declarationPatterns: seq<LinePattern>,
    /** The two definition patterns, searched case-insensitively (main.py:361-366). */
    definitionPatterns: seq<LinePattern>,
    /** The four call patterns, searched case-sensitively (main.py:389-398). */
    callPatterns: seq<LinePattern>,
    /** `re.match` of the definition pattern with its captured name (main.py:481-487, 572-581). */
    definitionName: string -> Option<string>,
    /** `str.isalnum` on one character (Unicode letters and digits). */
    isAlnumChar: char -> bool)

  /** The `for pattern in patterns: if re.search(...): return True` loop. */
  function AnyMatch(patterns: seq<LinePattern>, line: string, name: string): (r: bool)
    ensures r <==> exists k :: 0 <= k < |patterns| && patterns[k](line, name)
  {
    if patterns == [] then false else patterns[0](line, name) || AnyMatch(patterns[1..], line, name)
  }

  // An empty line, or one opening with a line comment, a block comment or a
  // `*` continuation line.
  predicate IsBlankOrComment(line: string) {
    line == [] || StartsWith(line, "//") || StartsWith(line, "/*") || StartsWith(line, "*")
  }

  /** `is_function_declaration(code_line, function_name)`. */
  function IsFunctionDeclaration(m: Matchers, codeLine: string, name: string): bool {
    var line := Strip(codeLine);
    if IsBlankOrComment(line) then true
    else if AnyMatch(m.declarationPatterns, line, name) then true
    else AnyMatch(m.definitionPatterns, line, name)
  }

  /** `is_function_call(code_line, function_name)`. */
  function IsFunctionCall(m: Matchers, codeLine: string, name: string): bool {
    var line := Strip(codeLine);
    if IsBlankOrComment(line) then false
    else if StartsWith(line, "#") then false
    else CallPatternLoop(m, m.callPatterns, line, name)
  }

  /** The loop over the call patterns: a pattern that matches yields `True`
      unless the (already stripped) line is a declaration. */
  function CallPatternLoop(m: Matchers, patterns: seq<LinePattern>, line: string, name: string): bool {
    if patterns == [] then false
    else if patterns[0](line, name) && !IsFunctionDeclaration(m, line, name) then true
    else CallPatternLoop(m, patterns[1..], line, name)
  }

  /** The call-pattern loop returns `True` exactly when some call pattern
      matches and the line is not a declaration. */
  lemma {:induction false} CallPatternLoopMeaning(m: Matchers, patterns: seq<LinePattern>, line: string, name: string)
    ensures CallPatternLoop(m, patterns, line, name)
            <==> AnyMatch(patterns, line, name) && !IsFunctionDeclaration(m, line, name)
  {
    if patterns != [] {
      CallPatternLoopMeaning(m, patterns[1..], line, name);
    }
  }

  /** A line is a call exactly when, once stripped, it is neither blank, a
      comment nor a preprocessor directive, some call pattern matches it, and
      it is not a declaration or definition. */
  lemma CallCharacterization(m: Matchers, codeLine: string, name: string)
    ensures IsFunctionCall(m, codeLine, name) <==>
      var line := Strip(codeLine);
      && !IsBlankOrComment(line)
      && !StartsWith(line, "#")
      && (exists k :: 0 <= k < |m.callPatterns| && m.callPatterns[k](line, name))
      && !IsFunctionDeclaration(m, codeLine, name)
  {
    var line := Strip(codeLine);
    StripIdempotent(codeLine);
    assert IsFunctionDeclaration(m, line, name) == IsFunctionDeclaration(m, codeLine, name);
    CallPatternLoopMeaning(m, m.callPatterns, line, name);
  }

  /** A call is never a declaration: whatever the patterns, `is_function_call`
      implies `not is_function_declaration` on the same line. */
  lemma CallExcludesDeclaration(m: Matchers, codeLine: string, name: string)
    ensures IsFunctionCall(m, codeLine, name) ==> !IsFunctionDeclaration(m, codeLine, name)
  {
    CallCharacterization(m, codeLine, name);
  }

  /** Blank and comment lines are declarations and never calls; preprocessor
      lines are never calls. */
  lemma NonCodeLines(m: Matchers, codeLine: string, name: string)
    ensures IsBlankOrComment(Strip(codeLine)) ==>
              IsFunctionDeclaration(m, codeLine, name) && !IsFunctionCall(m, codeLine, name)
    ensures StartsWith(Strip(codeLine), "#") ==> !IsFunctionCall(m, codeLine, name)
  {
  }

  /** A line that some declaration or definition pattern matches is never a
      call, even when a call pattern matches it too. */
  lemma DeclarationPatternBlocksCall(m: Matchers, codeLine: string, name: string, k: nat)
    requires k < |m.declarationPatterns + m.definitionPatterns|
    requires (m.declarationPatterns + m.definitionPatterns)[k](Strip(codeLine), name)
    ensures IsFunctionDeclaration(m, codeLine, name) && !IsFunctionCall(m, codeLine, name)
  {
    var line := Strip(codeLine);
    if k < |m.declarationPatterns| {
      assert m.declarationPatterns[k](line, name);
    } else {
      assert m.definitionPatterns[k - |m.declarationPatterns|](line, name);
    }
    CallExcludesDeclaration(m, codeLine, name);
  }

  /** Python's `s.isalnum()`: non-empty and every character alphanumeric. */
  predicate IsAlnum(m: Matchers, s: string) {
    |s| >= 1 && forall i :: 0 <= i < |s| ==> m.isAlnumChar(s[i])
  }

  /** A context that names a scope: present and not cscope's `<global>`. */
  predicate IsScopeContext(context: string) {
    context != "" && context != "<global>"
  }

  /** The context reads as a function name: a scope whose characters, with
      `_` and `.` removed, are all alphanumeric. */
  predicate LooksLikeFunctionName(m: Matchers, context: string) {
    IsScopeContext(context) && IsAlnum(m, Remove(Remove(context, '_'), '.'))
  }

  /** `extract_caller_function(function_context, code_line)`: the result is
      the context, the name the definition pattern captures from the line, or
      `"unknown"`. */
  function ExtractCallerFunction(m: Matchers, context: string, codeLine: string): (r: string)
    ensures r == context || r == "unknown" || m.definitionName(codeLine) == Some(r)
  {
    if LooksLikeFunctionName(m, context) then context
    else match m.definitionName(codeLine)
      case Some(n) => n
      case None => if IsScopeContext(context) then context else "unknown"
  }

  /** The context wins when it reads as a function name; the code line is only
      consulted otherwise. */
  lemma ExtractPrefersContext(m: Matchers, context: string, codeLine: string)
    ensures LooksLikeFunctionName(m, context) ==> ExtractCallerFunction(m, context, codeLine) == context
    ensures !LooksLikeFunctionName(m, context) && m.definitionName(codeLine).Some? ==>
              ExtractCallerFunction(m, context, codeLine) == m.definitionName(codeLine).value
  {
  }

  /** `"unknown"` comes out exactly when there is no scope context and the
      definition pattern does not match, unless the context or the capture is
      itself the word `unknown`. */
  lemma ExtractUnknownIff(m: Matchers, context: string, codeLine: string)
    requires context != "unknown" && m.definitionName(codeLine) != Some("unknown")
    ensures ExtractCallerFunction(m, context, codeLine) == "unknown" <==>
              !IsScopeContext(context) && m.definitionName(codeLine).None?
  {
  }

  /** When the definition pattern only captures non-empty names, the resolved
      caller is never empty and never `<global>`: a scope that does not read
      as a name is kept as it is rather than dropped. */
  lemma ExtractNeverEmptyOrGlobal(m: Matchers, context: string, codeLine: string)
    requires forall n :: m.definitionName(codeLine) == Some(n) ==> IsScopeContext(n)
    ensures IsScopeContext(ExtractCallerFunction(m, context, codeLine))
  {
  }

  /** For each line of a file, the name captured when `re.match(func_pattern,
      line.strip())` succeeds (`find_containing_function`). */
  function Definitions(m: Matchers, lines: seq<string>): (defs: seq<Option<string>>)
    ensures |defs| == |lines|
  {
    seq(|lines|, k requires 0 <= k < |lines| => m.definitionName(Strip(lines[k])))
  }

  /** Line `j` is the nearest definition at or above index `top`: it matches
      the definition pattern and no line after it up to `top` does. */
  ghost predicate IsNearestDefinition(defs: seq<Option<string>>, top: int, j: int)
    requires top < |defs|
  {
    && 0 <= j <= top
    && defs[j].Some?
    && forall k :: j < k <= top ==> defs[k].None?
  }

  /** The name captured at the nearest line at or above index `top` that
      matches the definition pattern. */
  function NearestDefinition(defs: seq<Option<string>>, top: int): Option<string>
    requires top < |defs|
    decreases top + 1
  {
    if top < 0 then None
    else match defs[top]
      case Some(n) => Some(n)
      case None => NearestDefinition(defs, top - 1)
  }

  /** The scan finds the nearest definition line at or above `top`, and finds
      nothing exactly when no line up to `top` is a definition. */
  lemma {:induction false} NearestDefinitionMeaning(defs: seq<Option<string>>, top: int)
    requires top < |defs|
    ensures var r := NearestDefinition(defs, top);
      && (r.Some? ==> exists j :: IsNearestDefinition(defs, top, j) && defs[j] == r)
      && (r.None? <==> forall k :: 0 <= k <= top ==> defs[k].None?)
    decreases top + 1
  {
    if top >= 0 {
      if defs[top].Some? {
        assert IsNearestDefinition(defs, top, top);
      } else {
        NearestDefinitionMeaning(defs, top - 1);
        assert forall j :: IsNearestDefinition(defs, top - 1, j) ==> IsNearestDefinition(defs, top, j);
      }
    }
  }

  /** The index the backward scan starts from: `min(line_number - 1, len(lines) - 1)`. */
  function ScanStart(lines: seq<string>, lineNumber: int): (top: int)
    ensures top < |lines| && top <= lineNumber - 1
    ensures top == lineNumber - 1 || top == |lines| - 1
  {
    if lineNumber - 1 < |lines| - 1 then lineNumber - 1 else |lines| - 1
  }

  /** What `find_containing_function` returns for a file (`None` when it
      cannot be opened) and a 1-based line number. */
  function ContainingFunction(m: Matchers, file: Option<seq<string>>, lineNumber: int): string {
    match file
    case None => "unknown"
    case Some(lines) =>
      match NearestDefinition(Definitions(m, lines), ScanStart(lines, lineNumber))
      case Some(n) => n
      case None => "unknown"
  }

  /** `find_containing_function`: scans from the hit's line (or the last line
      of a shorter file) back to the first line and returns the name captured
      at the first definition it meets, or `"unknown"` when there is none or
      the file cannot be read. */
  method FindContainingFunction(m: Matchers, file: Option<seq<string>>, lineNumber: int) returns (r: string)
    ensures r == ContainingFunction(m, file, lineNumber)
    ensures file.None? ==> r == "unknown"
    ensures file.Some? ==>
      var defs, top := Definitions(m, file.value), ScanStart(file.value, lineNumber);
      || (exists j :: IsNearestDefinition(defs, top, j) && defs[j] == Some(r))
      || (r == "unknown" && forall k :: 0 <= k <= top ==> defs[k].None?)
  {
    if file.None? {
      return "unknown";
    }
    var lines := file.value;
    ghost var defs := Definitions(m, lines);
    var top := ScanStart(lines, lineNumber);
    NearestDefinitionMeaning(defs, top);
    var i := top;
    while i >= 0
      invariant i <= top
      invariant forall k :: 0 <= k <= top && i < k ==> defs[k].None?
      invariant NearestDefinition(defs, top) == NearestDefinition(defs, i)
      decreases i + 1
    {
      var line := Strip(lines[i]);
      var found := m.definitionName(line);
      assert found == defs[i];
      if found.Some? {
        return found.value;
      }
      i := i - 1;
    }
    return "unknown";
  }
}
