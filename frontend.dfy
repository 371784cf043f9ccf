/** The helpers of the browser front end (static/script.js) that compute
    values rather than draw: reading one search result line, the identifier
    check and the word picker of the code view's context menu, the display
    path and element id of a hierarchy node, the Prism language of a file
    type, the escaping of the search pattern and the node count of a caller
    tree. Strings are JavaScript strings; lengths are in UTF-16 code units
    (`JsLength`). */
module Frontend {
  import opened Wrappers
  import opened Text
  import opened Locator
  import opened Hierarchy
  import opened FileView

  // ---------------------------------------------------------------------
  // parseSearchResult (static/script.js:163-174)
  // ---------------------------------------------------------------------

  /** `{filePath, lineNumber, content}` of one `ag` result line. */
  datatype SearchHit = SearchHit(filePath: string, lineNumber: nat, content: string)

  /** The characters JavaScript's `.` does not match. */
  predicate IsLineTerminator(c: char) {
    c == '\n' || c == '\r' || c as int == 0x2028 || c as int == 0x2029
  }

  predicate NoLineTerminator(s: string) {
    forall i :: 0 <= i < |s| ==> !IsLineTerminator(s[i])
  }

  /** The strings `^([^:]+):(\d+):(.*)$` accepts, with its three groups: a
      non-empty path without a colon, a non-empty run of ASCII digits, and a
      rest holding no line terminator. */
  ghost predicate Layout(line: string, path: string, digits: string, content: string) {
    && line == path + ":" + digits + ":" + content
    && path != [] && ':' !in path
    && digits != [] && AllDigits(digits)
    && NoLineTerminator(content)
  }

  /** `parseSearchResult`: the three groups, the second read as a decimal
      number, or `None` (JavaScript `null`) when the pattern does not match. */
  function ParseSearchResult(line: string): Option<SearchHit> {
    match IndexOf(line, ':')
    case None => None
    case Some(i) =>
      var rest := line[i + 1..];
      match IndexOf(rest, ':')
      case None => None
      case Some(j) =>
        var path, digits, content := line[..i], rest[..j], rest[j + 1..];
        if path != [] && digits != [] && AllDigits(digits) && NoLineTerminator(content)
        then Some(SearchHit(path, DigitsValue(digits), content))
        else None
  }

  /** Every hit comes from a line of the accepted layout, with the number its
      digits spell. */
  lemma ParseSearchResultSound(line: string)
    requires ParseSearchResult(line).Some?
    ensures var h := ParseSearchResult(line).value;
            exists digits :: Layout(line, h.filePath, digits, h.content) && AllDigits(digits)
                             && h.lineNumber == DigitsValue(digits)
  {
    var i := IndexOf(line, ':').value;
    var rest := line[i + 1..];
    var j := IndexOf(rest, ':').value;
    var path, digits, content := line[..i], rest[..j], rest[j + 1..];
    assert ParseSearchResult(line) == Some(SearchHit(path, DigitsValue(digits), content));
    Around(rest, j);
    Around(line, i);
    Glue(path, digits, content);
    assert Layout(line, path, digits, content);
  }

  /** The result layout, split at its first colon. */
  lemma Glue(path: string, digits: string, content: string)
    ensures path + ":" + digits + ":" + content == path + [':'] + (digits + [':'] + content)
  {
    assert ":" == [':'];
  }

  /** Every line of the accepted layout is read back as its three parts. */
  lemma ParseSearchResultComplete(line: string, path: string, digits: string, content: string)
    requires Layout(line, path, digits, content)
    ensures ParseSearchResult(line) == Some(SearchHit(path, DigitsValue(digits), content))
  {
    assert ":" == [':'];
    var rest := digits + [':'] + content;
    assert line == path + [':'] + rest;
    assert line[|path|] == ':';
    assert line[..|path|] == path;
    assert IndexOf(line, ':') == Some(|path|);
    assert line[|path| + 1..] == rest;
    assert ':' !in digits by {
      forall k | 0 <= k < |digits| ensures digits[k] != ':' {
        assert IsDigit(digits[k]);
      }
    }
    assert rest[|digits|] == ':';
    assert rest[..|digits|] == digits;
    assert IndexOf(rest, ':') == Some(|digits|);
    assert rest[|digits| + 1..] == content;
  }

  /** A result line written from a path, a line number and a line of code is
      read back unchanged. */
  lemma SearchResultRoundTrip(path: string, n: nat, content: string)
    requires path != [] && ':' !in path && NoLineTerminator(content)
    ensures ParseSearchResult(path + ":" + NatToString(n) + ":" + content) == Some(SearchHit(path, n, content))
  {
    NatToStringValue(n);
    ParseSearchResultComplete(path + ":" + NatToString(n) + ":" + content, path, NatToString(n), content);
  }

  // ---------------------------------------------------------------------
  // The identifier check (static/script.js:90-91, 480, 502)
  // ---------------------------------------------------------------------

  predicate IsAsciiLetter(c: char) {
    'a' <= c <= 'z' || 'A' <= c <= 'Z'
  }

  /** A character of JavaScript's `\w`. */
  predicate IsWordChar(c: char) {
    IsAsciiLetter(c) || IsDigit(c) || c == '_'
  }

  /** `^[a-zA-Z_][a-zA-Z0-9_]*$`. */
  predicate IsIdentifier(s: string) {
    && |s| >= 1
    && (IsAsciiLetter(s[0]) || s[0] == '_')
    && forall i :: 0 <= i < |s| ==> IsWordChar(s[i])
  }

  /** `showContextMenu`: the call-hierarchy item is enabled only for a
      present name matching the identifier pattern. */
  function MenuEnabled(functionName: Option<string>): (enabled: bool)
    ensures enabled <==> functionName.Some? && IsIdentifier(functionName.value)
  {
    functionName.Some? && functionName.value != [] && IsIdentifier(functionName.value)
  }

  // ---------------------------------------------------------------------
  // The word picker (static/script.js:477-507)
  // ---------------------------------------------------------------------

  /** `word.replace(/[^\w]/g, "")`. */
  function Clean(word: string): (r: string)
    ensures forall i :: 0 <= i < |r| ==> IsWordChar(r[i])
    ensures |r| <= |word|
    ensures |word| == 1 ==> r == if IsWordChar(word[0]) then word else []
  {
    if word == [] then []
    else (if IsWordChar(word[0]) then [word[0]] else []) + Clean(word[1..])
  }

  /** Cleaning works character by character: the cleaned parts of a word,
      in order, make up the cleaned word. */
  lemma {:induction false} CleanAppend(a: string, b: string)
    ensures Clean(a + b) == Clean(a) + Clean(b)
    decreases |a|
  {
    if a == [] {
      assert a + b == b;
    } else {
      assert (a + b)[0] == a[0] && (a + b)[1..] == a[1..] + b;
      CleanAppend(a[1..], b);
    }
  }

  /** A word is left as it is exactly when all its characters are word
      characters. */
  lemma {:induction false} CleanKeepsWords(word: string)
    ensures Clean(word) == word <==> forall i :: 0 <= i < |word| ==> IsWordChar(word[i])
    decreases |word|
  {
    if word != [] {
      CleanKeepsWords(word[1..]);
      if IsWordChar(word[0]) {
        assert Clean(word) == [word[0]] + Clean(word[1..]);
        assert word == [word[0]] + word[1..];
        if Clean(word) == word {
          assert Clean(word[1..]) == word[1..];
        }
        if forall i :: 0 <= i < |word| ==> IsWordChar(word[i]) {
          assert forall i :: 0 <= i < |word[1..]| ==> IsWordChar(word[1..][i]) by {
            forall i | 0 <= i < |word[1..]| ensures IsWordChar(word[1..][i]) {
              assert word[1..][i] == word[i + 1];
            }
          }
        }
      }
    }
  }

  /** The index of the first white-space character of `s`, if any. */
  function FirstSpace(s: string): (r: Option<nat>)
    ensures r.Some? ==> r.value < |s| && JsIsSpace(s[r.value])
                        && forall k :: 0 <= k < r.value ==> !JsIsSpace(s[k])
    ensures r.None? ==> forall k :: 0 <= k < |s| ==> !JsIsSpace(s[k])
  {
    if s == [] then None
    else if JsIsSpace(s[0]) then Some(0)
    else match FirstSpace(s[1..])
      case None => None
      case Some(i) => Some(i + 1)
  }

  /** `text.split(/\s+/)`: the pieces between maximal runs of white space;
      a run at either end leaves an empty first or last piece. */
  function SplitWhitespace(s: string): (words: seq<string>)
    ensures |words| >= 1
    decreases |s|
  {
    match FirstSpace(s)
    case None => [s]
    case Some(i) =>
      var rest := TrimStart(s[i..], JsIsSpace);
      TrimStartShorter(s[i..], JsIsSpace);
      [s[..i]] + SplitWhitespace(rest)
  }

  /** No white space in `s`. */
  predicate NoSpace(s: string) {
    forall i :: 0 <= i < |s| ==> !JsIsSpace(s[i])
  }

  /** A non-empty run of white space. */
  predicate SpaceRun(s: string) {
    s != [] && forall i :: 0 <= i < |s| ==> JsIsSpace(s[i])
  }

  /** The pieces with the gaps between them put back. */
  function Interleave(words: seq<string>, gaps: seq<string>): string
    requires |words| == |gaps| + 1
    decreases |gaps|
  {
    if gaps == [] then words[0] else words[0] + gaps[0] + Interleave(words[1..], gaps[1..])
  }

  /** The pieces of `split(/\s+/)` on `s`: none holds white space, only the
      first and the last can be empty, and the first is empty only when `s`
      starts with white space. */
  ghost predicate Pieces(s: string, w: seq<string>) {
    && |w| >= 1
    && (forall k :: 0 <= k < |w| ==> NoSpace(w[k]))
    && (forall k :: 1 <= k < |w| - 1 ==> w[k] != [])
    && (s != [] && !JsIsSpace(s[0]) ==> w[0] != [])
    && (s == [] ==> |w| == 1)
  }

  /** `s` is the pieces with a non-empty run of white space between each two. */
  ghost predicate Rejoins(s: string, w: seq<string>) {
    && |w| >= 1
    && exists gaps :: |gaps| == |w| - 1 && (forall k :: 0 <= k < |gaps| ==> SpaceRun(gaps[k]))
                      && s == Interleave(w, gaps)
  }

  /** `split(/\s+/)` cuts the text at its maximal runs of white space and
      nowhere else. */
  lemma {:induction false} SplitWhitespaceMeaning(s: string)
    ensures Pieces(s, SplitWhitespace(s)) && Rejoins(s, SplitWhitespace(s))
    decreases |s|
  {
    var w := SplitWhitespace(s);
    match FirstSpace(s)
    case None =>
      assert w == [s];
      assert Interleave(w, []) == s;
    case Some(i) =>
      var rest := TrimStart(s[i..], JsIsSpace);
      TrimStartShorter(s[i..], JsIsSpace);
      var w' := SplitWhitespace(rest);
      assert w == [s[..i]] + w';
      SplitWhitespaceMeaning(rest);
      SplitGap(s, i, rest);
      assert !JsIsSpace(s[0]) ==> i != 0;
      PiecesCons(s, s[..i], rest, w');
      RejoinsCons(s[..i], s[i..|s| - |rest|], rest, w');
  }

  /** The first run of white space of `s`, from its first white-space
      character `i` to the rest without leading white space. */
  lemma SplitGap(s: string, i: nat, rest: string)
    requires FirstSpace(s) == Some(i) && rest == TrimStart(s[i..], JsIsSpace)
    ensures |rest| < |s| - i
    ensures SpaceRun(s[i..|s| - |rest|]) && s == s[..i] + s[i..|s| - |rest|] + rest
    ensures NoSpace(s[..i])
  {
    GapAfter(s, i, rest, JsIsSpace);
    Cut3(s, i, |s| - |rest|);
    GapIsRun(s, i, |s| - |rest|);
  }

  lemma GapIsRun(s: string, i: nat, m: nat)
    requires i < m <= |s| && forall k :: i <= k < m ==> JsIsSpace(s[k])
    ensures SpaceRun(s[i..m])
  {
    forall k | 0 <= k < m - i ensures JsIsSpace(s[i..m][k]) {
      assert s[i..m][k] == s[i + k];
    }
  }

  /** Cutting the leading run of `space` off `s[i..]`, where `s[i]` is a
      space, cuts off a non-empty run of spaces and leaves a suffix of `s`. */
  lemma GapAfter(s: string, i: nat, rest: string, space: char -> bool)
    requires i < |s| && space(s[i]) && rest == TrimStart(s[i..], space)
    ensures |rest| < |s| - i
    ensures forall k :: i <= k < |s| - |rest| ==> space(s[k])
    ensures rest == s[|s| - |rest|..]
  {
    var t := s[i..];
    TrimStartShorter(t, space);
    assert forall k :: 0 <= k < |t| - |rest| ==> space(t[k]);
    forall k | i <= k < |s| - |rest| ensures space(s[k]) {
      assert s[k] == t[k - i];
    }
    assert rest == t[|t| - |rest|..];
  }

  lemma Cut3(s: string, i: nat, m: nat)
    requires i <= m <= |s|
    ensures s == s[..i] + s[i..m] + s[m..]
  {
  }

  lemma PiecesCons(s: string, head: string, rest: string, w': seq<string>)
    requires s != [] && (!JsIsSpace(s[0]) ==> head != [])
    requires NoSpace(head) && (rest == [] || !JsIsSpace(rest[0])) && Pieces(rest, w')
    ensures Pieces(s, [head] + w')
  {
    var w := [head] + w';
    assert |w'| >= 2 ==> w'[0] != [];
    forall k | 1 <= k < |w| - 1 ensures w[k] != [] {
      assert w[k] == w'[k - 1];
    }
    forall k | 0 <= k < |w| ensures NoSpace(w[k]) {
      if k > 0 {
        assert w[k] == w'[k - 1];
      }
    }
  }

  lemma RejoinsCons(word: string, gap: string, rest: string, w': seq<string>)
    requires SpaceRun(gap) && Rejoins(rest, w')
    ensures Rejoins(word + gap + rest, [word] + w')
  {
    var gaps' :| |gaps'| == |w'| - 1 && (forall k :: 0 <= k < |gaps'| ==> SpaceRun(gaps'[k]))
                 && rest == Interleave(w', gaps');
    var w, gaps := [word] + w', [gap] + gaps';
    assert w[1..] == w' && gaps[1..] == gaps';
    assert Interleave(w, gaps) == word + gap + rest;
    assert forall k :: 0 <= k < |gaps| ==> SpaceRun(gaps[k]);
  }

  lemma TrimStartShorter(s: string, space: char -> bool)
    requires s != [] && space(s[0])
    ensures |TrimStart(s, space)| < |s|
  {
    assert TrimStart(s, space) == TrimStart(s[1..], space);
  }

  /** The first word whose span `[pos, pos + length]` holds `charPosition`
      and which cleans to an identifier, scanning from `pos` and moving one
      past each word. */
  function PickFrom(words: seq<string>, charPosition: int, pos: int): (r: Option<string>)
    ensures r.Some? ==> IsIdentifier(r.value)
  {
    if words == [] then None
    else
      var len := JsLength(words[0]);
      if pos <= charPosition <= pos + len && IsIdentifier(Clean(words[0])) then Some(Clean(words[0]))
      else PickFrom(words[1..], charPosition, pos + len + 1)
  }

  /** The name the context menu is opened for: the trimmed selection if there
      is one (kept only when it is an identifier), otherwise the word under
      the click. */
  function PickName(selection: string, text: string, charPosition: int): (r: Option<string>)
    ensures r.Some? ==> IsIdentifier(r.value)
  {
    var selected := JsTrim(selection);
    if selected != [] then
      if IsIdentifier(selected) then Some(selected) else None
    else PickFrom(SplitWhitespace(text), charPosition, 0)
  }

  /** The word loop of the context-menu handler (static/script.js:477-507). */
  method PickFunctionName(selection: string, text: string, charPosition: int)
    returns (functionName: Option<string>)
    ensures functionName == PickName(selection, text, charPosition)
  {
    functionName := None;
    var selectedText := JsTrim(selection);
    if selectedText != [] {
      if IsIdentifier(selectedText) {
        functionName := Some(selectedText);
      }
      return;
    }
    functionName := PickWord(SplitWhitespace(text), charPosition);
  }

  /** The loop over the words of the clicked line, advancing `currentPos`
      past each word and the space after it. */
  method PickWord(words: seq<string>, charPosition: int) returns (functionName: Option<string>)
    ensures functionName == PickFrom(words, charPosition, 0)
  {
    functionName := None;
    var currentPos := 0;
    var i := 0;
    while i < |words|
      invariant 0 <= i <= |words|
      invariant PickFrom(words[i..], charPosition, currentPos) == PickFrom(words, charPosition, 0)
    {
      var word := words[i];
      assert words[i..][1..] == words[i + 1..];
      if currentPos <= charPosition <= currentPos + JsLength(word) {
        var cleanWord := Clean(word);
        if IsIdentifier(cleanWord) {
          functionName := Some(cleanWord);
          return;
        }
      }
      currentPos := currentPos + JsLength(word) + 1;
      i := i + 1;
    }
  }

  /** Where word `k` starts when scanning from `pos`. */
  function Offset(words: seq<string>, k: nat, pos: int): int
    requires k <= |words|
  {
    if k == 0 then pos else Offset(words[1..], k - 1, pos + JsLength(words[0]) + 1)
  }

  /** Word `k` is under the click and cleans to an identifier. */
  ghost predicate Qualifies(words: seq<string>, k: nat, charPosition: int, pos: int)
    requires k < |words|
  {
    var at := Offset(words, k, pos);
    at <= charPosition <= at + JsLength(words[k]) && IsIdentifier(Clean(words[k]))
  }

  /** The picker answers with the cleaned form of the first qualifying word,
      and with nothing exactly when no word qualifies. */
  lemma {:induction false} PickFromFirst(words: seq<string>, charPosition: int, pos: int)
    ensures var r := PickFrom(words, charPosition, pos);
            && (r.None? <==> forall k :: 0 <= k < |words| ==> !Qualifies(words, k, charPosition, pos))
            && (r.Some? ==> exists k :: 0 <= k < |words| && Qualifies(words, k, charPosition, pos)
                                        && r.value == Clean(words[k])
                                        && forall i :: 0 <= i < k ==> !Qualifies(words, i, charPosition, pos))
  {
    if words != [] {
      var next := pos + JsLength(words[0]) + 1;
      PickFromFirst(words[1..], charPosition, next);
      forall k | 1 <= k < |words|
        ensures Qualifies(words, k, charPosition, pos) == Qualifies(words[1..], k - 1, charPosition, next)
      {
      }
      var r := PickFrom(words, charPosition, pos);
      if !Qualifies(words, 0, charPosition, pos) {
        assert r == PickFrom(words[1..], charPosition, next);
        if r.Some? {
          var k :| 0 <= k < |words[1..]| && Qualifies(words[1..], k, charPosition, next)
                   && r.value == Clean(words[1..][k])
                   && forall i :: 0 <= i < k ==> !Qualifies(words[1..], i, charPosition, next);
          assert Qualifies(words, k + 1, charPosition, pos);
          forall i | 0 <= i < k + 1 ensures !Qualifies(words, i, charPosition, pos) {
            if i > 0 {
              assert !Qualifies(words[1..], i - 1, charPosition, next);
            }
          }
        } else {
          forall k | 0 <= k < |words| ensures !Qualifies(words, k, charPosition, pos) {
            if k > 0 {
              assert !Qualifies(words[1..], k - 1, charPosition, next);
            }
          }
        }
      }
    }
  }

  /** The menu is only ever opened for an identifier. */
  lemma PickNameIsIdentifier(selection: string, text: string, charPosition: int)
    ensures var r := PickName(selection, text, charPosition);
            r.Some? ==> IsIdentifier(r.value) && MenuEnabled(r)
  {
    var selected := JsTrim(selection);
    if selected == [] {
      var words := SplitWhitespace(text);
      PickFromFirst(words, charPosition, 0);
    }
  }

  /** A selection decides on its own: the click position and the line's text
      play no part. */
  lemma SelectionWins(selection: string, text1: string, text2: string, c1: int, c2: int)
    requires JsTrim(selection) != []
    ensures PickName(selection, text1, c1) == PickName(selection, text2, c2)
    ensures PickName(selection, text1, c1).Some? <==> IsIdentifier(JsTrim(selection))
  {
  }

  // ---------------------------------------------------------------------
  // The node display path (static/script.js:615-616)
  // ---------------------------------------------------------------------

  /** `file_path.split("/").pop()`. */
  function LastSegment(filePath: string): (r: string)
    ensures '/' !in r
  {
    var parts := Split(filePath, '/', -1);
    parts[|parts| - 1]
  }

  /** The last segment is the part after the final `/`: a suffix without a
      slash, which is the whole path or follows a slash. */
  lemma {:induction false} LastSegmentSuffix(filePath: string)
    ensures var r := LastSegment(filePath);
            && |r| <= |filePath| && r == filePath[|filePath| - |r|..]
            && '/' !in r
            && (|r| == |filePath| || filePath[|filePath| - |r| - 1] == '/')
    decreases |filePath|
  {
    var idx := IndexOf(filePath, '/');
    if idx.None? {
      LastSegmentWhole(filePath);
    } else {
      var i := idx.value;
      var tail := filePath[i + 1..];
      LastSegmentAfter(filePath, i);
      var r := LastSegment(tail);
      LastSegmentSuffix(tail);
      assert filePath[|filePath| - |r|..] == tail[|tail| - |r|..];
      var k := |filePath| - |r| - 1;
      if |r| == |tail| {
        assert k == i;
      } else {
        assert filePath[k] == tail[k - i - 1];
      }
    }
  }

  /** A path without a slash is its own last segment. */
  lemma LastSegmentWhole(filePath: string)
    requires '/' !in filePath
    ensures LastSegment(filePath) == filePath
  {
    assert Split(filePath, '/', -1) == [filePath];
  }

  /** The last segment lies after the first slash. */
  lemma LastSegmentAfter(filePath: string, i: nat)
    requires IndexOf(filePath, '/') == Some(i)
    ensures LastSegment(filePath) == LastSegment(filePath[i + 1..])
  {
    var parts := Split(filePath[i + 1..], '/', -1);
    SplitAt(filePath, '/', -1, i);
    LastOfCons(filePath[..i], parts);
  }

  lemma LastOfCons(head: string, parts: seq<string>)
    requires |parts| >= 1
    ensures var all := [head] + parts; |all| == |parts| + 1 && all[|all| - 1] == parts[|parts| - 1]
  {
  }

  /** `displayPath`: the path itself when it has at most 40 code units,
      otherwise `.../` and its last segment. */
  function DisplayPath(filePath: string): string {
    if JsLength(filePath) > 40 then ".../" + LastSegment(filePath) else filePath
  }

  /** A short path is shown whole; a long one as `.../` and the text after
      its final slash. */
  lemma {:induction false} DisplayPathShape(filePath: string)
    ensures var d := DisplayPath(filePath);
            && (JsLength(filePath) <= 40 ==> d == filePath)
            && (JsLength(filePath) > 40 ==>
                  var seg := d[4..];
                  && d[..4] == ".../" && '/' !in seg
                  && |seg| <= |filePath| && seg == filePath[|filePath| - |seg|..]
                  && (|seg| == |filePath| || filePath[|filePath| - |seg| - 1] == '/'))
  {
    var seg := LastSegment(filePath);
    LastSegmentSuffix(filePath);
    if JsLength(filePath) > 40 {
      var d := ".../" + seg;
      assert DisplayPath(filePath) == d;
      assert d[..4] == ".../" && d[4..] == seg;
    }
  }

  // ---------------------------------------------------------------------
  // Node ids (static/script.js:608, 625, 634-635)
  // ---------------------------------------------------------------------

  /** The node reached by following sibling indices down from a node's list
      of callers. */
  function At(callers: seq<Entry>, path: seq<nat>): Option<Entry>
    decreases |path|
  {
    if path == [] || path[0] >= |callers| then None
    else if |path| == 1 then Some(callers[path[0]])
    else At(callers[path[0]].callers, path[1..])
  }

  /** `node-${depth}-${index}` as written: `renderHierarchyNodes` knows only
      the depth and the index among siblings of the node it draws. */
  function NodeIdAsWritten(path: seq<nat>): string
    requires path != []
  {
    "node-" + NatToString(|path| - 1) + "-" + NatToString(path[|path| - 1])
  }

  /** Two different nodes of one tree can get the same id: a target with two
      callers, each with one caller that itself has a caller. Both
      grand-callers are `node-1-0`, and both have callers, so both are drawn
      with an expand toggle and a `data-children` container. The toggle
      looks its container up with `querySelector`, which returns the first
      match, so the second toggle opens the first node's children. */
  lemma NodeIdCollision(s1: CallSite, s2: CallSite, s3: CallSite, s4: CallSite, s5: CallSite, s6: CallSite)
    ensures var tree := [Entry(s1, [Entry(s3, [Entry(s5, [], 0, 3, Some(false))], 1, 2, Some(false))], 1, 1, Some(false)),
                         Entry(s2, [Entry(s4, [Entry(s6, [], 0, 3, Some(false))], 1, 2, Some(false))], 1, 1, Some(false))];
            && At(tree, [0, 0]).Some? && At(tree, [1, 0]).Some?
            && At(tree, [0, 0]).value.callers != [] && At(tree, [1, 0]).value.callers != []
            && NodeIdAsWritten([0, 0]) == NodeIdAsWritten([1, 0])
  {
    var tree := [Entry(s1, [Entry(s3, [Entry(s5, [], 0, 3, Some(false))], 1, 2, Some(false))], 1, 1, Some(false)),
                 Entry(s2, [Entry(s4, [Entry(s6, [], 0, 3, Some(false))], 1, 2, Some(false))], 1, 1, Some(false))];
    assert [0, 0][1..] == [0];
    assert [1, 0][1..] == [0];
  }

  /** The indices of a path, each after a `-`. */
  function PathDigits(path: seq<nat>): string {
    if path == [] then [] else "-" + NatToString(path[0]) + PathDigits(path[1..])
  }

  /** The corrected id: `node` followed by every sibling index on the way
      down, so that the id names the node's whole position. */
  function NodeId(path: seq<nat>): string {
    "node" + PathDigits(path)
  }

  function Renders(path: seq<nat>): (r: seq<string>)
    ensures |r| == |path|
  {
    if path == [] then [] else [NatToString(path[0])] + Renders(path[1..])
  }

  /** Splitting a path id at its dashes gives back the indices. */
  lemma {:induction false} SplitPathDigits(head: string, path: seq<nat>)
    requires '-' !in head
    ensures Split(head + PathDigits(path), '-', -1) == [head] + Renders(path)
    decreases |path|
  {
    if path == [] {
      assert head + PathDigits(path) == head;
    } else {
      var d := NatToString(path[0]);
      assert '-' !in d by {
        forall k | 0 <= k < |d| ensures d[k] != '-' {
          assert IsDigit(d[k]);
        }
      }
      var more := PathDigits(path[1..]);
      var tail := d + more;
      assert PathDigits(path) == ['-'] + tail;
      assert head + PathDigits(path) == head + ['-'] + tail;
      SplitAfter(head, '-', tail, -1);
      SplitPathDigits(d, path[1..]);
      assert Renders(path) == [d] + Renders(path[1..]);
    }
  }

  lemma {:induction false} RendersInjective(p: seq<nat>, q: seq<nat>)
    requires Renders(p) == Renders(q)
    ensures p == q
  {
    if p != [] {
      assert Renders(p)[0] == Renders(q)[0];
      NatToStringInjective(p[0], q[0]);
      assert Renders(p)[1..] == Renders(p[1..]);
      assert Renders(q)[1..] == Renders(q[1..]);
      RendersInjective(p[1..], q[1..]);
    }
  }

  /** Different positions get different corrected ids. */
  lemma NodeIdInjective(p: seq<nat>, q: seq<nat>)
    requires NodeId(p) == NodeId(q)
    ensures p == q
  {
    SplitPathDigits("node", p);
    SplitPathDigits("node", q);
    assert Renders(p) == Split(NodeId(p), '-', -1)[1..];
    assert Renders(q) == Split(NodeId(q), '-', -1)[1..];
    RendersInjective(p, q);
  }

  // ---------------------------------------------------------------------
  // getPrismLanguage (static/script.js:280-294)
  // ---------------------------------------------------------------------

  const LanguageMap: map<string, string> := map[
    "c" := "c", "cpp" := "cpp", "python" := "python", "javascript" := "javascript",
    "html" := "markup", "css" := "css", "json" := "json", "markdown" := "markdown", "text" := "text"]

  /** `languageMap[fileType] || "text"`. */
  function PrismLanguage(fileType: string): (language: string)
    ensures language in LanguageMap.Values
    ensures fileType !in LanguageMap ==> language == "text"
  {
    if fileType in LanguageMap then LanguageMap[fileType]
    else assert LanguageMap["text"] == "text"; "text"
  }

  /** Every file type the server reports has its own Prism language: the
      type's own name, except HTML, which Prism calls `markup`; and distinct
      types get distinct languages. */
  lemma PrismOfFileType(extension: string)
    ensures var t := FileType(extension);
            PrismLanguage(t) == if t == "html" then "markup" else t
  {
  }

  lemma PrismInjectiveOnFileTypes(t1: string, t2: string)
    requires t1 in FileTypes && t2 in FileTypes && PrismLanguage(t1) == PrismLanguage(t2)
    ensures t1 == t2
  {
  }

  // ---------------------------------------------------------------------
  // The escaped search pattern (static/script.js:187)
  // ---------------------------------------------------------------------

  /** The characters of `/[.*+?^${}()|[\]\\]/`. */
  predicate IsMeta(c: char) {
    c in ".*+?^${}()|[]\\"
  }

  /** `pattern.replace(/[.*+?^${}()|[\]\\]/g, "\\$&")`. */
  function EscapeRegex(pattern: string): (r: string)
    ensures |r| >= |pattern|
    ensures |pattern| == 1 ==> r == if IsMeta(pattern[0]) then ['\\', pattern[0]] else pattern
  {
    if pattern == [] then []
    else (if IsMeta(pattern[0]) then ['\\', pattern[0]] else [pattern[0]]) + EscapeRegex(pattern[1..])
  }

  /** Reading an escaped pattern: a backslash takes the next character
      literally. */
  function Unescape(s: string): string
    decreases |s|
  {
    if s == [] then []
    else if s[0] == '\\' && |s| >= 2 then [s[1]] + Unescape(s[2..])
    else [s[0]] + Unescape(s[1..])
  }

  /** Escaping loses nothing: reading the escaped pattern gives the pattern. */
  lemma {:induction false} EscapeRoundTrip(pattern: string)
    ensures Unescape(EscapeRegex(pattern)) == pattern
  {
    if pattern != [] {
      EscapeRoundTrip(pattern[1..]);
      var e := EscapeRegex(pattern);
      if IsMeta(pattern[0]) {
        assert e == ['\\', pattern[0]] + EscapeRegex(pattern[1..]);
        assert e[2..] == EscapeRegex(pattern[1..]);
      } else {
        assert e == [pattern[0]] + EscapeRegex(pattern[1..]);
        assert e[1..] == EscapeRegex(pattern[1..]);
      }
    }
  }

  /** Escaping works character by character: the escape of a pattern is the
      escapes of its parts, in order. With the one-character case of
      `EscapeRegex`, this says that each metacharacter gets a backslash in
      front of it and nothing else changes. */
  lemma {:induction false} EscapeAppend(a: string, b: string)
    ensures EscapeRegex(a + b) == EscapeRegex(a) + EscapeRegex(b)
    decreases |a|
  {
    if a == [] {
      assert a + b == b;
    } else {
      assert (a + b)[0] == a[0] && (a + b)[1..] == a[1..] + b;
      EscapeAppend(a[1..], b);
    }
  }

  /** One backslash is added per metacharacter, and a pattern without
      metacharacters is left as it is. */
  lemma {:induction false} EscapeCount(pattern: string)
    ensures |EscapeRegex(pattern)| == |pattern| + |MetaChars(pattern)|
    ensures MetaChars(pattern) == [] ==> EscapeRegex(pattern) == pattern
  {
    if pattern != [] {
      var c, tail := pattern[0], pattern[1..];
      EscapeCount(tail);
      assert MetaChars(pattern) == (if IsMeta(c) then [c] else []) + MetaChars(tail);
      assert EscapeRegex(pattern) == (if IsMeta(c) then ['\\', c] else [c]) + EscapeRegex(tail);
      if MetaChars(pattern) == [] {
        assert pattern == [c] + tail;
      }
    }
  }

  function MetaChars(pattern: string): (r: string)
    ensures forall i :: 0 <= i < |r| ==> IsMeta(r[i])
  {
    if pattern == [] then []
    else (if IsMeta(pattern[0]) then [pattern[0]] else []) + MetaChars(pattern[1..])
  }

  // ---------------------------------------------------------------------
  // countTotalNodes (static/script.js:583-600)
  // ---------------------------------------------------------------------

  /** The number of caller entries at every level below a list of callers. */
  function Size(callers: seq<Entry>): nat
    decreases callers
  {
    if callers == [] then 0
    else Size(callers[..|callers| - 1]) + 1 + Size(callers[|callers| - 1].callers)
  }

  /** The closure variable `count` of `countTotalNodes`. */
  class NodeCounter {
    var count: int

    constructor ()
      ensures count == 1
    {
      count := 1;
    }

    /** `countRecursive`: one for each caller, and its own callers below it. */
    method CountRecursive(callers: seq<Entry>)
      modifies this
      ensures count == old(count) + Size(callers)
      decreases callers
    {
      for i := 0 to |callers|
        invariant count == old(count) + Size(callers[..i])
      {
        var caller := callers[i];
        count := count + 1;
        if |caller.callers| > 0 {
          CountRecursive(caller.callers);
        }
        assert callers[..i + 1][..i] == callers[..i];
      }
      assert callers[..|callers|] == callers;
    }
  }

  /** `countTotalNodes`: the root and every caller entry of the tree. */
  method CountTotalNodes(data: Node) returns (n: int)
    ensures n == 1 + Size(data.callers)
  {
    var counter := new NodeCounter();
    counter.CountRecursive(data.callers);
    n := counter.count;
  }

  /** The count of a list of callers is the sum over the callers. */
  lemma {:induction false} SizeAppend(a: seq<Entry>, b: seq<Entry>)
    ensures Size(a + b) == Size(a) + Size(b)
    decreases |b|
  {
    if b == [] {
      assert a + b == a;
    } else {
      assert (a + b)[..|a + b| - 1] == a + b[..|b| - 1];
      SizeAppend(a, b[..|b| - 1]);
    }
  }

  /** There are never fewer references than direct callers, and as many
      exactly when no direct caller has callers of its own. */
  lemma {:induction false} SizeAtLeastDirect(callers: seq<Entry>)
    ensures Size(callers) >= |callers|
    ensures Size(callers) == |callers| <==> forall k :: 0 <= k < |callers| ==> callers[k].callers == []
  {
    if callers != [] {
      var init := callers[..|callers| - 1];
      SizeAtLeastDirect(init);
      var last := callers[|callers| - 1].callers;
      if last != [] {
        SizeAtLeastDirect(last);
      }
      assert forall k :: 0 <= k < |init| ==> init[k] == callers[k];
    }
  }

  /** The tree of two functions calling each other counts three references:
      the target, its caller and the recursive leaf below it. */
  lemma MutualRecursionCount(siteB: CallSite, siteA: CallSite)
    requires siteB.callerFunction == "b" && siteA.callerFunction == "a"
    ensures var lookup := (f: string) => if f == "a" then [siteB] else if f == "b" then [siteA] else [];
            1 + Size(Resolve(lookup, "a", 10, {}, 0).callers) == 3
  {
    MutualRecursionStops(siteB, siteA);
    var leaf := Entry(siteA, [], 0, 2, Some(true));
    var top := Entry(siteB, [leaf], 1, 1, Some(false));
    assert Size([leaf]) == 1 by {
      assert [leaf][..0] == [];
    }
    assert Size([top]) == 2 by {
      assert [top][..0] == [];
    }
  }
}
