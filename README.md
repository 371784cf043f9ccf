# LiveGrep call-hierarchy engine: a Dafny model

LiveGrep is a code-search web application. It runs `ag` over a directory and
shows the matches with their surrounding lines. For a C or C++ function it
builds a *call hierarchy*: the callers of the function, then their callers,
and so on, in the manner of `cflow`. This project models the sequential logic
behind those features and proves what that logic promises.

- **Hierarchy** (`hierarchy.dfy`). `build_recursive_hierarchy` is a
  depth-bounded recursion. It keeps a set of names already on the path, which
  it updates in place and copies for each branch. It is modelled by the pure
  specification `Resolve` and the imperative `BuildRecursiveHierarchy`. The
  method is proved equal to `Resolve`, and it puts the visited set back the
  way it found it.
- **Classifier** (`classifier.dfy`). This covers `is_function_declaration`,
  `is_function_call`, `extract_caller_function` and the backward scan of
  `find_containing_function`. The regular expressions of the source are
  parameters (`Matchers`). The control structure around them is modelled as
  written: stripping, the comment and `#` checks, the order of the tests and
  the early returns.
- **Locator** (`locator.dfy`). This covers the cscope and grep output parsers
  and the rule for falling back from cscope to grep. A tool run is an input:
  its exit status and standard output, or `None` when starting it raised.
- **FileView** (`fileview.dfy`). This covers the result-limit loop of
  `search_files`, the context window of `get_file_content` and the extension
  table `_get_file_type`.
- **Frontend** (`frontend.dfy`). These are the value-computing helpers of
  `static/script.js`:
  - `parseSearchResult`;
  - the identifier check and the word picker of the context menu;
  - the display path and element id of a hierarchy node;
  - `getPrismLanguage`;
  - the escaping of the search pattern;
  - `countTotalNodes`.
- **Text** (`text.dfy`) and **Wrappers** (`wrappers.dfy`). These hold the
  Python and JavaScript string operations the rest relies on, and `Option`.
  The Python operations are `str.strip`, `str.split` with `maxsplit`, `int()`
  and `str()`. The JavaScript ones are `trim` and `length` in UTF-16 code
  units.

With `max_depth = 0`, main.py:281-288 returns a terminal node. That node
carries `is_recursive` (false for an empty visited set) and no
`max_depth_reached` at all. `Hierarchy.TerminalNode` states this.

The declaration and definition patterns of main.py (lines 346-365, 483 and
574) contain `$$[^)]*$$` where a parameter list `\([^)]*\)` was evidently
meant. In a Python regular expression `$` is an end anchor, so most of these
patterns can never match. The model keeps every pattern abstract, so each
proved property holds whichever patterns are used. In particular, it holds
both for the patterns as written and for the intended ones.

## Model

| member | source | states |
|---|---|---|
| Hierarchy.Resolve | main.py:269-330 | The node for a name: terminal at or past the depth bound or for a visited name, otherwise one entry per direct caller record. |
| Hierarchy.ExpandAll | main.py:297-322 | The entries for a node's caller records, in the lookup's order. |
| Hierarchy.ExpandOne | main.py:298-320 | One caller record: a leaf for an unknown or self caller, otherwise the callers of the sub-tree built with the name added to the visited set. |
| Hierarchy.VisitedSet.constructor | main.py:277-310 | A new visited set holds exactly the given names: `set()` at main.py:277-278, or `visited.copy()` at main.py:310. |
| Hierarchy.BuildRecursiveHierarchy | main.py:269-330 | The returned tree is `Resolve` of the visited names on entry, and `visited` is back to its entry value on return. |
| Hierarchy.TerminalNode | main.py:281-288 | A terminal node has no callers, `total_callers` 0, its own depth and `is_recursive = name in visited`. It has no `max_depth_reached` and does not depend on the lookup. |
| Hierarchy.ExpandAllEach | main.py:297-322 | The entries correspond one to one, in order, to the caller records. |
| Hierarchy.ExpandedNode | main.py:296-330 | An expanded node has one entry per lookup record, in order, one level deeper, and `max_depth_reached = depth >= max_depth - 1`. Unknown or self callers are leaves without `is_recursive`. Any other entry is recursive exactly when its caller is already visited, and carries the sub-tree's callers. |
| Hierarchy.ResolveShaped | main.py:281-330 | At every level, `total_callers == len(callers)`, each entry is one deeper than its parent and no deeper than the bound. A node carries `is_recursive` exactly when it has no `max_depth_reached`. |
| Hierarchy.ExpandOneShaped | main.py:298-320 | Each entry built for a caller record is shaped, at one level below the node. |
| Hierarchy.ResolveUnrepeated | main.py:280-322 | Along any chain of expanded entries no function is expanded twice, and no name visited on entry is expanded. |
| Hierarchy.ExpandOneUnrepeated | main.py:298-320 | An entry built for a caller record expands no function already on the path, at any level below it. |
| Hierarchy.MutualRecursionStops | main.py:280-322 | Two functions that call each other give a finite tree: `a` is called by `b`, which is called by `a`, shown as a recursive leaf. |
| Classifier.AnyMatch | main.py:356-358 | The pattern loop answers true exactly when some pattern matches. |
| Classifier.IsFunctionDeclaration | main.py:333-372 | Blank and comment lines, then the declaration patterns, then the definition patterns, on the stripped line. |
| Classifier.IsFunctionCall | main.py:375-406 | Blank, comment and `#` lines are not calls; otherwise the call-pattern loop decides. |
| Classifier.CallPatternLoopMeaning | main.py:400-406 | The call loop is true exactly when some call pattern matches and the line is not a declaration. |
| Classifier.CallCharacterization | main.py:375-406 | Both directions: a line is a call iff, stripped, it is not blank, a comment or a directive, some call pattern matches, and it is not a declaration. |
| Classifier.CallExcludesDeclaration | main.py:400-404 | A call is never a declaration. |
| Classifier.NonCodeLines | main.py:336-386 | Blank and comment lines are declarations and never calls; `#` lines are never calls. |
| Classifier.DeclarationPatternBlocksCall | main.py:356-404 | A line matched by any declaration or definition pattern is a declaration and never a call. |
| Classifier.ExtractCallerFunction | main.py:472-491 | The caller is the context, the definition pattern's capture, or `"unknown"`. |
| Classifier.ExtractPrefersContext | main.py:474-487 | A context that reads as a function name wins; otherwise a definition capture is used. |
| Classifier.ExtractUnknownIff | main.py:485-491 | The result is `"unknown"` exactly when there is no scope context and the definition pattern fails. |
| Classifier.ExtractNeverEmptyOrGlobal | main.py:489-491 | The result is never empty and never `<global>`, given captures that are not. |
| Classifier.Definitions | main.py:578-579 | The capture of each stripped line of a file, one per line. |
| Classifier.NearestDefinitionMeaning | main.py:577-583 | The scan returns the capture of the nearest definition at or above the start line. It returns nothing exactly when no line up to there is a definition. |
| Classifier.NearestDefinition | main.py:577-583 | The backward scan over the captures of the lines from `top` down to the first line. |
| Classifier.ScanStart | main.py:577 | The scan starts at `min(line_number - 1, len(lines) - 1)`: it is one of the two, at most the last line's index and not below the hit. It is negative, so nothing is scanned, for an empty file or a line number below 1. |
| Classifier.ContainingFunction | main.py:558-586 | `"unknown"` for an unreadable file; otherwise the nearest definition's name from the scan start, or `"unknown"`. |
| Classifier.FindContainingFunction | main.py:558-586 | The backward loop equals `ContainingFunction`. It returns `"unknown"` for an unreadable file. Otherwise it returns the nearest definition's name, or `"unknown"` when there is none. |
| Locator.OutputLines | main.py:428 | Standard output stripped and split at every line break. |
| Locator.Relative | main.py:446-447 | `os.path.relpath(file_path, base_path)` when the path starts with the base path, the path itself otherwise. |
| Locator.FullPath | main.py:565-566 | The path itself when absolute, otherwise joined to the base path. |
| Locator.CscopeLine | main.py:429-460 | One cscope line: skipped when blank, short, a declaration or not a call; raises on a bad line number; otherwise a record. |
| Locator.GrepLine | main.py:520-550 | One grep line: the same filters, with the caller found by the backward scan. |
| Locator.FirstRaise | main.py:519-553 | The first raising line: no line before it raises, and it is the line count exactly when none does. |
| Locator.FirstRaiseAt | main.py:519-553 | A raising line with no raising line before it is the first raise. |
| Locator.KeepsAppend | main.py:454-460 | Records are appended in output-line order. |
| Locator.KeepsProvenance | main.py:428-460 | Every record comes from a kept line, and there are never more records than lines. |
| Locator.CscopeCallers | main.py:428-460 | The kept records of all cscope lines in order, or nothing when a line raises. |
| Locator.GrepLinesCallers | main.py:519-553 | The kept records of the grep lines before the first one that raises. |
| Locator.GrepCallers | main.py:494-555 | No records unless grep ran, exited 0 and printed something; otherwise `GrepLinesCallers` of its output lines. |
| Locator.ReadCscopeLine | main.py:429-460 | The cscope loop body computes `CscopeLine`. |
| Locator.ParseCscopeOutput | main.py:428-460 | The cscope loop gives all kept records, or nothing when a line raises. |
| Locator.ReadGrepLine | main.py:520-550 | The grep loop body computes `GrepLine`. |
| Locator.ParseGrepOutput | main.py:519-553 | The grep loop gives the records of the lines before the first raise. |
| Locator.GrepFunctionCallers | main.py:494-555 | Nothing unless grep ran, exited 0 and printed something. |
| Locator.LocateCallers | main.py:409-469 | cscope's records when it answered and no line raised, grep's otherwise. |
| Locator.FindFunctionCallers | main.py:409-469 | The method computes `LocateCallers`. |
| Locator.CscopeAnswerIsFinal | main.py:426-460 | Once cscope answered without a raise, grep is never consulted, even when every line was filtered out. |
| Locator.GrepIsFallback | main.py:461-467 | When cscope failed, printed nothing or raised, the answer is grep's. |
| Locator.CscopeFields | main.py:430 | Splitting on the first three spaces recovers file, context, number and code. |
| Locator.CscopeLineRoundTrip | main.py:430-460 | A well-formed cscope line gives back its fields as a record when the code is a call, and is skipped otherwise. |
| Locator.GrepFields | main.py:521 | Splitting on the first two colons recovers file, number and code. |
| Locator.GrepLineRoundTrip | main.py:521-550 | A well-formed grep line gives back its fields, with the scanned caller, when the code is a call. |
| Locator.StripNotEmpty | main.py:429 | A line holding a digit is not blank. |
| FileView.Kept | main.py:55-62 | The number of lines kept is the total when the limit is not positive, and `min(total, limit)` otherwise. |
| FileView.SearchFiles | main.py:53-69 | The results are the first `min(limit, N)` lines stripped, in order, or all N for `limit <= 0`. `limited` holds iff `limit > 0` and more than `limit` lines exist. |
| FileView.StripAll | main.py:59 | Each result is the corresponding output line stripped, one result per line. |
| FileView.RStripLineBreaks | main.py:147 | `rstrip('\n\r')` on one line. |
| FileView.RStripLineBreaksMeaning | main.py:147 | `rstrip('\n\r')`: a prefix of the line ending in no line break, with only line breaks removed. |
| FileView.Window | main.py:138-150 | The entries for lines `max(1, n-k)` to `min(total, n+k)`, each with its number, its text without the line break and whether it is line `n`. |
| FileView.ContextWindow | main.py:138-150 | The context loop computes `Window`. |
| FileView.WindowLines | main.py:139-150 | Consecutive line numbers from `max(1, n-k)` to `min(total, n+k)`, each a line of the file, with its text without the line break. |
| FileView.WindowMatch | main.py:145-150 | At most one entry is the match. One is exactly when line `n` exists and `k >= 0`. |
| FileView.FileType | main.py:167-186 | The type is one of the nine known ones, and `text` exactly for extensions not in the table. |
| FileView.CFamily | main.py:169-175 | `.c`, `.h`, `.hpp` are C and `.cpp`, `.cc`, `.cxx` are C++, and nothing else is. |
| Frontend.ParseSearchResult | static/script.js:163-174 | The path, number and content of a `P:D:C` result line, or nothing. |
| Frontend.ParseSearchResultSound | static/script.js:163-174 | Every parsed hit comes from a `P:D:C` line with the value of its digits. |
| Frontend.ParseSearchResultComplete | static/script.js:163-174 | Every `P:D:C` line, with P non-empty and colon-free, D non-empty digits and C without line terminators, is parsed into its parts. |
| Frontend.SearchResultRoundTrip | static/script.js:163-174 | A line written from path, number and content parses back to them. |
| Frontend.MenuEnabled | static/script.js:90-91 | The call-hierarchy item is enabled iff the name is present and an identifier. |
| Frontend.Clean | static/script.js:500 | Removing non-`\w` characters leaves only word characters: a word character is kept and any other character dropped. |
| Frontend.CleanAppend | static/script.js:500 | Cleaning works character by character: the cleaned parts, in order, make the cleaned word. |
| Frontend.CleanKeepsWords | static/script.js:500 | A word is unchanged exactly when all its characters are word characters. |
| Frontend.FirstSpace | static/script.js:494 | The first white-space position, with none before it. |
| Frontend.SplitWhitespace | static/script.js:494 | `split(/\s+/)` gives at least one piece. |
| Frontend.SplitWhitespaceMeaning | static/script.js:494 | The pieces hold no white space, only the first and the last can be empty, the first is empty only for text starting with white space, and the text is the pieces with a non-empty run of white space between each two. |
| Frontend.PickName | static/script.js:477-507 | The trimmed selection if it is an identifier, nothing for any other non-blank selection, otherwise the word picked from the clicked line; always an identifier. |
| Frontend.PickFrom | static/script.js:494-507 | The cleaned first word under the position that cleans to an identifier, moving one past each word; always an identifier. |
| Frontend.PickFunctionName | static/script.js:477-507 | The handler computes `PickName`: the trimmed selection if any, otherwise the word under the click. |
| Frontend.PickWord | static/script.js:494-507 | The word loop computes `PickFrom` from position 0. |
| Frontend.PickFromFirst | static/script.js:494-507 | The picker returns the cleaned first word whose span holds the position and that cleans to an identifier. It returns nothing iff no word does. |
| Frontend.PickNameIsIdentifier | static/script.js:477-503 | The menu is only ever opened for an identifier. |
| Frontend.SelectionWins | static/script.js:477-481 | A non-blank selection decides alone, and yields a name iff it is an identifier. |
| Frontend.LastSegment | static/script.js:615 | `split("/").pop()`: the last piece, which holds no slash. |
| Frontend.LastSegmentSuffix | static/script.js:615 | `split("/").pop()` is the slash-free suffix after the last slash. |
| Frontend.DisplayPath | static/script.js:615-616 | The path when it has at most 40 UTF-16 units, otherwise `.../` and its last segment. |
| Frontend.DisplayPathShape | static/script.js:615-616 | A path of at most 40 units is shown whole; a longer one as `.../` and its last segment. |
| Frontend.NodeIdAsWritten | static/script.js:608 | `node-${depth}-${index}` from the depth and the last sibling index only. |
| Frontend.NodeIdCollision | static/script.js:606-635 | Two different nodes of one tree, both with callers of their own and so both drawn with a toggle, get the same id `node-1-0`. |
| Frontend.NodeId | static/script.js:608 | The corrected id: `node` and every sibling index on the path from the root. |
| Frontend.SplitPathDigits | static/script.js:608 | Splitting a path id at its dashes gives back the indices. |
| Frontend.RendersInjective | static/script.js:608 | Index lists with the same renderings are equal. |
| Frontend.NodeIdInjective | static/script.js:608 | The corrected path ids of different positions differ. |
| Frontend.PrismLanguage | static/script.js:280-294 | Always a known Prism language, and `text` for an unknown type. |
| Frontend.PrismOfFileType | static/script.js:293 | Each server file type maps to its own name, except `html`, which maps to `markup`. |
| Frontend.PrismInjectiveOnFileTypes | static/script.js:281-291 | Distinct server file types get distinct Prism languages. |
| Frontend.EscapeRegex | static/script.js:187 | Escaping never shortens the pattern; a single metacharacter gets a backslash in front, any other single character is kept. |
| Frontend.EscapeAppend | static/script.js:187 | Escaping works character by character; with the single-character case, each regular-expression metacharacter (`IsMeta`, the bracket class of the `replace`) gets a backslash in front and nothing else changes. |
| Frontend.EscapeRoundTrip | static/script.js:187 | Reading the escaped pattern back gives the pattern. |
| Frontend.EscapeCount | static/script.js:187 | One character is added per metacharacter, and a pattern without metacharacters is unchanged. |
| Frontend.Size | static/script.js:583-600 | The number of caller entries at every level below a list of callers. |
| Frontend.NodeCounter.constructor | static/script.js:584 | The counter starts at 1 for the root. |
| Frontend.NodeCounter.CountRecursive | static/script.js:586-595 | The counter grows by the number of entries at every level below the callers. |
| Frontend.CountTotalNodes | static/script.js:583-600 | The count is 1 plus every caller entry at every level. |
| Frontend.SizeAppend | static/script.js:587-594 | The count of a list is the sum of the counts of its parts. |
| Frontend.SizeAtLeastDirect | static/script.js:583-600 | There are at least as many references as direct callers. They are equal iff no direct caller has callers. |
| Frontend.MutualRecursionCount | static/script.js:583-600 | The tree of two mutually calling functions counts three references. |
| Text.IndexOf | main.py:430 | The first occurrence of a character, or none exactly when it is absent. |
| Text.Split | main.py:430 | `str.split(sep, maxsplit)`: at most `maxsplit + 1` parts. No part but the last holds the separator, and the last holds none when the split is unlimited. |
| Text.SplitJoin | main.py:430 | Joining the parts with the separator gives the string back. |
| Text.SplitAfter | main.py:521 | A separator-free prefix followed by the separator is split off first. |
| Text.TrimStart | main.py:336 | Removes exactly the leading run of white space. |
| Text.TrimEnd | main.py:336 | Removes exactly the trailing run of white space. |
| Text.Strip | main.py:336 | Python's `str.strip()`: both runs of Python white space removed. |
| Text.JsTrim | static/script.js:477-478 | JavaScript's `trim()`: both runs of JavaScript white space removed. |
| Text.TrimIdempotent | main.py:377 | Trimming twice is trimming once. |
| Text.StripIdempotent | main.py:403 | `strip()` twice is `strip()` once, so the call check's re-test of the stripped line sees the same line. |
| Text.TrimEmpty | main.py:429 | Only an all-white-space line strips to nothing. |
| Text.Remove | main.py:476 | `replace(c, "")` removes every `c` and keeps every other character; a single `c` becomes empty and any other single character is kept. |
| Text.RemoveAppend | main.py:476 | Removal works character by character: with the single-character case, the result is the input with each `c` dropped and the other characters kept in order. |
| Text.PyInt | main.py:457 | `int()` of a string: an optional sign and underscore-grouped ASCII digits, surrounded by the white space `int()` skips (`PyIntSpace`: not U+001C to U+001F, which `str.strip` would remove), or `None` where Python raises. |
| Text.PyIntRefusesSeparator | main.py:457 | A number after U+001C is refused (`int("\x1c1")` raises), so such a line number ends the cscope or grep parse. |
| Text.PyIntOfDigits | main.py:457 | A non-empty run of digits reads as its decimal value; the empty string is refused. |
| Text.NatToString | main.py:457 | A decimal rendering is a non-empty run of digits. |
| Text.NatToStringValue | main.py:457 | A decimal rendering reads back as its number. |
| Text.NatToStringInjective | static/script.js:608 | Different numbers render differently. |
| Text.JsLength | static/script.js:616 | A string's length in UTF-16 units lies between its code-point count and twice that. |

## Findings

| source | as written | input that shows it | evidently intended | confidence | as-written member | corrected member |
|---|---|---|---|---|---|---|
| static/script.js:608 | The node id is `node-${depth}-${index}`, built from the depth and the index among siblings only. A node with callers gets a toggle and a `data-children` container, and the toggle finds its container with `querySelector('[data-children=…]')`, which returns the first match. | A target with two callers, each with one caller that itself has a caller. Both grand-callers have callers and get `node-1-0`, so the second one's toggle expands or collapses the first one's children. | An id unique within the tree, such as the path of sibling indices from the root. | high, not executed | Frontend.NodeIdCollision | Frontend.NodeIdInjective |

## Left out

- I/O is not modelled. This covers the FastAPI routing and HTTP status codes, and the starting, reading, terminating and killing of `ag`, `cscope`, `grep` and `find`. It also covers building the cscope database and opening files. Tool output is given as input: the decoded standard output, or the lines `readline()` returns. A file's lines are given by the `readFile` parameter.
- Byte decoding is not modelled. A `UnicodeDecodeError` while decoding tool output cannot be expressed.
- The regular-expression engine is not modelled. Every pattern of main.py is a parameter of `Matchers`, and so is `str.isalnum` on one character.
- `os.path.relpath`, `join` and `isabs` are parameters (`PathOps`). `normpath`, `exists`, `isfile`, `splitext` and `lower`, used by `get_file_content` around the window, are not modelled.
- Hierarchy.BuildRecursiveHierarchy: the source writes `callers`, `total_callers`, `depth` and `is_recursive` onto the caller dictionaries in place. The model builds new `Entry` values instead. Every lookup returns fresh dictionaries, so nothing else observes the change.
- Hierarchy.BuildRecursiveHierarchy: the caller lookup is a function of the name. This assumes repeated `find_function_callers` calls for one name, within one tree, see the same files and tool output.
- Text.PyInt: Python's `int()` also accepts non-ASCII Unicode decimal digits. The model accepts ASCII digits only.
- Frontend.ParseSearchResult: `Number.parseInt` loses precision above 2^53. The model reads the digits exactly, and so do `ParseSearchResultComplete` and `SearchResultRoundTrip`, which are about it.
- Frontend.ParseSearchResultSound: the number of a parsed hit is the exact value of its digits, not `Number.parseInt`'s rounding above 2^53.
- Frontend.PrismLanguage: a JavaScript object also answers inherited keys such as `constructor` with a function, which `|| "text"` does not replace. The model answers `text` for every key outside the table.
- The HTML assembly of `renderHierarchyNodes` is not modelled; only the node id and the display path are. DOM events, `fetch`, debouncing and the Mermaid, Prism and marked rendering are also not modelled.
- The pixel-to-character arithmetic of the context menu (static/script.js:485-491) uses floating point and layout. The resulting `charPosition` is a parameter.
- Concurrency is not modelled. The `async` suspension points do not change the sequential results modelled here.
