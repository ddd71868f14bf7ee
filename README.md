# LeetCode test runner for VS Code, modelled in Dafny

The extension works in two phases, and this project models both.

**Fetching tests.** The webview's fetch form (`frontend/script.js`) trims the URL the
user typed. It refuses a blank URL and any URL whose first 30 characters are not
`https://leetcode.com/problems/`. Otherwise it posts the URL to the extension.
The extension then does three things:
- it hands the URL to a Python scraper (`urlfetching.py`), which turns each example
  block of the problem page into one line of program input and one expected output;
- it names the problem with `getName` (`frontend/fetchName.js`) and `formatName`;
- `getTests` (`extension.js`) writes `ip<k>.txt` and `op<k>.txt` under
  `TestData/<name>` of the first workspace folder.

**Running tests.** The run form posts a problem name. `runTests` checks, in this order:
1. a workspace is open;
2. an editor is active;
3. the code is not blank;
4. the name is not empty.

It then finds the first workspace folder that has `TestData/<formatName(name)>`.
A `.cpp` file is compiled and run, a `.py` file is interpreted, and any other file
is refused.

The runner loop (`runcode.js`) then goes through every listed `ip*.txt` in listing order:
- it takes the case number from the first digit run of the file name;
- it skips a case whose `op<n>.txt` is missing;
- it compares the trimmed stdout with the trimmed expected file;
- it records one verdict and one output pair per case;
- it clears `allTestsPassed` on any failure.

On the Python path, any stderr output aborts the whole run.

The modules follow the source files:
- `Text` holds the string operations of JavaScript and Python that the source calls:
  `trim`/`strip`, `indexOf`, `slice`, `substring`, `split`, `join`, `str` of an
  integer, and `match(/\d+/)`.
- `FetchName` models `frontend/fetchName.js`.
- `Script` models `frontend/script.js`.
- `Extension` models `extension.js`.
- `RunCode` models `runcode.js`.
- `UrlFetching` models `urlfetching.py`.
- `Wiring` states properties that hold across these files.

Where the source is imperative, so is the model, and each method is proved equal to a
specification function:
- the `getTests` write loops (`Extension.WriteCaseFiles`, `Extension.GetTests`);
- the `runTests` folder search (`Extension.RunTests`);
- the runner loop (`RunCode.RunCases`);
- `parse_input` and its inner loops (`UrlFetching.ParseInput`, the `Scan*` methods and `UrlFetching.CopyToClosing`);
- `parse_test_cases` (`UrlFetching.ParseTestCases`).

Everything else is functions and lemmas.

Python's `ast.literal_eval` is a parameter, `eval: string -> Option<seq<PyValue>>`. It
gives the items of the list literal, or `None` when it raises. Process execution is
also a parameter, `run: string -> Execution`, which maps a case's input to the
stdout and stderr chunks of the process.

The model states three behaviours of the source as it is:
- **Bare URLs.** `getName` and the scraper's `get_problem_identifier` agree on the usual
  `…/problems/<name>/description/` URL (`Wiring.DescriptionUrlAgrees`). On a URL with
  neither `description` nor a trailing slash they disagree: `slice(start, -1)` drops
  the name's last character (`Wiring.BareUrlNamesDisagree`).
- **Listing order.** The runner visits cases in listing order, not numeric order
  (`RunCode.ListingOrderNotNumeric`).
- **Empty first row.** An expected output whose first row is an empty list is printed
  with Python's `str` of each row (`UrlFetching.EmptyFirstRowOutput`).

Some functions only compute and are the specifications the rest is proved against, so
they have no row of their own; their rows are the lemmas about them:
- `Extension.GetLanguage` (extension.js:21-28): `Extension.GetLanguageOfExtension`,
  `Extension.GetLanguageWithoutDot` and the rows beside them.
- `UrlFetching.FormatOutput` (urlfetching.py:116-129): `UrlFetching.QuotedOutput`,
  `UrlFetching.PlainOutput`, `UrlFetching.UnreadableOutput`, `UrlFetching.IntListOutput`
  and `UrlFetching.GridOutput`.
- `UrlFetching.Scan` and `UrlFetching.ParseInputSpec` (urlfetching.py:25-77):
  `UrlFetching.ParseInput`, `UrlFetching.ScanThrough`, `UrlFetching.ScanArgsAt` and
  `UrlFetching.ParseInputOfArgs`.
- `RunCode.Step`, `RunCode.Record` and `RunCode.RunSpec` (runcode.js:64-118):
  `RunCode.RunCases` and the `RunCode` rows from `RunCode.SkipCase` to `RunCode.AppendStep`.
- `FetchName.NameStart` and `FetchName.NameEnd` (frontend/fetchName.js:3-4):
  `FetchName.NameStartAfter` and `FetchName.NameEndAt`.

## Model

| member | source | states |
|---|---|---|
| FetchName.DropTrailingSlash | frontend/fetchName.js:7 | removes exactly one `/` when the text ends with one, and otherwise changes nothing |
| FetchName.GetName | frontend/fetchName.js:1-10 | the name is never longer than the URL and always occurs contiguously in it |
| FetchName.NameStartAfter | frontend/fetchName.js:3 | when the first `problems` is at position p, the name starts at p + 9, just past `problems/` |
| FetchName.NameEndAt | frontend/fetchName.js:4 | the name ends where the first `description` begins |
| FetchName.GetNameOfProblemUrl | frontend/fetchName.js:1-10 | on `…problems/<n>/description…` the name is exactly `n` |
| FetchName.GetNameWithoutDescription | frontend/fetchName.js:4-7 | without `description` the end index is -1, so the slice stops one character before the end of the URL |
| FetchName.GetNameEmptyWhenStartNotBeforeEnd | frontend/fetchName.js:7 | when the start does not come before the end, the name is empty |
| Script.SubmitFetchForm | frontend/script.js:11-25 | posts `fetchTests` with the trimmed URL exactly when it starts with the problems prefix; shows the empty-field message exactly for blank input; otherwise shows the invalid-URL message |
| Script.SubmitRunForm | frontend/script.js:27-30 | posts `runTests` with the name exactly as typed |
| Script.PostedAsIs | frontend/script.js:13-24 | a prefixed URL with no surrounding whitespace is posted unchanged |
| Script.ResubmitPosted | frontend/script.js:13-24 | submitting a posted URL again posts the same message (idempotence) |
| Script.RefusedAt | frontend/script.js:20-23 | a URL with no surrounding whitespace that differs from the prefix at any of its first 30 characters is refused as invalid |
| Script.WwwUrlRefused | frontend/script.js:20-23 | the `https://www.leetcode.com/problems/…` form is refused as invalid |
| Script.PlainHttpRefused | frontend/script.js:20-23 | an `http://` URL is refused as invalid |
| Extension.CollapseSpaces | extension.js:15 | the result has no whitespace, is no longer than the input, and keeps lowercase text lowercase |
| Extension.FormatName | extension.js:14-16 | the key has no whitespace and no upper-case letter, and is no longer than the name |
| Extension.CollapseSpacesOfNoSpace | extension.js:15 | text without whitespace is left unchanged by the replace |
| Extension.FormatNameOfKey | extension.js:14-16 | a lowercase name without whitespace is its own key |
| Extension.FormatNameIdempotent | extension.js:14-16 | formatting a formatted name changes nothing |
| Extension.CollapseSpacesRun | extension.js:15 | each maximal whitespace run becomes exactly one `-`, and the text on either side is formatted independently |
| Extension.StripTrailingSlashes | extension.js:22 | removes exactly the trailing `/` characters, as `path.extname` ignores them |
| Extension.BaseName | extension.js:22 | the base name holds no `/` |
| Extension.ExtOfBase | extension.js:22 | the extension is empty or a final `.` part that is a proper suffix of the base; a name whose only dot is its first character has none |
| Extension.ExtName | extension.js:22 | the extension is empty or a `.` followed by text with no `.` and no `/` |
| Extension.BaseNameAppend | extension.js:22 | appending slash-free text to a path extends its base name by that text |
| Extension.ExtOfBaseDotted | extension.js:22 | a base `stem.x` with a non-empty stem has extension `.x` |
| Extension.ExtNameOfDotted | extension.js:22 | a path `q.x` whose last part is `x` has extension `.x` |
| Extension.LanguageOfDotted | extension.js:23-28 | `.cpp`, `.py` and `.js` map to their languages, and every other extension maps to unknown |
| Extension.GetLanguageOfExtension | extension.js:21-28 | the language of `q.x` is decided by `x` lower-cased, so `A.CPP` is C++ |
| Extension.LastIndexOfCharAppend | extension.js:22 | the last dot of `a + b` is the last dot of `b` when there is one, and otherwise the last dot of `a` |
| Extension.GetLanguageWithoutDot | extension.js:21-28 | a file name without a dot has no extension and an unknown language |
| Extension.CaseFileNameInjective | extension.js:63-73 | different case numbers give different file names |
| Extension.InputAndOutputNamesDiffer | extension.js:63-73 | no input file name is ever an output file name |
| Extension.NumberedStep | extension.js:63-67 | the names written after k + 1 iterations are those after k plus file k + 1 |
| Extension.WriteStep | extension.js:63-73 | one loop iteration writes file k + 1 and keeps all earlier writes and all other files |
| Extension.WriteCaseFiles | extension.js:63-73 | file k holds element k - 1 for k = 1..n; the directory gains exactly those names; every other file is unchanged |
| Extension.SavedCasesOfWrites | extension.js:50-73 | the input loop then the output loop over the problem directory leave every case file holding its text, every other file, problem and folder as it was |
| Extension.GetTests | extension.js:34-77 | with no workspace, nothing is written; an empty folder list fails on `workspaceFolders[0]` (an array is truthy); otherwise `TestData/<formatName(getName(url))>` of the first folder gets `ip<k>`/`op<k>`; other problems, other folders and unrelated files are unchanged |
| Extension.FirstFolderWith | extension.js:128-137 | finds the first folder in workspace order that has `TestData/<key>`, or reports that none has |
| Extension.Dispatch | extension.js:139-156 | a missing folder gives the not-found message; C++ compiles `temp_solution.cpp` to `solution_exec.exe` in the problem folder; Python runs the editor's file; any other language is refused |
| Extension.RunTests | extension.js:100-157 | the checks run in order (workspace, editor, blank code, empty name), then the search uses the formatted name |
| RunCode.TestFiles | runcode.js:63 | a file is a test exactly when it is listed and matches `ip*.txt`; the list is never longer than the listing |
| RunCode.TestFilesAppend | runcode.js:63 | the filter keeps listing order |
| RunCode.ListingOrderNotNumeric | runcode.js:127 | `ip10.txt` is visited before `ip2.txt` when the listing says so |
| RunCode.ConcatEmpty | runcode.js:160-165 | the collected stderr is empty exactly when every chunk is empty |
| RunCode.Collect | runcode.js:156-162 | accumulating the `data` events yields the concatenation of the chunks |
| RunCode.RunCases | runcode.js:69-118 | the loop's outcome equals the fold of one step per test file, in listing order |
| RunCode.SkipCase | runcode.js:76-79 | an input file whose expected output is missing leaves the outcome as it was |
| RunCode.RecordCase | runcode.js:97-111 | a paired case that completes appends its number and verdict to `results` and its trimmed texts to `outputs`, and clears `allTestsPassed` when they differ |
| RunCode.NoNumberCase | runcode.js:70 | an input file name without digits ends the run with that name's error, whatever follows |
| RunCode.ErroredCase | runcode.js:160-167 | in the Python path, a paired case with stderr output ends the run with that case's error, whatever follows |
| RunCode.ExecuteCppCode | runcode.js:44-123 | a failed compile ends in the compile error before any case runs; otherwise the outcome is the C++ fold, and with no cases all tests pass |
| RunCode.ExecutePythonCode | runcode.js:126-195 | the outcome is the Python fold, and with no cases all tests pass |
| RunCode.AbortIsFinal | runcode.js:164-167 | once the run has aborted, later cases change nothing |
| RunCode.CppNeverErrors | runcode.js:93-95 | C++ stderr is only logged, so the C++ loop never ends in a case error or a compile error; it can still end on a file name without digits |
| RunCode.SkipsUnpaired | runcode.js:76-79 | an input without its `op<n>.txt` has no effect wherever it appears |
| RunCode.PythonAbortsOnStderr | runcode.js:164-167 | in the Python path, a paired case that writes to stderr ends the run with that case's error |
| RunCode.Paired | runcode.js:69-79 | the paired inputs are among the cases and never more numerous |
| RunCode.CompletedRun | runcode.js:64-118 | a completed run has one verdict and one output pair per paired input, in order and index-aligned; each verdict is the equality of the trimmed texts; `allTestsPassed` is their conjunction |
| RunCode.AppendStep | runcode.js:97-111 | recording one case extends the description of the run by that case |
| RunCode.TrailingNewlineIgnored | runcode.js:98-100 | a trailing newline does not fail a case |
| RunCode.InnerSpaceCounts | runcode.js:98-100 | whitespace inside the output does fail a case |
| UrlFetching.ArrayDimensions | urlfetching.py:80-83 | no dimensions for a scalar or an empty list; otherwise the first dimension is the length and every dimension is at least 1 |
| UrlFetching.Flatten | urlfetching.py:86-91 | no list survives flattening |
| UrlFetching.Leaves | urlfetching.py:86-91 | the leaves of a value hold no list |
| UrlFetching.FlattenAppend | urlfetching.py:86-91 | flattening distributes over concatenation |
| UrlFetching.FlattenFlat | urlfetching.py:86-91 | a list without nested lists flattens to itself |
| UrlFetching.ShapeDimensions | urlfetching.py:80-83 | a rectangular array with non-zero sides reports exactly its shape |
| UrlFetching.ShapeLeaves | urlfetching.py:86-91 | a rectangular array has as many leaves as the product of its dimensions |
| UrlFetching.ShapeItemsLeaves | urlfetching.py:86-91 | n items of the same shape flatten to n times that shape's leaf count |
| UrlFetching.RaggedDimensions | urlfetching.py:80-83 | a ragged array reports the lengths along its first elements (`[[1,2],[3]]` gives `[2, 2]`) |
| UrlFetching.Strs | urlfetching.py:60 | `map(str, …)` gives one string per value, in order |
| UrlFetching.Decimals | urlfetching.py:60 | the dimensions print in decimal, in order |
| UrlFetching.SegmentAfterProblems | urlfetching.py:95-99 | returns the segment after the first `problems`; ValueError exactly when there is none; IndexError when it is the last segment |
| UrlFetching.GetProblemIdentifier | urlfetching.py:94-99 | fails with ValueError exactly when no `/`-segment is `problems` |
| UrlFetching.SegmentAt | urlfetching.py:96-98 | the first `problems` segment decides the result |
| UrlFetching.ProblemIdentifierOfSegments | urlfetching.py:94-99 | a URL `…/problems/<id>/…` built from slash-free segments yields `id` |
| UrlFetching.Closing | urlfetching.py:48 | the closing run is `depth` characters of `]` |
| UrlFetching.ClosingFromIsIndex | urlfetching.py:48-52 | the search for the closing run stops at the first index from `start` where `depth` `]` characters begin, or finds none when the text runs out |
| UrlFetching.ClosingFromFirst | urlfetching.py:50-52 | a closing run with none before it is the one the search finds |
| UrlFetching.BracketsEnd | urlfetching.py:41-43 | stops at the first character that is not `[`, having passed only `[` |
| UrlFetching.ScanValue | urlfetching.py:37-75 | a value that is read always moves the index forward, and never past the end |
| UrlFetching.ArrayValue | urlfetching.py:45-61 | an array that is read ends after its closing run, past where it started and never past the end |
| UrlFetching.QuotedValue | urlfetching.py:63-67 | a quoted string that is read ends after its closing quote, past where it started and never past the end |
| UrlFetching.ScalarValue | urlfetching.py:68-71 | a scalar that is read ends after its comma, past where it started and never past the end |
| UrlFetching.ParseInput | urlfetching.py:25-77 | the loop equals the specification of `parse_input`, including every error path |
| UrlFetching.ScanValueLoops | urlfetching.py:37-75 | the value step equals its specification |
| UrlFetching.ScanArray | urlfetching.py:45-61 | the array branch equals its specification (the copy up to the closing run, `literal_eval`, the assert, the dimensions and the flat values) |
| UrlFetching.CopyToClosing | urlfetching.py:45-52 | the copy loop stops at the first `]` * depth from the start, having copied exactly the text before it, or reports running off the end |
| UrlFetching.PySlice | urlfetching.py:50 | `s[lo:hi]` clamps its end to the length, so near the end of the text the window is shorter than the closing run |
| UrlFetching.ScanQuoted | urlfetching.py:63-67 | the quoted branch equals its specification |
| UrlFetching.ScanScalar | urlfetching.py:68-71 | the scalar branch equals its specification |
| UrlFetching.Tokens | urlfetching.py:73 | one token per argument, in order |
| UrlFetching.SkipToEquals | urlfetching.py:33-35 | characters other than `=` are skipped without effect |
| UrlFetching.IntTextChars | urlfetching.py:60 | an integer prints without brackets or commas |
| UrlFetching.JoinedIntsNoBracket | urlfetching.py:50 | a comma-joined integer list holds no `]`, so the copy stops at the literal's own bracket |
| UrlFetching.ScalarToken | urlfetching.py:69-71 | a scalar is read up to the next comma |
| UrlFetching.QuotedToken | urlfetching.py:63-67 | a quoted string is read without its quotes |
| UrlFetching.IntArrayToken | urlfetching.py:45-61 | an integer list literal becomes its length followed by its elements |
| UrlFetching.ArrayTokenOfInts | urlfetching.py:56-60 | a flat integer list passes the assert and prints as its length and its values |
| UrlFetching.ValueToken | urlfetching.py:37-73 | every well-formed argument value is read as its token and ends at the following comma |
| UrlFetching.RectangularToken | urlfetching.py:56-60 | a rectangular array passes the assert and prints its shape, then its leaves in order, one per cell |
| UrlFetching.EmptyArrayInput | urlfetching.py:45-61 | `nums = []` passes the assert and yields a lone space |
| UrlFetching.EmptyRowAssertion | urlfetching.py:58 | `grid = [[]]` fails the assert |
| UrlFetching.ScanThrough | urlfetching.py:30-75 | reading one `name = value` adds that value's token and resumes after its comma |
| UrlFetching.TakeAtEquals | urlfetching.py:37-75 | at an `=`, the value after it is taken and the scan resumes after that value |
| UrlFetching.RestWellFormed | urlfetching.py:30-75 | the arguments after the first are well formed too |
| UrlFetching.FirstArgAt | urlfetching.py:30-37 | where the rendered arguments are spelled out, the first `=` from the start is the one after the first name, and the first value follows it |
| UrlFetching.ValueThrough | urlfetching.py:30-75 | reading one laid-out `name = value` adds that value's token and resumes after its comma |
| UrlFetching.ScanArgsAt | urlfetching.py:26-77 | the rendered arguments with the appended comma scan to one token per argument, in order, and the scan then ends |
| UrlFetching.ParseInputOfArgs | urlfetching.py:25-77 | `parse_input` of `a = v, b = w, …` is the space-joined tokens of the values |
| UrlFetching.CharStrs | urlfetching.py:123 | iterating a string gives its characters one by one |
| UrlFetching.FormatRow | urlfetching.py:123 | a list row prints its values space-joined; a string row prints its characters space-joined; an integer row raises TypeError |
| UrlFetching.FormatRows | urlfetching.py:123 | the rows format exactly when none is an integer; they then format one by one, in order |
| UrlFetching.QuotedOutput | urlfetching.py:116-117 | a quoted output loses its quotes |
| UrlFetching.PlainOutput | urlfetching.py:128-129 | an output starting with neither a quote nor `[` is kept as it is |
| UrlFetching.UnreadableOutput | urlfetching.py:118-119 | a `[` output that `literal_eval` rejects fails |
| UrlFetching.StrsOfInts | urlfetching.py:125 | `str` of integers is their decimal text |
| UrlFetching.IntListOutput | urlfetching.py:124-125 | a flat integer list prints space-joined |
| UrlFetching.IntRows | urlfetching.py:123 | integer rows become lists of integers, one per row |
| UrlFetching.RowTexts | urlfetching.py:123 | each row's text is its integers space-joined |
| UrlFetching.GridOutput | urlfetching.py:120-123 | a 2-D integer grid prints as one line per row, each row space-joined |
| UrlFetching.EmptyFirstRowOutput | urlfetching.py:120-125 | `[[],[1]]` has one dimension, so it prints as `[] [1]` |
| UrlFetching.MixedRowsOutput | urlfetching.py:120-123 | string rows are split into characters, and an integer row raises TypeError |
| UrlFetching.FormatRowsCons | urlfetching.py:123 | the rows format one after another |
| UrlFetching.ExampleCase | urlfetching.py:111-114 | a block with fewer than two lines raises IndexError |
| UrlFetching.TestCases | urlfetching.py:102-133 | succeeds exactly when every block does; then inputs and outputs are index-aligned with the blocks, so the lengths asserted at line 156 agree |
| UrlFetching.ParseTestCases | urlfetching.py:102-133 | the loop equals the specification of `parse_test_cases` |
| UrlFetching.TestCasesAbort | urlfetching.py:108-131 | the first block that raises ends the loop with its error |
| UrlFetching.TwoLines | urlfetching.py:111 | a block of two lines without other line breaks splits into exactly those two lines |
| UrlFetching.ExampleCaseOfArgs | urlfetching.py:111-131 | a block `a = v, b = w, …` over ` "t"` becomes the case whose input is the space-joined tokens of the values and whose output is `t` |
| UrlFetching.ExampleCaseOutputFirst | urlfetching.py:114-131 | the output line is formatted before the input line is read, so an output that fails fails the block with its error, whatever the input line is |
| UrlFetching.ExampleCaseInputError | urlfetching.py:114-131 | with an output that formats, the block fails exactly when `parse_input` fails, with its error, and otherwise pairs the parsed input with the formatted output |
| UrlFetching.TwoSumDigits | urlfetching.py:60 | the Two Sum elements print as `2 7 11 15` |
| UrlFetching.TwoSumArray | urlfetching.py:45-55 | the Two Sum array literal is `[2,7,11,15]` |
| UrlFetching.TwoSumRendered | urlfetching.py:25 | the Two Sum example input reads `nums = [2,7,11,15], target = 9` |
| UrlFetching.TwoSumTokens | urlfetching.py:77 | the Two Sum tokens join to `4 2 7 11 15 9` |
| UrlFetching.TwoSumInput | urlfetching.py:25-77 | the Two Sum input parses to `4 2 7 11 15 9` |
| UrlFetching.TwoSumLines | urlfetching.py:111 | the Two Sum block splits into the input line and the output line |
| UrlFetching.TwoSumOutput | urlfetching.py:114-125 | the Two Sum output `[0,1]` prints as `0 1` |
| UrlFetching.TwoSumExample | urlfetching.py:108-131 | the Two Sum example block becomes the case (`4 2 7 11 15 9`, `0 1`) |
| Wiring.NoProblemsBeforeMarker | frontend/script.js:20 | the accepted prefix holds no earlier `problems` |
| Wiring.PrefixedNameStart | frontend/fetchName.js:3 | on any URL the form accepts, `problems` is at 21 and the name starts at 30 |
| Wiring.PostedUrlNameStart | frontend/script.js:20-24 | every posted URL has its name starting at 30 |
| Wiring.DescriptionUrlSegments | urlfetching.py:95 | a description URL is the `/`-join of its segments |
| Wiring.DescriptionUrlAgrees | frontend/fetchName.js:1-10 | for `…/problems/<n>/description/`, the form posts the URL, `getName` gives `n`, and `get_problem_identifier` gives `n` |
| Wiring.DescriptionUrlPosted | frontend/script.js:13-24 | a description URL is posted unchanged |
| Wiring.DescriptionUrlName | frontend/fetchName.js:1-10 | `getName` of a description URL is the name |
| Wiring.DescriptionUrlIdentifier | urlfetching.py:94-99 | `get_problem_identifier` of a description URL is the name |
| Wiring.WrittenCasePairs | runcode.js:70-71 | the input file that `getTests` writes for case k is a test file numbered k, and its expected file is the output written for k |
| Wiring.NoWrittenCaseSkipped | runcode.js:69-79 | when `op1..opn` exist, every case numbered up to n is paired, in order |
| Wiring.ScrapedCasesAllPaired | urlfetching.py:131 | after a successful scrape, every written input is paired with its output |
| Wiring.NoDescriptionInBareUrl | frontend/fetchName.js:4 | the bare URL holds no `description` |
| Wiring.BareUrlNamesDisagree | frontend/fetchName.js:4-7 | on `https://leetcode.com/problems/two-sum` the form posts the URL, but `getName` gives `two-su` while `get_problem_identifier` gives `two-sum` |
| Wiring.BareUrlPosted | frontend/script.js:13-24 | the bare URL is accepted |
| Wiring.BareUrlName | frontend/fetchName.js:3-7 | `getName` of the bare URL loses the last character |
| Wiring.BareUrlIdentifier | urlfetching.py:94-99 | the identifier of the bare URL is the full name |

## Left out

- Process spawning, `g++`, the Python interpreter and stdin writing: the compile result is a boolean parameter, and a case's process is the parameter `run` from input text to stdout and stderr chunks.
- The UI: `showErrorMessage`, `showInformationMessage`, `withProgress` and its progress reports, `showTestResults`, `updateStatusIndicator` and `displayTestOutput`. Messages are returned as values instead.
- The webview message handler (extension.js:91-97) and `resolveWebviewView`: they only route a posted message to `getTests` or `runTests`, and both of those are modelled.
- `activate`/`deactivate`, `urlexec.js`, `frontend/frontend.js` and `frontend/ensureDirectoryExists.js` are not part of this model. They are registration, process plumbing and HTML.
- The Selenium driver, the sleep, BeautifulSoup's `find_all`, `get_text`, `strip` and the `re.sub` that removes `Input:`/`Output:`/`Explanation:`: an example block enters the model as its cleaned text.
- `ast.literal_eval` is an oracle parameter, modelled only for list literals. Floats, booleans, `None` and tuples are not modelled. `Repr` does not escape quotes inside strings.
- The file system is a map from names to contents, and paths are segment sequences. `mkdirSync`, `existsSync` and `path.join` normalisation are not modelled beyond that, and neither are Windows separators.
- Extension.GetTests: its contract says the files are saved for every open workspace. Two names break that in the source. A name with `/` in it (`two-sum/solutions` from `…/problems/two-sum/solutions/`) makes `mkdirSync` without `recursive` fail when the parent folder is missing (extension.js:57-59). The empty name (from `…/problems/`) writes the files into `TestData` itself. The model keys the problem folder by the whole name as one entry and models neither case.
- Whitespace and case are ASCII only: `IsSpace` covers space, tab, newline, carriage return, vertical tab and form feed, and `toLowerCase` covers `A`–`Z`.
- Asynchrony: every `await` is taken to complete before the next statement. Events of a process are taken in order.
- UrlFetching.ExampleCase: its contract states only the IndexError path; the rest of its behaviour is stated through UrlFetching.TestCases, UrlFetching.TwoSumExample and the output lemmas.
- UrlFetching.ScanValue: its contract states only that the index advances; what each branch reads is stated by the token lemmas and UrlFetching.ValueToken.
- UrlFetching.ParseInputOfArgs: proved for argument values that are scalars, quoted strings and flat integer lists. Nested arrays are covered by UrlFetching.RectangularToken and the concrete lemmas.
