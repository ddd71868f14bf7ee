/**
  The editor side of the extension (extension.js): the problem key derived
  from a problem name, the language of the solution file, writing fetched
  cases into the workspace, and the checks and folder search that decide
  how a solution is run.

  A workspace folder is modelled by its path and the content of its
  `TestData` directory (absent, or a map from problem directory name to
  the files of that directory). Paths are sequences of segments; `path.join`
  is concatenation.
 */
module Extension {
  import opened Text
  import FetchName

  // ---------------------------------------------------------------------------
  // formatName

  /** `replace(/\s+/g, '-')`: every maximal whitespace run becomes one `-`. */
  function CollapseSpaces(s: string): (r: string)
    ensures |r| <= |s| && NoSpace(r)
    ensures NoUpper(s) ==> NoUpper(r)
    decreases |s|
  {
    if s == [] then []
    else if IsSpace(s[0]) then TrimLeftIsSuffix(s); "-" + CollapseSpaces(TrimLeft(s))
    else [s[0]] + CollapseSpaces(s[1..])
  }

  /** The problem key: lower-cased, each whitespace run replaced by `-`. */
  function FormatName(s: string): (r: string)
    ensures |r| <= |s|
    ensures NoSpace(r) && NoUpper(r)
  {
    CollapseSpaces(ToLower(s))
  }

  lemma {:induction false} CollapseSpacesOfNoSpace(s: string)
    requires NoSpace(s)
    ensures CollapseSpaces(s) == s
    decreases |s|
  {
    if s != [] {
      CollapseSpacesOfNoSpace(s[1..]);
    }
  }

  /** A key that is already lower-case and free of whitespace is its own key. */
  lemma FormatNameOfKey(s: string)
    requires NoSpace(s) && NoUpper(s)
    ensures FormatName(s) == s
  {
    ToLowerOfLower(s);
    CollapseSpacesOfNoSpace(s);
  }

  lemma FormatNameIdempotent(s: string)
    ensures FormatName(FormatName(s)) == FormatName(s)
  {
    FormatNameOfKey(FormatName(s));
  }

  lemma {:induction false} TrimLeftKeepsTail(a: string, t: string)
    requires TrimLeft(a) != []
    ensures TrimLeft(a + t) == TrimLeft(a) + t
    decreases |a|
  {
    if IsSpace(a[0]) {
      assert (a + t)[1..] == a[1..] + t;
      TrimLeftKeepsTail(a[1..], t);
    }
  }

  lemma ConcatAssoc(p: string, q: string, r: string, t: string)
    ensures p + (q + r + t) == (p + q) + r + t
  {
  }

  /**
    One maximal whitespace run between two non-whitespace neighbours turns
    into exactly one `-`, and the text on either side is collapsed on its own.
   */
  lemma {:induction false} CollapseSpacesRun(a: string, w: string, b: string)
    requires a == [] || !IsSpace(a[|a| - 1])
    requires w != [] && AllSpace(w)
    requires b == [] || !IsSpace(b[0])
    ensures CollapseSpaces(a + w + b) == CollapseSpaces(a) + "-" + CollapseSpaces(b)
    decreases |a|, 1
  {
    if a == [] {
      assert a + w + b == w + b;
      TrimLeftOfSpacesThen(w, b);
    } else if IsSpace(a[0]) {
      CollapseSpacesRunAfterSpace(a, w, b);
    } else {
      CollapseSpacesRunAfterChar(a, w, b);
    }
  }

  lemma {:induction false} CollapseSpacesRunAfterSpace(a: string, w: string, b: string)
    requires a != [] && IsSpace(a[0]) && !IsSpace(a[|a| - 1])
    requires w != [] && AllSpace(w)
    requires b == [] || !IsSpace(b[0])
    ensures CollapseSpaces(a + w + b) == CollapseSpaces(a) + "-" + CollapseSpaces(b)
    decreases |a|, 0
  {
    var s := a + w + b;
    var a' := TrimLeft(a);
    TrimLeftIsSuffix(a);
    assert a' != [];
    assert s == a + (w + b) && s[0] == a[0];
    TrimLeftKeepsTail(a, w + b);
    assert a' + (w + b) == a' + w + b;
    assert CollapseSpaces(s) == "-" + CollapseSpaces(a' + w + b);
    assert a'[|a'| - 1] == a[|a| - 1];
    CollapseSpacesRun(a', w, b);
    ConcatAssoc("-", CollapseSpaces(a'), "-", CollapseSpaces(b));
  }

  lemma {:induction false} CollapseSpacesRunAfterChar(a: string, w: string, b: string)
    requires a != [] && !IsSpace(a[0]) && !IsSpace(a[|a| - 1])
    requires w != [] && AllSpace(w)
    requires b == [] || !IsSpace(b[0])
    ensures CollapseSpaces(a + w + b) == CollapseSpaces(a) + "-" + CollapseSpaces(b)
    decreases |a|, 0
  {
    var s := a + w + b;
    assert s[0] == a[0] && s[1..] == a[1..] + w + b;
    assert CollapseSpaces(s) == [a[0]] + CollapseSpaces(a[1..] + w + b);
    CollapseSpacesRun(a[1..], w, b);
    ConcatAssoc([a[0]], CollapseSpaces(a[1..]), "-", CollapseSpaces(b));
  }

  // ---------------------------------------------------------------------------
  // getLanguage, with the POSIX semantics of `path.extname`

  datatype Language = Cpp | Python | JavaScript | Unknown

  /** The path without its trailing `/` characters. */
  function StripTrailingSlashes(p: string): (r: string)
    ensures |r| <= |p| && r == p[..|r|]
    ensures r == [] || r[|r| - 1] != '/'
    ensures forall i :: |r| <= i < |p| ==> p[i] == '/'
  {
    if p != [] && p[|p| - 1] == '/' then StripTrailingSlashes(p[..|p| - 1]) else p
  }

  /** The last path component, trailing slashes ignored. */
  function BaseName(p: string): (b: string)
    ensures '/' !in b
  {
    var q := StripTrailingSlashes(p);
    var k := LastIndexOfChar(q, '/');
    q[k + 1..]
  }

  /**
    The extension inside one path component: from its last `.` to its end;
    empty when it has no `.`, when its only `.` is its first character (a
    dot-file), or when it is `..`.
   */
  function ExtOfBase(b: string): (e: string)
    ensures e == [] || (e[0] == '.' && '.' !in e[1..])
    ensures e != [] ==> |e| < |b| && e == b[|b| - |e|..]
  {
    var dot := LastIndexOfChar(b, '.');
    if dot <= 0 || b == ".." then [] else b[dot..]
  }

  /** `path.extname`: the extension of the last component. */
  function ExtName(p: string): (e: string)
    ensures e == [] || (e[0] == '.' && '.' !in e[1..] && '/' !in e)
  {
    ExtOfBase(BaseName(p))
  }

  /** The `switch` of getLanguage, on the lower-cased extension. */
  function LanguageOfExtension(extension: string): Language {
    if extension == ".cpp" then Cpp
    else if extension == ".py" then Python
    else if extension == ".js" then JavaScript
    else Unknown
  }

  function GetLanguage(filePath: string): Language {
    LanguageOfExtension(ToLower(ExtName(filePath)))
  }

  /** Appending slash-free text to a path that does not end in `/` extends its last component. */
  lemma BaseNameAppend(q: string, e: string)
    requires q != [] && q[|q| - 1] != '/'
    requires e != [] && '/' !in e
    ensures BaseName(q + e) == BaseName(q) + e
  {
    var p := q + e;
    assert StripTrailingSlashes(p) == p;
    assert StripTrailingSlashes(q) == q;
    var k := LastIndexOfChar(q, '/');
    assert LastIndexOfChar(e, '/') == -1;
    LastIndexOfCharAppend(q, e, '/');
    assert p[k + 1..] == q[k + 1..] + e;
  }

  /** A component `<stem>.<x>` with a non-empty stem has extension `.<x>`. */
  lemma ExtOfBaseDotted(stem: string, x: string)
    requires stem != []
    requires x != [] && '.' !in x
    ensures ExtOfBase(stem + ("." + x)) == "." + x
  {
    var e := "." + x;
    assert LastIndexOfChar(x, '.') == -1;
    LastIndexOfCharAppend(".", x, '.');
    assert LastIndexOfChar(e, '.') == 0;
    LastIndexOfCharAppend(stem, e, '.');
    assert |stem + e| >= 3;
    assert (stem + e)[|stem|..] == e;
  }

  /** The extension of `<anything>.<x>` is `.<x>` when `x` has no `.` or `/`. */
  lemma ExtNameOfDotted(q: string, x: string)
    requires q != [] && q[|q| - 1] != '/'
    requires x != [] && '.' !in x && '/' !in x
    ensures ExtName(q + "." + x) == "." + x
  {
    var e := "." + x;
    assert q + "." + x == q + e;
    BaseNameAppend(q, e);
    ExtOfBaseDotted(BaseName(q), x);
  }

  /** The language for an extension `.<e>` depends on `e` alone. */
  lemma LanguageOfDotted(e: string)
    ensures LanguageOfExtension("." + e) ==
      if e == "cpp" then Cpp else if e == "py" then Python else if e == "js" then JavaScript else Unknown
  {
    assert ".cpp" == "." + "cpp" && ".py" == "." + "py" && ".js" == "." + "js";
    PrefixCancel(".", e, "cpp");
    PrefixCancel(".", e, "py");
    PrefixCancel(".", e, "js");
  }

  /** The language of `<anything>.<x>` is decided by `x` alone, compared case-insensitively. */
  lemma GetLanguageOfExtension(q: string, x: string)
    requires q != [] && q[|q| - 1] != '/'
    requires x != [] && '.' !in x && '/' !in x
    ensures GetLanguage(q + "." + x) ==
      var e := ToLower(x);
      if e == "cpp" then Cpp else if e == "py" then Python else if e == "js" then JavaScript else Unknown
  {
    ExtNameOfDotted(q, x);
    ToLowerDotted(x);
    LanguageOfDotted(ToLower(x));
  }

  /** Lower-casing leaves the `.` in front of an extension. */
  lemma ToLowerDotted(x: string)
    ensures ToLower("." + x) == "." + ToLower(x)
  {
    var l := ToLower("." + x);
    assert l[0] == LowerChar('.') == '.';
    assert forall i :: 1 <= i < |l| ==> l[i] == LowerChar(x[i - 1]);
  }

  lemma PrefixCancel(p: string, e: string, t: string)
    ensures p + e == p + t <==> e == t
  {
    if p + e == p + t {
      assert e == (p + e)[|p|..];
    }
  }

  lemma {:induction false} LastIndexOfCharAppend(a: string, b: string, c: char)
    ensures LastIndexOfChar(a + b, c) ==
      if LastIndexOfChar(b, c) >= 0 then |a| + LastIndexOfChar(b, c) else LastIndexOfChar(a, c)
    decreases |b|
  {
    if b != [] {
      assert (a + b)[..|a + b| - 1] == a + b[..|b| - 1];
      LastIndexOfCharAppend(a, b[..|b| - 1], c);
    } else {
      assert a + b == a;
    }
  }

  /** A last component without a `.` has no extension, so the language is unknown. */
  lemma GetLanguageWithoutDot(p: string)
    requires '.' !in BaseName(p)
    ensures ExtName(p) == [] && GetLanguage(p) == Unknown
  {
  }

  // ---------------------------------------------------------------------------
  // getTests: writing the fetched cases

  /** A directory's regular files, by name. */
  type Files = map<string, string>

  datatype WorkspaceFolder = WorkspaceFolder(fsPath: string, testData: Option<map<string, Files>>)

  const InputPrefix := "ip"
  const OutputPrefix := "op"

  /** `${prefix}${i}.txt`, the name of the `i`-th (1-based) input or output file. */
  function CaseFileName(prefix: string, i: nat): string {
    prefix + NatToDecimal(i) + ".txt"
  }

  lemma CaseFileNameInjective(prefix: string, a: nat, b: nat)
    requires CaseFileName(prefix, a) == CaseFileName(prefix, b)
    ensures a == b
  {
    var da, db := NatToDecimal(a), NatToDecimal(b);
    var s := CaseFileName(prefix, a);
    assert |da| == |db|;
    assert da == s[|prefix|..|prefix| + |da|];
    assert db == s[|prefix|..|prefix| + |db|];
    NatToDecimalInjective(a, b);
  }

  lemma InputAndOutputNamesDiffer(i: nat, j: nat)
    ensures CaseFileName(InputPrefix, i) != CaseFileName(OutputPrefix, j)
  {
    assert CaseFileName(InputPrefix, i)[0] == 'i';
    assert CaseFileName(OutputPrefix, j)[0] == 'o';
  }

  /** `name` is one of the files `prefix` 1 .. `n`. */
  ghost predicate Numbered(prefix: string, name: string, n: nat) {
    exists i :: 1 <= i <= n && name == CaseFileName(prefix, i)
  }

  lemma NumberedStep(prefix: string, n: nat)
    ensures forall name :: Numbered(prefix, name, n + 1) <==> Numbered(prefix, name, n) || name == CaseFileName(prefix, n + 1)
  {
    forall name | Numbered(prefix, name, n + 1) && name != CaseFileName(prefix, n + 1)
      ensures Numbered(prefix, name, n)
    {
      var i :| 1 <= i <= n + 1 && name == CaseFileName(prefix, i);
    }
    forall name | Numbered(prefix, name, n)
      ensures Numbered(prefix, name, n + 1)
    {
      var i :| 1 <= i <= n && name == CaseFileName(prefix, i);
      assert 1 <= i <= n + 1;
    }
    assert Numbered(prefix, CaseFileName(prefix, n + 1), n + 1) by {
      assert 1 <= n + 1 <= n + 1;
    }
  }

  /** After `n` files: files 1 .. `n` hold their contents, and every other file is as it was. */
  ghost predicate WrittenUpTo(dir: Files, prefix: string, contents: seq<string>, n: nat, written: Files)
    requires n <= |contents|
  {
    && (forall k :: 1 <= k <= n ==>
          CaseFileName(prefix, k) in written && written[CaseFileName(prefix, k)] == contents[k - 1])
    && (forall name :: name in written <==> name in dir || Numbered(prefix, name, n))
    && (forall name :: name in dir && !Numbered(prefix, name, n) ==> written[name] == dir[name])
  }

  /** Writing file `n + 1` extends the first `n` writes by one. */
  lemma WriteStep(dir: Files, prefix: string, contents: seq<string>, n: nat, written: Files)
    requires n < |contents|
    requires WrittenUpTo(dir, prefix, contents, n, written)
    ensures WrittenUpTo(dir, prefix, contents, n + 1, written[CaseFileName(prefix, n + 1) := contents[n]])
  {
    NumberedStep(prefix, n);
    EarlierNamesDiffer(prefix, n);
  }

  /** Files 1 .. `n` are not file `n + 1`. */
  lemma EarlierNamesDiffer(prefix: string, n: nat)
    ensures forall k :: 1 <= k <= n ==> CaseFileName(prefix, k) != CaseFileName(prefix, n + 1)
  {
    forall k | 1 <= k <= n
      ensures CaseFileName(prefix, k) != CaseFileName(prefix, n + 1)
    {
      if CaseFileName(prefix, k) == CaseFileName(prefix, n + 1) {
        CaseFileNameInjective(prefix, k, n + 1);
      }
    }
  }

  /**
    One of the two `forEach` loops of getTests: writes `contents[i]` to
    `${prefix}${i + 1}.txt`, overwriting a file of that name and leaving
    every other file alone.
   */
  method WriteCaseFiles(dir: Files, prefix: string, contents: seq<string>) returns (written: Files)
    ensures forall k :: 1 <= k <= |contents| ==>
      CaseFileName(prefix, k) in written && written[CaseFileName(prefix, k)] == contents[k - 1]
    ensures forall name :: name in written <==> name in dir || Numbered(prefix, name, |contents|)
    ensures forall name :: name in dir && !Numbered(prefix, name, |contents|) ==> written[name] == dir[name]
  {
    written := dir;
    var index := 0;
    assert forall name :: !Numbered(prefix, name, 0);
    while index < |contents|
      invariant 0 <= index <= |contents|
      invariant WrittenUpTo(dir, prefix, contents, index, written)
    {
      WriteStep(dir, prefix, contents, index, written);
      written := written[CaseFileName(prefix, index + 1) := contents[index]];
      index := index + 1;
    }
  }

  /** The inputs written, then the outputs: every case file holds its text, and every other file is as it was. */
  lemma BothWrites(dir: Files, inputs: seq<string>, outputs: seq<string>, withInputs: Files, withOutputs: Files)
    requires WrittenUpTo(dir, InputPrefix, inputs, |inputs|, withInputs)
    requires WrittenUpTo(withInputs, OutputPrefix, outputs, |outputs|, withOutputs)
    ensures forall k :: 1 <= k <= |inputs| ==>
      CaseFileName(InputPrefix, k) in withOutputs && withOutputs[CaseFileName(InputPrefix, k)] == inputs[k - 1]
    ensures forall k :: 1 <= k <= |outputs| ==>
      CaseFileName(OutputPrefix, k) in withOutputs && withOutputs[CaseFileName(OutputPrefix, k)] == outputs[k - 1]
    ensures forall name :: name in withOutputs <==>
      name in dir || Numbered(InputPrefix, name, |inputs|) || Numbered(OutputPrefix, name, |outputs|)
    ensures forall name ::
      (name in dir && !Numbered(InputPrefix, name, |inputs|) && !Numbered(OutputPrefix, name, |outputs|))
      ==> withOutputs[name] == dir[name]
  {
    forall k | 1 <= k <= |inputs|
      ensures !Numbered(OutputPrefix, CaseFileName(InputPrefix, k), |outputs|)
    {
      forall j | 1 <= j <= |outputs| ensures CaseFileName(InputPrefix, k) != CaseFileName(OutputPrefix, j) {
        InputAndOutputNamesDiffer(k, j);
      }
    }
  }

  /**
    What a saved getTests leaves: the first folder gets `TestData/<key>`,
    whose case files hold the texts and whose other files are as they were;
    the other problems and the other folders are unchanged.
   */
  ghost predicate SavedCases(folders: seq<WorkspaceFolder>, key: string, inputs: seq<string>, outputs: seq<string>,
                             result: seq<WorkspaceFolder>)
    requires folders != []
  {
    var before := if folders[0].testData.Some? then folders[0].testData.value else map[];
    var previous := if key in before then before[key] else map[];
    && |result| == |folders| && result[1..] == folders[1..]
    && result[0].fsPath == folders[0].fsPath
    && result[0].testData.Some?
    && var after := result[0].testData.value;
    && after.Keys == before.Keys + {key}
    && (forall other :: other in before && other != key ==> after[other] == before[other])
    && var dir := after[key];
    && (forall k :: 1 <= k <= |inputs| ==>
          CaseFileName(InputPrefix, k) in dir && dir[CaseFileName(InputPrefix, k)] == inputs[k - 1])
    && (forall k :: 1 <= k <= |outputs| ==>
          CaseFileName(OutputPrefix, k) in dir && dir[CaseFileName(OutputPrefix, k)] == outputs[k - 1])
    && (forall name :: name in dir <==>
          name in previous || Numbered(InputPrefix, name, |inputs|) || Numbered(OutputPrefix, name, |outputs|))
    && (forall name ::
          (name in previous && !Numbered(InputPrefix, name, |inputs|) && !Numbered(OutputPrefix, name, |outputs|))
          ==> dir[name] == previous[name])
  }

  /** The two write loops over the problem directory of the first folder give SavedCases. */
  lemma SavedCasesOfWrites(folders: seq<WorkspaceFolder>, key: string, inputs: seq<string>, outputs: seq<string>,
                           withInputs: Files, withOutputs: Files)
    requires folders != []
    requires var before := if folders[0].testData.Some? then folders[0].testData.value else map[];
      var previous := if key in before then before[key] else map[];
      && WrittenUpTo(previous, InputPrefix, inputs, |inputs|, withInputs)
      && WrittenUpTo(withInputs, OutputPrefix, outputs, |outputs|, withOutputs)
    ensures var before := if folders[0].testData.Some? then folders[0].testData.value else map[];
      SavedCases(folders, key, inputs, outputs,
                 [WorkspaceFolder(folders[0].fsPath, Some(before[key := withOutputs]))] + folders[1..])
  {
    var before := if folders[0].testData.Some? then folders[0].testData.value else map[];
    var previous := if key in before then before[key] else map[];
    BothWrites(previous, inputs, outputs, withInputs, withOutputs);
    var result := [WorkspaceFolder(folders[0].fsPath, Some(before[key := withOutputs]))] + folders[1..];
    assert result[1..] == folders[1..];
  }

  /** What getTests leaves in the problem directory: both write loops, inputs first. */
  datatype Fetched =
    | NoWorkspaceOpen     // 'No folder or workspace is open.'
    | NoFirstFolder       // `workspaceFolders[0]` is undefined: a TypeError
    | Saved(folders: seq<WorkspaceFolder>)

  const NoWorkspaceMessage := "No folder or workspace is open."

  /**
    getTests after the scrape: `inputArray` and `outputArray` are what the
    scraper returned for `url`. The cases go to `TestData/<key>` of the
    first workspace folder, creating both directories when missing.
   */
  method GetTests(url: string, inputArray: seq<string>, outputArray: seq<string>,
                  workspace: Option<seq<WorkspaceFolder>>)
    returns (r: Fetched)
    ensures workspace.None? ==> r == NoWorkspaceOpen
    ensures workspace == Some([]) ==> r == NoFirstFolder
    ensures workspace.Some? && workspace.value != [] ==> r.Saved?
    ensures r.Saved? ==> SavedCases(workspace.value, FormatName(FetchName.GetName(url)), inputArray, outputArray, r.folders)
  {
    var problemName := FormatName(FetchName.GetName(url));
    if workspace.None? {
      return NoWorkspaceOpen;
    }
    var folders := workspace.value;
    if folders == [] {
      return NoFirstFolder;
    }
    var testData := if folders[0].testData.Some? then folders[0].testData.value else map[];
    var problemDir := if problemName in testData then testData[problemName] else map[];
    var withInputs := WriteCaseFiles(problemDir, InputPrefix, inputArray);
    assert WrittenUpTo(problemDir, InputPrefix, inputArray, |inputArray|, withInputs);
    var withOutputs := WriteCaseFiles(withInputs, OutputPrefix, outputArray);
    assert WrittenUpTo(withInputs, OutputPrefix, outputArray, |outputArray|, withOutputs);
    var folder := WorkspaceFolder(folders[0].fsPath, Some(testData[problemName := withOutputs]));
    r := Saved([folder] + folders[1..]);
    SavedCasesOfWrites(folders, problemName, inputArray, outputArray, withInputs, withOutputs);
  }

  // ---------------------------------------------------------------------------
  // runTests: the checks, the folder search and the dispatch

  /** The active editor: its text and the path of its document. */
  datatype Editor = Editor(text: string, fsPath: string)

  type Path = seq<string>

  /** What runTests ends with. */
  datatype RunDecision =
    | Rejected(message: string)
      // write `code` to `solutionFile`, compile it to `executableFile` and run the cases of `problemFolder`
    | CompileAndRun(solutionFile: Path, executableFile: Path, problemFolder: Path, code: string)
      // run the saved file `scriptPath` with the interpreter on the cases of `problemFolder`
    | Interpret(scriptPath: string, problemFolder: Path)

  const NoEditorMessage := "No active editor found! Open your solution file."
  const EmptyCodeMessage := "Solution code is empty!"
  const NoProblemNameMessage := "Problem name is required!"
  const UnsupportedMessage := "Unsupported file type. Only .cpp and .py are supported."

  function NotFoundMessage(key: string): string {
    "TestData folder or problem folder '" + key + "' not found."
  }

  predicate HasProblem(folder: WorkspaceFolder, key: string) {
    folder.testData.Some? && key in folder.testData.value
  }

  /** The first folder, in workspace order, whose `TestData/<key>` exists. */
  function FirstFolderWith(folders: seq<WorkspaceFolder>, key: string): (r: Option<nat>)
    ensures r.Some? ==> r.value < |folders| && HasProblem(folders[r.value], key)
    ensures r.Some? ==> forall j :: 0 <= j < r.value ==> !HasProblem(folders[j], key)
    ensures r.None? ==> forall j :: 0 <= j < |folders| ==> !HasProblem(folders[j], key)
  {
    if folders == [] then None
    else if HasProblem(folders[0], key) then Some(0)
    else match FirstFolderWith(folders[1..], key)
      case None => None
      case Some(i) => Some(i + 1)
  }

  function ProblemFolder(folder: WorkspaceFolder, key: string): Path {
    [folder.fsPath, "TestData", key]
  }

  /** What runTests does once its checks have passed, in terms of the first matching folder. */
  function Dispatch(folders: seq<WorkspaceFolder>, key: string, editor: Editor): (d: RunDecision)
    ensures FirstFolderWith(folders, key).None? ==> d == Rejected(NotFoundMessage(key))
    ensures d.CompileAndRun? <==>
      FirstFolderWith(folders, key).Some? && GetLanguage(editor.fsPath) == Cpp
    ensures d.Interpret? <==>
      FirstFolderWith(folders, key).Some? && GetLanguage(editor.fsPath) == Python
    ensures d.CompileAndRun? ==>
      d.problemFolder == ProblemFolder(folders[FirstFolderWith(folders, key).value], key) &&
      d.solutionFile == d.problemFolder + ["temp_solution.cpp"] &&
      d.executableFile == d.problemFolder + ["solution_exec.exe"] && d.code == editor.text
    ensures d.Interpret? ==>
      d.problemFolder == ProblemFolder(folders[FirstFolderWith(folders, key).value], key) &&
      d.scriptPath == editor.fsPath
    ensures d.Rejected? && FirstFolderWith(folders, key).Some? ==> d.message == UnsupportedMessage
  {
    match FirstFolderWith(folders, key)
    case None => Rejected(NotFoundMessage(key))
    case Some(i) =>
      var folder := ProblemFolder(folders[i], key);
      match GetLanguage(editor.fsPath)
      case Cpp => CompileAndRun(folder + ["temp_solution.cpp"], folder + ["solution_exec.exe"], folder, editor.text)
      case Python => Interpret(editor.fsPath, folder)
      case _ => Rejected(UnsupportedMessage)
  }

  method RunTests(problemName: string, workspace: Option<seq<WorkspaceFolder>>, editor: Option<Editor>)
    returns (d: RunDecision)
    ensures (workspace.None? || workspace.value == []) ==> d == Rejected(NoWorkspaceMessage)
    ensures workspace.Some? && workspace.value != [] ==>
      if editor.None? then d == Rejected(NoEditorMessage)
      else if Trim(editor.value.text) == [] then d == Rejected(EmptyCodeMessage)
      else if problemName == [] then d == Rejected(NoProblemNameMessage)
      else d == Dispatch(workspace.value, FormatName(problemName), editor.value)
  {
    if workspace.None? || |workspace.value| == 0 {
      return Rejected(NoWorkspaceMessage);
    }
    var workspaceFolders := workspace.value;
    if editor.None? {
      return Rejected(NoEditorMessage);
    }
    var userCode := editor.value.text;
    if Trim(userCode) == [] {
      return Rejected(EmptyCodeMessage);
    }
    if problemName == [] {
      return Rejected(NoProblemNameMessage);
    }
    var key := FormatName(problemName);
    var problemFolderPath: Path := [];
    var found := false;
    var index := 0;
    while index < |workspaceFolders|
      invariant 0 <= index <= |workspaceFolders|
      invariant forall j :: 0 <= j < index ==> !HasProblem(workspaceFolders[j], key)
      invariant !found
    {
      var folder := workspaceFolders[index];
      if folder.testData.None? {
        index := index + 1;
        continue;
      }
      problemFolderPath := ProblemFolder(folder, key);
      if key in folder.testData.value {
        found := true;
        break;
      }
      index := index + 1;
    }
    if !found {
      assert FirstFolderWith(workspaceFolders, key).None?;
      return Rejected(NotFoundMessage(key));
    }
    assert FirstFolderWith(workspaceFolders, key) == Some(index);
    var filePath := editor.value.fsPath;
    var lang := GetLanguage(filePath);
    if lang == Cpp {
      d := CompileAndRun(problemFolderPath + ["temp_solution.cpp"], problemFolderPath + ["solution_exec.exe"],
                         problemFolderPath, userCode);
    } else if lang == Python {
      d := Interpret(filePath, problemFolderPath);
    } else {
      d := Rejected(UnsupportedMessage);
    }
  }
}
