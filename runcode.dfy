/**
  The case loop of runcode.js (executeCppCode and executePythonCode): pick
  the `ip*.txt` entries of the problem folder, pair each with
  `op<n>.txt`, run the solution on the input, compare trimmed outputs and
  accumulate `results`, `outputs` and `allTestsPassed`.

  The folder is a listing (the order `readdirSync` returns) plus a map from
  file name to content; the compiled program or the Python script is an
  oracle from the input text to the chunks its stdout and stderr deliver.
 */
module RunCode {
  import opened Text

  datatype Toolchain = Cpp | Python

  /** One run of the solution on one input: the `data` chunks of stdout and of stderr. */
  datatype Execution = Execution(stdout: seq<string>, stderr: seq<string>)

  /** An entry of `results`. `testCase` is the digit string taken from the file name. */
  datatype CaseResult = CaseResult(testCase: string, passed: bool)

  /** An entry of `outputs`, both sides already trimmed. */
  datatype OutputRecord = OutputRecord(actualOutput: string, expectedOutput: string)

  /** How a run of the test cases ends. */
  datatype Outcome =
    | Reported(results: seq<CaseResult>, outputs: seq<OutputRecord>, allTestsPassed: bool)
    | CompileFailed                                  // g++ exited non-zero: the promise rejects
    | NoCaseNumber(inputFile: string)                // `match(/\d+/)` is null: a TypeError
    | CaseErrored(testCase: string, stderr: string)  // Python wrote to stderr: the promise rejects

  // ---------------------------------------------------------------------------
  // Selecting and pairing the cases

  /** The `filter` of the listing: names starting with `ip` and ending with `.txt`. */
  predicate IsTestFile(name: string) {
    StartsWith(name, "ip") && EndsWith(name, ".txt")
  }

  function TestFiles(listing: seq<string>): (cases: seq<string>)
    ensures |cases| <= |listing|
    ensures forall name :: name in cases <==> name in listing && IsTestFile(name)
  {
    if listing == [] then []
    else
      var last := listing[|listing| - 1];
      TestFiles(listing[..|listing| - 1]) + (if IsTestFile(last) then [last] else [])
  }

  /** `filter` keeps the listing order: the cases of a concatenation are those of each part, in turn. */
  lemma {:induction false} TestFilesAppend(a: seq<string>, b: seq<string>)
    ensures TestFiles(a + b) == TestFiles(a) + TestFiles(b)
    decreases |b|
  {
    if b == [] {
      assert a + b == a;
    } else {
      assert (a + b)[..|a + b| - 1] == a + b[..|b| - 1];
      TestFilesAppend(a, b[..|b| - 1]);
    }
  }

  /** Cases run in listing order, not numeric order: `ip10.txt` listed first runs first. */
  lemma ListingOrderNotNumeric()
    ensures TestFiles(["ip10.txt", "ip2.txt"]) == ["ip10.txt", "ip2.txt"]
  {
    assert IsTestFile("ip10.txt") && IsTestFile("ip2.txt") by {
      assert "ip10.txt"[..2] == "ip" && "ip10.txt"[4..] == ".txt";
      assert "ip2.txt"[..2] == "ip" && "ip2.txt"[3..] == ".txt";
    }
    assert ["ip10.txt", "ip2.txt"][..1] == ["ip10.txt"];
    assert ["ip10.txt"][..0] == [];
  }

  /** `op${testCaseNumber}.txt` */
  function ExpectedFile(testCaseNumber: string): string {
    "op" + testCaseNumber + ".txt"
  }

  /** Every name of the listing has a content. */
  predicate Listed(listing: seq<string>, files: map<string, string>) {
    forall name :: name in listing ==> name in files
  }

  // ---------------------------------------------------------------------------
  // Reading a process's output

  /** What `actualOutput += data.toString()` over all `data` events produces. */
  function Concat(chunks: seq<string>): (s: string)
    ensures |chunks| == 1 ==> s == chunks[0]
  {
    if chunks == [] then [] else Concat(chunks[..|chunks| - 1]) + chunks[|chunks| - 1]
  }

  /** The collected text is empty exactly when every chunk is: `if (errorOutput)` is "some chunk had text". */
  lemma {:induction false} ConcatEmpty(chunks: seq<string>)
    ensures Concat(chunks) == [] <==> forall i :: 0 <= i < |chunks| ==> chunks[i] == []
  {
    if chunks != [] {
      var front := chunks[..|chunks| - 1];
      ConcatEmpty(front);
      assert forall i :: 0 <= i < |front| ==> front[i] == chunks[i];
    }
  }

  /** The `data` handler, applied chunk by chunk. */
  method Collect(chunks: seq<string>) returns (s: string)
    ensures s == Concat(chunks)
  {
    s := "";
    var i := 0;
    while i < |chunks|
      invariant 0 <= i <= |chunks|
      invariant s == Concat(chunks[..i])
    {
      assert chunks[..i + 1][..i] == chunks[..i];
      s := s + chunks[i];
      i := i + 1;
    }
    assert chunks[..i] == chunks;
  }

  // ---------------------------------------------------------------------------
  // The loop, as a function of the cases visited so far

  /** The outcome after one more input file. Only `Reported` goes on; every other outcome is final. */
  function Step(tool: Toolchain, files: map<string, string>, run: string -> Execution,
                acc: Outcome, inputFile: string): (r: Outcome)
    requires inputFile in files
  {
    if !acc.Reported? then acc
    else match FirstDigitRun(inputFile)
      case None => NoCaseNumber(inputFile)
      case Some(testCaseNumber) =>
        if ExpectedFile(testCaseNumber) !in files then acc
        else
          var errorOutput := Concat(run(files[inputFile]).stderr);
          if tool == Python && errorOutput != [] then CaseErrored(testCaseNumber, errorOutput)
          else Record(files, run, acc, inputFile, testCaseNumber)
  }

  /** The `close` handler of a case that completes: one verdict, one output record, the flag cleared on failure. */
  function Record(files: map<string, string>, run: string -> Execution,
                  acc: Outcome, inputFile: string, testCaseNumber: string): (r: Outcome)
    requires acc.Reported? && inputFile in files && ExpectedFile(testCaseNumber) in files
  {
    var actualOutput := Trim(Concat(run(files[inputFile]).stdout));
    var expectedOutput := Trim(files[ExpectedFile(testCaseNumber)]);
    var passed := actualOutput == expectedOutput;
    Append(acc, CaseResult(testCaseNumber, passed), OutputRecord(actualOutput, expectedOutput))
  }

  /** `outputs.push`, `results.push`, and `allTestsPassed = false` on a failing verdict. */
  function Append(acc: Outcome, result: CaseResult, output: OutputRecord): (r: Outcome)
    requires acc.Reported?
  {
    Reported(acc.results + [result], acc.outputs + [output],
             if result.passed then acc.allTestsPassed else false)
  }

  function RunSpec(tool: Toolchain, files: map<string, string>, run: string -> Execution,
                   cases: seq<string>): Outcome
    requires forall name :: name in cases ==> name in files
  {
    if cases == [] then Reported([], [], true)
    else Step(tool, files, run, RunSpec(tool, files, run, cases[..|cases| - 1]), cases[|cases| - 1])
  }

  /** The loop of executeCppCode / executePythonCode once the program is ready. */
  method RunCases(tool: Toolchain, listing: seq<string>, files: map<string, string>,
                  run: string -> Execution) returns (outcome: Outcome)
    requires Listed(listing, files)
    ensures outcome == RunSpec(tool, files, run, TestFiles(listing))
  {
    var testFiles := TestFiles(listing);
    assert forall name :: name in testFiles ==> name in files;
    var allTestsPassed := true;
    var results: seq<CaseResult> := [];
    var outputs: seq<OutputRecord> := [];
    var i := 0;
    while i < |testFiles|
      invariant 0 <= i <= |testFiles|
      invariant RunSpec(tool, files, run, testFiles[..i]) == Reported(results, outputs, allTestsPassed)
    {
      var inputFile := testFiles[i];
      var number := FirstDigitRun(inputFile);
      if number.None? {
        outcome := NoCaseNumber(inputFile);
        NoNumberCase(tool, files, run, testFiles, i);
        return;
      }
      var testCaseNumber := number.value;
      var expectedOutputFile := ExpectedFile(testCaseNumber);
      if expectedOutputFile !in files {
        SkipCase(tool, files, run, testFiles, i);
        i := i + 1;
        continue;
      }
      var inputContent := files[inputFile];
      var expectedOutput := Trim(files[expectedOutputFile]);
      var execution := run(inputContent);
      var actualOutput := Collect(execution.stdout);
      if tool == Python {
        var errorOutput := Collect(execution.stderr);
        if errorOutput != [] {
          outcome := CaseErrored(testCaseNumber, errorOutput);
          ErroredCase(files, run, testFiles, i);
          return;
        }
      }
      actualOutput := Trim(actualOutput);
      var passed := actualOutput == expectedOutput;
      RecordCase(tool, files, run, testFiles, i, Reported(results, outputs, allTestsPassed));
      outputs := outputs + [OutputRecord(actualOutput, expectedOutput)];
      if !passed {
        allTestsPassed := false;
      }
      results := results + [CaseResult(testCaseNumber, passed)];
      i := i + 1;
    }
    assert testFiles[..i] == testFiles;
    outcome := Reported(results, outputs, allTestsPassed);
  }

  /** executeCppCode: a failed compilation rejects before the folder is read. */
  method ExecuteCppCode(compiled: bool, listing: seq<string>, files: map<string, string>,
                        run: string -> Execution) returns (outcome: Outcome)
    requires Listed(listing, files)
    ensures !compiled ==> outcome == CompileFailed
    ensures compiled ==> outcome == RunSpec(Cpp, files, run, TestFiles(listing))
    ensures compiled && TestFiles(listing) == [] ==> outcome == Reported([], [], true)
  {
    if !compiled {
      return CompileFailed;
    }
    outcome := RunCases(Cpp, listing, files, run);
  }

  /** executePythonCode: no compile step; each case runs the script afresh. */
  method ExecutePythonCode(listing: seq<string>, files: map<string, string>,
                           run: string -> Execution) returns (outcome: Outcome)
    requires Listed(listing, files)
    ensures outcome == RunSpec(Python, files, run, TestFiles(listing))
    ensures TestFiles(listing) == [] ==> outcome == Reported([], [], true)
  {
    outcome := RunCases(Python, listing, files, run);
  }

  /** The run over the first `i + 1` cases takes one Step from the run over the first `i`. */
  lemma NextCase(tool: Toolchain, files: map<string, string>, run: string -> Execution,
                 cases: seq<string>, i: nat)
    requires i < |cases| && forall name :: name in cases ==> name in files
    ensures RunSpec(tool, files, run, cases[..i + 1])
         == Step(tool, files, run, RunSpec(tool, files, run, cases[..i]), cases[i])
  {
    assert cases[..i + 1][..i] == cases[..i];
  }

  /** An input file without an expected output leaves the outcome as it was. */
  lemma SkipCase(tool: Toolchain, files: map<string, string>, run: string -> Execution,
                 cases: seq<string>, i: nat)
    requires i < |cases| && forall name :: name in cases ==> name in files
    requires RunSpec(tool, files, run, cases[..i]).Reported?
    requires FirstDigitRun(cases[i]).Some? && ExpectedFile(FirstDigitRun(cases[i]).value) !in files
    ensures RunSpec(tool, files, run, cases[..i + 1]) == RunSpec(tool, files, run, cases[..i])
  {
    NextCase(tool, files, run, cases, i);
  }

  /** A paired case that completes appends its verdict and its outputs. */
  lemma RecordCase(tool: Toolchain, files: map<string, string>, run: string -> Execution,
                   cases: seq<string>, i: nat, acc: Outcome)
    requires i < |cases| && forall name :: name in cases ==> name in files
    requires RunSpec(tool, files, run, cases[..i]) == acc && acc.Reported?
    requires FirstDigitRun(cases[i]).Some? && ExpectedFile(FirstDigitRun(cases[i]).value) in files
    requires tool == Python ==> Concat(run(files[cases[i]]).stderr) == []
    ensures var n := FirstDigitRun(cases[i]).value;
      var actual := Trim(Concat(run(files[cases[i]]).stdout));
      var expected := Trim(files[ExpectedFile(n)]);
      RunSpec(tool, files, run, cases[..i + 1])
        == Reported(acc.results + [CaseResult(n, actual == expected)],
                    acc.outputs + [OutputRecord(actual, expected)],
                    acc.allTestsPassed && actual == expected)
  {
    NextCase(tool, files, run, cases, i);
  }

  /** An input file without digits in its name ends the run, whatever follows. */
  lemma NoNumberCase(tool: Toolchain, files: map<string, string>, run: string -> Execution,
                     cases: seq<string>, i: nat)
    requires i < |cases| && forall name :: name in cases ==> name in files
    requires RunSpec(tool, files, run, cases[..i]).Reported?
    requires FirstDigitRun(cases[i]).None?
    ensures RunSpec(tool, files, run, cases) == NoCaseNumber(cases[i])
  {
    NextCase(tool, files, run, cases, i);
    FinalFrom(tool, files, run, cases, i + 1);
  }

  /** In the Python path, a paired case with stderr output ends the run, whatever follows. */
  lemma ErroredCase(files: map<string, string>, run: string -> Execution, cases: seq<string>, i: nat)
    requires i < |cases| && forall name :: name in cases ==> name in files
    requires RunSpec(Python, files, run, cases[..i]).Reported?
    requires FirstDigitRun(cases[i]).Some? && ExpectedFile(FirstDigitRun(cases[i]).value) in files
    requires Concat(run(files[cases[i]]).stderr) != []
    ensures RunSpec(Python, files, run, cases)
         == CaseErrored(FirstDigitRun(cases[i]).value, Concat(run(files[cases[i]]).stderr))
  {
    NextCase(Python, files, run, cases, i);
    FinalFrom(Python, files, run, cases, i + 1);
  }

  /** A run that has stopped after `j` cases has stopped for good. */
  lemma FinalFrom(tool: Toolchain, files: map<string, string>, run: string -> Execution,
                  cases: seq<string>, j: nat)
    requires j <= |cases| && forall name :: name in cases ==> name in files
    requires !RunSpec(tool, files, run, cases[..j]).Reported?
    ensures RunSpec(tool, files, run, cases) == RunSpec(tool, files, run, cases[..j])
  {
    assert cases[..j] + cases[j..] == cases;
    AbortIsFinal(tool, files, run, cases[..j], cases[j..]);
  }

  // ---------------------------------------------------------------------------
  // Properties of the loop

  /** Once the run has thrown or rejected, later input files change nothing. */
  lemma {:induction false} AbortIsFinal(tool: Toolchain, files: map<string, string>,
                                        run: string -> Execution, a: seq<string>, b: seq<string>)
    requires forall name :: name in a + b ==> name in files
    requires !RunSpec(tool, files, run, a).Reported?
    ensures RunSpec(tool, files, run, a + b) == RunSpec(tool, files, run, a)
    decreases |b|
  {
    if b == [] {
      assert a + b == a;
    } else {
      assert (a + b)[..|a + b| - 1] == a + b[..|b| - 1];
      AbortIsFinal(tool, files, run, a, b[..|b| - 1]);
    }
  }

  /** Only the Python path aborts on stderr: the C++ loop never ends in `CaseErrored`. */
  lemma {:induction false} CppNeverErrors(files: map<string, string>, run: string -> Execution,
                                          cases: seq<string>)
    requires forall name :: name in cases ==> name in files
    ensures !RunSpec(Cpp, files, run, cases).CaseErrored?
    ensures !RunSpec(Cpp, files, run, cases).CompileFailed?
  {
    if cases != [] {
      CppNeverErrors(files, run, cases[..|cases| - 1]);
    }
  }

  /** An input file whose expected output is missing changes nothing, wherever it is listed. */
  lemma {:induction false} SkipsUnpaired(tool: Toolchain, files: map<string, string>,
                                         run: string -> Execution, a: seq<string>, name: string,
                                         b: seq<string>)
    requires forall n :: n in a + b ==> n in files
    requires name in files
    requires FirstDigitRun(name).Some? && ExpectedFile(FirstDigitRun(name).value) !in files
    ensures RunSpec(tool, files, run, a + [name] + b) == RunSpec(tool, files, run, a + b)
    decreases |b|
  {
    if b == [] {
      assert a + [name] + b == a + [name];
      assert a + b == a;
      RunSpecSnoc(tool, files, run, a, name);
    } else {
      var front := b[..|b| - 1];
      var x := b[|b| - 1];
      assert a + [name] + b == (a + [name] + front) + [x];
      assert a + b == (a + front) + [x];
      SkipsUnpaired(tool, files, run, a, name, front);
      RunSpecSnoc(tool, files, run, a + [name] + front, x);
      RunSpecSnoc(tool, files, run, a + front, x);
    }
  }

  /** The run over `cases` and one more input file takes one more Step. */
  lemma RunSpecSnoc(tool: Toolchain, files: map<string, string>, run: string -> Execution,
                    cases: seq<string>, x: string)
    requires forall name :: name in cases + [x] ==> name in files
    ensures forall name :: name in cases ==> name in files
    ensures RunSpec(tool, files, run, cases + [x]) == Step(tool, files, run, RunSpec(tool, files, run, cases), x)
  {
    assert (cases + [x])[..|cases|] == cases;
  }

  /** In the Python path, a paired case that writes to stderr ends the run with that case's error. */
  lemma PythonAbortsOnStderr(files: map<string, string>, run: string -> Execution,
                             a: seq<string>, name: string, b: seq<string>)
    requires forall n :: n in a + [name] + b ==> n in files
    requires RunSpec(Python, files, run, a).Reported?
    requires FirstDigitRun(name).Some? && ExpectedFile(FirstDigitRun(name).value) in files
    requires Concat(run(files[name]).stderr) != []
    ensures RunSpec(Python, files, run, a + [name] + b)
         == CaseErrored(FirstDigitRun(name).value, Concat(run(files[name]).stderr))
  {
    assert (a + [name])[..|a|] == a;
    AbortIsFinal(Python, files, run, a + [name], b);
  }

  /** An input file with a case number: the name of the input and the digit string from it. */
  datatype Pair = Pair(inputFile: string, testCase: string)

  /** The input files that have an expected output file, in order, with their case numbers. */
  function Paired(files: map<string, string>, cases: seq<string>): (pairs: seq<Pair>)
    ensures |pairs| <= |cases|
    ensures forall i :: 0 <= i < |pairs| ==> pairs[i].inputFile in cases
  {
    if cases == [] then []
    else
      var earlier := Paired(files, cases[..|cases| - 1]);
      var last := cases[|cases| - 1];
      match FirstDigitRun(last)
      case Some(n) => if ExpectedFile(n) in files then earlier + [Pair(last, n)] else earlier
      case None => earlier
  }

  /**
    One entry of `results` and of `outputs`, read against its input file:
    the expected side is the trimmed `op<n>.txt`, the actual side the
    trimmed stdout, and the verdict is their equality.
   */
  predicate Entry(files: map<string, string>, run: string -> Execution,
                  p: Pair, result: CaseResult, output: OutputRecord)
  {
    && p.inputFile in files
    && FirstDigitRun(p.inputFile) == Some(p.testCase)
    && ExpectedFile(p.testCase) in files
    && result.testCase == p.testCase
    && output.expectedOutput == Trim(files[ExpectedFile(p.testCase)])
    && output.actualOutput == Trim(Concat(run(files[p.inputFile]).stdout))
    && (result.passed <==> output.actualOutput == output.expectedOutput)
  }

  /** The records of a completed run: entry `i` of `results` and `outputs` belongs to `pairs[i]`. */
  predicate Describes(files: map<string, string>, run: string -> Execution,
                      pairs: seq<Pair>, out: Outcome)
  {
    && out.Reported?
    && |out.results| == |pairs| && |out.outputs| == |pairs|
    && (forall i :: 0 <= i < |pairs| ==> Entry(files, run, pairs[i], out.results[i], out.outputs[i]))
    && (out.allTestsPassed <==> forall i :: 0 <= i < |pairs| ==> out.results[i].passed)
  }

  /**
    A run that completes has one entry in `results` and one in `outputs` for
    each paired input, in listing order and index-aligned, and
    `allTestsPassed` is the conjunction of the verdicts (true with no cases).
   */
  lemma {:induction false} CompletedRun(tool: Toolchain, files: map<string, string>,
                                        run: string -> Execution, cases: seq<string>)
    requires forall name :: name in cases ==> name in files
    requires RunSpec(tool, files, run, cases).Reported?
    ensures Describes(files, run, Paired(files, cases), RunSpec(tool, files, run, cases))
  {
    if cases != [] {
      var earlier := cases[..|cases| - 1];
      var last := cases[|cases| - 1];
      LastStep(tool, files, run, cases);
      CompletedRun(tool, files, run, earlier);
      var n := FirstDigitRun(last).value;
      if ExpectedFile(n) in files {
        var acc := RunSpec(tool, files, run, earlier);
        var actualOutput := Trim(Concat(run(files[last]).stdout));
        var expectedOutput := Trim(files[ExpectedFile(n)]);
        var result := CaseResult(n, actualOutput == expectedOutput);
        var output := OutputRecord(actualOutput, expectedOutput);
        assert Entry(files, run, Pair(last, n), result, output);
        AppendStep(files, run, Paired(files, earlier), acc, Pair(last, n), result, output);
        DescribesSame(files, run, Paired(files, earlier) + [Pair(last, n)], Append(acc, result, output),
                      Paired(files, cases), RunSpec(tool, files, run, cases));
      } else {
        DescribesSame(files, run, Paired(files, earlier), RunSpec(tool, files, run, earlier),
                      Paired(files, cases), RunSpec(tool, files, run, cases));
      }
    }
  }

  /** How the last input file of a run that completes extends the run before it. */
  lemma LastStep(tool: Toolchain, files: map<string, string>, run: string -> Execution, cases: seq<string>)
    requires cases != [] && forall name :: name in cases ==> name in files
    requires RunSpec(tool, files, run, cases).Reported?
    ensures var earlier := cases[..|cases| - 1];
      && (forall name :: name in earlier ==> name in files)
      && RunSpec(tool, files, run, earlier).Reported?
      && FirstDigitRun(cases[|cases| - 1]).Some?
    ensures var earlier := cases[..|cases| - 1];
      var last := cases[|cases| - 1];
      var n := FirstDigitRun(last).value;
      if ExpectedFile(n) in files then
        && Paired(files, cases) == Paired(files, earlier) + [Pair(last, n)]
        && RunSpec(tool, files, run, cases) == Record(files, run, RunSpec(tool, files, run, earlier), last, n)
      else
        && Paired(files, cases) == Paired(files, earlier)
        && RunSpec(tool, files, run, cases) == RunSpec(tool, files, run, earlier)
  {
    var earlier := cases[..|cases| - 1];
    assert forall name :: name in earlier ==> name in cases;
  }

  /** Describes, read on equal arguments. */
  lemma DescribesSame(files: map<string, string>, run: string -> Execution,
                      pairs: seq<Pair>, out: Outcome, pairs': seq<Pair>, out': Outcome)
    requires Describes(files, run, pairs, out) && pairs == pairs' && out == out'
    ensures Describes(files, run, pairs', out')
  {
  }

  /** One more entry that reads right keeps the description. */
  lemma AppendStep(files: map<string, string>, run: string -> Execution,
                   pairs: seq<Pair>, acc: Outcome, p: Pair, result: CaseResult, output: OutputRecord)
    requires Describes(files, run, pairs, acc)
    requires Entry(files, run, p, result, output)
    ensures Describes(files, run, pairs + [p], Append(acc, result, output))
  {
    EntriesAppend(files, run, pairs, acc.results, acc.outputs, p, result, output);
    VerdictsAppend(acc.results, acc.allTestsPassed, result);
  }

  lemma EntriesAppend(files: map<string, string>, run: string -> Execution, pairs: seq<Pair>,
                      results: seq<CaseResult>, outputs: seq<OutputRecord>,
                      p: Pair, result: CaseResult, output: OutputRecord)
    requires |results| == |pairs| && |outputs| == |pairs|
    requires forall i :: 0 <= i < |pairs| ==> Entry(files, run, pairs[i], results[i], outputs[i])
    requires Entry(files, run, p, result, output)
    ensures forall i :: 0 <= i < |pairs| + 1 ==>
      Entry(files, run, (pairs + [p])[i], (results + [result])[i], (outputs + [output])[i])
  {
    forall i | 0 <= i < |pairs| + 1
      ensures Entry(files, run, (pairs + [p])[i], (results + [result])[i], (outputs + [output])[i])
    {
      if i < |pairs| {
        assert (pairs + [p])[i] == pairs[i] && (results + [result])[i] == results[i];
        assert (outputs + [output])[i] == outputs[i];
      }
    }
  }

  /** The flag stays the conjunction of the verdicts. */
  lemma VerdictsAppend(results: seq<CaseResult>, allTestsPassed: bool, result: CaseResult)
    requires allTestsPassed <==> forall i :: 0 <= i < |results| ==> results[i].passed
    ensures (if result.passed then allTestsPassed else false)
        <==> forall i :: 0 <= i < |results| + 1 ==> (results + [result])[i].passed
  {
    var all := results + [result];
    assert all[|results|] == result;
    assert forall i :: 0 <= i < |results| ==> all[i] == results[i];
  }

  /** Surrounding whitespace on either side does not change a verdict. */
  lemma TrailingNewlineIgnored()
    ensures Trim("42\n") == Trim("42")
  {
    assert "42\n" == "" + "42" + "\n";
    assert "42" == "" + "42" + "";
    TrimSurrounded("", "42", "\n");
    TrimSurrounded("", "42", "");
  }

  /** Inner whitespace is compared as it is. */
  lemma InnerSpaceCounts()
    ensures Trim(" 4 2 ") != Trim("42")
  {
    assert " 4 2 " == " " + "4 2" + " ";
    assert "42" == "" + "42" + "";
    TrimSurrounded(" ", "4 2", " ");
    TrimSurrounded("", "42", "");
    assert |"4 2"| != |"42"|;
  }
}
