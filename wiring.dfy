/**
  How the pieces meet: the URL the webview posts, the name the extension
  derives from it, the identifier the scraper derives from it, and the case
  files getTests writes for the runner to pair.
 */
module Wiring {
  import opened Text
  import FetchName
  import UrlFetching
  import Extension
  import RunCode
  import Script

  /** `problems` does not occur in the 28 characters before its place in the accepted prefix. */
  lemma NoProblemsBeforeMarker()
    ensures !Contains("https://leetcode.com/problem", FetchName.ProblemsMarker)
  {
    var s := "https://leetcode.com/problem";
    assert forall j :: 0 <= j <= |s| - 8 ==> !(s[j] == 'p' && s[j + 1] == 'r');
    forall j | 0 <= j <= |s| - 8
      ensures !OccursAt(s, "problems", j)
    {
      assert s[j..j + 8][0] == s[j] && s[j..j + 8][1] == s[j + 1];
    }
  }

  /** A URL that starts with the accepted prefix has its first `problems` at index 21. */
  lemma PrefixedNameStart(url: string)
    requires StartsWith(url, Script.LeetCodePrefix)
    ensures IndexOf(url, FetchName.ProblemsMarker) == 21 && FetchName.NameStart(url) == 30
  {
    var host := "https://leetcode.com/";
    var tail := "/" + url[30..];
    assert url == host + FetchName.ProblemsMarker + tail by {
      assert url[..30] == host + FetchName.ProblemsMarker + "/";
      assert url == url[..30] + url[30..];
    }
    NoProblemsBeforeMarker();
    assert host + "problem" == "https://leetcode.com/problem";
    FetchName.NameStartAfter(host, tail);
  }

  /**
    Every URL the fetch form posts has its first `problems` at index 21, so
    the name getName extracts starts at index 30, right after the prefix.
   */
  lemma PostedUrlNameStart(value: string)
    requires Script.SubmitFetchForm(value).Posted?
    ensures var url := Script.SubmitFetchForm(value).message.url;
      IndexOf(url, FetchName.ProblemsMarker) == 21 && FetchName.NameStart(url) == 30
  {
    PrefixedNameStart(Script.SubmitFetchForm(value).message.url);
  }

  /** The address of a problem's description page, as copied from the browser. */
  function DescriptionUrl(n: string): string {
    Script.LeetCodePrefix + n + "/description/"
  }

  lemma HostSegments()
    ensures Join(["https:", "", "leetcode.com"], '/') == "https://leetcode.com"
  {
    JoinAppend([""], ["leetcode.com"], '/');
    assert [""] + ["leetcode.com"] == ["", "leetcode.com"];
    JoinAppend(["https:"], ["", "leetcode.com"], '/');
    assert ["https:"] + ["", "leetcode.com"] == ["https:", "", "leetcode.com"];
  }

  lemma PageSegments(n: string)
    ensures Join(["problems", n], '/') == "problems/" + n
    ensures Join(["description", ""], '/') == "description/"
  {
    JoinAppend(["problems"], [n], '/');
    assert ["problems"] + [n] == ["problems", n];
    JoinAppend(["description"], [""], '/');
    assert ["description"] + [""] == ["description", ""];
  }

  /** The scraper splits the description URL into these segments. */
  lemma DescriptionUrlSegments(n: string)
    ensures DescriptionUrl(n) == Join(["https:", "", "leetcode.com"] + ["problems", n] + ["description", ""], '/')
  {
    var before: seq<string> := ["https:", "", "leetcode.com"];
    var middle: seq<string> := ["problems", n];
    var after: seq<string> := ["description", ""];
    var host := "https://leetcode.com";
    HostSegments();
    PageSegments(n);
    JoinAppend(before, middle, '/');
    JoinAppend(before + middle, after, '/');
    Regroup(host, "problems/", n, "description/");
    assert host + "/" + "problems/" == Script.LeetCodePrefix;
    assert "/" + "description/" == "/description/";
  }

  lemma Regroup(host: string, p: string, n: string, d: string)
    ensures host + ['/'] + (p + n) + ['/'] + d == (host + "/" + p) + n + ("/" + d)
  {
  }

  /**
    For a description URL, the webview posts it unchanged, getName finds the
    problem name `n`, and the scraper's get_problem_identifier finds the same
    `n`: the folder getTests fills is `TestData/<formatName(n)>`, named after
    the problem the scraper fetched.
   */
  lemma DescriptionUrlAgrees(n: string)
    requires '/' !in n
    requires !Contains(Script.LeetCodePrefix + n + "/descriptio", FetchName.DescriptionMarker)
    ensures Script.SubmitFetchForm(DescriptionUrl(n)) == Script.Posted(Script.FetchTests(DescriptionUrl(n)))
    ensures FetchName.GetName(DescriptionUrl(n)) == n
    ensures UrlFetching.GetProblemIdentifier(DescriptionUrl(n)) == UrlFetching.Ok(n)
  {
    DescriptionUrlPosted(n);
    DescriptionUrlName(n);
    DescriptionUrlIdentifier(n);
  }

  lemma DescriptionUrlPosted(n: string)
    ensures Script.SubmitFetchForm(DescriptionUrl(n)) == Script.Posted(Script.FetchTests(DescriptionUrl(n)))
  {
    var url := DescriptionUrl(n);
    assert url[..30] == Script.LeetCodePrefix;
    assert url[0] == 'h' && url[|url| - 1] == '/';
    Script.PostedAsIs(url);
  }

  lemma DescriptionUrlName(n: string)
    requires !Contains(Script.LeetCodePrefix + n + "/descriptio", FetchName.DescriptionMarker)
    ensures FetchName.GetName(DescriptionUrl(n)) == n
  {
    var host := "https://leetcode.com/";
    NoProblemsBeforeMarker();
    assert host + "problem" == "https://leetcode.com/problem";
    assert DescriptionUrl(n) == host + "problems/" + n + "/description" + "/";
    assert host + "problems/" + n + "/descriptio" == Script.LeetCodePrefix + n + "/descriptio";
    FetchName.GetNameOfProblemUrl(host, n, "/");
  }

  lemma DescriptionUrlIdentifier(n: string)
    requires '/' !in n
    ensures UrlFetching.GetProblemIdentifier(DescriptionUrl(n)) == UrlFetching.Ok(n)
  {
    DescriptionUrlSegments(n);
    var before: seq<string> := ["https:", "", "leetcode.com"];
    assert "problems" !in before;
    assert forall k :: 0 <= k < |before| ==> '/' !in before[k];
    assert forall k :: 0 <= k < 2 ==> '/' !in ["description", ""][k];
    UrlFetching.ProblemIdentifierOfSegments(before, n, ["description", ""]);
  }

  /**
    The input file getTests writes as case `k` is a test file for the
    runner, its first digit run is `k`, and the expected file the runner
    looks for is the output file getTests writes as case `k`.
   */
  lemma WrittenCasePairs(k: nat)
    ensures var input := Extension.CaseFileName(Extension.InputPrefix, k);
      && RunCode.IsTestFile(input)
      && FirstDigitRun(input) == Some(NatToDecimal(k))
      && RunCode.ExpectedFile(NatToDecimal(k)) == Extension.CaseFileName(Extension.OutputPrefix, k)
  {
    var d := NatToDecimal(k);
    var input := Extension.CaseFileName(Extension.InputPrefix, k);
    assert input == "ip" + d + ".txt";
    assert input[..2] == "ip";
    assert input[|input| - 4..] == ".txt";
    assert NoDigits("ip") by {
      assert !IsDigit('i') && !IsDigit('p');
    }
    FirstDigitRunOf("ip", d, ".txt");
  }

  /**
    When every listed input is one that getTests wrote (`ip1` .. `ipN`) and
    all of `op1` .. `opN` exist, no case is skipped: the runner pairs every
    input with its output, in listing order.
   */
  lemma {:induction false} NoWrittenCaseSkipped(files: map<string, string>, cases: seq<string>, n: nat)
    requires forall i :: 0 <= i < |cases| ==> Extension.Numbered(Extension.InputPrefix, cases[i], n)
    requires forall k :: 1 <= k <= n ==> Extension.CaseFileName(Extension.OutputPrefix, k) in files
    ensures var pairs := RunCode.Paired(files, cases);
      |pairs| == |cases| && forall i :: 0 <= i < |cases| ==> pairs[i].inputFile == cases[i]
  {
    if cases != [] {
      var earlier := cases[..|cases| - 1];
      var last := cases[|cases| - 1];
      assert forall i :: 0 <= i < |earlier| ==> earlier[i] == cases[i];
      NoWrittenCaseSkipped(files, earlier, n);
      assert Extension.Numbered(Extension.InputPrefix, last, n);
      var k :| 1 <= k <= n && last == Extension.CaseFileName(Extension.InputPrefix, k);
      PairedLast(files, cases, k);
      InputsKept(RunCode.Paired(files, earlier), cases, RunCode.Pair(last, NatToDecimal(k)));
    }
  }

  /** The last listed input, one that getTests wrote as case `k`, is paired with case `k`'s output. */
  lemma PairedLast(files: map<string, string>, cases: seq<string>, k: nat)
    requires cases != [] && cases[|cases| - 1] == Extension.CaseFileName(Extension.InputPrefix, k)
    requires Extension.CaseFileName(Extension.OutputPrefix, k) in files
    ensures RunCode.Paired(files, cases)
         == RunCode.Paired(files, cases[..|cases| - 1]) + [RunCode.Pair(cases[|cases| - 1], NatToDecimal(k))]
  {
    WrittenCasePairs(k);
  }

  /** One more pair for the last input keeps the pairs aligned with the inputs. */
  lemma InputsKept(before: seq<RunCode.Pair>, cases: seq<string>, p: RunCode.Pair)
    requires cases != [] && |before| == |cases| - 1 && p.inputFile == cases[|cases| - 1]
    requires forall i :: 0 <= i < |before| ==> before[i].inputFile == cases[..|cases| - 1][i]
    ensures var pairs := before + [p];
      |pairs| == |cases| && forall i :: 0 <= i < |cases| ==> pairs[i].inputFile == cases[i]
  {
    var pairs := before + [p];
    forall i | 0 <= i < |cases|
      ensures pairs[i].inputFile == cases[i]
    {
      if i < |before| {
        assert pairs[i] == before[i] && cases[..|cases| - 1][i] == cases[i];
      }
    }
  }

  /**
    Between the scraper and the runner: parse_test_cases yields as many
    outputs as inputs, so once getTests has written `op1` .. `opN` for the N
    outputs, every input file `ip1` .. `ipN` it wrote for the N inputs is
    paired by the runner, in listing order.
   */
  lemma ScrapedCasesAllPaired(blocks: seq<string>, eval: UrlFetching.Eval,
                              files: map<string, string>, cases: seq<string>)
    requires UrlFetching.TestCases(blocks, eval).Ok?
    requires var c := UrlFetching.TestCases(blocks, eval).value;
      forall k :: 1 <= k <= |c.outputs| ==> Extension.CaseFileName(Extension.OutputPrefix, k) in files
    requires var c := UrlFetching.TestCases(blocks, eval).value;
      forall i :: 0 <= i < |cases| ==> Extension.Numbered(Extension.InputPrefix, cases[i], |c.inputs|)
    ensures var pairs := RunCode.Paired(files, cases);
      |pairs| == |cases| && forall i :: 0 <= i < |cases| ==> pairs[i].inputFile == cases[i]
  {
    var c := UrlFetching.TestCases(blocks, eval).value;
    NoWrittenCaseSkipped(files, cases, |c.inputs|);
  }

  /** The problem URL without a trailing `/` and without `description`. */
  const BareUrl := "https://leetcode.com/problems/two-sum"

  lemma NoDescriptionInBareUrl()
    ensures !Contains(BareUrl, FetchName.DescriptionMarker)
  {
    var s := BareUrl;
    assert forall j :: 0 <= j <= |s| - 11 ==> !(s[j] == 'd' && s[j + 1] == 'e' && s[j + 2] == 's');
    forall j | 0 <= j <= |s| - 11
      ensures !OccursAt(s, "description", j)
    {
      assert s[j..j + 11][0] == s[j] && s[j..j + 11][1] == s[j + 1] && s[j..j + 11][2] == s[j + 2];
    }
  }

  /**
    Without `description`, `end` is -1, so the slice drops the URL's last
    character: for a URL that does not end in `/`, that is the last
    character of the name, while the scraper still reads the whole
    segment. The folder getTests creates is then not the one the scraped
    problem is named after.
   */
  lemma BareUrlNamesDisagree()
    ensures Script.SubmitFetchForm(BareUrl) == Script.Posted(Script.FetchTests(BareUrl))
    ensures FetchName.GetName(BareUrl) == "two-su"
    ensures UrlFetching.GetProblemIdentifier(BareUrl) == UrlFetching.Ok("two-sum")
  {
    BareUrlPosted();
    BareUrlName();
    BareUrlIdentifier();
  }

  lemma BareUrlPosted()
    ensures Script.SubmitFetchForm(BareUrl) == Script.Posted(Script.FetchTests(BareUrl))
  {
    var url := BareUrl;
    assert url[..30] == Script.LeetCodePrefix;
    assert url[0] == 'h' && url[|url| - 1] == 'm';
    Script.PostedAsIs(url);
  }

  lemma BareUrlName()
    ensures FetchName.GetName(BareUrl) == "two-su"
  {
    var url := BareUrl;
    assert url == Script.LeetCodePrefix + "two-sum";
    assert url[30..|url| - 1] == "two-su";
    PrefixedNameStart(url);
    NoDescriptionInBareUrl();
    FetchName.GetNameWithoutDescription(url);
  }

  lemma BareUrlIdentifier()
    ensures UrlFetching.GetProblemIdentifier(BareUrl) == UrlFetching.Ok("two-sum")
  {
    var before: seq<string> := ["https:", "", "leetcode.com"];
    HostSegments();
    PageSegments("two-sum");
    JoinAppend(before, ["problems", "two-sum"], '/');
    BareUrlText();
    assert before + ["problems", "two-sum"] + [] == before + ["problems", "two-sum"];
    assert "problems" !in before;
    assert forall k :: 0 <= k < |before| ==> '/' !in before[k];
    UrlFetching.ProblemIdentifierOfSegments(before, "two-sum", []);
  }

  lemma BareUrlText()
    ensures "https://leetcode.com" + ['/'] + ("problems/" + "two-sum") == BareUrl
  {
  }
}
