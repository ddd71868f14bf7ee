/**
  The webview's two forms (frontend/script.js). The fetch form checks the
  URL it was given before posting it to the extension; the run form posts
  the problem name as typed.
 */
module Script {
  import opened Text

  /** The 30 characters every accepted URL starts with. */
  const LeetCodePrefix := "https://leetcode.com/problems/"

  const EmptyUrlMessage := "URL field cannot be empty"
  const InvalidUrlMessage := "Enter valid Leetcode URL"

  /** `{type: 'fetchTests', value}` and `{type: 'runTests', value}` */
  datatype WebviewMessage = FetchTests(url: string) | RunTests(problemName: string)

  /** A submit either shows a message under the form or posts one message to the extension. */
  datatype FormResult = Shown(text: string) | Posted(message: WebviewMessage)

  /**
    The fetch form's submit handler: the trimmed URL is posted exactly when
    its first 30 characters are the problems prefix; otherwise an empty URL
    and a foreign URL get their own messages.
   */
  function SubmitFetchForm(value: string): (r: FormResult)
    ensures r.Posted? <==> StartsWith(Trim(value), LeetCodePrefix)
    ensures r.Posted? ==> r.message == FetchTests(Trim(value))
    ensures r == Shown(EmptyUrlMessage) <==> AllSpace(value)
    ensures r.Shown? ==> r.text == EmptyUrlMessage || r.text == InvalidUrlMessage
  {
    var problemUrl := Trim(value);
    if problemUrl == [] then Shown(EmptyUrlMessage)
    else if Prefix(problemUrl, 30) != LeetCodePrefix then Shown(InvalidUrlMessage)
    else Posted(FetchTests(problemUrl))
  }

  /** The run form's submit handler: the name goes out untouched, even when empty. */
  function SubmitRunForm(value: string): (r: FormResult)
    ensures r.Posted? && r.message.RunTests? && r.message.problemName == value
  {
    Posted(RunTests(value))
  }

  /** A URL without surrounding whitespace that starts with the prefix is posted as it is. */
  lemma PostedAsIs(url: string)
    requires StartsWith(url, LeetCodePrefix)
    requires !IsSpace(url[0]) && !IsSpace(url[|url| - 1])
    ensures SubmitFetchForm(url) == Posted(FetchTests(url))
  {
    assert url == [] + url + [];
    TrimSurrounded([], url, []);
  }

  /** Resubmitting a posted URL posts it again, unchanged. */
  lemma ResubmitPosted(value: string)
    requires SubmitFetchForm(value).Posted?
    ensures SubmitFetchForm(SubmitFetchForm(value).message.url) == SubmitFetchForm(value)
  {
    var t := Trim(value);
    assert t == [] + t + [];
    TrimSurrounded([], t, []);
  }

  /** A URL without surrounding whitespace that differs from the prefix within its first 30 characters is refused. */
  lemma RefusedAt(url: string, i: nat)
    requires i < |LeetCodePrefix| && i < |url| && url[i] != LeetCodePrefix[i]
    requires !IsSpace(url[0]) && !IsSpace(url[|url| - 1])
    ensures SubmitFetchForm(url) == Shown(InvalidUrlMessage)
  {
    assert url == [] + url + [];
    TrimSurrounded([], url, []);
    assert Prefix(url, 30)[i] == url[i];
  }

  /** The `www.` form of a problem URL is refused, although the form's placeholder shows it. */
  lemma WwwUrlRefused()
    ensures SubmitFetchForm("https://www.leetcode.com/problems/two-sum/") == Shown(InvalidUrlMessage)
  {
    var u := "https://www.leetcode.com/problems/two-sum/";
    assert u[8] == 'w' && u[0] == 'h' && u[|u| - 1] == '/';
    RefusedAt(u, 8);
  }

  /** The scheme matters: `http://` is refused. */
  lemma PlainHttpRefused()
    ensures SubmitFetchForm("http://leetcode.com/problems/two-sum/") == Shown(InvalidUrlMessage)
  {
    var u := "http://leetcode.com/problems/two-sum/";
    assert u[4] == ':' && u[0] == 'h' && u[|u| - 1] == '/';
    RefusedAt(u, 4);
  }
}
