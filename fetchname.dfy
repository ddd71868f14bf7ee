/**
  The problem name inside a problem URL (frontend/fetchName.js): the text
  between `problems/` and `description`, found with `indexOf` and cut with
  JavaScript's `slice`, minus one trailing `/`.
 */
module FetchName {
  import opened Text

  const ProblemsMarker := "problems"
  const DescriptionMarker := "description"

  /** `replace(/\/$/, '')`: removes one `/` at the very end, if there is one. */
  function DropTrailingSlash(s: string): (r: string)
    ensures s == [] || s[|s| - 1] != '/' ==> r == s
    ensures s != [] && s[|s| - 1] == '/' ==> s == r + "/"
  {
    if s != [] && s[|s| - 1] == '/' then s[..|s| - 1] else s
  }

  /** Where the name starts: just past `problems/`, or 8 when `problems` is absent (`-1 + 9`). */
  function NameStart(url: string): int {
    IndexOf(url, ProblemsMarker) + |ProblemsMarker| + 1
  }

  /** Where the name ends: at `description`, or -1 when it is absent. */
  function NameEnd(url: string): int {
    IndexOf(url, DescriptionMarker)
  }

  function GetName(url: string): (name: string)
    ensures |name| <= |url|
    ensures exists lo :: 0 <= lo <= |url| - |name| && OccursAt(url, name, lo)
  {
    var raw := Slice(url, NameStart(url), NameEnd(url));
    var name := DropTrailingSlash(raw);
    SliceOccurs(url, NameStart(url), NameEnd(url));
    PrefixOccurs(url, raw, name, SliceIndex(NameStart(url), |url|));
    name
  }

  /** A slice is found in the string where it was cut. */
  lemma SliceOccurs(s: string, start: int, end: int)
    ensures OccursAt(s, Slice(s, start, end), SliceIndex(start, |s|))
  {
  }

  /** A prefix of what occurs at `lo` occurs at `lo` too; `raw` without its trailing `/` is one. */
  lemma PrefixOccurs(s: string, raw: string, name: string, lo: nat)
    requires OccursAt(s, raw, lo) && name == DropTrailingSlash(raw)
    ensures OccursAt(s, name, lo)
  {
    assert raw[..|name|] == name;
    assert s[lo..lo + |name|] == s[lo..lo + |raw|][..|name|];
  }

  /** After a first `problems` at `|prefix|`, the name starts 9 characters later. */
  lemma NameStartAfter(prefix: string, tail: string)
    requires !Contains(prefix + "problem", ProblemsMarker)
    ensures NameStart(prefix + ProblemsMarker + tail) == |prefix| + 9
  {
    assert ProblemsMarker[..|ProblemsMarker| - 1] == "problem";
    FirstOccurrenceAfter(prefix, ProblemsMarker, tail);
  }

  /** With a first `description` at `|a|`, the name ends there. */
  lemma NameEndAt(a: string, rest: string)
    requires !Contains(a + "descriptio", DescriptionMarker)
    ensures NameEnd(a + DescriptionMarker + rest) == |a|
  {
    assert DescriptionMarker[..|DescriptionMarker| - 1] == "descriptio";
    FirstOccurrenceAfter(a, DescriptionMarker, rest);
  }

  /**
    For `<prefix>problems/<n>/description<rest>` the name is `n`, provided
    that neither marker occurs in a window starting before its own position.
   */
  lemma GetNameOfProblemUrl(prefix: string, n: string, rest: string)
    requires !Contains(prefix + "problem", ProblemsMarker)
    requires !Contains(prefix + "problems/" + n + "/descriptio", DescriptionMarker)
    ensures GetName(prefix + "problems/" + n + "/description" + rest) == n
  {
    var a := prefix + "problems/" + n + "/";
    var url := a + DescriptionMarker + rest;
    assert prefix + "problems/" + n + "/description" + rest == url;
    assert url == prefix + ProblemsMarker + ("/" + n + "/description" + rest);
    NameStartAfter(prefix, "/" + n + "/description" + rest);
    assert a + "descriptio" == prefix + "problems/" + n + "/descriptio";
    NameEndAt(a, rest);
    assert url[|prefix| + 9..|a|] == n + "/" by {
      assert a == prefix + "problems/" + (n + "/");
      assert url[..|a|] == a;
    }
  }

  /** Without `description`, `end` is -1, which `slice` reads as "all but the last character". */
  lemma GetNameWithoutDescription(url: string)
    requires !Contains(url, DescriptionMarker)
    requires |url| >= 1
    ensures GetName(url) == DropTrailingSlash(Slice(url, NameStart(url), |url| - 1))
  {
  }

  /** A start at or past the end gives the empty name. */
  lemma GetNameEmptyWhenStartNotBeforeEnd(url: string)
    requires SliceIndex(NameStart(url), |url|) >= SliceIndex(NameEnd(url), |url|)
    ensures GetName(url) == []
  {
  }
}
