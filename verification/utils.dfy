/** The string helpers of `jContainer.helper.Utils`: request and link
    parsing, link classification and output normalisation. */
module Utils {
  import opened Wrappers
  import opened Text

  /** Java's `\s` character class: space, tab, line feed, vertical tab,
      form feed, carriage return. */
  predicate IsRegexSpace(c: char) {
    c == ' ' || c == '\t' || c == '\n' || c as int == 11 || c as int == 12 || c == '\r'
  }

  /** What `replaceAll("\\s", "")` keeps. */
  predicate IsNotRegexSpace(c: char) {
    !IsRegexSpace(c)
  }

  predicate IsAsciiLetter(c: char) {
    'A' <= c <= 'Z' || 'a' <= c <= 'z'
  }

  /** `checkForLinebreak`: a text holding a line feed loses every whitespace
      character; any other text is returned as it is. */
  function CheckForLinebreak(s: string): (r: string)
    ensures '\n' !in s ==> r == s
    ensures '\n' in s ==> forall i :: 0 <= i < |r| ==> !IsRegexSpace(r[i])
    ensures Subsequence(r, s)
    ensures forall c :: !IsRegexSpace(c) ==> multiset(r)[c] == multiset(s)[c]
  {
    if '\n' in s then Filter(s, IsNotRegexSpace)
    else SubsequenceReflexive(s); s
  }

  lemma CheckForLinebreakIdempotent(s: string)
    ensures CheckForLinebreak(CheckForLinebreak(s)) == CheckForLinebreak(s)
  {
    var r := CheckForLinebreak(s);
    assert '\n' !in r by {
      if '\n' in s {
        assert forall i :: 0 <= i < |r| ==> r[i] != '\n';
      }
    }
  }

  /** Removing whitespace from a text of letters changes nothing. */
  lemma LettersHoldNoSpace(letters: string)
    requires forall i :: 0 <= i < |letters| ==> IsAsciiLetter(letters[i])
    ensures Filter(letters, IsNotRegexSpace) == letters
  {
    FilterKeepsAll(letters, IsNotRegexSpace);
  }

  /** `checkForSpecialCharacter`: a non-empty text keeps exactly its ASCII
      letters, in order; the empty text stays empty. */
  function CheckForSpecialCharacter(s: string): (r: string)
    ensures s == [] ==> r == []
    ensures forall i :: 0 <= i < |r| ==> IsAsciiLetter(r[i])
    ensures Subsequence(r, s)
    ensures forall c :: IsAsciiLetter(c) ==> multiset(r)[c] == multiset(s)[c]
  {
    if |s| == 0 then s
    else
      var letters := Filter(s, IsAsciiLetter);
      LettersHoldNoSpace(letters);
      Filter(letters, IsNotRegexSpace)
  }

  lemma CheckForSpecialCharacterIdempotent(s: string)
    ensures CheckForSpecialCharacter(CheckForSpecialCharacter(s)) == CheckForSpecialCharacter(s)
  {
    var r := CheckForSpecialCharacter(s);
    assert forall i :: 0 <= i < |r| ==> IsAsciiLetter(r[i]) && !IsRegexSpace(r[i]);
    if r != [] {
      FilterKeepsAll(r, IsAsciiLetter);
      FilterKeepsAll(r, IsNotRegexSpace);
    }
  }

  /** `getFunctionNameFromDockerhubLink`: the tag after the last `:`, or the
      whole link when it has none. */
  function GetFunctionNameFromDockerhubLink(link: string): (r: string)
    ensures |r| <= |link| && r == link[|link| - |r|..]
    ensures ':' !in r
    ensures ':' !in link ==> r == link
    ensures ':' in link ==> |r| < |link| && link[|link| - |r| - 1] == ':'
  {
    if |link| == 0 then link else link[LastIndexOf(link, ':') + 1..]
  }

  /** `getFunctionNameFromAwsEcrLink` splits an ECR link the same way. */
  function GetFunctionNameFromAwsEcrLink(link: string): (r: string)
    ensures r == GetFunctionNameFromDockerhubLink(link)
  {
    if |link| == 0 then link else link[LastIndexOf(link, ':') + 1..]
  }

  /** `getImageNameWithoutTagFromDockerhubLink`: the part before the last
      `:`; a non-empty link without `:` makes `substring(0, -1)` throw. */
  function GetImageNameWithoutTagFromDockerhubLink(link: string): (r: Result<string>)
    ensures link == [] ==> r == Ok([])
    ensures link != [] && ':' !in link ==> r == Err(IndexOutOfBounds)
    ensures ':' in link ==> r.Ok? && r.value <= link && |r.value| < |link| && link[|r.value|] == ':'
  {
    if |link| == 0 then Ok(link) else Substring(link, 0, LastIndexOf(link, ':'))
  }

  /** A tagged link splits at its last `:` into image name and tag, which
      join back to the link. */
  lemma DockerhubLinkRoundTrip(link: string)
    requires ':' in link
    ensures GetImageNameWithoutTagFromDockerhubLink(link).Ok?
    ensures GetImageNameWithoutTagFromDockerhubLink(link).value + ":" + GetFunctionNameFromDockerhubLink(link) == link
    ensures ':' !in GetFunctionNameFromDockerhubLink(link)
  {
    var i := LastIndexOf(link, ':');
    assert link == link[..i] + [':'] + link[i + 1..];
  }

  /** Building a link from an image name and a tag without `:` and splitting
      it gives both parts back. */
  lemma DockerhubLinkFromParts(image: string, tag: string)
    requires ':' !in tag
    ensures GetImageNameWithoutTagFromDockerhubLink(image + ":" + tag) == Ok(image)
    ensures GetFunctionNameFromDockerhubLink(image + ":" + tag) == tag
  {
    var link := image + ":" + tag;
    assert link == image + [':'] + tag;
    LastIndexOfBeforeSuffix(image, ':', tag);
    assert link[..|image|] == image;
    assert link[|image| + 1..] == tag;
  }

  /** `extractResourceLinkForFunction`: the text strictly between the first
      and the last `_`; a non-empty input needs two distinct `_`, otherwise
      `substring` throws. */
  function ExtractResourceLinkForFunction(s: string): (r: Result<string>)
    ensures s == [] ==> r == Ok([])
    ensures s != [] ==>
      (r.Ok? <==> exists i, j :: 0 <= i < j < |s| && s[i] == '_' && s[j] == '_')
  {
    if |s| == 0 then Ok(s)
    else
      var first := IndexOf(s, '_');
      var last := LastIndexOf(s, '_');
      assert first >= 0 ==> first <= last;
      Substring(s, first + 1, last)
  }

  /** The extracted link is the text between the first and the last `_`. */
  lemma ResourceLinkBetween(s: string)
    requires 0 <= IndexOf(s, '_') < LastIndexOf(s, '_')
    ensures ExtractResourceLinkForFunction(s) == Ok(s[IndexOf(s, '_') + 1..LastIndexOf(s, '_')])
  {
  }

  /** An input `x_m_y` whose outer parts hold no `_` yields `m`. */
  lemma ResourceLinkBetweenUnderscores(x: string, m: string, y: string)
    requires '_' !in x && '_' !in y
    ensures ExtractResourceLinkForFunction(x + "_" + m + "_" + y) == Ok(m)
  {
    var s := x + "_" + m + "_" + y;
    UnderscoreShapes(x, m, y);
    IndexOfAfterPrefix(x, '_', m + "_" + y);
    LastIndexOfBeforeSuffix(x + "_" + m, '_', y);
    ResourceLinkBetween(s);
  }

  /** `x_m_y` read as `x` before its first `_`, as `x_m` before its last
      `_`, and with `m` between the two. */
  lemma UnderscoreShapes(x: string, m: string, y: string)
    ensures var s := x + "_" + m + "_" + y;
      s == x + ['_'] + (m + "_" + y) && s == (x + "_" + m) + ['_'] + y &&
      s[|x| + 1..|x| + 1 + |m|] == m
  {
    var s := x + "_" + m + "_" + y;
    assert s[|x| + 1..|x| + 1 + |m|] == m;
    assert s == x + ['_'] + (m + "_" + y);
  }

  /** `isDockerhubRepoLink`: the link holds both `:` and `/`. */
  predicate IsDockerhubRepoLink(link: string) {
    ':' in link && '/' in link
  }

  /** `isAwsEcrRepoLink`: the link holds both `.dkr.ecr.` and `.amazonaws.com/`. */
  predicate IsAwsEcrRepoLink(link: string) {
    Contains(link, ".dkr.ecr.") && Contains(link, ".amazonaws.com/")
  }

  /** Every tagged ECR link is also shaped like a Docker Hub link. */
  lemma EcrLinkIsDockerhubShaped(link: string)
    requires IsAwsEcrRepoLink(link) && ':' in link
    ensures IsDockerhubRepoLink(link)
  {
    assert '/' in ".amazonaws.com/";
    ContainsChar(link, ".amazonaws.com/", '/');
  }

  /** `isNullOrEmpty`: unset, or nothing left after `trim`. */
  predicate IsNullOrEmpty(input: Option<string>) {
    input.None? || Trim(input.value) == []
  }

  lemma IsNullOrEmptyMeansBlank(s: string)
    ensures IsNullOrEmpty(Some(s)) <==> forall i :: 0 <= i < |s| ==> s[i] <= ' '
  {
    TrimEmpty(s);
  }

  /** `extractJDKVersionFromFunction`: the text after the first `:`, `"8"`
      for a non-empty request without `:`, the empty text for the empty
      request. */
  function ExtractJdkVersionFromFunction(request: string): (r: string)
    ensures request == [] ==> r == []
    ensures request != [] && ':' !in request ==> r == "8"
    ensures ':' in request ==>
      |r| < |request| && r == request[|request| - |r|..] &&
      request[|request| - |r| - 1] == ':' && ':' !in request[..|request| - |r| - 1]
  {
    if |request| == 0 then request
    else if ':' in request then
      var i := IndexOf(request, ':');
      assert request[..i] == request[..|request| - |request[i + 1..]| - 1];
      request[i + 1..]
    else "8"
  }

  /** `extractFunctionNameFromFunction`: the text before the first `:`; a
      non-empty request without `:` makes `substring(0, -1)` throw. */
  function ExtractFunctionNameFromFunction(request: string): (r: Result<string>)
    ensures request == [] ==> r == Ok([])
    ensures request != [] && ':' !in request ==> r == Err(IndexOutOfBounds)
    ensures ':' in request ==>
      r.Ok? && r.value <= request && ':' !in r.value && |r.value| < |request| && request[|r.value|] == ':'
  {
    if |request| == 0 then Ok(request) else Substring(request, 0, IndexOf(request, ':'))
  }

  /** A `name:version` request splits at its first `:` into parts that join
      back to the request. */
  lemma FunctionRequestRoundTrip(request: string)
    requires ':' in request
    ensures ExtractFunctionNameFromFunction(request).Ok?
    ensures ExtractFunctionNameFromFunction(request).value + ":" + ExtractJdkVersionFromFunction(request) == request
  {
    var i := IndexOf(request, ':');
    assert request == request[..i] + [':'] + request[i + 1..];
  }

  /** Building a request from a name without `:` and any version and
      splitting it gives both parts back. */
  lemma FunctionRequestFromParts(name: string, version: string)
    requires ':' !in name
    ensures ExtractFunctionNameFromFunction(name + ":" + version) == Ok(name)
    ensures ExtractJdkVersionFromFunction(name + ":" + version) == version
  {
    var request := name + ":" + version;
    assert request == name + [':'] + version;
    IndexOfAfterPrefix(name, ':', version);
    assert request[..|name|] == name;
    assert request[|name| + 1..] == version;
  }
}
