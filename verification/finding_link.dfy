/**
 Finding-link resolver: turns a GuardDuty finding type such as
 "UnauthorizedAccess:EC2/SSHBruteForce" into the URL of its page in the
 GuardDuty documentation, or into "" when the type cannot be resolved.

 The source lower-cases the type and searches it with the pattern
 `(?::)([\w]*?)(?:/)`. Here that pattern is replaced by an explicit
 description (`MatchAt`, `IsLeftmostMatch`) and an explicit scanner
 (`FindMatchFrom`) proved to find exactly the described match. The model is
 restricted to ASCII: only 'A'..'Z' are lower-cased and the word characters
 are [A-Za-z0-9_].
 */
module FindingLink {
  import opened Wrappers

  /**
   Every resolved link starts with this documentation prefix,
   "https://docs.aws.amazon.com/guardduty/latest/ug/guardduty_finding-types-",
   written in three parts so that facts about it stay cheap to prove.
   */
  const DocsHost := "https://docs.aws.amazon.com/"
  const GuardDutyGuide := "guardduty/latest/ug/"
  const FindingTypesPage := "guardduty_finding-types-"
  const BaseUrl := DocsHost + GuardDutyGuide + FindingTypesPage

  predicate IsUpper(c: char) {
    'A' <= c <= 'Z'
  }

  /** True when no character of `s` is an upper-case ASCII letter. */
  predicate NoUpper(s: string) {
    forall i :: 0 <= i < |s| ==> !IsUpper(s[i])
  }

  lemma NoUpperConcat(a: string, b: string)
    requires NoUpper(a) && NoUpper(b)
    ensures NoUpper(a + b)
  {
  }

  /** ASCII lower-casing of one character; every other character is kept. */
  function LowerChar(c: char): (d: char)
    ensures !IsUpper(d)
    ensures !IsUpper(c) ==> d == c
    ensures IsUpper(c) ==> 'a' <= d <= 'z' && d as int - c as int == 'a' as int - 'A' as int
  {
    if IsUpper(c) then (c as int - 'A' as int + 'a' as int) as char else c
  }

  /** Lower-cases a whole string, character by character. */
  function ToLower(s: string): (r: string)
    ensures |r| == |s|
    ensures NoUpper(r)
    ensures forall i :: 0 <= i < |s| ==> r[i] == LowerChar(s[i])
  {
    seq(|s|, i requires 0 <= i < |s| => LowerChar(s[i]))
  }

  /** Lower-casing an already lower-cased string changes nothing. */
  lemma ToLowerIdempotent(s: string)
    ensures ToLower(ToLower(s)) == ToLower(s)
  {
  }

  /** The regex class `\w`, restricted to ASCII. */
  predicate IsWordChar(c: char) {
    ('a' <= c <= 'z') || ('A' <= c <= 'Z') || ('0' <= c <= '9') || c == '_'
  }

  /**
   The pattern matches `s[colon..slash + 1]`: a ':' at `colon`, a '/' at
   `slash`, and only word characters strictly between them.
   */
  ghost predicate MatchAt(s: string, colon: int, slash: int) {
    && 0 <= colon < slash < |s|
    && s[colon] == ':'
    && s[slash] == '/'
    && forall k :: colon < k < slash ==> IsWordChar(s[k])
  }

  /** The pattern does not match anywhere in `s`. */
  ghost predicate NoMatch(s: string) {
    forall c, j :: !MatchAt(s, c, j)
  }

  /** The match the regex engine reports: no match starts further left. */
  ghost predicate IsLeftmostMatch(s: string, colon: int, slash: int) {
    && MatchAt(s, colon, slash)
    && forall c, j :: c < colon ==> !MatchAt(s, c, j)
  }

  /**
   A ':' determines its match: since '/' is not a word character, the lazy
   `[\w]*?` can only stop at the first non-word character after the ':'.
   */
  lemma MatchEndUnique(s: string, colon: int, j1: int, j2: int)
    requires MatchAt(s, colon, j1) && MatchAt(s, colon, j2)
    ensures j1 == j2
  {
    assert !IsWordChar(s[j1]) && !IsWordChar(s[j2]);
  }

  /** Position of the match found by the scanner: the ':' and the '/'. */
  datatype Match = Match(colon: nat, slash: nat)

  /** End of the run of word characters starting at `k`: the first non-word position, or |s|. */
  function WordRunEnd(s: string, k: nat): (e: nat)
    requires k <= |s|
    ensures k <= e <= |s|
    ensures forall m :: k <= m < e ==> IsWordChar(s[m])
    ensures e < |s| ==> !IsWordChar(s[e])
    decreases |s| - k
  {
    if k < |s| && IsWordChar(s[k]) then WordRunEnd(s, k + 1) else k
  }

  /** A ':' at `i` starts a match exactly when its run of word characters is closed by a '/'. */
  lemma ColonMatchIff(s: string, i: nat)
    requires i < |s|
    ensures forall j :: MatchAt(s, i, j) <==>
      (s[i] == ':' && j == WordRunEnd(s, i + 1) && j < |s| && s[j] == '/')
  {
    var e := WordRunEnd(s, i + 1);
    forall j | MatchAt(s, i, j)
      ensures j == e
    {
      assert !IsWordChar(s[j]);
    }
  }

  /** Scans `s` from position `i` for the leftmost match of the pattern. */
  function FindMatchFrom(s: string, i: nat): (m: Option<Match>)
    requires i <= |s|
    ensures m.Some? ==> i <= m.value.colon && MatchAt(s, m.value.colon, m.value.slash)
    ensures m.Some? ==> forall c, j :: i <= c < m.value.colon ==> !MatchAt(s, c, j)
    ensures m.None? ==> forall c, j :: i <= c ==> !MatchAt(s, c, j)
    decreases |s| - i
  {
    if i == |s| then None
    else
      ColonMatchIff(s, i);
      if s[i] == ':' && WordRunEnd(s, i + 1) < |s| && s[WordRunEnd(s, i + 1)] == '/' then
        Some(Match(i, WordRunEnd(s, i + 1)))
      else
        FindMatchFrom(s, i + 1)
  }

  /** The match `captures` and `replace` both use: the leftmost one, if any. */
  function LeftmostMatch(s: string): (m: Option<Match>)
    ensures m.None? <==> NoMatch(s)
    ensures m.Some? ==> IsLeftmostMatch(s, m.value.colon, m.value.slash)
  {
    FindMatchFrom(s, 0)
  }

  /** The leftmost match is unique, and it is the one the scanner returns. */
  lemma LeftmostMatchFound(s: string, c: int, j: int)
    requires IsLeftmostMatch(s, c, j)
    ensures LeftmostMatch(s) == Some(Match(c, j))
  {
    var m := LeftmostMatch(s).value;
    assert !(m.colon < c);
    assert !(c < m.colon);
    MatchEndUnique(s, c, j, m.slash);
  }

  lemma LeftmostMatchFoundAll(s: string)
    ensures forall c, j :: IsLeftmostMatch(s, c, j) ==> LeftmostMatch(s) == Some(Match(c, j))
  {
    forall c, j | IsLeftmostMatch(s, c, j)
      ensures LeftmostMatch(s) == Some(Match(c, j))
    {
      LeftmostMatchFound(s, c, j);
    }
  }

  /** The finding categories the documentation is known to have a page for. */
  const KnownCategories: set<string> := {"iamuser", "ec2", "s3", "kubernetes"}

  /**
   The closed category table. IAM user findings live on the "iam" page, the
   other known categories on a page of their own name; any other category is
   refused rather than guessed.
   */
  function GroupOf(category: string): (g: Option<string>)
    ensures g.Some? <==> category in KnownCategories
    ensures g.Some? ==> NoUpper(g.value) && |g.value| > 0
    ensures g.Some? ==> g.value == if category == "iamuser" then "iam" else category
  {
    if category == "iamuser" then Some("iam")
    else if category == "ec2" then Some("ec2")
    else if category == "s3" then Some("s3")
    else if category == "kubernetes" then Some("kubernetes")
    else None
  }

  /**
   The documentation link for an already lower-cased finding type, "" when it
   cannot be resolved. With `lower[c..j + 1]` the leftmost ":category/" match,
   the anchor is `lower` with that match (and only that one) replaced by
   "-group-".
   */
  function LinkOfLower(lower: string): (link: string)
    ensures NoMatch(lower) ==> link == ""
    ensures forall c, j :: IsLeftmostMatch(lower, c, j) && lower[c + 1..j] !in KnownCategories ==> link == ""
    ensures forall c, j :: IsLeftmostMatch(lower, c, j) && lower[c + 1..j] in KnownCategories ==>
      var group := if lower[c + 1..j] == "iamuser" then "iam" else lower[c + 1..j];
      link == BaseUrl + group + ".html#" + lower[..c] + "-" + group + "-" + lower[j + 1..]
  {
    LeftmostMatchFoundAll(lower);
    match LeftmostMatch(lower)
    case None => ""
    case Some(m) =>
      match GroupOf(lower[m.colon + 1..m.slash])
      case None => ""
      case Some(group) =>
        var anchor := lower[..m.colon] + "-" + group + "-" + lower[m.slash + 1..];
        BaseUrl + group + ".html#" + anchor
  }

  /**
   The documentation link for a finding type: the type is lower-cased first,
   so case never matters, and an unmatched type gives "".
   */
  function ResolveLink(findingType: string): (link: string)
    ensures NoMatch(ToLower(findingType)) ==> link == ""
    ensures link == "" || BaseUrl <= link
  {
    LinkOfLower(ToLower(findingType))
  }

  /** The resolver ignores case: resolving the lower-cased type gives the same link. */
  lemma ResolveLinkCaseInsensitive(findingType: string)
    ensures ResolveLink(findingType) == ResolveLink(ToLower(findingType))
  {
    ToLowerIdempotent(findingType);
  }

  /** A link is either "" or a documentation URL, and it never contains an upper-case letter. */
  lemma ResolveLinkShape(findingType: string)
    ensures var link := ResolveLink(findingType);
      (link == "" || BaseUrl <= link) && NoUpper(link)
  {
    var lower := ToLower(findingType);
    match LeftmostMatch(lower)
    case None =>
    case Some(m) =>
      match GroupOf(lower[m.colon + 1..m.slash])
      case None =>
      case Some(group) =>
        var anchor := lower[..m.colon] + "-" + group + "-" + lower[m.slash + 1..];
        NoUpperConcat(lower[..m.colon], "-");
        NoUpperConcat(lower[..m.colon] + "-", group);
        NoUpperConcat(lower[..m.colon] + "-" + group, "-");
        NoUpperConcat(lower[..m.colon] + "-" + group + "-", lower[m.slash + 1..]);
        BaseUrlNoUpper();
        NoUpperConcat(BaseUrl, group);
        NoUpperConcat(BaseUrl + group, ".html#");
        NoUpperConcat(BaseUrl + group + ".html#", anchor);
  }

  /** True when every character of `s` is a word character. */
  predicate AllWord(s: string) {
    forall k :: 0 <= k < |s| ==> IsWordChar(s[k])
  }

  /** Without a ':' the pattern cannot match. */
  lemma NoColonNoMatch(s: string)
    requires ':' !in s
    ensures NoMatch(s)
  {
  }

  /** A match starting before a ':' ends before it: the ':' closes the run of word characters. */
  lemma MatchBeforeColon(pre: string, rest: string, c: int, j: int)
    requires |rest| > 0 && rest[0] == ':'
    requires c < |pre| && MatchAt(pre + rest, c, j)
    ensures MatchAt(pre, c, j)
  {
    var s := pre + rest;
    assert !IsWordChar(s[|pre|]);
    forall k | c < k < j
      ensures IsWordChar(pre[k])
    {
      assert s[k] == pre[k];
    }
  }

  /**
   In pre + ":" + category + "/" + post, where the pattern does not match
   inside `pre` and `category` is a run of word characters, the leftmost match
   is the ":category/" right after `pre`, so `category` is the captured group.
   */
  lemma CaptureOfSplit(pre: string, category: string, post: string)
    requires NoMatch(pre)
    requires AllWord(category)
    ensures IsLeftmostMatch(pre + ":" + category + "/" + post, |pre|, |pre| + 1 + |category|)
  {
    var lower := pre + ":" + category + "/" + post;
    var c, j := |pre|, |pre| + 1 + |category|;
    assert MatchAt(lower, c, j);
    assert lower == pre + (":" + category + "/" + post);
    forall c', j' | c' < c && MatchAt(lower, c', j')
      ensures MatchAt(pre, c', j')
    {
      MatchBeforeColon(pre, ":" + category + "/" + post, c', j');
    }
  }

  /**
   Resolution of a lower-cased type of the shape pre + ":" + category + "/" + post
   (as in `CaptureOfSplit`): the link is built from `category`, or is "" when
   the category is not in the table.
   */
  lemma LinkOfSplit(pre: string, category: string, post: string)
    requires NoMatch(pre)
    requires AllWord(category)
    ensures var group := if category == "iamuser" then "iam" else category;
      LinkOfLower(pre + ":" + category + "/" + post)
        == if category in KnownCategories
           then BaseUrl + (group + ".html#" + pre + "-" + group + "-" + post)
           else ""
  {
    var lower := pre + ":" + category + "/" + post;
    var c, j := |pre|, |pre| + 1 + |category|;
    CaptureOfSplit(pre, category, post);
    LeftmostMatchFound(lower, c, j);
    assert lower[c + 1..j] == category;
    assert lower[..c] == pre;
    assert lower[j + 1..] == post;
    var group := if category == "iamuser" then "iam" else category;
    assert BaseUrl + group + ".html#" + pre + "-" + group + "-" + post
      == BaseUrl + (group + ".html#" + pre + "-" + group + "-" + post);
  }

  /** The documentation prefix is lower-case. */
  lemma BaseUrlNoUpper()
    ensures NoUpper(BaseUrl)
  {
    assert NoUpper(DocsHost);
    assert NoUpper(GuardDutyGuide);
    assert NoUpper(FindingTypesPage);
    NoUpperConcat(DocsHost, GuardDutyGuide);
    NoUpperConcat(DocsHost + GuardDutyGuide, FindingTypesPage);
  }
}
