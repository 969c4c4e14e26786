/**
 Worked resolutions of concrete GuardDuty finding types. Each example is
 reduced to `LinkOfSplit` by naming the lower-cased type's parts; the facts
 about the literal strings are kept in small lemmas of their own so that each
 proof obligation stays cheap.
 */
module FindingLinkExamples {
  import opened Wrappers
  import opened FindingLink

  /** Resolution of a type whose lower-cased form is pre + ":" + category + "/" + post, with no match in `pre`. */
  lemma ResolveByParts(findingType: string, pre: string, category: string, post: string)
    requires ToLower(findingType) == pre + ":" + category + "/" + post
    requires NoMatch(pre)
    requires AllWord(category)
    ensures var group := if category == "iamuser" then "iam" else category;
      ResolveLink(findingType)
        == if category in KnownCategories
           then BaseUrl + (group + ".html#" + pre + "-" + group + "-" + post)
           else ""
  {
    LinkOfSplit(pre, category, post);
  }

  lemma LowerSshBruteForce()
    ensures ToLower("UnauthorizedAccess:EC2/SSHBruteForce") == "unauthorizedaccess:ec2/sshbruteforce"
  {
  }

  lemma PartsSshBruteForce()
    ensures "unauthorizedaccess:ec2/sshbruteforce" == "unauthorizedaccess" + ":" + "ec2" + "/" + "sshbruteforce"
  {
  }

  lemma AnchorSshBruteForce()
    ensures "ec2" + ".html#" + "unauthorizedaccess" + "-" + "ec2" + "-" + "sshbruteforce"
      == "ec2.html#unauthorizedaccess-ec2-sshbruteforce"
  {
  }

  /** The EC2 SSH brute-force finding links to the EC2 page, anchored at its lower-cased name. */
  lemma ExampleSshBruteForce()
    ensures ResolveLink("UnauthorizedAccess:EC2/SSHBruteForce")
      == BaseUrl + "ec2.html#unauthorizedaccess-ec2-sshbruteforce"
  {
    LowerSshBruteForce();
    PartsSshBruteForce();
    AnchorSshBruteForce();
    NoColonNoMatch("unauthorizedaccess");
    ResolveByParts("UnauthorizedAccess:EC2/SSHBruteForce", "unauthorizedaccess", "ec2", "sshbruteforce");
  }

  lemma LowerMaliciousIpCaller()
    ensures ToLower("Recon:IAMUser/MaliciousIPCaller") == "recon:iamuser/maliciousipcaller"
  {
  }

  lemma PartsMaliciousIpCaller()
    ensures "recon:iamuser/maliciousipcaller" == "recon" + ":" + "iamuser" + "/" + "maliciousipcaller"
  {
  }

  lemma AnchorMaliciousIpCaller()
    ensures "iam" + ".html#" + "recon" + "-" + "iam" + "-" + "maliciousipcaller"
      == "iam.html#recon-iam-maliciousipcaller"
  {
  }

  /** IAM user findings use the "iam" page, and the anchor says "-iam-" too. */
  lemma ExampleIamUser()
    ensures ResolveLink("Recon:IAMUser/MaliciousIPCaller")
      == BaseUrl + "iam.html#recon-iam-maliciousipcaller"
  {
    LowerMaliciousIpCaller();
    PartsMaliciousIpCaller();
    AnchorMaliciousIpCaller();
    NoColonNoMatch("recon");
    ResolveByParts("Recon:IAMUser/MaliciousIPCaller", "recon", "iamuser", "maliciousipcaller");
  }

  lemma LowerFoo()
    ensures ToLower("Foo") == "foo"
  {
  }

  /** A type without the ":category/" shape resolves to "". */
  lemma ExampleNoCategory()
    ensures ResolveLink("Foo") == ""
  {
    LowerFoo();
    NoColonNoMatch("foo");
  }

  lemma LowerUnknownService()
    ensures ToLower("Persistence:UnknownService/Weird") == "persistence:unknownservice/weird"
  {
  }

  lemma PartsUnknownService()
    ensures "persistence:unknownservice/weird" == "persistence" + ":" + "unknownservice" + "/" + "weird"
  {
  }

  lemma UnknownServiceNotKnown()
    ensures "unknownservice" !in KnownCategories
  {
  }

  /** A category outside the table resolves to "" rather than to a guessed page. */
  lemma ExampleUnknownCategory()
    ensures ResolveLink("Persistence:UnknownService/Weird") == ""
  {
    LowerUnknownService();
    PartsUnknownService();
    UnknownServiceNotKnown();
    NoColonNoMatch("persistence");
    ResolveByParts("Persistence:UnknownService/Weird", "persistence", "unknownservice", "weird");
  }

  lemma LowerEmptyCategory()
    ensures ToLower("Odd:/Thing") == "odd" + ":" + "" + "/" + "thing"
  {
  }

  lemma EmptyNotKnown()
    ensures "" !in KnownCategories
  {
  }

  /** An empty category is captured as "" and is unknown. */
  lemma ExampleEmptyCategory()
    ensures ResolveLink("Odd:/Thing") == ""
  {
    LowerEmptyCategory();
    EmptyNotKnown();
    NoColonNoMatch("odd");
    ResolveByParts("Odd:/Thing", "odd", "", "thing");
  }

  lemma LowerOnlyFirstReplaced()
    ensures ToLower("X:EC2/Y:S3/Z") == "x" + ":" + "ec2" + "/" + "y:s3/z"
  {
  }

  lemma AnchorOnlyFirstReplaced()
    ensures "ec2" + ".html#" + "x" + "-" + "ec2" + "-" + "y:s3/z" == "ec2.html#x-ec2-y:s3/z"
  {
  }

  /** Only the leftmost ":category/" is rewritten; a later one stays in the anchor. */
  lemma ExampleOnlyFirstReplaced()
    ensures ResolveLink("X:EC2/Y:S3/Z") == BaseUrl + "ec2.html#x-ec2-y:s3/z"
  {
    LowerOnlyFirstReplaced();
    AnchorOnlyFirstReplaced();
    NoColonNoMatch("x");
    ResolveByParts("X:EC2/Y:S3/Z", "x", "ec2", "y:s3/z");
  }

  lemma LowerFirstColonSkipped()
    ensures ToLower("A:B-C/X:EC2/Y") == "a:b-c/x" + ":" + "ec2" + "/" + "y"
  {
  }

  lemma NoMatchBeforeSecondColon()
    ensures NoMatch("a:b-c/x")
  {
    assert LeftmostMatch("a:b-c/x") == None;
  }

  lemma AnchorFirstColonSkipped()
    ensures "ec2" + ".html#" + "a:b-c/x" + "-" + "ec2" + "-" + "y" == "ec2.html#a:b-c/x-ec2-y"
  {
  }

  /**
   The match is not simply "from the first ':' to the next '/'": a ':' whose
   run of word characters ends in anything but '/' is skipped, and a later
   ':' may still match.
   */
  lemma ExampleFirstColonSkipped()
    ensures ResolveLink("A:B-C/X:EC2/Y") == BaseUrl + "ec2.html#a:b-c/x-ec2-y"
  {
    LowerFirstColonSkipped();
    AnchorFirstColonSkipped();
    NoMatchBeforeSecondColon();
    ResolveByParts("A:B-C/X:EC2/Y", "a:b-c/x", "ec2", "y");
  }
}
