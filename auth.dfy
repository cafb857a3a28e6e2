/**
 * Which Nextworld authentication server UpdateXrayTestsWithLatestStatus.py asks for tokens: the
 * one of a release pipeline when RELEASE_PIPELINE_ID is set, the production one otherwise.
 */
module Auth {
  import opened Wrappers

  /** The head and the tail both servers share: the token endpoint of an auth host under nextworld.net. */
  const AuthScheme: string := "https://auth"
  const TokensPath: string := "nextworld.net/v2/Authenticate/Tokens"

  /** `https://auth1.nextworld.net/v2/Authenticate/Tokens` */
  const DefaultAuthServer: string := AuthScheme + "1." + TokensPath
  /** `https://auth-nw` */
  const PipelineAuthPrefix: string := AuthScheme + "-nw"
  /** `dev.releasepipeline.nextworld.net/v2/Authenticate/Tokens` */
  const PipelineAuthSuffix: string := "dev.releasepipeline." + TokensPath

  /** The head and the tail of a three-part concatenation. */
  lemma Ends(a: string, b: string, c: string)
    ensures (a + b + c)[..|a|] == a
    ensures (a + b + c)[|a + b|..] == c
  {
  }

  /** `s.replace(".", "")`: the characters of s other than '.', in order. */
  function StripDots(s: string): (r: string)
    ensures '.' !in r
    ensures |r| <= |s|
  {
    if s == [] then ""
    else
      assert s == [s[0]] + s[1..];
      (if s[0] == '.' then "" else [s[0]]) + StripDots(s[1..])
  }

  /** Every character other than '.' is kept as often as it occurs; the dots all go. */
  lemma {:induction false} StripDotsCounts(s: string)
    ensures |StripDots(s)| == |s| - multiset(s)['.']
    ensures forall c :: multiset(StripDots(s))[c] == if c == '.' then 0 else multiset(s)[c]
  {
    if s != [] {
      assert s == [s[0]] + s[1..];
      StripDotsCounts(s[1..]);
      var head: string := if s[0] == '.' then "" else [s[0]];
      assert multiset(StripDots(s)) == multiset(head) + multiset(StripDots(s[1..]));
      assert multiset(s) == multiset([s[0]]) + multiset(s[1..]);
    }
  }

  /** A string without dots is left as it is. */
  lemma {:induction false} StripDotsFixpoint(s: string)
    requires '.' !in s
    ensures StripDots(s) == s
  {
    if s != [] {
      assert s[0] in s;
      assert forall c :: c in s[1..] ==> c in s;
      StripDotsFixpoint(s[1..]);
    }
  }

  /** Removing dots commutes with concatenation. */
  lemma {:induction false} StripDotsAppend(a: string, b: string)
    ensures StripDots(a + b) == StripDots(a) + StripDots(b)
  {
    if a != [] {
      var head: string := if a[0] == '.' then "" else [a[0]];
      assert (a + b)[0] == a[0];
      assert (a + b)[1..] == a[1..] + b;
      assert StripDots(a + b) == head + StripDots(a[1..] + b);
      assert StripDots(a) == head + StripDots(a[1..]);
      StripDotsAppend(a[1..], b);
      assert head + (StripDots(a[1..]) + StripDots(b)) == (head + StripDots(a[1..])) + StripDots(b);
    } else {
      assert a + b == b;
    }
  }

  /** Removing dots twice is removing them once. */
  lemma StripDotsIdempotent(s: string)
    ensures StripDots(StripDots(s)) == StripDots(s)
  {
    StripDotsFixpoint(StripDots(s));
  }

  /** `nextworldAuthServerURL`: a set, non-empty pipeline id picks that pipeline's server. */
  function AuthServerUrl(releaseId: Option<string>): (url: string)
    ensures |url| > |PipelineAuthPrefix| && |url| >= |TokensPath|
    ensures url[..|AuthScheme|] == AuthScheme
    ensures url[|url| - |TokensPath|..] == TokensPath
  {
    if releaseId.Some? && releaseId.value != "" then
      PipelineUrlEnds(StripDots(releaseId.value));
      PipelineAuthPrefix + StripDots(releaseId.value) + PipelineAuthSuffix
    else
      Ends(AuthScheme, "1.", TokensPath);
      DefaultAuthServer
  }

  /** A pipeline server's URL starts and ends like the production one. */
  lemma PipelineUrlEnds(host: string)
    ensures var url := PipelineAuthPrefix + host + PipelineAuthSuffix;
      url[..|AuthScheme|] == AuthScheme && url[|url| - |TokensPath|..] == TokensPath
  {
    Ends(AuthScheme, "-nw" + host + "dev.releasepipeline.", TokensPath);
    assert PipelineAuthPrefix + host + PipelineAuthSuffix ==
      AuthScheme + ("-nw" + host + "dev.releasepipeline.") + TokensPath;
  }

  /** The production server is used exactly when no pipeline id is set; an id made only of dots still picks a pipeline server. */
  lemma AuthServerUrlDefault(releaseId: Option<string>)
    ensures AuthServerUrl(releaseId) == DefaultAuthServer <==> releaseId.None? || releaseId.value == ""
  {
    var url := AuthServerUrl(releaseId);
    if releaseId.Some? && releaseId.value != "" {
      assert url[12] == '-';
      assert DefaultAuthServer[12] == '1';
    }
  }

  /** A pipeline server's host label is the id without its dots, between the fixed prefix and suffix. */
  lemma AuthServerUrlPipeline(id: string)
    requires id != ""
    ensures var url := AuthServerUrl(Some(id));
      |url| == |PipelineAuthPrefix| + |StripDots(id)| + |PipelineAuthSuffix| &&
      url[..|PipelineAuthPrefix|] == PipelineAuthPrefix &&
      url[|url| - |PipelineAuthSuffix|..] == PipelineAuthSuffix &&
      url[|PipelineAuthPrefix|..|url| - |PipelineAuthSuffix|] == StripDots(id) &&
      '.' !in url[|PipelineAuthPrefix|..|url| - |PipelineAuthSuffix|]
  {
    var url := AuthServerUrl(Some(id));
    assert url == PipelineAuthPrefix + StripDots(id) + PipelineAuthSuffix;
  }

  /** Two pipeline ids pick the same server exactly when they agree once their dots are removed. */
  lemma AuthServerUrlSame(a: string, b: string)
    requires a != "" && b != ""
    ensures AuthServerUrl(Some(a)) == AuthServerUrl(Some(b)) <==> StripDots(a) == StripDots(b)
  {
    AuthServerUrlPipeline(a);
    AuthServerUrlPipeline(b);
  }
}
