/** `types/name.go` and `types/siginfo.go`: classifying a verified signature and printing its name. */
module Naming {
  import opened Wrappers
  import opened Text

  // ---- Data ----

  type Kind = int

  const DOCKER_GITHUB_BUILDER: Kind := 1
  const DOCKER_HARDENED_IMAGE: Kind := 2
  const SELF_SIGNED_GITHUB_REPO: Kind := 3
  const SELF_SIGNED: Kind := 4
  const UNTRUSTED: Kind := 1000

  const BUNDLE_V03 := 1
  const SIMPLE_SIGNING_V1 := 2

  const GITHUB_PREFIX := "https://github.com/"
  const WORKFLOWS := "/.github/workflows/"
  const BUILDER_REPO := "https://github.com/docker/github-builder"
  const BUILDER_REPO_EXPERIMENTAL := "https://github.com/docker/github-builder-experimental"
  const BUILDER_URI := BUILDER_REPO + WORKFLOWS
  const BUILDER_URI_EXPERIMENTAL := BUILDER_REPO_EXPERIMENTAL + WORKFLOWS

  const GITHUB_ISSUER := "https://token.actions.githubusercontent.com"
  const GOOGLE_USER_ISSUER := "https://accounts.google.com"
  const GITHUB_USER_ISSUER := "https://github.com/login/oauth"
  const SIGSTORE_ISSUER := "CN=sigstore-intermediate,O=sigstore.dev"
  const GITHUB_HOSTED := "github-hosted"

  /** The certificate fields that classification and naming read. */
  datatype Signer = Signer(
    certificateIssuer: string,
    subjectAlternativeName: string,
    issuer: string,
    buildSignerURI: string,
    sourceRepositoryURI: string,
    sourceRepositoryRef: string,
    runnerEnvironment: string)

  datatype Timestamp = Timestamp(source: string, uri: string, time: int)

  datatype SignatureInfo = SignatureInfo(
    kind: Kind,
    signatureType: int,
    signer: Option<Signer>,
    timestamps: seq<Timestamp>,
    dockerReference: string,
    isDHI: bool)

  // ---- Classification ----

  function KindString(k: Kind): string {
    if k == DOCKER_GITHUB_BUILDER then "Docker GitHub Builder"
    else if k == DOCKER_HARDENED_IMAGE then "Docker Hardened Image"
    else if k == SELF_SIGNED_GITHUB_REPO then "GitHub Self-Signed"
    else if k == SELF_SIGNED then "Self-Signed"
    else if k == UNTRUSTED then "Untrusted"
    else "Invalid"
  }

  predicate IsHardened(s: SignatureInfo) {
    s.isDHI && s.dockerReference != ""
  }

  predicate HasBuilderPrefix(uri: string) {
    HasPrefix(uri, BUILDER_URI) || HasPrefix(uri, BUILDER_URI_EXPERIMENTAL)
  }

  predicate IsGithubBuilder(s: SignatureInfo) {
    s.signer.Some? &&
    var signer := s.signer.value;
    && signer.certificateIssuer == SIGSTORE_ISSUER
    && HasBuilderPrefix(signer.buildSignerURI)
    && HasBuilderPrefix(signer.subjectAlternativeName)
    && signer.issuer == GITHUB_ISSUER
    && HasPrefix(signer.sourceRepositoryURI, GITHUB_PREFIX)
    && signer.runnerEnvironment == GITHUB_HOSTED
    && |s.timestamps| != 0
    && s.signatureType == BUNDLE_V03
  }

  predicate IsGithubSelfSigned(s: SignatureInfo) {
    s.signer.Some? &&
    var signer := s.signer.value;
    var prefix := signer.sourceRepositoryURI + WORKFLOWS;
    && signer.certificateIssuer == SIGSTORE_ISSUER
    && signer.issuer == GITHUB_ISSUER
    && HasPrefix(signer.sourceRepositoryURI, GITHUB_PREFIX)
    && HasPrefix(signer.buildSignerURI, prefix)
    && HasPrefix(signer.subjectAlternativeName, prefix)
    && signer.runnerEnvironment == GITHUB_HOSTED
  }

  predicate IsSelfSigned(s: SignatureInfo) {
    s.signer.Some? && s.signer.value.certificateIssuer == SIGSTORE_ISSUER
  }

  function DetectKind(s: SignatureInfo): Kind {
    if IsHardened(s) then DOCKER_HARDENED_IMAGE
    else if IsGithubBuilder(s) then DOCKER_GITHUB_BUILDER
    else if IsGithubSelfSigned(s) then SELF_SIGNED_GITHUB_REPO
    else if IsSelfSigned(s) then SELF_SIGNED
    else UNTRUSTED
  }

  /** `DetectKind` with its two GitHub tests exchanged. */
  function DetectKindSwapped(s: SignatureInfo): Kind {
    if IsHardened(s) then DOCKER_HARDENED_IMAGE
    else if IsGithubSelfSigned(s) then SELF_SIGNED_GITHUB_REPO
    else if IsGithubBuilder(s) then DOCKER_GITHUB_BUILDER
    else if IsSelfSigned(s) then SELF_SIGNED
    else UNTRUSTED
  }

  // ---- What each kind certifies ----

  predicate UnderBuilder(uri: string) {
    || "https://github.com/docker/github-builder/.github/workflows/" <= uri
    || "https://github.com/docker/github-builder-experimental/.github/workflows/" <= uri
  }

  /** A certificate that Sigstore issued to a workflow on a runner hosted by GitHub, of a GitHub repository. */
  predicate FromHostedWorkflow(signer: Signer) {
    && signer.certificateIssuer == "CN=sigstore-intermediate,O=sigstore.dev"
    && signer.issuer == "https://token.actions.githubusercontent.com"
    && signer.runnerEnvironment == "github-hosted"
    && "https://github.com/" <= signer.sourceRepositoryURI
  }

  /** The signing workflow is Docker's builder, by both its names, in a timestamped bundle. */
  predicate ByBuilder(s: SignatureInfo) {
    && s.signer.Some? && FromHostedWorkflow(s.signer.value)
    && UnderBuilder(s.signer.value.buildSignerURI) && UnderBuilder(s.signer.value.subjectAlternativeName)
    && s.timestamps != [] && s.signatureType == 1
  }

  /** The signing workflow belongs to the source repository, by both its names. */
  predicate ByOwnWorkflow(s: SignatureInfo) {
    && s.signer.Some? && FromHostedWorkflow(s.signer.value)
    && var prefix := s.signer.value.sourceRepositoryURI + "/.github/workflows/";
    && prefix <= s.signer.value.buildSignerURI && prefix <= s.signer.value.subjectAlternativeName
  }

  predicate BySigstore(s: SignatureInfo) {
    s.signer.Some? && s.signer.value.certificateIssuer == "CN=sigstore-intermediate,O=sigstore.dev"
  }

  /** What each kind certifies, and that nothing else is behind it. */
  lemma KindExactly(s: SignatureInfo)
    ensures DetectKind(s) == 2 <==> s.isDHI && s.dockerReference != ""
    ensures DetectKind(s) == 1 <==> !(s.isDHI && s.dockerReference != "") && ByBuilder(s)
    ensures DetectKind(s) == 3 <==> !(s.isDHI && s.dockerReference != "") && ByOwnWorkflow(s) && !ByBuilder(s)
    ensures DetectKind(s) == 4 <==>
            !(s.isDHI && s.dockerReference != "") && BySigstore(s) && !ByOwnWorkflow(s) && !ByBuilder(s)
    ensures DetectKind(s) == 1000 <==> !(s.isDHI && s.dockerReference != "") && !BySigstore(s)
  {
    assert BUILDER_URI == "https://github.com/docker/github-builder/.github/workflows/";
    assert BUILDER_URI_EXPERIMENTAL == "https://github.com/docker/github-builder-experimental/.github/workflows/";
    assert IsGithubBuilder(s) <==> ByBuilder(s);
    assert IsGithubSelfSigned(s) <==> ByOwnWorkflow(s);
  }

  // ---- Where the two GitHub tests overlap ----

  /** `repo` itself, or `repo` extended by the workflows directory. */
  predicate IsOrExtends(uri: string, repo: string) {
    uri == repo || HasPrefix(uri, repo + "/.github/workflows")
  }

  /** `WORKFLOWS` does not occur in a builder URI before its very end. */
  lemma WorkflowsOccursOnce(repo: string, k: nat)
    requires repo == BUILDER_REPO || repo == BUILDER_REPO_EXPERIMENTAL
    requires |GITHUB_PREFIX| <= k < |repo|
    ensures !(repo[k] == '/' && (repo + WORKFLOWS)[k + 1] == '.')
  {
    if k + 1 < |repo| {
      assert (repo + WORKFLOWS)[k + 1] == repo[k + 1];
    }
    if repo == BUILDER_REPO {
      assert forall i :: 19 <= i < 39 ==> !(BUILDER_REPO[i] == '/' && BUILDER_REPO[i + 1] == '.');
      assert BUILDER_REPO[39] == 'r';
    } else {
      assert forall i :: 19 <= i < 52 ==>
               !(BUILDER_REPO_EXPERIMENTAL[i] == '/' && BUILDER_REPO_EXPERIMENTAL[i + 1] == '.');
      assert BUILDER_REPO_EXPERIMENTAL[52] == 'l';
    }
  }

  /** Two occurrences of `WORKFLOWS` share at most their one border character '/'. */
  lemma WorkflowsSelfOverlap(s: string, i: nat, d: nat)
    requires i + d + |WORKFLOWS| <= |s|
    requires s[i..i + |WORKFLOWS|] == WORKFLOWS && s[i + d..i + d + |WORKFLOWS|] == WORKFLOWS
    ensures d == 0 || |WORKFLOWS| - 1 <= d
  {
    var first, second := s[i..i + |WORKFLOWS|], s[i + d..i + d + |WORKFLOWS|];
    assert s[i + d] == second[0] == '/' && s[i + d + 1] == second[1] == '.';
    assert d + 1 < |WORKFLOWS| ==> s[i + d] == first[d] && s[i + d + 1] == first[d + 1];
    assert forall j :: 0 < j < |WORKFLOWS| - 1 ==> !(WORKFLOWS[j] == '/' && WORKFLOWS[j + 1] == '.');
  }

  /** A builder URI that continues past `uri` cannot have `WORKFLOWS` right after it. */
  lemma WorkflowsNotInsideRepo(uri: string, repo: string, s: string)
    requires repo == BUILDER_REPO || repo == BUILDER_REPO_EXPERIMENTAL
    requires |GITHUB_PREFIX| <= |uri|
    requires repo + WORKFLOWS <= s && uri + WORKFLOWS <= s
    ensures |repo| <= |uri|
  {
    var k, b, u := |uri|, repo + WORKFLOWS, uri + WORKFLOWS;
    assert s[k] == u[k] == WORKFLOWS[0] == '/' && s[k + 1] == u[k + 1] == WORKFLOWS[1] == '.';
    if k < |repo| {
      assert b[k] == repo[k] == s[k] && b[k + 1] == s[k + 1];
      WorkflowsOccursOnce(repo, k);
    }
  }

  lemma PrefixesOverlap(uri: string, repo: string, s: string)
    requires |repo| <= |uri|
    requires repo + WORKFLOWS <= s && uri + WORKFLOWS <= s
    ensures IsOrExtends(uri, repo)
  {
    var r, u := |repo|, |uri|;
    assert s[..u] == (uri + WORKFLOWS)[..u] == uri && s[..r] == (repo + WORKFLOWS)[..r] == repo;
    assert s[r..r + |WORKFLOWS|] == (repo + WORKFLOWS)[r..] == WORKFLOWS;
    assert s[u..u + |WORKFLOWS|] == (uri + WORKFLOWS)[u..] == WORKFLOWS;
    WorkflowsSelfOverlap(s, r, u - r);
    if u != r {
      var w := |WORKFLOWS| - 1;
      assert s[..r + w] == repo + s[r..r + |WORKFLOWS|][..w];
      assert uri[..r + w] == s[..r + w];
    }
  }

  /**
   * Two URIs ending in `WORKFLOWS` that are prefixes of the same string: the repository is
   * the builder's own or extends it.
   */
  lemma OverlapOfWorkflows(uri: string, repo: string, s: string)
    requires repo == BUILDER_REPO || repo == BUILDER_REPO_EXPERIMENTAL
    requires |GITHUB_PREFIX| <= |uri|
    requires repo + WORKFLOWS <= s && uri + WORKFLOWS <= s
    ensures IsOrExtends(uri, repo)
    ensures repo + WORKFLOWS <= uri + WORKFLOWS
  {
    WorkflowsNotInsideRepo(uri, repo, s);
    PrefixesNest(s, repo + WORKFLOWS, uri + WORKFLOWS);
    PrefixesOverlap(uri, repo, s);
  }

  /** The two GitHub tests both pass only on a repository that is, or lies inside, a builder's own. */
  lemma BothTestsPinRepository(s: SignatureInfo)
    requires IsGithubBuilder(s) && IsGithubSelfSigned(s)
    ensures var uri := s.signer.value.sourceRepositoryURI;
            IsOrExtends(uri, BUILDER_REPO) || IsOrExtends(uri, BUILDER_REPO_EXPERIMENTAL)
    ensures HasBuilderPrefix(s.signer.value.sourceRepositoryURI + WORKFLOWS)
  {
    var signer := s.signer.value;
    if HasPrefix(signer.buildSignerURI, BUILDER_URI) {
      OverlapOfWorkflows(signer.sourceRepositoryURI, BUILDER_REPO, signer.buildSignerURI);
    } else {
      OverlapOfWorkflows(signer.sourceRepositoryURI, BUILDER_REPO_EXPERIMENTAL, signer.buildSignerURI);
    }
  }

  /** Exactly which repositories some signature can pass both tests with. */
  lemma BothTestsExactly(uri: string)
    ensures (exists s: SignatureInfo ::
               && IsGithubBuilder(s) && IsGithubSelfSigned(s)
               && s.signer.value.sourceRepositoryURI == uri)
            <==> HasPrefix(uri, GITHUB_PREFIX) && HasBuilderPrefix(uri + WORKFLOWS)
  {
    if HasPrefix(uri, GITHUB_PREFIX) && HasBuilderPrefix(uri + WORKFLOWS) {
      var w := uri + WORKFLOWS;
      var signer := Signer(SIGSTORE_ISSUER, w, GITHUB_ISSUER, w, uri, "", GITHUB_HOSTED);
      var s := SignatureInfo(0, BUNDLE_V03, Some(signer), [Timestamp("", "", 0)], "", false);
      assert IsGithubBuilder(s) && IsGithubSelfSigned(s);
    }
    forall s: SignatureInfo |
      && IsGithubBuilder(s) && IsGithubSelfSigned(s)
      && s.signer.value.sourceRepositoryURI == uri
      ensures HasPrefix(uri, GITHUB_PREFIX) && HasBuilderPrefix(uri + WORKFLOWS)
    {
      BothTestsPinRepository(s);
    }
  }

  /** Away from the builders' own repositories the order of the two GitHub tests is immaterial. */
  lemma OrderOfGithubTestsImmaterial(s: SignatureInfo)
    ensures DetectKind(s) == DetectKindSwapped(s)
            <==> IsHardened(s) || !(IsGithubBuilder(s) && IsGithubSelfSigned(s))
    ensures s.signer.Some?
            && !IsOrExtends(s.signer.value.sourceRepositoryURI, BUILDER_REPO)
            && !IsOrExtends(s.signer.value.sourceRepositoryURI, BUILDER_REPO_EXPERIMENTAL)
            ==> DetectKind(s) == DetectKindSwapped(s)
  {
    if IsGithubBuilder(s) && IsGithubSelfSigned(s) {
      BothTestsPinRepository(s);
    }
  }

  // ---- Printing and parsing names ----

  /** `Name`; `None` stands for the nil-pointer panic of reading a field of a missing signer. */
  function Name(s: SignatureInfo): Option<string> {
    var n := KindString(s.kind);
    if s.kind == DOCKER_HARDENED_IMAGE then
      Some(n + " (" + s.dockerReference + ")")
    else if s.kind == DOCKER_GITHUB_BUILDER then
      if s.signer.None? then None else
        var signer := s.signer.value;
        var experimental := if HasPrefix(signer.buildSignerURI, BUILDER_URI_EXPERIMENTAL) then " Experimental" else "";
        var ref := match ShortRef(signer.sourceRepositoryRef) case Some(v) => "@" + v case None => "";
        Some(n + experimental + " (" + TrimPrefix(signer.sourceRepositoryURI, GITHUB_PREFIX) + ref + ")")
    else if s.kind == SELF_SIGNED_GITHUB_REPO then
      if s.signer.None? then None else
        Some(n + " (" + TrimPrefix(s.signer.value.sourceRepositoryURI, GITHUB_PREFIX) + ")")
    else if s.kind == SELF_SIGNED then
      if s.signer.None? then None else
        var signer := s.signer.value;
        var local := if signer.runnerEnvironment != GITHUB_HOSTED then " Local" else "";
        var who :=
          if signer.issuer == GOOGLE_USER_ISSUER then " (Google: " + signer.subjectAlternativeName + ")"
          else if signer.issuer == GITHUB_USER_ISSUER then " (GitHub: " + signer.subjectAlternativeName + ")"
          else "";
        Some(n + local + who)
    else
      Some(n)
  }

  function ShortRef(ref: string): Option<string> {
    match CutPrefix(ref, "refs/heads/")
    case Some(v) => Some(v)
    case None => CutPrefix(ref, "refs/tags/")
  }

  datatype Account = Google(san: string) | GitHub(san: string) | OtherIssuer

  /** What a name tells its reader. */
  datatype View =
    | Hardened(reference: string)
    | Builder(experimental: bool, repository: string, ref: Option<string>)
    | Repository(uri: string)
    | Personal(local: bool, account: Account)
    | Unknown

  /** What the signature says, read off its fields instead of its name. */
  function Describe(s: SignatureInfo): View
    requires s.kind == DetectKind(s)
  {
    if s.kind == DOCKER_HARDENED_IMAGE then Hardened(s.dockerReference)
    else if s.kind == DOCKER_GITHUB_BUILDER then
      Builder(HasPrefix(s.signer.value.buildSignerURI, BUILDER_URI_EXPERIMENTAL),
              s.signer.value.sourceRepositoryURI,
              ShortRef(s.signer.value.sourceRepositoryRef))
    else if s.kind == SELF_SIGNED_GITHUB_REPO then Repository(s.signer.value.sourceRepositoryURI)
    else if s.kind == SELF_SIGNED then
      Personal(s.signer.value.runnerEnvironment != GITHUB_HOSTED,
               if s.signer.value.issuer == GOOGLE_USER_ISSUER then Google(s.signer.value.subjectAlternativeName)
               else if s.signer.value.issuer == GITHUB_USER_ISSUER then GitHub(s.signer.value.subjectAlternativeName)
               else OtherIssuer)
    else Unknown
  }

  /** The text between `open` and a closing parenthesis at the end of `n`. */
  function Enclosed(n: string, open: string): Option<string> {
    if open <= n && |open| < |n| && n[|n| - 1] == ')' then Some(n[|open|..|n| - 1]) else None
  }

  /** Splits at the first '@'. */
  function SplitAt(s: string): (string, Option<string>) {
    if s == "" then ("", None)
    else if s[0] == '@' then ("", Some(s[1..]))
    else var (head, tail) := SplitAt(s[1..]); ([s[0]] + head, tail)
  }

  function ParseBuilder(experimental: bool, body: string): View {
    var (repo, ref) := SplitAt(body);
    Builder(experimental, GITHUB_PREFIX + repo, ref)
  }

  function ParseAccount(n: string): Option<Account> {
    if n == "" then Some(OtherIssuer)
    else match Enclosed(n, " (Google: ")
      case Some(san) => Some(Google(san))
      case None =>
        match Enclosed(n, " (GitHub: ")
        case Some(san) => Some(GitHub(san))
        case None => None
  }

  function ParsePersonal(n: string): Option<View> {
    var local := HasPrefix(n, " Local");
    match ParseAccount(TrimPrefix(n, " Local"))
    case Some(account) => Some(Personal(local, account))
    case None => None
  }

  function ParseName(n: string): Option<View> {
    match Enclosed(n, "Docker Hardened Image (")
    case Some(ref) => Some(Hardened(ref))
    case None =>
    match Enclosed(n, "Docker GitHub Builder Experimental (")
    case Some(body) => Some(ParseBuilder(true, body))
    case None =>
    match Enclosed(n, "Docker GitHub Builder (")
    case Some(body) => Some(ParseBuilder(false, body))
    case None =>
    match Enclosed(n, "GitHub Self-Signed (")
    case Some(body) => Some(Repository(GITHUB_PREFIX + body))
    case None =>
    match CutPrefix(n, "Self-Signed")
    case Some(rest) => ParsePersonal(rest)
    case None => if n == "Untrusted" then Some(Unknown) else None
  }

  lemma EnclosedIn(open: string, body: string)
    ensures Enclosed(open + body + ")", open) == Some(body)
  {
    var n := open + body + ")";
    assert n[..|open|] == open;
    assert n[|open|..|n| - 1] == body;
  }

  /** Splitting undoes joining exactly when the first part has no '@' of its own. */
  lemma {:induction false} SplitOfJoin(repo: string, ref: Option<string>)
    ensures var joined := repo + (match ref case Some(v) => "@" + v case None => "");
            SplitAt(joined) == (repo, ref) <==> '@' !in repo
  {
    var suffix := match ref case Some(v) => "@" + v case None => "";
    if repo == "" {
      assert repo + suffix == suffix;
      if ref.Some? {
        assert suffix[1..] == ref.value;
      }
    } else {
      assert (repo + suffix)[1..] == repo[1..] + suffix;
      SplitOfJoin(repo[1..], ref);
      assert repo == [repo[0]] + repo[1..];
      if repo[0] == '@' {
        assert SplitAt(repo + suffix).0 == "";
      } else {
        assert '@' in repo <==> '@' in repo[1..];
        var (head, tail) := SplitAt(repo[1..] + suffix);
        assert SplitAt(repo + suffix) == ([repo[0]] + head, tail);
        assert ([repo[0]] + head)[1..] == head;
      }
    }
  }

  /** A name is undefined (the code panics) exactly when its kind needs a signer and there is none. */
  lemma NameDefined(s: SignatureInfo)
    ensures Name(s).None? <==>
            s.signer.None? && s.kind in {DOCKER_GITHUB_BUILDER, SELF_SIGNED_GITHUB_REPO, SELF_SIGNED}
    ensures s.kind == DetectKind(s) ==> Name(s).Some?
  {}

  /** A name that starts with one opener does not start with another that differs at some index. */
  lemma OpenersDiffer(n: string, open: string, other: string, i: nat)
    requires open <= n && i < |open| && i < |other| && open[i] != other[i]
    ensures !(other <= n) && Enclosed(n, other) == None
  {
    assert n[i] == open[i];
  }

  lemma HardenedRoundTrip(s: SignatureInfo)
    requires s.kind == DetectKind(s) == DOCKER_HARDENED_IMAGE
    ensures ParseName(Name(s).value) == Some(Describe(s))
  {
    var open := "Docker Hardened Image (";
    assert Name(s).value == open + s.dockerReference + ")";
    EnclosedIn(open, s.dockerReference);
  }

  lemma ParseBuilderPrinted(experimental: bool, body: string)
    ensures var opening := "Docker GitHub Builder" + (if experimental then " Experimental" else "") + " (";
            ParseName(opening + body + ")") == Some(ParseBuilder(experimental, body))
  {
    if experimental {
      var open := "Docker GitHub Builder Experimental (";
      assert "Docker GitHub Builder" + " Experimental" + " (" == open;
      EnclosedIn(open, body);
      OpenersDiffer(open + body + ")", open, "Docker Hardened Image (", 7);
    } else {
      var open := "Docker GitHub Builder (";
      assert "Docker GitHub Builder" + "" + " (" == open;
      EnclosedIn(open, body);
      OpenersDiffer(open + body + ")", open, "Docker Hardened Image (", 7);
      OpenersDiffer(open + body + ")", open, "Docker GitHub Builder Experimental (", 22);
    }
  }

  /** Prepending the GitHub prefix loses nothing. */
  lemma ParseBuilderExact(experimental: bool, repo: string, ref: Option<string>)
    ensures var body := repo + (match ref case Some(v) => "@" + v case None => "");
            ParseBuilder(experimental, body) == Builder(experimental, GITHUB_PREFIX + repo, ref)
            <==> '@' !in GITHUB_PREFIX + repo
  {
    var body := repo + (match ref case Some(v) => "@" + v case None => "");
    SplitOfJoin(repo, ref);
    assert (GITHUB_PREFIX + SplitAt(body).0)[|GITHUB_PREFIX|..] == SplitAt(body).0;
    assert (GITHUB_PREFIX + repo)[|GITHUB_PREFIX|..] == repo;
    assert '@' !in GITHUB_PREFIX;
  }

  lemma BuilderRoundTrip(s: SignatureInfo)
    requires s.kind == DetectKind(s) == DOCKER_GITHUB_BUILDER
    ensures ParseName(Name(s).value) == Some(Describe(s))
            <==> '@' !in s.signer.value.sourceRepositoryURI
  {
    var signer := s.signer.value;
    var experimental := HasPrefix(signer.buildSignerURI, BUILDER_URI_EXPERIMENTAL);
    var repo := TrimPrefix(signer.sourceRepositoryURI, GITHUB_PREFIX);
    assert signer.sourceRepositoryURI == GITHUB_PREFIX + repo;
    var ref := ShortRef(signer.sourceRepositoryRef);
    var suffix := match ref case Some(v) => "@" + v case None => "";
    var opening := "Docker GitHub Builder" + (if experimental then " Experimental" else "") + " (";
    assert opening + repo + suffix + ")" == opening + (repo + suffix) + ")";
    ParseBuilderPrinted(experimental, repo + suffix);
    ParseBuilderExact(experimental, repo, ref);
  }

  lemma RepositoryRoundTrip(s: SignatureInfo)
    requires s.kind == DetectKind(s) == SELF_SIGNED_GITHUB_REPO
    ensures ParseName(Name(s).value) == Some(Describe(s))
  {
    var uri := s.signer.value.sourceRepositoryURI;
    var open, body := "GitHub Self-Signed (", TrimPrefix(uri, GITHUB_PREFIX);
    assert Name(s).value == open + body + ")";
    EnclosedIn(open, body);
    OpenersDiffer(open + body + ")", open, "Docker Hardened Image (", 0);
    OpenersDiffer(open + body + ")", open, "Docker GitHub Builder Experimental (", 0);
    OpenersDiffer(open + body + ")", open, "Docker GitHub Builder (", 0);
    assert uri == GITHUB_PREFIX + body;
  }

  function PrintAccount(account: Account): string {
    match account
    case Google(san) => " (Google: " + san + ")"
    case GitHub(san) => " (GitHub: " + san + ")"
    case OtherIssuer => ""
  }

  lemma AccountRoundTrip(account: Account)
    ensures ParseAccount(PrintAccount(account)) == Some(account)
    ensures !(" Local" <= PrintAccount(account))
  {
    match account
    case Google(san) =>
      EnclosedIn(" (Google: ", san);
      OpenersDiffer(PrintAccount(account), " (Google: ", " Local", 1);
    case GitHub(san) =>
      EnclosedIn(" (GitHub: ", san);
      OpenersDiffer(PrintAccount(account), " (GitHub: ", " (Google: ", 3);
      OpenersDiffer(PrintAccount(account), " (GitHub: ", " Local", 1);
    case OtherIssuer =>
  }

  lemma SelfSignedIsPersonal(tail: string)
    ensures ParseName("Self-Signed" + tail) == ParsePersonal(tail)
  {
    var n := "Self-Signed" + tail;
    assert n[11..] == tail;
    OpenersDiffer(n, "Self-Signed", "Docker Hardened Image (", 0);
    OpenersDiffer(n, "Self-Signed", "Docker GitHub Builder Experimental (", 0);
    OpenersDiffer(n, "Self-Signed", "Docker GitHub Builder (", 0);
    OpenersDiffer(n, "Self-Signed", "GitHub Self-Signed (", 0);
  }

  lemma ParsePersonalPrinted(local: bool, account: Account)
    ensures var opening := "Self-Signed" + if local then " Local" else "";
            ParseName(opening + PrintAccount(account)) == Some(Personal(local, account))
  {
    var who := PrintAccount(account);
    var tail := (if local then " Local" else "") + who;
    assert "Self-Signed" + (if local then " Local" else "") + who == "Self-Signed" + tail;
    SelfSignedIsPersonal(tail);
    AccountRoundTrip(account);
    if local {
      assert tail[6..] == who;
    } else {
      assert tail == who;
    }
  }

  lemma PersonalRoundTrip(s: SignatureInfo)
    requires s.kind == DetectKind(s) == SELF_SIGNED
    ensures ParseName(Name(s).value) == Some(Describe(s))
  {
    var view := Describe(s);
    ParsePersonalPrinted(view.local, view.account);
  }

  /**
   * `Name` is invertible on every signature carrying its detected kind: the parser recovers
   * what the signature says, except that an '@' in a builder's repository URI is taken for
   * the one that introduces the ref.
   */
  lemma NameRoundTrip(s: SignatureInfo)
    requires s.kind == DetectKind(s)
    ensures Name(s).Some?
    ensures ParseName(Name(s).value) == Some(Describe(s))
            <==> !(IsGithubBuilder(s) && !IsHardened(s) && '@' in s.signer.value.sourceRepositoryURI)
  {
    NameDefined(s);
    if s.kind == DOCKER_HARDENED_IMAGE {
      HardenedRoundTrip(s);
    } else if s.kind == DOCKER_GITHUB_BUILDER {
      BuilderRoundTrip(s);
    } else if s.kind == SELF_SIGNED_GITHUB_REPO {
      RepositoryRoundTrip(s);
    } else if s.kind == SELF_SIGNED {
      PersonalRoundTrip(s);
    }
  }

  /** No parser can do better: with an '@' in the repository two different signatures share a name. */
  lemma AtSignMakesNamesAmbiguous() returns (s: SignatureInfo, s': SignatureInfo)
    ensures s.kind == DetectKind(s) && s'.kind == DetectKind(s')
    ensures Name(s) == Name(s') && Describe(s) != Describe(s')
  {
    var signer := Signer(SIGSTORE_ISSUER, BUILDER_URI, GITHUB_ISSUER, BUILDER_URI,
                         "https://github.com/a@b", "", GITHUB_HOSTED);
    var signer' := signer.(sourceRepositoryURI := "https://github.com/a", sourceRepositoryRef := "refs/heads/b");
    s := SignatureInfo(DOCKER_GITHUB_BUILDER, BUNDLE_V03, Some(signer), [Timestamp("", "", 0)], "", false);
    s' := s.(signer := Some(signer'));
    assert TrimPrefix(signer.sourceRepositoryURI, GITHUB_PREFIX) == "a@b";
    assert TrimPrefix(signer'.sourceRepositoryURI, GITHUB_PREFIX) == "a";
    assert ShortRef(signer'.sourceRepositoryRef) == Some("b");
    assert "a@b" + "" == "a@b" == "a" + ("@" + "b");
    var opening := "Docker GitHub Builder" + "" + " (";
    assert opening + "a@b" + "" + ")" == opening + "a" + ("@" + "b") + ")";
  }
}
