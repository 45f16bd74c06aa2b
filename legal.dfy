/**
 Dynamic pages dealing with legal agreements: where an agreement's Markdown
 template is looked up and with which context, the redirect a signer is sent
 to afterwards, and the recording of the signature itself.
 */
module Legal {
  import opened Wrappers
  import Urls

  // ---------------------------------------------------------------------------
  // Agreement template lookup (_read_agreement_file)
  // ---------------------------------------------------------------------------

  const AgreementTemplatePrefix: string := "saas/agreements/legal_"
  const AgreementTemplateSuffix: string := ".md"

  /** The template the agreement with this slug is read from. */
  function AgreementTemplatePath(slug: string): (path: string)
    ensures |path| == |AgreementTemplatePrefix| + |slug| + |AgreementTemplateSuffix|
    ensures path[..|AgreementTemplatePrefix|] == AgreementTemplatePrefix
    ensures path[|path| - |AgreementTemplateSuffix|..] == AgreementTemplateSuffix
    ensures path[|AgreementTemplatePrefix|..|path| - |AgreementTemplateSuffix|] == slug
  {
    AgreementTemplatePrefix + slug + AgreementTemplateSuffix
  }

  /** The slug an agreement template path was built from, if it is one. */
  function AgreementSlugOf(path: string): Option<string> {
    var lo, hi := |AgreementTemplatePrefix|, |path| - |AgreementTemplateSuffix|;
    if lo <= hi && path[..lo] == AgreementTemplatePrefix && path[hi..] == AgreementTemplateSuffix
    then Some(path[lo..hi])
    else None
  }

  /** Every slug is recovered from its template path, so distinct agreements read distinct templates. */
  lemma SlugOfTemplatePath(slug: string)
    ensures AgreementSlugOf(AgreementTemplatePath(slug)) == Some(slug)
  {
  }

  lemma TemplatePathOfSlug(path: string)
    requires AgreementSlugOf(path).Some?
    ensures AgreementTemplatePath(AgreementSlugOf(path).value) == path
  {
    var lo, hi := |AgreementTemplatePrefix|, |path| - |AgreementTemplateSuffix|;
    assert path == path[..lo] + path[lo..hi] + path[hi..];
  }

  lemma TemplatePathInjective(a: string, b: string)
    requires AgreementTemplatePath(a) == AgreementTemplatePath(b)
    ensures a == b
  {
    SlugOfTemplatePath(a);
    SlugOfTemplatePath(b);
  }

  /**
   The rendering context: Python replaces a missing context, and an empty one
   too (both are false in `if not context`), by `{'organization': broker}`.
   */
  function AgreementContext<V>(context: Option<map<string, V>>, broker: V): (c: map<string, V>)
    ensures |c| > 0
    ensures context.Some? && |context.value| > 0 ==> c == context.value
    ensures context.None? || |context.value| == 0 ==> c.Keys == {"organization"} && c["organization"] == broker
  {
    if context.None? || |context.value| == 0 then map["organization" := broker] else context.value
  }

  /** A context that has been defaulted once is kept as it is, whatever the broker. */
  lemma AgreementContextIdempotent<V>(context: Option<map<string, V>>, broker: V, other: V)
    ensures AgreementContext(Some(AgreementContext(context, broker)), other) == AgreementContext(context, broker)
  {
  }

  /** What is handed to the template loader and renderer. */
  datatype TemplateLookup<V> = TemplateLookup(path: string, context: map<string, V>)

  function ReadAgreementFile<V>(slug: string, context: Option<map<string, V>>, broker: V): (r: TemplateLookup<V>)
    ensures AgreementSlugOf(r.path) == Some(slug)
    ensures |r.context| > 0
    ensures context.Some? && |context.value| > 0 ==> r.context == context.value
    ensures context.None? || |context.value| == 0 ==> r.context == map["organization" := broker]
  {
    SlugOfTemplatePath(slug);
    TemplateLookup(AgreementTemplatePath(slug), AgreementContext(context, broker))
  }

  // ---------------------------------------------------------------------------
  // Redirect after signing (AgreementSignView.get_success_url)
  // ---------------------------------------------------------------------------

  /** Django's REDIRECT_FIELD_NAME. */
  const RedirectFieldName: string := "next"

  /** `d.get(key, default)`: the default is used only when the key is missing. */
  function GetOr(d: map<string, string>, key: string, default: string): (v: string)
    ensures key in d ==> v == d[key]
    ensures key !in d ==> v == default
  {
    if key in d then d[key] else default
  }

  /** A redirect target that names no host, or exactly the request's host. */
  predicate IsLocalTo(url: string, host: string): (b: bool)
    ensures !b <==> Urls.Netloc(url) != "" && Urls.Netloc(url) != host
    ensures b ==> Urls.Netloc(url) == "" || Urls.HasNoAuthorityEnd(host)
  {
    var n := Urls.Netloc(url);
    n == "" || n == host
  }

  /**
   The redirect target after signing: the "next" request parameter when it
   is present (the configured default otherwise), replaced by the default
   when it names a host other than the request's.
   */
  function GetSuccessUrl(params: map<string, string>, loginRedirectUrl: string, host: string): (r: string)
    ensures r == GetOr(params, RedirectFieldName, loginRedirectUrl) || r == loginRedirectUrl
    ensures IsLocalTo(loginRedirectUrl, host) ==> IsLocalTo(r, host)
  {
    var redirectTo := GetOr(params, RedirectFieldName, loginRedirectUrl);
    var netloc := Urls.Netloc(redirectTo);
    if netloc != "" && netloc != host then loginRedirectUrl else redirectTo
  }

  /** Without a "next" parameter the result is the default, whatever host the default names. */
  lemma AbsentTargetGivesDefault(params: map<string, string>, loginRedirectUrl: string, host: string)
    requires RedirectFieldName !in params
    ensures GetSuccessUrl(params, loginRedirectUrl, host) == loginRedirectUrl
  {
  }

  /** A requested target is kept exactly when it names no host or the request's own host. */
  lemma RequestedTargetKept(params: map<string, string>, loginRedirectUrl: string, host: string)
    requires RedirectFieldName in params
    requires params[RedirectFieldName] != loginRedirectUrl
    ensures GetSuccessUrl(params, loginRedirectUrl, host) == params[RedirectFieldName]
        <==> IsLocalTo(params[RedirectFieldName], host)
  {
  }

  /** A requested target naming another host is replaced by the default. */
  lemma CrossHostTargetReplaced(params: map<string, string>, loginRedirectUrl: string, host: string)
    requires RedirectFieldName in params
    requires Urls.Netloc(params[RedirectFieldName]) != ""
    requires Urls.Netloc(params[RedirectFieldName]) != host
    ensures GetSuccessUrl(params, loginRedirectUrl, host) == loginRedirectUrl
  {
  }

  /** A present but empty "next" is not replaced by the default: "" is returned. */
  lemma EmptyTargetKept(params: map<string, string>, loginRedirectUrl: string, host: string)
    requires RedirectFieldName in params && params[RedirectFieldName] == ""
    ensures GetSuccessUrl(params, loginRedirectUrl, host) == ""
  {
  }

  /** Sending the result back as "next" gives the same result. */
  lemma GetSuccessUrlIdempotent(params: map<string, string>, loginRedirectUrl: string, host: string)
    ensures var r := GetSuccessUrl(params, loginRedirectUrl, host);
      GetSuccessUrl(params[RedirectFieldName := r], loginRedirectUrl, host) == r
  {
  }

  /** An attacker's absolute URL is refused (host "myapp.example"). */
  lemma EvilTargetRefused(loginRedirectUrl: string)
    ensures GetSuccessUrl(map[RedirectFieldName := "http://evil.example/x"], loginRedirectUrl, "myapp.example")
      == loginRedirectUrl
  {
    assert Urls.IsSchemeName("http");
    assert "http://evil.example/x" == Urls.Recompose(Some("http"), Some("evil.example"), "/x");
    Urls.NetlocOfRecompose(Some("http"), Some("evil.example"), "/x");
  }

  /** The host comparison is exact: a differently cased spelling of the own host is refused. */
  lemma HostComparisonIsExact(loginRedirectUrl: string)
    ensures GetSuccessUrl(map[RedirectFieldName := "https://MyApp.example/"], loginRedirectUrl, "myapp.example")
      == loginRedirectUrl
  {
    assert Urls.IsSchemeName("https");
    assert "https://MyApp.example/" == Urls.Recompose(Some("https"), Some("MyApp.example"), "/");
    Urls.NetlocOfRecompose(Some("https"), Some("MyApp.example"), "/");
  }

  /** An absolute URL on the request's own host is kept. */
  lemma SameHostTargetKept(loginRedirectUrl: string)
    ensures GetSuccessUrl(map[RedirectFieldName := "http://myapp.example/billing"], loginRedirectUrl, "myapp.example")
      == "http://myapp.example/billing"
  {
    assert Urls.IsSchemeName("http");
    assert "http://myapp.example/billing" == Urls.Recompose(Some("http"), Some("myapp.example"), "/billing");
    Urls.NetlocOfRecompose(Some("http"), Some("myapp.example"), "/billing");
  }

  /** A scheme may start with a digit, as for `urlsplit`: `1x://evil.example/` is refused too. */
  lemma DigitSchemeTargetRefused(loginRedirectUrl: string)
    ensures GetSuccessUrl(map[RedirectFieldName := "1x://evil.example/"], loginRedirectUrl, "myapp.example")
      == loginRedirectUrl
  {
    assert Urls.IsSchemeName("1x");
    assert "1x://evil.example/" == Urls.Recompose(Some("1x"), Some("evil.example"), "/");
    Urls.NetlocOfRecompose(Some("1x"), Some("evil.example"), "/");
  }

  /** A path without a host is kept unchanged. */
  lemma PathTargetKept(loginRedirectUrl: string, host: string)
    ensures GetSuccessUrl(map[RedirectFieldName := "/dashboard"], loginRedirectUrl, host) == "/dashboard"
  {
    assert "/dashboard" == Urls.Recompose(None, None, "/dashboard");
    Urls.NetlocOfRecompose(None, None, "/dashboard");
  }

  // ---------------------------------------------------------------------------
  // Signing (AgreementSignView.form_valid)
  // ---------------------------------------------------------------------------

  /** A user's acceptance of the agreement with the given slug (None when the URL has no slug). */
  datatype Signature = Signature(agreement: Option<string>, user: string)

  /** The signatures after one sign submission: one more exactly when the terms were read. */
  function Sign(signatures: seq<Signature>, agreement: Option<string>, user: string, readTerms: bool): (r: seq<Signature>)
    ensures |r| == |signatures| + (if readTerms then 1 else 0)
    ensures r[..|signatures|] == signatures
    ensures readTerms ==> r[|signatures|] == Signature(agreement, user)
  {
    if readTerms then signatures + [Signature(agreement, user)] else signatures
  }

  /** One submitted sign form: the agreement, the request user and the `read_terms` box. */
  datatype Submission = Submission(agreement: Option<string>, user: string, readTerms: bool)

  /** The signatures after a series of submissions, one at a time. */
  function Replay(signatures: seq<Signature>, submissions: seq<Submission>): seq<Signature>
    decreases |submissions|
  {
    if submissions == [] then signatures
    else
      var s := submissions[0];
      Replay(Sign(signatures, s.agreement, s.user, s.readTerms), submissions[1..])
  }

  /** The signatures of the submissions whose terms were read, in order. */
  function Accepted(submissions: seq<Submission>): seq<Signature> {
    if submissions == [] then []
    else
      var s := submissions[0];
      (if s.readTerms then [Signature(s.agreement, s.user)] else []) + Accepted(submissions[1..])
  }

  /**
   A series of submissions adds to the existing signatures exactly one for
   every submission whose box was checked, and none for the others.
   */
  lemma {:induction false} ReplayAppendsAccepted(signatures: seq<Signature>, submissions: seq<Submission>)
    ensures Replay(signatures, submissions) == signatures + Accepted(submissions)
    decreases |submissions|
  {
    if submissions != [] {
      var s := submissions[0];
      var first := if s.readTerms then [Signature(s.agreement, s.user)] else [];
      assert Sign(signatures, s.agreement, s.user, s.readTerms) == signatures + first;
      ReplayAppendsAccepted(signatures + first, submissions[1..]);
      assert signatures + first + Accepted(submissions[1..]) == signatures + (first + Accepted(submissions[1..]));
    }
  }

  /** What the sign view answers. */
  datatype Response = Redirect(url: string) | FormInvalid

  /** The persistent signatures (`Signature.objects`). */
  class SignatureStore {
    var signatures: seq<Signature>

    constructor ()
      ensures signatures == []
    {
      signatures := [];
    }

    /** `create_signature`: records one more signature. */
    method CreateSignature(agreement: Option<string>, user: string)
      modifies this
      ensures signatures == old(signatures) + [Signature(agreement, user)]
    {
      signatures := signatures + [Signature(agreement, user)];
    }
  }

  /** The request as far as the sign view reads it. */
  datatype Request = Request(params: map<string, string>, host: string, user: string)

  /** The URL keyword argument that holds the agreement slug. */
  const SlugUrlKwarg: string := "agreement"

  class AgreementSignView {
    const kwargs: map<string, string>
    const request: Request
    const loginRedirectUrl: string
    const store: SignatureStore

    constructor (kwargs: map<string, string>, request: Request, loginRedirectUrl: string, store: SignatureStore)
      ensures this.kwargs == kwargs && this.request == request
      ensures this.loginRedirectUrl == loginRedirectUrl && this.store == store
    {
      this.kwargs := kwargs;
      this.request := request;
      this.loginRedirectUrl := loginRedirectUrl;
      this.store := store;
    }

    /** `self.kwargs.get(self.slug_url_kwarg)`, None when the URL holds no slug. */
    function Slug(): (slug: Option<string>)
      ensures slug.Some? <==> SlugUrlKwarg in kwargs
      ensures slug.Some? ==> slug.value == kwargs[SlugUrlKwarg]
    {
      if SlugUrlKwarg in kwargs then Some(kwargs[SlugUrlKwarg]) else None
    }

    /**
     Records a signature of the agreement by the request user and redirects
     when `read_terms` is checked; otherwise records nothing and takes the
     form-invalid path.
     */
    method FormValid(readTerms: bool) returns (response: Response)
      modifies store
      ensures store.signatures == Sign(old(store.signatures), Slug(), request.user, readTerms)
      ensures readTerms ==> response == Redirect(GetSuccessUrl(request.params, loginRedirectUrl, request.host))
      ensures !readTerms ==> response == FormInvalid
      ensures response.Redirect? && IsLocalTo(loginRedirectUrl, request.host) ==> IsLocalTo(response.url, request.host)
    {
      if readTerms {
        store.CreateSignature(Slug(), request.user);
        return Redirect(GetSuccessUrl(request.params, loginRedirectUrl, request.host));
      }
      return FormInvalid;
    }
  }
}
