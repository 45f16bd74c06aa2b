# Legal agreements: signing and the post-signature redirect

A Dafny model of the logic in `saas/views/legal.py` of djaodjin-saas, the
pages that show legal agreements (terms of service, policies) and let a user
sign one by ticking a "read terms" box.

- `urls.dfy` (module `Urls`): the network location (`urlparse(url)[1]`) of a
  URL, following the authority component of RFC 3986 section 3.2. An optional
  `scheme:` comes first. As in Python 2's `urlsplit`, a scheme is one or more
  letters, digits, `+`, `-` or `.` before the first `:`; unlike RFC 3986
  section 3.1, it need not start with a letter. The authority is present only
  when `//` follows, and it ends at the first `/`, `?` or `#`. A recomposition
  function (section 5.3) is the partner of the extractor: the authority of
  well-formed components survives recomposition and extraction.
- `legal.dfy` (module `Legal`):
  - the agreement template path `saas/agreements/legal_<slug>.md` and its
    inverse;
  - the rendering context, which defaults to `{'organization': broker}`;
  - the open-redirect guard of `AgreementSignView.get_success_url`;
  - the sign decision of `AgreementSignView.form_valid`. It is a class over
    a signature store (`SignatureStore`, a class with a `seq` of
    `(agreement slug, user)` records) that records a signature and redirects
    only when `read_terms` is true.
- `wrappers.dfy` (module `Wrappers`): `Option`, standing for Python's `None`.

The main security property is an ensures of `Legal.GetSuccessUrl`. If the
configured `LOGIN_REDIRECT_URL` names no host or the request's host, then the
URL a signer is redirected to names no host or the request's host too.

Two points where the code differs from what one might read into it. The
model follows the code in both.

- The comment at `saas/views/legal.py:141` says the default is used "if
  redirect_to is empty". The code uses `.get(name, default)`, which falls
  back only when the parameter is missing. A present but empty `next`
  therefore yields `""` (`Legal.EmptyTargetKept`).
- `if not context` is also true for an empty dict. So an explicitly given
  but empty context is replaced by the broker default, like a missing one
  (`Legal.AgreementContext`).

Inputs that come from the framework are parameters of the model:
- the request parameters (`request.REQUEST`) as one map;
- `request.get_host()` as a string;
- `request.user` as a string;
- `settings.LOGIN_REDIRECT_URL` as a string;
- the broker organisation (`get_broker()`) as a value of any type.

## Model

| member | source | states |
|---|---|---|
| Urls.SchemeRun | saas/views/legal.py:146 | the length of the longest prefix made only of scheme characters |
| Urls.SchemePrefixLength | saas/views/legal.py:146 | a non-zero result covers a scheme name (scheme characters only) followed by ':'; zero means no prefix up to a ':' is a scheme name |
| Urls.AuthorityEnd | saas/views/legal.py:146 | the index of the first '/', '?' or '#', or the length when there is none |
| Urls.Authority | saas/views/legal.py:146 | without a leading "//" the authority is ""; after one it is the text up to the first '/', '?' or '#' or the end |
| Urls.Netloc | saas/views/legal.py:146 | the netloc is "" unless "//" follows the scheme prefix; then it is the text after "//" up to the first '/', '?' or '#' or the end |
| Urls.NetlocOfRecompose | saas/views/legal.py:146 | recomposing a well-formed scheme, authority and rest and extracting the netloc returns the authority, or "" when there is none |
| Legal.AgreementTemplatePath | saas/views/legal.py:107 | the path is the prefix `saas/agreements/legal_`, then the slug, then `.md` |
| Legal.SlugOfTemplatePath | saas/views/legal.py:107 | the slug is recovered from its template path |
| Legal.TemplatePathOfSlug | saas/views/legal.py:107 | every path recognised as an agreement template is the template path of the slug read from it |
| Legal.TemplatePathInjective | saas/views/legal.py:107 | distinct slugs read distinct templates |
| Legal.AgreementContext | saas/views/legal.py:105-106 | a non-empty given context is used unchanged; a missing or empty one becomes exactly `{'organization': broker}`; the result is never empty |
| Legal.AgreementContextIdempotent | saas/views/legal.py:105-106 | defaulting an already defaulted context again changes nothing, whatever the broker |
| Legal.ReadAgreementFile | saas/views/legal.py:103-107 | the template looked up is the one built from the slug, rendered with the defaulted context |
| Legal.GetOr | saas/views/legal.py:142-143 | `.get(name, default)`: the parameter's value when the key is present, even if empty; the default only when the key is missing |
| Legal.IsLocalTo | saas/views/legal.py:147 | a target is not local exactly when its netloc is non-empty and differs from the host, the condition that triggers the fallback |
| Legal.GetSuccessUrl | saas/views/legal.py:140-149 | the result is the requested target or the default and nothing else; if the default is local to the host, so is the result |
| Legal.AbsentTargetGivesDefault | saas/views/legal.py:142-143 | without a `next` parameter the result is `LOGIN_REDIRECT_URL`, whatever host the default names |
| Legal.RequestedTargetKept | saas/views/legal.py:146-149 | a requested target different from the default is returned exactly when its netloc is empty or equals the host |
| Legal.CrossHostTargetReplaced | saas/views/legal.py:147-148 | a requested target whose netloc is non-empty and differs from the host is replaced by `LOGIN_REDIRECT_URL` |
| Legal.EmptyTargetKept | saas/views/legal.py:142-143 | a present but empty `next` gives "", not the default |
| Legal.GetSuccessUrlIdempotent | saas/views/legal.py:140-149 | sending the chosen URL back as `next` chooses it again |
| Legal.EvilTargetRefused | saas/views/legal.py:146-148 | `http://evil.example/x` on host `myapp.example` gives the default |
| Legal.HostComparisonIsExact | saas/views/legal.py:147 | the host comparison is case-sensitive: `https://MyApp.example/` on host `myapp.example` gives the default |
| Legal.SameHostTargetKept | saas/views/legal.py:147-149 | `http://myapp.example/billing` on host `myapp.example` is kept |
| Legal.DigitSchemeTargetRefused | saas/views/legal.py:146-148 | `1x://evil.example/` on host `myapp.example` gives the default, since a scheme may start with a digit |
| Legal.PathTargetKept | saas/views/legal.py:146-149 | `/dashboard` is kept on any host |
| Legal.Sign | saas/views/legal.py:134-137 | one sign submission keeps every earlier signature; it adds exactly one record (slug, user) when the terms were read, and none otherwise |
| Legal.ReplayAppendsAccepted | saas/views/legal.py:133-138 | a series of submissions adds one signature per submission with the box checked, in order, and none for the others |
| Legal.SignatureStore.CreateSignature | saas/views/legal.py:135-136 | appends the one record (agreement slug, user) and changes nothing else |
| Legal.AgreementSignView.Slug | saas/views/legal.py:136 | `self.kwargs.get(self.slug_url_kwarg)`: the `agreement` URL argument when present, None when it is missing |
| Legal.AgreementSignView.FormValid | saas/views/legal.py:133-138 | with `read_terms` it appends one signature (URL slug, request user) and redirects to the guarded URL; without it the store is unchanged and the form-invalid path is taken; a redirect is local whenever the default is |

## Left out

- Markdown conversion and Django template loading and rendering (`markdown.markdown`, `loader.find_template`, `source.render`). These are foreign libraries. The model stops at the path and context passed to them (`Legal.ReadAgreementFile`).
- `AgreementDetailView`, `AgreementListView` and both `get_context_data` overrides. They are framework list/detail plumbing and context-dict updates.
- `SignatureForm` and Django form validation. `read_terms` is a given boolean, and `form_invalid` is represented only by the `FormInvalid` response.
- ORM persistence. `Signature.objects.create_signature` is modelled as an append to `SignatureStore.signatures`; its agreement lookup and whatever that raises for an unknown slug are left out. So are `Agreement` queries, `ProviderMixin`, `get_broker()` (a parameter), authentication and the HTTP request and response objects.
- `request.REQUEST` merges POST and GET data. It is modelled as a single map with one value per key.
- `request.get_host()`: its `ALLOWED_HOSTS` validation is left out, and the host is a given string.
- Urls.Netloc does not model the `ValueError`s that `urlsplit` raises: for a netloc with unbalanced IPv6 brackets, and, from Python 2.7.17 on (`_checknetloc`), for a unicode netloc whose NFKC form gains '/', '?', '#', '@' or ':'. Which of these apply depends on the Python version. In the model every URL has a netloc.
- Urls.Netloc takes a scheme even in Python's "host:port" case, where `urlsplit` keeps the text whole. This does not change the netloc: it is "" either way.
- Legal.AgreementSignView.FormValid always answers `Redirect` once the signature is stored. In the source the signature is stored (saas/views/legal.py:135-136) before `get_success_url()` runs (saas/views/legal.py:137). So when `urlparse` raises `ValueError` or `get_host()` rejects the host, the signature stays recorded and no redirect is sent. The model does not capture that outcome.
- Several lemmas about `Legal.GetSuccessUrl` hold for any netloc extractor, because they are stated in terms of `Urls.Netloc` and use nothing about how it is computed: the two ensures of `Legal.GetSuccessUrl`, `Legal.AbsentTargetGivesDefault`, `Legal.RequestedTargetKept`, `Legal.CrossHostTargetReplaced` and `Legal.GetSuccessUrlIdempotent`. `Legal.EmptyTargetKept` uses only `Netloc("") == ""`, which `urlparse("")[1]` also satisfies. The concrete lemmas (`Legal.EvilTargetRefused`, `Legal.HostComparisonIsExact`, `Legal.SameHostTargetKept`, `Legal.DigitSchemeTargetRefused`, `Legal.PathTargetKept`) depend on this extractor through `Urls.NetlocOfRecompose`.
- Percent-decoding, and browser-side reinterpretation of the redirect URL, are not modelled.
