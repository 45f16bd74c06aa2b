/**
 The part of URL parsing the redirect guard relies on: the network location
 (`urlparse(url)[1]`, Python 2's `urlsplit`), which is the authority component
 of RFC 3986. A URL is an optional "scheme:", then an authority only when "//"
 follows (section 3.2), which ends at the first '/', '?' or '#'.
 */
module Urls {
  import opened Wrappers

  predicate IsAlpha(c: char) { 'a' <= c <= 'z' || 'A' <= c <= 'Z' }

  predicate IsDigit(c: char) { '0' <= c <= '9' }

  /** The characters allowed in a scheme (RFC 3986 section 3.1, Python's `scheme_chars`). */
  predicate IsSchemeChar(c: char) { IsAlpha(c) || IsDigit(c) || c == '+' || c == '-' || c == '.' }

  /**
   A scheme as `urlsplit` recognises it: one or more scheme characters.
   RFC 3986 section 3.1 also asks for a leading letter; Python does not.
   */
  predicate IsSchemeName(s: string) {
    |s| > 0 && forall i :: 0 <= i < |s| ==> IsSchemeChar(s[i])
  }

  /** The characters that end an authority (RFC 3986 section 3.2). */
  predicate IsAuthorityEnd(c: char) { c == '/' || c == '?' || c == '#' }

  predicate HasNoAuthorityEnd(s: string) {
    forall i :: 0 <= i < |s| ==> !IsAuthorityEnd(s[i])
  }

  predicate StartsWithSlashes(s: string) { |s| >= 2 && s[0] == '/' && s[1] == '/' }

  /** Length of the longest prefix of `u` made of scheme characters. */
  function SchemeRun(u: string): (n: nat)
    ensures n <= |u|
    ensures forall i :: 0 <= i < n ==> IsSchemeChar(u[i])
    ensures n < |u| ==> !IsSchemeChar(u[n])
  {
    if u == [] || !IsSchemeChar(u[0]) then 0 else 1 + SchemeRun(u[1..])
  }

  /**
   Length of the leading "scheme:" of `u`, colon included; 0 when `u` has none.
   Python's exception for a "host:port" whose digits follow the colon does not
   change the netloc (nothing starting with a scheme character starts with
   "//"), so this model takes the scheme in that case too.
   */
  function SchemePrefixLength(u: string): (n: nat)
    ensures n <= |u|
    ensures n > 0 ==> u[n - 1] == ':' && IsSchemeName(u[..n - 1])
    ensures n == 0 ==> forall k :: 0 <= k < |u| && u[k] == ':' ==> !IsSchemeName(u[..k])
  {
    var k := SchemeRun(u);
    if 0 < k < |u| && u[k] == ':' then k + 1 else 0
  }

  /** Index of the first '/', '?' or '#' in `s`, or `|s|` when there is none. */
  function AuthorityEnd(s: string): (n: nat)
    ensures n <= |s|
    ensures HasNoAuthorityEnd(s[..n])
    ensures n < |s| ==> IsAuthorityEnd(s[n])
  {
    if s == [] || IsAuthorityEnd(s[0]) then 0 else 1 + AuthorityEnd(s[1..])
  }

  /**
   The authority at the start of what follows the scheme prefix: present only
   after "//", and running up to the first '/', '?' or '#'.
   */
  function Authority(rest: string): (r: string)
    ensures HasNoAuthorityEnd(r)
    ensures !StartsWithSlashes(rest) ==> r == ""
    ensures StartsWithSlashes(rest) ==>
      2 + |r| <= |rest| && rest[2..2 + |r|] == r && (2 + |r| == |rest| || IsAuthorityEnd(rest[2 + |r|]))
  {
    if StartsWithSlashes(rest) then
      var a := rest[2..];
      a[..AuthorityEnd(a)]
    else
      ""
  }

  /** `urlparse(u)[1]`: the authority of `u`, or "" when `u` has none. */
  function Netloc(u: string): (r: string)
    ensures HasNoAuthorityEnd(r)
    ensures var p := SchemePrefixLength(u); !StartsWithSlashes(u[p..]) ==> r == ""
    ensures var p := SchemePrefixLength(u); StartsWithSlashes(u[p..]) ==>
      p + 2 + |r| <= |u| && u[p + 2..p + 2 + |r|] == r && (p + 2 + |r| == |u| || IsAuthorityEnd(u[p + 2 + |r|]))
  {
    var p := SchemePrefixLength(u);
    var r := Authority(u[p..]);
    assert StartsWithSlashes(u[p..]) ==>
      u[p..][2..2 + |r|] == u[p + 2..p + 2 + |r|] && (2 + |r| < |u[p..]| ==> u[p..][2 + |r|] == u[p + 2 + |r|]);
    r
  }

  /**
   Component recomposition (RFC 3986 section 5.3): an optional scheme, an
   optional authority, then the path, query and fragment as one string.
   */
  function Recompose(scheme: Option<string>, authority: Option<string>, rest: string): string {
    (if scheme.Some? then scheme.value + ":" else "")
    + (if authority.Some? then "//" + authority.value else "")
    + rest
  }

  /** The components can be recomposed into a URL that parses back into them. */
  predicate WellFormed(scheme: Option<string>, authority: Option<string>, rest: string) {
    && (scheme.Some? ==> IsSchemeName(scheme.value))
    // an authority holds none of its own terminators, and the path after it is empty or absolute
    && (authority.Some? ==> HasNoAuthorityEnd(authority.value) && (rest == [] || IsAuthorityEnd(rest[0])))
    // without an authority the path cannot begin with "//"
    && (authority.None? ==> !StartsWithSlashes(rest))
    // a relative reference cannot have a ':' before its first '/', '?' or '#'
    && (scheme.None? && authority.None? ==> forall i :: 0 <= i < AuthorityEnd(rest) ==> rest[i] != ':')
  }

  lemma SchemePrefixOfScheme(s: string, x: string)
    requires IsSchemeName(s)
    ensures SchemePrefixLength(s + ":" + x) == |s| + 1
  {
    var u := s + ":" + x;
    var k := SchemeRun(u);
    assert u[|s|] == ':';
    assert forall i :: 0 <= i < |s| ==> u[i] == s[i];
    assert k == |s|;
  }

  lemma NoSchemeInRelative(rest: string)
    requires forall i :: 0 <= i < AuthorityEnd(rest) ==> rest[i] != ':'
    ensures SchemePrefixLength(rest) == 0
  {
    var k := SchemeRun(rest);
    var e := AuthorityEnd(rest);
    // every scheme character lies before the first authority terminator
    assert e < |rest| ==> !IsSchemeChar(rest[e]);
    assert k <= e;
  }

  lemma AuthorityEndOfAuthority(a: string, rest: string)
    requires HasNoAuthorityEnd(a)
    requires rest == [] || IsAuthorityEnd(rest[0])
    ensures AuthorityEnd(a + rest) == |a|
  {
    var s := a + rest;
    var n := AuthorityEnd(s);
    assert forall i :: 0 <= i < |a| ==> s[i] == a[i];
    assert |a| < |s| ==> s[|a|] == rest[0];
  }

  lemma AuthorityAfterSlashes(a: string, rest: string)
    requires HasNoAuthorityEnd(a)
    requires rest == [] || IsAuthorityEnd(rest[0])
    ensures Authority("//" + a + rest) == a
  {
    var s := "//" + a + rest;
    assert s[2..] == a + rest;
    AuthorityEndOfAuthority(a, rest);
    assert (a + rest)[..|a|] == a;
  }

  /** The scheme prefix of a recomposed URL is exactly its scheme and colon. */
  lemma SchemePrefixOfRecompose(scheme: Option<string>, authority: Option<string>, rest: string)
    requires WellFormed(scheme, authority, rest)
    ensures SchemePrefixLength(Recompose(scheme, authority, rest)) == if scheme.Some? then |scheme.value| + 1 else 0
  {
    var u := Recompose(scheme, authority, rest);
    var tail := (if authority.Some? then "//" + authority.value else "") + rest;
    if scheme.Some? {
      assert u == scheme.value + ":" + tail;
      SchemePrefixOfScheme(scheme.value, tail);
    } else if authority.Some? {
      assert u[0] == '/';
    } else {
      assert u == rest;
      NoSchemeInRelative(rest);
    }
  }

  /** Recomposing well-formed components and taking the netloc gives back the authority. */
  lemma NetlocOfRecompose(scheme: Option<string>, authority: Option<string>, rest: string)
    requires WellFormed(scheme, authority, rest)
    ensures Netloc(Recompose(scheme, authority, rest)) == if authority.Some? then authority.value else ""
  {
    var u := Recompose(scheme, authority, rest);
    var tail := (if authority.Some? then "//" + authority.value else "") + rest;
    var p := if scheme.Some? then |scheme.value| + 1 else 0;
    SchemePrefixOfRecompose(scheme, authority, rest);
    assert u[p..] == tail;
    if authority.Some? {
      AuthorityAfterSlashes(authority.value, rest);
    }
  }
}
