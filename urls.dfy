/**
 * The network location ("netloc") of a URL as Python's `urllib.parse.urlsplit`
 * computes it (the algorithm of Python 3.11.4 and later): the authority part of
 * RFC 3986, section 3.2, i.e. what follows a leading "//" up to the next '/',
 * '?' or '#'. The checks `urlsplit` makes on the netloc afterwards (a bracketed
 * IPv6 host must be well formed, and a non-ASCII netloc must not gain '/', '?',
 * '#', '@' or ':' under NFKC normalisation, each raising `ValueError`) are not
 * part of this model.
 */
module Urls {
  import opened Text

  /** C0 control characters and space: `urlsplit` strips these from the front. */
  predicate IsC0OrSpace(c: char) {
    c <= ' '
  }

  /** Tab, carriage return and line feed: `urlsplit` deletes these everywhere. */
  predicate IsUnsafe(c: char) {
    c == '\t' || c == '\r' || c == '\n'
  }

  predicate IsAsciiLetter(c: char) {
    ('a' <= c <= 'z') || ('A' <= c <= 'Z')
  }

  /** The characters a URL scheme may consist of. */
  predicate IsSchemeChar(c: char) {
    IsAsciiLetter(c) || ('0' <= c <= '9') || c == '+' || c == '-' || c == '.'
  }

  /** The characters that end the authority part. */
  predicate IsAuthorityEnd(c: char) {
    c == '/' || c == '?' || c == '#'
  }

  function StripLeadingC0(s: string): (r: string)
    ensures |r| <= |s| && r == s[|s| - |r|..]
    ensures r == [] || !IsC0OrSpace(r[0])
  {
    if s == [] || !IsC0OrSpace(s[0]) then s else StripLeadingC0(s[1..])
  }

  function RemoveUnsafe(s: string): (r: string)
    ensures |r| <= |s|
    ensures forall i :: 0 <= i < |r| ==> !IsUnsafe(r[i])
  {
    if s == [] then []
    else if IsUnsafe(s[0]) then RemoveUnsafe(s[1..])
    else [s[0]] + RemoveUnsafe(s[1..])
  }

  /** A URL without tab, CR or LF is left as it is. */
  lemma {:induction false} RemoveUnsafeNone(s: string)
    requires NoUnsafe(s)
    ensures RemoveUnsafe(s) == s
  {
    if s != [] {
      RemoveUnsafeNone(s[1..]);
    }
  }

  /** What follows the scheme and its ':' when the URL starts with a valid scheme; else the URL. */
  function AfterScheme(u: string): (r: string)
    ensures |r| <= |u| && r == u[|u| - |r|..]
  {
    var i := Find(u, ':');
    if i > 0 && IsAsciiLetter(u[0]) && forall j :: 0 <= j < i ==> IsSchemeChar(u[j]) then u[i + 1..]
    else u
  }

  /** The index of the first '/', '?' or '#' in `s`, or `|s|` when there is none. */
  function AuthorityLength(s: string): (n: nat)
    ensures n <= |s|
    ensures forall i :: 0 <= i < n ==> !IsAuthorityEnd(s[i])
    ensures n < |s| ==> IsAuthorityEnd(s[n])
  {
    if s == [] || IsAuthorityEnd(s[0]) then 0 else 1 + AuthorityLength(s[1..])
  }

  /** The authority of what follows the scheme: the text between a leading "//" and the next '/', '?' or '#'. */
  function Authority(rest: string): (r: string)
    ensures forall i :: 0 <= i < |r| ==> !IsAuthorityEnd(r[i])
  {
    if StartsWith(rest, "//") then
      var host := rest[2..];
      host[..AuthorityLength(host)]
    else ""
  }

  /**
   * Python's `urlparse(url).netloc`: after clean-up and the scheme, the text between
   * a leading "//" and the next '/', '?' or '#'; empty when there is no leading "//".
   */
  function Netloc(url: string): (r: string)
    ensures forall i :: 0 <= i < |r| ==> !IsAuthorityEnd(r[i])
  {
    Authority(AfterScheme(RemoveUnsafe(StripLeadingC0(url))))
  }

  /**
   * For the usual shape `scheme://host/path`, the netloc is exactly the host
   * (with its port or user information, if any).
   */
  lemma NetlocOfAbsoluteUrl(scheme: string, host: string, path: string)
    requires |scheme| > 0 && IsAsciiLetter(scheme[0])
    requires forall i :: 0 <= i < |scheme| ==> IsSchemeChar(scheme[i])
    requires forall i :: 0 <= i < |host| ==> !IsAuthorityEnd(host[i]) && !IsUnsafe(host[i])
    requires path == [] || IsAuthorityEnd(path[0])
    requires NoUnsafe(path)
    ensures Netloc(scheme + "://" + host + path) == host
  {
    AbsoluteUrlIsClean(scheme, host, path);
    AfterSchemeOfAbsolute(scheme, host, path);
    AuthorityOfHost(host, path);
  }

  predicate NoUnsafe(s: string) {
    forall i :: 0 <= i < |s| ==> !IsUnsafe(s[i])
  }

  lemma NoUnsafeAppend(a: string, b: string)
    requires NoUnsafe(a) && NoUnsafe(b)
    ensures NoUnsafe(a + b)
  {
    forall i | 0 <= i < |a + b|
      ensures !IsUnsafe((a + b)[i])
    {
      if i >= |a| {
        assert (a + b)[i] == b[i - |a|];
      }
    }
  }

  /** A URL that starts with a visible character and has no tab, CR or LF survives the clean-up. */
  lemma CleanUrl(url: string)
    requires url != [] && !IsC0OrSpace(url[0])
    requires NoUnsafe(url)
    ensures RemoveUnsafe(StripLeadingC0(url)) == url
  {
    RemoveUnsafeNone(url);
  }

  /** Four clean pieces, the first starting with a visible character, survive the clean-up together. */
  lemma CleanConcat(a: string, b: string, c: string, d: string)
    requires a != [] && !IsC0OrSpace(a[0])
    requires NoUnsafe(a) && NoUnsafe(b) && NoUnsafe(c) && NoUnsafe(d)
    ensures RemoveUnsafe(StripLeadingC0(a + b + c + d)) == a + b + c + d
  {
    NoUnsafeAppend(a, b);
    NoUnsafeAppend(a + b, c);
    NoUnsafeAppend(a + b + c, d);
    assert (a + b + c + d)[0] == a[0];
    CleanUrl(a + b + c + d);
  }

  lemma AbsoluteUrlIsClean(scheme: string, host: string, path: string)
    requires |scheme| > 0 && IsAsciiLetter(scheme[0])
    requires forall i :: 0 <= i < |scheme| ==> IsSchemeChar(scheme[i])
    requires forall i :: 0 <= i < |host| ==> !IsUnsafe(host[i])
    requires NoUnsafe(path)
    ensures RemoveUnsafe(StripLeadingC0(scheme + "://" + host + path)) == scheme + "://" + host + path
  {
    assert NoUnsafe(scheme) by {
      assert forall i :: 0 <= i < |scheme| ==> IsSchemeChar(scheme[i]);
    }
    assert NoUnsafe("://");
    CleanConcat(scheme, "://", host, path);
  }

  lemma AfterSchemeOfAbsolute(scheme: string, host: string, path: string)
    requires |scheme| > 0 && IsAsciiLetter(scheme[0])
    requires forall i :: 0 <= i < |scheme| ==> IsSchemeChar(scheme[i])
    ensures AfterScheme(scheme + "://" + host + path) == "//" + host + path
  {
    assert scheme + "://" + host + path == scheme + ":" + ("//" + host + path);
    AfterValidScheme(scheme, "//" + host + path);
  }

  lemma AuthorityOfHost(host: string, path: string)
    requires forall i :: 0 <= i < |host| ==> !IsAuthorityEnd(host[i])
    requires path == [] || IsAuthorityEnd(path[0])
    ensures Authority("//" + host + path) == host
  {
    assert ("//" + host + path)[2..] == host + path;
    AuthorityLengthOfPrefix(host, path);
    assert (host + path)[..|host|] == host;
  }

  /** A valid scheme and its ':' are cut off the front. */
  lemma AfterValidScheme(scheme: string, rest: string)
    requires |scheme| > 0 && IsAsciiLetter(scheme[0])
    requires forall i :: 0 <= i < |scheme| ==> IsSchemeChar(scheme[i])
    ensures AfterScheme(scheme + ":" + rest) == rest
  {
    var u := scheme + ":" + rest;
    assert u[..|scheme|] == scheme;
    FindFirst(u, ':', |scheme|);
    assert u[|scheme| + 1..] == rest;
  }

  lemma {:induction false} AuthorityLengthOfPrefix(host: string, path: string)
    requires forall i :: 0 <= i < |host| ==> !IsAuthorityEnd(host[i])
    requires path == [] || IsAuthorityEnd(path[0])
    ensures AuthorityLength(host + path) == |host|
  {
    if host != [] {
      assert (host + path)[1..] == host[1..] + path;
      AuthorityLengthOfPrefix(host[1..], path);
    } else {
      assert host + path == path;
    }
  }

  /** A URL with neither a leading "//" nor a ':' (such as "shop.example/x") has an empty netloc. */
  lemma NetlocWithoutAuthority(url: string)
    requires forall i :: 0 <= i < |url| ==> !IsC0OrSpace(url[i]) && url[i] != ':'
    requires !StartsWith(url, "//")
    ensures Netloc(url) == ""
  {
    assert StripLeadingC0(url) == url;
    RemoveUnsafeNone(url);
    assert ':' !in url;
  }
}
