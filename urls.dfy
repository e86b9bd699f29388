/** URL scheme normalisation: `AddScheme` makes sure an endpoint string
    carries a scheme, choosing `https` or, when SSL is disabled, `http`. */
module Urls {
  import opened TextUtil

  predicate IsAlpha(c: char) {
    'a' <= c <= 'z' || 'A' <= c <= 'Z'
  }

  /** The characters section 3.1 of RFC 3986 allows after a scheme's first letter. */
  predicate IsSchemeChar(c: char) {
    IsAlpha(c) || '0' <= c <= '9' || c == '+' || c == '-' || c == '.'
  }

  /** A scheme name, `ALPHA *( ALPHA / DIGIT / "+" / "-" / "." )`. */
  predicate IsSchemeName(s: string) {
    |s| > 0 && IsAlpha(s[0]) && forall i :: 0 <= i < |s| ==> IsSchemeChar(s[i])
  }

  /** Reference definition: `s` starts with some scheme name followed by `://`. */
  ghost predicate StartsWithScheme(s: string) {
    exists k :: 0 < k <= |s| && IsSchemeName(s[..k]) && HasPrefix(s[k..], "://")
  }

  /** Length of the longest prefix of `s` made of scheme characters. */
  function SchemeRun(s: string): (n: nat)
    ensures n <= |s|
    ensures forall i :: 0 <= i < n ==> IsSchemeChar(s[i])
    ensures n < |s| ==> !IsSchemeChar(s[n])
  {
    if s == [] || !IsSchemeChar(s[0]) then 0 else 1 + SchemeRun(s[1..])
  }

  /** The scanning test AddScheme performs: a scheme name, then `://`. */
  predicate HasScheme(s: string) {
    var n := SchemeRun(s);
    n > 0 && IsAlpha(s[0]) && HasPrefix(s[n..], "://")
  }

  /** The scan recognises exactly the strings the reference definition
      describes: since `:` is not a scheme character, the scheme name can only
      be the longest run of scheme characters. */
  lemma HasSchemeIff(s: string)
    ensures HasScheme(s) <==> StartsWithScheme(s)
  {
    var n := SchemeRun(s);
    if HasScheme(s) {
      assert IsSchemeName(s[..n]);
      assert 0 < n <= |s| && IsSchemeName(s[..n]) && HasPrefix(s[n..], "://");
    }
    if StartsWithScheme(s) {
      var k :| 0 < k <= |s| && IsSchemeName(s[..k]) && HasPrefix(s[k..], "://");
      assert s[k] == s[k..][0] == ':';
      assert forall i :: 0 <= i < k ==> IsSchemeChar(s[..k][i]);
      assert s[0] == s[..k][0];
    }
  }

  /** A scheme name followed by `://` and anything at all is recognised. */
  lemma {:induction false} SchemePrefixRecognised(scheme: string, rest: string)
    requires IsSchemeName(scheme)
    ensures HasScheme(scheme + "://" + rest)
  {
    var s := scheme + "://" + rest;
    var n := SchemeRun(s);
    assert s[|scheme|] == ':';
    assert forall i :: 0 <= i < |scheme| ==> s[i] == scheme[i];
    assert n == |scheme|;
    assert s[n..] == "://" + rest;
    assert s[n..][..3] == "://";
  }

  /** A string without any `:` carries no scheme. */
  lemma NoColonNoScheme(s: string)
    requires ':' !in s
    ensures !StartsWithScheme(s)
  {
    forall k | 0 < k <= |s|
      ensures !HasPrefix(s[k..], "://")
    {
      if k < |s| {
        assert s[k..][0] == s[k];
      }
    }
  }

  /** Returns `endpoint` unchanged when it already carries a scheme; otherwise
      prefixes it with `https://`, or `http://` when `disableSSL` is set. */
  function AddScheme(endpoint: string, disableSSL: bool): (r: string)
    ensures HasScheme(r)
    ensures |endpoint| <= |r| && r[|r| - |endpoint|..] == endpoint
  {
    if HasScheme(endpoint) then endpoint
    else
      var scheme := if disableSSL then "http" else "https";
      SchemePrefixRecognised(scheme, endpoint);
      scheme + "://" + endpoint
  }

  /** Input that already starts with `https://` comes back unchanged whatever
      the SSL flag. */
  lemma AddSchemeKeepsHttps(rest: string, disableSSL: bool)
    ensures AddScheme("https://" + rest, disableSSL) == "https://" + rest
  {
    SchemePrefixRecognised("https", rest);
    assert "https" + "://" + rest == "https://" + rest;
  }

  /** Input that already starts with `http://` comes back unchanged whatever
      the SSL flag. */
  lemma AddSchemeKeepsHttp(rest: string, disableSSL: bool)
    ensures AddScheme("http://" + rest, disableSSL) == "http://" + rest
  {
    SchemePrefixRecognised("http", rest);
    assert "http" + "://" + rest == "http://" + rest;
  }

  /** A string that does not start with a scheme gets `https://`, or
      `http://` when SSL is disabled; a `host:port` endpoint is one of them. */
  lemma AddSchemeWithoutScheme(s: string, disableSSL: bool)
    requires !StartsWithScheme(s)
    ensures AddScheme(s, disableSSL) == (if disableSSL then "http://" else "https://") + s
  {
    HasSchemeIff(s);
    assert "http" + "://" == "http://" && "https" + "://" == "https://";
  }

  /** A string that already starts with a scheme, any RFC 3986 scheme and
      not only `http` or `https`, comes back unchanged. */
  lemma AddSchemeKeepsScheme(s: string, disableSSL: bool)
    requires StartsWithScheme(s)
    ensures AddScheme(s, disableSSL) == s
  {
    HasSchemeIff(s);
  }

  /** Applying AddScheme to its own output changes nothing, whichever flag the
      second call is given. */
  lemma AddSchemeIdempotent(s: string, disableSSL: bool, again: bool)
    ensures AddScheme(AddScheme(s, disableSSL), again) == AddScheme(s, disableSSL)
  {
  }

  /** The five cases of the AddScheme test table. */
  lemma AddSchemeTestCases()
    ensures AddScheme("https://example.com", false) == "https://example.com"
    ensures AddScheme("example.com", false) == "https://example.com"
    ensures AddScheme("http://example.com", false) == "http://example.com"
    ensures AddScheme("example.com", true) == "http://example.com"
    ensures AddScheme("https://example.com", true) == "https://example.com"
  {
    assert "https://example.com" == "https://" + "example.com";
    assert "http://example.com" == "http://" + "example.com";
    assert ':' !in "example.com";
    AddSchemeKeepsHttps("example.com", false);
    AddSchemeKeepsHttps("example.com", true);
    AddSchemeKeepsHttp("example.com", false);
    NoColonNoScheme("example.com");
    AddSchemeWithoutScheme("example.com", false);
    AddSchemeWithoutScheme("example.com", true);
  }
}
