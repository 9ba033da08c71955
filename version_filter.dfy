/** The filter registered by `eurekaVersionFilterRegistration`: requests under the
    Eureka prefix that are neither already versioned nor dashboard static content
    are forwarded to the "/v2" API. */
module VersionFilter {
  import opened Wrappers
  import opened JavaText

  /** The version segment every forwarded API request carries after the prefix. */
  const VersionSegment: string := "/v2"

  /** The compiled static-content regex `leading + "/(fonts|images|css|js)/.*"`,
      with `leading` (context path and prefix) read literally. */
  datatype StaticPattern = StaticPattern(leading: string)

  /** The dashboard directories named in the regex alternation. */
  predicate IsStaticDirectory(d: string) {
    d == "fonts" || d == "images" || d == "css" || d == "js"
  }

  /** The regex built from the context path and the prefix: the context path is
      put in front only when it has text. */
  function StaticContentPattern(contextPath: string, prefix: string): (p: StaticPattern)
    ensures HasText(contextPath) ==> p.leading == contextPath + prefix
    ensures !HasText(contextPath) ==> p.leading == prefix
  {
    var regex := StaticPattern(prefix);
    if HasText(contextPath) then StaticPattern(contextPath + regex.leading) else regex
  }

  /** `uri` starts with `leading/dir/` and the rest contains no line terminator. */
  predicate MatchesDirectory(p: StaticPattern, uri: string, dir: string) {
    var head := p.leading + "/" + dir + "/";
    StartsWith(uri, head) && AnyLineChars(uri[|head|..])
  }

  /** `staticPattern.matcher(uri).matches()`: the whole URI is matched. */
  predicate Matches(p: StaticPattern, uri: string)
    ensures Matches(p, uri) ==> StartsWith(uri, p.leading + "/") && |p.leading| + 4 <= |uri|
  {
    MatchesDirectory(p, uri, "fonts") || MatchesDirectory(p, uri, "images") ||
    MatchesDirectory(p, uri, "css") || MatchesDirectory(p, uri, "js")
  }

  /** A string of the regex's language, built from its three parts. */
  function StaticUri(p: StaticPattern, dir: string, rest: string): string {
    p.leading + "/" + dir + "/" + rest
  }

  /** A match against one directory splits the URI into the regex's three parts. */
  lemma MatchesDirectorySplits(p: StaticPattern, uri: string, dir: string)
    requires MatchesDirectory(p, uri, dir)
    ensures var rest := uri[|p.leading + "/" + dir + "/"|..];
            AnyLineChars(rest) && uri == StaticUri(p, dir, rest)
  {
  }

  /** The prefix test above is the regex's language: exactly the strings
      `leading/dir/rest` with a static directory and a single-line rest. */
  lemma MatchesIsRegexLanguage(p: StaticPattern, uri: string)
    ensures Matches(p, uri) <==>
            exists dir, rest :: IsStaticDirectory(dir) && AnyLineChars(rest) && uri == StaticUri(p, dir, rest)
  {
    if Matches(p, uri) {
      var dir :=
        if MatchesDirectory(p, uri, "fonts") then "fonts"
        else if MatchesDirectory(p, uri, "images") then "images"
        else if MatchesDirectory(p, uri, "css") then "css"
        else "js";
      MatchesDirectorySplits(p, uri, dir);
      var rest := uri[|p.leading + "/" + dir + "/"|..];
      assert IsStaticDirectory(dir) && AnyLineChars(rest) && uri == StaticUri(p, dir, rest);
    }
    if exists dir, rest :: IsStaticDirectory(dir) && AnyLineChars(rest) && uri == StaticUri(p, dir, rest) {
      var dir, rest :| IsStaticDirectory(dir) && AnyLineChars(rest) && uri == StaticUri(p, dir, rest);
      var head := p.leading + "/" + dir + "/";
      assert uri == head + rest;
      assert uri[|head|..] == rest;
      assert MatchesDirectory(p, uri, dir);
    }
  }

  /** The only exception the rewrite can raise: `substring` past the end. */
  datatype FilterError = StringIndexOutOfBounds

  /** The URI the API sees once the version segment is dropped again. */
  function WithoutVersion(prefix: string, uri: string): string
    requires StartsWith(uri, prefix + VersionSegment)
  {
    prefix + uri[|prefix| + |VersionSegment|..]
  }

  /** The filter body as written: a URI that neither starts with the versioned
      prefix nor matches the static pattern becomes the versioned prefix followed
      by what comes after the first |prefix| characters; every other URI passes. */
  function RewriteRequestUri(prefix: string, staticPattern: StaticPattern, requestUri: string): (r: Result<string, FilterError>)
    ensures StartsWith(requestUri, prefix + VersionSegment) || Matches(staticPattern, requestUri) ==>
              r == Success(requestUri)
    ensures r.Success? ==>
              StartsWith(r.value, prefix + VersionSegment) || Matches(staticPattern, r.value)
    ensures r.Success? && r.value != requestUri ==>
              |prefix| <= |requestUri| && StartsWith(r.value, prefix + VersionSegment) &&
              r.value[|prefix| + |VersionSegment|..] == requestUri[|prefix|..]
    ensures r.Success? && r.value != requestUri && StartsWith(requestUri, prefix) ==>
              WithoutVersion(prefix, r.value) == requestUri
    ensures StartsWith(requestUri, prefix) ==> r.Success?
    ensures r.Failure? <==>
              !StartsWith(requestUri, prefix + VersionSegment) && !Matches(staticPattern, requestUri) &&
              |requestUri| < |prefix|
  {
    if !StartsWith(requestUri, prefix + VersionSegment) && !Matches(staticPattern, requestUri) then
      if |requestUri| < |prefix| then Failure(StringIndexOutOfBounds)
      else
        var updatedPath := prefix + VersionSegment + requestUri[|prefix|..];
        assert StartsWith(updatedPath, prefix + VersionSegment);
        Success(updatedPath)
    else
      Success(requestUri)
  }

  /** Forwarding is idempotent: a forwarded URI is versioned or static content,
      so passing it through the filter again leaves it as it is. */
  lemma RewriteIdempotent(prefix: string, staticPattern: StaticPattern, requestUri: string)
    requires RewriteRequestUri(prefix, staticPattern, requestUri).Success?
    ensures var once := RewriteRequestUri(prefix, staticPattern, requestUri).value;
            RewriteRequestUri(prefix, staticPattern, once) == Success(once)
  {
  }

  /** A servlet context path: empty for the root context, otherwise it starts with
      a slash and does not end with one. */
  predicate ValidContextPath(contextPath: string) {
    contextPath == "" || (contextPath[0] == '/' && contextPath[|contextPath| - 1] != '/')
  }

  /** For a servlet context path, having text is being non-empty. */
  lemma ContextPathHasText(contextPath: string)
    requires ValidContextPath(contextPath)
    ensures HasText(contextPath) <==> contextPath != ""
  {
  }

  /** The request URI seen by the filter includes the context path, and the servlet
      container hands the filter only URIs under `<context path><prefix>`. The
      version test and the cut are made on the path after the context path, which
      is kept in front of the forwarded URI. */
  function RewriteRequestUriInContext(contextPath: string, prefix: string, requestUri: string): (r: string)
    requires ValidContextPath(contextPath)
    requires StartsWith(requestUri, contextPath + prefix)
    ensures StartsWith(r, contextPath + prefix)
    ensures StartsWith(r, contextPath + prefix + VersionSegment) ||
            Matches(StaticContentPattern(contextPath, prefix), r)
    ensures (StartsWith(requestUri, contextPath + prefix + VersionSegment) ||
             Matches(StaticContentPattern(contextPath, prefix), requestUri)) ==> r == requestUri
    ensures r != requestUri ==> StartsWith(r, contextPath + prefix + VersionSegment)
    ensures r != requestUri ==>
              r[|contextPath| + |prefix| + |VersionSegment|..] == requestUri[|contextPath| + |prefix|..]
  {
    ContextPathHasText(contextPath);
    var path := requestUri[|contextPath|..];
    assert StartsWith(path, prefix + VersionSegment) <==>
           StartsWith(requestUri, contextPath + prefix + VersionSegment);
    if !StartsWith(path, prefix + VersionSegment) && !Matches(StaticContentPattern(contextPath, prefix), requestUri) then
      var updatedPath := contextPath + prefix + VersionSegment + path[|prefix|..];
      assert StartsWith(updatedPath, contextPath + prefix + VersionSegment);
      updatedPath
    else
      requestUri
  }

  /** The corrected filter is idempotent as well. */
  lemma RewriteInContextIdempotent(contextPath: string, prefix: string, requestUri: string)
    requires ValidContextPath(contextPath)
    requires StartsWith(requestUri, contextPath + prefix)
    ensures var once := RewriteRequestUriInContext(contextPath, prefix, requestUri);
            RewriteRequestUriInContext(contextPath, prefix, once) == once
  {
  }

  /** With the root context the corrected filter and the filter as written agree. */
  lemma RewriteAgreesAtRootContext(prefix: string, requestUri: string)
    requires StartsWith(requestUri, prefix)
    ensures RewriteRequestUri(prefix, StaticContentPattern("", prefix), requestUri)
            == Success(RewriteRequestUriInContext("", prefix, requestUri))
  {
    assert !HasText("");
    assert "" + prefix == prefix;
    assert requestUri[|""|..] == requestUri;
  }

  /** A URI whose character after `leading/` starts no static directory name
      does not match the static pattern. */
  lemma NoStaticDirectoryAt(p: StaticPattern, uri: string)
    requires |p.leading| + 1 < |uri|
    requires uri[|p.leading| + 1] !in {'f', 'i', 'c', 'j'}
    ensures !Matches(p, uri)
  {
  }

  /** The example request: already versioned, under the context path "/context"
      and the prefix "/eureka". */
  const ExampleContextPath: string := "/context"
  const ExamplePrefix: string := "/eureka"
  const ExampleUri: string := "/context/eureka/v2/apps"

  /** The example URI is neither versioned in the sense of the test as written nor
      static content. */
  lemma ExampleNotVersionedAsWritten()
    ensures !StartsWith(ExampleUri, ExamplePrefix + VersionSegment)
    ensures !Matches(StaticContentPattern(ExampleContextPath, ExamplePrefix), ExampleUri)
  {
    ContextPathHasText(ExampleContextPath);
    var pattern := StaticContentPattern(ExampleContextPath, ExamplePrefix);
    // The character after "/context/eureka/" is the 'v' of "v2", which starts no static directory.
    assert |pattern.leading| == |ExampleContextPath + ExamplePrefix|;
    assert ExampleUri[|pattern.leading| + 1] == 'v';
    NoStaticDirectoryAt(pattern, ExampleUri);
    // The second character is 'c' (of "/context"), not the 'e' of "/eureka/v2".
    assert ExampleUri[1] != (ExamplePrefix + VersionSegment)[1];
  }

  /** Under the context path "/context" and the prefix "/eureka", the filter as
      written turns the already versioned "/context/eureka/v2/apps" into
      "/eureka/v2" + "t/eureka/v2/apps", a URI outside the context. */
  lemma ContextPathIsCutAsWritten()
    ensures RewriteRequestUri(ExamplePrefix, StaticContentPattern(ExampleContextPath, ExamplePrefix), ExampleUri)
            == Success(ExamplePrefix + VersionSegment + "t/eureka/v2/apps")
    ensures !StartsWith(ExamplePrefix + VersionSegment + "t/eureka/v2/apps", ExampleContextPath)
  {
    ExampleNotVersionedAsWritten();
    assert ExampleUri[|ExamplePrefix|..] == "t/eureka/v2/apps";
    assert (ExamplePrefix + VersionSegment + "t/eureka/v2/apps")[1] != ExampleContextPath[1];
  }

  /** The corrected filter passes the same request through unchanged. */
  lemma ContextPathIsKeptWhenCorrected()
    ensures RewriteRequestUriInContext(ExampleContextPath, ExamplePrefix, ExampleUri) == ExampleUri
  {
    assert ExampleUri[..18] == ExampleContextPath + ExamplePrefix + VersionSegment;
  }
}
