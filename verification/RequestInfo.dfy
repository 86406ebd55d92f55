/** The endpoint part of a request, `internal/domain/api/model/request_info.go`. */
module RequestInfo {

  const BROWSER_BASE_PATH := "/proxy-browser"
  const SERVER_BASE_PATH := "/proxy-server"

  function ResolveBasePath(path: string): (base: string)
    ensures base <= path
  {
    if BROWSER_BASE_PATH <= path then BROWSER_BASE_PATH
    else if SERVER_BASE_PATH <= path then SERVER_BASE_PATH
    else ""
  }

  /** `strings.TrimLeft(s, "/")`. */
  function TrimSlashes(s: string): string {
    if s != [] && s[0] == '/' then TrimSlashes(s[1..]) else s
  }

  /** Leading slashes beyond the first are dropped. */
  function OneSlash(s: string): string {
    if "//" <= s then "/" + TrimSlashes(s) else s
  }

  function EndpointOf(path: string, query: string): string {
    var endpoint := OneSlash(path[|ResolveBasePath(path)|..]);
    if query != "" then endpoint + "?" + query else endpoint
  }

  method ExtractEndpoint(path: string, query: string) returns (endpoint: string)
    ensures endpoint == EndpointOf(path, query)
  {
    var base := ResolveBasePath(path);
    endpoint := path[|base|..];
    if "//" <= endpoint {
      endpoint := "/" + TrimSlashes(endpoint);
    }
    if query != "" {
      endpoint := endpoint + "?" + query;
    }
  }

  /** `strings.SplitN(endpoint, "?", 2)[0]`: what precedes the first question mark. */
  function CutQuery(endpoint: string): string {
    if endpoint == [] || endpoint[0] == '?' then [] else [endpoint[0]] + CutQuery(endpoint[1..])
  }

  lemma {:induction false} CutAfter(s: string, query: string)
    requires '?' !in s
    ensures CutQuery(s) == s && CutQuery(s + "?" + query) == s
  {
    if s == [] {
      assert s + "?" + query == "?" + query;
    } else {
      CutAfter(s[1..], query);
      assert (s + "?" + query)[1..] == s[1..] + "?" + query;
      assert s == [s[0]] + s[1..];
    }
  }

  lemma {:induction false} CutBefore(s: string, tail: string)
    requires '?' !in s && tail != [] && tail[0] == '?'
    ensures CutQuery(s + tail) == s
  {
    if s != [] {
      CutBefore(s[1..], tail);
      assert (s + tail)[1..] == s[1..] + tail;
      assert s == [s[0]] + s[1..];
    } else {
      assert s + tail == tail;
    }
  }

  lemma {:induction false} TrimShortens(s: string)
    ensures |TrimSlashes(s)| <= |s|
    ensures "//" <= s ==> |TrimSlashes(s)| <= |s| - 2
    ensures '?' !in s ==> '?' !in TrimSlashes(s)
  {
    if s == [] {
    } else if s[0] == '/' {
      TrimShortens(s[1..]);
      if "//" <= s {
        assert s[1] == "//"[1] == '/';
        assert s[1..][0] == '/' && TrimSlashes(s) == TrimSlashes(s[1..][1..]);
        TrimShortens(s[1..][1..]);
      }
    }
  }

  predicate IsBase(base: string) {
    base == BROWSER_BASE_PATH || base == SERVER_BASE_PATH
  }

  lemma BaseIsResolved(base: string, rest: string)
    requires IsBase(base)
    ensures ResolveBasePath(base + rest) == base && (base + rest)[|base|..] == rest
  {
    var path := base + rest;
    if base == SERVER_BASE_PATH {
      assert path[7] == 's' && BROWSER_BASE_PATH[7] == 'b';
      assert !(BROWSER_BASE_PATH <= path);
      assert SERVER_BASE_PATH <= path;
    }
  }

  lemma {:induction false} CutHasNoQuery(s: string)
    ensures '?' !in CutQuery(s)
  {
    if s == [] {
    } else if s[0] != '?' {
      CutHasNoQuery(s[1..]);
    }
  }

  /** The base path is `/proxy-browser` or `/proxy-server` if the path begins so, else nothing. */
  lemma BasePathIs(path: string)
    ensures "/proxy-browser" <= path ==> ResolveBasePath(path) == "/proxy-browser"
    ensures "/proxy-server" <= path ==> ResolveBasePath(path) == "/proxy-server"
    ensures !("/proxy-browser" <= path) && !("/proxy-server" <= path) ==> ResolveBasePath(path) == ""
    ensures forall base :: IsBase(base) <==> base == "/proxy-browser" || base == "/proxy-server"
  {
    if "/proxy-server" <= path {
      assert path[7] == "/proxy-server"[7] != "/proxy-browser"[7];
    }
  }

  /**
   Behind either base path and before any query, a path comes back as it is exactly when it has no
   question mark (a percent-encoded one is decoded before) and does not begin with two slashes.
   */
  lemma EndpointRoundTripIff(base: string, rest: string, query: string)
    requires IsBase(base)
    ensures CutQuery(EndpointOf(base + rest, query)) == rest <==> '?' !in rest && !("//" <= rest)
  {
    BaseIsResolved(base, rest);
    TrimShortens(rest);
    CutHasNoQuery(EndpointOf(base + rest, query));
    if '?' !in rest {
      CutAfter(OneSlash(rest), query);
    }
  }

  /** A decoded question mark: the request for `a%3Fb` is routed as one for `a`. */
  lemma DecodedQuestionMarkIsCut(query: string)
    ensures CutQuery(EndpointOf(SERVER_BASE_PATH + "/users/a?b", query)) == "/users/a"
  {
    BaseIsResolved(SERVER_BASE_PATH, "/users/a?b");
    var tail := "?b" + (if query != "" then "?" + query else "");
    assert EndpointOf(SERVER_BASE_PATH + "/users/a?b", query) == "/users/a" + tail;
    CutBefore("/users/a", tail);
  }

  // ---------- What the endpoint keeps of the path ----------

  /** What follows the base path, without its query. */
  function PathPart(path: string): string {
    OneSlash(path[|ResolveBasePath(path)|..])
  }

  lemma {:induction false} TrimDropsSlashes(s: string)
    ensures var n := |s| - |TrimSlashes(s)|;
            && 0 <= n <= |s| && TrimSlashes(s) == s[n..]
            && (forall i :: 0 <= i < n ==> s[i] == '/')
            && (n < |s| ==> s[n] != '/')
  {
    if s == [] {
    } else if s[0] == '/' {
      TrimDropsSlashes(s[1..]);
      var n := |s| - |TrimSlashes(s)|;
      assert forall i :: 1 <= i < n ==> s[i] == s[1..][i - 1];
    }
  }

  /** Two slashes stand at `i`. */
  predicate DoubleSlashAt(s: string, i: nat) {
    i + 1 < |s| && s[i] == '/' && s[i + 1] == '/'
  }

  /** Merging leading slashes keeps the longest end that does not begin with two. */
  lemma {:induction false} OneSlashIsLongestSuffix(rest: string)
    ensures var n := |rest| - |OneSlash(rest)|;
            && 0 <= n <= |rest| && OneSlash(rest) == rest[n..] && !DoubleSlashAt(rest, n)
            && (forall i :: 0 <= i < n ==> DoubleSlashAt(rest, i))
  {
    assert "//" <= rest <==> DoubleSlashAt(rest, 0);
    if "//" <= rest {
      TrimDropsSlashes(rest);
      var m := |rest| - |TrimSlashes(rest)|;
      assert rest[0] == rest[1] == '/' && m >= 2;
      assert OneSlash(rest) == rest[m - 1..];
    }
  }

  /**
   The endpoint is the longest part of the path's end, behind the base path, that does not begin with
   two slashes; and only slashes are dropped in front of it.
   */
  lemma {:induction false} EndpointIsLongestSuffix(path: string)
    ensures var rest := path[|ResolveBasePath(path)|..];
            var n := |rest| - |PathPart(path)|;
            && 0 <= n <= |rest| && PathPart(path) == rest[n..] && !DoubleSlashAt(rest, n)
            && (forall i :: 0 <= i < n ==> DoubleSlashAt(rest, i))
    ensures forall query :: query != "" ==> EndpointOf(path, query) == PathPart(path) + "?" + query
    ensures EndpointOf(path, "") == PathPart(path)
  {
    OneSlashIsLongestSuffix(path[|ResolveBasePath(path)|..]);
  }
}
