/** Finding the endpoint a request is for, `internal/domain/api/query/usage_query.go`. */
module UsageQuery {
  import opened Wrappers
  import Cache = TwoLevelCache
  import opened PathTemplate
  import opened Pipeline
  import opened RequestInfo

  /** Usage `u` stands at `i` and accepts the path; none before it does. */
  ghost predicate FirstMatch(matchString: (string, string) -> bool, usages: seq<Usage>, path: string, i: int, u: Usage)
  {
    && 0 <= i < |usages| && usages[i] == u && MatchesTemplate(matchString, u.endpoint, path)
    && forall j :: 0 <= j < i ==> !MatchesTemplate(matchString, usages[j].endpoint, path)
  }

  /** The first usage in list order whose template accepts the path; not found only if none does. */
  method FindByTokenAndEndpoint(matchString: (string, string) -> bool, endpoint: string,
                                cached: Result<seq<Usage>, Cache.Error>)
    returns (found: Result<Usage, Error>)
    ensures cached.Err? ==> found == Err(UsageLookupFailed(cached.error))
    ensures cached.Ok? && found.Ok? ==>
              exists i :: FirstMatch(matchString, cached.value, CutQuery(endpoint), i, found.value)
    ensures cached.Ok? && found.Err? ==>
              && found.error == UsageNotFound
              && forall u :: u in cached.value ==> !MatchesTemplate(matchString, u.endpoint, CutQuery(endpoint))
  {
    var actualPath := CutQuery(endpoint);
    if cached.Err? {
      return Err(UsageLookupFailed(cached.error));
    }
    var usages := cached.value;
    for i := 0 to |usages|
      invariant forall j :: 0 <= j < i ==> !MatchesTemplate(matchString, usages[j].endpoint, actualPath)
    {
      if MatchesTemplate(matchString, usages[i].endpoint, actualPath) {
        assert FirstMatch(matchString, usages, actualPath, i, usages[i]);
        return Ok(usages[i]);
      }
    }
    found := Err(UsageNotFound);
  }

  // ---------- From template to request and back ----------

  /** The template begins with two slashes. */
  predicate DoubleSlashed(tokens: seq<Token>) {
    |tokens| > 1 && tokens[0] == Lit('/') && tokens[1] == Lit('/')
  }

  lemma {:induction false} FilledHasNoQuery(tokens: seq<Token>, vs: seq<string>)
    requires NoAny(tokens) && Values(tokens, vs) && Lit('?') !in tokens
    ensures '?' !in Fill(tokens, vs)
    decreases |tokens|
  {
    if tokens == [] {
    } else {
      if tokens[0] == Param {
        FilledHasNoQuery(tokens[1..], vs[1..]);
      } else {
        FilledHasNoQuery(tokens[1..], vs);
      }
    }
  }

  /** A filled path begins with two slashes only if its template does. */
  lemma FilledStartsAsTemplate(tokens: seq<Token>, vs: seq<string>)
    requires NoAny(tokens) && Values(tokens, vs)
    ensures "//" <= Fill(tokens, vs) <==> DoubleSlashed(tokens)
  {
    var filled := Fill(tokens, vs);
    assert "//"[0] == '/' && "//"[1] == '/' && |"//"| == 2;
    if tokens != [] && tokens[0] == Lit('/') {
      assert filled[0] == '/' && filled[1..] == Fill(tokens[1..], vs);
      StartsWithSlash(tokens[1..], vs);
      assert |filled| > 1 ==> filled[1] == filled[1..][0];
    } else {
      StartsWithSlash(tokens, vs);
    }
  }

  lemma StartsWithSlash(tokens: seq<Token>, vs: seq<string>)
    requires NoAny(tokens) && Values(tokens, vs)
    ensures (Fill(tokens, vs) != [] && Fill(tokens, vs)[0] == '/') <==> (tokens != [] && tokens[0] == Lit('/'))
  {
    if tokens != [] && tokens[0] == Param {
      assert Fill(tokens, vs)[0] == vs[0][0];
    }
  }

  /**
   Fill a template with parameter values and send the result behind either base path and with any
   query: the endpoint extracted and cut at the question mark is the filled path, which the template
   accepts, exactly when the template does not begin with two slashes.
   */
  lemma {:induction false} FillAndRoute(matchString: (string, string) -> bool, t: string, vs: seq<string>,
                                        base: string, query: string)
    requires Faithful(matchString) && Plain(t) && Values(Tokenise(t), vs) && IsBase(base)
    ensures AnyChar !in Tokenise(t)
    ensures var filled := Fill(Tokenise(t), vs);
            var routed := CutQuery(EndpointOf(base + filled, query));
            && (routed == filled <==> !DoubleSlashed(Tokenise(t)))
            && (!DoubleSlashed(Tokenise(t)) ==> MatchesTemplate(matchString, t, routed))
  {
    var tokens := Tokenise(t);
    TokensHaveNoAny(t);
    assert Lit('?') !in tokens;
    var filled := Fill(tokens, vs);
    FilledHasNoQuery(tokens, vs);
    FilledStartsAsTemplate(tokens, vs);
    EndpointRoundTripIff(base, filled, query);
    FilledMatches(tokens, vs);
    DottedAcceptsMore(tokens, filled);
    ExpandedPattern(t);
  }
}
