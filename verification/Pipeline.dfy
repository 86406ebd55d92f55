/**
 `internal/domain/api/service/pipeline.go`: the checks and effects of one proxied request, in order.
 What the collaborators answer is a parameter; what the pipeline does to them is a trace.
 */
module Pipeline {
  import opened Wrappers
  import Cache = TwoLevelCache

  const STATE_BLOCKED := "BLOCKED"
  const RECORD_NOT_FOUND := "record not found"

  datatype ApiToken = ApiToken(
    apiTokenID: int, userID: int, name: string, uuid: string, secretKey: string, state: string)

  datatype Usage = Usage(apiTokenID: int, apiID: string, name: string, endpoint: string, domain: string, verb: string)

  datatype Response = Response(status: int, body: string)

  datatype Error =
    | TokenNotFound
    | TokenLookupFailed(cause: Cache.Error)
    | AccessDenied(reason: string)
    | TokenBlocked
    | UsageNotFound
    | UsageLookupFailed(cause: Cache.Error)
    | UpstreamFailed(reason: string)

  datatype Event =
    | TrackStarted(apiTokenID: int)
    | UpstreamCalled(domain: string)
    | ReleaseStarted(apiTokenID: int)
    | ErrorLogged(error: Error)
    | SuccessLogged(response: Response)

  /** The token query names a missing row; every other cache error is passed on. */
  function FindByClientID(cached: Result<ApiToken, Cache.Error>): Result<ApiToken, Error> {
    match cached
    case Ok(token) => Ok(token)
    case Err(e) => if e == Cache.FetchFailed(RECORD_NOT_FOUND) then Err(TokenNotFound) else Err(TokenLookupFailed(e))
  }

  function ValidateNotBlocked(token: ApiToken): Option<Error> {
    if token.state == STATE_BLOCKED then Some(TokenBlocked) else None
  }

  /** Everything one call depends on. */
  datatype Call = Call(
    lookup: Result<ApiToken, Error>,
    validator: ApiToken -> Option<Error>,
    usage: int -> Result<Usage, Error>,
    upstream: Usage -> Result<Response, Error>)

  /** The call gets past the three checks. */
  predicate Admitted(c: Call) {
    c.lookup.Ok? && c.validator(c.lookup.value) == None && c.lookup.value.state != STATE_BLOCKED
  }

  predicate Forwarded(c: Call) {
    Admitted(c) && c.usage(c.lookup.value.apiTokenID).Ok?
  }

  /** The effects of one call. */
  function Trace(c: Call): seq<Event> {
    if !Admitted(c) then []
    else
      var id := c.lookup.value.apiTokenID;
      if !Forwarded(c) then [TrackStarted(id)]
      else
        var usage := c.usage(id).value;
        [TrackStarted(id), UpstreamCalled(usage.domain), ReleaseStarted(id),
         match c.upstream(usage) case Ok(r) => SuccessLogged(r) case Err(e) => ErrorLogged(e)]
  }

  /** A missing row is reported as such, any other failure with its cause, and a token as it is stored. */
  lemma LookupIsPassedOn(a: Result<ApiToken, Cache.Error>, b: Result<ApiToken, Cache.Error>)
    ensures a.Ok? ==> FindByClientID(a) == Ok(a.value)
    ensures FindByClientID(a) == Err(TokenNotFound) <==> a == Err(Cache.FetchFailed("record not found"))
    ensures FindByClientID(a) == FindByClientID(b) ==> a == b
  {
  }

  /** Exactly the state `BLOCKED` is refused. */
  lemma OnlyBlockedIsRefused(token: ApiToken)
    ensures ValidateNotBlocked(token) == if token.state == "BLOCKED" then Some(TokenBlocked) else None
  {
  }

  /** The call is stopped by the lookup, the validator or the block, and then does nothing. */
  lemma RefusedLeavesNoTrace(c: Call)
    ensures Trace(c) == []
       <==> c.lookup.Err? || c.validator(c.lookup.value).Some? || c.lookup.value.state == "BLOCKED"
  {
  }

  /** Event `e` stands at `k` and nowhere else. */
  ghost predicate OnlyAt(trace: seq<Event>, e: Event, k: nat) {
    forall i :: 0 <= i < |trace| ==> (trace[i] == e <==> i == k)
  }

  /**
   What a forwarded call does, in order: it is tracked, the upstream at the endpoint's domain is called,
   the release is started, and the upstream's answer is logged; each of these once, and nothing else.
   */
  lemma ForwardedEffects(c: Call)
    requires Forwarded(c)
    ensures var id := c.lookup.value.apiTokenID;
            var usage := c.usage(id).value;
            var e := Trace(c);
            && |e| == 4 && (forall i :: 0 <= i < 4 ==> (e[i].UpstreamCalled? <==> i == 1))
            && OnlyAt(e, TrackStarted(id), 0) && OnlyAt(e, UpstreamCalled(usage.domain), 1)
            && OnlyAt(e, ReleaseStarted(id), 2)
            && (c.upstream(usage).Ok? ==> OnlyAt(e, SuccessLogged(c.upstream(usage).value), 3))
            && (c.upstream(usage).Err? ==> OnlyAt(e, ErrorLogged(c.upstream(usage).error), 3))
  {
  }

  class Executor {
    var trace: seq<Event>

    constructor ()
      ensures trace == []
    {
      trace := [];
    }

    method Execute(c: Call) returns (result: Result<Response, Error>)
      modifies this
      ensures trace == old(trace) + Trace(c)
      ensures result.Ok? <==> Forwarded(c) && c.upstream(c.usage(c.lookup.value.apiTokenID).value).Ok?
      ensures Forwarded(c) ==> result == c.upstream(c.usage(c.lookup.value.apiTokenID).value)
      ensures c.lookup.Err? ==> result == Err(c.lookup.error)
      ensures c.lookup.Ok? && c.validator(c.lookup.value).Some? ==> result == Err(c.validator(c.lookup.value).value)
      ensures Admitted(c) && !Forwarded(c) ==> result == Err(c.usage(c.lookup.value.apiTokenID).error)
      ensures c.lookup.Ok? && c.validator(c.lookup.value) == None && c.lookup.value.state == "BLOCKED" ==>
                result == Err(TokenBlocked)
    {
      if c.lookup.Err? {
        return Err(c.lookup.error);
      }
      var token := c.lookup.value;
      var denied := c.validator(token);
      if denied.Some? {
        return Err(denied.value);
      }
      var blocked := ValidateNotBlocked(token);
      if blocked.Some? {
        return Err(blocked.value);
      }
      trace := trace + [TrackStarted(token.apiTokenID)];
      var usage := c.usage(token.apiTokenID);
      if usage.Err? {
        return Err(usage.error);
      }
      trace := trace + [UpstreamCalled(usage.value.domain)];
      result := c.upstream(usage.value);
      trace := trace + [ReleaseStarted(token.apiTokenID)];
      if result.Err? {
        trace := trace + [ErrorLogged(result.error)];
      } else {
        trace := trace + [SuccessLogged(result.value)];
      }
    }
  }

  // ---------- Over many calls ----------

  function Tracks(id: int, trace: seq<Event>): nat {
    if trace == [] then 0 else (if trace[0] == TrackStarted(id) then 1 else 0) + Tracks(id, trace[1..])
  }

  function Releases(id: int, trace: seq<Event>): nat {
    if trace == [] then 0 else (if trace[0] == ReleaseStarted(id) then 1 else 0) + Releases(id, trace[1..])
  }

  /** Everything that a list of calls does, one after another. */
  function Traces(calls: seq<Call>): seq<Event> {
    if calls == [] then [] else Trace(calls[0]) + Traces(calls[1..])
  }

  /** The call is tracked for this token but its endpoint is not found. */
  predicate Leaks(id: int, c: Call) {
    Admitted(c) && c.lookup.value.apiTokenID == id && !Forwarded(c)
  }

  function LeakCount(id: int, calls: seq<Call>): nat {
    if calls == [] then 0 else (if Leaks(id, calls[0]) then 1 else 0) + LeakCount(id, calls[1..])
  }

  lemma {:induction false} CountsAdd(id: int, a: seq<Event>, b: seq<Event>)
    ensures Tracks(id, a + b) == Tracks(id, a) + Tracks(id, b)
    ensures Releases(id, a + b) == Releases(id, a) + Releases(id, b)
  {
    if a == [] {
      assert a + b == b;
    } else {
      CountsAdd(id, a[1..], b);
      assert (a + b)[1..] == a[1..] + b;
    }
  }

  lemma OneCallLeaks(id: int, c: Call)
    ensures Tracks(id, Trace(c)) == Releases(id, Trace(c)) + (if Leaks(id, c) then 1 else 0)
  {
    if Forwarded(c) {
      var e := Trace(c);
      assert e[1..][1..] == e[2..] && e[2..][1..] == e[3..] && e[3..][1..] == [];
      assert Tracks(id, e[3..]) == 0 && Releases(id, e[3..]) == 0;
      assert Tracks(id, e[1..]) == 0;
      assert Releases(id, e[1..]) == Releases(id, e[2..]);
    } else if Admitted(c) {
      assert Trace(c)[1..] == [];
    }
  }

  lemma {:induction false} NoneLeaks(id: int, calls: seq<Call>)
    ensures LeakCount(id, calls) == 0 <==> forall i :: 0 <= i < |calls| ==> !Leaks(id, calls[i])
  {
    if calls == [] {
    } else {
      NoneLeaks(id, calls[1..]);
      assert forall i :: 1 <= i < |calls| ==> calls[i] == calls[1..][i - 1];
      assert forall i :: 0 <= i < |calls| - 1 ==> calls[1..][i] == calls[i + 1];
    }
  }

  /**
   The concurrency count is raised once more than it is lowered for every admitted call whose
   endpoint lookup fails, and for no other; so raises and lowerings balance exactly when there are none.
   */
  lemma {:induction false} TracksExceedReleasesByLeaks(id: int, calls: seq<Call>)
    ensures Tracks(id, Traces(calls)) == Releases(id, Traces(calls)) + LeakCount(id, calls)
    ensures Tracks(id, Traces(calls)) == Releases(id, Traces(calls))
       <==> forall i :: 0 <= i < |calls| ==> !Leaks(id, calls[i])
  {
    NoneLeaks(id, calls);
    if calls == [] {
    } else {
      OneCallLeaks(id, calls[0]);
      TracksExceedReleasesByLeaks(id, calls[1..]);
      CountsAdd(id, Trace(calls[0]), Traces(calls[1..]));
    }
  }

  /** A call that leaks: a good token, no objection, but no endpoint for the path. */
  function LeakingCall(token: ApiToken): Call {
    Call(Ok(token), _ => None, _ => Err(UsageNotFound), _ => Err(UpstreamFailed("")))
  }

  /** With any token that is not blocked, such a call raises the count and never lowers it. */
  lemma LeakingCallIsNotReleased(token: ApiToken)
    requires token.state != STATE_BLOCKED
    ensures Trace(LeakingCall(token)) == [TrackStarted(token.apiTokenID)]
    ensures Tracks(token.apiTokenID, Trace(LeakingCall(token))) == 1
    ensures Releases(token.apiTokenID, Trace(LeakingCall(token))) == 0
  {
    assert Leaks(token.apiTokenID, LeakingCall(token));
    OneCallLeaks(token.apiTokenID, LeakingCall(token));
    assert Trace(LeakingCall(token))[1..] == [];
  }
}
