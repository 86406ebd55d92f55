/**
 `internal/middleware/queue_middleware.go`: the one caller of the request queue. What the queue
 answers and whether Redis does are parameters; what the middleware does is a trace.
 */
module QueueMiddleware {
  import opened PriorityService

  datatype Event =
    | AcquireCalled(priority: real)
    | NextCalled
    | ReleaseCalled
    | FailureCounted
    | RejectedWith429

  /** The priority used: the service's, or 1.0 when it reports an error. */
  function PriorityUsed(priority: real, lookupFailed: bool): real {
    if lookupFailed then 1.0 else priority
  }

  class Middleware {
    const service: Service

    constructor (service: Service)
      ensures this.service == service
    {
      this.service := service;
    }

    /**
     A request without a token bypasses the queue. Otherwise the queue is asked once, with the priority
     that the client's failure count earns, or 1.0 if Redis does not answer; and the permit is released
     once, after the handler, exactly if it was granted, also when the handler panics.
     */
    method Handle(clientID: string, redisUp: bool, acquired: bool, acquireFailed: bool, handlerPanics: bool)
      returns (trace: seq<Event>, panicked: bool)
      requires service.Valid()
      ensures clientID == "" ==> trace == [NextCalled]
      ensures clientID != "" ==> |trace| > 0 && trace[0].AcquireCalled?
      ensures clientID != "" && !redisUp ==> trace[0].priority == 1.0
      ensures clientID != "" && redisUp && clientID !in service.failures ==> trace[0].priority == service.basePriority
      ensures clientID != "" && redisUp && clientID in service.failures ==>
                trace[0].priority == CalculatePriority(
                  service.basePriority, service.priorityIncrement, service.maxPriority, service.failures[clientID])
      ensures clientID != "" && acquireFailed ==> trace[1..] == [RejectedWith429]
      ensures clientID != "" && !acquireFailed && !acquired ==> trace[1..] == [FailureCounted, RejectedWith429]
      ensures clientID != "" && !acquireFailed && acquired ==> trace[1..] == [NextCalled, ReleaseCalled]
      ensures panicked <==> NextCalled in trace && handlerPanics
    {
      trace := [];
      if clientID == "" {
        trace := trace + [NextCalled];
        return trace, handlerPanics;
      }
      var priority, lookupFailed := service.GetPriority(clientID, redisUp);
      var used := PriorityUsed(priority, lookupFailed);
      trace := trace + [AcquireCalled(used)];
      if acquireFailed || !acquired {
        if !acquireFailed {
          trace := trace + [FailureCounted];
        }
        trace := trace + [RejectedWith429];
        return trace, false;
      }
      trace := trace + [NextCalled];
      panicked := handlerPanics;
      trace := trace + [ReleaseCalled];
    }
  }

  /** The service's priority is passed on as it is; only an error replaces it. */
  lemma PriorityIsPassedOn(priority: real, other: real)
    ensures PriorityUsed(priority, false) == priority
    ensures PriorityUsed(priority, true) == PriorityUsed(other, true) == 1.0
  {
  }
}
