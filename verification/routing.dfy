/**
 What happens to a request once Express has tried the application's routes:
 an unmatched request reaches the catch-all route of app.js:47-49, a matched
 handler either answers or passes an error to the error chain.
 */
module Routing {
  import opened Errors
  import opened Middleware
  import opened Pipeline

  /** How the routes of app.js:23-45 left a request. */
  datatype RouteOutcome =
      /** No route matched the method and path. */
    | Unmatched
      /** A route's handler answered the request itself. */
    | Answered(response: Response)
      /** A route's handler called `next(err)`. */
    | Rejected(err: ErrorRecord)

  /**
   The response attempts made for a request. The catch-all route answers
   404 "Not found" and does not call `next`, so an unmatched request never
   reaches the error chain; only a foreign-key violation draws more than one
   attempt.
   */
  function Serve(o: RouteOutcome): (attempts: seq<Response>)
    ensures |attempts| >= 1
    ensures |attempts| > 1 <==> o.Rejected? && o.err.HasCode(ForeignKeyViolation)
    ensures o.Unmatched? ==> attempts == [NotFound]
    ensures o.Answered? ==> attempts == [o.response]
  {
    match o
    case Unmatched => [NotFound]
    case Answered(r) => [r]
    case Rejected(e) => Chain(e)
  }

  /**
   The one response the client receives: the first attempt. A foreign-key
   violation reaches the client as its 404, not as the attempt that follows.
   */
  function ClientResponse(o: RouteOutcome): (r: Response)
    ensures r == Serve(o)[0]
    ensures o.Rejected? && o.err.HasCode(ForeignKeyViolation) ==> r == ForeignKeyResponse(o.err)
  {
    match o
    case Unmatched => NotFound
    case Answered(r) => r
    case Rejected(e) => Chain(e)[0]
  }
}
