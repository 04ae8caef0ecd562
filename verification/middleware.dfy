/**
 Express error-handling middlewares, `(err, request, response, next) => ...`,
 and the way Express runs them: in registration order, each one seeing the
 same error value, the next one running only when the previous one called
 `next(err)`.
 */
module Middleware {
  import opened Optional
  import opened Errors

  /** The error middlewares the application registers. */
  datatype Middleware =
      /** app.js:51-57: answers SQLSTATE 22P02 with 400, forwards anything else. */
    | RejectInvalidSyntax
      /** app.js:59-75 as written: answers SQLSTATE 23503 with a 404, then forwards every error. */
    | ReportForeignKey
      /**
       Not registered by app.js: the foreign-key handler with `next(err)` moved
       into a final `else`, so it answers or forwards, never both. Only the
       corrected chain of module `Corrected` uses it.
       */
    | ReportForeignKeyOrForward
      /** app.js:77-83: relays a truthy `status` and `message` verbatim, forwards anything else. */
    | RelayDomainRejection
      /** app.js:85-87: answers everything with 500 and never forwards. */
    | InternalError

  /** What one middleware does with an error: the response it sends, if any, and whether it calls `next(err)`. */
  datatype Step = Step(sent: Option<Response>, forwards: bool)

  /** The 404 the foreign-key handler selects, by the name of the violated constraint. */
  function ForeignKeyResponse(e: ErrorRecord): (r: Response)
    ensures r.status == 404
    ensures r == UsernameNotFound <==> e.HasConstraint(CommentsAuthorFkey)
    ensures r == ArticleIdNotFound <==> e.HasConstraint(CommentsArticleIdFkey)
    ensures r == TopicNotFound <==>
              !e.HasConstraint(CommentsAuthorFkey) && !e.HasConstraint(CommentsArticleIdFkey)
  {
    if e.HasConstraint(CommentsAuthorFkey) then UsernameNotFound
    else if e.HasConstraint(CommentsArticleIdFkey) then ArticleIdNotFound
    else TopicNotFound
  }

  /** Runs one middleware on an error. */
  function Apply(m: Middleware, e: ErrorRecord): (s: Step)
    // no middleware leaves the request without either a response or a successor
    ensures s.sent.Some? || s.forwards
    // only the as-written foreign-key handler both answers and forwards, and only on 23503
    ensures s.sent.Some? && s.forwards <==> m == ReportForeignKey && e.HasCode(ForeignKeyViolation)
    // the last handler always answers and ends the chain
    ensures m == InternalError ==> s == Step(Some(InternalServerError), false)
  {
    match m
    case RejectInvalidSyntax =>
      if e.HasCode(InvalidTextRepresentation) then Step(Some(BadRequest), false)
      else Step(None, true)
    case ReportForeignKey =>
      if e.HasCode(ForeignKeyViolation) then Step(Some(ForeignKeyResponse(e)), true)
      else Step(None, true)
    case ReportForeignKeyOrForward =>
      if e.HasCode(ForeignKeyViolation) then Step(Some(ForeignKeyResponse(e)), false)
      else Step(None, true)
    case RelayDomainRejection =>
      if e.IsDomainRejection() then Step(Some(Response(e.status.value, e.message.value)), false)
      else Step(None, true)
    case InternalError =>
      Step(Some(InternalServerError), false)
  }

  /**
   The response attempts a chain of middlewares makes for one error, in the
   order they are made. A forward past the last middleware adds nothing.
   */
  function Run(ms: seq<Middleware>, e: ErrorRecord): (attempts: seq<Response>)
    ensures |attempts| <= |ms|
    ensures ms == [] ==> attempts == []
    decreases |ms|
  {
    if ms == [] then []
    else
      var s := Apply(ms[0], e);
      (if s.sent.Some? then [s.sent.value] else [])
      + (if s.forwards then Run(ms[1..], e) else [])
  }

  /** Every middleware of `ms` forwards `e`: the error travels through the whole chain. */
  predicate PassesThrough(ms: seq<Middleware>, e: ErrorRecord)
    decreases |ms|
  {
    ms == [] || (Apply(ms[0], e).forwards && PassesThrough(ms[1..], e))
  }

  /** One step of `Run`: the first handler's attempt, then the rest of the chain if it forwards. */
  lemma RunCons(ms: seq<Middleware>, e: ErrorRecord)
    requires ms != []
    ensures Run(ms, e) == (if Apply(ms[0], e).sent.Some? then [Apply(ms[0], e).sent.value] else [])
                          + (if Apply(ms[0], e).forwards then Run(ms[1..], e) else [])
  {
  }

  /** Regrouping concatenated attempt sequences, stated once so `RunAppend` need not rediscover it. */
  lemma ConcatAssociative(a: seq<Response>, b: seq<Response>, c: seq<Response>)
    ensures a + (b + c) == (a + b) + c
  {
  }

  /**
   Registration order: running `front` followed by `back` makes `front`'s
   attempts first, and reaches `back` exactly when every middleware of `front`
   forwards.
   */
  lemma {:induction false} RunAppend(front: seq<Middleware>, back: seq<Middleware>, e: ErrorRecord)
    ensures Run(front + back, e) == Run(front, e) + (if PassesThrough(front, e) then Run(back, e) else [])
    decreases |front|
  {
    if front == [] {
      assert front + back == back;
    } else {
      var whole := front + back;
      var s := Apply(front[0], e);
      var sent := if s.sent.Some? then [s.sent.value] else [];
      assert whole[0] == front[0];
      assert whole[1..] == front[1..] + back;
      RunCons(whole, e);
      RunCons(front, e);
      if s.forwards {
        assert PassesThrough(front, e) == PassesThrough(front[1..], e);
        var later := if PassesThrough(front, e) then Run(back, e) else [];
        var rest := Run(front[1..], e);
        RunAppend(front[1..], back, e);
        assert Run(whole, e) == sent + (rest + later);
        assert Run(front, e) == sent + rest;
        ConcatAssociative(sent, rest, later);
      } else {
        assert Run(whole, e) == sent;
        assert Run(front, e) == sent;
      }
    }
  }

  /** A chain that ends with the 500 handler answers every error at least once. */
  lemma {:induction false} RunEndingInInternalErrorAnswers(ms: seq<Middleware>, e: ErrorRecord)
    requires |ms| > 0 && ms[|ms| - 1] == InternalError
    ensures |Run(ms, e)| >= 1
    ensures !PassesThrough(ms, e)
    decreases |ms|
  {
    var s := Apply(ms[0], e);
    if |ms| == 1 {
      assert s == Step(Some(InternalServerError), false);
    } else if s.forwards {
      assert ms[1..][|ms[1..]| - 1] == InternalError;
      RunEndingInInternalErrorAnswers(ms[1..], e);
    }
  }
}
