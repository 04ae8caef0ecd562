/**
 The foreign-key handler at app.js:59-75 calls `next(err)` after its
 if/else-if chain, so a 23503 it has just answered travels on to the status
 handler and, usually, to the 500 handler: a second response attempt on a
 response that has already been sent. Every other handler of the chain calls
 `next(err)` only in the branch where it did not answer. This module defines
 the chain with that handler's `next(err)` moved into a final `else`, proves
 it answers every error exactly once, and proves the client sees the same
 first response as with the chain as written.
 */
module Corrected {
  import opened Optional
  import opened Errors
  import opened Middleware
  import opened Pipeline
  import opened Routing

  /** The error chain with a foreign-key handler that answers or forwards, never both. */
  const IntendedChain: seq<Middleware> :=
    [RejectInvalidSyntax, ReportForeignKeyOrForward, RelayDomainRejection, InternalError]

  /** The response attempts of the corrected chain: exactly one for every error. */
  function CorrectedChain(e: ErrorRecord): (attempts: seq<Response>)
    ensures |attempts| == 1
  {
    Run(IntendedChain, e)
  }

  /** The corrected chain's one answer is the first attempt of the chain as written. */
  lemma CorrectedKeepsFirstAttempt(e: ErrorRecord)
    ensures CorrectedChain(e) == [Chain(e)[0]]
  {
    ChainMatchesExpected(e);
    var tail := IntendedChain[1..];
    assert tail[1..] == [RelayDomainRejection, InternalError];
  }

  /**
   The chain as written answers an unknown comment author twice: first the
   intended 404, then 500 from the last handler, because the driver error
   has no status, whatever the server's message says.
   */
  lemma ForeignKeyDoubleResponse(message: string)
    ensures Chain(DriverError(ForeignKeyViolation, Some(CommentsAuthorFkey), message))
            == [UsernameNotFound, InternalServerError]
  {
    ForeignKeyAnsweredTwice(DriverError(ForeignKeyViolation, Some(CommentsAuthorFkey), message));
  }

  /** The response the client receives for a rejected request is the corrected chain's single answer. */
  lemma ClientSeesCorrectedAnswer(o: RouteOutcome)
    requires o.Rejected?
    ensures [ClientResponse(o)] == CorrectedChain(o.err)
  {
    CorrectedKeepsFirstAttempt(o.err);
  }

  /** The corrected chain drops exactly the foreign-key handler's second attempt and nothing else. */
  lemma CorrectedDropsOnlySecondAttempt(e: ErrorRecord)
    ensures Chain(e) == CorrectedChain(e) + (if e.HasCode(ForeignKeyViolation) then [Chain(e)[1]] else [])
  {
    CorrectedKeepsFirstAttempt(e);
    var c := Chain(e);
    if e.HasCode(ForeignKeyViolation) {
      assert c == [c[0], c[1]];
    } else {
      assert c == [c[0]];
    }
  }
}
