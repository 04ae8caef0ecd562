/**
 The application's error pipeline: the four error middlewares of app.js:51-87
 in registration order, folded into the sequence of response attempts they
 make for one error. Only the first attempt reaches the client.
 */
module Pipeline {
  import opened Optional
  import opened Errors
  import opened Middleware

  /** The error middlewares in the order app.js registers them. */
  const AppChain: seq<Middleware> :=
    [RejectInvalidSyntax, ReportForeignKey, RelayDomainRejection, InternalError]

  /** The response attempts the application's error chain makes for `e`. */
  function Chain(e: ErrorRecord): (attempts: seq<Response>)
    ensures 1 <= |attempts| <= 2
    ensures |attempts| == 2 <==> e.HasCode(ForeignKeyViolation)
  {
    Run(AppChain, e)
  }

  // ---------------------------------------------------------------------------
  // Reference definition: the error-to-response table, case by case.
  // ---------------------------------------------------------------------------

  /** What an error that gets past both code-based handlers is answered with. */
  function StatusOrInternal(e: ErrorRecord): Response {
    if e.IsDomainRejection() then Response(e.status.value, e.message.value) else InternalServerError
  }

  /**
   The expected attempts, read off the error's classification: an
   invalid-syntax error gets one 400; a foreign-key violation gets its 404 and
   then whatever a code-less error with the same status and message would
   get; every other error gets the status-or-500 answer alone.
   */
  function Expected(e: ErrorRecord): seq<Response> {
    if e.HasCode(InvalidTextRepresentation) then [BadRequest]
    else if e.HasCode(ForeignKeyViolation) then [ForeignKeyResponse(e), StatusOrInternal(e)]
    else [StatusOrInternal(e)]
  }

  /** The fold of the four middlewares agrees with the reference table on every error. */
  lemma ChainMatchesExpected(e: ErrorRecord)
    ensures Chain(e) == Expected(e)
  {
    var tail := AppChain[1..];
    assert tail[1..] == [RelayDomainRejection, InternalError];
    assert tail[1..][1..] == [InternalError];
  }

  // ---------------------------------------------------------------------------
  // The properties of the chain, one handler at a time.
  // ---------------------------------------------------------------------------

  /** 22P02 is answered once with 400 "Bad request", whatever status and message the error carries. */
  lemma InvalidSyntaxAnsweredOnce(e: ErrorRecord)
    requires e.HasCode(InvalidTextRepresentation)
    ensures Chain(e) == [BadRequest]
  {
    ChainMatchesExpected(e);
  }

  /** A 23503 on comments_author_fkey first gets 404 "Not found: username does not exist". */
  lemma UnknownAuthorAnswered(e: ErrorRecord)
    requires e.HasCode(ForeignKeyViolation) && e.HasConstraint(CommentsAuthorFkey)
    ensures Chain(e)[0] == UsernameNotFound
  {
    ChainMatchesExpected(e);
  }

  /** A 23503 on comments_article_id_fkey first gets 404 "Not found: article_id does not exist". */
  lemma UnknownArticleAnswered(e: ErrorRecord)
    requires e.HasCode(ForeignKeyViolation) && e.HasConstraint(CommentsArticleIdFkey)
    ensures Chain(e)[0] == ArticleIdNotFound
  {
    ChainMatchesExpected(e);
  }

  /** Any other 23503, including one with no constraint name, first gets 404 "Not found: topic does not exist". */
  lemma OtherForeignKeyAnswered(e: ErrorRecord)
    requires e.HasCode(ForeignKeyViolation)
    requires !e.HasConstraint(CommentsAuthorFkey) && !e.HasConstraint(CommentsArticleIdFkey)
    ensures Chain(e)[0] == TopicNotFound
  {
    ChainMatchesExpected(e);
  }

  /**
   The foreign-key handler calls `next(err)` after answering, so every 23503
   gets a second attempt: the error's own status and message when both are
   truthy, 500 otherwise.
   */
  lemma ForeignKeyAnsweredTwice(e: ErrorRecord)
    requires e.HasCode(ForeignKeyViolation)
    ensures |Chain(e)| == 2
    ensures Chain(e)[0].status == 404
    ensures e.IsDomainRejection() ==> Chain(e)[1] == Response(e.status.value, e.message.value)
    ensures !e.IsDomainRejection() ==> Chain(e)[1] == InternalServerError
  {
    ChainMatchesExpected(e);
  }

  /** Without a recognised code, a truthy status and message are relayed verbatim in one response. */
  lemma DomainRejectionRelayed(e: ErrorRecord)
    requires !e.HasCode(InvalidTextRepresentation) && !e.HasCode(ForeignKeyViolation)
    requires e.IsDomainRejection()
    ensures Chain(e) == [Response(e.status.value, e.message.value)]
  {
    ChainMatchesExpected(e);
  }

  /** Without a recognised code, a missing or zero status or a missing or empty message gets one 500. */
  lemma UnrecognisedErrorIsInternal(e: ErrorRecord)
    requires !e.HasCode(InvalidTextRepresentation) && !e.HasCode(ForeignKeyViolation)
    requires !e.IsDomainRejection()
    ensures Chain(e) == [InternalServerError]
  {
    ChainMatchesExpected(e);
  }

  /**
   Precedence: the code-based handlers run before the status handler, so the
   response the client sees for a 22P02 or 23503 does not depend on the
   error's status or message.
   */
  lemma CodeTakesPrecedenceOverStatus(e: ErrorRecord, s: Option<int>, m: Option<string>)
    requires e.HasCode(InvalidTextRepresentation) || e.HasCode(ForeignKeyViolation)
    ensures Chain(e.WithStatusAndMessage(s, m))[0] == Chain(e)[0]
  {
    ChainMatchesExpected(e);
    ChainMatchesExpected(e.WithStatusAndMessage(s, m));
  }

  /**
   The client sees a 500 exactly when the error has no recognised code and is
   either not a domain rejection or a domain rejection whose own status is 500.
   */
  lemma InternalStatusCharacterised(e: ErrorRecord)
    ensures Chain(e)[0].status == 500 <==>
              && !e.HasCode(InvalidTextRepresentation)
              && !e.HasCode(ForeignKeyViolation)
              && (!e.IsDomainRejection() || e.status == Some(500))
  {
    ChainMatchesExpected(e);
  }

  /** The rejection `fetchArticleById` raises for a missing article reaches the client as 404 "Article not found". */
  lemma ArticleNotFoundRelayed()
    ensures Chain(ArticleNotFound) == [Response(404, "Article not found")]
  {
    DomainRejectionRelayed(ArticleNotFound);
  }
}
