/**
 The error values that reach the application's error-handling middlewares, and
 the responses those middlewares send.

 An error is whatever a request handler passed to `next(err)`: either a
 rejection raised by the Postgres driver (which carries a SQLSTATE `code` and,
 for constraint violations, the `constraint` name) or a domain rejection built
 by the data-access layer as `{status, message}`. Every field is optional,
 because JavaScript reads a missing property as `undefined`.
 */
module Errors {
  import opened Optional

  /** SQLSTATE 22P02, invalid_text_representation (e.g. "abc" where an integer id is expected). */
  const InvalidTextRepresentation: string := "22P02"
  /** SQLSTATE 23503, foreign_key_violation. */
  const ForeignKeyViolation: string := "23503"

  /** Foreign-key constraint on comments.author, referencing users.username. */
  const CommentsAuthorFkey: string := "comments_author_fkey"
  /** Foreign-key constraint on comments.article_id, referencing articles.article_id. */
  const CommentsArticleIdFkey: string := "comments_article_id_fkey"

  datatype ErrorRecord = ErrorRecord(
    code: Option<string>,
    constraint: Option<string>,
    status: Option<int>,
    message: Option<string>)
  {
    /** `err.code === c`: an absent code equals no string. */
    predicate HasCode(c: string) {
      code == Some(c)
    }

    /** `err.constraint === c`. */
    predicate HasConstraint(c: string) {
      constraint == Some(c)
    }

    /** JavaScript truthiness of `err.status`: present and not zero. */
    predicate StatusTruthy() {
      status.Some? && status.value != 0
    }

    /** JavaScript truthiness of `err.message`: present and not the empty string. */
    predicate MessageTruthy() {
      message.Some? && message.value != ""
    }

    /** `err.status && err.message`: the shape of a domain rejection. */
    predicate IsDomainRejection() {
      StatusTruthy() && MessageTruthy()
    }

    /** The error with its own status and message replaced; code and constraint are kept. */
    function WithStatusAndMessage(s: Option<int>, m: Option<string>): ErrorRecord {
      this.(status := s, message := m)
    }
  }

  /** A response attempt: `response.status(status).send({ message })`. */
  datatype Response = Response(status: int, message: string)

  const NotFound: Response := Response(404, "Not found")
  const BadRequest: Response := Response(400, "Bad request")
  const UsernameNotFound: Response := Response(404, "Not found: username does not exist")
  const ArticleIdNotFound: Response := Response(404, "Not found: article_id does not exist")
  const TopicNotFound: Response := Response(404, "Not found: topic does not exist")
  const InternalServerError: Response := Response(500, "Internal Server Error")

  /**
   An error raised by the Postgres driver: a SQLSTATE code, the violated
   constraint's name if any, and the server's message text. It has no status,
   so it is never taken for a domain rejection, whatever its message.
   */
  function DriverError(code: string, constraint: Option<string>, message: string): (e: ErrorRecord)
    ensures !e.IsDomainRejection()
  {
    ErrorRecord(Some(code), constraint, None, Some(message))
  }

  /** A domain rejection `{status, message}` as built by the data-access layer; it has no code. */
  function Rejection(status: int, message: string): (e: ErrorRecord)
    ensures e.code == None && e.constraint == None
    ensures e.IsDomainRejection() <==> status != 0 && message != ""
  {
    ErrorRecord(None, None, Some(status), Some(message))
  }

  /** The rejection `fetchArticleById` produces when no article has the requested id. */
  const ArticleNotFound: ErrorRecord := Rejection(404, "Article not found")
}
