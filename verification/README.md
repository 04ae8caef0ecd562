# be-nc-news error pipeline, in Dafny

A model of how the be-nc-news Express application turns a failed request into
an HTTP response. This covers the catch-all 404 route and the chain of four
error-handling middlewares in `app.js`. Everything before them is out of the
model: route matching, request handlers and SQL queries. Their result is an
input here, a `Routing.RouteOutcome`. The request was unmatched, answered by
its handler, or rejected with an error value.

The error value is an `Errors.ErrorRecord`. It has four optional fields:
`code` (the Postgres SQLSTATE), `constraint`, `status` and `message`. A
missing field models a JavaScript `undefined`. `err.status && err.message` is
modelled as JavaScript truthiness: a status that is present and non-zero, and
a message that is present and non-empty. `err.code === "22P02"` is equality
with a present string.

Each middleware is a `Middleware.Middleware` value. `Middleware.Apply` gives
its `Step`: the response it sends, if any, and whether it calls `next(err)`.
`Middleware.Run` folds a list of middlewares in registration order into the
ordered sequence of response attempts. `Pipeline.Chain` is that fold over the
application's four handlers. `Pipeline.Expected` is an independent
error-to-response table. The model proves that the two agree on every error.
Only the first attempt reaches the client.

Modules: `Optional` (the `Option` type), `Errors` (error records, responses,
SQLSTATE codes, constraint names and fixed messages), `Middleware` (the
handlers and the fold), `Pipeline` (the application's chain and its
properties), `Corrected` (the chain with the foreign-key handler fixed, see
Findings) and `Routing` (the catch-all route and the whole request).

The code-based handlers (app.js:51-75) run before the status handler
(app.js:77-83). A `22P02` or `23503` is therefore answered by its code even
when the error also carries a status and message;
`Pipeline.CodeTakesPrecedenceOverStatus` states this.

## Model

| member | source | states |
|---|---|---|
| Middleware.ForeignKeyResponse | app.js:59-73 | The foreign-key 404 names the username when the constraint is comments_author_fkey, names article_id when it is comments_article_id_fkey, and names topic for any other constraint or none (each an if-and-only-if); it is always 404 |
| Middleware.Apply | app.js:51-87 | Every handler either answers or forwards, so no error is left unanswered; the only handler that both answers and forwards is the foreign-key handler as written, and it does so exactly on 23503; the last handler always answers 500 and stops |
| Middleware.Run | app.js:51-87 | Running handlers in order makes at most one attempt per handler, and an empty chain makes none |
| Middleware.RunAppend | app.js:51-87 | Registration order: the attempts of a chain followed by another are the first chain's attempts, followed by the second chain's attempts exactly when every handler of the first forwards the error |
| Middleware.RunEndingInInternalErrorAnswers | app.js:85-87 | A chain that ends with the 500 handler answers every error at least once, and no error passes through the whole of it |
| Pipeline.Chain | app.js:51-87 | Every error gets one or two response attempts, and exactly two if and only if its code is 23503 |
| Pipeline.ChainMatchesExpected | app.js:51-87 | On every error, the four handlers folded in order make exactly the attempts of the error-to-response table: 22P02 gets one 400; 23503 gets its 404 and then the status-or-500 answer; anything else gets the status-or-500 answer alone |
| Pipeline.InvalidSyntaxAnsweredOnce | app.js:51-57 | A 22P02 error gets exactly one response, 400 "Bad request", even when it also carries a status and message |
| Pipeline.UnknownAuthorAnswered | app.js:60-63 | A 23503 on comments_author_fkey first gets 404 "Not found: username does not exist" |
| Pipeline.UnknownArticleAnswered | app.js:64-70 | A 23503 on comments_article_id_fkey first gets 404 "Not found: article_id does not exist" |
| Pipeline.OtherForeignKeyAnswered | app.js:71-72 | A 23503 with any other constraint, or none, first gets 404 "Not found: topic does not exist" |
| Pipeline.ForeignKeyAnsweredTwice | app.js:59-87 | After its 404, every 23503 gets a second attempt: its own status and message verbatim when both are truthy, otherwise 500 "Internal Server Error" |
| Pipeline.DomainRejectionRelayed | app.js:77-80 | An error with neither recognised code and a truthy status and message gets exactly that status and message, verbatim, in one response |
| Pipeline.UnrecognisedErrorIsInternal | app.js:81-87 | An error with neither recognised code and a missing or zero status, or a missing or empty message, gets one 500 "Internal Server Error" |
| Pipeline.CodeTakesPrecedenceOverStatus | app.js:51-83 | The response the client sees for a 22P02 or 23503 is the same whatever status and message the error carries |
| Pipeline.InternalStatusCharacterised | app.js:51-87 | The client sees status 500 if and only if the error has neither recognised code and is either not a status-and-message rejection or one whose own status is 500 |
| Pipeline.ArticleNotFoundRelayed | models/model.js:12-13 | The missing-article rejection {status: 404, message: "Article not found"} reaches the client as that 404, in one response |
| Corrected.ForeignKeyDoubleResponse | app.js:74 | As written, an unknown comment author reported by the driver, which has no status, draws two attempts whatever the server's message: 404 "Not found: username does not exist", then 500 |
| Corrected.CorrectedChain | app.js:59-75 | With `next(err)` moved into a final else, every error gets exactly one response |
| Corrected.CorrectedKeepsFirstAttempt | app.js:51-87 | The corrected chain's single response is the first response of the chain as written, for every error |
| Corrected.ClientSeesCorrectedAnswer | app.js:59-87 | For a rejected request, the response the client receives from the application as written is the corrected chain's single response |
| Corrected.CorrectedDropsOnlySecondAttempt | app.js:74 | The corrected chain differs from the chain as written only by dropping the second attempt of a 23503 |
| Routing.Serve | app.js:47-87 | Every route outcome gets at least one response attempt. An unmatched request gets 404 "Not found" from the catch-all route and never enters the error chain. More than one attempt happens if and only if a handler rejected with a 23503 |
| Routing.ClientResponse | app.js:47-87 | The one response the client receives is the first attempt the application makes; for a 23503 it is the foreign-key 404, not the attempt that follows |

## Left out

- Route matching, CORS and JSON body parsing (app.js:19-45) are Express behaviour. Whether a route matched, and what its handler did, is the `RouteOutcome` input.
- The request handlers of controllers/controller.js and the queries of models/model.js are left out. They call a Postgres driver that is not part of this model. The only part used is the shape of the missing-article rejection, as an example input.
- The inputs that make Postgres raise 22P02 or 23503 are storage-engine behaviour. Codes and constraint names are inputs.
- Middleware.Run: a `next(err)` past the last handler adds no attempt. Express's final handler is not modelled, and the application's last handler never forwards.
- What Express does with a second `send` after the headers have been sent is not modelled. The model records only that the attempt is made.
- Pipeline.DomainRejectionRelayed: relays any truthy integer status verbatim, as the code does. It does not model Express refusing a status outside the valid HTTP range.
- Error values that are not objects, and JavaScript values of other types in `code`, `status` or `message`, are not modelled. A status is an integer and the other fields are strings.
- Routing.Serve: covers a handler that answers once or calls `next(err)` with an error value, not every request. `getDescriptionOfEndpoints` (controllers/controller.js:34-36) answers 200 and then calls `next(undefined)`, which reaches the catch-all route and makes a second attempt, 404 "Not found". The same handler has no `.catch`, so a failed read or parse of `endpoints.json` makes no attempt at all. Both follow from controller code, which is not part of this model.
- Reading `endpoints.json` from disk is I/O and is left out.

## Findings

| source | as written | input that shows it | evidently intended | confidence | as-written member | corrected member |
|---|---|---|---|---|---|---|
| app.js:74 | The foreign-key handler calls `next(err)` after its if/else-if chain, including after the three branches that already answered | A driver error with code 23503, constraint comments_author_fkey and no status (posting a comment as an unknown user) draws 404 "Not found: username does not exist" and then 500 "Internal Server Error" | `next(err)` only in a final `else`, like the other handlers, so each error is answered once | medium; not executed | Corrected.ForeignKeyDoubleResponse | Corrected.CorrectedChain |
