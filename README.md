# Gotify counting client — a Dafny model

The gateway service `gotifyService` reads a Gotify notification server on
behalf of a dashboard widget and reports three numbers: how many
applications, how many clients and how many messages the server holds.
Applications and clients take one request each; the result is the length of
the decoded list. Messages are paginated by the server (at most 200 per
page), so the service walks the listing: it asks for a page from cursor 0,
adds the page's `size` to a running total, and continues from the page's
`since` until a page reports `since == 0`. Any failure aborts the whole
count.

The model has three files:

- `upstream.dfy` (module `Upstream`): one HTTP exchange as a value
  (`NotSent`, `NoReply`, or `Reply(status, body)` with a body that decoded or
  not), the four error kinds, and `Receive`, the error policy every endpoint
  shares.
- `gotify.dfy` (module `Gotify`): the server as a value (`Server`: what the
  application and client endpoints answer, and what the message endpoint
  answers to each query), `GetApplications` and `GetClients` as functions,
  `GetMessages` as a method with the service's loop, the predicate `IsRun`
  that says which request traces and outcomes a message count may produce,
  and `CountMessages`, an independent recursive definition of the count that
  the loop is proved to compute.
- `message_facts.dfy` (module `MessageFacts`): the promises of the message
  count, proved about every trace `IsRun` admits.

The message endpoint is a total function from query to reply, so "the same
`Server` value" means "an unchanged upstream". `GetMessages` returns the
queries it issued (`trace`) alongside the outcome, which lets the contracts
speak about cursor threading and the `limit` parameter.

Two points about the code that the model keeps as they are:

- Page sizes are counts, but the code never checks that they are
  non-negative; `make([]struct{}, totalMessages)` panics on a negative total
  (internal/services/gotify.go:162), so the model keeps `size` an unbounded
  integer and has the outcome `Panicked` for that case.
- Nothing in the code requires the `since` cursors to be monotone; the model
  proves only that each cursor is the one the previous page returned.

## Model

| member | source | states |
|---|---|---|
| `Upstream.Receive` | internal/services/gotify.go:110-148 | a value comes back exactly when a reply with status 200 and a decodable body arrives, and it is the decoded body; a non-200 status is reported with its code whatever the body holds; a 200 reply with a malformed body is a decode error; a request that could not be built is a request error and one that got no reply is a transport error |
| `Gotify.GetApplications` | internal/services/gotify.go:37-67 | succeeds exactly on a 200 reply whose body decodes, and then returns the number of decoded application records; otherwise fails with the request, transport, status (with its code) or decode error |
| `Gotify.GetClients` | internal/services/gotify.go:70-100 | the same for the client listing: success only on a decoded 200 reply, result the number of decoded client records, each failure kind propagated |
| `Gotify.GetMessages` | internal/services/gotify.go:104-166 | every request asks for `limit` 200; the first uses cursor 0; each later one uses the `since` of the page just before it, which pointed further; an error on the last request gives that error and no total; a last page (`since == 0`) gives the sum of every fetched page's size, its own included (or `Panicked` when that sum is negative); and the outcome equals the reference count `CountMessages` |
| `Gotify.SizeSumAppend` | internal/services/gotify.go:153 | adding one more page to the fetched ones adds exactly that page's size to the total |
| `Gotify.SuffixMatchesReference` | internal/services/gotify.go:109-158 | from any request of a walk on, the rest of the walk gives what the reference count from that request's cursor gives: the same error, the same sum of sizes, or no end within the remaining requests |
| `Gotify.RunMatchesReference` | internal/services/gotify.go:104-166 | every walk that `IsRun` admits ends with the outcome `CountMessages` computes |
| `MessageFacts.FirstRequest` | internal/services/gotify.go:105-119 | when any request is allowed, the walk issues one and it asks for 200 messages from cursor 0 |
| `MessageFacts.ContinuingPageAdvancesCursor` | internal/services/gotify.go:153-158 | a page with nonzero `since`, of any size including 0, does not stop the walk: the next request asks for 200 messages from that `since` |
| `MessageFacts.ErrorAborts` | internal/services/gotify.go:149-151 | an error on any page makes that request the last one and the outcome that error, with no partial total |
| `MessageFacts.SentinelEnds` | internal/services/gotify.go:153-155 | a page with `since == 0` is the last request and the outcome is the total of all fetched sizes, that page's included, or `Panicked` exactly when that total is negative |
| `MessageFacts.SinglePage` | internal/services/gotify.go:153-155 | if the first page already has `since == 0`, exactly one request is made and the total is that page's size |
| `MessageFacts.EmptyPageThenLastPage` | internal/services/gotify.go:153-158 | an empty page with `since` 17 followed by a last page of 5 messages gives two requests, from cursors 0 and 17, and a total of 5 |
| `MessageFacts.PrefixesAgree` | internal/services/gotify.go:109-158 | two walks against the same server issue the same first requests |
| `MessageFacts.NotShorter` | internal/services/gotify.go:154-158 | no walk against a server stops while another walk against the same server goes on |
| `MessageFacts.RunIsUnique` | internal/services/gotify.go:104-158 | counting twice against an unchanged server issues the same requests and gives the same outcome |
| `MessageFacts.MoreBudgetSameTally` | internal/services/gotify.go:109 | once the reference count from a cursor has ended within some number of requests, allowing more requests does not change it |
| `MessageFacts.BoundIrrelevantOnceEnded` | internal/services/gotify.go:109 | the model's request bound changes the message count only for a server that has not sent the last page within it |

## Left out

- `Gotify.GetMessages`: the service's loop has no iteration cap; the model takes a request bound `maxRequests` and reports `NoSentinel` when it is used up without a last page. A server that keeps answering with pages whose `since` is nonzero, and never with an error, makes the service loop forever; the model shows that as `NoSentinel` for every bound, and `BoundIrrelevantOnceEnded` shows the bound never changes a count that ends.
- `Gotify.GetMessages`: the running total is a Go `int`; its 64-bit wrap-around is not modelled (the total is an unbounded integer).
- `NewGotifyService` and the HTTP client it builds, with its 10-second timeout (internal/services/gotify.go:25-34): a timeout is one of the ways an exchange ends in `NoReply`.
- Building URLs and requests, the `X-Gotify-Key` header and `client.Do` (internal/services/gotify.go:39-51, 72-84, 112-134): the reply to each request is given by the `Server` value, and a request that cannot be built is `NotSent`.
- JSON decoding and the shape of `models.GotifyMessageStats`: a body is either decoded into the expected value or `Malformed`. The decoder's leniency (for example, missing fields read as zero) is part of what the `Server` value answers; `models` is not part of this model.
- Error message texts and `%w` wrapping: an error is one of four kinds, and a status error keeps its code rather than its status text.
- The shape of the returned values (a list of empty structs, a map with key `messages`): the model returns the count itself.
- The upstream is assumed not to change during one count: `Server.messages` is a function of the query, so a query asked twice gets the same answer. A live server can change between pages; in particular a walk that asks the same cursor twice can, in the model, only end as `NoSentinel`.
- Sharing the HTTP client between concurrent calls: each operation is modelled as one sequential call.
