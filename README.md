# Quotopia quote pipeline, modelled in Dafny

Quotopia is a market-quote pipeline. It has four services:

- `ft` is the quote generator. It keeps an authoritative price map for SBER, BTC and ETH, moves every price once per second by a random relative change between -0.1% (inclusive) and +0.1% (exclusive), and streams the whole map to every subscriber once per second.
- `core` is a consumer. It keeps a reconnecting stream client that writes every received quote into a thread-safe cache, and it answers `GET /quotes` (all prices) and `GET /quotes/:symbol` (one price) from that cache.
- `ht` is a stateless HTTP gateway. Each `GET /quotes` opens its own stream, keeps the latest quote per symbol until the stream errors or five seconds pass, and answers with the list of those quotes. Its CORS middleware answers every `OPTIONS` request with 204.
- `auth-service` holds the request-level rules of authentication. These are the `Bearer ` prefix rule, role defaulting and privilege checks at registration, the two middlewares, the role whitelist, the password-change checks, the claims and issuers of the two token kinds, the refresh issuer check and the self-delete guard.

The project has one module per service, plus `Quotes` for the shared message and `Os` for the environment:

- `Quotes` (`quotes.dfy`): the `Quote` message and facts about sequences of quotes.
- `Os` (`os.dfy`): `os.Getenv`, over an environment given as a map.
- `Core` (`core.dfy`): `QuoteStore` is a class whose `quotes` map field its methods update. The stream client is a method that runs a finite prefix of the client's endless reconnect loop.
- `Gateway` (`gateway.dfy`): the `/quotes` handler, the CORS layer and the reduction of a stream to the latest quote per symbol.
- `Generator` (`generator.dfy`): the `QuoteServer` class, its tick and one round of its stream.
- `Auth` (`auth.dfy`): the auth rules as functions over their inputs.
- `Pipeline` (`pipeline.dfy`): properties that connect the generator to its two consumers.

The environment enters the model as parameters:

- The result of opening a stream is a function from request to result. What that stream then delivers is a finite sequence of receive results.
- In the generator, `time.Now()` readings are a function from emission index to timestamp. In token issue, the two `time.Now()` readings are two nanosecond counts.
- The dial of the consumer's stream client is a function from address to an optional error.
- `rand.Float64()` draws are a map from symbol to a real in [0, 1).
- The outcome of each `stream.Send` is a function from send index to an optional error.
- JWT parsing is a function from token string to parsed claims.
- The blacklist query is a function from token string to lookup result.
- The bcrypt comparison, the bcrypt hashing outcome and the stored-hash lookup are booleans. The email lookup of `register` is a value that says whether the query failed or whether the email is taken.

## Model

| member | source | states |
|---|---|---|
| Quotes.SymbolSetLastIndex | core/main.go:103-113 | a symbol occurs in a received sequence exactly when it has a last occurrence, which is the occurrence a last-write-wins cache keeps |
| Quotes.DistinctSymbolsCount | ft/main.go:53-67 | a sequence of quotes without a repeated symbol has as many symbols as quotes |
| Core.QuoteStore.constructor | core/main.go:30-34 | a new store is empty |
| Core.QuoteStore.Set | core/main.go:37-43 | the new contents are the old contents with the symbol mapped to the price; no other entry changes |
| Core.QuoteStore.Get | core/main.go:46-52 | found is true exactly when the symbol is stored; the price is the stored price, or 0 when the symbol is absent |
| Core.QuoteStore.GetAll | core/main.go:55-65 | the entry-by-entry copy equals the store's contents and leaves the store unchanged |
| Core.SnapshotSurvivesSet | core/main.go:37-65 | a copy taken before a `Set` still holds the old contents; a `Get` after `Set(s, p)` returns (p, true) |
| Core.GetAllQuotesHandler | core/main.go:134-148 | the answer is 503 with "no quotes available yet" exactly when the store is empty; otherwise it is 200 with the whole map |
| Core.GetQuoteBySymbolHandler | core/main.go:152-170 | the answer is 404 with "not found" and the symbol exactly when the symbol is not stored; otherwise it is 200 with the symbol and its stored price |
| Core.FreshStoreResponses | core/main.go:134-170 | before any quote has arrived, `/quotes` answers 503 and `/quotes/:symbol` answers 404 |
| Core.StartGRPCClient | core/main.go:70-118 | the client dials the fixed address "ft:50051". A failed dial is fatal and writes nothing. Otherwise every attempt opens one stream and is followed by one 5-second wait. The cache ends as the old cache updated, in order, with every quote every attempt received, and the loop is still ready for another attempt |
| Core.ReconnectLoop | core/main.go:85-117 | after any number of passes of the reconnect loop, there was one open and one 5-second wait per pass, and the cache is the old cache updated, in order, with every quote of every pass |
| Core.ReceiveAll | core/main.go:103-113 | one session writes each of its quotes into the store in arrival order |
| Core.UpsertedAt | core/main.go:103-113 | after receiving a sequence, a symbol's cached price is the price of its last received quote; a symbol never received keeps its old entry or stays absent |
| Core.UpsertedKeysGrow | core/main.go:103-113 | entries are never removed: the cached symbols are the old ones plus the received ones |
| Core.ClientCacheLatestWins | core/main.go:85-117 | across reconnects, a symbol's cached price is the one carried by its latest quote from any attempt |
| Core.FailedOpenDeliversNothing | core/main.go:93-98 | attempts whose stream could not be opened deliver no quotes |
| Gateway.GrpcAddress | ht/main.go:19-22 | the address is `GRPC_SERVER` when that variable is set and non-empty, otherwise "localhost:50051" |
| Gateway.GrpcAddressCases | ht/main_test.go:9-37 | a set variable is used as is; an unset or empty one gives the fallback |
| Gateway.StopsAtFirstError | ht/main.go:63-67 | the quotes the handler keeps are exactly those received before the first receive error; whatever follows the error is ignored |
| Gateway.CollectLatestAt | ht/main.go:63-74 | the reduced map holds a symbol exactly when it was received, and then holds the whole last quote received for it |
| Gateway.CollectLatestKeys | ht/main.go:63-74 | the reduced map's keys are the received symbols, and each entry is keyed by its own symbol |
| Gateway.ListsEntriesLength | ht/main.go:77-80 | a list that holds each map entry exactly once has as many records as the map has entries |
| Gateway.Flatten | ht/main.go:77-80 | the list holds every entry of the map exactly once, in some order, and nothing else |
| Gateway.HandleQuotes | ht/main.go:47-84 | the handler opens one stream with symbols BTC, ETH and SBER and a 5-second deadline. If the open fails, it answers 500 with the error. Otherwise it answers 200 with one record per received symbol, each record being that symbol's latest quote before the first receive error |
| Gateway.Serve | ht/main.go:36-45 | every answer carries the three CORS headers; `OPTIONS` gives 204 without reaching a handler; `GET` reaches the `/quotes` handler; any other method gives 404 |
| Gateway.OpenedMeansSuccess | ht/main.go:63-83 | once a stream is open the status is 200, and a stream that fails at once gives an empty list, not an error |
| Gateway.ResponseSize | ht/main.go:77-83 | the number of records is the number of distinct symbols received before the first error |
| Gateway.ReductionExample | ht/main.go:63-74 | BTC 100, BTC 101 and ETH 50 reduce to BTC 101 (with the later timestamp) and ETH 50 |
| Generator.Change | ft/main.go:90-91 | a draw in [0, 1) gives a relative change in [-0.001, 0.001) |
| Generator.TickBounds | ft/main.go:84-98 | a tick keeps the symbol set and moves a positive price p to a value in [0.999 p, 1.001 p), which is positive |
| Generator.TickKeepsPositive | ft/main.go:84-98 | a tick keeps the symbols and keeps every price positive |
| Generator.NeutralTick | ft/main.go:90-92 | draws of one half leave every price as it was |
| Generator.CompleteRoundLength | ft/main.go:53-67 | a complete round sends one quote per map entry |
| Generator.QuoteServer.constructor | ft/main.go:31-39 | the generator starts with SBER 275.5, BTC 95400.0 and ETH 2650.2 |
| Generator.QuoteServer.UpdateQuotes | ft/main.go:84-98 | every entry is rewritten from its own old price and its own draw; the keys stay; all prices stay positive |
| Generator.QuoteServer.StreamRound | ft/main.go:44-73 | the request is not used and the map is not written. Each sent quote carries the map's price for its symbol and the clock reading at its send, and no symbol is sent twice. When every send succeeds the round covers every entry exactly once. When a send fails, the round stops there and returns that send's error |
| Generator.SentFewer | ft/main.go:53-67 | while some entry is unsent, fewer quotes than entries have been sent |
| Generator.InitialQuotesFacts | ft/main.go:31-39 | the initial map holds exactly SBER, BTC and ETH, all with positive prices, and no UNKNOWN entry |
| Auth.GetEnv | auth-service/main.go:800-806 | the variable's value when it is set and non-empty, otherwise the default |
| Auth.GetEnvCases | auth-service/main_test.go:33-46 | a set variable is returned; an unset or empty one gives the default |
| Auth.StripBearer | auth-service/main.go:210-212 | strips "Bearer " only when the header starts with it and is longer than seven characters; any other header is kept as is |
| Auth.StripBearerCases | auth-service/main.go:732-734 | "Bearer t" gives t for a non-empty t, "Bearer " alone is kept, and a header without the prefix is kept |
| Auth.StripBearerOnce | auth-service/main.go:454-456 | only one prefix is removed: "Bearer Bearer t" gives "Bearer t" |
| Auth.RoleOrDefault | auth-service/main.go:195-198 | an empty requested role becomes "user"; any other role is kept |
| Auth.RegisterChecks | auth-service/main.go:176-229 | the checks run in source order: a failed email query is 500 "Database error", a taken email is 409, a failed hash is 500, and only then the role check runs. Registration goes on exactly when all of them pass, with the defaulted role |
| Auth.TakenEmailBeforePrivilege | auth-service/main.go:176-229 | a taken email is refused with 409 whatever role is asked for and whoever asks |
| Auth.RegisterRole | auth-service/main.go:200-229 | the role check, reached once the email and hashing steps passed: an admin or trader role is allowed exactly when the caller's token parses with role admin; otherwise the answer is 403 with the privilege error. Every other role is allowed without a token |
| Auth.RegisterWithoutRole | auth-service/main.go:195-229 | registration without a role yields "user" whatever the header |
| Auth.AuthMiddleware | auth-service/main.go:722-770 | a request passes exactly when the header is non-empty, the stripped token is not found blacklisted and the token parses. It then carries the token's claims. Every refusal is 401: "Authorization header required" for an empty header, then "Token has been revoked" for a blacklisted token, then "Invalid token" for one that does not parse |
| Auth.BlacklistFailsOpen | auth-service/main.go:736-743 | when the blacklist query fails, a token that parses passes |
| Auth.AdminMiddleware | auth-service/main.go:773-783 | passes exactly when the role is "admin"; otherwise 403 "Admin access required" |
| Auth.AdminRouteGate | auth-service/main.go:140-146 | an admin route is reached exactly when authentication passes and the claims' role is admin. Refusals are 401 from authentication or 403 from the role check |
| Auth.ValidateRole | auth-service/main.go:588-592 | a role is accepted exactly when it is admin, trader, user or viewer; otherwise 400 with the list of allowed roles |
| Auth.ChangePassword | auth-service/main.go:506-525 | the checks run in source order: a missing stored hash is 500 "User not found", then a wrong old password is 401, then a new password equal to the old one is 400. The change proceeds exactly when all three pass |
| Auth.SamePasswordRefused | auth-service/main.go:521-525 | a new password identical to the old one is never accepted |
| Auth.AccessClaims | auth-service/main.go:663-684 | an access token carries the user's id, email and role and issuer "quotopia-auth". Its expiry is the first clock reading plus one hour, and its issue time is the second reading, each truncated to whole seconds |
| Auth.RefreshClaims | auth-service/main.go:687-699 | a refresh token carries the user's id, email and role and issuer "quotopia-auth-refresh". Its expiry is the first clock reading plus seven days, and its issue time is the second reading, each truncated to whole seconds |
| Auth.TokenLifetimes | auth-service/main.go:663-699 | when the two clock readings are in order and less than a second apart, an access token lives 3599 or 3600 seconds and a refresh token 604799 or 604800 seconds |
| Auth.LifetimeOneSecondShort | auth-service/main.go:663-699 | two readings in order, less than a second apart and in different whole seconds give an access token of exactly 3599 seconds and a refresh token of exactly 604799 seconds |
| Auth.LifetimeShortExample | auth-service/main.go:663-699 | the readings 999,999,999 ns and 1,000,000,000 ns give tokens of 3599 and 604799 seconds |
| Auth.RefreshCheck | auth-service/main.go:371-391 | a refresh is allowed exactly when the token parses and its issuer is the refresh issuer. An unparseable token is 401 "Invalid refresh token"; another issuer is 401 "Not a refresh token" |
| Auth.IssuerSeparatesTokens | auth-service/main.go:388-391 | an access token is refused by the refresh check and a refresh token passes it |
| Auth.RefreshTokenPassesAuthMiddleware | auth-service/main.go:745-766 | `authMiddleware` does not check the issuer, so a refresh token is accepted as an access token |
| Auth.SelfDeleteAsWrittenMisses | auth-service/main.go:629-633 | the guard as written lets admin 5 delete path id "5", and refuses admin 49 deleting path id "1" |
| Auth.ItoaRoundTrip | auth-service/main.go:629-633 | decimal rendering of an id parses back to that id |
| Auth.SelfDeleteBlocksOnlySelf | auth-service/main.go:629-633 | under the corrected guard, the path id of user u is refused for admin a exactly when u = a |
| Auth.DeleteUserGuard | auth-service/main.go:626-633 | corrected guard: for every id u written in decimal, the request is refused with 400 "Cannot delete your own account" exactly when u is the admin's own id |
| Pipeline.GatewayOverCompleteRound | ht/main.go:63-74 | a gateway that receives one complete generator round holds every generator symbol at that round's price |
| Pipeline.CacheAfterCompleteRound | core/main.go:103-113 | a consumer cache that receives one complete generator round agrees with the round on every generator symbol and keeps its other entries |
| Pipeline.NeutralTickScenario | ft/main.go:84-98 | from the initial prices, a tick with zero change followed by one complete round leaves an empty consumer cache holding exactly the initial prices |
| Pipeline.GatewayAddressIsGetEnv | ht/main.go:19-22 | the gateway picks its address by the same rule as the auth service's `getEnv` |

## Left out

- Transport: gRPC, HTTP, gin routing and JSON encoding are not modelled. The handlers return a status and a body value. The `main` functions, which do port selection, the server loop and route tables, are not modelled either; the routes appear only as the operations they reach.
- Concurrency: the read/write locks of both price maps are not modelled. Every `Set`, `Get`, `GetAll`, tick and stream round is one atomic step.
- Time: sleeps and the tickers become counts (`Core.StartGRPCClient` returns the seconds it waited) and finite prefixes. The generator's stream session over many rounds is modelled as one round (`Generator.QuoteServer.StreamRound`), since every round is the same step over the current map. The endless reconnect loop is modelled over a finite sequence of attempts.
- Prices: `float64` arithmetic is modelled as real arithmetic, so rounding is not modelled.
- Randomness and clocks: `rand.Float64()` and `time.Now()` are parameters.
- Network outcomes: a failed dial, a failed `StreamQuotes`, a receive error and a send error are parameters. Hitting the 5-second deadline in `ht` appears as the receive error that ends the sequence.
- `ht` declares the stream request but never reads it back: the generator ignores it (`StreamRound` has a `req` parameter it does not use), so no symbol filtering exists in the code.
- Core's generator address is the constant "ft:50051" (`Core.FtAddress`). It is not read from the environment, whatever the service's documentation suggests; the model follows the code.
- The `defer cancel()` inside the client loop holds each iteration's context until the function returns. This leak has no observable effect on the cache and is not modelled.
- `Gateway.Flatten`: requires that each entry is keyed by its own symbol, which holds for every map the handler builds (`Gateway.CollectLatestKeys`). The order of Go's map iteration is not fixed, so the contract states only that every entry is listed once.
- `healthHandler` in `core` and `auth-service` is a fixed JSON answer and is not modelled.
- `initJWTSecret` and the JWT signing key are not modelled: token parsing is an input function.
- Database queries, bcrypt hashing and comparison are not modelled. The model takes their outcomes as inputs: the blacklist lookup, the email lookup and hashing result of `register`, and the stored-hash lookup and `oldMatches` of `changePassword`. The steps of `register` and `changePassword` that run before the modelled checks are modelled by those inputs. The database steps that run after the modelled checks are not modelled: they are SQL statements and their error answers. These are the user insert and token issue of `register`, and the hash update of `changePassword`. The same holds for the SQL steps of `login`, `logout`, `refreshToken`, `getCurrentUser`, `listUsers`, `changeUserRole` and `deleteUser`.
- `login` appears only through the claims of the two tokens it issues (`Auth.AccessClaims`, `Auth.RefreshClaims`); its user lookup, inactive-user check and bcrypt comparison are not modelled. `logout` appears only through the prefix rule it shares with the middleware (`Auth.StripBearer`); its blacklist insert and refresh-token delete are SQL statements and are not modelled.
- The auth service's `corsMiddleware` is not modelled; the gateway's CORS layer (`Gateway.Serve`) is the one the pipeline's UI depends on.
- Request body binding errors (400 from `ShouldBindJSON`) are not modelled.
- The untruncated expiry time that `generateToken` returns beside the token, for the response body, is not modelled; only the signed claims are.
- `Auth.TokenLifetimes`: assumes the two clock readings in one token are in order and less than a second apart. The source makes no such promise, since that depends on the wall clock.

## Findings

| source | as written | input that shows it | evidently intended | confidence | as-written member | corrected member |
|---|---|---|---|---|---|---|
| auth-service/main.go:630 | the admin's id is turned into text by `string(rune(adminID))`, which gives the character with that code point, not the decimal digits | admin 5 deleting path id "5" is not refused (`string(rune(5))` is U+0005); admin 49 deleting path id "1" is refused (`string(rune(49))` is "1") | compare with the decimal form, `strconv.Itoa(adminID)`, so that an admin can never delete their own account and can delete any other | not executed | Auth.SelfDeleteAsWrittenMisses | Auth.DeleteUserGuard |
