# apollo-mongoose-boilerplate gateway core, modelled in Dafny

The gateway builds one GraphQL schema from the controllers it is given,
plus a built-in diagnostics fragment. It connects to MongoDB once at startup
and serves the schema over Apollo's standalone server. It also configures a
Redis publish/subscribe client for realtime events. Almost all of this is
framework wiring. The model covers the decisions the code makes itself:

- `RequestContext` (`wrappers.dfy` supplies `Option`): the per-request
  context callback of `listen`. It turns the optional `Authorization` header
  into the `token` entry: `null`, `undefined` or a string. JavaScript's
  `split(' ')` is modelled exactly, empty pieces included, and proved to be
  the inverse of `join(' ')`.
- `Schema`: the list assembly of `createSchema`. The type definitions and
  resolver maps of the controllers are taken in order, and the diagnostics
  fragment (type `Status`, field `Query.chechConnection`) is appended last.
  Fragments are abstract values; resolvers are opaque names.
- `Database`: `connectToDatabase`. An unset or empty `DB` variable is fatal
  before any connect call; a failed connect is fatal too. Both end in exit
  status 1, returned as a value. The connect call's outcome is an input.
- `AppServer`: the `App` class. `NewApp` models `new App(...)`: an empty
  `DB` value exits inside the constructor, before the schema is built; any
  other value gives an App whose connect call is still pending. The App
  holds the `db_connection` flag and the `graphQL.url` record, plus the
  schema lists fixed at construction. `Initialized` completes the pending
  connect call and only ever sets the flag to true; the `chechConnection`
  resolver reads the flag.
- `Redis`: the reconnect delay of the broker options in `src/redis.ts`,
  `retryStrategy(times) = min(times * 50, 2000)`.

The model follows the code as written, including these points:
- the diagnostics field is spelled `chechConnection`;
- the schema assembly does not check for duplicate field paths;
- a header that is exactly `Bearer` gives `undefined`, not `null`;
- `BearerX y` counts as a bearer header, because the prefix test has no
  trailing space.

## Model

| member | source | states |
|---|---|---|
| `Redis.RetryStrategy` | src/redis.ts:7-10 | the delay is the minimum of `times * 50` and 2000: at most both, equal to one; never above 2000 and never negative for a non-negative attempt count |
| `Redis.RetryLinearBelowCeiling` | src/redis.ts:9 | for attempts up to 40 the delay is exactly `50 * times` |
| `Redis.RetryCappedFrom40` | src/redis.ts:9 | from attempt 40 on the delay is exactly 2000 |
| `Redis.RetryMonotone` | src/redis.ts:9 | a later attempt never waits less than an earlier one |
| `RequestContext.Split` | src/app.ts:91 | `split(' ')` always yields at least one piece |
| `RequestContext.JoinSplit` | src/app.ts:91 | joining the pieces of a split with the separator gives back the original header |
| `RequestContext.SplitJoin` | src/app.ts:91 | splitting a join of separator-free pieces gives back exactly those pieces, so the split is the inverse of join |
| `RequestContext.SplitPiecesFree` | src/app.ts:91 | no piece of a split contains the separator |
| `RequestContext.SplitSeveral` | src/app.ts:91 | a split has a second piece exactly when the header contains a space |
| `RequestContext.SplitFreePrefix` | src/app.ts:91 | a space-free leading run is the start of the first piece and leaves the later pieces unchanged |
| `RequestContext.ExtractToken` | src/app.ts:88-94 | the context's token is `null` exactly when the header is missing, empty or lacks the `Bearer` prefix; `undefined` exactly when it has the prefix but no space; otherwise the second space-separated piece, which contains no space |
| `RequestContext.MissingOrEmptyHeader` | src/app.ts:90-92 | a missing header and an empty header both give `null` |
| `RequestContext.BearerSecondComponent` | src/app.ts:90-91 | a `Bearer`-prefixed word, a space, a space-free token and then nothing or a space-led rest yields that token |
| `RequestContext.Examples` | src/app.ts:90-92 | `Bearer abc123` gives `abc123`, `BearerX y` gives `y`, `Bearer a b` gives `a`, `Basic xyz` gives `null`, `Bearer` gives `undefined` |
| `Schema.TypeDefsOf` | src/app.ts:37-38 | one type-definition document per controller, entry `i` from controller `i` |
| `Schema.ResolversOf` | src/app.ts:37-39 | one resolver map per controller, entry `i` from controller `i` |
| `Schema.CreateSchema` | src/app.ts:33-66 | the assembled lists are the controllers' documents and resolver maps in input order, with the diagnostics fragment appended last, so each has one more entry than there are controllers |
| `Schema.AssembledPaths` | src/app.ts:54-66 | whatever the controllers, the assembled resolver maps define exactly the controllers' field paths plus `Query.chechConnection` |
| `Database.ConfigTarget` | src/app.ts:74 | an unset `DB` variable reads as the empty target; a set one is used as given |
| `Database.ConnectToDatabase` | src/app.ts:72-84 | the outcome is a connection to the target exactly when the target is non-empty and the connect succeeds; every other outcome is exit status 1; an empty target is fatal with reason "not set" |
| `Database.EmptyTargetNeverConnects` | src/app.ts:74-82 | with an empty target the outcome does not depend on the connect call, which is never made, and is exit status 1 |
| `AppServer.NewApp` | src/app.ts:15-22 | with an empty `DB` value the process exits with status 1 and no App or schema exists; otherwise a fresh App waits on that target, with the flag false, no server address, and the schema lists `createSchema` assembles from the controllers |
| `AppServer.App.constructor` | src/app.ts:15-22 | once the `DB` check has passed, the new App has the flag false and no server address, and its schema lists are those `createSchema` assembles from the controllers |
| `AppServer.App.ChechConnection` | src/app.ts:56-59 | the resolver reads state only; `status` equals the flag, and the message is `DB CONNECTED` exactly when the flag is set and `DB NOT CONNECTED` exactly when it is not |
| `AppServer.App.Initialized` | src/app.ts:24-30 | when the pending connect succeeds the flag becomes true; when it fails the exit code is 1 and the flag is unchanged; a set flag is never cleared |
| `AppServer.App.Listen` | src/app.ts:86-98 | listening records the address the server reports |

## Left out

- The connect call (`mongoose.connect`, `mongoose.set`) is foreign I/O. Its success or failure is a boolean input; the host it logs is not modelled.
- `makeExecutableSchema`, `gql` parsing and the lodash `merge` are foreign libraries. The model stops at the two lists passed to them. (`merge(resolvers)` with one argument returns the list unchanged; the library merges the maps.)
- The text of the diagnostics type definitions is kept as a string. GraphQL parsing is not modelled.
- `ApolloServer` and `startStandaloneServer` are foreign. `AppServer.App.Listen` takes the address the server reports as an input. The port argument (default 3000) is passed to that library only, so it is not modelled.
- `RedisPubSub` and `ioredis` construction, and all publish/subscribe traffic, are network I/O. The broker host (`localhost`) and port (6379) are only passed to that library. Only the delay function is modelled.
- `process.exit(1)` is represented by a returned exit code. `console.log` output is left out.
- When the connect call completes relative to `listen()` and to concurrent requests is up to the event loop. `AppServer.App.Initialized` models that completion as one step that may come at any point after `NewApp` returns an App.
- `src/interface/basecontext.interface.ts` only declares a type.
- The server has no subscription transport and no shutdown sequence of its own, and the schema assembly does no collision detection, so none of these is modelled.
