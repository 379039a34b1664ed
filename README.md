# webpack-app: the dev-server router and output naming, in Dafny

The repository is a single webpack configuration for a front end with two apps,
`santorini` and `mykonos`. Its only decision logic is:

- the **BrowserSync middleware** (`function (req, res, next)`), which for each request
  either redirects `/src/<entry>/...` permanently to `/<entry>`, rewrites `/<entry>` in
  place to `/src/<entry>/<entry>.html` and continues the chain, or continues the chain
  with the request untouched;
- the **`output.filename` callback**, which puts the `main` bundle at `main.bundle.js`
  and every other chunk `n` at `src/<n>/<n>.bundle.js`;
- the **naming scheme** shared by the history-fallback rewrite table and the
  per-entry HtmlWebpackPlugin pages (`src/<e>/<e>.html`).

Modules:

- `JsStrings` (`js_strings.dfy`): the JavaScript built-ins the router uses:
  `startsWith`, `substring(1)`, `split('/')` (with its inverse `Join` and round-trip
  lemmas), array indexing that yields `undefined` (`None`) past the end, and
  `includes` on the registry keys.
- `Router` (`router.dfy`): `Route(url, keys)`, the three-way decision
  (`Redirect | Rewrite | PassThrough`) as a pure function of the URL and an arbitrary
  finite set of registry keys, and the lemmas about it.
- `Middleware` (`middleware.dfy`): `Request` (mutable `url`), `Response` (status,
  headers, headers sent, finished) and `Next` (how often the chain was continued) as
  classes, and `Handle`, the middleware written statement by statement like the
  source and proved to carry out `Route`.
- `Config` (`config.dfy`): the entry registry, `output.filename`, the per-entry HTML
  file names, the fallback rewrite table and first-match rewriting.
- `Consistency` (`consistency.dfy`): the configured registry, instantiated, and the
  agreement between router, rewrite table and generated pages.
- `Wrappers` (`wrappers.dfy`): `Option`.

The registry is a parameter of every router lemma, so they hold for any set of keys;
lemmas that need it require the keys to be slash-free, which the configured registry
is (`Consistency.RegistryShape`).

**Routing a rewrite target again.** One might expect that routing the rewrite target
`/src/santorini/santorini.html` a second time passes through, because its third piece
would be `santorini.html`. The code does otherwise: `'/src/santorini/santorini.html'.split('/')`
is `["", "src", "santorini", "santorini.html"]`, so index 2 is `santorini`, a key, and the
result is a 301 back to `/santorini`. The model follows the code (`Router.RerouteRewriteTarget`,
`Router.RewriteThenRedirect`). Within one request this never happens, because the
middleware runs once; across requests, redirect and rewrite chain as
`/src/<e>/... -> 301 /<e> -> rewrite to /src/<e>/<e>.html` (`Router.RedirectThenRewrite`,
`Middleware.VisitEntryFile`).

**The first character.** The rewrite branch tests `req.url.substring(1)` and never
checks that the dropped character is `/`, so `xsantorini` is rewritten like
`/santorini` (`Consistency.FirstCharacterIgnored`). Origin-form request URLs start
with `/`, so this only matters for other forms.

**Query strings.** The router compares the whole `req.url`, query string included,
while the history fallback matches its rewrite table against the pathname only. So
the agreement between router and table (`Consistency.RouterMatchesFallback`) covers
only URLs that start with `/` and are their own pathname, with no `?` or `#`. On
`/santorini?x=1` the two servers differ: the router passes it through, and the dev
server's fallback serves `/src/santorini/santorini.html`
(`Consistency.QueryStringDisagreement`).

## Model

| member | source | states |
|---|---|---|
| `JsStrings.Substring1` | webpack.config.js:87-89 | `substring(1)` drops exactly the first character; on `""` it returns `""` |
| `JsStrings.Split` | webpack.config.js:80 | `split('/')` returns at least one piece and no piece contains `/` |
| `JsStrings.JoinSplit` | webpack.config.js:80 | joining the pieces of `split('/')` with `/` gives back the string |
| `JsStrings.SplitJoin` | webpack.config.js:80 | splitting a `/`-join of slash-free pieces gives back the pieces |
| `JsStrings.SplitSlashFree` | webpack.config.js:80 | a slash-free string splits into itself alone |
| `JsStrings.SplitAfterPiece` | webpack.config.js:80 | `p + "/" + t` with `p` slash-free splits into `p` followed by the pieces of `t` |
| `JsStrings.SplitThree` | webpack.config.js:80 | `a/b/c` of slash-free pieces splits into exactly `[a, b, c]` |
| `Router.SrcSegments` | webpack.config.js:79-80 | a URL starting with `/src/` splits into `""`, `"src"`, then the pieces after `/src/`, so index 2 always exists |
| `Router.SrcRouting` | webpack.config.js:79-86 | under `/src/`, the URL redirects to `/<seg>` if the first piece after `/src/` is a key and passes through otherwise |
| `Router.RedirectsEntryPath` | webpack.config.js:79-83 | for every slash-free key `e` and any suffix `s`, `/src/<e>/<s>` is redirected to `/<e>` |
| `Router.RedirectsBareEntryPath` | webpack.config.js:79-83 | `/src/<e>` with nothing after it is redirected to `/<e>` |
| `Router.SrcRoot` | webpack.config.js:79-86 | `/src/` alone yields the empty piece: it redirects to `/` only if `""` is a key, else passes through |
| `Router.RedirectNamesKey` | webpack.config.js:80-82 | every redirect's Location is `/` followed by a key that contains no slash |
| `Router.SlashFreeNotUnderSrc` | webpack.config.js:79 | `/<e>` for slash-free `e` never starts with `/src/`, so it cannot take the redirect branch |
| `Router.RewritesEntry` | webpack.config.js:79-90 | for every key `e` whose `/<e>` does not start with `/src/`, `/<e>` is rewritten to `/src/<e>/<e>.html` |
| `Router.RewriteChangesUrl` | webpack.config.js:89 | a rewrite target starts with `/src/` and therefore always differs from the URL it replaces |
| `Router.RerouteRewriteTarget` | webpack.config.js:79-89 | routing the rewrite target of a slash-free key `e` again yields a redirect to `/<e>`, not a pass-through |
| `Router.RedirectThenRewrite` | webpack.config.js:79-90 | the Location of any redirect is itself rewritten to its entry's page |
| `Router.RewriteThenRedirect` | webpack.config.js:79-90 | with slash-free keys, the target of any rewrite, routed again, redirects to `/` + the rewritten name |
| `Middleware.Response.WriteHead` | webpack.config.js:82 | `writeHead` sets the status, adds the headers and marks them sent |
| `Middleware.Response.End` | webpack.config.js:83 | `end` finishes the response and leaves status and headers alone |
| `Middleware.Next.Call` | webpack.config.js:85 | calling `next` continues the chain once more |
| `Middleware.Handle` | webpack.config.js:77-94 | exactly one branch runs: redirect writes 301 with `Location`, ends the response and skips `next`; rewrite sets `req.url` to the target and calls `next` once; pass-through calls `next` once; `req.url` changes iff the decision is a rewrite |
| `Middleware.VisitEntryFile` | webpack.config.js:79-90 | a request for a file under `/src/<e>/` gets a 301 to `/<e>`, its response is ended and its `next` is never called; the follow-up request, with its own `next`, is served `/src/<e>/<e>.html` after exactly one `next` call |
| `Config.RegistryIsEntryKeys` | webpack.config.js:11-14 | the registry and its ordered key list hold exactly the names of the entry map |
| `Config.FallbackRewriteFirstMatch` | webpack.config.js:60-64 | the rewrite table rewrites a path iff some rule's literal equals it, and then to the first matching rule's target |
| `Config.ChunkFilenameInjective` | webpack.config.js:21-24 | distinct chunk names never get the same bundle file |
| `Config.ChunkFilenamePieces` | webpack.config.js:21-24 | `main`'s bundle is a single top-level piece; any other chunk `n` goes to `src/<n>/<n>.bundle.js` |
| `Config.HtmlFilenamePieces` | webpack.config.js:102-106 | each entry's page is `src/<e>/<e>.html`, in the entry's own directory |
| `Config.HtmlFilenameInjective` | webpack.config.js:102-106 | distinct entries never share a page |
| `Config.HtmlFilenamesCount` | webpack.config.js:102-106 | the build writes exactly one per-entry page per registry key |
| `Config.HtmlOutputsCount` | webpack.config.js:97-106 | `index.html` is not an entry page, so the build writes one page more than there are keys |
| `Config.BundlesAreNotPages` | webpack.config.js:21-24 | no bundle file name coincides with an entry page or `index.html` |
| `Consistency.RewriteTargetIsHtmlOutput` | webpack.config.js:89 | the router's rewrite target is `/` followed by the page name HtmlWebpackPlugin writes for the entry |
| `Consistency.RewriteLandsOnGeneratedPage` | webpack.config.js:87-90 | for any registry, every rewrite lands on one of the generated entry pages |
| `Consistency.EntryPointNames` | webpack.config.js:19 | webpack builds `main` plus one chunk per registry key |
| `Consistency.RegistryShape` | webpack.config.js:11-14 | the configured keys contain no slash and are neither empty nor `main` |
| `Consistency.BundlesDistinct` | webpack.config.js:19-24 | each of the three entry points gets its own bundle file, none of them an HTML page |
| `Consistency.EntryRewrittenToPage` | webpack.config.js:87-90 | `/santorini` and `/mykonos` are rewritten to their generated pages |
| `Consistency.ConfiguredRules` | webpack.config.js:61-64 | the literal rewrite table is exactly `/<e>` to `/src/<e>/<e>.html` for each key in registry order |
| `Consistency.SantoriniRule` | webpack.config.js:62 | the first rule is the `santorini` rule of the naming scheme |
| `Consistency.MykonosRule` | webpack.config.js:63 | the second rule is the `mykonos` rule of the naming scheme |
| `Consistency.SantoriniPage` | webpack.config.js:62 | the literal target `/src/santorini/santorini.html` is `/` + the generated page name |
| `Consistency.MykonosPage` | webpack.config.js:63 | the literal target `/src/mykonos/mykonos.html` is `/` + the generated page name |
| `Consistency.RouterMatchesRules` | webpack.config.js:87-89 | for any slash-free registry, on every `/`-prefixed string the router rewrites exactly what the registry's rewrite table rewrites when applied to that same string, to the same target (for a real request this is the pathname only when there is no `?` or `#`) |
| `Consistency.EntryInFallback` | webpack.config.js:62-63 | the rewrite table serves each entry's short URL its generated page |
| `Consistency.ConfiguredRewrite` | webpack.config.js:61-64 | the configured rewrite table sends every path where the naming scheme's table for the registry sends it |
| `Consistency.RouterMatchesScheme` | webpack.config.js:87-89 | for the configured registry, on every `/`-prefixed string the router rewrites exactly what the naming scheme's table rewrites when applied to that same string, to the same target (for a real request this is the pathname only when there is no `?` or `#`) |
| `Consistency.RouterMatchesFallback` | webpack.config.js:61-64 | on every `/`-prefixed string, the router and the configured rewrite table applied to that same string rewrite the same strings to the same targets (for a real request this is the pathname only when there is no `?` or `#`) |
| `Consistency.QueryStringDisagreement` | webpack.config.js:60-64 | `/santorini?<q>` passes through the router, while the rewrite table, applied to its pathname `/santorini`, serves the entry's page |
| `Consistency.FirstCharacterIgnored` | webpack.config.js:87 | any first character followed by `santorini` is rewritten; the rewrite table rewrites it only if that character is `/` |
| `Consistency.ConfiguredRedirects` | webpack.config.js:79-83 | every file under `/src/santorini/` or `/src/mykonos/` (such as `santorini.bundle.js`) redirects to the entry |
| `Consistency.ConfiguredSrcPassThrough` | webpack.config.js:84-86 | `/src/unknown/<f>` and `/src/` pass through |
| `Consistency.SuffixedShortUrlsPassThrough` | webpack.config.js:87-93 | membership is exact: `/santorini` or `/mykonos` followed by anything (`/`, `?x=1`) passes through |
| `Consistency.UnknownShortUrlsPassThrough` | webpack.config.js:91-93 | `/`, `/unknown` and the empty URL pass through |

## Left out

- Webpack bundling, module resolution and the babel, css and style loaders: external tooling, configured declaratively.
- The dev server's `contentBase`, `compress` and `port`, BrowserSync's host, port, `files` and `notify`, `watch`, `devtool` and `CleanWebpackPlugin`: server and build plumbing with no decision logic.
- `process.env`, `dotenv.config()`, `console.log(__dirname)`, `path.resolve` and `path.join`: environment and filesystem access.
- HtmlWebpackPlugin templating and chunk injection: only the `filename` strings are modelled; the plugin list is modelled as a set of file names, so its order is not.
- The regular-expression engine: the two fallback patterns are anchored literals, modelled as string equality.
- Which requests the history fallback considers at all (only `GET`/`HEAD` requests that accept `text/html`) and its parsing of the path out of the URL (dropping a query string): that is library behaviour.
- The history fallback's default rewrite: a considered request that no rule of the table matches, and whose last path segment has no dot, is served `/index.html`. Only the rewrite table is modelled, so `Config.FallbackRewrite` returning `None` means "no rule matches", not "the path is left alone"; the dot test is applied only after the table, so paths with dots are still matched against the rules, as in the model.
- Node throwing when `writeHead` is called after headers were sent, and the response stream itself: the model records only status, headers, sent and finished.
- The `glob` import, which is unused, and the commented-out `sourceMapFilename`.
- JavaScript strings are sequences of UTF-16 code units, while a Dafny `string` holds Unicode scalar values, so `substring(1)` would differ on a URL whose first character lies outside the Basic Multilingual Plane. Node builds `req.url` from the raw request bytes, so such a URL does not reach the middleware; the model does not represent code units.
- Concurrency: each request is handled independently against a read-only registry.
- Consistency.RouterMatchesFallback: the table is applied to the same full string the router sees, so the agreement holds only for URLs that begin with `/` (the router ignores the first character, `Consistency.FirstCharacterIgnored`) and that are their own pathname, with no `?` or `#` (the fallback drops the query string before matching, the router does not; on `/santorini?x=1` they differ, `Consistency.QueryStringDisagreement`). Consistency.RouterMatchesRules and Consistency.RouterMatchesScheme have the same limit.
