# Twalyze core in Dafny

Twalyze is a small web application. Its home page takes the URL of a tweet, checks it against a
fixed pattern, shows an analysis record (user, text, summary, sentiment, time) picked at random
from a list of mock records, and posts that record to a server endpoint. The endpoint
`POST /api/add-to-sheet` appends the record as one row to a Google spreadsheet and answers with
`{ success: true }` or with status 500 and `{ success: false, error }`. The page turns a failed
answer into an error banner.

The model has five modules:

- `Wrappers`: the `Option` type, used for unset environment variables, the empty result card and
  absent JSON fields.
- `Records`: the analysis record that the page shows and the endpoint stores.
- `UrlValidator`: the URL check. `Matches` is the regular expression of `page.tsx` line 14, written
  as "the URL splits into scheme, optional `www.`, host, `.com/`, a path, `/status/`, digits and
  any remainder". `ValidateUrl` is a scanning method proved equal to it: a deterministic prefix
  check, then a loop that looks for `/status/` followed by a digit on the same line.
- `AddToSheet`: the endpoint, written as pure functions. These cover the private-key unescaping,
  the credentials, the append request, the reply, and the sheet after the call. The spreadsheet
  service is a function parameter `append`.
- `Home`: the page component as the class `HomePage`. Its fields are the three pieces of React
  state (`tweetUrl`, `result`, `error`), and its methods are the handlers that update them. Also in
  this module: the random pick, the relay callback's banner text, and the sentiment colour.

## Model

| member | source | states |
|---|---|---|
| UrlValidator.Matches | src/app/page.tsx:14 | the regular expression itself: the URL splits into `http://` or `https://`, optional `www.`, `twitter` or `x`, `.com/`, a non-empty single-line path, `/status/`, one or more digits and an unconstrained rest; an accepted URL has at least 23 characters |
| UrlValidator.ValidateUrl | src/app/page.tsx:13-15 | the result is true exactly when the URL matches the pattern: `http` or `https`, optional `www.`, host `twitter` or `x`, `.com/`, a non-empty path on one line, `/status/` and at least one digit, followed by anything |
| UrlValidator.MatchesIff | src/app/page.tsx:14 | the pattern matches exactly when a known scheme/`www.`/host prefix is present and a `/status/`+digit marker occurs after a non-empty, single-line path |
| UrlValidator.ScanForStatus | src/app/page.tsx:14 | the scan from the end of the prefix finds a marker exactly when one exists before the first line terminator (`.` does not match `\n`, `\r`, U+2028 or U+2029) |
| UrlValidator.HostPrefixLength | src/app/page.tsx:14 | the length of the matched prefix, when there is one, lies within the URL |
| UrlValidator.HostPrefixLengthSound | src/app/page.tsx:14 | a found prefix is one of the allowed scheme, `www.` and host choices followed by `.com/` |
| UrlValidator.HostPrefixLengthComplete | src/app/page.tsx:14 | every allowed prefix is found, whatever follows it |
| UrlValidator.AcceptedUrlHasKnownPrefix | src/app/page.tsx:14 | an accepted URL starts with one of the eight literal prefixes (`http://` or `https://`, then optionally `www.`, then `twitter.com/` or `x.com/`); in particular it starts with `http://` or `https://` |
| UrlValidator.AcceptedUrlWithSuffix | src/app/page.tsx:14 | the pattern has no end anchor: appending anything to an accepted URL keeps it accepted |
| UrlValidator.RejectedWithoutStatus | src/app/page.tsx:14 | after a valid prefix, a URL without a same-line `/status/`+digit marker behind a non-empty path is rejected |
| UrlValidator.ExampleUrlAccepted | src/app/page.tsx:14 | `https://x.com/alice/status/12345` is accepted |
| UrlValidator.ExampleTwitterUrlAccepted | src/app/page.tsx:14 | `https://twitter.com/alice/status/12345` is accepted |
| UrlValidator.ExampleWwwUrlAccepted | src/app/page.tsx:14 | `http://www.x.com/alice/status/12345` is accepted |
| UrlValidator.ExampleQueryAccepted | src/app/page.tsx:14 | a query string after the digits is accepted |
| UrlValidator.ExampleUppercaseSchemeRejected | src/app/page.tsx:14 | the match is case-sensitive: `HTTPS://…` is rejected |
| UrlValidator.ExampleLookalikeHostRejected | src/app/page.tsx:14 | `https://x.com.example/…` is rejected |
| UrlValidator.ExampleSubdomainRejected | src/app/page.tsx:14 | a subdomain other than `www.` is rejected |
| UrlValidator.ExamplePathsRejected | src/app/page.tsx:14 | `/status/` right after the host (`https://x.com/status/1` and `https://x.com//status/1`), a path broken by a newline, and `/status/` with no digit or with a letter after it are all rejected |
| Home.PickIndex | src/app/page.tsx:26 | `Math.floor(Math.random() * n)` is always a valid index of the mock list |
| Home.EveryIndexPickable | src/app/page.tsx:26 | every index of the mock list is picked by some random number in `[0, 1)` |
| Home.HomePage.constructor | src/app/page.tsx:9-11 | the initial state is an empty input, no result card and no banner |
| Home.HomePage.EditUrl | src/app/page.tsx:56 | typing replaces the URL and changes nothing else |
| Home.HomePage.HandleAnalyze | src/app/page.tsx:17-34 | an invalid URL sets the fixed banner, clears the card, keeps the input and posts nothing; a valid one clears the banner, shows and posts the picked mock record and empties the input; a shown record always comes from the mock list |
| Home.RelayError | src/app/page.tsx:36-42 | a successful JSON reply leaves the banner alone; an unsuccessful one shows the prefix together with the reply's error, or "Bilinmeyen hata" when the error is empty or absent; a failed request or a reply that is not JSON shows the unreachable message; any banner it sets is non-empty |
| Home.HomePage.SettleRelay | src/app/page.tsx:36-42 | the relay's settlement changes only the banner, as `RelayError` says |
| Home.SentimentTone | src/app/page.tsx:77-83 | "Olumlu" is emerald, "Olumsuz" is rose, and every other sentiment is white, each as an if-and-only-if |
| Home.RelayOutcomeShown | src/app/page.tsx:36-42 | what the page finally shows: an append that succeeds leaves the banner alone; one that fails shows its message, or the fallback when it has none; an unreadable body ends as "unreachable" |
| AddToSheet.UnescapeNewlines | src/app/api/add-to-sheet/route.ts:15 | the global replace of backslash-`n` by a newline, left to right without overlap; the result is no longer than the key and at least half as long |
| AddToSheet.UnescapeLength | src/app/api/add-to-sheet/route.ts:15 | unescaping shortens the key by exactly one character per backslash-`n` pair |
| AddToSheet.UnescapeIdentity | src/app/api/add-to-sheet/route.ts:15 | a key with no backslash-`n` pair is left unchanged |
| AddToSheet.UnescapeHead | src/app/api/add-to-sheet/route.ts:15 | the first character after unescaping is a newline when the key starts with backslash-`n`, and the key's own first character otherwise |
| AddToSheet.UnescapeLeavesNoPair | src/app/api/add-to-sheet/route.ts:15 | no backslash-`n` pair survives unescaping |
| AddToSheet.UnescapeIdempotent | src/app/api/add-to-sheet/route.ts:15 | unescaping twice is the same as unescaping once |
| AddToSheet.UnescapeEscape | src/app/api/add-to-sheet/route.ts:15 | unescaping undoes escaping newlines as backslash-`n`, for texts that contain no such pair themselves |
| AddToSheet.UnescapeExamples | src/app/api/add-to-sheet/route.ts:15 | an escaped `a\nb` gets a real newline; in backslash-backslash-`n` the first backslash stays and the second pairs with the `n`; a backslash before another letter stays |
| AddToSheet.SigningKey | src/app/api/add-to-sheet/route.ts:15 | an unset key becomes the empty key; a set key loses one character per escaped newline and is unchanged when it has none; the result holds no escaped newline; a multi-line key stored with its newlines escaped comes back intact |
| AddToSheet.EscapedKeyRecovered | src/app/api/add-to-sheet/route.ts:15 | unescaping a key written with escaped newlines gives back that key |
| AddToSheet.JwtCredentials | src/app/api/add-to-sheet/route.ts:12-17 | the client gets the configured email and the spreadsheets scope only; its key holds no escaped newline, a multi-line key stored with escaped newlines reaches it intact, and an unset key reaches it empty |
| AddToSheet.RowOf | src/app/api/add-to-sheet/route.ts:28 | the row has five cells that read back as the posted record, in the order username, content, summary, sentiment, timestamp |
| AddToSheet.RecordOfRow | src/app/api/add-to-sheet/route.ts:28 | a row reads back as a record exactly when it has five cells |
| AddToSheet.BuildAppendRequest | src/app/api/add-to-sheet/route.ts:23-29 | the request targets the configured sheet, range "Sheet1" and `USER_ENTERED` input, and carries one five-cell row that reads back as the posted record |
| AddToSheet.Post | src/app/api/add-to-sheet/route.ts:7-35 | an unreadable body ends in an unhandled error; otherwise success holds exactly when the status is 200 and exactly when the append succeeded; a success carries no error; a failure has status 500 and the append error's message |
| AddToSheet.SheetAfter | src/app/api/add-to-sheet/route.ts:23-31 | after a successful reply the sheet has the posted row appended at the end; otherwise it is unchanged |
| AddToSheet.NoDeduplication | src/app/api/add-to-sheet/route.ts:23-31 | posting the same record twice, with the service accepting each call (the two calls may be answered by different service behaviours), answers success both times and appends two identical rows; the endpoint does no de-duplication |

## Left out

- Rendering: the JSX markup, the CSS classes and the card layout are not modelled. Only the
  choice of sentiment colour (`SentimentTone`) is kept. `src/app/layout.tsx` is not part of this
  model.
- The browser's own form validation is not modelled. This covers the input's `required`, its
  `type="url"`, and the pattern at `src/app/page.tsx:59`, which would stop a submission before
  `handleAnalyze` runs. `HandleAnalyze` is modelled as if every submission reaches it.
- `e.preventDefault()` has no effect on the modelled state.
- Asynchrony: the `fetch` and its promise chain are modelled as two steps. `HandleAnalyze`
  returns the record it posts, and `SettleRelay` applies the outcome later. Interleavings with
  other submissions are not modelled.
- Home.PickIndex: `Math.random()` and the multiplication are exact reals, not IEEE doubles. The
  random number is a parameter in `[0, 1)`.
- The mock list's contents are not modelled. It is a non-empty parameter of `HandleAnalyze`, as the
  source indexes it without checking.
- The Google client library, the JWT signing and the `values.append` call are abstract. The call
  is the function parameter `append`, and its result is the only thing the endpoint depends on.
  How the sheet changes on a failed append is taken to be "not at all" (`SheetAfter`).
- `process.env` reads are the `Env` parameter. `req.json()` is modelled only as "a record with
  five string fields" or "unreadable" (`None`: not JSON, or JSON `null`). A JSON object that
  lacks some fields, or has non-string fields, goes on into the `try` and appends `undefined` or
  non-string cells; that case is not modelled.
- Strings are sequences of Dafny characters, not UTF-16 code units. No pattern or literal here
  depends on the difference.
- AddToSheet.Post: a malformed body never gets a `{ success: false }` reply. Parsing it at
  `src/app/api/add-to-sheet/route.ts:8`, and destructuring it at line 9, happen outside the `try`,
  so the framework answers with its own error response (`UnhandledError`). The page's `res.json()`
  on that answer fails, and the page shows the unreachable message.
