# wmnw: per-site decision logic, modelled in Dafny

Package `wmn` of wmnw checks whether a username exists on the sites listed in
the WhatsMyName registry. For each site, the registry gives:

- a probe URL template with an `{account}` placeholder;
- the status code and body fragment that an existing account's page shows.

This project models that package's decision logic and proves what it
promises:

- **Site records.** A `Site` holds the registry's eight fields. `WmnData` is
  the decoded registry document.
- **URL resolution.** `UrlForUser` replaces the first `{account}` with the
  username, verbatim. It then trims white space at both ends the way Go's
  `strings.TrimSpace` does.
- **The "account exists" test.** `Matches` is true when the status equals
  the site's existing-account code and the body contains its fragment.
- **Probing one site.** `CheckUser` is an early-return ladder: build the
  request, perform it, read the body, decide.
- **Loading the registry.** `SitesFromURL` is also a ladder: fetch, read,
  decode, refuse an empty list. `Sites` does this for the default URL.

The four Go library calls the package relies on are written out over strings
of characters, in module `Strings`: `strings.Index`, `strings.Contains`,
`strings.Replace` with a count of 1, and `strings.TrimSpace` with
`unicode.IsSpace`.

Network and JSON calls are parameters, not code. A `Client` value says what
building and sending a request gives for each URL. A `Feed` value says what
fetching and decoding give. The two ladder methods return a `trace` of the
calls they made, in order. Their postconditions pin down the whole outcome for
every combination of stage results:

- which error is returned;
- which later stages are skipped;
- on success, the value returned.

Modules:

- `Wrappers`: `Option` and `Result`.
- `Strings`: the Go library functions above.
- `Wmn`: the package itself.
- `WmnProperties`: lemmas about URL resolution and matching.
- `Scenarios`: worked cases.

Two behaviours of the code are easy to misread, and the model follows the
code in both:

- Only the first `{account}` of a template is replaced (`strings.Replace`
  with a count of 1), not every occurrence; later placeholders stay in the URL.
- The registry response's status code is never looked at, so a registry
  served with an error status is still decoded. `Scenarios.LoadDespiteErrorStatus`
  shows a registry served with status 500 being accepted.

## Model

| member | source | states |
|---|---|---|
| Strings.IsSpace | src/wmn/wmn.go:65 | Go's `unicode.IsSpace`, written as ranges: '\t' to '\r', space, U+0085 and U+00A0 within Latin-1, and the other White_Space characters beyond it (see IsSpaceIsWhiteSpace) |
| Strings.IsSpaceIsWhiteSpace | src/wmn/wmn.go:65 | IsSpace holds of a character exactly when it is one of the 25 White_Space characters listed one by one |
| Strings.SkipLeading | src/wmn/wmn.go:65 | the index returned is the first non-space at or after the start, and everything it skipped is space |
| Strings.SkipTrailing | src/wmn/wmn.go:65 | walking down towards a lower bound, the index returned has a non-space just before it (or is the bound), and everything it skipped is space |
| Strings.TrimSpace | src/wmn/wmn.go:65 | the result has no space at either end and is a slice of the input with only spaces outside it |
| Strings.IndexOf | src/wmn/wmn.go:65 | the index returned is where the pattern first occurs; None means it occurs nowhere |
| Strings.Contains | src/wmn/wmn.go:104 | true exactly when the substring occurs at some index |
| Strings.ReplaceFirst | src/wmn/wmn.go:65 | without an occurrence the input comes back unchanged; otherwise the first occurrence, and only it, is replaced |
| Strings.TrimSpaceIsTrim | src/wmn/wmn.go:65 | any slice that has only spaces outside it and non-spaces at its ends is exactly what TrimSpace returns, so the trim is unique |
| Strings.TrimSpaceFixpoint | src/wmn/wmn.go:65 | TrimSpace leaves a string unchanged if and only if neither end is a space |
| Strings.TrimSpaceIdempotent | src/wmn/wmn.go:65 | trimming twice gives the same as trimming once |
| Strings.AbsentHead | src/wmn/wmn.go:65 | a pattern whose first character is absent from a string does not occur in it |
| Strings.ReplaceFirstSplit | src/wmn/wmn.go:65 | for a pattern whose first character does not recur in it, and p free of the pattern, replacing the first occurrence in p + pat + q gives p + rep + q |
| Wmn.UrlForUser | src/wmn/wmn.go:64-66 | the probe URL never starts or ends with white space |
| Wmn.Matches | src/wmn/wmn.go:104 | true exactly when the status is the existing-account code and the fragment occurs in the body |
| Wmn.ProbeError.Message | src/wmn/wmn.go:88-102 | the error texts of the three probe stages: "unable to create request: " (line 90), "unable to perform request: " (line 95) and "error reading response body: " (line 101), each followed by the cause |
| Wmn.CheckUser | src/wmn/wmn.go:80-105 | the first failing stage (build 88-91, send 93-96, read 99-102) fixes the error and ends the probe; an error always comes with found == false; the steps run in order and later ones are skipped; with no failure, found is Matches of the response |
| Wmn.SitesFromURL | src/wmn/wmn.go:38-62 | the first failing stage (fetch 40-43, read 46-49, decode 51-55, empty list 57-59) fixes the error and ends the load with no sites; success returns the decoded list unchanged and it is non-empty |
| Wmn.LoadError.Message | src/wmn/wmn.go:40-59 | the error texts of the loader: "unable to get Sites from URL '<url>': " (line 42), "unable to read body from URL '<url>': " (line 48), "unable to unmarshal byteData: " (line 54), each followed by the cause, and "No Sites found" (line 58) |
| Wmn.Sites | src/wmn/wmn.go:34-36 | the outcome of loading from DefaultURL, per stage: the same error for each failing stage as SitesFromURL, and with a non-empty decoded list, success with that list unchanged |
| WmnProperties.TokenHeadUnique | src/wmn/wmn.go:65 | the placeholder's opening brace appears only once in it |
| WmnProperties.UrlWithoutToken | src/wmn/wmn.go:65 | a template without the placeholder gives the trimmed template for every username |
| WmnProperties.UrlReplacesFirstOnly | src/wmn/wmn.go:65 | for a template p + {account} + q with no placeholder in p, the URL is TrimSpace(p + user + q), and placeholders in q stay |
| WmnProperties.UrlInsertsUserVerbatim | src/wmn/wmn.go:65 | when p + user + q has no space at either end, the URL is exactly that string: the username is not escaped |
| WmnProperties.UrlEndingInToken | src/wmn/wmn.go:65 | a template ending in its only placeholder gives its head followed by the username |
| WmnProperties.UrlIsTrimmed | src/wmn/wmn.go:65 | the URL has no space at either end and trimming it again leaves it unchanged |
| WmnProperties.MismatchedCodeFails | src/wmn/wmn.go:104 | a status other than the existing-account code is never a match |
| WmnProperties.MissingFragmentFails | src/wmn/wmn.go:104 | a body without the fragment is never a match |
| WmnProperties.EmptyFragmentChecksStatusOnly | src/wmn/wmn.go:104 | with an empty fragment, a match is the status check alone |
| WmnProperties.FragmentAtMatches | src/wmn/wmn.go:104 | the fragment found at any index, with the right status, is a match |
| WmnProperties.MatchesReadsOnlyExistsSignature | src/wmn/wmn.go:23-32 | sites that agree on the existing-account code and fragment agree on every response, whatever their name, category, known accounts or missing-account fields |
| Scenarios.SecondTokenKept | src/wmn/wmn.go:65 | in https://example.com/{account}?ref={account}, only the first placeholder becomes "bob" |
| Scenarios.ProfileFound | src/wmn/wmn.go:104 | status 200 with "profile" in the body matches a 200/"profile" site |
| Scenarios.ProfileFragmentMissing | src/wmn/wmn.go:104 | status 200 with a body lacking "profile" does not match |
| Scenarios.ProfileWrongStatus | src/wmn/wmn.go:104 | the fragment under status 404 does not match a 200 site |
| Scenarios.ProbeAlpha | src/wmn/wmn.go:80-105 | a site expecting 200/"hi", answered 200 "hi there", reports the account found |
| Scenarios.ProbeBeta | src/wmn/wmn.go:80-105 | a site expecting 404/"gone", answered 404 "page gone", reports the account found |
| Scenarios.ProbeUnreachable | src/wmn/wmn.go:93-96 | a transport failure gives not-found with PerformRequestError carrying the cause, whose message is "unable to perform request: " followed by the cause |
| Scenarios.LoadEmptyRegistry | src/wmn/wmn.go:57-59 | a document decoding to no sites is refused with "No Sites found" |
| Scenarios.LoadDespiteErrorStatus | src/wmn/wmn.go:40-61 | a registry served with status 500 is still decoded and returned |

## Left out

- The HTTP client is not modelled: `http.Get`, `httpClient.Do`, `io.ReadAll` and the TLS setting that ignores invalid certificates (src/wmn/wmn.go:40-49, 82-99). They are network I/O. The `Client` and `Feed` parameters stand for their outcomes.
- `http.NewRequestWithContext` is modelled only by its outcome. `Client.requestError` says which URLs it rejects; URL parsing itself is not modelled.
- Deadlines are not modelled: `CheckUser` and `CheckUserWithDuration` with `context.WithTimeout`, and `DefaultQueryTime` (src/wmn/wmn.go:16, 68-78). They are wall-clock timing and cancellation, and both only wrap `checkUser`. A timeout is one of the transport errors `Client.send` may return.
- `json.Unmarshal` is not modelled (src/wmn/wmn.go:51-55). It is a foreign library; `Feed.unmarshal` gives only its outcome, a decoded document or an error.
- `response.Body.Close` is not modelled. It releases a resource and does not affect any result.
- src/cmd/wmn/main.go is not part of this model. It holds flag parsing, log setup, one goroutine per site with a WaitGroup, and printing.
- Strings are sequences of characters, where Go works on UTF-8 bytes. For valid UTF-8 text both give the same replacements, substring tests and trims. Invalid UTF-8 (which Go's TrimSpace treats as non-space) is not modelled.
- Errors are values of `ProbeError` and `LoadError`. Their `Message` functions give the text that `fmt.Errorf` would produce, with the underlying error's text as a parameter.
