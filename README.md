# upfwd health gate, modelled in Dafny

upfwd is a small HTTP server that sits in front of a target site. A background
checker probes a health-check URL once at start-up and then once per tick, and
records the verdict in a shared status cell (`NullBool{Bool, Valid}`, starting
undetermined). Every request to the server reads that cell: while the target is
healthy the request is redirected (307) to the same path on the target; otherwise
the server answers 503 with either a fixed JSON document or a fixed "Server
Migration" HTML page, chosen by substring tests on the `Accept` header and an
`/api/` path prefix.

This project models that core:

- `text.dfy` (module `Text`): Go's `strings.TrimSpace`, `strings.Contains` and
  `strings.HasPrefix`, with the facts about trimming the probe relies on.
- `probe.dfy` (module `Probe`): the outcome of one probe request
  (`NetError | Response(status, body)`, where the body is `Readable(text)` or
  `Unreadable`), the probe configuration (valid-status list, expected body) and
  the verdict `Evaluate`.
- `health.dfy` (module `Health`): the status cell `NullBool`, the transition
  function `Step` (new status plus the log event, if any) and its fold `Run`
  over a sequence of outcomes; the classes `HealthStatus` (the cell, with fields
  `healthy` and `valid` updated in place) and `Checker` (the check closure:
  `IsValidStatus` scans the status list with a loop and `break`, `Judge` draws
  the verdict from one outcome, `Record` updates the cell in place, `CheckHealth`
  is the two in sequence and `Monitor` is the ticker loop). The
  transition count is related to a reference definition over verdicts alone
  (`LastVerdict`, `Edges`).
- `gate.dfy` (module `Gate`): the request handler `Handle` and its access-log line.
- `wrappers.dfy`: the `Option` type.

Parameters stand in for what the program reads from its environment or the
network: the target URL string (already serialised), the expected body, the
valid-status list (the program fixes it to `[200]`, see `Probe.DefaultConfig`),
and the outcome of each probe request.

## Behaviour worth noting

- A body-read error makes the check return early, leaving the status and the
  log's transition count unchanged (main.go:127-132); it does not count as a
  failed verdict.
- The redirect location is the target followed by the request's decoded path
  only (`r.URL.Path`): the query string is not carried over (`Gate.QueryDropped`).
  For an ASCII path this is the path verbatim; see "Left out" for non-ASCII paths.
- The valid-status list is a list scanned for the first match; the program builds it as `[200]`.
- There is no lock around the status cell; the checker and the handlers are
  modelled sequentially.
- On every 503 path the access line records 307 (`Gate.AccessCodeOnUnavailable`).

## Model

| member | source | states |
|---|---|---|
| `Text.TrimLeft` | main.go:134 | the result is the suffix of the input left after dropping white space, all of it white space and nothing more (the result does not start with white space) |
| `Text.TrimRight` | main.go:134 | the result is the prefix of the input before trailing white space, which is all white space; the result does not end with white space |
| `Text.SpaceClasses` | main.go:134 | the white-space predicate behind trimming (`Text.IsSpace`, Go's `unicode.IsSpace`): on ASCII exactly tab, LF, VT, FF, CR and space; in Latin-1 also NEL and NBSP; ideographic space and line separator count, zero-width space and BOM do not |
| `Text.TrimSpace` | main.go:134 | the trimmed body neither starts nor ends with white space and is no longer than the input |
| `Text.TrimSpaceIsSlice` | main.go:134 | the trimmed body is a contiguous slice of the input with only white space cut off on either side, and all of the outer white space is removed |
| `Text.TrimSpaceIdempotent` | main.go:134 | trimming twice is trimming once |
| `Text.TrimLeftSkipsSpace` | main.go:134 | leading white space never changes the left-trimmed result |
| `Text.TrimRightSkipsSpace` | main.go:134 | trailing white space never changes the right-trimmed result |
| `Text.TrimLeftAppend` | main.go:134 | left-trimming a concatenation keeps the second part whole unless the first part is all white space |
| `Text.PaddingInvisible` | main.go:134 | padding a string with white space on either side leaves its trimmed form unchanged |
| `Text.InnerSpaceKept` | main.go:134 | a string without outer white space is its own trimmed form: inner white space is not normalised |
| `Text.HasPrefix` | main.go:174 | true exactly when the string is the prefix followed by some rest (the `/api/` test) |
| `Text.Contains` | main.go:174 | true exactly when the substring occurs at some index of the string (plain substring search, no media-range parsing) |
| `Probe.Evaluate` | main.go:109-137 | a network error gives no response; the body is read, and can make the check abort, only when an expected body is configured; a judged response passes iff its status is in the valid-status list and, with an expected body, the trimmed body equals the trimmed expected body |
| `Probe.BodyIgnoredWithoutExpectation` | main.go:127-137 | with no expected body the verdict is a judgement that does not depend on the body at all |
| `Probe.PaddedExpectedBodyPasses` | main.go:119-137 | a response with an accepted status whose body is the expected body with any surrounding white space passes |
| `Probe.RejectedStatusFails` | main.go:119-126 | a status outside the valid-status list fails whatever readable body arrives |
| `Probe.DefaultAcceptsOnlyOK` | main.go:99 | with the program's configuration a response passes iff its status is 200 and, if a body is configured, the trimmed bodies match |
| `Probe.InnerSpaceMatters` | main.go:134 | with a configured (non-empty) expected body, when neither it nor the received text has white space at its ends, any difference between them, inner white space included, fails the check; an empty received text is covered too |
| `Health.Step` | main.go:104-149 | a check that could not read the body leaves the status unchanged and logs only a read error; every check that reaches a verdict (a network error included) leaves the status determined with its verdict; a transition event is logged iff the verdict differs from the recorded one (undetermined counts as different), and a failure event is the request-error event for a network error and carries the response status for a rejected response; a "passed" event iff it passes and the status was not already healthy |
| `Health.Run` | main.go:156-164 | the fold of checks over a run of outcomes logs no more events than there are checks and leaves the status untouched or determined |
| `Health.RunRecordsLastVerdict` | main.go:139-149 | after any run the recorded verdict is the latest verdict reached (a network error included), or the initial one if none was |
| `Health.RunCountsEdges` | main.go:139-149 | after any run the number of transition events equals the number of verdicts that differ from the one in force before them, the first determination included |
| `Health.RunFollowsVerdicts` | main.go:139-149 | after any run of checks the recorded verdict is the latest verdict reached, a network error included (or the initial one), the status is determined or untouched, and the number of transition events equals the number of verdicts that differ from the one in force before them |
| `Health.UndeterminedUntilJudged` | main.go:54 | from start-up, while every check aborts on an unreadable body, the status stays undetermined |
| `Health.DeterminedAfterJudgement` | main.go:110-116 | once any check has reached a verdict (a network error included), the status is determined from then on |
| `Health.RepeatsAreSilent` | main.go:141-149 | checks repeating the recorded verdict change nothing and log nothing |
| `Health.FlapLogsTwice` | main.go:141-149 | healthy, then unreachable, then passing again: the status ends healthy and exactly two transitions are logged |
| `Health.HealthStatus.constructor` | main.go:49-54 | the cell starts undetermined (`Valid` false, `Bool` false) |
| `Health.Checker.IsValidStatus` | main.go:120-126 | the scan of the valid-status list with `break` finds the status iff it is in the list |
| `Health.Checker.Judge` | main.go:109-137 | the verdict computed step by step (early return on a network error or an unreadable body, list scan, trimmed-body comparison) equals `Evaluate` |
| `Health.Checker.Record` | main.go:110-116 | writing the cell in place gives the status and event of the transition for the verdict (main.go:139-149 for judged responses) |
| `Health.Checker.CheckHealth` | main.go:104-150 | judging the outcome and then updating the cell in place produces exactly the status and event of `Step` |
| `Health.Checker.Monitor` | main.go:156-164 | the immediate check followed by one check per tick leaves the cell and the log as `Run` says |
| `Gate.WantsJson` | main.go:174 | a client whose `Accept` contains `application/json` always gets JSON; outside `/api/`, or when `Accept` contains `text/html`, only such a client does; under `/api/` without `text/html` every client does |
| `Gate.Handle` | main.go:167-217 | redirects iff the status is determined and healthy, to the target followed by the request path (before Go's escaping of non-ASCII bytes); otherwise 503 in JSON iff the `Accept` header contains `application/json` or the path starts with `/api/` and `Accept` does not contain `text/html`; the access line always records 307 |
| `Gate.FailClosed` | main.go:54 | with the start-up status no request is redirected: the reply is a 503 |
| `Gate.GateFollowsLatestVerdict` | main.go:168 | after any run of checks from start-up the gate redirects iff the latest verdict reached (a network error included) was a pass |
| `Gate.QueryDropped` | main.go:170 | the reply and access line do not depend on the query string |
| `Gate.AccessCodeOnUnavailable` | main.go:216 | on the 503 paths the access line records 307, not the 503 that is sent |
| `Gate.JsonAcceptWins` | main.go:174-178 | an unhealthy gate answers JSON to any client whose `Accept` contains `application/json`, on any path, whatever else it accepts |
| `Gate.HtmlPageContent` | main.go:184-203 | the HTML reply is `text/html` and contains `<title>Server Migration</title>` and `<h1>We&rsquo;ll be back soon!</h1>` |
| `Gate.HealthyRootRedirects` | main.go:168-171 | a healthy gate answers `/` with a 307 to the target followed by `/` |
| `Gate.UnhealthyApiJson` | main.go:174-178 | an unhealthy gate answers a POST to `/api/neberkenezer/crew/` with `Accept: application/json` with 503, `application/json` and the fixed JSON document |
| `Gate.UnhealthyBrowserHtml` | main.go:182-203 | an unhealthy gate answers `Accept: text/html` at `/` with the HTML page |
| `Gate.NoAcceptHeader` | main.go:174 | without an `Accept` header an unhealthy gate answers JSON under `/api/` and HTML elsewhere |

## Left out

- Configuration loading from the environment, `url.Parse`, the fatal port/URL errors and the hostname-mismatch warning (main.go:59-100): the target URL string, expected body and valid-status list are parameters.
- The HTTP client, its timeout, `io.ReadAll` and closing the response body, with the close-error log line (main.go:106-109, 128, 151-154): network I/O, represented only by the abstract `Outcome` of each probe.
- The goroutine, the ticker's timing and the unsynchronised sharing of the status cell between the checker and the handlers (main.go:103, 156-168): concurrency; the model runs checks and requests sequentially, so torn reads of the two fields are not captured.
- Template parsing and execution and the `http.Error` 500 path, and the log line for a failed write of the JSON body (main.go:179-181, 187-214): the template is a constant with no actions, so its output is the constant `Gate.HtmlPage`.
- The exact bytes `http.Redirect` writes: its short HTML body for GET, the resolution of relative targets, and the percent-escaping of every non-ASCII byte in the `Location` header. `Gate.Handle` gives the location before that escaping, so it matches the header only for ASCII targets and paths.
- Server start-up and shutdown and the coloured log formatting (main.go:57, 220-231): I/O. Log lines are abstract events; their URL and error texts are dropped.
- Unicode details of `strings.TrimSpace`: the white-space set is written out as a fixed predicate (`Text.IsSpace`), and the conversion of the body bytes to a string (invalid UTF-8) is not modelled; bodies are sequences of characters.
- `r.Header.Get` picks the first `Accept` value of a canonicalised header; the model takes that value (or "") as the request's `accept` field.
