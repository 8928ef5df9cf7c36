# TabFlow core, modelled in Dafny

TabFlow shows a browser's open tabs on a dashboard page, asks a language model to
cluster them into named groups, and sends those groups back to the browser. Three
parts carry its logic, and this project models each of them and proves properties
about it:

- **The categorisation endpoint** (`api/categorize.ts`). It checks the request and
  chooses the API keys: a caller's `X-Gemini-API-Key` header, or else the
  comma-separated `API_KEY` environment list. It formats the tab list for the
  prompt. It then tries the keys in order and streams NDJSON frames
  (`analyzing`, `retry`, `success`, `error`). It rotates to the next key only on a
  rate-limit error, only without a caller key, and only while keys remain.
  Module `Categorize`; the model call is an oracle `gemini: nat -> Outcome` giving
  the outcome of the j-th attempt.
- **The dashboard page** (`App.tsx`). This covers the connection status
  (`disconnected`/`connecting`/`connected`) driven by bridge envelopes filtered on
  their `source` tag. It also covers group construction from the model's
  positional `tabIndices` and the derived `filteredTabs` and `ungroupedTabs`
  lists. Module `Dashboard`: the component is class `App`, whose fields are the
  React state plus `posted`, the envelopes the page has posted to its window.
  The derived lists are pure functions of their memo dependencies.
- **The content-script relay** (`extension/content.js`). It drops untagged
  envelopes, answers `PING` with `PONG`, forwards other actions to the background
  worker, wraps tab-bearing replies as `TABS_UPDATE`, and relays background pushes.
  Module `Relay`, one function per listener.

Supporting modules: `Wrappers` (Option), `Strings` (JavaScript `trim`, `split`,
`join`, `includes`, ASCII `toLowerCase`, number-to-decimal), `Seqs` (an
order-preserving filter), `Types` (`types.ts` records and the `COLORS` palette of
`constants.tsx`), and `Messages` (the `{source, action, data}` envelope). `Bridge`
joins the page and the relay. It proves the no-echo property and states and proves the
PING/PONG/GET_TABS handshake end to end (`Bridge.Handshake`).

Where the design text and the code differ, the model follows the code:

- A header key takes precedence only when it is a non-empty string (JavaScript
  truthiness, `api/categorize.ts:24,105`). An empty header falls back to the
  environment keys.
- The 405 answer is the plain text `Method Not Allowed`, not a JSON body.
- An empty key list gives a 500 JSON response before any stream starts
  (`api/categorize.ts:26-31`), not a terminal `error` frame.
- `TABS_UPDATE` marks the bridge connected from any state, not only after a `PONG`.
- The page calls the categorisation service directly, so it has no NDJSON stream
  decoder. None is modelled.

## Model

| member | source | states |
|---|---|---|
| Strings.Trim | api/categorize.ts:21 | `trim` yields the slice of the input left after removing whitespace at both ends: everything before and after the slice is JavaScript whitespace and the slice has none at either end; it is empty exactly when the input is all whitespace |
| Strings.Split | api/categorize.ts:21 | `split(',')` yields at least one piece and no piece contains the separator |
| Strings.JoinSplit | api/categorize.ts:21 | joining the pieces of a split with the same separator restores the original string |
| Strings.SplitJoin | api/categorize.ts:33 | splitting a join of separator-free pieces recovers exactly those pieces |
| Strings.NatToString | api/categorize.ts:33 | a non-negative number renders as a non-empty string of decimal digits without a leading zero |
| Strings.NatToStringRoundTrip | api/categorize.ts:33 | the digits read back give the number, so the rendering is injective |
| Strings.ContainsAt | api/categorize.ts:103 | `includes` holds exactly when the needle occurs at some position of the string |
| Strings.ToLowerIdempotent | App.tsx:90-91 | lower-casing twice is lower-casing once |
| Seqs.Filter | App.tsx:89-92 | a filter returns an order-preserving sub-list that holds every passing element and only passing elements |
| Seqs.FilterMultiset | App.tsx:89-92 | a filter keeps every copy of a passing element and drops every copy of a failing one |
| Categorize.ParseEnvKeys | api/categorize.ts:20-21 | every environment key is non-empty, trimmed and comma-free; the keys are the trimmed comma pieces in their order with exactly the empty ones deleted (an order-preserving sub-list holding every non-empty trimmed piece as often as it occurs) |
| Categorize.ParseJoinedKeys | api/categorize.ts:21 | parsing a comma-join of well-formed keys gives back the same keys in order; the empty variable gives no keys |
| Categorize.KeysToTry | api/categorize.ts:17-24 | the keys to try are never empty strings; with a caller key they are exactly that key, and without one they are the parsed `API_KEY` list |
| Categorize.PersonalKeyIgnoresEnvironment | api/categorize.ts:24 | with a caller key, the environment has no influence on the keys tried |
| Categorize.FormatTabListLines | api/categorize.ts:33 | when no title or URL holds a newline, the tab list splits into one line per tab, line i being `[i] Title: <title> \| URL: <url>` |
| Categorize.ErrorText | api/categorize.ts:116 | the error frame's message is the error's message when it is non-empty, and `Failed to process request.` when the error has no message or an empty one |
| Categorize.TerminalFrame | api/categorize.ts:93-117 | the frame after the last attempt is terminal; it is `success` carrying that attempt's result and sources exactly when the attempt produced a result, and otherwise `error` carrying the error text |
| Categorize.ProgressPrefixFrames | api/categorize.ts:44-106 | the frames of the rotated attempts, built attempt by attempt, are `analyzing` with that attempt's message at even places and `retry` at odd places |
| Categorize.ProgressPrefixNotTerminal | api/categorize.ts:44-106 | no frame emitted for a rotated attempt ends the stream |
| Categorize.ProgressPrefixCounts | api/categorize.ts:44-106 | m rotated attempts emit m `analyzing` frames, m `retry` frames and no `success` or `error` frame |
| Categorize.RunRotation | api/categorize.ts:38-119 | the loop's stream and calls satisfy the rotation trace: keys tried in order; one `analyzing` frame per attempt; a `retry` frame and a next key only after a rate-limit failure without a caller key while keys remain; one terminal frame last |
| Categorize.Handle | api/categorize.ts:8-132 | non-POST requests get 405; a body on which reading `{ tabs }` throws (unparsable JSON or `null`), an empty key list or a body without a tab array get 500 with the matching message and no model call; otherwise the NDJSON stream of the rotation over the selected keys and the formatted tab list |
| Categorize.RotationFrameCounts | api/categorize.ts:40-118 | a stream has as many `analyzing` frames as attempts, one `retry` fewer, and exactly one terminal frame |
| Categorize.RotationLastFrame | api/categorize.ts:93-117 | the last frame is `success` with the last attempt's result and sources when it produced one, and otherwise `error` with that attempt's error text |
| Categorize.RotationTerminalLast | api/categorize.ts:93-117 | the last frame of a stream is terminal and no earlier frame is |
| Categorize.RotationTraceUnique | api/categorize.ts:40-118 | the trace determines the frames and the calls, so it is a complete specification of the loop |
| Categorize.QuotaFailuresTryEveryKey | api/categorize.ts:101-107 | with K keys, no caller key and rate-limit failures on the first K-1, all K keys are tried, with K `analyzing` and K-1 `retry` frames |
| Categorize.QuotaFailuresThenSuccess | api/categorize.ts:90-107 | when after K-1 rate-limit failures the K-th key succeeds, the stream ends in `success` with that attempt's result and sources |
| Categorize.OtherFailureStopsAtOnce | api/categorize.ts:101-117 | a first failure that is not a rate-limit error stops at once: one call, frames `analyzing` then `error` with that message |
| Categorize.PersonalKeySingleAttempt | api/categorize.ts:105 | with a caller key there is exactly one attempt and one terminal frame after its `analyzing` frame |
| Categorize.AttemptOnlyAfterQuotaFailures | api/categorize.ts:40-111 | attempt j happens only after j rate-limit failures; with a caller key only attempt 0 exists |
| Dashboard.FilteredTabs | App.tsx:88-93 | the filtered tabs are an order-preserving sub-list of the tabs that holds exactly the tabs whose lower-cased title or URL includes the lower-cased term, each as many times as it occurs in the tabs |
| Dashboard.EmptySearchKeepsAll | App.tsx:88-93 | an empty search term keeps every tab in order |
| Dashboard.SearchIgnoresTermCase | App.tsx:90-91 | filtering with a term and with its lower-cased form gives the same list |
| Dashboard.GroupedTabIds | App.tsx:95-97 | an id is in the set exactly when some group lists it |
| Dashboard.UngroupedTabs | App.tsx:99-101 | the ungrouped tabs are an order-preserving sub-list of the filtered tabs that holds exactly those whose id no group lists, each as many times as it occurs among the filtered tabs |
| Dashboard.NoGroupsLeavesAllUngrouped | App.tsx:99-101 | with no groups every filtered tab is ungrouped |
| Dashboard.ResolveIndices | App.tsx:62 | index resolution succeeds exactly when every index is in range; it then gives one id per index, in order, `ids[j] == tabs[indices[j]].id` |
| Dashboard.GroupColor | App.tsx:61 | a non-empty colour is kept; an empty one is replaced by the palette colour `COLORS[idx % 7]` |
| Dashboard.BuildGroups | App.tsx:57-63 | groups are built exactly when all indices are in range; group i then has the generated id, the proposal's name and description, its colour or `COLORS[i % 7]`, and the ids at its indices in order |
| Dashboard.FindTab | App.tsx:182 | `tabs.find` by id returns the first tab with that id, or nothing exactly when no tab has it |
| Dashboard.GroupIdsResolveBack | App.tsx:62 | with distinct tab ids, each built group id resolves back to the tab at the proposal's index |
| Dashboard.DevGroupExample | App.tsx:57-63 | indices `[0,2]` over tabs with ids "1","2","3" give the group ids `["1","3"]` |
| Dashboard.App.constructor | App.tsx:8-12 | the page starts with no tabs, no groups, not organising, an empty search term, status `disconnected` and nothing posted |
| Dashboard.App.HandleMessage | App.tsx:16-30 | envelopes not tagged by the extension change nothing. `TABS_UPDATE` replaces the tabs wholesale and sets `connected`. `PONG` sets `connected` and posts one page-tagged `GET_TABS`. Status `connected` is kept, and the status never returns to `disconnected` |
| Dashboard.App.Heartbeat | App.tsx:35-37 | each heartbeat posts one page-tagged `PING` |
| Dashboard.App.RequestTabs | App.tsx:45-48 | `requestTabs` sets `connecting` and posts one page-tagged `GET_TABS` |
| Dashboard.App.SetSearchTerm | App.tsx:129 | the search box sets the search term |
| Dashboard.App.HandleOrganize | App.tsx:50-78 | nothing changes without tabs. Otherwise the organising flag ends false. A result with all indices in range stores the built groups and posts exactly those groups once as `APPLY_GROUPS`. A null result or an out-of-range index leaves the groups and the posted messages unchanged |
| Dashboard.App.Click | App.tsx:137-139 | a click while organising does nothing. When not connected it requests tabs and leaves the groups alone. When connected it runs `handleOrganize`: nothing changes without tabs; with tabs the flag ends false, a result whose indices are in range stores the built groups and posts them once as `APPLY_GROUPS`, and a null result or an out-of-range index changes neither groups nor posts. `connected` is kept and the status is never `disconnected` after an enabled click |
| Relay.OnWindowMessage | extension/content.js:3-14 | an envelope not tagged by the page produces nothing. `PING` produces exactly one `PONG` to the page and nothing to the background. Any other action is forwarded once with its action and data unchanged. Every post carries the extension tag |
| Relay.OnForwardReply | extension/content.js:14-22 | a reply carrying `tabs`, even an empty list, becomes one `TABS_UPDATE` with exactly those tabs; no tabs means no post |
| Relay.OnRuntimeMessage | extension/content.js:26-34 | a background `TABS_UPDATE` is re-posted once with identical data; other actions post nothing |
| Bridge.RelayNeverEchoes | extension/content.js:4-33 | every envelope the relay posts carries the extension tag, so it passes the page filter and the relay's own listener ignores it |
| Bridge.PageIgnoresOwnPost | App.tsx:16-18 | every envelope the page has posted carries the page tag, so receiving it back leaves the page's whole state unchanged |
| Bridge.Handshake | App.tsx:18-36 | a heartbeat PING, the relay's PONG, the page's GET_TABS and the worker's reply leave the page connected, with the worker's snapshot as its tabs; each side ignores its own posts along the way |

## Left out

- The language-model call (`GoogleGenAI`, `generateContent`, the prompt and schema, `JSON.parse` of its text, grounding metadata, `api/categorize.ts:43,49-91`) is a foreign library. Each attempt's outcome is an input: a parsed result with its citations, or a thrown error whose message may be absent. A parse failure of the model's text is one such thrown error.
- HTTP and stream plumbing (`Request`, `Response`, `ReadableStream`, `TextEncoder`, headers, JSON serialisation of frames) is not modelled. Frames are a datatype and a stream is a sequence of them.
- Categorize.RunRotation: the frames and the calls are recorded as two sequences, with call j pairing with frame 2j. The fact that each `analyzing` frame is enqueued before its call starts is not represented.
- The request body is a choice of three inputs. The first is a body on which reading and destructuring `{ tabs }` throws: unparsable JSON, or JSON `null` (`api/categorize.ts:14`). The second is a body that gets past that line without an array `tabs`. The third is the tabs. Tabs whose title or URL is missing (rendered as `undefined` in the prompt) are not modelled.
- The `initializing` status of the stream frame shape is never emitted by the endpoint shown, so it is not modelled.
- `services/geminiService.ts` is not part of this model. The page's awaited categorisation result is an input (`None` for `null`).
- Dashboard.App.HandleOrganize: the await is not modelled as a suspension point. The method runs atomically with the awaited result as a parameter, so no interleaving of other messages during the call is modelled.
- Dashboard.BuildGroups: `Date.now()` is read once per group in the source. The model takes a single `now` for the whole build.
- Dashboard.App.HandleMessage: a `TABS_UPDATE` whose data is not a tab list leaves the tabs unchanged. The source would store that value as the tab list.
- Result objects that break the response schema are not modelled. In `handleOrganize`, a missing `groups` or `tabIndices` or a non-integer index throws (like an out-of-range index, which is modelled). A missing `name` or `description` is copied as `undefined`. A missing `color` takes the palette colour. The endpoint passes any parsed object through as `success` data, including `{}` for an empty model reply. The model's `AIResult` always has every field.
- Strings.ToLower: lower-cases ASCII letters only; full Unicode `toLowerCase` is not modelled.
- The 1500 ms heartbeat timer and its teardown (`App.tsx:35-42`) are not modelled. One tick is Dashboard.App.Heartbeat.
- `performTabAction` (`App.tsx:80-86`) is not modelled. It posts `TAB_ACTION` with `parseInt` of the id, and the JavaScript number parsing is out of scope.
- React rendering, JSX, styling and `TabListItem` are not modelled, including `new URL(...).hostname`.
- `extension/background.js` is not part of this model. It is Chrome tab, group and window API calls with a random colour choice. Its replies and pushes are inputs to the relay.
- `extension/popup.js` is not part of this model.
- Failures of `chrome.runtime.sendMessage` and of `window.postMessage` are not modelled.
