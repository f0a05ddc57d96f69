# Avito message monitor: a verified model of `PuppeteerService`

This project models the monitoring engine of the Avito message relay. The
engine is the NestJS service `PuppeteerService`. It drives a headless browser
through four stages:

- it launches the browser;
- it logs in to avito.ru, with the credentials from `AVITO_LOGIN` and `AVITO_PASSWORD`;
- it opens the inbox;
- it polls the inbox page in a loop.

Each poll scrapes the conversations whose text names the target sender
(`AVITO_TARGET_NAME`, by default `Рушан`). It filters out every id already
seen and relays each new message to the WebSocket gateway as a `new_message`
event. A failed poll is relayed as one `error` event with code 500.

The model is imperative where the service is:

- `PuppeteerService` is a class with the fields `browser`, `page`,
  `monitoring` and `seenMsgID`;
- the gateway is a class that records its broadcasts;
- the extraction callback, the seen-id filter and the poll loop are methods
  with loops.

Each of those methods is proved against a function on values:

- `Extracted` for the callback;
- `Kept` and `Fresh` for the filter;
- `Poll` and `Run` for the loop.

The lemmas about those functions state what the service promises: at-most-once
delivery, only the target is relayed, per-iteration error isolation, and
nothing is relayed after a stop.

Every browser call that navigates, types, clicks, evaluates or closes is a
parameter that says how the call ends: it resolves, or it throws a `Fault`.
The element-presence queries of the login flow are plain booleans. The page
is a parameter too, as the element lists that the callback's CSS queries
return. A run of the poll loop is observed as a
finite sequence of `Tick`s. Each tick holds the outcome of one scrape and
whether `stop` cleared the flag while that iteration slept.

Modules, one file each:

- `Messages` (messages.dfy): faults, scraped records, relayed messages, events, the environment.
- `JsText` (text.dfy): `trim`, `includes` and `slice(0, n)`.
- `Extraction` (extraction.dfy): the page-side callback of `scrapeNewMessages`.
- `Dedup` (dedup.dfy): what the `seenMsgID` filter keeps.
- `Session` (session.dfy): the URLs, the selectors, the browser calls of the login flow, and when it succeeds.
- `PollLoop` (poll_loop.dfy): what one iteration and one run of the loop relay.
- `Relay` (gateway.dfy): the gateway.
- `Monitor` (service.dfy): the service class.

## Model

| member | source | states |
|---|---|---|
| Messages.TargetName | src/puppeteer/puppeteer.service.ts:175 | The target is never empty. It is `AVITO_TARGET_NAME` whenever that variable is set to a non-empty value, and `Рушан` otherwise. |
| Messages.ErrorMessage | src/puppeteer/puppeteer.service.ts:99 | The three errors the service raises itself ("Page not initialized", missing credentials, failed login) always carry a non-empty message. |
| Messages.ReportText | src/puppeteer/puppeteer.service.ts:164 | The reported text is the error's message whenever that message is non-empty. When the message is empty, the error is a thrown one and the text is its name. The text is non-empty exactly when the message or, for a thrown error, its name is non-empty. |
| JsText.TrimStart | src/puppeteer/puppeteer.service.ts:190 | The result is a suffix of the input that does not start with white space. |
| JsText.TrimStartRemovesSpace | src/puppeteer/puppeteer.service.ts:190 | Everything `TrimStart` removes is white space. |
| JsText.TrimEnd | src/puppeteer/puppeteer.service.ts:190 | The result is a prefix of the input that does not end with white space. |
| JsText.TrimEndRemovesSpace | src/puppeteer/puppeteer.service.ts:190 | Everything `TrimEnd` removes is white space. |
| JsText.Trim | src/puppeteer/puppeteer.service.ts:202-203 | `trim()` leaves no white space at either end and never lengthens a string. |
| JsText.TrimCut | src/puppeteer/puppeteer.service.ts:202-203 | The trimmed string is an infix of the input, and all of the input around it is white space. |
| JsText.TrimIdempotent | src/puppeteer/puppeteer.service.ts:202-203 | Trimming twice is trimming once, so a trimmed snippet's body is stable. |
| JsText.IncludesOccurs | src/puppeteer/puppeteer.service.ts:186 | `includes` holds exactly when the target occurs in the text at some offset, in both directions. |
| JsText.IncludesNonEmpty | src/puppeteer/puppeteer.service.ts:199 | A text that includes a non-empty target is itself non-empty. |
| JsText.Prefix | src/puppeteer/puppeteer.service.ts:198 | `slice(0, n)` is the first `n` characters, or the whole string when it is shorter. |
| Extraction.ConversationId | src/puppeteer/puppeteer.service.ts:198 | A conversation's id is its non-empty `data-id`; else its non-empty element id; else the first 40 characters of its text (all of it when shorter). |
| Extraction.ListItemId | src/puppeteer/puppeteer.service.ts:188 | A list item's id is its non-empty `data-id`; else its non-empty element id; else the random number's text. |
| Extraction.SnippetText | src/puppeteer/puppeteer.service.ts:201-202 | A conversation's body text is its snippet element's text when it has one; else that of its first paragraph or span; else its own text trimmed. |
| Extraction.Record | src/puppeteer/puppeteer.service.ts:187-203 | Every record names the target as sender, has a trimmed body and the element's timestamp. Its id follows the branch's rule. Its body is the trimmed text for a list item, and for a conversation the trimmed snippet text, which is the trimmed full text when the conversation has no snippet element. |
| Extraction.ConversationIdNonEmpty | src/puppeteer/puppeteer.service.ts:198-199 | Every conversation that produces a record has a non-empty id, even when its id falls back to its text. |
| Extraction.Collect | src/puppeteer/puppeteer.service.ts:184-204 | One loop of the callback pushes at most one record per element. |
| Extraction.CollectSnoc | src/puppeteer/puppeteer.service.ts:184-204 | One more element pushes its record exactly when its text includes the target, and the earlier records are untouched. |
| Extraction.Extracted | src/puppeteer/puppeteer.service.ts:177-207 | The callback returns at most one record per element of the branch taken, and nothing for a page with no elements at all. |
| Extraction.Extract | src/puppeteer/puppeteer.service.ts:177-207 | The callback's loops return `Extracted`: the conversation loop when the page has conversations, and the list-item fallback only when it has none. |
| Extraction.CollectSound | src/puppeteer/puppeteer.service.ts:186-192 | Every pushed record is the record of an element whose text includes the target. |
| Extraction.CollectComplete | src/puppeteer/puppeteer.service.ts:196-204 | Every element whose text includes the target has its record pushed. |
| Extraction.ExtractedMatches | src/puppeteer/puppeteer.service.ts:180-204 | Every record the callback returns names the target as sender, has a trimmed body, and comes from a matching element of the branch taken. Every matching element yields a record. |
| Dedup.Kept | src/puppeteer/puppeteer.service.ts:212-219 | The filter keeps no more records than the batch holds. |
| Dedup.KeptSound | src/puppeteer/puppeteer.service.ts:213-218 | Every kept record is in the batch. No kept id was seen before. No two kept records share an id. |
| Dedup.KeptIds | src/puppeteer/puppeteer.service.ts:213-218 | The kept ids are exactly the batch's ids that were not seen: nothing new is lost. |
| Dedup.KeptSnoc | src/puppeteer/puppeteer.service.ts:213-218 | One more record is kept exactly when its id is neither seen nor taken earlier in the batch. Only the first occurrence of an id is emitted. |
| Dedup.Strips | src/puppeteer/puppeteer.service.ts:217 | Each relayed message is its record with the id dropped: `{from, body, timestamp: date}`, in order and one for one. |
| Dedup.Fresh | src/puppeteer/puppeteer.service.ts:212-220 | The `fresh` array holds one message per kept record and is never longer than the batch. |
| Dedup.FreshAllSeen | src/puppeteer/puppeteer.service.ts:215 | A batch whose ids have all been seen relays nothing. |
| Dedup.FreshSnoc | src/puppeteer/puppeteer.service.ts:213-218 | The first-occurrence rule stated on the relayed messages. |
| PollLoop.NewMessages | src/puppeteer/puppeteer.service.ts:158-161 | One `new_message` event per fresh message, in order. |
| PollLoop.Poll | src/puppeteer/puppeteer.service.ts:156-165 | One iteration never shrinks the seen set. A failed scrape relays exactly one event, keeps nothing and leaves the seen set alone. |
| PollLoop.Run | src/puppeteer/puppeteer.service.ts:155-167 | The seen set only grows over a run. |
| PollLoop.Polls | src/puppeteer/puppeteer.service.ts:155-167 | The loop runs one iteration per tick until the first iteration during which `stop` cleared the flag. A failed scrape never ends it. |
| PollLoop.RunFromSuffix | src/puppeteer/puppeteer.service.ts:155-167 | The loop's walk over the ticks from index `i` agrees with a run on the remaining ticks. |
| PollLoop.TracksStep | src/puppeteer/puppeteer.service.ts:155-167 | One iteration moves the loop one tick further along the run: the rest of the run starts from the new seen set, or the run is over once the flag is cleared. |
| PollLoop.TracksEnd | src/puppeteer/puppeteer.service.ts:155-168 | When the loop exits, everything the run relays has been relayed and the seen set is the run's. If it exited because the flag was cleared, it ran exactly `Polls` iterations. |
| PollLoop.PollMessages | src/puppeteer/puppeteer.service.ts:156-165 | An iteration relays either its fresh messages and no error, or exactly one error with code 500 and no message. |
| PollLoop.RunRelaysKept | src/puppeteer/puppeteer.service.ts:157-161 | The messages a run relays are the records its filters kept, with ids dropped, in order. |
| PollLoop.FirstPollKept | src/puppeteer/puppeteer.service.ts:211-220 | One iteration keeps records with distinct ids that were unseen before it and are seen after it. |
| PollLoop.KeptBetweenConcat | src/puppeteer/puppeteer.service.ts:155-167 | Two consecutive stretches of iterations together keep distinct ids that are new to the first stretch. |
| PollLoop.RunAtMostOnce | src/puppeteer/puppeteer.service.ts:155-167 | At most once per run: the kept records have distinct ids, none seen when the run began and all seen when it ends. |
| PollLoop.AtMostOnceAcrossRuns | src/puppeteer/puppeteer.service.ts:15 | The seen set survives `stop` and `start`, so an id is relayed at most once over two consecutive runs. |
| PollLoop.RunErrors | src/puppeteer/puppeteer.service.ts:162-165 | The error events of a run are exactly one per failed iteration, and every one carries code 500. |
| PollLoop.PollOnlyTarget | src/puppeteer/puppeteer.service.ts:157-160 | One iteration relays only messages whose sender is the target. |
| PollLoop.RunOnlyTarget | src/puppeteer/puppeteer.service.ts:155-167 | A whole run relays only messages whose sender is the target. |
| PollLoop.RunStopsAtRequest | src/puppeteer/puppeteer.service.ts:155 | Nothing after the iteration that saw the stop matters: the run equals the run on the ticks up to it. |
| Session.LoginSucceeds | src/puppeteer/puppeteer.service.ts:82-139 | `performLogin` can only succeed after its navigation succeeds and with both credentials set. It fails whenever the login marker is still present or cannot be checked after submitting. |
| Session.LoginPasses | src/puppeteer/puppeteer.service.ts:60-79 | With the profile page open and no login marker, the session counts as logged in. A failed navigation or marker check fails the login. With a marker present, login passes only through a successful `performLogin`, and never without credentials. |
| Relay.Gateway.SendMessage | src/gateway/gateway.gateway.ts:33-35 | Broadcasts exactly one `new_message` event after all earlier ones. |
| Relay.Gateway.SendError | src/gateway/gateway.gateway.ts:37-39 | Broadcasts exactly one `error` event with the given code and message. |
| Monitor.PuppeteerService.constructor | src/puppeteer/puppeteer.service.ts:8-17 | A new service holds no browser and no page, is not monitoring, and has seen no id. |
| Monitor.PuppeteerService.Start | src/puppeteer/puppeteer.service.ts:19-36 | While monitoring, `start` changes nothing. Otherwise: if any step before the loop throws, the flag ends false and nothing is relayed or seen. If the loop is reached, it relays exactly the run and ends with the flag cleared exactly when a stop was seen. A failed start keeps the browser it launched. |
| Monitor.PuppeteerService.Stop | src/puppeteer/puppeteer.service.ts:38-42 | `stop` always leaves the flag false and never fails, then closes as `closeBrowser` does. When the page close fails, both handles stay and the browser stays open. Otherwise the page is closed and forgotten. The browser is then closed and forgotten, or kept open and held when its close fails. With nothing held, nothing changes. |
| Monitor.PuppeteerService.LaunchBrowser | src/puppeteer/puppeteer.service.ts:44-58 | A no-op when a browser is held. Otherwise it yields a fresh browser and a fresh page in it, or fails with the first failing step and keeps what the earlier steps created. |
| Monitor.PuppeteerService.Login | src/puppeteer/puppeteer.service.ts:60-79 | It fails with "Page not initialized" without a page. It starts with the profile page. It succeeds exactly when the session shows no login marker, or shows one and `performLogin` succeeds. It types nothing but the configured credentials. |
| Monitor.PuppeteerService.PerformLogin | src/puppeteer/puppeteer.service.ts:82-139 | It succeeds exactly when every step succeeds and the marker is gone afterwards. Missing credentials fail after the navigation and trigger click. The full call trace is fixed once verification is reached. A marker still present fails with the login-failed error. |
| Monitor.PuppeteerService.FillAndSubmit | src/puppeteer/puppeteer.service.ts:103-124 | The fill and submit steps succeed exactly when the wait, both typings and the submission succeed. On success they issue exactly the fill and submit calls, on the primary field selectors when present and the fallback ones otherwise. |
| Monitor.PuppeteerService.OpenMsgPage | src/puppeteer/puppeteer.service.ts:141-150 | It fails without a page. Otherwise it navigates to the inbox and ends as that navigation does. |
| Monitor.PuppeteerService.MonitorMessages | src/puppeteer/puppeteer.service.ts:152-169 | It fails without a page. It runs no iteration when the flag is clear. Otherwise it runs exactly `Polls` iterations, relays exactly the events of `Run` from the current seen set, and leaves the seen set as `Run` does. |
| Monitor.PuppeteerService.PollOnce | src/puppeteer/puppeteer.service.ts:156-166 | One pass of the loop body relays and records exactly what `Poll` does, and the flag survives unless a stop came during the sleep. |
| Monitor.PuppeteerService.Broadcast | src/puppeteer/puppeteer.service.ts:157-165 | Sends each fresh message once, in order, or sends the error once with code 500. |
| Monitor.PuppeteerService.ScrapeNewMessages | src/puppeteer/puppeteer.service.ts:171-221 | It throws without a page, or when the page evaluation throws, and then leaves the seen set alone. Otherwise it returns `Fresh` of the extracted batch and adds every id of the batch to the seen set. |
| Monitor.PuppeteerService.FilterSeen | src/puppeteer/puppeteer.service.ts:211-220 | The in-place filter returns `Fresh(old seen, batch)` and grows the seen set by exactly the batch's ids. |
| Monitor.PuppeteerService.CloseBrowser | src/puppeteer/puppeteer.service.ts:223-237 | It never fails. A failing page close leaves both handles held and the browser open. Otherwise the page is closed and forgotten. The browser is then closed and forgotten, or kept open when its close fails. With nothing held, it changes nothing. |

## Left out

- Timing is not modelled: the `setTimeout` sleeps, the poll interval `MONITOR_INTERVAL` and its cast, the navigation timeout and the viewport size.
- Concurrency is not modelled. `stop` runs while the loop sleeps; the model shows it only as the `stopRequested` flag of the tick in which it happened.
- The close half of a concurrent `stop` is not shown inside the loop.
- Puppeteer and the DOM are foreign code:
  - every navigation, evaluation, typing, click, key press, launch and close is an `Outcome` or `Result` parameter;
  - CSS matching is replaced by the element lists that the queries return.
- Monitor.PuppeteerService.PerformLogin: the four `page.$(…)` queries of `performLogin` never fail in the model. These are the login trigger, the two credential fields and the submit button. Each is a boolean "present" field of `Session.LoginPage`, so the path where such a query rejects and `performLogin` fails with the browser's error is not modelled.
- `Math.random()` and `new Date().toISOString()` are opaque strings carried by each element.
- Monitor.PuppeteerService.MonitorMessages: the loop is observed over a finite sequence of ticks, so it also stops when the ticks run out. The source loops until a stop.
- JsText.Prefix: `slice(0, 40)` counts UTF-16 code units and the model counts characters. The two differ only on characters outside the Basic Multilingual Plane.
- Messages.ReportText: `String(err)` is modelled as the error's name, which is what JavaScript prints for an Error object whose message is empty. Thrown non-Error values are not modelled.
- The logger and every log line are not modelled.
- `onModuleDestroy` is not modelled: it closes the browser on shutdown and has no logic of its own.
- The gateway's socket.io server, its connections and the fan-out to clients are not modelled. The gateway is the list of events it broadcasts.
- src/controllers/admin.controller.ts, src/helpers/shutdown.ts, src/app.module.ts and src/main.ts are HTTP, signal and bootstrap wiring and are not part of this model.
- src/puppeteer/types/puppeteer.types.ts is not part of this model. `MonitoredMessage` is rebuilt from how the service uses it.
- Some methods are split out of source functions to keep each proof small:
  - `Iterate`, `PollOnce` and `Broadcast` come from the body of the `monitorMessages` loop;
  - `FilterSeen` comes from the filter loop of `scrapeNewMessages`;
  - `FillAndSubmit` comes from the middle of `performLogin`.

The model follows the code, including these behaviours:

- A failed `start` does not close the browser. It keeps the browser and page that the launch created.
- `performLogin` checks the credentials only after navigating and clicking the login trigger, not before any navigation.
- `seenMsgID` is never cleared. It survives `stop` and `start`, so a later run never relays an id an earlier run relayed.
- When `page.close` throws, `closeBrowser` skips `browser.close`, and both handles stay held.
- `launchBrowser` checks only `browser`. A browser kept without a page (its `newPage` failed) makes every later `start` fail with "Page not initialized" until `stop` clears it.
