# generate-pdf: a verified model of the render queue

The service answers `GET /generate-pdf?url=…` by loading the page in one
shared headless-browser tab and returning it as a PDF. Around the browser
calls sits a small piece of decision logic, and this project models it in Dafny:

- **Admission** (`admission.dfy`). A missing or empty `url` gets a 400 response
  and is never queued. Any other URL gets `https://` in front unless it already
  starts with `http://` or `https://`.
- **Rendering decision** (`render.dfy`). The browser is abstract. Navigation
  either settles or throws an error with a `name` and a `message`, and capture
  either yields bytes or throws. A `TimeoutError` still leads to capture. A
  message containing "Navigating frame was detached" replaces the browser
  session (a generation counter) and fails the job with a fixed retry message.
  Any other error fails the job with its own message.
- **Queue and single-flight serializer** (`serializer.dfy`). The module-level
  `queue` and `isProcessing` become fields of an immutable state. Each event-loop
  turn is a pure transition: a request arrives (`Submit`) or the job in flight
  ends (`Complete`). Both of them try to dispatch the queue head. The state
  also keeps three history logs: admitted ids, started ids and sent responses.
  These let FIFO order and exactly-once delivery be stated.
- **Whole runs** (`runs.dfy`). These theorems cover any sequence of events
  starting from an empty queue once start-up has configured the browser.
  Every reachable state satisfies the invariant. Each queued or in-flight job
  carries its own request's normalised `url`.
  Jobs are served in arrival order. No render starts before the previous job
  has been answered. A rejected request gets exactly one 400. Once enough jobs
  finish, every admitted request has exactly one response.
- `strings.dfy` gives JavaScript's `startsWith` and `includes`. `http.dfy` gives
  the three response shapes.

Two details of the admission rule follow the code exactly:
- Any *falsy* `url` is rejected, not only a missing one. So `?url=` (the empty
  string) also gets the 400.
- Only the two lower-case prefixes count as a scheme. So `ftp://x` becomes
  `https://ftp://x`, and `HTTP://x` becomes `https://HTTP://x` (see
  `Admission.NormalizeUpperCaseScheme`).

## Model

| member | source | states |
|---|---|---|
| Strings.IncludesIffOccurs | index.js:96 | the left-to-right substring search used for `message.includes(...)` is true exactly when the marker occurs at some position of the message |
| Admission.Normalize | index.js:154-157 | the result always starts with `http://` or `https://`; a URL that already does is returned unchanged; otherwise the original text is kept whole, as a suffix behind `https://` |
| Admission.NormalizeFixedIff | index.js:155-157 | normalisation leaves a URL unchanged if and only if it already starts with one of the two prefixes |
| Admission.NormalizeIdempotent | index.js:155-157 | normalising an already normalised URL changes nothing |
| Admission.NormalizeUpperCaseScheme | index.js:155-156 | the prefix test is case-sensitive: any URL starting with upper-case `HTTP://` still gets `https://` in front of it |
| Admission.Admit | index.js:148-157 | a request is rejected exactly when `url` is absent or empty, with status 400 and body `{error: "URL parameter is required"}`; otherwise it is accepted with the caller's text itself when that already starts with `http://` or `https://`, and with `https://` followed by the caller's text in every other case |
| Render.Classify | index.js:89-102 | a settled navigation or a `TimeoutError` proceeds to capture; otherwise a message containing "Navigating frame was detached" relaunches; any other error is rethrown with its own message; the three cases are exclusive and cover every input |
| Render.TimeoutWinsOverDetach | index.js:90-96 | a `TimeoutError` proceeds to capture even when its message mentions a detached frame, because the name test comes first |
| Render.DetachedAnywhere | index.js:96-99 | a non-timeout error whose message contains the detached-frame text anywhere triggers the relaunch |
| Render.GeneratePdf | index.js:86-115 | a PDF results exactly when navigation settled or timed out and capture succeeded, and it is the captured bytes; the session generation goes up by one exactly on a detached frame and is unchanged otherwise; each failure carries the retry message, the navigation error's message or the capture error's message |
| Render.FailedNavigationIgnoresCapture | index.js:96-103 | when navigation fails with anything but a timeout, the job fails and the capture result cannot affect the outcome |
| Render.ResponseFor | index.js:128-140 | the response has the shape of a job response; status 200 exactly for a rendered PDF, with the `application/pdf` and `attachment; filename="generated_page.pdf"` headers and the bytes as body; status 500 exactly for a failure, with body `{error: "Error generating PDF", message}` |
| Serializer.Push | index.js:159 | the job is added at the tail; earlier queued jobs keep their order and contents; nothing else in the state changes |
| Serializer.Dispatch | index.js:119-122 | the state is unchanged if and only if a job is in flight or the queue is empty; otherwise exactly the head leaves the queue, becomes the job in flight, the flag is set and the head's id is logged as started |
| Serializer.Submit | index.js:147-161 | a falsy `url` adds one 400 response for this request and leaves the queue and flag unchanged; otherwise no response is sent, the request is logged as admitted, and the job with the normalised URL joins the tail of the queue, and is started at once when the serializer was idle; when idle with work already queued (a state the invariant rules out) the old head starts and the new job joins the tail |
| Serializer.Complete | index.js:118-145 | with a job in flight, exactly one response is sent for that job, the session becomes the one the render leaves behind, and the next head is dispatched if there is one; otherwise the serializer goes idle; with nothing in flight nothing changes |
| Serializer.InitInv | index.js:17-18 | the start-up state (empty queue, flag clear) satisfies the invariant |
| Serializer.SubmitPreservesInv | index.js:147-161 | an arriving request preserves the ordering and delivery invariant |
| Serializer.CompletePreservesInv | index.js:118-145 | finishing the job in flight preserves the ordering and delivery invariant |
| Serializer.StepPreservesInv | index.js:118-161 | every event-loop transition preserves the invariant: the flag is set exactly when one job is in flight; the serializer is never idle with work queued; admitted = started followed by queued; every answered request has exactly one response and every pending one none; admitted requests are answered only with a PDF or a 500, all others only with the 400 |
| Serializer.SingleFlight | index.js:119-122 | among the started jobs, the only one without a response is the last one, and only while the flag is set |
| Serializer.SessionChangesOnlyOnDetach | index.js:96-99 | a transition changes the browser session only when a job is in flight and its navigation hit a detached frame, and then the generation goes up by exactly one |
| Serializer.DetachedThenNext | index.js:96-99 | a detached frame fails the job in flight with "Navigating frame was detached, retry later" (500) and replaces the session; the next queued job is dispatched at once, and a successful render of it is answered with its PDF on the new session |
| Runs.Reachable | index.js:17-18 | every state reachable from start-up satisfies the invariant, its arrival counter equals the number of requests, and its admitted log lists exactly the requests with a truthy `url`, in arrival order |
| Runs.AdmittedJobIds | index.js:150-159 | the jobs built from the events carry exactly the admitted arrival numbers, in arrival order |
| Runs.JobsFollowRequests | index.js:154-160 | at every point of every run, the queue holds exactly the admitted jobs not yet started, in arrival order, and each queued or in-flight job carries its own request's arrival number and its `url` normalised |
| Runs.SubmitKeepsJobs | index.js:150-160 | an arriving request with a truthy `url` adds exactly its own job (arrival number, normalised `url`) after the jobs still owed, and a rejected one adds nothing |
| Runs.CompleteKeepsJobs | index.js:119-122 | finishing the job in flight keeps the queue equal to the owed jobs not yet started, and the next job put in flight is the next owed one |
| Runs.ServedInArrivalOrder | index.js:121-122 | jobs are handed to the renderer in exactly the order their requests were admitted (the started log is a prefix of the admitted requests) |
| Runs.NeverTwoInFlight | index.js:141-144 | at every point of every run, every started job except the latest has exactly one response |
| Runs.RejectedAnsweredOnce | index.js:150-152 | a request with a falsy `url` gets exactly one response, that response is the 400 with `{error: "URL parameter is required"}`, and the request is never queued or started |
| Runs.AdmittedAnsweredByJob | index.js:128-140 | every response to an admitted request is either the PDF attachment (200, the two fixed headers) or the 500 `{error: "Error generating PDF", message}` |
| Runs.Drain | index.js:141-144 | after as many job completions as there were queued or in-flight jobs, whatever their outcomes, the serializer is idle with an empty queue, and every admitted request has been started and has exactly one response |

## Left out

- Browser launch: launch arguments, choosing the executable path and the launch timeout (index.js:20-50). These are calls into the browser library. The session is only a generation number.
- Extension configuration (index.js:52-72): UI clicks raced against a 180-second timer. It has no logic to state beyond "fails on timeout".
- `decodeURIComponent` (index.js:76) is a library call, and the URL is otherwise opaque. Navigation's result is an input of the model, so decoding cannot change any modelled outcome. A malformed URL throws before navigation, and that gives the same 500 with its own message as the "any other error" case.
- `page.goto` and `page.pdf` (index.js:81-84, 107-112). The network-idle heuristic, the A4/margins/background settings and the PDF bytes belong to the browser. Their results are inputs: a settled or thrown navigation, and captured bytes or a thrown capture error.
- The PDF's content. Captured bytes come from the browser, so nothing is claimed about their `%PDF-` signature or their length.
- Failures inside the detached-frame recovery (index.js:97-98). The model always treats the relaunch as succeeding. In the source, `browser.close()` can throw at line 97, and the job then fails with that error's own message and no relaunch happens. `initializeBrowser` can also throw at line 98, and then the job fails with that error's message. What the global `browser` and `page` handles refer to afterwards depends on which step threw: the launch, `newPage` or the extension configuration. Later jobs may then run against a closed page or an unconfigured browser.
- Hangs. `page.pdf` is called with no timeout (index.js:111), and `browser.close()` and the relaunch have no time bound. So a job in flight can hold `isProcessing` forever and leave every queued request unanswered. The model expresses such a hang only as a `Finish` event that never comes, which is why `Runs.Drain` is conditional on enough `Finish` events.
- Query values that are not strings. Express's query parser turns a repeated `url=` key into an array and `url[x]=` into an object. Both are truthy, and calling `startsWith` on them then throws inside the handler. Only "absent" and "a string" are modelled.
- Requests that arrive during start-up. `app.listen` accepts requests before `initializeBrowser()` has finished (index.js:163-166), and `processQueue` does not wait for the browser (index.js:118-122). A job dispatched while `puppeteer.launch` is pending finds `page` undefined and fails with a TypeError at index.js:81. A job dispatched after `page` is set (index.js:40) but while the extension is being configured (index.js:43, 52-72) navigates the page that the configuration is driving. That can make the configuration fail and end the process (index.js:170). A detached frame there also starts a second `initializeBrowser` alongside the first. The model starts from `Serializer.Init`, the state after start-up has finished, so every `Runs` theorem holds only for requests that arrive once the browser is configured.
- Express routing, CORS, dotenv, `app.listen` and its exit on start-up failure, and SIGINT shutdown (index.js:1-9, 163-179). These are process and HTTP plumbing.
- Logging and `Date.now` timings (index.js:125, 134-135). They have no effect on behaviour.
- Headers that Express adds itself, such as the JSON content type. Only headers the handler sets explicitly are modelled.
- Interleaving during the relaunch: while it is awaited, requests that arrive only join the queue. The model writes them as `Request` events before the `Finish` event, which has the same effect because `isProcessing` stays set throughout.
