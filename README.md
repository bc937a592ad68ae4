# pdfan core, modelled in Dafny

pdfan renders web pages to PDF by driving headless Chrome through chromedriver. Its HTTP
front end is commented out. This project models the parts of it that hold the logic:

- **Network idle (`src/wait.rs`), in `NetworkIdle.dfy`.** The page is ready once the number
  of in-flight requests has stayed at or under a threshold for 500 ms. The threshold is 0 for
  networkidle0 and 2 for networkidle2. This file also covers the wait for the page's
  `finishRendering` binding.
  - The request listeners' events and the 100 ms timer ticks form a single input sequence.
    `Next`/`Breaks` give the one-step semantics and `StateAt` folds it over the sequence.
  - `IdleWait` is the loop's state: the pending set and the idle timestamp. Its `Handle` step
    and the `WaitForNetworkIdle` loop are proved against that specification.
- **The Chrome task (`src/chrome.rs`), in `ChromePdf.dfy`.** It covers:
  - the paper-format table;
  - how the `Page.printToPDF` parameters are built from a request payload;
  - where the page is navigated: a URL, or the HTML as a base64 data URL;
  - the error paths of one task run;
  - the CDP command sent over the WebDriver connection: its endpoint, method and body.
- **The worker pool (`src/worker.rs`), in `WorkerPool.dfy`.** A counting semaphore of `cap`
  permits admits work. Admitted packets wait in a single FIFO queue. Workers each own a
  context and take packets from the head of the queue. A worker skips a packet whose caller
  has stopped waiting; otherwise it processes the packet once and sends the result. `Pool`
  keeps the semaphore, the queue, the per-worker slots and the result slots, and its methods
  preserve the invariant that every queued or executing packet holds exactly one permit.
- **The supervisor (`src/driver.rs`), in `Supervisor.dfy`.** Each managed driver gets a
  control loop that holds at most one process handle.
  - The loop relaunches the process whenever it exits. A loop with no process waits one
    second and then relaunches.
  - On the broadcast interrupt, the loop stops the process it holds and ends.
  - `Supervisor` keeps the loops' handles: `Run` appends one and `Stop` interrupts and
    empties them all.

`Wrappers.dfy` holds `Option` and `Result`.

## Model

| member | source | states |
|---|---|---|
| NetworkIdle.MaxConnections | src/wait.rs:58-61 | networkidle0 allows 0 open connections and networkidle2 allows 2, each policy exactly one of them |
| NetworkIdle.Forward | src/wait.rs:73-92 | a request-will-be-sent event becomes a start of the same request id; a loading-finished or loading-failed event becomes a finish of it |
| NetworkIdle.Breaks | src/wait.rs:102-127 | the wait ends on a closed event stream, and only then with StreamClosed; it ends as idle exactly on a tick where the pending count is within the threshold and the recorded idle time is at least 500 ms old |
| NetworkIdle.Next | src/wait.rs:102-127 | a start adds its id and clears the idle timestamp; a finish removes its id; a tick over the threshold clears the timestamp, and a tick within it sets the timestamp when none is set; a breaking input leaves the state as it was |
| NetworkIdle.NextKeepsArmed | src/wait.rs:102-127 | one iteration keeps the invariant "timestamp set implies count within threshold" |
| NetworkIdle.IdleWait.constructor | src/wait.rs:96-97 | the loop starts with no pending requests, no idle timestamp and the threshold of its policy |
| NetworkIdle.IdleWait.Handle | src/wait.rs:102-127 | one loop iteration updates the pending set and timestamp as the one-step semantics says and reports exactly the exit that semantics gives |
| NetworkIdle.WaitForNetworkIdle | src/wait.rs:99-128 | the loop returns at the first input that ends the wait, with its reason; if none does, it is still waiting in the folded state |
| NetworkIdle.StateAt | src/wait.rs:96-128 | the loop's state after any prefix of the inputs records an idle timestamp only while the pending count is within the threshold |
| NetworkIdle.PendingIsUnfinished | src/wait.rs:105-111 | a request id is pending if and only if it was started and has not been finished or failed since its last start |
| NetworkIdle.UnfinishedRequestBlocksIdle0 | src/wait.rs:105-117 | under networkidle0, no tick ends the wait as idle while some started request has not finished |
| NetworkIdle.IdleSinceOrigin | src/wait.rs:117-125 | a recorded idle time is the time of an earlier tick; since that tick no request started and every tick saw the count within the threshold |
| NetworkIdle.IdleExitAfterQuietWindow | src/wait.rs:115-125 | an idle exit happens on a tick that comes at least 500 ms after an earlier tick, with a quiet window between them |
| NetworkIdle.ArmedThrough | src/wait.rs:117-122 | with ticks in clock order, from a tick that opens a quiet window on, an idle timestamp is recorded and it is no later than that tick |
| NetworkIdle.QuietWindowEndsWait | src/wait.rs:117-119 | with ticks in clock order, a tick at least 500 ms after a tick that opened a quiet window ends the wait as idle, so the wait ends there or earlier |
| NetworkIdle.IdleExitAfterLastStart | src/wait.rs:105-121 | every request start before an idle exit is followed by a tick at least 500 ms before the exit |
| NetworkIdle.LooserPolicyArmsFirst | src/wait.rs:117-125 | under a larger threshold the pending set is the same, and the idle timestamp is set no later than under a smaller one |
| NetworkIdle.Idle2EndsNoLaterThanIdle0 | src/wait.rs:39-46 | when networkidle0 ends as idle at some input, networkidle2 also ends, at that input or earlier |
| NetworkIdle.ClosingEndsWait | src/wait.rs:112 | a closed event stream ends the wait at that input if nothing ended it before |
| NetworkIdle.OneStuckRequest | src/wait.rs:117-125 | a request that never finishes, followed by 600 ms of ticks, ends networkidle2 at the sixth tick and never ends networkidle0 |
| NetworkIdle.WaitForFinishRendering | src/wait.rs:159-166 | the wait stops at the first binding call named finishRendering, and runs to the end of the stream when there is none |
| ChromePdf.FormatToInches | src/chrome.rs:44-59 | a name whose upper case is in the table gives that entry; any other name gives A4; either way the size is one of the table's entries |
| ChromePdf.DefaultFormatIsA4 | src/chrome.rs:54-57 | the default format name "A4" gives the A4 entry, 8.27 by 11.7 inches |
| ChromePdf.ToUpper | src/chrome.rs:45 | upper-casing keeps the length, leaves no ASCII lower-case letter, maps each one to its capital, and keeps every other character except the dotless i |
| ChromePdf.FormatIgnoresCase | src/chrome.rs:45 | a format name, its upper-case form and its lower-case form give the same size |
| ChromePdf.LedgerIsTurnedTabloid | src/chrome.rs:46-56 | LEDGER is TABLOID turned sideways, and it is the only entry wider than tall |
| ChromePdf.ASeriesHalves | src/chrome.rs:50-56 | each A size's long side is the previous A size's short side |
| ChromePdf.WithOptional | src/chrome.rs:135-143 | an optional field adds its key with its string value when set and leaves the map unchanged otherwise |
| ChromePdf.PaperDimensions | src/chrome.rs:145-153 | width and height when both are set, as strings; otherwise the format's size in inches, and A4 when no format is given |
| ChromePdf.BaseParams | src/chrome.rs:124-132 | the first map has exactly the seven keys set for every payload: printBackground, landscape, displayHeaderFooter and the four margins |
| ChromePdf.PrintParams | src/chrome.rs:120-153 | the parameters always have the nine fixed keys, plus pageRanges, headerTemplate and footerTemplate each exactly when its field is set |
| ChromePdf.BaseParamsKept | src/chrome.rs:124-153 | the optional fields and the paper size never overwrite a fixed key |
| ChromePdf.PrintParamsFlags | src/chrome.rs:121-127 | displayHeaderFooter is true exactly when a header or footer template is given; printBackground and landscape are copied |
| ChromePdf.PrintParamsMargins | src/chrome.rs:128-131 | each margin is the payload's value, or 0 when it is absent |
| ChromePdf.PrintParamsOptional | src/chrome.rs:135-143 | pageRanges, headerTemplate and footerTemplate carry the payload's strings |
| ChromePdf.PrintParamsPaper | src/chrome.rs:145-153 | the paper size is the explicit width and height only when both are given, else the format's (A4 by default) |
| ChromePdf.ParamsIgnoreUnusedFields | src/chrome.rs:120-153 | the parameters depend only on the print fields: the payload's url, html, title, author, media, its own displayHeaderFooter flag and its wait options change nothing |
| ChromePdf.NavigationTarget | src/chrome.rs:113-118 | a url is visited as given; otherwise html is visited as the base64 data URL of its text; with neither there is no navigation |
| ChromePdf.PrintCommand | src/chrome.rs:156-157 | the command is Page.printToPDF with the built parameters as its object |
| ChromePdf.PdfData | src/chrome.rs:162-164 | there is data exactly when the reply is an object whose `data` field is a string, and it is that string |
| ChromePdf.Process | src/chrome.rs:108-169 | a failed navigation stops the task before printing; otherwise Page.printToPDF is issued with the built parameters; a failed command, a reply without string data and undecodable data are errors; the result is the decoded data |
| ChromePdf.CdpCommand.Endpoint | src/chrome.rs:26-32 | the path is "session/", the session id, then "/goog/cdp/execute" |
| ChromePdf.CdpCommand.MethodAndBody | src/chrome.rs:34-37 | a POST whose body is an object holding exactly the command name and its parameters |
| ChromePdf.CdpCommand.IsNewSession | src/chrome.rs:39-41 | a CDP command never opens a new session |
| ChromePdf.EndpointNamesSession | src/chrome.rs:26-41 | different sessions get different endpoints, and a CDP command never opens a session |
| WorkerPool.Serve | src/worker.rs:92-98 | serving a run of packets in queue order never removes a result slot |
| WorkerPool.ServeFillsOpenSlots | src/worker.rs:92-98 | serving a run of packets fills the result slot of exactly the packets whose callers still wait, and leaves every other slot as it was |
| WorkerPool.Pool.constructor | src/worker.rs:49-56 | a new pool has all cap permits free, an empty queue, idle workers each with its own context, and no results |
| WorkerPool.Pool.LiveWithinCap | src/worker.rs:61-68 | packets admitted and not yet dropped plus free permits equal the capacity, so admitted work never exceeds it |
| WorkerPool.Pool.Submit | src/worker.rs:61-76 | with no permit free the submission times out; with no worker the send fails and the permit returns; otherwise the packet, with the next id, joins the tail of the queue holding one permit |
| WorkerPool.Pool.Receive | src/worker.rs:92-95 | a worker takes the oldest queued packet; one whose caller has gone is dropped and frees its permit, any other becomes the worker's current packet |
| WorkerPool.Pool.Finish | src/worker.rs:96-97 | the packet is processed exactly once, with the worker's own context; the result reaches the caller unless it has gone; the permit is freed |
| WorkerPool.Pool.Abandon | src/worker.rs:77-80 | a caller of an already issued id that times out closes its receiver, unless its result has already arrived |
| WorkerPool.Pool.Collect | src/worker.rs:77 | the caller reads and consumes its result slot |
| WorkerPool.Pool.RunWorker | src/worker.rs:84-98 | a worker alone on the queue serves every packet in FIFO order, as the reference semantics does; it frees one permit per packet and leaves other workers' contexts, the closed receivers and the id counter alone |
| Supervisor.Start | src/driver.rs:90 | the first launch leaves the loop live, holding the process, or no process when the launch failed |
| Supervisor.Enabled | src/driver.rs:93-109 | an ended loop is woken by nothing; a live one can always be woken by the interrupt branch; a process exit needs a held process and the back-off needs none |
| Supervisor.Step | src/driver.rs:92-111 | only the interrupt ends the loop, and it stops the held process; a process exit or an elapsed back-off relaunches, and the loop holds the new process or none; an exited handle is let go of only after the relaunch |
| Supervisor.ExitResultIgnored | src/driver.rs:102-110 | whether waiting on the process succeeded or failed, the loop relaunches the same way |
| Supervisor.StoppedIsFinal | src/driver.rs:94-98 | once ended, a loop stays ended and does nothing more |
| Supervisor.InterruptEndsLoop | src/driver.rs:92-112 | after an interrupt the loop has ended, and no later event launches or stops anything |
| Supervisor.RunEvents | src/driver.rs:92-112 | a live loop fed any events ends only if an interrupt arrived; exits and failed launches never end it |
| Supervisor.HandlesOutTracksHolding | src/driver.rs:90-110 | over any run, handles acquired from launches minus handles let go after an exit or a stop equals the change in handles held |
| Supervisor.AtMostOneHandle | src/driver.rs:89-113 | after any sequence of events, the handles a loop acquired and has not let go of are exactly the one it holds or none; there are none once it has ended |
| Supervisor.ControlLoop.constructor | src/driver.rs:87-90 | a new loop is in the state of the first launch |
| Supervisor.ControlLoop.Handle | src/driver.rs:93-111 | one iteration moves the loop's handle and running flag as the one-step semantics says and performs its effects |
| Supervisor.ControlLoop.Interrupted | src/driver.rs:94-98 | the interrupt reaching a loop ends it, and it hands back the process it was holding, or nothing when it held none or had already ended |
| Supervisor.Supervise | src/driver.rs:89-113 | the loop run to its end gives the final state and the effects of the folded semantics |
| Supervisor.Supervisor.constructor | src/driver.rs:74-80 | a new supervisor has no loops |
| Supervisor.Supervisor.Run | src/driver.rs:82-118 | a new loop is started from its first launch and its handle is appended to the list |
| Supervisor.Supervisor.Stop | src/driver.rs:120-125 | every loop in the list is interrupted and has ended; each held process is stopped, in list order; the list is emptied |

## Left out

- Timing and fairness of `tokio::select!` and of the listener tasks are not modelled. Inputs
  arrive in one sequence whose order the environment picks, and tick times are its
  parameters. The model does not promise that a tick eventually arrives while events keep
  coming.
- The Chrome DevTools calls that enable network tracking, disable the cache or wait for
  DOMContentLoaded, and the abort of the listener tasks, are I/O.
- Exposing the `finishRendering` binding and the injected `prerender-trigger` script are
  browser-side. The wait sees the sequence of binding calls.
- ChromePdf.ToUpper follows Rust's `to_uppercase` only on ASCII letters and on the dotless
  `ı`, which upper-cases to `I`. These are the only characters whose upper case can be a
  table key. Other characters are kept as they are: the lookup treats them the same,
  because they cannot produce a key.
- Floating-point numbers are exact reals. Paper sizes are whole hundredths of an inch, so
  8.27 is 827/100.
- JSON serialisation of the request body and `Url::join` against the WebDriver base URL are
  not modelled. The endpoint is the relative path.
- Base64 encoding and decoding are function parameters. Whether navigation and the CDP call
  succeed, and the reply itself, are parameters of `ChromePdf.Process`.
- The error messages attached with `wrap_err` are collapsed into the `PdfError` cases.
- ChromePdf.CdpCommand.Endpoint requires a session id. The source unwraps it and would panic
  without one.
- There is no rebuild-and-retry around a failed task. The worker calls `process` once
  (src/worker.rs:96), and so does `Finish`.
- The WebDriver session set-up in `ChromeDriver::new` is not modelled. This covers the fixed
  capabilities, the localhost:4444 address, and the pool of 30 permits and 10 workers.
- src/main.rs is not part of this model. Its HTTP server is commented out, and its live
  `main` is a demonstration client that starts and stops one supervised chromedriver.
- WorkerPool.Pool.Submit does not wait for a permit. An admission with no free permit is
  the timeout firing before the semaphore yields one. Time is not modelled, so neither is a
  permit freed while the caller waits.
- The deadline while waiting for the result is `Abandon`. The permit-holding packet of an
  abandoned caller is then skipped or its result discarded.
- A worker ends its loop when the queue channel is closed and empty
  (src/worker.rs:92). That happens once the pool's sender is dropped with the pool. The
  model has no closed queue: an empty queue means the workers keep waiting, and
  `RunWorker` returns idle.
- A caller whose packet is dropped without a result gets "Worker dropped"
  (src/worker.rs:77). That happens only when a worker dies while holding or queueing its
  packet. Workers never die in the model, so that error path is not modelled.
- Supervisor.AtMostOneHandle counts process handles, not OS processes. The source ignores
  a failed `stop` (src/driver.rs:96), and after a failed `wait` it drops the handle and
  relaunches (src/driver.rs:102-110). Either way the old process may keep running, and
  the model does not promise otherwise.
- WorkerPool.Pool.constructor assumes every worker builds its context. The source unwraps
  `make_ctx()`, so a worker whose context fails panics and never reads the queue.
- Workers interleave arbitrarily through `Receive`/`Finish`. `RunWorker` states the loop for
  one worker that has the queue to itself.
- Async processing, `Send`/`Sync` bounds and the `Arc` sharing are not modelled. A task is a
  function from the task and the context to the result and the new context.
- Launching, waiting on and killing a process are OS calls. Their outcomes arrive as
  events, and a failed kill is ignored as in the source.
- A broadcast receive that fails disables the interrupt branch for the rest of that
  `select!`. The loop then wakes only on a process exit or the back-off. The model's
  `SignalLost` changes nothing and lets any event follow, an interrupt included. This
  allows more runs than the source and is sound for the properties proved.
- The `Mutex` around the handle list and `join_all` are not modelled. `Stop` interrupts and
  ends each loop in turn.
