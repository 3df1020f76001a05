# Live-reload server: broker, reload frame, HTML rewrite, command line

A Dafny model of the sequential logic of a small live-reload development
server written in Go. The server serves a directory over HTTP, keeps the
browsers that opened its event stream (`/sse`) in a registry, and sends them
all a reload event whenever `/sse/reload` is requested. The source also
defines an HTML-rewriting middleware that would insert a script opening the
event stream and reloading the page on any message, but `main` registers the
bare file server for "/" (serve.go:124-125, server.go:78-79) and never
installs the middleware, so the program as written rewrites no page.

- `registry.dfy`, module `Registry`: the broker (`serve.go:14-78`; `server.go:10-74`
  is the same code). `Writer` is a subscriber's response writer: what has
  been written to the client's stream, whether it can flush, whether writes to it fail, and
  how many flushes it saw. `Broker` holds `connections: map<string, Writer>`
  keyed by the client's remote address, with `Register`, `Remove`, the subscribe
  handler split at its wait into `Subscribe` and `Cancel`, and `SendReload`, the
  broadcast loop. `handleReloadReq` only calls `sendReload`, so `SendReload` stands for both.
  The map functions `Registered`, `Removed` and `Survivors` give each operation's
  new registry. The lemmas state what holds across several calls. The frame
  `data: reload\n\n` is checked against an event-stream interpreter: each frame
  is one unnamed "message" event with data "reload", and n frames are n
  separate events.
- `event_stream.dfy`, module `EventStream`: how a browser's EventSource reads an
  event stream. This follows section 9.2.6 of the WHATWG HTML Living Standard
  ("Interpreting an event stream"). It gives the reload frame its meaning.
- `html_inject.dfy`, module `HtmlInject`: the middleware's rewrite (`serve.go:89-111`), as a function of
  the buffered response; it is defined in the source but not installed.
- `text.dfy`, module `Text`: the first-occurrence search and the single
  replacement that Go's `strings.Index` and `strings.Replace(s, old, new, 1)` perform.
- `cli.dfy`, module `Cli`: the directory and port defaults of `main` (`serve.go:114-121`).

## Model

| member | source | states |
|---|---|---|
| `Registry.Broker.constructor` | serve.go:127 | the broker starts with an empty registry |
| `Registry.Writer.Write` | serve.go:65 | a write appends the data to the stream exactly when the writer is not broken, and reports whether it succeeded |
| `Registry.Writer.Flush` | serve.go:71 | a flush leaves the output as it is and counts one flush |
| `Registry.Registered` | server.go:30-34 | after registering, the key maps to the new writer and every other key is as before |
| `Registry.Removed` | server.go:47-51 | after removing, the key is absent and every other entry is as before |
| `Registry.Broker.Register` | serve.go:33-39 | the key now maps to the new writer, overwriting any earlier entry, and every other entry is unchanged; no writer is under two keys and every registered writer can flush |
| `Registry.Broker.Remove` | serve.go:51-55 | the key is absent afterwards and every other entry is unchanged; an absent key leaves the registry as it was |
| `Registry.Broker.Subscribe` | serve.go:25-39 | a writer that cannot flush is refused with 500 "streaming unsupported" and the registry is unchanged; otherwise the writer is registered under the client's key |
| `Registry.Broker.Cancel` | serve.go:46-48 | when the request ends, the client's key is removed from the registry |
| `Registry.Broker.SendReload` | serve.go:57-78 | every connection registered at the start is written once. Those whose write succeeds receive exactly `data: reload\n\n` and are flushed once. Those whose write fails receive nothing, are not flushed and are removed. The new registry is the old one minus exactly the failed keys |
| `Registry.Survivors` | serve.go:64-69 | a key stays after a broadcast if and only if its write did not fail, and keeps its writer |
| `Registry.RemoveIdempotent` | server.go:47-51 | removing a key twice equals removing it once; removing an absent key changes nothing |
| `Registry.CancelUndoesSubscribe` | server.go:29-44 | subscribe then cancel leaves the key absent and the other entries as before, even when a later subscriber with the same key overwrote the entry |
| `Registry.SurvivorCount` | server.go:59-68 | after a broadcast the registry size is the old size minus the number of failed writes |
| `Registry.SurvivorsStable` | server.go:59-68 | a writer whose write succeeded stays registered through the next broadcast while its client stays connected: applying the broadcast's outcome twice removes nothing more |
| `Registry.ReloadFrameIsOneEvent` | serve.go:62-63 | a client reads one reload frame as exactly one unnamed event, type "message" and data "reload" |
| `Registry.ReloadsAreSeparateEvents` | server.go:58-67 | n reload frames in a row are read as n separate "message" events, none merged with another |
| `Text.FindFirst` | serve.go:101 | returns the index of the first occurrence of the pattern, or None exactly when there is no occurrence |
| `Text.ReplaceFirst` | serve.go:101 | only the first occurrence is replaced, and a text without an occurrence is returned unchanged |
| `HtmlInject.Rewrite` | serve.go:98-108 | non-HTML content passes through byte for byte, with no Content-Length set. For HTML, the script is inserted before the first `</head>`, a page without `</head>` is unchanged, and the Content-Length set equals the output length |
| `HtmlInject.GrowsByScript` | serve.go:101-104 | an HTML page that has a `</head>` grows by exactly the script's length, and that is the Content-Length set |
| `HtmlInject.ScriptIsTheOnlyChange` | serve.go:101 | the text before the first `</head>` and everything from it on are kept, so cutting the script out of the output gives back the buffered page |
| `HtmlInject.LaterHeadsKept` | serve.go:101 | every later `</head>` is still in the output, shifted by the script's length |
| `Cli.Configure` | serve.go:114-121 | dir defaults to "." and port to "3000"; each is replaced only when its positional argument is present |
| `Cli.TrailingArgumentsIgnored` | serve.go:116-121 | arguments after the port change nothing |

## Left out

- Locking and concurrency: the `sync.RWMutex`, one goroutine per request, and the blocking wait on `req.Context().Done()`. Every operation is one sequential step, and the subscribe handler is split at its wait into `Subscribe` and `Cancel`.
- Registry.Broker.SendReload: `sendReload` calls `removeConnection` while it still holds the read lock (serve.go:59-67, server.go:55-63). A Go `RWMutex` cannot take the write lock while a read lock is held, so the first failed write would block the broker forever. The `continue` after `removeConnection` (serve.go:68) and the comment "sends the reload event to all subscribed connections" (serve.go:57) show the intent: drop the failed connection and go on with the others. The model gives that outcome.
- Registry.Broker.SendReload: deleting from a Go map while ranging over it is modelled as a visit of a snapshot of the keys, in an arbitrary order.
- Registry.Broker.Subscribe: it requires that the writer is not registered yet. Each HTTP request has its own response writer, so the source never registers one writer twice.
- Registry.SurvivorsStable: it holds because a writer's failure is fixed for its lifetime. In the program a client that leaves after one broadcast, before its `Cancel` runs, fails the next write (serve.go:65) and is removed then (serve.go:67); the model does not capture a writer that starts failing between broadcasts.
- Registry.Writer.Write: written data is recorded at write time; the buffering in the response writer until `Flush` (serve.go:71) is not modelled, only the flush count. A failing write delivers nothing. A Go writer may deliver part of the data before it fails. Whether a writer fails is fixed for its lifetime.
- Response headers of the event stream (serve.go:41-44), the body that `http.Error` writes, the file server, route registration, `ListenAndServe` and the printing in `main`: HTTP and I/O plumbing.
- HtmlInject.Rewrite: the model covers the rewrite the middleware performs, not how it is wired in. `modifyHTMLMiddleware` (serve.go:89) is never called: `main` hands the bare `http.FileServer` to `http.Handle` (serve.go:124-125), so no served page gets the script.
- HtmlInject.Rewrite: the Content-Length is modelled as the number the middleware sets, not its decimal text. The model does not decide whether the header still takes effect. The wrapped file server writes its status line through the embedded real writer, so the headers may already be sent when Content-Length is set.
- Strings are sequences of characters, and each character stands for one byte of the Go string.
- EventStream: the byte order mark, UTF-8 decoding and the `id` and `retry` fields are not modelled. `id` and `retry` are ignored, like unknown fields.
