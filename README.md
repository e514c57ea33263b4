# tcpcmd dispatch engine in Dafny

This project models the command-dispatch engine of `tcpcmd` in Dafny. A TCP
client sends commands as text. The server does no line framing: whatever one
`recv(512)` returns is stripped and split into one argument list, so two
lines arriving in one read become a single argument list, and a line longer
than 512 bytes becomes two commands. The model's `Event.Data(raw)` is one
such read, with the same consequences. The server looks up `args[0]` in a
registry of commands. Each command
has up to three parts:

- an *immediate* handler (`func_i`), which runs on the connection's thread;
- a *queued* handler (`func_q`), which a single worker thread runs in FIFO
  order from a shared command queue;
- a help text.

Every reply the server sends is a JSON record `{"rc": …, "msg": …}`
followed by CRLF and the end-of-transmission byte. Not every read gets a
reply: one that strips to nothing or to a single EOT byte closes the
connection silently, and so does a command whose immediate handler raises.

The model is split into these files:

- `Types.dfy`: the status codes, the JSON-able message values, registry
  entries, queue entries and the constants. It also holds `Lib`, the library
  calls the engine delegates to: `float()`, UTF-8 decoding, the escaping
  `json.dumps` applies to one string, and `time.sleep`, which may refuse a
  duration.
- `Wire.dfy`: `bytes.strip()`, `str.split()` and the serialisation in
  `send_reply`. It includes the framing a client reads back.
- `Commands.dfy`: the registry as an insertion-ordered dictionary, the
  built-in handlers (`help`, `sleep`, `exit`, `shutdown9999`), and class
  `Cmd` with `add_cmd` and `stop_main`.
- `Server.dfy`: class `CmdServer` (its `_active` flag) and class
  `CmdServerApp`. `CmdServerApp` holds the shared queue, one iteration of
  the worker, and the shutdown drain. It also keeps two ghost logs, of
  entries submitted and entries consumed. The invariant
  `submitted == consumed + cmdq` is the FIFO, take-each-entry-once
  guarantee.
- `Connection.dfy`: one iteration of `handle()`'s loop as a pure function
  `HandleStep`, and `Run`, the loop over a series of reads. Class
  `CmdServerHandler` has methods `Handle`, `Iterate` and `Serve`. Each
  method is proved to change the connection's fields, the bytes written
  and the shared queue exactly as `HandleStep` or `Run` says.
- `Findings.dfy`: `add_cmd` as written, which keys the help text with an
  undefined attribute, next to the corrected registration.

Some conditions in the engine are exceptions in the source. Each one is
modelled explicitly:

- A handler that raises gives `Outcome.Raised`. `handle()` does not catch
  it, so the connection ends with `Next.Raise`.
- In the worker, a raising handler kills the thread: `WorkerOut.Crashed`.
- The local `msg` of `handle()` keeps its value from one iteration to the
  next. It is unbound before the first assignment, so reading it then
  raises UnboundLocalError. This is `Conn.msg == None`.

## Behaviour worth noting

- Registering an existing name overwrites it silently. No error is raised.
- A UTF-8 decoding error replies NG and *closes* the connection.
- `strip()` removes ASCII whitespace only. So an input of two EOT bytes is
  not a close request: it is looked up as a command name.
- Exceptions raised by handlers are not caught.
- `sleep -1` (or `sleep nan`, `sleep inf`, and `shutdown9999` with such a
  duration) passes the immediate handler's check, but `time.sleep` then
  raises in the worker. The worker thread dies without posting, so a client
  waiting on its channel is never answered.

## Model

| member | source | states |
|---|---|---|
| Types.RcNamesDistinct | ytani_tcpcmd/tcpcmd.py:81-85 | the five status codes are written under five distinct names, so the code is recoverable from the wire |
| Types.NatToStringValue | ytani_tcpcmd/tcpcmd.py:440-441 | the decimal rendering of the queue size denotes exactly that number and has no leading zero |
| Wire.Strip | ytani_tcpcmd/tcpcmd.py:354 | the trimmed input is a contiguous slice of the read bytes; everything cut off on either side is ASCII whitespace and the result neither starts nor ends with it |
| Wire.StripEmptyIff | ytani_tcpcmd/tcpcmd.py:354 | the trimmed input is empty exactly when every byte read is ASCII whitespace; input without whitespace at its ends is left as it is |
| Wire.StripKeepsEot | ytani_tcpcmd/tcpcmd.py:354 | a single EOT byte and a doubled one survive strip() unchanged |
| Wire.StripPaddedEot | ytani_tcpcmd/tcpcmd.py:354 | an EOT surrounded by space and CRLF trims to the single EOT byte |
| Wire.SplitTokens | ytani_tcpcmd/tcpcmd.py:389 | every argument split() yields is non-empty and free of whitespace |
| Wire.SplitEmptyIff | ytani_tcpcmd/tcpcmd.py:389-391 | the argument list is empty exactly when every character of the line is whitespace |
| Wire.SplitJoin | ytani_tcpcmd/tcpcmd.py:389 | splitting arguments joined by single spaces gives back exactly those arguments, in order |
| Wire.DumpsNoBreak | ytani_tcpcmd/tcpcmd.py:336 | when the string escaper never emits CR, LF or EOT, the serialised record contains none either |
| Wire.ReplyFrameRoundTrip | ytani_tcpcmd/tcpcmd.py:329-341 | a reader that splits at the first CRLF recovers exactly the JSON of `{'rc': rc}` (msg None) or `{'rc': rc, 'msg': msg}`, and sees the EOT byte after the CRLF exactly when `cont` is false |
| Commands.Add | ytani_tcpcmd/tcpcmd.py:144-152 | after registering, the name maps to exactly the new entry; every other name keeps its presence and its entry; a new name goes last in iteration order, an existing one keeps its place |
| Commands.AddKeepsValid | ytani_tcpcmd/tcpcmd.py:144-152 | registration keeps the iteration order duplicate-free and listing exactly the registered names |
| Commands.AddThenLookup | ytani_tcpcmd/tcpcmd.py:144-152 | lookup after add yields the registered entry, other entries and the positions of all earlier names are unchanged, and the order grows by one exactly for a new name |
| Commands.ReAddReplaces | ytani_tcpcmd/tcpcmd.py:148-152 | registering a name twice leaves one entry, the second, at the position the first was given, with no error |
| Commands.HelpPairs | ytani_tcpcmd/tcpcmd.py:170-173 | the listing holds one `[name, help]` pair per name, in the given order |
| Commands.CmdIHelp | ytani_tcpcmd/tcpcmd.py:154-176 | with two or more arguments: OK and the help of args[1] when it is registered, else NG "<args[1]>: no such command"; with one argument: OK and one `[name, help]` pair per registered command in registration order |
| Commands.HelpListsEachCommandOnce | ytani_tcpcmd/tcpcmd.py:170-176 | a name appears in the help listing if and only if it is registered, and no name appears twice |
| Commands.CmdISleep | ytani_tcpcmd/tcpcmd.py:178-196 | CONTINUE exactly when args[1] exists and parses as a float; otherwise NG, naming the IndexError when args[1] is missing |
| Commands.CmdQSleep | ytani_tcpcmd/tcpcmd.py:198-215 | returns OK exactly when args[1] exists, parses as a float and `time.sleep` accepts that duration; otherwise it raises, with the sleep's own exception when the duration is refused |
| Commands.CmdIExit | ytani_tcpcmd/tcpcmd.py:217-222 | status OK, a final status that is neither CONTINUE nor ACCEPT, with no message |
| Commands.CmdIShutdown | ytani_tcpcmd/tcpcmd.py:224-247 | ACCEPT exactly when there is no argument or the argument parses as a float, otherwise NG; with no argument the message is "sleep_sec=0" |
| Commands.CmdQShutdown | ytani_tcpcmd/tcpcmd.py:249-274 | returns OK exactly when there is no argument, or it parses as a float that `time.sleep` accepts; otherwise it raises, with the sleep's own exception when the duration is refused |
| Commands.Builtins | ytani_tcpcmd/tcpcmd.py:104-109 | the registry `__init__` builds is well formed |
| Commands.BuiltinsShape | ytani_tcpcmd/tcpcmd.py:104-109 | it lists sleep, help, exit, shutdown9999 in that order, with the handlers and help texts `__init__` gives them |
| Commands.BuiltinsHelp | ytani_tcpcmd/tcpcmd.py:104-109 | `help` on a fresh server lists the four built-in commands with their help texts, in registration order |
| Commands.BuiltinsDeferOnlyToQueued | ytani_tcpcmd/tcpcmd.py:178-274 | a built-in immediate handler answers CONTINUE or ACCEPT only for a command that has a queued handler; that queued handler then returns OK, unless `time.sleep` refuses the duration, in which case it raises exactly the sleep's exception |
| Commands.Cmd.constructor | ytani_tcpcmd/tcpcmd.py:91-110 | the port defaults to 59001 when None is given, `_active` is set and the registry is the four built-in commands |
| Commands.Cmd.AddCmd | ytani_tcpcmd/tcpcmd.py:144-152 | the registry becomes Add of the old registry; port and flag unchanged |
| Commands.Cmd.StopMain | ytani_tcpcmd/tcpcmd.py:133-142 | clears `_active` and changes nothing else |
| Server.ResolveQueued | ytani_tcpcmd/tcpcmd.py:555-572 | NG "<name>: no such command .. ignored" for an unregistered name, NG "<name>: no such func_q .. ignored" when the queued handler is None; otherwise exactly the queued handler's outcome, so it raises only through a registered queued handler |
| Server.WorkerStepSpec | ytani_tcpcmd/tcpcmd.py:550-588 | the result is posted to the entry's channel if and only if it has one, and it is the resolved result; the worker leaves its loop exactly after `shutdown9999`; it dies exactly when the handler raises |
| Server.DrainPostsInOrder | ytani_tcpcmd/tcpcmd.py:598-604 | the drain's i-th post goes to the i-th pending reply channel in queue order and carries (NG, "terminated") |
| Server.DrainDeliversOncePerEntry | ytani_tcpcmd/tcpcmd.py:598-604 | each channel receives exactly as many posts as there are queued entries carrying it |
| Server.CmdServer.constructor | ytani_tcpcmd/tcpcmd.py:486-492 | the server is active once bound |
| Server.CmdServer.End | ytani_tcpcmd/tcpcmd.py:519-523 | clears `_active` |
| Server.CmdServerApp.constructor | ytani_tcpcmd/tcpcmd.py:529-543 | an empty queue and empty logs, a fresh Cmd with the built-in registry and the given or default port, and an active server |
| Server.CmdServerApp.Submit | ytani_tcpcmd/tcpcmd.py:446-447 | the non-blocking put on the unbounded queue appends the entry at the tail and logs it as submitted; the FIFO invariant is kept |
| Server.CmdServerApp.CmdWorkerStep | ytani_tcpcmd/tcpcmd.py:545-588 | with an empty queue nothing happens; otherwise exactly the head entry is removed and logged as consumed, the outcome is WorkerStepSpec of it, the worker stays alive unless it crashed or ran the shutdown command, and `Cmd._active` is cleared exactly after the shutdown command; the FIFO invariant is kept |
| Server.CmdServerApp.End | ytani_tcpcmd/tcpcmd.py:598-607 | the queue ends empty, every drained entry is logged as consumed in order, the posts are DrainPosts of the old queue, and the server is no longer active |
| Connection.QueueStage | ytani_tcpcmd/tcpcmd.py:423-458 | the queued stage never changes the flag or the channel, and the only entry it can append is (args, current channel) |
| Connection.QueueShape | ytani_tcpcmd/tcpcmd.py:423-462 | the queued stage waits only when the connection has a channel, after appending the entry that carries it and before any reply; when the loop goes on it has replied |
| Connection.EmptyOrEotCloses | ytani_tcpcmd/tcpcmd.py:354-375 | every read that strips to nothing or to the single EOT byte (so also an EOT padded with whitespace) closes the connection with no reply, nothing queued and the state unchanged |
| Connection.NoTokensCloses | ytani_tcpcmd/tcpcmd.py:388-395 | a line of whitespace only (as split() sees it) gets NG "no command" and closes, with nothing queued |
| Connection.UnknownCommandContinues | ytani_tcpcmd/tcpcmd.py:388-402 | for any decoded line whose first token is unregistered: NG "<name>: no such command .. ignored", `msg` becomes that text, nothing is queued, and the connection stays open with its flag and channel unchanged |
| Connection.UnknownToken | ytani_tcpcmd/tcpcmd.py:397-402 | a single unregistered token read from the socket gets exactly that NG reply and the loop continues |
| Connection.DoubledEotIsACommand | ytani_tcpcmd/tcpcmd.py:373-402 | two EOT bytes are not a close request: they are looked up as a command name, answered NG, and the connection stays open |
| Connection.EotNotBuiltin | ytani_tcpcmd/tcpcmd.py:104-109 | no built-in command is named by two EOT characters |
| Connection.ImmediateFinalReply | ytani_tcpcmd/tcpcmd.py:404-418 | a status other than CONTINUE or ACCEPT from the immediate handler is replied exactly, nothing is queued, the channel is kept, and only `exit` clears the active flag |
| Connection.ExitCloses | ytani_tcpcmd/tcpcmd.py:412-418 | `exit` replies OK with no message, queues nothing, and the loop ends after the reply |
| Connection.NoQueuedHandlerRepliesOk | ytani_tcpcmd/tcpcmd.py:423-431 | without a queued handler nothing is queued; a deferring immediate handler's message is replied with OK, or the "func_q is None .. ignored" text when that message is None |
| Connection.Backpressure | ytani_tcpcmd/tcpcmd.py:437-452 | above 100 queued entries the submission is refused with NG "qsize=N: server busy" and nothing is appended; at 100 or fewer (args, channel) is appended |
| Connection.ChannelOnlyDropped | ytani_tcpcmd/tcpcmd.py:420-421 | a step keeps `_myq` or sets it to None, never restores it, and without a channel it never waits |
| Connection.WaitOnlyAfterSubmit | ytani_tcpcmd/tcpcmd.py:454-462 | a step waits only after queueing exactly one entry that carries the connection's channel, with no reply yet; a command line that lets the loop go on has sent exactly one reply |
| Connection.AcceptRepliesAtOnce | ytani_tcpcmd/tcpcmd.py:420-458 | an ACCEPT with a queued handler and room in the queue drops `_myq`, queues (args, None), replies OK with the immediate message at once and goes on |
| Connection.ContinueWaits | ytani_tcpcmd/tcpcmd.py:437-462 | a CONTINUE with a queued handler, room in the queue and a channel queues (args, `_myq`) and blocks on `_myq` without replying |
| Connection.RefusedSleepStrandsClient | ytani_tcpcmd/tcpcmd.py:188-213 | `sleep` with a duration `time.sleep` refuses is queued with the channel and the connection blocks, while the worker dies on that entry with the sleep's exception and posts nothing |
| Connection.TimeoutsWhileActive | ytani_tcpcmd/tcpcmd.py:354-361 | while the server is active, a run of receive timeouts uses every read, replies nothing, queues nothing and leaves the connection as it was |
| Connection.TimeoutAfterShutdown | ytani_tcpcmd/tcpcmd.py:354-364 | once the server is inactive, the first receive timeout writes the single frame NG "server is dead !" and ends the loop |
| Connection.SleepAfterAcceptDoesNotWait | ytani_tcpcmd/tcpcmd.py:420-458 | once an ACCEPT has cleared `_myq`, a later `sleep` is queued without a channel and OK with the immediate message is replied at once |
| Connection.RunStopsOnlyWhenDone | ytani_tcpcmd/tcpcmd.py:346-469 | the loop consumes reads until it stops: all of them with the connection still active, or fewer only when it ended, raised or waits on `_myq`; it reads nothing exactly when inactive or given no reads |
| Connection.ContinueStopsOnlyWhenDone | ytani_tcpcmd/tcpcmd.py:346-469 | the same, for the rest of the loop after one iteration's result |
| Connection.RunFramesComplete | ytani_tcpcmd/tcpcmd.py:336-341 | every frame the loop writes parses back as one complete reply ending with EOT, when the string escaper emits no line break or EOT |
| Connection.CmdServerHandler.constructor | ytani_tcpcmd/tcpcmd.py:285-306 | a new connection is active, its reply channel is the id the caller supplies, it has no `msg` yet, and it is not waiting |
| Connection.CmdServerHandler.Finish | ytani_tcpcmd/tcpcmd.py:308-311 | clears `_active`, nothing else |
| Connection.CmdServerHandler.RunQueueStage | ytani_tcpcmd/tcpcmd.py:423-458 | the new fields, the bytes written, the loop decision and the queue growth are exactly QueueStage's; the FIFO invariant is kept |
| Connection.CmdServerHandler.RunImmediate | ytani_tcpcmd/tcpcmd.py:404-458 | the same against ImmediateStage, for a registered command |
| Connection.CmdServerHandler.RunLine | ytani_tcpcmd/tcpcmd.py:373-458 | the same against LineStep, for one trimmed line |
| Connection.CmdServerHandler.Handle | ytani_tcpcmd/tcpcmd.py:346-458 | one loop iteration on the object does exactly what HandleStep describes, and the object is waiting exactly when the step ends in the wait on `_myq` |
| Connection.CmdServerHandler.Iterate | ytani_tcpcmd/tcpcmd.py:346-469 | the loop run over the remaining reads is the continuation of this iteration's result, which is the object's new state |
| Connection.CmdServerHandler.Serve | ytani_tcpcmd/tcpcmd.py:346-469 | the `while self._active` loop over a series of reads leaves the fields, the frames written, the reads used, the stop reason and the queue growth exactly as Run says |
| Connection.CmdServerHandler.Deliver | ytani_tcpcmd/tcpcmd.py:462-469 | the posted result becomes `msg` and is written as a final frame, and the wait ends |
| Findings.AddCmdAsWritten | ytani_tcpcmd/tcpcmd.py:144-152 | as written, `add_cmd` raises exactly when no class defines HELP_STR, and otherwise stores the help text under HELP_STR's value |
| Findings.HelpOf | ytani_tcpcmd/tcpcmd.py:162 | reading `['help']` succeeds exactly when the text was stored under 'help' |
| Findings.InitAsWrittenRaises | ytani_tcpcmd/tcpcmd.py:104 | as written, the first registration in `Cmd.__init__` raises AttributeError |
| Findings.HelpKeyMismatch | ytani_tcpcmd/tcpcmd.py:151 | with HELP_STR bound to anything but 'help', every added command's help lookup fails |
| Findings.HelpAfterAdd | ytani_tcpcmd/tcpcmd.py:160-163 | corrected: `help <name>` right after registering `name` returns OK and exactly the registered help text |
| Findings.HelpListAfterAdd | ytani_tcpcmd/tcpcmd.py:170-173 | corrected: after adding a new name, the listing keeps every earlier pair and ends with the new command's pair |

## Left out

- Sockets and I/O are left out: `recv`, `wfile.write` and `net_write`. A read is an `Event`, holding whatever one `recv(512)` returned, and a frame is the string written. Exceptions inside `net_write` are logged and swallowed in the source, so they do not change the model.
- Threads and timing are left out. The connection step, the worker step and the drain are atomic steps that the caller interleaves. Thread start-up in `CmdServerApp.__init__` and `main`, `Cmd.main`'s polling loop and every `time.sleep` are not modelled.
- `time.sleep` itself is a `Lib` parameter: which durations it refuses, and with which exception, is not computed from the float; the time it takes is not modelled.
- Reply channels are ids. The source creates a fresh `SimpleQueue` per connection (ytani_tcpcmd/tcpcmd.py:293); the model assumes the caller gives each `CmdServerHandler` a distinct `chan`. Server.DrainDeliversOncePerEntry counts posts per id, so it is a per-connection count only under that assumption.
- The bind retry loop in `CmdServer.__init__` is OS I/O. The model starts from a bound server.
- `set_timeout` is left out: it calls the debug flag and nothing uses it.
- The command-line interface and logging are left out.
- `Cmd.start` and `Cmd.end` only log or set the flag. `Cmd.main` is the polling loop above. `CmdServer.serve_forever` and `service_actions` only delegate.
- `float()`, UTF-8 decoding and the escaping of one string by `json.dumps` are library calls. They are parameters in `Lib`. The exceptions they raise are rendered as text.
- JSON numbers and booleans are left out. No built-in handler returns them, and a handler a subclass registers is an arbitrary function.
- The error branch of the queue `put` is left out. `_cmdq` is an unbounded `queue.Queue`, so a non-blocking put never raises.
- Connection.CmdServerHandler.Serve stops at the wait on `_myq`. The result arrives later, from the worker or the drain, and `Deliver` relays it. Resuming the loop after `Deliver` is another call to `Serve`.
- The worker's `while loop` is left out as a loop. `CmdWorkerStep` is one iteration and the caller repeats it.
- `ytani_tcpcmd/__main__.py`, `client.py`, `server.py` and `__init__.py` are not part of this model.

## Findings

| source | as written | input that shows it | evidently intended | confidence | as-written member | corrected member |
|---|---|---|---|---|---|---|
| ytani_tcpcmd/tcpcmd.py:151 | `add_cmd` keys the help text with `self.HELP_STR`, which no class defines, while `cmd_i_help` reads the key 'help' (lines 162 and 173) | constructing any `Cmd`: the first `add_cmd('sleep', …)` in `__init__` raises AttributeError | the help text is stored under the key 'help' | high (not executed) | Findings.InitAsWrittenRaises | Findings.HelpAfterAdd |
