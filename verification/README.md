# zundamon-notify, modelled in Dafny

zundamon-notify shows a desktop mascot window per coding-agent session. The
agent's hook scripts send newline-delimited JSON messages over a Unix socket.
The application answers them: permission requests get a response line, and
notifications, stops and dismissals only change what the mascot's speech
bubble shows. A separate Python hook can approve a tool call on its own,
from the one-word verdict of an external judge.

This project models the sequential logic of that system as pure functions
over immutable data. Each transition returns the new state together with a
log of its effects. Writing to or ending a connection, notifying the UI and
firing a callback all appear in that log, in the order the program performs
them.

| file | module | what it models |
|---|---|---|
| `options.dfy` | `Options` | the `Option` type |
| `text.dfy` | `Text` | JavaScript `trim` and Python `strip`, newline splitting and joining, prefixes, decimal digits |
| `js_values.dfy` | `JsValues` | decoded JSON values and JavaScript truthiness |
| `protocol.dfy` | `Protocol` | the line protocol: message parsing, message types, response serialization (`src/protocol.js`) |
| `broker.dfy` | `Broker` | the pending-request table and the message, close, response and stop transitions (`src/socket-server.js`) |
| `framer.dfy` | `Framer` | the per-connection newline framer: the data and end handlers (`src/socket-server.js`) |
| `layout.dfy` | `Layout` | themes, window placement, the expand/compact arithmetic, the context menu (`main.js`) |
| `arbitration.dfy` | `Arbitration` | the permission FIFO, the active session, shortcut routing, window creation, the idle-session sweep (`main.js`) |
| `renderer.dfy` | `Renderer` | the per-window permission queue, the responses it sends, the bubble's text and visibility (`renderer/renderer.js`) |
| `auto_approve.dfy` | `AutoApprove` | the auto-approval hook's gates, verdict parsing and decision (`hooks/auto-approve.py`) |

Several things are parameters of the model rather than modelled code:

- `JSON.parse` is a `decode` function returning `None` where it throws.
- `JSON.stringify` is an `encode` function. A `LineSafe` encoder puts no newline in its output.
- Python's `json.loads`, `json.dumps` and `str` are functions too.
- The judge process is a function from the prompt to how its run ended.
- A user's home directory, as `os.path.expanduser` finds it, is a function of the user name; it gives `None` where the directory cannot be determined.
- The main process sees the socket server through an abstract view: per session, a pending count and the time of the last message. `main.js` calls a server API (`getAllSessionIds`, `getSession`, `removeSession`) that `src/socket-server.js` does not have. The view stands in for that API.

The model follows `src/socket-server.js` as written:

- The server has one flat table of pending requests and no per-session registry.
- A `session_end` message parses like any other but falls into the unknown-type branch of `handleMessage` (`Protocol.SessionEndIsUnhandled`).
- The end handler leaves a blank residue in the buffer instead of clearing it.

## Model

| member | source | states |
|---|---|---|
| Text.Strip | src/protocol.js:20 | trimming removes only surrounding whitespace: what is cut from either end is whitespace, and the result is a prefix of the input stripped of its leading whitespace (itself a suffix of the input), empty exactly when the input is all whitespace, otherwise beginning and ending with a non-space |
| Text.StripClean | src/protocol.js:20 | text without whitespace at either end is left unchanged by trimming |
| Text.Split | src/socket-server.js:36 | splitting on newlines yields at least one piece, and no piece contains a newline |
| Text.JoinSplit | src/socket-server.js:36-37 | joining the pieces of a split with newlines gives back the original text |
| Text.SplitJoin | src/socket-server.js:36-37 | splitting a newline join of newline-free pieces gives back those pieces |
| Text.Take | hooks/auto-approve.py:44 | a slice `[:n]` is a prefix of at most n characters, the whole text when it is short enough |
| Text.DecimalRoundTrip | renderer/renderer.js:155-156 | the decimal rendering of a count reads back as that count |
| Protocol.ParseMessage | src/protocol.js:19-34 | blank lines and lines that fail to decode give none without throwing; a line is accepted exactly when it decodes to a value with truthy `type` and `id`; the accepted message is the decoded object itself, with a falsy or missing `session_id` set to "default", a truthy one kept, and every other field unchanged |
| Protocol.WithSession | src/protocol.js:27-29 | only `session_id` is touched, and only when it is missing or falsy |
| Protocol.KindOf | src/socket-server.js:104-134 | the broker's branch is chosen by exact equality of `type` with each protocol type string |
| Protocol.SessionEndIsUnhandled | src/socket-server.js:131-134 | `session_end` is one of the protocol's message types, yet a message of that type takes the unknown-type branch |
| Protocol.SerializeResponse | src/protocol.js:41-43 | a response line is the encoding followed by one newline |
| Protocol.SerializedResponseIsOneLine | src/protocol.js:41-43 | with a line-safe encoder, the reader's newline split of a response line is exactly the encoding and an empty rest |
| Broker.Lookup | src/socket-server.js:144 | a lookup finds a connection exactly for a pending id, and that entry is in the table |
| Broker.Put | src/socket-server.js:107 | setting an id maps it to the new connection, leaves every other id as it was, adds no duplicate, and grows the table only for a new id |
| Broker.PutAppendsNew | src/socket-server.js:107 | a new id is placed after all others |
| Broker.PutKeepsOrder | src/socket-server.js:107 | setting an id already present keeps its place, so the iteration order of the table is the insertion order of its ids |
| Broker.Delete | src/socket-server.js:148 | deleting an id removes it, leaves every other id as it was, and changes nothing for an absent id |
| Broker.DeleteKeepsOrder | src/socket-server.js:148 | deleting an id held once removes exactly its entry and keeps every other entry in its order |
| Broker.DismissEffects | src/socket-server.js:93-96 | per pending entry, in table order, one `permission-dismissed` notice for its id followed by ending its connection |
| Broker.DismissPending | src/socket-server.js:92-99 | every pending request is announced and ended, the table is emptied, and the dismiss callback fires whenever it is set, even on an empty table |
| Broker.HandleMessage | src/socket-server.js:101-135 | a permission request leaves the table as `Map.prototype.set` of its id to the sender (`Broker.Put`, with its order lemmas), so it maps its id to the sender, silently replacing an existing entry, and emits exactly the forwarded message and then the request callback when one is set, so the sender stays open; notification and stop forward the message and end the sender; dismiss empties the table, tells the UI to drop its bubble and ends the sender; any other type only ends the sender; the table stays duplicate-free |
| Broker.CloseScan | src/socket-server.js:66-72 | the kept entries are exactly those of other connections, and the notices are exactly one dismissal per entry the closing connection held, in table order |
| Broker.CloseScanNotices | src/socket-server.js:66-72 | the scan's notices are exactly one dismissal per entry the closing connection held, in table order |
| Broker.OthersOf | src/socket-server.js:66-72 | the entries of the other connections, in table order: an entry is kept exactly when another connection holds it |
| Broker.CloseScanKeeps | src/socket-server.js:66-72 | the scan keeps exactly the other connections' entries, in their table order |
| Broker.OnClose | src/socket-server.js:63-76 | closing removes exactly the closing connection's entries and keeps the others in their table order; its effects are exactly one dismissal notice per removed entry in table order, followed by the dismiss callback exactly when something was removed and the table is now empty |
| Broker.SendResponse | src/socket-server.js:141-154 | for a pending id, the effects are exactly the serialized response written to its connection, the end of that connection, and the dismiss callback when the table became empty; the table becomes `Map.prototype.delete` of that id (`Broker.Delete`), so only that id leaves it and the others keep their order; for any other id nothing changes |
| Broker.Stop | src/socket-server.js:156-161 | stopping ends every held connection in table order and empties the table |
| Broker.ResponseResolvesOnce | src/socket-server.js:141-154 | a pending id is resolved once: the first response is written, and a second one for the same id changes nothing |
| Broker.RequestThenRespond | src/socket-server.js:105-154 | after a request, a response for its id writes exactly one line to the requesting connection and ends it; every other id is as before the request |
| Broker.CloseThenRespond | src/socket-server.js:63-76 | when the requesting connection closes first, the request is announced as dismissed and a later response for it is a no-op |
| Broker.CloseTwiceIsNoOp | src/socket-server.js:63-76 | a second close of the same connection removes and announces nothing |
| Broker.DuplicateRequestOrphansFirst | src/socket-server.js:105-111 | a second request under a pending id takes the slot; the first connection is neither pending nor ended |
| Framer.Frame | src/socket-server.js:32-37 | the complete lines and the new buffer, joined with newlines, are the old buffer plus the chunk, and none of them contains a newline |
| Framer.FrameReassembles | src/socket-server.js:33-37 | the dispatched lines joined with newlines, then one newline, then the new buffer, equal the old buffer plus the chunk |
| Framer.FrameWithoutNewline | src/socket-server.js:33-37 | text without a newline completes no line and is buffered whole |
| Framer.DispatchHandlesParsedInOrder | src/socket-server.js:39-43 | dispatching lines is handling exactly the messages they parse to, in arrival order; a rejected line is skipped without affecting later ones |
| Framer.RunAppend | src/socket-server.js:39-43 | handling two runs of lines is handling the first, then the second from the state the first left |
| Framer.OnData | src/socket-server.js:32-44 | the complete lines that buffer plus chunk contain (as framed) are dispatched in order and the unterminated rest becomes the new buffer, which holds no newline; text without a newline dispatches nothing and is buffered |
| Framer.ChunkingIsInvisible | src/socket-server.js:32-44 | delivering a and then b has the same effects, in the same order, and leaves the same buffer as delivering a + b at once |
| Framer.OnEnd | src/socket-server.js:52-61 | a residue that is not blank after trimming is parsed and, if it is a message, handled, and the buffer is cleared; a blank residue changes nothing |
| Framer.EndFlushesOnce | src/socket-server.js:52-61 | the residue is dispatched at most once: a second end does nothing |
| Layout.ThemeFor | main.js:88 | every theme handed out is one of the ten palette entries |
| Layout.InitialBounds | main.js:47-54 | a new window is 400 by 340, sits on the bottom of the work area, and is shifted left by 60 per window already open |
| Layout.ExpandTarget | main.js:194 | the requested height, or 550 when the request is missing or zero, capped at 550 |
| Layout.Expand | main.js:190-200 | expanding only grows the window, to the capped target, and keeps its left edge, width and bottom edge |
| Layout.Compact | main.js:202-211 | compacting only shrinks the window, to 340, and keeps its left edge, width and bottom edge |
| Layout.CompactUndoesExpand | main.js:186-211 | expanding a compact window and compacting it again restores its bounds exactly |
| Layout.ResizeIdempotent | main.js:190-211 | expanding twice to one target is expanding once, and compacting twice is compacting once |
| Layout.ContextMenu | main.js:222-262 | the hide, relaunch and quit entries are always there, with quit last; the per-session quit entry appears exactly for a non-empty session id other than "default" |
| Arbitration.IndexOf | main.js:98 | the first position of an element, or -1 exactly when it is absent |
| Arbitration.Splice | main.js:98-99 | removing a session from a duplicate-free FIFO deletes it and keeps the others in order; an absent session changes nothing |
| Arbitration.SpliceIsWithout | main.js:116-117 | the `indexOf`/`splice` removal equals filtering the session out |
| Arbitration.WithoutKeepsDistinct | main.js:116-117 | filtering keeps the FIFO duplicate-free |
| Arbitration.Enqueue | main.js:287-289 | a session is appended only if absent: the FIFO stays duplicate-free, contains exactly the old sessions plus the new one, and keeps its old order as a prefix |
| Arbitration.Active | main.js:127 | the active session is the FIFO head (`fifo[0]`), and none exactly when the FIFO is empty |
| Arbitration.ActiveIsStable | main.js:285-299 | a later request, or removing any session but the head, never changes the active session |
| Arbitration.ResolvingHeadPromotesNext | main.js:292-299 | removing the head makes the next session in arrival order active |
| Arbitration.Levels | main.js:126-143 | every open window gets a level; the top level goes exactly to the active session's window, unless the session id is empty |
| Arbitration.ShortcutTarget | main.js:148-155 | a shortcut goes nowhere on an empty FIFO, and otherwise only to the head's window when it has one |
| Arbitration.OnPermissionRequest | main.js:285-291 | a requesting session joins the FIFO by `Enqueue`, and the FIFO stays duplicate-free |
| Arbitration.OnSessionPermissionsDismiss | main.js:292-299 | the session leaves the FIFO, the others keep their order, and nothing else changes |
| Arbitration.OnAllPermissionsDismiss | main.js:300-303 | the FIFO is emptied and no session is active |
| Arbitration.WindowClosed | main.js:95-101 | the window is forgotten, the session leaves the FIFO keeping the others' order, and the server's sessions are untouched |
| Arbitration.RemoveSession | main.js:110-120 | the session's window, FIFO place and server session all go; every other session, window and FIFO position is untouched |
| Arbitration.CreateSessionWindow | main.js:44-105 | an existing session's window is returned unchanged and consumes no theme; a new one gets the next palette theme, the next offset, and advances the theme index by one; other windows are untouched |
| Arbitration.CreateAllKeepsExisting | main.js:44-45 | creating windows never replaces an open window |
| Arbitration.ThemesRoundRobin | main.js:88-89 | for distinct new sessions created in turn, the k-th gets palette entry (next + k) mod 10 and offset position k, and the index advances by the number created |
| Arbitration.RoundRobinStep | main.js:88-89 | one creation followed by the rest of the run keeps the round-robin assignment |
| Arbitration.CreateIsIdempotent | main.js:45 | creating a window for a session twice is creating it once |
| Arbitration.Victims | main.js:319-330 | a session is collected exactly when it is not "default", has nothing pending, and its truthy last-message time is more than 300000 ms before now |
| Arbitration.CollectIdleSessions | main.js:315-332 | the sweep removes exactly the collectable sessions from the server view, the windows and the FIFO, keeps the FIFO's order and duplicate-freedom, and never removes "default" or a session with a pending request |
| Arbitration.RemoveStep | main.js:328 | removing one more session keeps the sweep's invariant: the state is the start state minus the sessions removed so far |
| Renderer.CurrentRequest | renderer/renderer.js:172-174 | the current request is the queue head, and none exactly when the queue is empty |
| Renderer.ToolName | renderer/renderer.js:123 | the shown tool name is the request's tool name when it has a non-empty one, and exactly "Unknown" otherwise |
| Renderer.Truncate | renderer/renderer.js:148-150 | a description of at most 120 characters is kept; a longer one becomes its first 120 characters and "..." |
| Renderer.ShownDescription | renderer/renderer.js:143-152 | the tool input's command, when present, replaces the description, and the result is truncated |
| Renderer.WaitText | renderer/renderer.js:155-156 | the waiting counter is shown exactly when more than one request is queued |
| Renderer.WaitTextShowsCount | renderer/renderer.js:155-156 | the counter's digits read back as the number of waiting requests |
| Renderer.HideBubble | renderer/renderer.js:102-110 | hiding makes the bubble and the always-allow button invisible and leaves its content |
| Renderer.ShowBubble | renderer/renderer.js:74-100 | showing makes the bubble visible with the given text and button state, and leaves the always-allow button as it was |
| Renderer.Display | renderer/renderer.js:116-167 | an empty queue hides the bubble; a question request shows the question without buttons; any other request shows its text with the buttons, and the always-allow button exactly when it has suggestions |
| Renderer.PermissionTextShape | renderer/renderer.js:166 | the text starts with the icon, tool name and description, and has nothing after them exactly when one request is queued |
| Renderer.BuildResponse | renderer/renderer.js:228-269 | every response carries the request's id; only a denial is a deny, and only it carries the fixed message; always-allow carries `updatedPermissions` exactly when the request's suggestions are truthy |
| Renderer.OnAnswer | renderer/renderer.js:228-238 | an answer on an empty queue does nothing; otherwise exactly one response, for the head, is sent, and exactly the head is dropped |
| Renderer.AnswersFollowArrival | renderer/renderer.js:297-337 | k answers send one response per request of the first k, in queue order, and leave the rest queued |
| Renderer.OnPermissionRequest | renderer/renderer.js:199-203 | a request joins the tail; the current request is unchanged unless the queue was empty |
| Renderer.Drop | renderer/renderer.js:274 | no request with the dismissed id is left in the queue, and the queue never grows |
| Renderer.DropMembers | renderer/renderer.js:274 | the dismissed id's requests, and only they, leave the queue |
| Renderer.DropAppend | renderer/renderer.js:274 | the filter keeps the order of what remains |
| Renderer.OnPermissionDismissed | renderer/renderer.js:272-285 | every request with the id leaves the queue; the bubble is redrawn when the head went or requests remain, and left as it was otherwise |
| Renderer.DismissCancelsRequest | renderer/renderer.js:272-285 | a request dismissed after it arrived leaves the queue as if it had never arrived |
| Renderer.DismissUnknownKeepsQueue | renderer/renderer.js:272-285 | dismissing an id that is not queued changes no request |
| Renderer.OnDismissBubble | renderer/renderer.js:288-294 | the queue is emptied and the bubble ends hidden |
| Renderer.ShowStatus | renderer/renderer.js:206-225 | a status message never touches the queue and shows its text, or the fallback, without buttons only when the queue is empty |
| Renderer.OnNotification | renderer/renderer.js:206-211 | a notification leaves a non-empty queue's window unchanged |
| Renderer.OnStop | renderer/renderer.js:220-225 | a stop leaves a non-empty queue's window unchanged |
| Renderer.StatusNeverHidesRequest | renderer/renderer.js:206-225 | while requests are queued, any run of notifications and stops leaves the window exactly as it was |
| Renderer.IsPointInElement | renderer/renderer.js:64-72 | a hit lies within both closed intervals of the rectangle |
| Renderer.HitTestIsClosed | renderer/renderer.js:64-72 | the corners are hits and a point past any edge is not |
| AutoApprove.Get | hooks/auto-approve.py:121 | `dict.get` gives the value or the default, and fails exactly on a non-dict |
| AutoApprove.PyUpperChar | hooks/auto-approve.py:95 | only ASCII letters, the dotless i and the long s upper-case to an ASCII capital |
| AutoApprove.ReadVerdict | hooks/auto-approve.py:95-99 | the verdict is SAFE, or RISK, exactly when the upper-cased line is that word, and none otherwise |
| AutoApprove.JudgeWithCodex | hooks/auto-approve.py:77-102 | no verdict when the judge is missing, raises or exits non-zero; after an exit with status 0, exactly the verdict of the last output line |
| AutoApprove.VerdictReadsLastLine | hooks/auto-approve.py:92-95 | whatever precedes the last output line, the verdict is that line's word |
| AutoApprove.VerdictIgnoresCase | hooks/auto-approve.py:95-99 | every line gives the same verdict as its upper-case form, so letter case never matters |
| AutoApprove.VerdictOfOneLine | hooks/auto-approve.py:92-99 | a reply that is a single line after stripping is read whole: its stripped text decides the verdict |
| AutoApprove.SafeReplyIsSafe | hooks/auto-approve.py:91-97 | a status-0 reply that strips to SAFE is the SAFE verdict |
| AutoApprove.BuildPrompt | hooks/auto-approve.py:42-44 | the embedded tool input is its JSON encoding when that has at most 500 characters, else exactly the encoding's first 500 characters |
| AutoApprove.Describe | hooks/auto-approve.py:133 | the description is a truthy command, else a truthy description, else the printed tool input cut to 200 characters; it fails exactly on a non-dict tool input |
| AutoApprove.FallbackDescriptionIsPrefix | hooks/auto-approve.py:133 | when the command and the description are both missing or falsy, the description is the printed tool input when it is at most 200 characters long, else exactly its first 200 characters; a description longer than 200 characters always comes from the tool input |
| AutoApprove.ReadCall | hooks/auto-approve.py:130-134 | a call is read exactly when the data and its tool input are dicts; tool name, tool input and cwd are the data's values or their defaults; the session defaults to "default" only when the key is absent; the call's description is `Describe` of its tool input |
| AutoApprove.ExitCode | hooks/auto-approve.py:140-160 | the status is 0 exactly for an approval and 1 otherwise |
| AutoApprove.Stdout | hooks/auto-approve.py:156-157 | an approval prints exactly `SAFE` and a newline; something is printed exactly when the status is 0 |
| AutoApprove.Gates | hooks/auto-approve.py:105-127 | each gate in turn declines with its own reason: missing or empty hook data, undecodable hook data, a falsy configuration, a configuration or section that is not a dict (crash), auto-approval not enabled, the judge not installed; the gates pass exactly when none of these holds, with the decoded data and the section |
| AutoApprove.UpToSlash | hooks/auto-approve.py:144 | the user name of a `~` path: the longest prefix without `/`, ending at the first `/` or at the end |
| AutoApprove.UpToSlashOf | hooks/auto-approve.py:144 | a name without `/` followed by nothing or by a new component is read back as that name |
| AutoApprove.ExpandUser | hooks/auto-approve.py:144 | a path that does not start with `~` is unchanged; an expanded path is never empty |
| AutoApprove.ExpandUserOf | hooks/auto-approve.py:144 | `~user` followed by nothing or by a new component becomes that user's home directory followed by the rest, and raises exactly when that home directory cannot be determined |
| AutoApprove.LogTargetOf | hooks/auto-approve.py:142-146 | a missing or falsy log file means the default log; a truthy string is that file with a leading `~` expanded, and raises when the home directory cannot be determined; a truthy non-string makes building the path raise |
| AutoApprove.Decide | hooks/auto-approve.py:105-160 | a failed gate declines with its reason; an unreadable call crashes; a verdict other than SAFE for this call's prompt declines as not safe; a SAFE verdict approves with the call's tool name, description, cwd and session logged to the configured target, or crashes when that target cannot be built (a non-string log file, or a `~` whose home directory cannot be determined) |
| AutoApprove.OnlySafeApproves | hooks/auto-approve.py:140-160 | status 0 requires hook data, decodable JSON, a truthy configuration, an installed judge, passing gates, a readable call and a judge run on this call's prompt that exited 0 with SAFE as its last line; status 1 exactly when nothing is printed |
| AutoApprove.SafeVerdictApproves | hooks/auto-approve.py:140-157 | conversely, with the gates passed and the call read, a status-0 reply of SAFE (with any surrounding whitespace) to this call's prompt and a log target that can be built make the hook print SAFE and exit 0 |
| AutoApprove.NoSafeVerdictDeclines | hooks/auto-approve.py:138-160 | a judge that never says SAFE never approves |

## Left out

- Sockets, the socket file, `server.listen`, error logging: connections are opaque numbers, and writes and ends are logged effects.
- Chunk decoding: chunks arrive as already-decoded text. A multi-byte character split across chunks is not modelled.
- Lengths count characters (code points). JavaScript counts UTF-16 units, so text outside the basic plane is counted differently in the 120-character cut.
- JSON values are compared by value. JavaScript's `===` compares objects and arrays by reference, so a request id that is an object or array is handled slightly differently.
- `JSON.parse`, `JSON.stringify`, Python `json` and `str`: abstract functions, not verified code.
- Electron: window creation, `setAlwaysOnTop`, `moveTop`, IPC wiring, `isDestroyed`. Every window in the model is live; `Arbitration.Levels` gives the level each window is set to.
- The `onMessage` forwarding of main.js: the effects name the channel and payload, and the routing to a window is not modelled.
- `onSessionStart` and `onSessionEnd` of main.js: `src/socket-server.js` has no session registry that would call them.
- The renderer's bubble height measurement and the window expansion it requests. `Layout.Expand` models the arithmetic given a target.
- The HTML of question bubbles and `escapeHtml`. A question bubble is shown as `QuestionHtml` without its content.
- Drag handling, mouse click-through, status text, the spinner and theme colours.
- The fixed rubric text of the judge's prompt: only the four facts embedded in it are modelled.
- Timestamps in the approval log, and the log file write (which swallows its own errors).
- AutoApprove.ExpandUser: works on the path as written. Path normalisation is not modelled: repeated slashes and a `.` first component are not collapsed, so `./~name` stays unexpanded in the model although pathlib expands it.
- The judge's subprocess, its timeouts and `shutil.which`. One boolean stands for both lookups of the judge.
- Configuration files that exist but cannot be read end the hook with status 1 through an uncaught error; the model treats them as absent, which has the same exit status.
- Renderer.TextField: a `tool_name`, `description`, `command` or `message` that is not a string is read as absent. The program would use a truthy non-string value as it is: it prints it with JavaScript's `String` conversion, or throws a TypeError when a non-string command or description has a `length` above 120, because it calls `substring` on it.
- Renderer.Display: the TypeErrors that abort `displayCurrentPermission` (renderer/renderer.js:127-151) are not modelled. They occur when the first question is `null`, when `options` has a positive length but is not an array (`map` is missing), when an option is `null`, and in the `substring` case above. Where the program leaves the bubble as it was, the model shows the question or the request. Only arrays and strings count as having items: a JSON object that carries a numeric `length` field is not treated as list-like.
- AutoApprove.PyUpperChar: maps only the characters that can make a line equal SAFE or RISK. Every other character is left alone, which decides the comparison the same way, but it is not Python's full upper-casing.
- Renderer.IsPointInElement: its contract states that a hit lies inside the rectangle. `HitTestIsClosed` states that the edges count, but the converse is stated only for corners and points past an edge.
- Arbitration.Levels: the level is computed for every window in the map. The program skips destroyed windows, which the model does not have.
