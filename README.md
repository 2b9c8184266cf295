# SciSciGPT core in Dafny

This project is a verified model of the parts of SciSciGPT that manage
code execution and clean up model output:

- **The Jupyter sandboxes.** `backend/func/jupyter_async.py` is the newer
  sandbox. Each session id has one kernel, a blocking client and an
  asynchronous client. A bootstrap runs once per session, and a drain loop
  collects a request's IOPub messages until `idle` arrives or the deadline
  passes. `backend/func/jupyter.py` is the older sandbox. Its
  `get_or_create_session` and `execute_code` call each other, because the
  bootstrap commands go through `execute_code`.
- **XML repair of streamed answers** (`frontend/lib/chat/components/xml.tsx`).
  Unclosed tags get closing tags, closing tags without an open partner are
  dropped, and literal substrings are removed.
- **Message-list normalisation** (`backend/func/messages.py`). Tool calls
  are paired with tool responses, a trailing AI message is folded into the
  message before it, and system messages become human messages.
- **Cell-value truncation** (`backend/tools/display_dataframe.py`).

## Modules

- `common.dfy`, module `Common`: `Option`, `Result`, `Join` (Python
  `sep.join`, JavaScript `join`), subsequences and decimal rendering.
- `ansi.dfy`, module `Ansi`: the escape-sequence expression
  `\x1B(?:[@-Z\\-_]|\[[0-?]*[ -/]*[@-~])`. Both sandboxes use it to format
  tracebacks.
- `py_literal.dfy`, module `PyLiteral`: `_sanitize_path` and the decoding
  of a single-quoted Python literal, which the bootstrap `chdir` command
  relies on.
- `iopub.dfy`, module `Iopub`: IOPub messages and their classification
  into output dicts, in both sandboxes. It also holds the drain loops, as
  methods proved against a recursive specification, and the stamping of
  outputs with cell and session ids.
- `sandbox.dfy`, module `Sandbox`: class `JupyterSandbox` of
  jupyter_async.py. `sessions` is a `map` and `submitted` records every
  command sent to a kernel.
- `legacy_sandbox.dfy`, module `LegacySandbox`: class
  `LegacyJupyterSandbox` of jupyter.py. The recursion between its methods
  terminates because each nested call consumes a smaller script.
- `xml_repair.dfy`, module `XmlRepair`: the tag expression
  `/<\/?(\w+)(?:\s[^>]*)?>/g` as a deterministic matcher, and the three
  string functions.
- `messages.dfy`, module `Messages`.
- `truncate.dfy`, module `Truncate`.

The kernel is replaced by data:
- A request's replies are a sequence of polls. Each poll holds the clock
  reading and the message, or nothing when the wait raised `queue.Empty`.
- Client objects are handle numbers.
- Clock readings are parameters.

## Model

| member | source | states |
|---|---|---|
| Ansi.EscapeLength | backend/func/jupyter_async.py:41 | the match length is 0 or between 2 and the input length, and a match starts with ESC |
| Ansi.EscapeLengthMatches | backend/func/jupyter_async.py:41 | a positive length is a whole match of the pattern (ESC and a Fe final byte, or ESC `[`, parameter bytes, intermediate bytes and a final byte), and it is the only prefix that matches, so a length of 0 means no match starts there |
| Ansi.AnsiStripDropsEscape | backend/func/jupyter_async.py:40-42 | an escape at the head of a line is removed and the rest is stripped |
| Ansi.StripsColourCode | backend/func/jupyter_async.py:40-42 | the colour code `ESC [31m` in front of `x` is removed, leaving `x` |
| Ansi.ParametersEnd | backend/func/jupyter_async.py:41 | `[0-?]*` takes the longest run of parameter bytes |
| Ansi.IntermediatesEnd | backend/func/jupyter_async.py:41 | `[ -/]*` takes the longest run of intermediate bytes |
| Ansi.AnsiStripIsSubsequence | backend/func/jupyter_async.py:40-42 | stripping only deletes characters; the rest keep their order |
| Ansi.AnsiStripWithoutEscape | backend/func/jupyter_async.py:40-42 | a line without ESC is returned unchanged |
| Ansi.AnsiStripKeepsOtherCharacters | backend/func/jupyter_async.py:40-42 | every character that is neither ESC nor printable ASCII keeps its number of occurrences |
| Ansi.StripEach | backend/func/jupyter.py:62 | the cleaned traceback has one line per input line, each of them stripped |
| Ansi.FormatTracebackPlain | backend/func/jupyter_async.py:44-45 | a traceback without escapes is its lines joined by line breaks; an empty traceback is the empty string |
| Ansi.FormatTracebackIsSubsequence | backend/func/jupyter_async.py:44-45 | the formatted traceback is a subsequence of the plain join of the lines |
| PyLiteral.ReplaceChar | backend/func/jupyter_async.py:48 | `str.replace` with a one-character pattern leaves a string without that character unchanged |
| PyLiteral.SanitizeEscapesEachChar | backend/func/jupyter_async.py:47-48 | doubling backslashes before escaping quotes escapes every character on its own, so an inserted backslash is never doubled again |
| PyLiteral.SanitizeRoundTrip | backend/func/jupyter_async.py:47-48 | for a path without line breaks, the sanitized body decodes as a Python literal back to the path itself |
| PyLiteral.EscapeEachRoundTrip | backend/func/jupyter_async.py:47-48 | decoding undoes the per-character escaping |
| PyLiteral.BootstrapCommands | backend/func/jupyter_async.py:105-109 | there are three bootstrap commands: the R bridge, the Julia bridge, and the `chdir` to the sanitized working directory |
| PyLiteral.LegacyBootstrapCommands | backend/func/jupyter.py:41-43 | the same three commands, with the working directory spliced in unescaped |
| PyLiteral.LegacyChdirBreaksOnQuote | backend/func/jupyter.py:43 | a directory named `it's` does not survive the unescaped splice, but does survive the sanitized one |
| Iopub.DataUrl | backend/func/jupyter_async.py:193-202 | the image URL always starts with `data:<mime>;base64,`, and the prefix is added only when it is missing |
| Iopub.DataUrlIdempotent | backend/func/jupyter_async.py:195-196 | building the URL twice never gives a double prefix |
| Iopub.Classify | backend/func/jupyter_async.py:181-210 | only the matching `idle` status ends the loop; images come only from `display_data` and carry a PNG or JPEG data prefix; stream, result and error messages always yield text |
| Iopub.DisplayPreference | backend/func/jupyter_async.py:191-204 | a display payload yields its PNG, otherwise its JPEG, otherwise its plain text, otherwise nothing |
| Iopub.LegacyClassify | backend/func/jupyter.py:91-136 | the older classification: only `idle` finishes, images are PNG only, and a missing key raises only for the five known types |
| Iopub.JpegOnlyDiffers | backend/func/jupyter.py:108-125 | a JPEG-only payload is an image in the newer sandbox and is ignored in the older one |
| Iopub.Drain | backend/func/jupyter_async.py:170-210 | the newer loop never raises a `KeyError` |
| Iopub.HaltIndex | backend/func/jupyter_async.py:170-210 | the first poll that is past the deadline or carries the matching `idle` |
| Iopub.DrainCharacterized | backend/func/jupyter_async.py:170-210 | the outputs are those of the accepted messages before the first halting poll, in arrival order; the loop ends on timeout when that poll is late, on `idle` otherwise |
| Iopub.Outputs | backend/func/jupyter_async.py:171-173 | the timeout notice is appended exactly when the deadline ended the loop |
| Iopub.ForeignMessagesIgnored | backend/func/jupyter_async.py:178-179 | messages whose parent id is another request's change nothing |
| Iopub.IdleBeforeDeadline | backend/func/jupyter_async.py:206-210 | a matching `idle` that arrives in time ends the loop without a timeout notice |
| Iopub.DrainExtends | backend/func/jupyter_async.py:323-370 | the outputs streamed so far are a prefix of the outputs of every continuation |
| Iopub.LegacyTimeoutOnlyOnEmpty | backend/func/jupyter.py:138-145 | while messages keep arriving, the older loop never times out |
| Iopub.LegacyStopsOnForeignIdle | backend/func/jupyter.py:88-136 | an `idle` for another request ends the older loop before this request's output, which the newer loop still collects |
| Iopub.Stamped | backend/func/jupyter_async.py:212-214 | each output keeps its content and gains the cell and session ids |
| Iopub.CollectOutputs | backend/func/jupyter_async.py:166-210 | the loop's outputs and ending are those of the drain specification |
| Iopub.LegacyCollectOutputs | backend/func/jupyter.py:85-145 | the older loop's ending is its specification's, and so are its outputs unless a `KeyError` escapes |
| Iopub.StampOutputs | backend/func/jupyter_async.py:212-214 | the stamping loop produces the stamped list |
| Iopub.StreamOutputs | backend/func/jupyter_async.py:320-370 | the items yielded, in order, are the stamped outputs of the drain, timeout notice included |
| Sandbox.Submissions | backend/func/jupyter_async.py:110 | one submission per command, in order |
| Sandbox.WaitIdle | backend/func/jupyter_async.py:112-117 | the blocking bootstrap wait never hangs, and the asynchronous one is never cut short by a silent poll |
| Sandbox.BootSent | backend/func/jupyter_async.py:104-119 | every bootstrap command before the last one sent settled, and the last one sent did not settle unless all were sent |
| Sandbox.BootSentStops | backend/func/jupyter_async.py:104-119 | the first command that does not settle is the last one sent |
| Sandbox.AwaitIdle | backend/func/jupyter_async.py:112-117 | the wait loop ends as its specification says |
| Sandbox.JupyterSandbox.constructor | backend/func/jupyter_async.py:27-36 | a new sandbox has no sessions |
| Sandbox.JupyterSandbox.EnsureSessionStruct | backend/func/jupyter_async.py:50-65 | afterwards the id is registered; a new entry has no clients and is not initialized; an existing one only has `last_used` refreshed; no other entry changes |
| Sandbox.JupyterSandbox.InitOnceSync | backend/func/jupyter_async.py:99-121 | when the flag is set, nothing is sent; otherwise the bootstrap commands go out in order until one meets a silent poll, and the flag is set on every path |
| Sandbox.JupyterSandbox.InitOnceAsync | backend/func/jupyter_async.py:123-146 | the same, except that a command whose `idle` never comes hangs the coroutine with the flag unset |
| Sandbox.JupyterSandbox.GetOrCreateSession | backend/func/jupyter_async.py:150-157 | the kernel is started and the blocking client attached once; when it cannot be made ready, no command is sent and the entry keeps no client; on success the bootstrap ran at most once; other entries are unchanged |
| Sandbox.JupyterSandbox.AGetOrCreateSession | backend/func/jupyter_async.py:247-254 | the same with the asynchronous client and bootstrap: it fails to start exactly when the asynchronous client cannot be made ready, and hangs exactly when the client is ready, the session is not initialized and a bootstrap command's `idle` never comes |
| Sandbox.JupyterSandbox.RunRequest | backend/func/jupyter_async.py:166-215 | the code is sent, and the result is the stamped drain against `start + timeout` |
| Sandbox.JupyterSandbox.ExecuteCode | backend/func/jupyter_async.py:159-215 | fails only when the client cannot be made ready; otherwise it returns the stamped drain, and the user's code is the last command sent |
| Sandbox.JupyterSandbox.AExecuteCode | backend/func/jupyter_async.py:256-312 | succeeds exactly when the asynchronous client exists or can be made ready and the bootstrap does not hang; then it returns the stamped drain, the same value as `execute_code`, and the user's code is the last command sent |
| Sandbox.JupyterSandbox.AStreamExecuteCode | backend/func/jupyter_async.py:314-370 | succeeds on exactly the same inputs as `aexecute_code`, and the items yielded are exactly the items it returns |
| Sandbox.JupyterSandbox.CloseSession | backend/func/jupyter_async.py:217-233 | the entry is removed whatever the shutdown does; an absent id is a no-op |
| Sandbox.JupyterSandbox.CloseAllSessions | backend/func/jupyter_async.py:235-237 | no session remains |
| Sandbox.JupyterSandbox.CleanupInactiveSessions | backend/func/jupyter_async.py:239-243 | exactly the entries idle for longer than the limit are removed; the others are kept unchanged |
| LegacySandbox.FirstRaising | backend/func/jupyter.py:41-43 | the first bootstrap command whose drain raises |
| LegacySandbox.BootAttempted | backend/func/jupyter.py:41-43 | commands are sent up to and including the first one that raises |
| LegacySandbox.LegacyJupyterSandbox.constructor | backend/func/jupyter.py:9-14 | a new sandbox has no sessions |
| LegacySandbox.LegacyJupyterSandbox.GetOrCreateSession | backend/func/jupyter.py:16-48 | a known id only has `last_used` refreshed; when the client is not ready nothing is registered; otherwise the entry is registered before the bootstrap runs, and a raising bootstrap command propagates its error and leaves the entry registered |
| LegacySandbox.LegacyJupyterSandbox.Bootstrap | backend/func/jupyter.py:41-43 | the three unescaped commands go out in order through `execute_code` until one raises, and `last_used` is the one set by the last of them |
| LegacySandbox.LegacyJupyterSandbox.ExecuteCode | backend/func/jupyter.py:66-147 | the error comes from the session setup or from a missing key; otherwise the result is the stamped older drain |
| LegacySandbox.LegacyJupyterSandbox.CloseSession | backend/func/jupyter.py:149-160 | the entry is removed; an absent id is a no-op |
| LegacySandbox.LegacyJupyterSandbox.CloseAllSessions | backend/func/jupyter.py:162-165 | no session remains |
| LegacySandbox.LegacyJupyterSandbox.CleanupInactiveSessions | backend/func/jupyter.py:167-178 | exactly the entries idle for longer than the limit are removed |
| XmlRepair.WordEndRun | frontend/lib/chat/components/xml.tsx:7 | `\w+` takes the longest run of word characters: every character before `WordEnd` is a word character and the one at it is not |
| XmlRepair.FirstGt | frontend/lib/chat/components/xml.tsx:7 | the index found lies at or after the start and holds a `>` when it is inside the text |
| XmlRepair.FirstGtIsFirst | frontend/lib/chat/components/xml.tsx:7 | `[^>]*>` stops at the first `>`: no `>` comes before the index `FirstGt` finds |
| XmlRepair.MatchAt | frontend/lib/chat/components/xml.tsx:7 | a match found at an index starts there and lies inside the text |
| XmlRepair.MatchShape | frontend/lib/chat/components/xml.tsx:7 | a match is `<`, an optional `/`, a maximal word-character name, then `>` or white space up to the first `>` |
| XmlRepair.SelfClosingForms | frontend/lib/chat/components/xml.tsx:25-28 | `<br/>` is not a match at all, while `<br />` is a self-closing match that is never pushed |
| XmlRepair.NextMatch | frontend/lib/chat/components/xml.tsx:10 | `exec` returns a match at or after `lastIndex` |
| XmlRepair.NextMatchLeftmost | frontend/lib/chat/components/xml.tsx:10 | no match starts before the one `exec` returns |
| XmlRepair.LastIndexOf | frontend/lib/chat/components/xml.tsx:20 | the last position of the name on the stack, or -1 when it is absent |
| XmlRepair.Step | frontend/lib/chat/components/xml.tsx:18-29 | a closing tag removes the most recent open tag of its name wherever it sits, or nothing; an opening tag is pushed unless it ends in `/>` |
| XmlRepair.Rest | frontend/lib/chat/components/xml.tsx:33-37 | the tail after the last match starts at or after the scan position |
| XmlRepair.ScanTags | frontend/lib/chat/components/xml.tsx:10-37 | the pieces pushed join back to the text, and the stack is the specification's |
| XmlRepair.PushClosers | frontend/lib/chat/components/xml.tsx:40-42 | the reverse loop appends one closing tag per open name, innermost first |
| XmlRepair.CompleteUnclosedXmlTags | frontend/lib/chat/components/xml.tsx:1-45 | the result is the text followed by the closers of the tags still open |
| XmlRepair.CompletedClosesAll | frontend/lib/chat/components/xml.tsx:1-45 | when no `<` follows the last match, the completed text leaves no tag open |
| XmlRepair.CompletionSwallowedByUnfinishedTag | frontend/lib/chat/components/xml.tsx:7 | after an unfinished `<b x`, the appended closer becomes part of an opening tag and two tags stay open |
| XmlRepair.RemoveUnpairedBackslashXmlTags | frontend/lib/chat/components/xml.tsx:48-88 | the loop computes the removal specification |
| XmlRepair.RemovedIsSubsequence | frontend/lib/chat/components/xml.tsx:48-88 | the removal only deletes characters |
| XmlRepair.RemovedLength | frontend/lib/chat/components/xml.tsx:65-72 | the text never grows, and it shrinks when some closing tag has no open partner |
| XmlRepair.PairedUnchanged | frontend/lib/chat/components/xml.tsx:65-72 | when every closing tag has a partner, the text is unchanged |
| XmlRepair.RemovedUnchangedIffPaired | frontend/lib/chat/components/xml.tsx:48-88 | the text is unchanged exactly when every closing tag has an open partner |
| XmlRepair.NoTagsUnchanged | frontend/lib/chat/components/xml.tsx:1-88 | text without tags passes through both functions unchanged |
| XmlRepair.RemoveString | frontend/lib/chat/components/xml.tsx:90-92 | removal never lengthens the text |
| XmlRepair.RemoveStringIsSubsequence | frontend/lib/chat/components/xml.tsx:90-92 | removal only deletes characters |
| XmlRepair.RemoveStringKeepsPlain | frontend/lib/chat/components/xml.tsx:90-92 | a stretch that cannot start an occurrence is kept whole |
| XmlRepair.RemoveStringInvertsJoin | frontend/lib/chat/components/xml.tsx:90-92 | removing the separator from pieces joined by it gives the pieces concatenated, when no piece holds its first character |
| Messages.ToHuman | backend/func/messages.py:103-104 | a human message with the same content |
| Messages.Humanize | backend/func/messages.py:110-114 | a system message becomes a human message with the same content; every other message is kept as is |
| Messages.SystemToHuman | backend/func/messages.py:107-115 | same length and positions, each message humanized, and no system message left |
| Messages.TextItems | backend/func/messages.py:89-93 | the text items read back as the given texts |
| Messages.ReformatMessages | backend/func/messages.py:83-100 | `IndexError` on an empty list or a lone AI message; unchanged when the last message is not an AI message; otherwise the first n-2 messages are kept, the last is dropped, and the new last holds the texts of the old last two, or `KeyError` when an item lacks text |
| Messages.SymDiff | backend/func/messages.py:154 | an id is removed exactly when it is on one side only |
| Messages.FilterCalls | backend/func/messages.py:164 | exactly the calls whose id is not removed are kept |
| Messages.RemoveBadToolCallResponses | backend/func/messages.py:137-170 | the two loops compute the repair specification |
| Messages.PrunedCallIds | backend/func/messages.py:162-165 | filtering takes exactly the removed ids out of the call ids |
| Messages.PrunedResponseIds | backend/func/messages.py:158-160 | filtering takes exactly the removed ids out of the response ids |
| Messages.RepairedPairsCalls | backend/func/messages.py:150-165 | afterwards the call ids and the response ids are equal, and both are the intersection of the original sets |
| Messages.RepairedIdempotent | backend/func/messages.py:154 | a second repair removes nothing |
| Messages.PrunedIsSubsequence | backend/func/messages.py:156-170 | only deletions, in order, of the messages with filtered calls |
| Messages.PrunedKeepsOthers | backend/func/messages.py:156-170 | every message that is not a tool message is kept, in order |
| Truncate.PrefixTo | backend/tools/display_dataframe.py:46 | Python's `s[:stop]`, with a negative stop counted from the end |
| Truncate.TruncateString | backend/tools/display_dataframe.py:43-46 | a string within the budget is kept; a longer one is a prefix plus `...`, and it has exactly `max - 1` characters when the budget is at least 4 |
| Truncate.StopIndex | backend/tools/display_dataframe.py:36-39 | the first element that does not fit, every earlier one fitting |
| Truncate.SummarizeElements | backend/tools/display_dataframe.py:33-42 | the budget loop with its `break` computes the summary specification |
| Truncate.TruncateValue | backend/tools/display_dataframe.py:27-47 | a list within the budget and a non-sequence are returned as they are; a longer list is summarized; a string is truncated |
| Truncate.JoinLength | backend/tools/display_dataframe.py:41-42 | joining with `", "` costs two characters less than the budget charges |
| Truncate.ShownShape | backend/tools/display_dataframe.py:36-42 | the items shown are a prefix of the elements, followed by `...` exactly when the loop stopped early |
| Truncate.FittedCost | backend/tools/display_dataframe.py:36-41 | the elements taken, plus 3, stay within the budget |
| Truncate.SummaryLength | backend/tools/display_dataframe.py:33-42 | the summary has at most `max + 2` characters when the budget is at least 3, and at most 5 otherwise |
| Truncate.DefaultBounds | backend/tools/display_dataframe.py:27-46 | with the defaults, a long string becomes 4999 characters and a long list at most 52 |

## Left out

- Kernel processes and clients: `KernelManager`, `start_kernel`, `client()`, `start_channels`, `wait_for_ready`, `get_iopub_msg`, `stop_channels` and `shutdown_kernel`. A kernel is a flag, a client is a handle number, a request's replies are a finite sequence of polls, and `wait_for_ready` is a boolean.
- Locks and threads: `threading.RLock`, `asyncio.Lock` and `asyncio.to_thread`. Every call runs to completion before the next one.
- Clocks: `time.monotonic()` and `time.time()` are readings passed in as parameters.
- The poll sequence can run out, which ends a drain as `Exhausted`. The real loop would keep polling. This ending carries no timeout notice.
- `aclose_session`, `aclose_all_sessions` and `acleanup_inactive_sessions`: they have the same effect on `sessions` as the blocking versions, so they are modelled by `CloseSession`, `CloseAllSessions` and `CleanupInactiveSessions`.
- LegacySandbox.LegacyJupyterSandbox.CloseSession: in jupyter.py an exception from `stop_channels` or `shutdown_kernel` would leave the entry registered. Kernel calls are not modelled, so the entry is always removed.
- In `_init_once_sync`, an exception other than `queue.Empty`, for example one raised by `execute`, ends the bootstrap the same way. Only the silent poll is modelled as its cause.
- The three bootstrap calls of jupyter.py pass a fresh `uuid4` as the cell id. The model passes the empty string, since bootstrap outputs are discarded. The three calls are written as a loop over the command list.
- Every IOPub message is assumed to carry a header with a message type and a content, as jupyter_client delivers them. jupyter_async.py:181-182 index both directly, so a message without them would raise; the model has no such message, which is why `Iopub.Drain` never raises.
- Values in `data` and `content` are modelled as strings, so `str(...)` of a `text/plain` value is the identity.
- Messages: `convert_to_langchain_messages` (LangChain deserialisation), `display_message` (printing only) and `remove_inner_monologue` (lazy, DOTALL regular expressions) are not modelled.
- Messages: LangChain message classes other than human, system, AI and tool are not modelled; messages.py treats them like human messages. List content holding bare strings instead of dicts is not modelled either.
- XmlRepair.RemoveString: the substring is taken as a literal. A substring holding regular-expression metacharacters (`.`, `*`, `(`, `[`, ...) builds a different pattern, and that case is not modelled.
- XmlRepair.CompletedClosesAll: it holds only when no `<` follows the last tag. `CompletionSwallowedByUnfinishedTag` shows what goes wrong otherwise.
- `process_xml` (lazy `.*?` rewrites with callback replacement) is not modelled.
- JavaScript strings are UTF-16 code units; a Dafny `char` stands for one unit.
- Truncate: `display_dataframe` (pandas, markdown and CSV rendering), `round_nested` (floating-point rounding) and numpy's `str` of arrays are not modelled. The `str` of a list-like value and of each element are given as strings.
- Kernel images, cloud upload (`gcp.py`), the server (`app.py`), prompts, environment setup and the React UI are outside this model.

## Findings

| source | as written | input that shows it | evidently intended | confidence | as-written member | corrected member |
|---|---|---|---|---|---|---|
| backend/func/jupyter.py:43 | the working directory is spliced into `os.chdir('...')` without escaping | a working directory named `it's` | the literal decodes to the directory, as `_sanitize_path` achieves in jupyter_async.py:108 | not executed | PyLiteral.LegacyChdirBreaksOnQuote | PyLiteral.SanitizeRoundTrip |
| backend/func/jupyter.py:88-136 | the drain does not compare the parent `msg_id` with the request's id | an `idle` status of another request that arrives before this request's output | only this request's messages are read, as in jupyter_async.py:178-179 | not executed | Iopub.LegacyStopsOnForeignIdle | Iopub.ForeignMessagesIgnored |
| backend/func/jupyter.py:138-145 | the timeout is checked only when a poll comes back empty | a kernel that keeps emitting stream output past the timeout | the loop stops once the deadline has passed, as in jupyter_async.py:171-173 | not executed | Iopub.LegacyTimeoutOnlyOnEmpty | Iopub.DrainCharacterized |
