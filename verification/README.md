# Hollowfire core, modelled in Dafny

Hollowfire is a local HTTP front end for a conversational model. The
model covers the decision logic inside its HTTP and provider code:

- the server's callback table, and how `do_GET` and `do_POST` route a
  request through it;
- the conversation state of a provider: template substitution, reset,
  memory operations per HTTP verb, startout swap, the configuration
  selector, and save and load;
- the Ollama provider: the configuration merge of `completion`, plus the
  request checks, tool filter, per-chunk records, retry loop and chunked
  framing of `completion_request`;
- first-match attribute lookup across startout files;
- the log directory pruning rule;
- module discovery in the `tools` and `configuration/startouts` packages.

Every operation is a pure function of explicit values. A handler's socket
writes are returned rather than performed: a response is a status with a
body (`Http.Response`). A handler that raises returns what it had written
before the exception (`Http.Reply.Raise`). Everything outside the process
is a parameter of the function that needs it:

- the file system is a map from paths to nodes;
- a directory listing is a sequence of names with modification times;
- the inference backend is a function from attempt number and keyword
  arguments to the chunks it delivered and how its stream ended;
- tool callables, JSON encoding and decoding, and module imports are
  functions.

Files, one module each:

- `values.dfy` (`Values`): options, JSON values, bytes, Python truthiness, and the `Version` selector.
- `pystrings.dfy` (`PyStrings`): the Python `str` operations used: `startswith`, `removeprefix`, `replace`, `split("/")`, `int()`, `str()`.
- `http.dfy` (`Http`): responses, replies and the outcomes of reading a request body.
- `server.dfy` (`Server`): src/lib/server.py.
- `locate.dfy` (`Locate`): src/lib/util/locateutils.py.
- `provider.dfy` (`Provider`): src/lib/providers/base.py.
- `framing.dfy` (`ChunkedFraming`): chunked transfer coding, section 7.1 of RFC 9112.
- `ollama.dfy` (`OllamaProvider`): src/lib/providers/ollamaprovider.py.
- `logsystem.dfy` (`LogSystem`): `clean_directory` of src/lib/util/logsystem.py.
- `discovery.dfy` (`ModuleDiscovery`): tools/__init__.py and configuration/startouts/__init__.py.

Facts about the code that the model keeps as they are:

- A negative memory index `n` addresses position `|n| - 1` from the front,
  so `-1` is the first message.
- The retry loop makes at most 24 backend calls.
- Stream headers are written before every chunk of attempt 1, and in no
  other attempt.
- A frame's payload is the encoded record, with no newline added.
- The tool runner passed to the record builder always returns a string.
  A tool that raises is represented only through the attempt's `Ending`,
  which the backend parameter chooses: a `RuntimeError` is retried and
  any other exception escapes the handler.
- A tool named in a chunk runs without any check against the allowed
  tools.
- Requests reach one provider object; nothing splits a conversation id
  off the request path.

Two steps of the code are faulty (see "## Findings"): the index parse of
DELETE and PATCH, and the tool filter. The operations that contain them
take a `Values.Version`: `AsWritten` follows the code, `Corrected` the
evident intent. Every property of those operations is stated for both.

## Model

| member | source | states |
|---|---|---|
| Server.NewTable | src/lib/server.py:64-70 | The table starts with exactly the five method keys GET, POST, PUT, DELETE and PATCH, each with no paths. |
| Server.AppendEntry | src/lib/server.py:212-215 | Registering under a path appends the entry after the earlier ones for that path, duplicates included. No other path's entries change. A new path key goes after all existing keys; an existing key keeps its place. |
| Server.RequestCallback | src/lib/server.py:210-227 | Registration fails, and goes to the fatal reporter, exactly when the method key is not in the table. Otherwise only that method's table changes, by one entry appended under the path, and the set of method keys stays the same. |
| Server.FiringIn | src/lib/server.py:119-125 | Among the first k entries of one path, a position is collected iff its entry fires: a prefix entry when the request path starts with the route path, an exact entry when the two paths are equal. Positions come out in append order. |
| Server.FiringUpTo | src/lib/server.py:117-125 | Over the first n paths, exactly the firing positions are collected, ordered by path insertion and then by append order. |
| Server.Firing | src/lib/server.py:115-125 | `path_callbacks` holds every firing entry of the method's table exactly once, paths in insertion order and entries in append order. |
| Server.FirstRaising | src/lib/server.py:127-128 | The loop stops at the first callback that raises in its turn; every callback run before it returned normally. |
| Server.HandleRequest | src/lib/server.py:109-141 | Only GET and POST are dispatched; any other method is not implemented. The firing callbacks run in order until one raises; whether a callback raises may differ from turn to turn. The router's own answer is 500 "Failed to process … request." iff the last callback run raised, 404 "Path/endpoint not found (or wrong method)" iff nothing fired, and nothing iff every firing callback ran without raising. Either every firing callback runs, or the run stops at the first one that raises; the router answers nothing other than those three. |
| Server.NoRaiseRunsAll | src/lib/server.py:115-141 | When no callback raises, every firing callback runs, in order, and the router answers 404 only when nothing fired. |
| Server.OtherMethodsIgnored | src/lib/server.py:111-113 | Changing another method's table never changes how a request is handled. |
| Server.NoDispatchOutsideGetPost | src/lib/server.py:98-183 | Entries registered under PUT, DELETE or PATCH never run, because there is no handler for those methods. |
| Server.PrefixRegistrationFires | src/lib/server.py:121-122 | A prefix callback registered on a fresh table runs, alone, for every GET path that extends its path, when it does not raise. |
| Locate.LocateAttribute | src/lib/util/locateutils.py:25-35 | The answer is the value and name of the first file, in `__all__` order, whose attribute is present and truthy. It is `(None, None)` iff no file has such an attribute. A falsy value is never returned. |
| Locate.LaterFilesIgnored | src/lib/util/locateutils.py:25-33 | Once some file provides the attribute, appending further files never changes the answer. |
| PyStrings.RemovePrefix | src/lib/providers/base.py:134 | `removeprefix` drops exactly one copy of the prefix when the string starts with it; otherwise the string is unchanged. |
| PyStrings.ReplaceAbsent | src/lib/providers/base.py:110 | `str.replace` leaves a string unchanged when the pattern does not occur in it. |
| PyStrings.ReplaceIdentity | src/lib/providers/base.py:110 | Replacing a key by itself leaves every string unchanged, the empty key included. |
| PyStrings.SplitOnSlash | src/lib/providers/base.py:187 | `split("/")` gives at least one piece, and its last piece is everything after the last slash. |
| PyStrings.SplitJoin | src/lib/providers/base.py:187 | Joining the pieces of `split("/")` with slashes gives back the string. |
| PyStrings.SplitPiecesHaveNoSlash | src/lib/providers/base.py:187 | No piece of `split("/")` contains a slash. |
| PyStrings.ParseInt | src/lib/providers/base.py:472 | `int()` succeeds exactly on an optionally signed, non-empty run of decimal digits. |
| PyStrings.ParseIntToString | src/lib/providers/base.py:472 | `int(str(n)) == n` for every integer n. |
| Provider.ApplyReplacements | src/lib/providers/base.py:107-110 | After all passes, each message keeps its other fields, and its content is the in-order, sequential fold of the replacements over the original content. |
| Provider.UpdateResetPoint | src/lib/providers/base.py:98-112 | The result is a copy of the template with the same length. Each content is substituted and the other fields are kept. The stored template is an input and is never changed. |
| Provider.NoReplacementsCopy | src/lib/providers/base.py:105-112 | With no replacements the copy equals the template. |
| Provider.ReplaceInAllUnmatched | src/lib/providers/base.py:108-110 | A non-empty key that occurs in no message leaves every message as it was. |
| Provider.SubstituteIdentity | src/lib/providers/base.py:107-110 | Replacements that map each key to itself leave any content as it was. |
| Provider.IdentityReplacementsCopy | src/lib/providers/base.py:98-112 | With replacements that map each key to itself, the substituted template equals the template. |
| Provider.SequentialReplacements | src/lib/providers/base.py:107-110 | Illustration, not a general property: later keys see the output of earlier ones, so `{"a": "b", "b": "c"}` turns "a" into "c". |
| Provider.NewConversation | src/lib/providers/base.py:74-90 | A new provider keeps the given template and replacements, and its history is the substituted template. |
| Provider.Reset | src/lib/providers/base.py:370-379 | Reset answers 200, makes the history the substituted template (content by content, other fields kept), and changes nothing else. |
| Provider.ResetForgetsHistory | src/lib/providers/base.py:377 | The state after a reset does not depend on the history before it. |
| Provider.ResetThenGet | src/lib/providers/base.py:159-164 | A GET of the memory right after a reset answers the substituted template. |
| Provider.ResolveIndex | src/lib/providers/base.py:189-190 | A non-negative index is its own position; a negative index n addresses position \|n\| - 1. |
| Provider.MinusOneIsFirst | src/lib/providers/base.py:189-190 | Illustration of `ResolveIndexMirror`: both -1 and 0 address position 0. |
| Provider.ResolveIndexMirror | src/lib/providers/base.py:189-190 | -(k+1) and k address the same position k. |
| Provider.IndexArgument | src/lib/providers/base.py:187-193 | With the corrected parse of the last path segment, an index is accepted iff the segment is an integer, the history has a length, and the integer is at most that length. The comparison is `>`, so an index equal to the length passes. The accepted position is the resolved index. |
| Provider.PrintedIndex | src/lib/providers/base.py:187-193 | A path ending in a printed non-negative integer within bounds selects that very position. |
| Provider.ZeroIndex | src/lib/providers/base.py:187-193 | Illustration of `PrintedIndex`: the path "0" selects position 0 of any history that has a length. |
| Provider.LengthIndexPassesCheck | src/lib/providers/base.py:192-206 | An index equal to the history's length passes the bound check, and the removal then raises instead of answering 400. |
| Provider.LastSegmentWithoutSlash | src/lib/providers/base.py:187 | A segment with no slash is its own last `split("/")` element. |
| Provider.IndexAlwaysRaisesAsWritten | src/lib/providers/base.py:187 | `int()` applied to the list `path_used.split("/")` raises for every path, so the try block of DELETE and PATCH as written never completes. |
| Provider.AssignAt | src/lib/providers/base.py:235 | Assigning into a list succeeds iff the position is inside it, and replaces exactly that element. A dict gains or overwrites the key `str(i)`. Any other value raises. |
| Provider.Delete | src/lib/providers/base.py:185-211 | Corrected DELETE. A bad index answers 400 and changes nothing. A valid in-range index removes exactly that element, keeps the others in order, and answers 200 with the new history. A position past the end, or a history that is not a list, raises with nothing changed. Only the history can change. |
| Provider.DeleteAsWritten | src/lib/providers/base.py:185-206 | DELETE as written. The try block fails at `int()` of a list, so 400 is written, the handler does not return, and the removal through the unassigned `abs_index` raises. Whatever the path, the history is unchanged. |
| Provider.Patch | src/lib/providers/base.py:214-239 | Corrected PATCH. A bad index answers 400 and changes nothing. A valid in-range index replaces exactly that element with the body, keeps the length and every other element, and answers 200 with the new history. On a dict history the key `str(i)` gets the body, with 200; on any other non-list history it raises with nothing changed. |
| Provider.PatchAsWritten | src/lib/providers/base.py:214-235 | PATCH as written, with the same failing try block: 400 is written, the assignment through the unassigned `abs_index` raises, and the history is unchanged. |
| Provider.DeleteAsWrittenNeverDeletes | src/lib/providers/base.py:187-206 | On a one-message history and index 0, the handler as written keeps the message and raises. The corrected handler removes it and answers 200. |
| Provider.PatchAsWrittenNeverPatches | src/lib/providers/base.py:216-235 | On a one-message history and index 0, the handler as written keeps the old message. The corrected handler replaces it with the body. |
| Provider.AsWrittenCrashesWhereCorrectedAnswers | src/lib/providers/base.py:185-239 | On every request the corrected DELETE or PATCH answers (with 200 or 400), the handler as written raises instead. |
| Provider.MemoryUpdate | src/lib/providers/base.py:130-248 | A `ValueError` while reading or decoding the body answers 411 before verb dispatch, with nothing changed. GET answers the history, unchanged. POST appends the body as the new last element and keeps the earlier ones. PUT replaces the history with the body. DELETE and PATCH as written write 400 and raise with nothing changed; corrected, they act on the path after `/memory/`. Any other verb answers 400 "Invalid request. How did you get this error?". Only the history ever changes. |
| Provider.OverwriteLongList | src/lib/providers/base.py:434-435 | On a list at least as long as the template, the loop writes the template over the first positions and keeps the rest. |
| Provider.OverwriteShortList | src/lib/providers/base.py:434-435 | On a shorter list, the loop writes the template up to the list's end and then raises. |
| Provider.SearchSetStartout | src/lib/providers/base.py:385-442 | A startout not found, or one found only with a falsy value, answers 404 and changes nothing. A found startout becomes the template. A GET changes nothing else and answers the history. Only the template and history can change. |
| Provider.SearchSetStartoutPostLong | src/lib/providers/base.py:431-442 | A POST over a history at least as long as the new template overwrites the first positions with the substituted template, keeps later positions and the length, and answers 200 with the new history. |
| Provider.SearchSetStartoutPostShort | src/lib/providers/base.py:431-435 | A POST over a shorter history swaps the template, overwrites the history to its end, and raises. |
| Provider.ChangeStartoutConfiguration | src/lib/providers/base.py:448-489 | An integer segment is stored as the selector, answering 200 with the history. Anything else answers 400 and keeps the old value. Nothing else ever changes. |
| Provider.ConfigurationRoundTrip | src/lib/providers/base.py:471-472 | Any integer written into the path is exactly the integer stored. |
| Provider.Save | src/lib/providers/base.py:256-295 | Save writes the encoded history to `memory_dir/<name>` and answers 200, leaving every other path as it was, exactly when that path can be opened for writing: it does not end in a slash, is not a directory, and its parent directory exists. Otherwise it answers 500 and changes nothing. |
| Provider.SaveNeedsMemoryDirectory | src/lib/providers/base.py:278-291 | When the memory directory does not exist, saving under any plain name answers 500 and changes nothing. |
| Provider.SaveEmptyNameFails | src/lib/providers/base.py:278-291 | `/save/` with an empty name targets the directory itself and answers 500. |
| Provider.Load | src/lib/providers/base.py:301-364 | Load checks existence (404), then that the path is a file (400), then decoding (500), in that order; a path with a trailing slash finds only a directory. Only success replaces the history, and then it answers 200. |
| Provider.LoadEmptyNameIsDirectory | src/lib/providers/base.py:322-343 | `/load/` with an empty name finds the existing memory directory and answers 400 "Path is not a file.". |
| Provider.SaveThenLoad | src/lib/providers/base.py:278-349 | A successful save, then a load of the same name in the same memory directory, restores the saved history, given a decoder that reads back what the encoder wrote. |
| ChunkedFraming.Hex | src/lib/providers/ollamaprovider.py:222 | The size line is a non-empty string of hexadecimal digits. |
| ChunkedFraming.HexRoundTrip | src/lib/providers/ollamaprovider.py:222 | Reading the lowercase hex size line back gives the payload length. |
| ChunkedFraming.EmptyFrameIsTerminator | src/lib/providers/ollamaprovider.py:231 | A frame of empty data is exactly the terminator `0\r\n\r\n`, so a chunk must never be empty. |
| ChunkedFraming.DecodeFrameOfFrame | src/lib/providers/ollamaprovider.py:219-225 | Decoding the front of a frame gives back its payload and leaves whatever follows the frame. |
| ChunkedFraming.DecodeAfterFrame | src/lib/providers/ollamaprovider.py:219-225 | A stream that starts with the frame of non-empty data decodes to that data followed by whatever the rest decodes to. |
| ChunkedFraming.StreamRoundTrip | src/lib/providers/ollamaprovider.py:219-231 | Decoding the frames of non-empty payloads followed by the terminator gives back exactly those payloads, in order. |
| OllamaProvider.CompletionMerge | src/lib/providers/ollamaprovider.py:57-65 | `completion` passes the caller's model, messages, stream, think and options, each defaulting to the model argument, the conversation, True, True and `{}`. It passes every other key of the caller's dict unchanged. It leaves the caller's dict without the five keys. |
| OllamaProvider.RetryUsesDefaults | src/lib/providers/ollamaprovider.py:57-65 | A second call on the dict the first call left behind passes the defaults for all five keys and still passes every other caller key. The retry has lost the caller's model, messages, stream, think and options. |
| OllamaProvider.PyIn | src/lib/providers/ollamaprovider.py:131 | Python's `in` on a decoded JSON value raises exactly for values that are not lists, dicts or strings. |
| OllamaProvider.ToolNames | src/lib/providers/ollamaprovider.py:127-134 | Corrected tool filter. A name is allowed iff an exported tool has it and the request's `tools` contains it. At most one name per exported tool. The filter raises exactly when a tool exists and `tools` does not support `in`. |
| OllamaProvider.ToolNamesConcat | src/lib/providers/ollamaprovider.py:128-132 | Export order is kept: filtering a concatenation of export lists is concatenating their filters. |
| OllamaProvider.AsWrittenAllowsNothing | src/lib/providers/ollamaprovider.py:127-134 | The filter as written allows no tool at all. With no exported tool the list is empty; exported as a flat list, any tool crashes the request; grouped, the list is empty for a list or dict `tools` and the request crashes otherwise. |
| OllamaProvider.ProvidedNeverProvides | src/lib/providers/ollamaprovider.py:127-132 | As written, the callable is never found in the decoded request, so `tools_provided` stays empty or the membership test raises. |
| OllamaProvider.RequestedToolDropped | src/lib/providers/ollamaprovider.py:127-134 | A request for the exported tool `get_time`, grouped as the inner loop expects, gets it from the corrected filter and gets nothing as written. |
| OllamaProvider.RequestedToolAllowed | src/lib/providers/ollamaprovider.py:127-134 | The corrected filter allows `get_time` to a request that lists it. |
| OllamaProvider.FlatExportsCrash | src/lib/providers/ollamaprovider.py:128-131 | With one module exporting one tool, joined into a flat list as tools/__init__.py builds it, every request crashes as written, whatever it asks for; the corrected filter allows the tool. |
| OllamaProvider.Prepare | src/lib/providers/ollamaprovider.py:77-137 | The body checks, in order: a read that raises `KeyError` gives 411; any other read failure gives 400, including a missing `Content-Length`, for which `int(None)` raises `TypeError`; a non-JSON body gives 400; a non-object body crashes. The client's `stream` is popped with default False and only decides client framing. The arguments keep every other client key, carry the tool names the filter (as written or corrected) allows, and always set `stream` to True. |
| OllamaProvider.PrepareAsWrittenSendsNoTools | src/lib/providers/ollamaprovider.py:120-134 | As written, whenever the body checks pass, the backend is sent an empty `tools` list. |
| OllamaProvider.ToolResponsesKeys | src/lib/providers/ollamaprovider.py:183-198 | `tool_responses` has one key per tool name called in the chunk, and no other key. |
| OllamaProvider.ToolResponsesLastWins | src/lib/providers/ollamaprovider.py:183-198 | Under each name is `"<name> returned:\n<result>"` for the last call of that name. |
| OllamaProvider.LaterCallWins | src/lib/providers/ollamaprovider.py:198 | Illustration of `ToolResponsesLastWins`: a later call with the same name overwrites the earlier call's response. |
| OllamaProvider.MakeRecordFields | src/lib/providers/ollamaprovider.py:176-204 | A record keeps the chunk's content and tool calls. It has `tool_responses` exactly when the chunk made at least one call, and then holds a response for every tool called. |
| OllamaProvider.MakeRecords | src/lib/providers/ollamaprovider.py:162-206 | One record per chunk. |
| OllamaProvider.RetryLoop | src/lib/providers/ollamaprovider.py:140-156 | From attempt `count`, the loop calls the backend at least once and at most `25 - count` times, with one answer per call. |
| OllamaProvider.AfterTry | src/lib/providers/ollamaprovider.py:153-240 | The same bounds for the remainder of a turn once its backend call is made. |
| OllamaProvider.RetryShape | src/lib/providers/ollamaprovider.py:145-156 | A blank completion or a `RuntimeError` below attempt 24 puts its call, answer and records before the next turn's. Any other attempt is the last. |
| OllamaProvider.RetryCalls | src/lib/providers/ollamaprovider.py:145-150 | The first backend call gets `completion`'s merge of the request dict. Every retry gets the merge of what that call left behind. |
| OllamaProvider.RetryAttempts | src/lib/providers/ollamaprovider.py:145-156 | Attempt `count + i` is the backend's answer to call i, and every attempt before the last was blank or raised `RuntimeError`. |
| OllamaProvider.RetryEnding | src/lib/providers/ollamaprovider.py:145-255 | An exception escapes the handler exactly when the last attempt raised something other than `RuntimeError`. A last attempt that was blank or raised `RuntimeError` is always attempt 24. |
| OllamaProvider.RetryRecords | src/lib/providers/ollamaprovider.py:139-206 | The records are those of every attempt, in order; records of failed attempts stay in `result`. |
| OllamaProvider.RetryWrites | src/lib/providers/ollamaprovider.py:206-255 | The writes are the frames of every attempt's records when streaming, then one closing write. That is 500 "Failed to generate response." after exhausting 24 attempts, nothing after an escaping exception, the terminator when streaming, and otherwise one 200 carrying the array of all records. |
| OllamaProvider.CompletionRequest | src/lib/providers/ollamaprovider.py:71-255 | A rejected body is answered once, with no backend call. A crashing body, which includes every request with a non-empty flat tool list as written, escapes with nothing written. A valid one gets between 1 and 24 backend calls. |
| OllamaProvider.LoopAlwaysStreams | src/lib/providers/ollamaprovider.py:137-150 | Starting from a dict whose `stream` is True or absent, every backend call streams and every retry asks for model "qwen3". |
| OllamaProvider.BackendAlwaysStreams | src/lib/providers/ollamaprovider.py:120-150 | Whatever the client sends, with either tool filter, every backend call has `stream` True, and only the first call can carry the client's model. |
| OllamaProvider.WrittenBytesConcat | src/lib/providers/ollamaprovider.py:219-231 | The bytes of consecutive writes are the bytes of each, in order. |
| OllamaProvider.FramesConcat | src/lib/providers/ollamaprovider.py:219-225 | The frames of consecutive payload lists are the frames of each, in order. |
| OllamaProvider.AttemptBytes | src/lib/providers/ollamaprovider.py:208-227 | The body bytes written for one attempt are the frames of its encoded records; header writes add none. |
| OllamaProvider.StreamBytes | src/lib/providers/ollamaprovider.py:162-227 | The body bytes streamed over all attempts are the frames of all their records, in order. |
| OllamaProvider.StreamedBodyDecodes | src/lib/providers/ollamaprovider.py:219-231 | A completed streamed body decodes, as a chunked body, to the encoded records of every attempt, provided no record encodes to nothing. |
| OllamaProvider.HeaderCount | src/lib/providers/ollamaprovider.py:208-215 | Within one attempt, headers are written once per record when the counter is 1, and never otherwise. |
| OllamaProvider.StreamHeadersOnlyInFirstAttempt | src/lib/providers/ollamaprovider.py:208-215 | Over a run of attempts, headers are written once per record of attempt 1 and never in a retry. A stream whose first attempt delivered nothing sends frames with no status line. |
| LogSystem.Insert | src/lib/util/logsystem.py:68 | Inserting into an ascending run keeps it ascending and adds exactly the new entry. |
| LogSystem.SortByMtime | src/lib/util/logsystem.py:68 | The sort is ascending by modification time and is a permutation of the listing. |
| LogSystem.Reverse | src/lib/util/logsystem.py:69 | Element i of the reversed list is element n-1-i of the list. |
| LogSystem.ListingNewestFirst | src/lib/util/logsystem.py:66-69 | The listing after sort and reverse is newest first and holds exactly the directory's entries. |
| LogSystem.Prune | src/lib/util/logsystem.py:71-72 | Pruning ends normally iff the limit is non-negative. A negative limit pops the empty list and raises `IndexError`. |
| LogSystem.PruneKeepsPrefix | src/lib/util/logsystem.py:71-72 | With limit ≥ 0, the first min(n, limit) entries are kept and the rest are deleted, last first. With a negative limit, everything is deleted and then the pop fails. |
| LogSystem.RenamesStripOnePrefix | src/lib/util/logsystem.py:76-81 | Every rename is of a listed name starting with `LATEST_` and drops exactly one copy of that prefix. Every such name is renamed. |
| LogSystem.CleanDirectoryCounts | src/lib/util/logsystem.py:57-81 | With limit ≥ 0, exactly max(0, n − limit) files are deleted and no error occurs. With a negative limit, every file is deleted, then `IndexError` stops the function before any rename. Without `rename_from_latest`, nothing is renamed. |
| LogSystem.KeptAreNewest | src/lib/util/logsystem.py:68-72 | Every kept entry is at least as new as every deleted one. |
| LogSystem.PruneLosesNothing | src/lib/util/logsystem.py:66-72 | The kept and deleted entries together are exactly the directory's entries. |
| LogSystem.NothingRemovedUnderLimit | src/lib/util/logsystem.py:71 | A directory with at most `limit` files loses nothing. |
| LogSystem.RenamedAreKept | src/lib/util/logsystem.py:74-81 | Only kept entries are renamed, each losing one `LATEST_`. Every kept name that starts with it is renamed, so deleted entries never are. |
| ModuleDiscovery.ModuleNamesExact | tools/__init__.py:10 | Every `__all__` name plus ".py" is a listed file that ends in ".py" and does not start with "_". Every such file contributes its name. There are no more names than files. |
| ModuleDiscovery.ModuleNamesConcat | configuration/startouts/__init__.py:10 | `__all__` keeps listing order: the names of a split listing are the names of its parts, in order. |
| ModuleDiscovery.InitNeverListed | tools/__init__.py:10-20 | `__init__` is never in `__all__`, so the package never imports itself as a tool module. |
| ModuleDiscovery.ExportsJoin | tools/__init__.py:15-20 | Importing fails iff some module lacks `exports`. Otherwise `exports` is the concatenation of the modules' lists in `__all__` order. |
| ModuleDiscovery.ConcatLength | tools/__init__.py:17-20 | The joined list is as long as all lists together. |
| ModuleDiscovery.ExportsLength | tools/__init__.py:17-20 | When every module has `exports`, `len(exports)` is the sum of the per-module lengths. |

## Left out

- HTTP transport: the server class, header parsing, `send_response` and `wfile`, `run_server` and shutdown. Responses are returned values.
- The fatal reporter (src/lib/firepanic.py): registration failure is returned as `Panicked`, and what the reporter prints is not modelled.
- Real I/O: `open`, `json.load` and `json.dumps`, `os.listdir`, `remove`, `rename`, `getmtime`, `__import__` and `sys.modules` are parameters or abstract maps and sequences.
- JSON encoding and decoding are parameters. JSON numbers are integers only; floating point is not modelled.
- The backend `ollama.chat` and the tool callables are parameters. A tool that raises is not modelled; a backend stream's failure is its `Ending`.
- `thinking` fields of chunks: the code never reads them.
- The persona save and load in base.py are commented out in the code.
- `do_setup`, `setup_logging`, `ConsoleFormatter`, src/core/main.py, src/lib/aiclient.py, src/lib/util/colorclass.py and log_saver.py: wiring, formatting and scripts with no decision logic.
- Concurrency: the server handles one request at a time.
- `search_set_startout`'s 400 branch and the other branches where `removeprefix` raises: a request path is always a string, so they cannot be reached.
- PyStrings.ParseInt: does not model `int()`'s acceptance of surrounding whitespace, digit-separating underscores and non-ASCII Unicode decimal digits, because paths carrying them are not the inputs of interest.
- LogSystem.ListingNewestFirst: the order of entries with equal modification times is not stated, although the insertion sort keeps Python's stable tie order.
- LogSystem.CleanDirectory: `os.remove` and `os.rename` failures are not modelled; deletions and renames are returned as lists.
- Provider.SearchSetStartout: every attribute of a startout file is taken to be a template (a list of messages). `getattr` in src/lib/util/locateutils.py:27 returns any module attribute, so a path such as `/search_set_startout/__name__` stores a string as the template; the model cannot represent that value, nor the later reset that stores it or raises in `update_reset_point`.
- Provider.TemplateMessage: a template message always has a string `content`; the `KeyError` or `AttributeError` that `update_reset_point` raises for a message without one, or with a non-string one, is not modelled.
- Provider.Save: file-system keys are taken to be normalised paths. `.` and `..` segments, doubled slashes, symbolic links and permissions are not modelled, and a path with no parent segment is taken to sit in an existing directory. Provider.Load shares these limits.
- OllamaProvider.Prepare: `tools.exports` is either a flat list of tools or a list of tool lists; a mixture of the two is not modelled.
- Http.ReadOutcome: `ReadKeyError` stands for a `KeyError` raised while reading the body. The headers of `http.server` answer `None` for a missing header, so a request without `Content-Length` is `ReadOtherError`.
- Provider.AssignAt: assignment into a dict history stores the key `str(i)` as JSON encoding would; the integer key itself is not modelled.

## Findings

| source | as written | input that shows it | evidently intended | confidence | as-written member | corrected member |
|---|---|---|---|---|---|---|
| src/lib/providers/base.py:187-206 | `int(path_used.split("/"))[-1]` applies `int()` to a list, which always raises `TypeError`. The except branch writes 400 but does not return, so `del self.conversation[abs_index]` raises because `abs_index` is unbound. PATCH (lines 216-235) has the same fault. | `memory_update` called with command DELETE and path `/memory/0` on a one-message history: 400 is written, then the handler raises, and the message stays. Over HTTP the fault is masked: the server has only `do_GET` and `do_POST` (src/lib/server.py:109, 147), so a DELETE or PATCH request is answered 501 before it reaches the handler (`Server.NoDispatchOutsideGetPost`). | Parse the last path segment, `int(path_used.split("/")[-1])`, and return after the 400 answer. | high, not executed | Provider.DeleteAsWrittenNeverDeletes | Provider.Delete |
| src/lib/providers/ollamaprovider.py:128-131 | tools/__init__.py:20 extends `exports` with each module's list, so each item of `exports` is a tool callable when modules export lists of callables, as the comment at ollamaprovider.py:123-125 says they will. The inner loop `for tool in tool_export` then iterates a callable, which raises `TypeError`. | One tool module with `exports = [get_time]`: every completion request crashes, whatever it asks for. | Iterate the tools of `exports` directly. | medium, not executed | OllamaProvider.FlatExportsCrash | OllamaProvider.ToolNames |
| src/lib/providers/ollamaprovider.py:127-134 | `tool in tools` tests the callable against the decoded JSON, where it never occurs. `v.keys()[0]` indexes a dict keys view, which raises `TypeError`. | A request with `"tools": ["get_time"]` when `get_time` is exported: it gets no tools. | The names of the exported tools whose `__name__` the request lists, in export order. | high, not executed | OllamaProvider.RequestedToolDropped | OllamaProvider.ToolNames |
