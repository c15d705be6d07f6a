/**
 The Ollama provider (src/lib/providers/ollamaprovider.py): the
 configuration merge of `completion`, and `completion_request`, which
 checks the request body, filters the exported tools, calls the backend
 with up to 24 attempts, builds one record per streamed chunk and writes
 the records either as chunked frames or as one JSON array.

 The backend (`ollama.chat`) is a parameter from the attempt number and
 the keyword arguments it receives to what that attempt produced. Tool
 callables and the JSON encoder are parameters too.
 */
module OllamaProvider {
  import opened Values
  import opened PyStrings
  import opened Http
  import opened ChunkedFraming

  // ---------------------------------------------------------------------
  // completion: the configuration merge

  /** The keys `completion` pops out of the caller's configuration. */
  const PoppedKeys: set<string> := {"model", "messages", "stream", "think", "options"}

  /** The model name `completion_request` passes to `completion`. */
  const DefaultModel := "qwen3"

  /** `passed` is what reaches `ollama.chat`; `remaining` is what is left of
      the caller's dict once the five keys are popped. */
  datatype Merge = Merge(passed: map<string, Json>, remaining: map<string, Json>)

  function Completion(model: string, conversation: Json, configuration: map<string, Json>): Merge {
    var remaining := configuration - PoppedKeys;
    var popped := map[
      "model" := Get(configuration, "model", JStr(model)),
      "messages" := Get(configuration, "messages", conversation),
      "stream" := Get(configuration, "stream", JBool(true)),
      "think" := Get(configuration, "think", JBool(true)),
      "options" := Get(configuration, "options", JObj(map[]))];
    Merge(popped + remaining, remaining)
  }

  /** What `completion` passes on: the caller's value for each of the five
      keys, or its default (the model argument, the provider's conversation,
      `True`, `True`, `{}`), together with every other key of the caller's
      dict unchanged; what it leaves in the caller's dict: the other keys. */
  lemma CompletionMerge(model: string, conversation: Json, configuration: map<string, Json>)
    ensures
      var m := Completion(model, conversation, configuration);
      && m.remaining.Keys == configuration.Keys - PoppedKeys
      && (forall k :: k in m.remaining ==> m.remaining[k] == configuration[k])
      && m.passed.Keys == configuration.Keys + PoppedKeys
      && (forall k :: k in configuration ==> m.passed[k] == configuration[k])
      && ("model" !in configuration ==> m.passed["model"] == JStr(model))
      && ("messages" !in configuration ==> m.passed["messages"] == conversation)
      && ("stream" !in configuration ==> m.passed["stream"] == JBool(true))
      && ("think" !in configuration ==> m.passed["think"] == JBool(true))
      && ("options" !in configuration ==> m.passed["options"] == JObj(map[]))
  {
  }

  /** Calling `completion` again on the dict the first call left behind
      passes the defaults for all five keys and pops nothing more: a retry
      has lost the caller's model, messages, stream, think and options. */
  lemma RetryUsesDefaults(model: string, conversation: Json, configuration: map<string, Json>)
    ensures
      var first := Completion(model, conversation, configuration);
      var retry := Completion(model, conversation, first.remaining);
      && retry.remaining == first.remaining
      && PoppedKeys <= retry.passed.Keys
      && retry.passed["model"] == JStr(model)
      && retry.passed["messages"] == conversation
      && retry.passed["stream"] == JBool(true)
      && retry.passed["think"] == JBool(true)
      && retry.passed["options"] == JObj(map[])
      && forall k :: k in configuration && k !in PoppedKeys ==> retry.passed[k] == configuration[k]
  {
    var first := Completion(model, conversation, configuration);
    var retry := Completion(model, conversation, first.remaining);
    CompletionMerge(model, conversation, configuration);
    CompletionMerge(model, conversation, first.remaining);
    assert retry.remaining.Keys == first.remaining.Keys;
  }

  // ---------------------------------------------------------------------
  // The tool filter

  /** An exported tool callable, known by its `__name__`. */
  datatype Tool = Tool(name: string)

  /** Python's `name in container` for a string and a decoded JSON value:
      list membership, dict key, substring; `None` for the `TypeError` the
      other shapes raise. */
  function PyIn(name: string, container: Json): (r: Option<bool>)
    ensures r.None? <==> !(container.JArr? || container.JObj? || container.JStr?)
  {
    match container
    case JArr(items) => Some(JStr(name) in items)
    case JObj(fields) => Some(name in fields)
    case JStr(s) => Some(Occurs(name, s))
    case _ => None
  }

  /** The names of the exported tools the request asked for, in export
      order; `None` when the membership test raises. */
  function ToolNames(tools: seq<Tool>, requested: Json): (r: Option<seq<string>>)
    ensures r.None? <==> |tools| > 0 && PyIn("", requested).None?
    ensures r.Some? ==> |r.value| <= |tools|
    ensures r.Some? ==> forall n :: n in r.value <==>
      exists i :: 0 <= i < |tools| && tools[i].name == n && PyIn(n, requested) == Some(true)
    decreases |tools|
  {
    if tools == [] then Some([])
    else
      var last := tools[|tools| - 1];
      match (ToolNames(tools[..|tools| - 1], requested), PyIn(last.name, requested))
      case (Some(names), Some(found)) =>
        var r := if found then names + [last.name] else names;
        assert forall i :: 0 <= i < |tools| - 1 ==> tools[..|tools| - 1][i] == tools[i];
        Some(r)
      case _ => None
  }

  /** Export order is kept: filtering two export lists one after the other
      is filtering their concatenation. */
  lemma {:induction false} ToolNamesConcat(a: seq<Tool>, b: seq<Tool>, requested: Json)
    requires PyIn("", requested).Some?
    ensures ToolNames(a + b, requested) == Some(ToolNames(a, requested).value + ToolNames(b, requested).value)
    decreases |b|
  {
    if b != [] {
      var b', x := b[..|b| - 1], b[|b| - 1];
      assert (a + b)[..|a + b| - 1] == a + b';
      assert (a + b)[|a + b| - 1] == x;
      ToolNamesConcat(a, b', requested);
      var found := PyIn(x.name, requested).value;
      var A, B' := ToolNames(a, requested).value, ToolNames(b', requested).value;
      assert ToolNames(b, requested).value == if found then B' + [x.name] else B';
      assert ToolNames(a + b, requested).value == if found then A + B' + [x.name] else A + B';
      assert A + B' + [x.name] == A + (B' + [x.name]);
    } else {
      assert a + b == a;
      assert ToolNames(a, requested).value + [] == ToolNames(a, requested).value;
    }
  }

  /** Line 131 as written: the membership test compares the callable
      itself with the decoded JSON. No callable equals a JSON value or is a
      dict key, and strings, numbers, booleans and null raise `TypeError`. */
  function CallableIn(requested: Json): Option<bool> {
    if requested.JArr? || requested.JObj? then Some(false) else None
  }

  /** Lines 127-132 as written: the tools whose callable is `in` the request. */
  function ProvidedAsWritten(tools: seq<Tool>, requested: Json): (r: Option<seq<Tool>>)
    decreases |tools|
  {
    if tools == [] then Some([])
    else
      var head := tools[0];
      match (CallableIn(requested), ProvidedAsWritten(tools[1..], requested))
      case (Some(found), Some(rest)) => Some(if found then [head] + rest else rest)
      case _ => None
  }

  /** What `tools.exports` holds. The package's loader extends one list with
      each module's `exports` (tools/__init__.py), so when modules export
      lists of callables it is `Flat`; when they export lists of tool lists,
      the shape the inner loop of `completion_request` expects, it is
      `Grouped`. */
  datatype ToolExports = Flat(tools: seq<Tool>) | Grouped(groups: seq<seq<Tool>>)

  /** Every exported tool, in export order. */
  function AllTools(exports: ToolExports): seq<Tool> {
    match exports
    case Flat(tools) => tools
    case Grouped(groups) => Concat(groups)
  }

  /** Lines 127-134 as written. The inner loop iterates each item of
      `exports`: a callable is not iterable, so a non-empty flat list raises
      `TypeError`. Then `v.keys()[0]` raises `TypeError` for any provided
      tool, since a dict's keys view cannot be indexed. */
  function ToolNamesAsWritten(exports: ToolExports, requested: Json): Option<seq<string>> {
    var provided := match exports
      case Flat(tools) => if tools == [] then Some([]) else None
      case Grouped(groups) => ProvidedAsWritten(Concat(groups), requested);
    match provided
    case None => None
    case Some(provided) => if provided == [] then Some([]) else None
  }

  /** As written, no request ever gets a tool: the allowed list is empty or
      the request crashes, and it crashes whenever tools are exported as a
      flat list. */
  lemma AsWrittenAllowsNothing(exports: ToolExports, requested: Json)
    ensures ToolNamesAsWritten(exports, requested) ==
      (if AllTools(exports) == [] || (exports.Grouped? && (requested.JArr? || requested.JObj?)) then Some([]) else None)
  {
    if exports.Grouped? {
      ProvidedNeverProvides(Concat(exports.groups), requested);
    }
  }

  lemma {:induction false} ProvidedNeverProvides(tools: seq<Tool>, requested: Json)
    ensures ProvidedAsWritten(tools, requested) == (if tools == [] || requested.JArr? || requested.JObj? then Some([]) else None)
    decreases |tools|
  {
    if tools != [] {
      ProvidedNeverProvides(tools[1..], requested);
    }
  }

  /** The corrected filter allows a requested exported tool. */
  lemma RequestedToolAllowed()
    ensures ToolNames([Tool("get_time")], JArr([JStr("get_time")])) == Some(["get_time"])
  {
    var tools := [Tool("get_time")];
    assert tools[..0] == [];
    assert PyIn("get_time", JArr([JStr("get_time")])) == Some(true);
    assert ToolNames(tools[..0], JArr([JStr("get_time")])) == Some([]);
    assert ToolNames(tools, JArr([JStr("get_time")])) == Some([] + ["get_time"]);
    assert [] + ["get_time"] == ["get_time"];
  }

  /** A request naming an exported tool, the tools grouped as the inner loop
      expects: the corrected filter allows it, the code as written allows
      nothing. */
  lemma RequestedToolDropped()
    ensures ToolNames(AllTools(Grouped([[Tool("get_time")]])), JArr([JStr("get_time")])) == Some(["get_time"])
    ensures ToolNamesAsWritten(Grouped([[Tool("get_time")]]), JArr([JStr("get_time")])) == Some([])
  {
    var groups := [[Tool("get_time")]];
    assert Concat(groups) == Concat(groups[..0]) + groups[0];
    assert Concat(groups) == [Tool("get_time")];
    RequestedToolAllowed();
    ProvidedNeverProvides([Tool("get_time")], JArr([JStr("get_time")]));
  }

  /** One module exporting one tool, joined by the package's loader into a
      flat list: as written every request crashes, whatever it asks for,
      while the corrected filter allows the tool. */
  lemma FlatExportsCrash(requested: Json)
    ensures ToolNamesAsWritten(Flat([Tool("get_time")]), requested).None?
    ensures ToolNames(AllTools(Flat([Tool("get_time")])), JArr([JStr("get_time")])) == Some(["get_time"])
  {
    RequestedToolAllowed();
  }

  /** The tool filter of the code as written, or the corrected one over every
      exported tool. */
  function FilterTools(version: Version, exports: ToolExports, requested: Json): Option<seq<string>> {
    match version
    case AsWritten => ToolNamesAsWritten(exports, requested)
    case Corrected => ToolNames(AllTools(exports), requested)
  }

  // ---------------------------------------------------------------------
  // Request body checks

  const ReadFailed := "Failed to read request."
  const NotJson := "Failed to parse request, not JSON."
  const GenerationFailed := "Failed to generate response."

  /** What the body checks leave: a response that ends the request, an
      exception escaping the handler, or the backend arguments and whether
      the client asked for a stream. */
  datatype Prepared =
    | Rejected(response: Response)
    | Crashed
    | Ready(data: map<string, Json>, streaming: bool)

  /** Lines 77-137 of `completion_request`: read and decode the body, drop
      `stream` and `tools` from it, and add the filtered tool names and
      `stream=True`; the filter is the one as written or the corrected one. */
  function Prepare(read: ReadOutcome, parse: string -> Option<Json>, exports: ToolExports, version: Version): (p: Prepared)
    ensures read.ReadKeyError? ==> p == Rejected(Failure(411, ContentLengthRequired))
    ensures read.ReadValueError? || read.ReadOtherError? ==> p == Rejected(Failure(400, ReadFailed))
    ensures read.ReadText? && parse(read.text).None? ==> p == Rejected(Failure(400, NotJson))
    ensures read.ReadText? && parse(read.text).Some? && !parse(read.text).value.JObj? ==> p.Crashed?
    ensures p.Ready? <==>
      && read.ReadText? && parse(read.text).Some? && parse(read.text).value.JObj?
      && FilterTools(version, exports, Get(parse(read.text).value.fields, "tools", JArr([]))).Some?
    ensures p.Ready? ==>
      var fields := parse(read.text).value.fields;
      && p.streaming == Truthy(Get(fields, "stream", JBool(false)))
      && p.data.Keys == fields.Keys + {"tools", "stream"}
      && p.data["stream"] == JBool(true)
      && p.data["tools"] == JArr(Strings(FilterTools(version, exports, Get(fields, "tools", JArr([]))).value))
      && forall k :: k in fields && k != "tools" && k != "stream" ==> p.data[k] == fields[k]
  {
    match read
    case ReadKeyError => Rejected(Failure(411, ContentLengthRequired))
    case ReadValueError => Rejected(Failure(400, ReadFailed))
    case ReadOtherError => Rejected(Failure(400, ReadFailed))
    case ReadText(text) =>
      match parse(text)
      case None => Rejected(Failure(400, NotJson))
      case Some(JObj(fields)) =>
        (match FilterTools(version, exports, Get(fields, "tools", JArr([])))
         case None => Crashed
         case Some(names) =>
           var data := fields - {"stream", "tools"};
           Ready(data["tools" := JArr(Strings(names))]["stream" := JBool(true)],
                 Truthy(Get(fields, "stream", JBool(false)))))
      case Some(_) => Crashed
  }

  function Strings(names: seq<string>): (r: seq<Json>)
    ensures |r| == |names| && forall i :: 0 <= i < |r| ==> r[i] == JStr(names[i])
  {
    seq(|names|, i requires 0 <= i < |names| => JStr(names[i]))
  }

  /** As written, the backend never receives a tool: whenever the checks
      pass, `tools` is the empty list. */
  lemma PrepareAsWrittenSendsNoTools(read: ReadOutcome, parse: string -> Option<Json>, exports: ToolExports)
    requires Prepare(read, parse, exports, AsWritten).Ready?
    ensures Prepare(read, parse, exports, AsWritten).data["tools"] == JArr([])
  {
    var fields := parse(read.text).value.fields;
    AsWrittenAllowsNothing(exports, Get(fields, "tools", JArr([])));
  }

  // ---------------------------------------------------------------------
  // Chunk records

  datatype ToolCall = ToolCall(name: string, arguments: map<string, Json>)

  /** The message of one streamed chunk: `content` and `tool_calls`, either
      of which may be absent. */
  datatype ChunkMessage = ChunkMessage(content: Option<string>, toolCalls: Option<seq<ToolCall>>)

  /** The dict sent for one chunk; `toolResponses` is present only when it
      is non-empty. */
  datatype Record = Record(content: Option<string>, toolCalls: Option<seq<ToolCall>>, toolResponses: Option<map<string, string>>)

  function ToolResponse(call: ToolCall, run: ToolCall -> string): string {
    call.name + " returned:\n" + run(call)
  }

  /** `tool_responses` after the loop over the chunk's calls: each call
      stores its response under its tool's name. */
  function ToolResponses(calls: seq<ToolCall>, run: ToolCall -> string): map<string, string>
    decreases |calls|
  {
    if calls == [] then map[]
    else
      var last := calls[|calls| - 1];
      ToolResponses(calls[..|calls| - 1], run)[last.name := ToolResponse(last, run)]
  }

  /** One key per tool name called. */
  lemma {:induction false} ToolResponsesKeys(calls: seq<ToolCall>, run: ToolCall -> string)
    ensures ToolResponses(calls, run).Keys == set c | c in calls :: c.name
    decreases |calls|
  {
    if calls != [] {
      var front, last := calls[..|calls| - 1], calls[|calls| - 1];
      ToolResponsesKeys(front, run);
      assert calls == front + [last];
      assert (set c | c in calls :: c.name) == (set c | c in front :: c.name) + {last.name};
    }
  }

  /** Under each name is the response of the last call with that name. */
  lemma {:induction false} ToolResponsesLastWins(calls: seq<ToolCall>, run: ToolCall -> string, i: int)
    requires 0 <= i < |calls|
    requires forall j :: i < j < |calls| ==> calls[j].name != calls[i].name
    ensures calls[i].name in ToolResponses(calls, run)
    ensures ToolResponses(calls, run)[calls[i].name] == ToolResponse(calls[i], run)
    decreases |calls|
  {
    if i < |calls| - 1 {
      var front := calls[..|calls| - 1];
      assert front[i] == calls[i];
      assert calls[|calls| - 1].name != calls[i].name;
      ToolResponsesLastWins(front, run, i);
    }
  }

  function MakeRecord(chunk: ChunkMessage, run: ToolCall -> string): Record {
    var responses := match chunk.toolCalls
      case Some(calls) => ToolResponses(calls, run)
      case None => map[];
    if chunk.toolCalls.Some? && |chunk.toolCalls.value| > 0 then
      Record(chunk.content, chunk.toolCalls, Some(responses))
    else Record(chunk.content, chunk.toolCalls, None)
  }

  /** A record keeps the chunk's content and tool calls, and has tool
      responses exactly when the chunk made at least one call, with a
      response for every tool called. */
  lemma MakeRecordFields(chunk: ChunkMessage, run: ToolCall -> string)
    ensures
      var r := MakeRecord(chunk, run);
      && r.content == chunk.content && r.toolCalls == chunk.toolCalls
      && (r.toolResponses.Some? <==> chunk.toolCalls.Some? && |chunk.toolCalls.value| > 0)
      && (r.toolResponses.Some? ==> forall c :: c in chunk.toolCalls.value ==> c.name in r.toolResponses.value)
  {
    if chunk.toolCalls.Some? {
      ToolResponsesKeys(chunk.toolCalls.value, run);
    }
  }

  /** A later call with the same name overwrites an earlier one's response. */
  lemma LaterCallWins(first: ToolCall, second: ToolCall, run: ToolCall -> string)
    requires first.name == second.name
    ensures ToolResponses([first, second], run) == map[second.name := ToolResponse(second, run)]
  {
    assert [first, second][..1] == [first];
    assert [first][..0] == [];
    assert ToolResponses([first], run) == map[first.name := ToolResponse(first, run)];
  }

  // ---------------------------------------------------------------------
  // Attempts and what is written

  /** How an attempt's stream ended. */
  datatype Ending = Completed | RuntimeFailure | OtherFailure

  /** What one call of the backend produced: a falsy completion, or the
      chunks it delivered before it ended (a call that raises at once has no
      chunks). */
  datatype Attempt =
    | Blank
    | Streamed(chunks: seq<ChunkMessage>, ending: Ending)

  /** The attempts that consume a try and lead to the next one. */
  predicate Retried(a: Attempt) {
    a.Blank? || a.ending == RuntimeFailure
  }

  /** The records built from one attempt's chunks, one per chunk. */
  function RecordsOf(a: Attempt, run: ToolCall -> string): seq<Record> {
    if a.Blank? then [] else MakeRecords(a.chunks, run)
  }

  function MakeRecords(chunks: seq<ChunkMessage>, run: ToolCall -> string): (rs: seq<Record>)
    ensures |rs| == |chunks|
    decreases |chunks|
  {
    if chunks == [] then [] else [MakeRecord(chunks[0], run)] + MakeRecords(chunks[1..], run)
  }

  /** The records of a run of attempts, in order; `result` is never cleared. */
  function AllRecords(attempts: seq<Attempt>, run: ToolCall -> string): seq<Record>
    decreases |attempts|
  {
    if attempts == [] then [] else RecordsOf(attempts[0], run) + AllRecords(attempts[1..], run)
  }

  /** One write of the handler. */
  datatype Output =
    /** A complete response with its own status line. */
    | Sent(response: Response)
    /** Status 200 with `Transfer-Encoding: chunked`, headers ended. */
    | StreamHeaders
    /** One chunk of the chunked body carrying `payload`: its size line, the
        payload and CRLF. */
    | ChunkOf(payload: seq<byte>)
    /** The last chunk `0\r\n\r\n` that ends the chunked body. */
    | LastChunk
    /** Status 200 whose body is the JSON array of the records. */
    | SentRecords(records: seq<Record>)

  /** The streaming writes for the records of one attempt: each record's
      frame, preceded by a fresh set of headers while the counter is 1. */
  function AttemptWrites(records: seq<Record>, first: bool, encode: Record -> seq<byte>): seq<Output>
    decreases |records|
  {
    if records == [] then []
    else (if first then [StreamHeaders] else []) + [ChunkOf(encode(records[0]))] + AttemptWrites(records[1..], first, encode)
  }

  /** The streaming writes of a run of attempts; `first` says whether the
      run starts with attempt 1. */
  function StreamWrites(attempts: seq<Attempt>, first: bool, run: ToolCall -> string, encode: Record -> seq<byte>): seq<Output>
    decreases |attempts|
  {
    if attempts == [] then []
    else AttemptWrites(RecordsOf(attempts[0], run), first, encode) + StreamWrites(attempts[1..], false, run, encode)
  }

  // ---------------------------------------------------------------------
  // completion_request

  datatype Outcome = Outcome(
    writes: seq<Output>,
    /** The keyword arguments of each backend call, in order. */
    calls: seq<map<string, Json>>,
    /** What each backend call produced. */
    attempts: seq<Attempt>,
    /** The records built, across the attempts. */
    records: seq<Record>,
    /** An exception escaped the handler. */
    escaped: bool)

  /** The counter starts at 1 and the loop runs while it is below 25. */
  const LastAttempt := 24

  /** What the retry loop works with besides its counter: the provider's
      conversation, the client's `stream` flag, the backend, the tool
      runner and the JSON encoder. */
  datatype Env = Env(
    conversation: Json,
    streaming: bool,
    backend: (nat, map<string, Json>) -> Attempt,
    run: ToolCall -> string,
    encode: Record -> seq<byte>)

  /** One try of the loop: what `completion` makes of what is left of the
      request dict, the backend's answer to the arguments it passes, and the
      records built from that answer's chunks. */
  datatype Try = Try(merge: Merge, attempt: Attempt, records: seq<Record>)

  function MakeTry(env: Env, count: nat, left: map<string, Json>): Try {
    var merge := Completion(DefaultModel, env.conversation, left);
    var a := env.backend(count, merge.passed);
    Try(merge, a, RecordsOf(a, env.run))
  }

  /** A try that leads to another: `RuntimeError` or a falsy completion,
      with the counter still below 24. */
  predicate Continues(t: Try, count: nat) {
    Retried(t.attempt) && count < LastAttempt
  }

  /** What the handler writes once the loop is over: the 500 after a
      retried attempt 24, nothing after an escaping exception, and on
      completion the last chunk (streaming) or the array of all records. */
  function Closing(env: Env, last: Attempt, records: seq<Record>): seq<Output> {
    if Retried(last) then [Sent(Failure(500, GenerationFailed))]
    else if last.ending == OtherFailure then []
    else if env.streaming then [LastChunk]
    else [SentRecords(records)]
  }

  /** The retry loop of `completion_request` from attempt `count` on:
      `left` is what remains of the request dict (each call of `completion`
      pops from it) and `prior` the records built by earlier attempts. The
      loop stops at the first attempt that completes or raises something
      other than `RuntimeError`, and answers 500 after the last attempt. */
  function RetryLoop(env: Env, count: nat, left: map<string, Json>, prior: seq<Record>): (o: Outcome)
    requires 1 <= count <= LastAttempt
    ensures 1 <= |o.calls| <= LastAttempt + 1 - count && |o.attempts| == |o.calls|
    decreases LastAttempt - count, 1
  {
    AfterTry(env, count, MakeTry(env, count, left), prior)
  }

  /** The rest of one turn of the loop once try `t` is made: its chunks are
      written when streaming, then either the next turn runs on the
      leftovers or the loop ends. */
  function AfterTry(env: Env, count: nat, t: Try, prior: seq<Record>): (o: Outcome)
    requires 1 <= count <= LastAttempt
    ensures 1 <= |o.calls| <= LastAttempt + 1 - count && |o.attempts| == |o.calls|
    decreases LastAttempt - count, 0
  {
    var ws := if env.streaming then AttemptWrites(t.records, count == 1, env.encode) else [];
    if Continues(t, count) then
      var rest := RetryLoop(env, count + 1, t.merge.remaining, prior + t.records);
      Outcome(ws + rest.writes, [t.merge.passed] + rest.calls, [t.attempt] + rest.attempts, t.records + rest.records, rest.escaped)
    else
      var escaped := t.attempt.Streamed? && t.attempt.ending == OtherFailure;
      Outcome(ws + Closing(env, t.attempt, prior + t.records), [t.merge.passed], [t.attempt], t.records, escaped)
  }

  /** The shape of one turn: a try that continues puts its call, attempt
      and records in front of the next turn's; any other try is the last. */
  lemma RetryShape(env: Env, count: nat, left: map<string, Json>, prior: seq<Record>)
    requires 1 <= count <= LastAttempt
    ensures
      var o := RetryLoop(env, count, left, prior);
      var t := MakeTry(env, count, left);
      if Continues(t, count) then
        var rest := RetryLoop(env, count + 1, t.merge.remaining, prior + t.records);
        && o.calls == [t.merge.passed] + rest.calls && o.attempts == [t.attempt] + rest.attempts
        && o.records == t.records + rest.records && o.escaped == rest.escaped
      else
        && o.calls == [t.merge.passed] && o.attempts == [t.attempt] && o.records == t.records
        && o.escaped == (t.attempt.Streamed? && t.attempt.ending == OtherFailure)
  {
  }

  /** The first call gets what `completion` makes of the request dict; every
      retry gets what it makes of the leftovers, i.e. the defaults for the
      five popped keys. */
  lemma {:induction false} RetryCalls(env: Env, count: nat, left: map<string, Json>, prior: seq<Record>)
    requires 1 <= count <= LastAttempt
    ensures
      var o := RetryLoop(env, count, left, prior);
      var first := Completion(DefaultModel, env.conversation, left);
      && o.calls[0] == first.passed
      && forall i :: 1 <= i < |o.calls| ==> o.calls[i] == Completion(DefaultModel, env.conversation, first.remaining).passed
    decreases LastAttempt - count
  {
    var t := MakeTry(env, count, left);
    if Continues(t, count) {
      var rest := RetryLoop(env, count + 1, t.merge.remaining, prior + t.records);
      RetryCalls(env, count + 1, t.merge.remaining, prior + t.records);
      RetryUsesDefaults(DefaultModel, env.conversation, left);
      var o := AfterTry(env, count, t, prior);
      assert o.calls == [t.merge.passed] + rest.calls;
      forall i | 1 <= i < |o.calls|
        ensures o.calls[i] == Completion(DefaultModel, env.conversation, t.merge.remaining).passed
      {
        assert o.calls[i] == rest.calls[i - 1];
      }
    }
  }

  /** Attempt `count + i` is the backend's answer to call `i`. */
  predicate Answered(env: Env, count: nat, calls: seq<map<string, Json>>, attempts: seq<Attempt>) {
    |attempts| == |calls| && forall i :: 0 <= i < |calls| ==> attempts[i] == env.backend(count + i, calls[i])
  }

  /** Every attempt but the last was retried. */
  predicate RetriedBeforeLast(attempts: seq<Attempt>) {
    forall i :: 0 <= i < |attempts| - 1 ==> Retried(attempts[i])
  }

  lemma AnsweredCons(env: Env, count: nat, call: map<string, Json>, a: Attempt, calls: seq<map<string, Json>>, attempts: seq<Attempt>)
    requires a == env.backend(count, call) && Answered(env, count + 1, calls, attempts)
    requires Retried(a) && RetriedBeforeLast(attempts)
    ensures Answered(env, count, [call] + calls, [a] + attempts) && RetriedBeforeLast([a] + attempts)
  {
    forall i | 1 <= i < |calls| + 1
      ensures ([a] + attempts)[i] == env.backend(count + i, ([call] + calls)[i])
    {
      assert count + 1 + (i - 1) == count + i;
    }
  }

  /** Attempt `count + i` is the backend's answer to call `i`, and every
      attempt but the last was retried. */
  lemma {:induction false} RetryAttempts(env: Env, count: nat, left: map<string, Json>, prior: seq<Record>)
    requires 1 <= count <= LastAttempt
    ensures
      var o := RetryLoop(env, count, left, prior);
      Answered(env, count, o.calls, o.attempts) && RetriedBeforeLast(o.attempts)
    decreases LastAttempt - count
  {
    var t := MakeTry(env, count, left);
    if Continues(t, count) {
      var rest := RetryLoop(env, count + 1, t.merge.remaining, prior + t.records);
      RetryAttempts(env, count + 1, t.merge.remaining, prior + t.records);
      AnsweredCons(env, count, t.merge.passed, t.attempt, rest.calls, rest.attempts);
    }
  }

  /** How the loop ended: an escaping exception exactly when the last
      attempt raised something other than `RuntimeError`; a retried last
      attempt only when it was attempt 24. */
  lemma {:induction false} RetryEnding(env: Env, count: nat, left: map<string, Json>, prior: seq<Record>)
    requires 1 <= count <= LastAttempt
    ensures
      var o := RetryLoop(env, count, left, prior);
      var last := o.attempts[|o.attempts| - 1];
      && (o.escaped <==> last.Streamed? && last.ending == OtherFailure)
      && (Retried(last) ==> |o.calls| == LastAttempt + 1 - count)
    decreases LastAttempt - count
  {
    var t := MakeTry(env, count, left);
    var o := AfterTry(env, count, t, prior);
    if Continues(t, count) {
      var rest := RetryLoop(env, count + 1, t.merge.remaining, prior + t.records);
      RetryEnding(env, count + 1, t.merge.remaining, prior + t.records);
      assert o.attempts == [t.attempt] + rest.attempts;
      assert o.attempts[|o.attempts| - 1] == rest.attempts[|rest.attempts| - 1];
    }
  }

  /** The records of a run of attempts start with those of its first. */
  lemma AllRecordsCons(a: Attempt, rest: seq<Attempt>, run: ToolCall -> string)
    ensures AllRecords([a] + rest, run) == RecordsOf(a, run) + AllRecords(rest, run)
  {
    assert ([a] + rest)[1..] == rest;
  }

  /** The records are those of every attempt made, in order: the records of
      failed attempts stay in `result`. */
  lemma {:induction false} RetryRecords(env: Env, count: nat, left: map<string, Json>, prior: seq<Record>)
    requires 1 <= count <= LastAttempt
    ensures
      var o := RetryLoop(env, count, left, prior);
      o.records == AllRecords(o.attempts, env.run)
    decreases LastAttempt - count
  {
    var t := MakeTry(env, count, left);
    if Continues(t, count) {
      var rest := RetryLoop(env, count + 1, t.merge.remaining, prior + t.records);
      RetryRecords(env, count + 1, t.merge.remaining, prior + t.records);
      RetryShape(env, count, left, prior);
      AllRecordsCons(t.attempt, rest.attempts, env.run);
    } else {
      RetryShape(env, count, left, prior);
      AllRecordsCons(t.attempt, [], env.run);
    }
  }

  /** The streaming writes of the attempts from `count` on, if the client
      asked for a stream. */
  function Streamed(env: Env, attempts: seq<Attempt>, count: nat): seq<Output> {
    if env.streaming then StreamWrites(attempts, count == 1, env.run, env.encode) else []
  }

  lemma StreamedSingle(env: Env, a: Attempt, count: nat)
    ensures Streamed(env, [a], count) == if env.streaming then AttemptWrites(RecordsOf(a, env.run), count == 1, env.encode) else []
  {
    assert StreamWrites([a], count == 1, env.run, env.encode) == AttemptWrites(RecordsOf(a, env.run), count == 1, env.encode) + [];
  }

  /** The writes of one attempt put in front of the writes of the attempts
      after it keep the shape `RetryWrites` states. */
  lemma WritesCompose(env: Env, a: Attempt, count: nat, rest: seq<Attempt>, restWrites: seq<Output>,
                      prior: seq<Record>, restRecords: seq<Record>)
    requires count >= 1 && |rest| > 0
    requires restWrites == Streamed(env, rest, count + 1) + Closing(env, rest[|rest| - 1], prior + RecordsOf(a, env.run) + restRecords)
    ensures
      var ws := if env.streaming then AttemptWrites(RecordsOf(a, env.run), count == 1, env.encode) else [];
      var attempts := [a] + rest;
      ws + restWrites == Streamed(env, attempts, count) + Closing(env, attempts[|attempts| - 1], prior + (RecordsOf(a, env.run) + restRecords))
  {
    var attempts := [a] + rest;
    assert attempts[1..] == rest;
    assert attempts[|attempts| - 1] == rest[|rest| - 1];
    assert prior + RecordsOf(a, env.run) + restRecords == prior + (RecordsOf(a, env.run) + restRecords);
  }

  /** What is written: the chunks of every attempt's records (when
      streaming), then what the way the loop ended calls for. */
  lemma {:induction false} RetryWrites(env: Env, count: nat, left: map<string, Json>, prior: seq<Record>)
    requires 1 <= count <= LastAttempt
    ensures
      var o := RetryLoop(env, count, left, prior);
      o.writes == Streamed(env, o.attempts, count) + Closing(env, o.attempts[|o.attempts| - 1], prior + o.records)
    decreases LastAttempt - count
  {
    var t := MakeTry(env, count, left);
    if Continues(t, count) {
      var rest := RetryLoop(env, count + 1, t.merge.remaining, prior + t.records);
      RetryWrites(env, count + 1, t.merge.remaining, prior + t.records);
      WritesCompose(env, t.attempt, count, rest.attempts, rest.writes, prior, rest.records);
    } else {
      StreamedSingle(env, t.attempt, count);
    }
  }

  /** `completion_request`: a body that fails the checks is answered (or
      crashes the handler) before any backend call; otherwise the retry
      loop runs from attempt 1 on the prepared arguments. */
  function CompletionRequest(read: ReadOutcome, parse: string -> Option<Json>, exports: ToolExports, version: Version,
                             conversation: Json, backend: (nat, map<string, Json>) -> Attempt,
                             run: ToolCall -> string, encode: Record -> seq<byte>): (o: Outcome)
    ensures Prepare(read, parse, exports, version).Rejected? ==> o == Outcome([Sent(Prepare(read, parse, exports, version).response)], [], [], [], false)
    ensures Prepare(read, parse, exports, version).Crashed? ==> o == Outcome([], [], [], [], true)
    ensures Prepare(read, parse, exports, version).Ready? ==> 1 <= |o.calls| <= LastAttempt && |o.attempts| == |o.calls|
  {
    match Prepare(read, parse, exports, version)
    case Rejected(response) => Outcome([Sent(response)], [], [], [], false)
    case Crashed => Outcome([], [], [], [], true)
    case Ready(data, streaming) => RetryLoop(Env(conversation, streaming, backend, run, encode), 1, data, [])
  }

  /** Every backend call of the loop streams when the dict it starts from
      asks for a stream or says nothing about it, and every retry asks for
      the default model. */
  lemma LoopAlwaysStreams(env: Env, count: nat, left: map<string, Json>, prior: seq<Record>)
    requires 1 <= count <= LastAttempt
    requires "stream" in left ==> left["stream"] == JBool(true)
    ensures
      var o := RetryLoop(env, count, left, prior);
      && (forall i :: 0 <= i < |o.calls| ==> "stream" in o.calls[i] && o.calls[i]["stream"] == JBool(true))
      && (forall i :: 1 <= i < |o.calls| ==> "model" in o.calls[i] && o.calls[i]["model"] == JStr(DefaultModel))
  {
    var first := Completion(DefaultModel, env.conversation, left);
    var retry := Completion(DefaultModel, env.conversation, first.remaining);
    RetryCalls(env, count, left, prior);
    CompletionMerge(DefaultModel, env.conversation, left);
    CompletionMerge(DefaultModel, env.conversation, first.remaining);
    RetryUsesDefaults(DefaultModel, env.conversation, left);
    assert "stream" in first.passed && first.passed["stream"] == JBool(true);
    assert "stream" in retry.passed && "model" in retry.passed;
  }

  /** Whatever the client sends, every backend call streams, and only the
      first call can carry the client's model. */
  lemma BackendAlwaysStreams(read: ReadOutcome, parse: string -> Option<Json>, exports: ToolExports, version: Version,
                             conversation: Json, backend: (nat, map<string, Json>) -> Attempt,
                             run: ToolCall -> string, encode: Record -> seq<byte>)
    requires Prepare(read, parse, exports, version).Ready?
    ensures
      var o := CompletionRequest(read, parse, exports, version, conversation, backend, run, encode);
      && (forall i :: 0 <= i < |o.calls| ==> "stream" in o.calls[i] && o.calls[i]["stream"] == JBool(true))
      && (forall i :: 1 <= i < |o.calls| ==> "model" in o.calls[i] && o.calls[i]["model"] == JStr(DefaultModel))
  {
    var p := Prepare(read, parse, exports, version);
    var env := Env(conversation, p.streaming, backend, run, encode);
    assert p.data["stream"] == JBool(true);
    assert CompletionRequest(read, parse, exports, version, conversation, backend, run, encode) == RetryLoop(env, 1, p.data, []);
    LoopAlwaysStreams(env, 1, p.data, []);
  }

  // ---------------------------------------------------------------------
  // Properties of the writes

  /** The bytes of the chunked body among some writes, in order. */
  function WrittenBytes(writes: seq<Output>): seq<byte>
    decreases |writes|
  {
    if writes == [] then []
    else BytesOf(writes[0]) + WrittenBytes(writes[1..])
  }

  /** The bytes one write adds to the chunked body. */
  function BytesOf(w: Output): seq<byte> {
    match w
    case ChunkOf(payload) => Frame(payload)
    case LastChunk => Terminator
    case _ => []
  }

  lemma {:induction false} WrittenBytesConcat(a: seq<Output>, b: seq<Output>)
    ensures WrittenBytes(a + b) == WrittenBytes(a) + WrittenBytes(b)
    decreases |a|
  {
    if a == [] {
      assert a + b == b;
    } else {
      assert (a + b)[0] == a[0];
      assert (a + b)[1..] == a[1..] + b;
      WrittenBytesConcat(a[1..], b);
    }
  }

  function Encoded(records: seq<Record>, encode: Record -> seq<byte>): (ps: seq<seq<byte>>)
    ensures |ps| == |records| && forall i :: 0 <= i < |ps| ==> ps[i] == encode(records[i])
  {
    seq(|records|, i requires 0 <= i < |records| => encode(records[i]))
  }

  lemma {:induction false} FramesConcat(a: seq<seq<byte>>, b: seq<seq<byte>>)
    ensures Frames(a + b) == Frames(a) + Frames(b)
    decreases |a|
  {
    if a == [] {
      assert a + b == b;
    } else {
      assert (a + b)[1..] == a[1..] + b;
      FramesConcat(a[1..], b);
    }
  }

  /** The bytes written for an attempt's records are those records' frames. */
  lemma {:induction false} AttemptBytes(records: seq<Record>, first: bool, encode: Record -> seq<byte>)
    ensures WrittenBytes(AttemptWrites(records, first, encode)) == Frames(Encoded(records, encode))
    decreases |records|
  {
    if records != [] {
      var head := (if first then [StreamHeaders] else []) + [ChunkOf(encode(records[0]))];
      var tail := AttemptWrites(records[1..], first, encode);
      assert AttemptWrites(records, first, encode) == head + tail;
      WrittenBytesConcat(head, tail);
      assert WrittenBytes(head) == Frame(encode(records[0])) by {
        if first {
          assert head[1..] == [ChunkOf(encode(records[0]))];
          assert head[1..][1..] == [];
        } else {
          assert head[1..] == [];
        }
      }
      AttemptBytes(records[1..], first, encode);
      assert Encoded(records, encode)[1..] == Encoded(records[1..], encode);
    }
  }

  lemma EncodedConcat(a: seq<Record>, b: seq<Record>, encode: Record -> seq<byte>)
    ensures Encoded(a + b, encode) == Encoded(a, encode) + Encoded(b, encode)
  {
  }

  /** The streaming writes of a run start with those of its first attempt. */
  lemma StreamWritesUnfold(attempts: seq<Attempt>, first: bool, run: ToolCall -> string, encode: Record -> seq<byte>)
    requires attempts != []
    ensures StreamWrites(attempts, first, run, encode)
         == AttemptWrites(RecordsOf(attempts[0], run), first, encode) + StreamWrites(attempts[1..], false, run, encode)
    ensures AllRecords(attempts, run) == RecordsOf(attempts[0], run) + AllRecords(attempts[1..], run)
  {
  }

  /** The bytes streamed over a run of attempts are the frames of all their
      records, in order. */
  lemma {:induction false} StreamBytes(attempts: seq<Attempt>, first: bool, run: ToolCall -> string, encode: Record -> seq<byte>)
    ensures WrittenBytes(StreamWrites(attempts, first, run, encode)) == Frames(Encoded(AllRecords(attempts, run), encode))
    decreases |attempts|
  {
    if attempts != [] {
      var recs, later := RecordsOf(attempts[0], run), AllRecords(attempts[1..], run);
      var head, tail := AttemptWrites(recs, first, encode), StreamWrites(attempts[1..], false, run, encode);
      StreamWritesUnfold(attempts, first, run, encode);
      WrittenBytesConcat(head, tail);
      AttemptBytes(recs, first, encode);
      StreamBytes(attempts[1..], false, run, encode);
      EncodedConcat(recs, later, encode);
      FramesConcat(Encoded(recs, encode), Encoded(later, encode));
    }
  }

  /** A completed streaming body decodes, as a chunked body, to the encoded
      records of every attempt, provided no record encodes to nothing. */
  lemma StreamedBodyDecodes(attempts: seq<Attempt>, run: ToolCall -> string, encode: Record -> seq<byte>)
    requires forall r :: |encode(r)| > 0
    ensures DecodeStream(WrittenBytes(StreamWrites(attempts, true, run, encode) + [LastChunk]))
         == Some(Encoded(AllRecords(attempts, run), encode))
  {
    var ws := StreamWrites(attempts, true, run, encode);
    WrittenBytesConcat(ws, [LastChunk]);
    assert WrittenBytes([LastChunk]) == Terminator by {
      assert [LastChunk][1..] == [];
    }
    StreamBytes(attempts, true, run, encode);
    StreamRoundTrip(Encoded(AllRecords(attempts, run), encode));
  }

  /** Headers go out once per chunk of attempt 1 and never again: a
      streaming request whose first attempt delivered no chunk gets no status
      line before its frames. */
  lemma {:induction false} HeaderCount(records: seq<Record>, first: bool, encode: Record -> seq<byte>)
    ensures multiset(AttemptWrites(records, first, encode))[StreamHeaders] == if first then |records| else 0
    decreases |records|
  {
    if records != [] {
      HeaderCount(records[1..], first, encode);
    }
  }

  lemma {:induction false} StreamHeadersOnlyInFirstAttempt(attempts: seq<Attempt>, first: bool, run: ToolCall -> string, encode: Record -> seq<byte>)
    requires |attempts| > 0
    ensures multiset(StreamWrites(attempts, first, run, encode))[StreamHeaders] == if first then |RecordsOf(attempts[0], run)| else 0
    decreases |attempts|
  {
    HeaderCount(RecordsOf(attempts[0], run), first, encode);
    if |attempts| > 1 {
      StreamHeadersOnlyInFirstAttempt(attempts[1..], false, run, encode);
    }
  }
}
