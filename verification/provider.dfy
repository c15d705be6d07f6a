/**
 The conversation state of an AI provider (src/lib/providers/base.py):
 its message history, the startout template it resets to, the ordered
 system replacements applied to that template, the startout
 configuration selector, and the directory memories are saved in.

 Every operation is a function from the state (and the request's method,
 path and body) to the next state and what the handler answered. The
 history is any JSON value: PUT and load store whatever the client sent.
 */
module Provider {
  import opened Values
  import opened PyStrings
  import opened Http
  import Locate

  /** One message of a startout template: its `content` string and its
      other fields. */
  datatype TemplateMessage = TemplateMessage(content: string, fields: map<string, Json>)

  function MessageJson(m: TemplateMessage): Json {
    JObj(m.fields["content" := JStr(m.content)])
  }

  function TemplateJson(t: seq<TemplateMessage>): (js: seq<Json>)
    ensures |js| == |t|
  {
    seq(|t|, i requires 0 <= i < |t| => MessageJson(t[i]))
  }

  datatype Conversation = Conversation(
    history: Json,
    resetPoint: seq<TemplateMessage>,
    systemReplacements: seq<(string, string)>,
    startoutConfiguration: int,
    memoryDir: string)

  /** What an operation leaves behind: the new state and the handler's reply. */
  datatype Step = Step(conversation: Conversation, reply: Reply)

  // ---------------------------------------------------------------------
  // Template substitution

  /** One content string after every replacement, applied one after the
      other: later keys are matched against the output of earlier ones. */
  function Substitute(content: string, replacements: seq<(string, string)>): string
    decreases |replacements|
  {
    if replacements == [] then content
    else Substitute(Replace(content, replacements[0].0, replacements[0].1), replacements[1..])
  }

  /** The inner loop: `message["content"] = message["content"].replace(key, value)` for every message. */
  function ReplaceInAll(messages: seq<TemplateMessage>, key: string, value: string): (r: seq<TemplateMessage>)
    ensures |r| == |messages|
    ensures forall i :: 0 <= i < |r| ==>
      r[i] == messages[i].(content := Replace(messages[i].content, key, value))
  {
    seq(|messages|, i requires 0 <= i < |messages| =>
      messages[i].(content := Replace(messages[i].content, key, value)))
  }

  /** A key that occurs in no message leaves every message as it was. */
  lemma ReplaceInAllUnmatched(messages: seq<TemplateMessage>, key: string, value: string)
    requires key != []
    requires forall i :: 0 <= i < |messages| ==> !Occurs(key, messages[i].content)
    ensures ReplaceInAll(messages, key, value) == messages
  {
    forall i | 0 <= i < |messages|
      ensures Replace(messages[i].content, key, value) == messages[i].content
    {
      ReplaceAbsent(messages[i].content, key, value);
    }
  }

  /** The outer loop of `update_reset_point`, over the replacements in order. */
  function ApplyReplacements(messages: seq<TemplateMessage>, replacements: seq<(string, string)>): (r: seq<TemplateMessage>)
    ensures |r| == |messages|
    ensures forall i :: 0 <= i < |r| ==>
      r[i].fields == messages[i].fields && r[i].content == Substitute(messages[i].content, replacements)
    decreases |replacements|
  {
    if replacements == [] then messages
    else ApplyReplacements(ReplaceInAll(messages, replacements[0].0, replacements[0].1), replacements[1..])
  }

  /** `update_reset_point`: a copy of the template with every message's
      content substituted; the stored template itself is not touched. */
  function UpdateResetPoint(c: Conversation): (r: seq<TemplateMessage>)
    ensures |r| == |c.resetPoint|
    ensures forall i :: 0 <= i < |r| ==>
      && r[i].fields == c.resetPoint[i].fields
      && r[i].content == Substitute(c.resetPoint[i].content, c.systemReplacements)
  {
    ApplyReplacements(c.resetPoint, c.systemReplacements)
  }

  /** With no replacements the substituted template equals the template. */
  lemma NoReplacementsCopy(c: Conversation)
    requires c.systemReplacements == []
    ensures UpdateResetPoint(c) == c.resetPoint
  {
    var r := UpdateResetPoint(c);
    assert forall i :: 0 <= i < |r| ==> r[i] == c.resetPoint[i];
  }

  /** Replacements that map each key to itself change no content. */
  lemma {:induction false} SubstituteIdentity(content: string, replacements: seq<(string, string)>)
    requires forall j :: 0 <= j < |replacements| ==> replacements[j].0 == replacements[j].1
    ensures Substitute(content, replacements) == content
    decreases |replacements|
  {
    if replacements != [] {
      ReplaceIdentity(content, replacements[0].0);
      SubstituteIdentity(content, replacements[1..]);
    }
  }

  /** With replacements that map each key to itself, the substituted template
      is the template. */
  lemma IdentityReplacementsCopy(c: Conversation)
    requires forall j :: 0 <= j < |c.systemReplacements| ==> c.systemReplacements[j].0 == c.systemReplacements[j].1
    ensures UpdateResetPoint(c) == c.resetPoint
  {
    var r := UpdateResetPoint(c);
    forall i | 0 <= i < |r|
      ensures r[i] == c.resetPoint[i]
    {
      SubstituteIdentity(c.resetPoint[i].content, c.systemReplacements);
    }
  }

  /** An illustration that replacements are sequential: `{"a": "b", "b": "c"}`
      turns "a" into "c". */
  lemma SequentialReplacements()
    ensures Substitute("a", [("a", "b"), ("b", "c")]) == "c"
  {
    assert Replace("a", "a", "b") == "b" by {
      assert StartsWith("a", "a");
      assert Replace("", "a", "b") == "";
    }
    assert Replace("b", "b", "c") == "c" by {
      assert StartsWith("b", "b");
      assert Replace("", "b", "c") == "";
    }
  }

  /** The constructor: history starts as the substituted template. */
  function NewConversation(resetPoint: seq<TemplateMessage>, systemReplacements: seq<(string, string)>, startoutConfiguration: int, memoryDir: string): (c: Conversation)
    ensures c.resetPoint == resetPoint && c.systemReplacements == systemReplacements
    ensures c.history == JArr(TemplateJson(UpdateResetPoint(c)))
  {
    var c0 := Conversation(JNull, resetPoint, systemReplacements, startoutConfiguration, memoryDir);
    c0.(history := JArr(TemplateJson(UpdateResetPoint(c0))))
  }

  // ---------------------------------------------------------------------
  // reset

  /** `reset`: the history becomes the substituted template, whatever it was. */
  function Reset(c: Conversation): (s: Step)
    ensures s.conversation.(history := c.history) == c
    ensures s.conversation.history.JArr?
    ensures |s.conversation.history.items| == |c.resetPoint|
    ensures forall i :: 0 <= i < |c.resetPoint| ==>
      s.conversation.history.items[i] == MessageJson(c.resetPoint[i].(content := Substitute(c.resetPoint[i].content, c.systemReplacements)))
    ensures s.reply == Answer(Response(200, NoBody))
  {
    var substituted := UpdateResetPoint(c);
    assert forall i :: 0 <= i < |substituted| ==>
      substituted[i] == c.resetPoint[i].(content := Substitute(c.resetPoint[i].content, c.systemReplacements));
    Step(c.(history := JArr(TemplateJson(substituted))), Answer(Response(200, NoBody)))
  }

  /** Two conversations that differ only in their history reset to the same state. */
  lemma ResetForgetsHistory(c: Conversation, other: Json)
    ensures Reset(c.(history := other)) == Reset(c)
  {
  }

  // ---------------------------------------------------------------------
  // memory_update

  const InvalidIndex := "Request did not have a valid index."
  const InvalidVerb := "Invalid request. How did you get this error?"

  /** The decoded request body of a memory request: `None` when reading or
      decoding raised `ValueError` (which answers 411), JSON null (Python's
      `None`) when reading raised anything else. */
  function MemoryBody(body: ReadOutcome, decode: string -> Option<Json>): Option<Json> {
    match body
    case ReadValueError => None
    case ReadKeyError => Some(JNull)
    case ReadOtherError => Some(JNull)
    case ReadText(text) => decode(text)
  }

  /** `len(value)`, `None` where Python raises `TypeError`. */
  function Size(j: Json): Option<nat> {
    match j
    case JArr(items) => Some(|items|)
    case JObj(fields) => Some(|fields|)
    case JStr(s) => Some(|s|)
    case _ => None
  }

  /** `abs(index)`, less one for a negative index: -1 and 0 both give 0. */
  function ResolveIndex(n: int): (r: nat)
    ensures n >= 0 ==> r == n
    ensures n < 0 ==> r + 1 == -n
  {
    if n < 0 then -n - 1 else n
  }

  /** An illustration: -1 and 0 address the same position. */
  lemma MinusOneIsFirst()
    ensures ResolveIndex(-1) == 0 == ResolveIndex(0)
  {
  }

  /** A negative index and its non-negative counterpart address one position. */
  lemma ResolveIndexMirror(k: nat)
    ensures ResolveIndex(-(k + 1)) == ResolveIndex(k) == k
  {
  }

  /** The index checks of DELETE and PATCH: the last path segment must parse
      as an integer, the history must have a length, and only an index
      greater than that length is rejected. */
  function IndexArgument(history: Json, pathUsed: string): (r: Option<nat>)
    ensures r.Some? <==>
      && ParseInt(LastSegment(pathUsed)).Some?
      && Size(history).Some?
      && ParseInt(LastSegment(pathUsed)).value <= Size(history).value
    ensures r.Some? ==> r.value == ResolveIndex(ParseInt(LastSegment(pathUsed)).value)
  {
    var n := ParseInt(LastSegment(pathUsed));
    var size := Size(history);
    if n.None? || size.None? || n.value > size.value then None
    else Some(ResolveIndex(n.value))
  }

  /** `value[i] = v`; `None` where Python raises. A dict gains the key `str(i)`
      (the key JSON encoding gives the integer key). */
  function AssignAt(h: Json, i: nat, v: Json): (r: Option<Json>)
    ensures h.JArr? ==> (r.Some? <==> i < |h.items|)
    ensures h.JArr? && i < |h.items| ==> r == Some(JArr(h.items[i := v]))
    ensures h.JObj? ==> r == Some(JObj(h.fields[NatToString(i) := v]))
    ensures !h.JArr? && !h.JObj? ==> r.None?
  {
    match h
    case JArr(items) => if i < |items| then Some(JArr(items[i := v])) else None
    case JObj(fields) => Some(JObj(fields[NatToString(i) := v]))
    case _ => None
  }

  /** DELETE, with the path's last segment as the index and an early return
      after the 400 answer. The removal itself raises for a position past the
      end and for histories that are not lists. */
  function Delete(c: Conversation, pathUsed: string): (s: Step)
    ensures s.conversation.(history := c.history) == c
    ensures IndexArgument(c.history, pathUsed).None? ==> s == Step(c, Answer(Failure(400, InvalidIndex)))
    ensures IndexArgument(c.history, pathUsed).Some? ==>
      var i := IndexArgument(c.history, pathUsed).value;
      if c.history.JArr? && i < |c.history.items| then
        var h := s.conversation.history;
        && h.JArr?
        && |h.items| + 1 == |c.history.items|
        && h.items[..i] == c.history.items[..i]
        && h.items[i..] == c.history.items[i + 1..]
        && s.reply == Answer(Response(200, JsonBody(h)))
      else s == Step(c, Raise([]))
  {
    match IndexArgument(c.history, pathUsed)
    case None => Step(c, Answer(Failure(400, InvalidIndex)))
    case Some(i) =>
      if c.history.JArr? && i < |c.history.items| then
        var h := JArr(c.history.items[..i] + c.history.items[i + 1..]);
        Step(c.(history := h), Answer(Response(200, JsonBody(h))))
      else Step(c, Raise([]))
  }

  /** The first statement of the try block of DELETE and PATCH as written,
      `int(path_used.split("/"))[-1]`: `int()` is applied to the list the
      split returns, so the block raises there, before `abs_index` is
      assigned, exactly when that conversion raises. */
  predicate IndexRaisesAsWritten(pathUsed: string) {
    PyInt(JArr(seq(|SplitOnSlash(pathUsed)|, i requires 0 <= i < |SplitOnSlash(pathUsed)| => JStr(SplitOnSlash(pathUsed)[i])))).None?
  }

  /** `int()` of a list raises whatever the path, so the try block of DELETE
      and PATCH as written always fails. */
  lemma IndexAlwaysRaisesAsWritten(pathUsed: string)
    ensures IndexRaisesAsWritten(pathUsed)
  {
  }

  /** DELETE as written. When the try block raises, the except branch answers
      400 but does not return, and `del self.conversation[abs_index]` then
      raises `UnboundLocalError`, `abs_index` never having been assigned.
      The try block cannot complete, so the other branch is dead. */
  function DeleteAsWritten(c: Conversation, pathUsed: string): (s: Step)
    ensures s.conversation == c
    ensures s.reply == Raise([Failure(400, InvalidIndex)])
  {
    if IndexRaisesAsWritten(pathUsed) then Step(c, Raise([Failure(400, InvalidIndex)]))
    else assert false; Step(c, Raise([]))
  }

  /** PATCH, with the same index handling as `Delete`; the element at the
      resolved position becomes the request body. */
  function Patch(c: Conversation, pathUsed: string, body: Json): (s: Step)
    ensures s.conversation.(history := c.history) == c
    ensures IndexArgument(c.history, pathUsed).None? ==> s == Step(c, Answer(Failure(400, InvalidIndex)))
    ensures IndexArgument(c.history, pathUsed).Some? && c.history.JArr? ==>
      var i := IndexArgument(c.history, pathUsed).value;
      if i < |c.history.items| then
        var h := s.conversation.history;
        && h.JArr?
        && |h.items| == |c.history.items|
        && h.items[i] == body
        && (forall j :: 0 <= j < |h.items| && j != i ==> h.items[j] == c.history.items[j])
        && s.reply == Answer(Response(200, JsonBody(h)))
      else s == Step(c, Raise([]))
    ensures IndexArgument(c.history, pathUsed).Some? && c.history.JObj? ==>
      var h := JObj(c.history.fields[NatToString(IndexArgument(c.history, pathUsed).value) := body]);
      s == Step(c.(history := h), Answer(Response(200, JsonBody(h))))
    ensures IndexArgument(c.history, pathUsed).Some? && !c.history.JArr? && !c.history.JObj? ==> s == Step(c, Raise([]))
  {
    match IndexArgument(c.history, pathUsed)
    case None => Step(c, Answer(Failure(400, InvalidIndex)))
    case Some(i) =>
      match AssignAt(c.history, i, body)
      case None => Step(c, Raise([]))
      case Some(h) => Step(c.(history := h), Answer(Response(200, JsonBody(h))))
  }

  /** PATCH as written: the same failing try block, 400 without a return,
      and `self.conversation[abs_index] = json_data` raising
      `UnboundLocalError`. */
  function PatchAsWritten(c: Conversation, pathUsed: string, body: Json): (s: Step)
    ensures s.conversation == c
    ensures s.reply == Raise([Failure(400, InvalidIndex)])
  {
    if IndexRaisesAsWritten(pathUsed) then Step(c, Raise([Failure(400, InvalidIndex)]))
    else assert false; Step(c, Raise([]))
  }

  /** A path ending in a printed index within bounds selects that index. */
  lemma PrintedIndex(h: Json, n: nat)
    requires Size(h).Some? && n <= Size(h).value
    ensures IndexArgument(h, NatToString(n)) == Some(n)
  {
    ParseIntToString(n);
    assert !IsDigit('/');
    LastSegmentWithoutSlash(NatToString(n));
  }

  /** An illustration of `PrintedIndex`: the path `0` selects position 0. */
  lemma ZeroIndex(h: Json)
    requires Size(h).Some?
    ensures IndexArgument(h, "0") == Some(0)
  {
    PrintedIndex(h, 0);
    assert NatToString(0) == "0";
  }

  /** The discrepancy: deleting position 0 of a one-message history (a path
      whose last segment is `0`) leaves the history untouched and raises as
      written, while the corrected handler removes the message. */
  lemma DeleteAsWrittenNeverDeletes(c: Conversation, m: Json)
    requires c.history == JArr([m])
    ensures DeleteAsWritten(c, "0").conversation.history == JArr([m])
    ensures DeleteAsWritten(c, "0").reply.Raise?
    ensures Delete(c, "0") == Step(c.(history := JArr([])), Answer(Response(200, JsonBody(JArr([])))))
  {
    ZeroIndex(c.history);
  }

  /** The same input for PATCH: the element is replaced only by the corrected handler. */
  lemma PatchAsWrittenNeverPatches(c: Conversation, m: Json, body: Json)
    requires c.history == JArr([m]) && m != body
    ensures PatchAsWritten(c, "0", body).conversation.history == JArr([m])
    ensures Patch(c, "0", body) == Step(c.(history := JArr([body])), Answer(Response(200, JsonBody(JArr([body])))))
  {
    ZeroIndex(c.history);
    assert AssignAt(c.history, 0, body) == Some(JArr([body])) by {
      assert [m][0 := body] == [body];
    }
  }

  /** Every request the corrected DELETE or PATCH answers, the handler as
      written crashes on instead. */
  lemma AsWrittenCrashesWhereCorrectedAnswers(c: Conversation, pathUsed: string, body: Json)
    ensures Delete(c, pathUsed).reply.Answer? ==> DeleteAsWritten(c, pathUsed).reply != Delete(c, pathUsed).reply
    ensures Patch(c, pathUsed, body).reply.Answer? ==> PatchAsWritten(c, pathUsed, body).reply != Patch(c, pathUsed, body).reply
  {
  }

  /** The bound check admits an index equal to the length; the removal then
      raises instead of answering 400. */
  lemma LengthIndexPassesCheck(c: Conversation, items: seq<Json>)
    requires c.history == JArr(items)
    ensures IndexArgument(c.history, IntToString(|items|)) == Some(|items|)
    ensures Delete(c, IntToString(|items|)).reply == Raise([])
  {
    PrintedIndex(c.history, |items|);
  }

  /** A string without a slash is its own last segment. */
  lemma LastSegmentWithoutSlash(s: string)
    requires '/' !in s
    ensures LastSegment(s) == s
  {
  }

  /** `memory_update`: answers 411 before looking at the method when the body
      raised `ValueError`, then dispatches on the request method. DELETE and
      PATCH run the handlers as written, or the corrected ones. Nothing but
      the history ever changes. */
  function MemoryUpdate(c: Conversation, command: string, path: string, body: ReadOutcome, decode: string -> Option<Json>, version: Version): (s: Step)
    ensures s.conversation.(history := c.history) == c
    ensures MemoryBody(body, decode).None? ==> s == Step(c, Answer(Failure(411, ContentLengthRequired)))
    ensures MemoryBody(body, decode).Some? ==>
      var v := MemoryBody(body, decode).value;
      && (command == "GET" ==> s == Step(c, Answer(Response(200, JsonBody(c.history)))))
      && (command == "POST" && c.history.JArr? ==>
            && s.conversation.history.JArr?
            && |s.conversation.history.items| == |c.history.items| + 1
            && s.conversation.history.items[..|c.history.items|] == c.history.items
            && s.conversation.history.items[|c.history.items|] == v
            && s.reply == Answer(Response(200, NoBody)))
      && (command == "POST" && !c.history.JArr? ==> s == Step(c, Raise([])))
      && (command == "PUT" ==> s.conversation.history == v && s.reply == Answer(Response(200, NoBody)))
      && (command in {"DELETE", "PATCH"} && version.AsWritten? ==> s == Step(c, Raise([Failure(400, InvalidIndex)])))
      && (command == "DELETE" && version.Corrected? ==> s == Delete(c, RemovePrefix(path, "/memory/")))
      && (command == "PATCH" && version.Corrected? ==> s == Patch(c, RemovePrefix(path, "/memory/"), v))
      && (command !in {"GET", "POST", "PUT", "DELETE", "PATCH"} ==> s == Step(c, Answer(Failure(400, InvalidVerb))))
  {
    match MemoryBody(body, decode)
    case None => Step(c, Answer(Failure(411, ContentLengthRequired)))
    case Some(v) =>
      var pathUsed := RemovePrefix(path, "/memory/");
      if command == "GET" then Step(c, Answer(Response(200, JsonBody(c.history))))
      else if command == "POST" then
        (if c.history.JArr? then Step(c.(history := JArr(c.history.items + [v])), Answer(Response(200, NoBody)))
         else Step(c, Raise([])))
      else if command == "PUT" then Step(c.(history := v), Answer(Response(200, NoBody)))
      else if command == "DELETE" then
        (if version.AsWritten? then DeleteAsWritten(c, pathUsed) else Delete(c, pathUsed))
      else if command == "PATCH" then
        (if version.AsWritten? then PatchAsWritten(c, pathUsed, v) else Patch(c, pathUsed, v))
      else Step(c, Answer(Failure(400, InvalidVerb)))
  }

  /** Reset followed by a GET of the memory answers the substituted template,
      whatever the history was before. */
  lemma ResetThenGet(c: Conversation, before: Json, path: string, decode: string -> Option<Json>, version: Version)
    ensures
      var after := Reset(c.(history := before)).conversation;
      MemoryUpdate(after, "GET", path, ReadOtherError, decode, version).reply
        == Answer(Response(200, JsonBody(JArr(TemplateJson(UpdateResetPoint(c))))))
  {
  }

  // ---------------------------------------------------------------------
  // search_set_startout

  /** A startout value is found only when it is truthy, i.e. a non-empty list. */
  predicate NonEmpty(t: seq<TemplateMessage>) {
    |t| > 0
  }

  /** The loop `self.conversation[i] = fixed_startout[i]` from position `i`
      on; the flag is false when an assignment raised, leaving the
      assignments before it in place. */
  function OverwriteFrom(h: Json, t: seq<Json>, i: nat): (Json, bool)
    decreases |t| - i
  {
    if i >= |t| then (h, true)
    else match AssignAt(h, i, t[i])
      case None => (h, false)
      case Some(h') => OverwriteFrom(h', t, i + 1)
  }

  /** A list at least as long as the template gets the template in its first
      positions and keeps the rest. */
  lemma {:induction false} OverwriteLongList(items: seq<Json>, t: seq<Json>, i: nat)
    requires i <= |t| <= |items|
    ensures OverwriteFrom(JArr(t[..i] + items[i..]), t, i) == (JArr(t + items[|t|..]), true)
    decreases |t| - i
  {
    if i < |t| {
      var h := t[..i] + items[i..];
      assert h[i := t[i]] == t[..i + 1] + items[i + 1..];
      OverwriteLongList(items, t, i + 1);
    } else {
      assert t[..i] == t;
    }
  }

  /** A shorter list is overwritten up to its end, then the assignment past
      the end raises. */
  lemma {:induction false} OverwriteShortList(items: seq<Json>, t: seq<Json>, i: nat)
    requires i <= |items| < |t|
    ensures OverwriteFrom(JArr(t[..i] + items[i..]), t, i) == (JArr(t[..|items|]), false)
    decreases |items| - i
  {
    if i < |items| {
      var h := t[..i] + items[i..];
      assert h[i := t[i]] == t[..i + 1] + items[i + 1..];
      OverwriteShortList(items, t, i + 1);
    } else {
      assert t[..i] + items[i..] == t[..|items|];
    }
  }

  function StartoutNotFound(name: string): string {
    "Failed to find startout '" + name + "'."
  }

  /** `search_set_startout`: looks the startout named by the path up in the
      startout files; a GET only swaps the template, a POST also overwrites
      the start of the history with the substituted new template. */
  function SearchSetStartout(c: Conversation, command: string, path: string, files: seq<Locate.SourceFile<seq<TemplateMessage>>>): (s: Step)
    ensures
      var name := RemovePrefix(path, "/search_set_startout/");
      var found := Locate.LocateAttribute(files, name, NonEmpty);
      && (found.None? ==> s == Step(c, Answer(Failure(404, StartoutNotFound(name)))))
      && (found.Some? ==>
            && s.conversation.(history := c.history, resetPoint := c.resetPoint) == c
            && s.conversation.resetPoint == found.value.0
            && (command != "POST" ==> s == Step(c.(resetPoint := found.value.0), Answer(Response(200, JsonBody(c.history))))))
  {
    var name := RemovePrefix(path, "/search_set_startout/");
    match Locate.LocateAttribute(files, name, NonEmpty)
    case None => Step(c, Answer(Failure(404, StartoutNotFound(name))))
    case Some((startout, _)) =>
      var swapped := c.(resetPoint := startout);
      if command == "POST" then
        var (h, complete) := OverwriteFrom(swapped.history, TemplateJson(UpdateResetPoint(swapped)), 0);
        if complete then Step(swapped.(history := h), Answer(Response(200, JsonBody(h))))
        else Step(swapped.(history := h), Raise([]))
      else Step(swapped, Answer(Response(200, JsonBody(c.history))))
  }

  /** POST on a list history at least as long as the new template: the first
      positions become the substituted template, later positions and the
      length stay. */
  lemma SearchSetStartoutPostLong(c: Conversation, path: string, files: seq<Locate.SourceFile<seq<TemplateMessage>>>, items: seq<Json>)
    requires c.history == JArr(items)
    requires Locate.LocateAttribute(files, RemovePrefix(path, "/search_set_startout/"), NonEmpty).Some?
    ensures
      var startout := Locate.LocateAttribute(files, RemovePrefix(path, "/search_set_startout/"), NonEmpty).value.0;
      var fixed := TemplateJson(UpdateResetPoint(c.(resetPoint := startout)));
      |items| >= |startout| ==>
        var s := SearchSetStartout(c, "POST", path, files);
        && s.conversation.history == JArr(fixed + items[|fixed|..])
        && s.reply == Answer(Response(200, JsonBody(JArr(fixed + items[|fixed|..]))))
  {
    var startout := Locate.LocateAttribute(files, RemovePrefix(path, "/search_set_startout/"), NonEmpty).value.0;
    var fixed := TemplateJson(UpdateResetPoint(c.(resetPoint := startout)));
    if |items| >= |startout| {
      OverwriteLongList(items, fixed, 0);
      assert fixed[..0] + items[0..] == items;
    }
  }

  /** POST on a shorter list history: the template is swapped and the history
      overwritten up to its end, then the handler raises. */
  lemma SearchSetStartoutPostShort(c: Conversation, path: string, files: seq<Locate.SourceFile<seq<TemplateMessage>>>, items: seq<Json>)
    requires c.history == JArr(items)
    requires Locate.LocateAttribute(files, RemovePrefix(path, "/search_set_startout/"), NonEmpty).Some?
    ensures
      var startout := Locate.LocateAttribute(files, RemovePrefix(path, "/search_set_startout/"), NonEmpty).value.0;
      var fixed := TemplateJson(UpdateResetPoint(c.(resetPoint := startout)));
      |items| < |startout| ==>
        SearchSetStartout(c, "POST", path, files) == Step(c.(resetPoint := startout, history := JArr(fixed[..|items|])), Raise([]))
  {
    var startout := Locate.LocateAttribute(files, RemovePrefix(path, "/search_set_startout/"), NonEmpty).value.0;
    var fixed := TemplateJson(UpdateResetPoint(c.(resetPoint := startout)));
    if |items| < |startout| {
      OverwriteShortList(items, fixed, 0);
      assert fixed[..0] + items[0..] == items;
    }
  }

  // ---------------------------------------------------------------------
  // change_startout_configuration

  const NotAnInteger := "Failed to change startout configuration. Was the configuration an integer?"

  /** `change_startout_configuration`: stores the integer the path ends in;
      anything that is not an integer answers 400 and keeps the old value.
      The history is never modified. */
  function ChangeStartoutConfiguration(c: Conversation, path: string): (s: Step)
    ensures s.conversation.(startoutConfiguration := c.startoutConfiguration) == c
    ensures
      var n := ParseInt(RemovePrefix(path, "/change_startout_configuration/"));
      && (n.None? ==> s == Step(c, Answer(Failure(400, NotAnInteger))))
      && (n.Some? ==> s.conversation.startoutConfiguration == n.value && s.reply == Answer(Response(200, JsonBody(c.history))))
  {
    match ParseInt(RemovePrefix(path, "/change_startout_configuration/"))
    case None => Step(c, Answer(Failure(400, NotAnInteger)))
    case Some(n) => Step(c.(startoutConfiguration := n), Answer(Response(200, JsonBody(c.history))))
  }

  /** Any integer written into the path is the integer stored. */
  lemma ConfigurationRoundTrip(c: Conversation, n: int)
    ensures ChangeStartoutConfiguration(c, "/change_startout_configuration/" + IntToString(n)).conversation
      == c.(startoutConfiguration := n)
  {
    var path := "/change_startout_configuration/" + IntToString(n);
    assert StartsWith(path, "/change_startout_configuration/");
    assert RemovePrefix(path, "/change_startout_configuration/") == IntToString(n);
    ParseIntToString(n);
  }

  // ---------------------------------------------------------------------
  // save / load over a file system that maps paths to nodes

  datatype Node = File(text: string) | Directory

  type FileSystem = map<string, Node>

  /** `os.path.join(directory, name)`: an absolute name replaces the directory. */
  function JoinPath(directory: string, name: string): string {
    if StartsWith(name, "/") then name
    else if directory == "" || EndsWith(directory, "/") then directory + name
    else directory + "/" + name
  }

  const SaveFailed := "Failed to save memory to disk."
  const FileMissing := "File does not exist."
  const NotAFile := "Path is not a file."
  const LoadFailed := "Failed to load memory from disk."

  datatype Saved = Saved(fs: FileSystem, reply: Reply)

  /** The directory a path sits in: everything before its last slash, or
      `""` (the working directory, or the root for `/name`) when the path has
      no slash before its last segment. */
  function Parent(path: string): (r: string)
    ensures |r| < |path| || r == ""
  {
    var name := LastSegment(path);
    if |name| == |path| then "" else path[..|path| - |name| - 1]
  }

  /** What the operating system finds at a path; a trailing slash (other
      than the root's) finds only a directory. */
  function Lookup(fs: FileSystem, path: string): (r: Option<Node>)
    ensures !EndsWith(path, "/") ==> r == (if path in fs then Some(fs[path]) else None)
    ensures |path| > 1 && EndsWith(path, "/") ==> r.None? || r == Some(Directory)
    decreases |path|
  {
    if |path| > 1 && path[|path| - 1] == '/' then
      if Lookup(fs, path[..|path| - 1]) == Some(Directory) then Some(Directory) else None
    else if path in fs then Some(fs[path])
    else None
  }

  /** Where `open(path, "w")` succeeds: the path does not end in a slash,
      names no directory, and the directory it sits in exists. */
  predicate Writable(fs: FileSystem, path: string) {
    && !EndsWith(path, "/")
    && Lookup(fs, path) != Some(Directory)
    && (Parent(path) == "" || Lookup(fs, Parent(path)) == Some(Directory))
  }

  /** `save`: writes the encoded history to `memory_dir/<name>`; when the
      file cannot be opened for writing it answers 500. Nothing else in the
      file system changes. */
  function Save(c: Conversation, fs: FileSystem, path: string, encode: Json -> string): (r: Saved)
    ensures
      var target := JoinPath(c.memoryDir, RemovePrefix(path, "/save/"));
      && (!Writable(fs, target) ==> r == Saved(fs, Answer(Failure(500, SaveFailed))))
      && (Writable(fs, target) ==>
            && r.reply == Answer(Response(200, NoBody))
            && r.fs.Keys == fs.Keys + {target}
            && r.fs[target] == File(encode(c.history))
            && (forall p :: p in fs && p != target ==> r.fs[p] == fs[p]))
  {
    var target := JoinPath(c.memoryDir, RemovePrefix(path, "/save/"));
    if !Writable(fs, target) then Saved(fs, Answer(Failure(500, SaveFailed)))
    else Saved(fs[target := File(encode(c.history))], Answer(Response(200, NoBody)))
  }

  /** Saving into a memory directory that does not exist fails, whatever the
      name. */
  lemma SaveNeedsMemoryDirectory(c: Conversation, fs: FileSystem, name: string, encode: Json -> string)
    requires c.memoryDir != "" && !EndsWith(c.memoryDir, "/") && c.memoryDir !in fs
    requires name != "" && '/' !in name
    ensures Save(c, fs, "/save/" + name, encode) == Saved(fs, Answer(Failure(500, SaveFailed)))
  {
    assert StartsWith("/save/" + name, "/save/");
    assert RemovePrefix("/save/" + name, "/save/") == name;
    var target := c.memoryDir + "/" + name;
    assert !StartsWith(name, "/");
    assert JoinPath(c.memoryDir, name) == target;
    assert LastSegment(target) == name by {
      LastSegmentAfterSlash(c.memoryDir, name);
    }
    assert Parent(target) == c.memoryDir by {
      assert target[..|target| - |name| - 1] == c.memoryDir;
    }
  }

  /** A name that does not start with a slash, after a directory and a slash,
      is the path's last segment. */
  lemma {:induction false} LastSegmentAfterSlash(directory: string, name: string)
    requires '/' !in name
    ensures LastSegment(directory + "/" + name) == name
    decreases |name|
  {
    var path := directory + "/" + name;
    if name == [] {
      assert path[|path| - 1] == '/';
    } else {
      assert path[..|path| - 1] == directory + "/" + name[..|name| - 1];
      LastSegmentAfterSlash(directory, name[..|name| - 1]);
      assert name[..|name| - 1] + [name[|name| - 1]] == name;
    }
  }

  /** `save` with an empty name targets the memory directory itself and fails. */
  lemma SaveEmptyNameFails(c: Conversation, fs: FileSystem, encode: Json -> string)
    requires c.memoryDir != ""
    ensures Save(c, fs, "/save/", encode) == Saved(fs, Answer(Failure(500, SaveFailed)))
  {
    assert StartsWith("/save/", "/save/");
    assert RemovePrefix("/save/", "/save/") == "";
  }

  /** `load`: existence is checked first (404), then that the path is a file
      (400), then that it decodes (500); only success replaces the history. */
  function Load(c: Conversation, fs: FileSystem, path: string, decode: string -> Option<Json>): (s: Step)
    ensures s.conversation.(history := c.history) == c
    ensures s.conversation.history != c.history ==> s.reply == Answer(Response(200, NoBody))
    ensures
      var target := JoinPath(c.memoryDir, RemovePrefix(path, "/load/"));
      var found := Lookup(fs, target);
      && (found.None? ==> s == Step(c, Answer(Failure(404, FileMissing))))
      && (found == Some(Directory) ==> s == Step(c, Answer(Failure(400, NotAFile))))
      && (found.Some? && found.value.File? && decode(found.value.text).None? ==> s == Step(c, Answer(Failure(500, LoadFailed))))
      && (found.Some? && found.value.File? && decode(found.value.text).Some? ==>
            s == Step(c.(history := decode(found.value.text).value), Answer(Response(200, NoBody))))
  {
    var target := JoinPath(c.memoryDir, RemovePrefix(path, "/load/"));
    match Lookup(fs, target)
    case None => Step(c, Answer(Failure(404, FileMissing)))
    case Some(Directory) => Step(c, Answer(Failure(400, NotAFile)))
    case Some(File(text)) =>
      match decode(text)
      case None => Step(c, Answer(Failure(500, LoadFailed)))
      case Some(v) => Step(c.(history := v), Answer(Response(200, NoBody)))
  }

  /** `load` with an empty name finds the memory directory and answers 400. */
  lemma LoadEmptyNameIsDirectory(c: Conversation, fs: FileSystem, decode: string -> Option<Json>)
    requires c.memoryDir != "" && !EndsWith(c.memoryDir, "/")
    requires c.memoryDir in fs && fs[c.memoryDir] == Directory
    ensures Load(c, fs, "/load/", decode) == Step(c, Answer(Failure(400, NotAFile)))
  {
    assert StartsWith("/load/", "/load/");
    assert RemovePrefix("/load/", "/load/") == "";
    var target := c.memoryDir + "/";
    assert JoinPath(c.memoryDir, "") == target;
    assert target[..|target| - 1] == c.memoryDir;
  }

  /** Saving under a name and loading the same name into a conversation that
      uses the same memory directory restores the saved history, provided the
      JSON decoder reads back what the encoder wrote. */
  lemma SaveThenLoad(c: Conversation, d: Conversation, fs: FileSystem, name: string, encode: Json -> string, decode: string -> Option<Json>)
    requires d.memoryDir == c.memoryDir
    requires decode(encode(c.history)) == Some(c.history)
    requires Save(c, fs, "/save/" + name, encode).reply.Answer?
    requires Save(c, fs, "/save/" + name, encode).reply.response.status == 200
    ensures Load(d, Save(c, fs, "/save/" + name, encode).fs, "/load/" + name, decode)
      == Step(d.(history := c.history), Answer(Response(200, NoBody)))
  {
    assert StartsWith("/save/" + name, "/save/");
    assert RemovePrefix("/save/" + name, "/save/") == name;
    assert StartsWith("/load/" + name, "/load/");
    assert RemovePrefix("/load/" + name, "/load/") == name;
  }
}
