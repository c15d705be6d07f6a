/**
 The callback table of the HTTP server and the way `do_GET` and `do_POST`
 dispatch a request through it (src/lib/server.py).

 The table maps each of five method names to the paths registered under
 it, in first-insertion order (Python dicts keep insertion order), and
 each path to its `[callback, only_startswith]` entries in append order.
 Callbacks are opaque identifiers; whether the callback run in a given
 turn raises is a parameter of dispatch, so one callback may raise in one
 turn and not in another.
 */
module Server {
  import opened Values
  import opened PyStrings
  import opened Http

  type CallbackId = nat

  /** One `[callback, only_startswith]` pair. */
  datatype Entry = Entry(callback: CallbackId, onlyStartswith: bool)

  /** One path key of a method's table, with its entries in append order. */
  datatype Route = Route(path: string, entries: seq<Entry>)

  type Table = map<string, seq<Route>>

  /** The method keys the server's table is created with. */
  const Methods: set<string> := {"GET", "POST", "PUT", "DELETE", "PATCH"}

  function NewTable(): (t: Table)
    ensures t.Keys == Methods
    ensures forall m :: m in t ==> t[m] == []
  {
    map m | m in Methods :: []
  }

  /** The path keys of one method's table, in insertion order. */
  function Paths(routes: seq<Route>): seq<string> {
    seq(|routes|, i requires 0 <= i < |routes| => routes[i].path)
  }

  /** `callbacks[request_type].get(path, [])`. */
  function EntriesAt(routes: seq<Route>, path: string): seq<Entry> {
    if routes == [] then []
    else if routes[0].path == path then routes[0].entries
    else EntriesAt(routes[1..], path)
  }

  /** The path keys and entries of a table with one more route in front. */
  lemma RouteInFront(x: Route, rest: seq<Route>)
    ensures Paths([x] + rest) == [x.path] + Paths(rest)
    ensures forall p :: EntriesAt([x] + rest, p) == if x.path == p then x.entries else EntriesAt(rest, p)
  {
    assert ([x] + rest)[1..] == rest;
  }

  /** Appends one entry under `path`, creating the path key at the end when
      it is not there yet. */
  function AppendEntry(routes: seq<Route>, path: string, e: Entry): (r: seq<Route>)
    ensures EntriesAt(r, path) == EntriesAt(routes, path) + [e]
    ensures forall p :: p != path ==> EntriesAt(r, p) == EntriesAt(routes, p)
    ensures Paths(r) == if path in Paths(routes) then Paths(routes) else Paths(routes) + [path]
  {
    if routes == [] then [Route(path, [e])]
    else
      var head := routes[0];
      assert routes == [head] + routes[1..];
      RouteInFront(head, routes[1..]);
      if head.path == path then
        var r := [Route(path, head.entries + [e])] + routes[1..];
        RouteInFront(Route(path, head.entries + [e]), routes[1..]);
        r
      else
        var rest := AppendEntry(routes[1..], path, e);
        RouteInFront(head, rest);
        [head] + rest
  }

  datatype Registration = Registered(table: Table) | Panicked

  /** `request_callback`: appends `[callback, only_startswith]` under
      `callbacks[request_type][path]`. A method key that is not in the table raises
      `KeyError`, which is routed to the fatal reporter. */
  function RequestCallback(table: Table, requestType: string, path: string, callback: CallbackId, onlyStartswith: bool): (r: Registration)
    ensures r.Panicked? <==> requestType !in table
    ensures r.Registered? ==> r.table.Keys == table.Keys
    ensures r.Registered? ==> forall m :: m in table && m != requestType ==> r.table[m] == table[m]
    ensures r.Registered? ==>
      EntriesAt(r.table[requestType], path) == EntriesAt(table[requestType], path) + [Entry(callback, onlyStartswith)]
    ensures r.Registered? ==> forall p :: p != path ==> EntriesAt(r.table[requestType], p) == EntriesAt(table[requestType], p)
    ensures r.Registered? ==>
      Paths(r.table[requestType]) == if path in Paths(table[requestType]) then Paths(table[requestType]) else Paths(table[requestType]) + [path]
  {
    if requestType !in table then Panicked
    else Registered(table[requestType := AppendEntry(table[requestType], path, Entry(callback, onlyStartswith))])
  }

  /** The matching rule of `do_GET`/`do_POST` for one entry. */
  predicate Fires(e: Entry, routePath: string, requestPath: string) {
    if e.onlyStartswith then StartsWith(requestPath, routePath) else requestPath == routePath
  }

  /** Entry `entry` of path key number `route`. */
  datatype Position = Position(route: nat, entry: nat)

  /** The order in which the nested loops visit positions. */
  predicate Precedes(a: Position, b: Position) {
    a.route < b.route || (a.route == b.route && a.entry < b.entry)
  }

  predicate IsFiring(routes: seq<Route>, requestPath: string, q: Position) {
    && q.route < |routes|
    && q.entry < |routes[q.route].entries|
    && Fires(routes[q.route].entries[q.entry], routes[q.route].path, requestPath)
  }

  predicate InOrder(ps: seq<Position>) {
    forall a, b {:trigger Precedes(ps[a], ps[b])} :: 0 <= a < b < |ps| ==> Precedes(ps[a], ps[b])
  }

  /** The firing positions among the first `k` entries of path key `ri`. */
  function FiringIn(routes: seq<Route>, ri: nat, requestPath: string, k: nat): (ps: seq<Position>)
    requires ri < |routes| && k <= |routes[ri].entries|
    ensures forall q :: q in ps <==> q.route == ri && q.entry < k && IsFiring(routes, requestPath, q)
    ensures InOrder(ps)
  {
    if k == 0 then []
    else
      var before := FiringIn(routes, ri, requestPath, k - 1);
      if Fires(routes[ri].entries[k - 1], routes[ri].path, requestPath)
      then before + [Position(ri, k - 1)]
      else before
  }

  /** The firing positions among the first `n` path keys, in visiting order. */
  function FiringUpTo(routes: seq<Route>, requestPath: string, n: nat): (ps: seq<Position>)
    requires n <= |routes|
    ensures forall q :: q in ps <==> q.route < n && IsFiring(routes, requestPath, q)
    ensures InOrder(ps)
  {
    if n == 0 then []
    else
      var before := FiringUpTo(routes, requestPath, n - 1);
      var here := FiringIn(routes, n - 1, requestPath, |routes[n - 1].entries|);
      assert forall q :: q in before ==> q.route < n - 1;
      assert forall q :: q in here ==> q.route == n - 1;
      before + here
  }

  /** `path_callbacks`: every firing entry, paths in insertion order, then
      entries in append order; each position appears once. */
  function Firing(routes: seq<Route>, requestPath: string): (ps: seq<Position>)
    ensures forall q :: q in ps <==> IsFiring(routes, requestPath, q)
    ensures InOrder(ps)
  {
    FiringUpTo(routes, requestPath, |routes|)
  }

  function CallbackAt(routes: seq<Route>, q: Position): CallbackId
    requires q.route < |routes| && q.entry < |routes[q.route].entries|
  {
    routes[q.route].entries[q.entry].callback
  }

  function Callbacks(routes: seq<Route>, ps: seq<Position>): (cbs: seq<CallbackId>)
    requires forall q :: q in ps ==> q.route < |routes| && q.entry < |routes[q.route].entries|
    ensures |cbs| == |ps| && forall i :: 0 <= i < |ps| ==> cbs[i] == CallbackAt(routes, ps[i])
  {
    seq(|ps|, i requires 0 <= i < |ps| => CallbackAt(routes, ps[i]))
  }

  /** Index of the first callback from position `from` on that raises when
      run in its turn, or `|cbs|` when none does. */
  function FirstRaising(cbs: seq<CallbackId>, raises: (nat, CallbackId) -> bool, from: nat): (k: nat)
    requires from <= |cbs|
    ensures from <= k <= |cbs|
    ensures forall i :: from <= i < k ==> !raises(i, cbs[i])
    ensures k < |cbs| ==> raises(k, cbs[k])
    decreases |cbs| - from
  {
    if from == |cbs| then from
    else if raises(from, cbs[from]) then from
    else FirstRaising(cbs, raises, from + 1)
  }

  datatype Dispatch =
    | Dispatched(invoked: seq<CallbackId>, response: Option<Response>)
    /** Methods other than GET and POST have no `do_` handler; the HTTP library answers 501. */
    | NotImplemented

  const NotFound := "Path/endpoint not found (or wrong method)"

  function ProcessFailure(command: string): string {
    "Failed to process " + command + " request."
  }

  /** The loop over `path_callbacks`: runs the callbacks in order until one
      raises, then answers 500; with nothing to run it answers 404. */
  function RunInOrder(cbs: seq<CallbackId>, raises: (nat, CallbackId) -> bool, command: string): (d: Dispatch)
    ensures d.Dispatched? && |d.invoked| <= |cbs| && d.invoked == cbs[..|d.invoked|]
    ensures forall i :: 0 <= i < |d.invoked| - 1 ==> !raises(i, d.invoked[i])
    ensures d.response == Some(Failure(500, ProcessFailure(command))) <==> |d.invoked| > 0 && raises(|d.invoked| - 1, d.invoked[|d.invoked| - 1])
    ensures d.response == Some(Failure(404, NotFound)) <==> cbs == []
    ensures d.response == None <==> |d.invoked| == |cbs| > 0 && !raises(|cbs| - 1, d.invoked[|cbs| - 1])
    ensures |d.invoked| == |cbs| || (|d.invoked| > 0 && raises(|d.invoked| - 1, d.invoked[|d.invoked| - 1]))
    ensures d.response == None || d.response == Some(Failure(404, NotFound)) || d.response == Some(Failure(500, ProcessFailure(command)))
  {
    var k := FirstRaising(cbs, raises, 0);
    if k < |cbs| then Dispatched(cbs[..k + 1], Some(Failure(500, ProcessFailure(command))))
    else if cbs == [] then Dispatched([], Some(Failure(404, NotFound)))
    else Dispatched(cbs, None)
  }

  /** `do_GET`/`do_POST`: runs the firing callbacks in order until one raises.
      `response` is what the router itself writes: 404 when nothing fired,
      500 when a callback raised, nothing otherwise (the callbacks answered). */
  function HandleRequest(table: Table, command: string, requestPath: string, raises: (nat, CallbackId) -> bool): (d: Dispatch)
    ensures d.NotImplemented? <==> command != "GET" && command != "POST"
    ensures d.Dispatched? && command !in table ==> d == Dispatched([], Some(Failure(500, ProcessFailure(command))))
    ensures d.Dispatched? && command in table ==>
      var cbs := Callbacks(table[command], Firing(table[command], requestPath));
      && |d.invoked| <= |cbs| && d.invoked == cbs[..|d.invoked|]
      && (forall i :: 0 <= i < |d.invoked| - 1 ==> !raises(i, d.invoked[i]))
      && (d.response == Some(Failure(500, ProcessFailure(command))) <==> |d.invoked| > 0 && raises(|d.invoked| - 1, d.invoked[|d.invoked| - 1]))
      && (d.response == Some(Failure(404, NotFound)) <==> cbs == [])
      && (d.response == None <==> |d.invoked| == |cbs| > 0 && !raises(|cbs| - 1, d.invoked[|cbs| - 1]))
      && (|d.invoked| == |cbs| || (|d.invoked| > 0 && raises(|d.invoked| - 1, d.invoked[|d.invoked| - 1])))
      && (d.response == None || d.response == Some(Failure(404, NotFound)) || d.response == Some(Failure(500, ProcessFailure(command))))
  {
    if command != "GET" && command != "POST" then NotImplemented
    else if command !in table then Dispatched([], Some(Failure(500, ProcessFailure(command))))
    else RunInOrder(Callbacks(table[command], Firing(table[command], requestPath)), raises, command)
  }

  /** When no callback raises, every firing callback runs, in order, and the
      router answers only when nothing fired. */
  lemma NoRaiseRunsAll(table: Table, command: string, requestPath: string, raises: (nat, CallbackId) -> bool)
    requires command in {"GET", "POST"} && command in table
    requires forall i, cb :: !raises(i, cb)
    ensures
      var cbs := Callbacks(table[command], Firing(table[command], requestPath));
      HandleRequest(table, command, requestPath, raises)
        == Dispatched(cbs, if cbs == [] then Some(Failure(404, NotFound)) else None)
  {
    var cbs := Callbacks(table[command], Firing(table[command], requestPath));
    assert FirstRaising(cbs, raises, 0) == |cbs|;
  }

  /** Only the table of the request's own requestType is consulted. */
  lemma OtherMethodsIgnored(table: Table, command: string, other: string, routes: seq<Route>, requestPath: string, raises: (nat, CallbackId) -> bool)
    requires other != command
    ensures HandleRequest(table[other := routes], command, requestPath, raises) == HandleRequest(table, command, requestPath, raises)
  {
  }

  /** Entries registered under PUT, DELETE or PATCH never run. */
  lemma NoDispatchOutsideGetPost(table: Table, command: string, requestPath: string, raises: (nat, CallbackId) -> bool)
    requires command in Methods - {"GET", "POST"}
    ensures HandleRequest(table, command, requestPath, raises) == NotImplemented
  {
  }

  /** A prefix entry registered on a fresh table fires for any path below it
      and its callback is the only one run. */
  lemma {:induction false} PrefixRegistrationFires(path: string, suffix: string, callback: CallbackId, raises: (nat, CallbackId) -> bool)
    requires !raises(0, callback)
    ensures
      var r := RequestCallback(NewTable(), "GET", path, callback, true);
      r.Registered? && HandleRequest(r.table, "GET", path + suffix, raises) == Dispatched([callback], None)
  {
    var r := RequestCallback(NewTable(), "GET", path, callback, true);
    var routes := r.table["GET"];
    assert routes == [Route(path, [Entry(callback, true)])];
    assert StartsWith(path + suffix, path) by {
      assert (path + suffix)[..|path|] == path;
    }
    assert FiringIn(routes, 0, path + suffix, 1) == [Position(0, 0)];
    assert FiringUpTo(routes, path + suffix, 1) == FiringUpTo(routes, path + suffix, 0) + [Position(0, 0)];
    assert Firing(routes, path + suffix) == [Position(0, 0)];
  }
}
