/**
  The Socket.IO `connect` handler of the FastAPI server: find the guest
  name in the connection's query string, build a console for it and save
  the console in the per-sid session storage.
 */
module Gateway {

  import opened Wrappers
  import opened PyStr
  import opened Libvirt
  import opened ConsoleModel
  import opened Query
  import opened Sessions

  /** One positional argument of the handler: a WSGI environ-like dictionary. */
  type Environ = map<string, string>

  /** The key under which the storage keeps a connection's console. */
  const ConsoleKey: string := "console"

  /** How a connect attempt ends. */
  datatype ConnectOutcome =
    | Accepted(nodeName: string) // a console for `nodeName` was saved for the sid
    | Returned                   // the query string names no guest; the handler returned None early
    | Raised(error: PyError)     // the handler raised before saving anything

  /** The argument carries a query string. */
  predicate HasQuery(arg: Environ)
  {
    "QUERY_STRING" in arg
  }

  /** `args[i]` is the last argument carrying a query string. */
  predicate LastQuery(args: seq<Environ>, i: int)
    requires 0 <= i < |args|
  {
    HasQuery(args[i]) && forall j :: i < j < |args| ==> !HasQuery(args[j])
  }

  /** The argument's query string parses and names a guest. */
  predicate NamesNode(arg: Environ)
  {
    && HasQuery(arg)
    && ParseQuery(arg["QUERY_STRING"]).Ok?
    && "nodename" in ParseQuery(arg["QUERY_STRING"]).value
  }

  /**
    `args[i]` is the first argument whose query string does not name a
    guest: it fails to parse or lacks `nodename`. It decides the outcome.
   */
  predicate FirstStop(args: seq<Environ>, i: int)
  {
    && 0 <= i < |args|
    && HasQuery(args[i]) && !NamesNode(args[i])
    && forall j :: 0 <= j < i ==> HasQuery(args[j]) ==> NamesNode(args[j])
  }

  /** The guest an argument names. */
  function NodeOf(arg: Environ): string
    requires NamesNode(arg)
  {
    ParseQuery(arg["QUERY_STRING"]).value["nodename"]
  }

  /**
    The loop over the handler's arguments, with `bound` the value of
    `node_name` so far. Each argument with a query string is parsed (which
    may raise); one without `nodename` ends the handler; one with it rebinds
    `node_name`. After the loop `node_name` must have been bound.
   */
  function ResolveNode(args: seq<Environ>, bound: Option<string>): (r: ConnectOutcome)
    ensures r.Accepted? ==> forall i :: 0 <= i < |args| && LastQuery(args, i) ==>
      NamesNode(args[i]) && NodeOf(args[i]) == r.nodeName
    ensures r.Returned? ==>
      exists i :: 0 <= i < |args| && HasQuery(args[i]) && !NamesNode(args[i])
        && ParseQuery(args[i]["QUERY_STRING"]).Ok?
    ensures r == Raised(IndexError) ==>
      exists i :: 0 <= i < |args| && HasQuery(args[i]) && ParseQuery(args[i]["QUERY_STRING"]).Err?
    ensures r.Raised? ==> r.error == IndexError || r.error == UnboundLocalError("node_name")
    ensures (forall i :: 0 <= i < |args| ==> !HasQuery(args[i])) ==>
      r == (if bound.Some? then Accepted(bound.value) else Raised(UnboundLocalError("node_name")))
    ensures (forall i :: 0 <= i < |args| ==> HasQuery(args[i]) ==> NamesNode(args[i])) ==>
      r.Accepted? || r == Raised(UnboundLocalError("node_name"))
    decreases |args|
  {
    if |args| == 0 then
      if bound.Some? then Accepted(bound.value) else Raised(UnboundLocalError("node_name"))
    else
      var arg := args[0];
      var tail := args[1..];
      assert forall i :: 0 <= i < |tail| ==> tail[i] == args[i + 1];
      if !HasQuery(arg) then
        ResolveNode(tail, bound)
      else
        var parsed := ParseQuery(arg["QUERY_STRING"]);
        if parsed.Err? then
          Raised(parsed.error)
        else if "nodename" in parsed.value then
          ResolveNode(tail, Some(parsed.value["nodename"]))
        else
          Returned
  }

  /**
    The first argument whose query string does not name a guest decides the
    outcome: the handler returns if that query string parses and raises
    `IndexError` if it does not.
   */
  lemma {:induction false} FirstStopDecides(args: seq<Environ>, bound: Option<string>, i: int)
    requires FirstStop(args, i)
    ensures ResolveNode(args, bound)
      == (if ParseQuery(args[i]["QUERY_STRING"]).Ok? then Returned else Raised(IndexError))
    decreases i
  {
    if i > 0 {
      var tail := args[1..];
      assert HasQuery(args[0]) ==> NamesNode(args[0]);
      assert tail[i - 1] == args[i];
      assert FirstStop(tail, i - 1) by {
        forall j | 0 <= j < i - 1 ensures HasQuery(tail[j]) ==> NamesNode(tail[j]) {
          assert tail[j] == args[j + 1];
        }
      }
      var next := if NamesNode(args[0]) then Some(NodeOf(args[0])) else bound;
      FirstStopDecides(tail, next, i - 1);
    }
  }

  /** A query string that names no guest, anywhere among the arguments, rules out acceptance. */
  lemma NotAcceptedAfterStop(args: seq<Environ>, bound: Option<string>, k: int)
    requires 0 <= k < |args| && HasQuery(args[k]) && !NamesNode(args[k])
    ensures !ResolveNode(args, bound).Accepted?
  {
    var f := FirstStopExists(args, k);
    FirstStopDecides(args, bound, f);
  }

  /** When every query string names a guest and there is at least one, the handler accepts. */
  lemma {:induction false} AllNamedAccepted(args: seq<Environ>, bound: Option<string>, k: int)
    requires forall i :: 0 <= i < |args| ==> HasQuery(args[i]) ==> NamesNode(args[i])
    requires 0 <= k < |args| && HasQuery(args[k])
    ensures ResolveNode(args, bound).Accepted?
    decreases |args|
  {
    var tail := args[1..];
    var next := if NamesNode(args[0]) then Some(NodeOf(args[0])) else bound;
    ResolveNodeNamedHead(args, bound);
    AllNamedTail(args);
    if k > 0 {
      assert tail[k - 1] == args[k];
      AllNamedAccepted(tail, next, k - 1);
    } else if NoQuery(tail) {
      NoQueryResolves(tail, next);
    } else {
      var m :| 0 <= m < |tail| && HasQuery(tail[m]);
      AllNamedAccepted(tail, next, m);
    }
  }

  /** A first argument whose query string, if any, names a guest only rebinds the name. */
  lemma ResolveNodeNamedHead(args: seq<Environ>, bound: Option<string>)
    requires |args| > 0 && (HasQuery(args[0]) ==> NamesNode(args[0]))
    ensures ResolveNode(args, bound)
      == ResolveNode(args[1..], if NamesNode(args[0]) then Some(NodeOf(args[0])) else bound)
  {
  }

  /** The rest of the arguments keeps the property that every query string names a guest. */
  lemma AllNamedTail(args: seq<Environ>)
    requires |args| > 0
    requires forall i :: 0 <= i < |args| ==> HasQuery(args[i]) ==> NamesNode(args[i])
    ensures forall i :: 0 <= i < |args[1..]| ==> HasQuery(args[1..][i]) ==> NamesNode(args[1..][i])
  {
    forall i | 0 <= i < |args[1..]| ensures HasQuery(args[1..][i]) ==> NamesNode(args[1..][i]) {
      assert args[1..][i] == args[i + 1];
    }
  }

  /** No argument carries a query string. */
  predicate NoQuery(args: seq<Environ>)
  {
    forall i :: 0 <= i < |args| ==> !HasQuery(args[i])
  }

  /** With no query string left, the handler accepts exactly when a name is already bound. */
  lemma NoQueryResolves(args: seq<Environ>, bound: Option<string>)
    requires NoQuery(args)
    ensures ResolveNode(args, bound)
      == (if bound.Some? then Accepted(bound.value) else Raised(UnboundLocalError("node_name")))
  {
  }

  /** Above any argument carrying a query string lies a last such argument. */
  function LastQueryExists(args: seq<Environ>, k: int): (l: int)
    requires 0 <= k < |args| && HasQuery(args[k])
    ensures k <= l < |args| && LastQuery(args, l)
    decreases |args| - k
  {
    if forall j :: k < j < |args| ==> !HasQuery(args[j]) then k
    else
      var j :| k < j < |args| && HasQuery(args[j]);
      LastQueryExists(args, j)
  }

  /**
    An accepted name comes from an argument's query string or, when no
    argument carries one, is the name bound before the loop.
   */
  lemma AcceptedNameProvenance(args: seq<Environ>, bound: Option<string>)
    ensures ResolveNode(args, bound).Accepted? ==>
      (exists i :: 0 <= i < |args| && NamesNode(args[i]) && NodeOf(args[i]) == ResolveNode(args, bound).nodeName)
      || (bound == Some(ResolveNode(args, bound).nodeName) && NoQuery(args))
  {
    var r := ResolveNode(args, bound);
    if r.Accepted? && !NoQuery(args) {
      var k :| 0 <= k < |args| && HasQuery(args[k]);
      var l := LastQueryExists(args, k);
      assert NamesNode(args[l]) && NodeOf(args[l]) == r.nodeName;
    }
  }

  /** Below any argument whose query string names no guest lies a first such argument. */
  function FirstStopExists(args: seq<Environ>, k: int): (f: int)
    requires 0 <= k < |args| && HasQuery(args[k]) && !NamesNode(args[k])
    ensures FirstStop(args, f)
    decreases k
  {
    if forall j :: 0 <= j < k ==> HasQuery(args[j]) ==> NamesNode(args[j]) then k
    else
      var j :| 0 <= j < k && HasQuery(args[j]) && !NamesNode(args[j]);
      FirstStopExists(args, j)
  }

  /**
    The `connect` handler for the connection `sid`. `initial` is the guest
    state the new console reads on construction and `watch` the handle
    libvirt returns for the keyboard watch; connecting to libvirt itself is
    not modelled.
   */
  function Connect(st: Storage<Console>, sid: Sid, args: seq<Environ>, uri: string,
                   initial: DomainState, watch: int): (r: (Storage<Console>, ConnectOutcome))
    ensures !r.1.Accepted? ==> r.0 == st
    ensures r.1.Accepted? ==>
      && Get(r.0, sid).Some?
      && ConsoleKey in Get(r.0, sid).value
      && Get(r.0, sid).value[ConsoleKey]
         == NewConsole(uri, r.1.nodeName, initial).(stdinWatch := watch)
    ensures forall other :: other != sid ==> Get(r.0, other) == Get(st, other)
    ensures r.1 == ResolveNode(args, None)
  {
    var outcome := ResolveNode(args, None);
    match outcome
    case Accepted(node) =>
      var console := NewConsole(uri, node, initial).(stdinWatch := watch);
      (Save(st, sid, map[ConsoleKey := console]), outcome)
    case _ => (st, outcome)
  }

  /**
    The real call passes the WSGI environ and then the client's auth data. An
    environ whose query string lacks `nodename` makes the handler return
    before anything is saved.
   */
  lemma MissingNodeNameReturns(st: Storage<Console>, sid: Sid, environ: Environ, auth: Environ,
                               uri: string, initial: DomainState, watch: int)
    ensures HasQuery(environ) && ParseQuery(environ["QUERY_STRING"]).Ok? && !NamesNode(environ) ==>
      Connect(st, sid, [environ, auth], uri, initial, watch) == (st, Returned)
  {
  }

  /**
    An environ whose query string names a guest, followed by auth data
    without a query string, gets a fresh console for that guest.
   */
  lemma NamedNodeAccepted(st: Storage<Console>, sid: Sid, environ: Environ, auth: Environ,
                          uri: string, initial: DomainState, watch: int)
    ensures NamesNode(environ) && !HasQuery(auth) ==>
      Connect(st, sid, [environ, auth], uri, initial, watch).1 == Accepted(NodeOf(environ))
  {
  }
}
