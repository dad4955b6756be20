/** `listen` (daruk.ts, lines 102-145): how the variadic start arguments
    are normalised in the manner of Node's `net` module, how the readiness
    callback is wrapped or appended, and the order of the startup events. */
module Listen {

  /** The JavaScript values a caller may pass to `listen`. Numbers are
      integers here; an object exposes the two properties the log line
      reads, `Undefined` when it lacks one. */
  datatype JsValue =
    | Undefined
    | Null
    | Boolean(b: bool)
    | Number(n: int)
    | Str(s: string)
    | Function(id: nat)
    | Object(port: JsValue, host: JsValue)

  /** JavaScript truthiness. */
  predicate Truthy(v: JsValue) {
    match v
    case Undefined => false
    case Null => false
    case Boolean(b) => b
    case Number(n) => n != 0
    case Str(s) => s != ""
    case Function(_) => true
    case Object(_, _) => true
  }

  /** `typeof v === 'object' && v !== null`. */
  predicate IsObject(v: JsValue) {
    v.Object?
  }

  /** `isPipeName`: a string that does not read as a non-negative number.
      Whether a string reads as one (`Number(s) >= 0`) is the parameter. */
  predicate IsPipeName(v: JsValue, readsAsPort: string -> bool) {
    v.Str? && !readsAsPort(v.s)
  }

  /** The normalised options; `Undefined` marks an unset property. */
  datatype ListenOptions = ListenOptions(port: JsValue, host: JsValue)

  const NoOptions := ListenOptions(Undefined, Undefined)

  /** An argument handed on to the transport: one of the caller's, or the
      readiness wrapper closing over the caller's last argument. */
  datatype ListenArg = Given(v: JsValue) | ReadyWrapper(callerLast: JsValue)

  /** The option-bag rules (lines 123-136). */
  function NormalizeOptions(args: seq<JsValue>, readsAsPort: string -> bool): (o: ListenOptions)
    ensures |args| == 0 ==> o == NoOptions
    ensures |args| > 0 && IsObject(args[0]) ==> o == ListenOptions(args[0].port, args[0].host)
    ensures |args| > 0 && IsPipeName(args[0], readsAsPort) ==> o == NoOptions
    ensures |args| > 0 && !IsObject(args[0]) && !IsPipeName(args[0], readsAsPort) ==>
      o.port == args[0] && (o.host.Str? <==> |args| > 1 && args[1].Str?)
      && (o.host.Str? ==> o.host == args[1]) && (!o.host.Str? ==> o.host == Undefined)
  {
    if |args| == 0 then NoOptions
    else if IsObject(args[0]) then ListenOptions(args[0].port, args[0].host)
    else if IsPipeName(args[0], readsAsPort) then NoOptions
    else ListenOptions(args[0], if |args| > 1 && args[1].Str? then args[1] else Undefined)
  }

  function Pass(args: seq<JsValue>): (r: seq<ListenArg>)
    ensures |r| == |args|
    ensures forall i :: 0 <= i < |args| ==> r[i] == Given(args[i])
  {
    seq(|args|, i requires 0 <= i < |args| => Given(args[i]))
  }

  /** The callback rule (lines 112 and 137-141): a final function
      argument is replaced in place by the wrapper, any other final
      argument gets the wrapper appended after it, and an empty argument
      list is left empty. */
  function InstallWrapper(args: seq<JsValue>): (r: seq<ListenArg>)
    ensures |args| == 0 ==> r == []
    ensures |args| > 0 && args[|args| - 1].Function? ==> |r| == |args|
    ensures |args| > 0 && !args[|args| - 1].Function? ==> |r| == |args| + 1
    ensures |args| > 0 ==> r[|r| - 1] == ReadyWrapper(args[|args| - 1])
    ensures forall i :: 0 <= i < |r| - 1 ==> r[i] == Given(args[i])
  {
    if |args| == 0 then []
    else if args[|args| - 1].Function? then Pass(args[..|args| - 1]) + [ReadyWrapper(args[|args| - 1])]
    else Pass(args) + [ReadyWrapper(args[|args| - 1])]
  }

  /** The caller's value behind each handed-on argument. */
  function Givens(r: seq<ListenArg>): (args: seq<JsValue>)
    requires forall i :: 0 <= i < |r| ==> r[i].Given?
    ensures |args| == |r|
    ensures forall i :: 0 <= i < |r| ==> args[i] == r[i].v
  {
    seq(|r|, i requires 0 <= i < |r| => r[i].v)
  }

  /** Reads the caller's arguments back from what the transport receives:
      the values handed on, plus the final function the wrapper replaced. */
  function Recover(r: seq<ListenArg>): seq<JsValue>
    requires |r| > 0 ==> r[|r| - 1].ReadyWrapper?
    requires forall i :: 0 <= i < |r| - 1 ==> r[i].Given?
  {
    if |r| == 0 then []
    else Givens(r[..|r| - 1]) + (if r[|r| - 1].callerLast.Function? then [r[|r| - 1].callerLast] else [])
  }

  /** Installing the wrapper loses none of the caller's arguments. */
  lemma RecoverInstallWrapper(args: seq<JsValue>)
    ensures var r := InstallWrapper(args);
      (|r| > 0 ==> r[|r| - 1].ReadyWrapper?) && (forall i :: 0 <= i < |r| - 1 ==> r[i].Given?)
    ensures Recover(InstallWrapper(args)) == args
  {
    var r := InstallWrapper(args);
    if |args| > 0 {
      var n := |args|;
      if args[n - 1].Function? {
        assert Givens(r[..|r| - 1]) == args[..n - 1];
        assert args[..n - 1] + [args[n - 1]] == args;
      } else {
        assert Givens(r[..|r| - 1]) == args;
      }
    }
  }

  /** A trailing callback after at least one other argument never changes
      the options: `listen(3000, cb)` binds like `listen(3000)`. */
  lemma TrailingCallbackIgnored(args: seq<JsValue>, id: nat, readsAsPort: string -> bool)
    requires |args| > 0
    ensures NormalizeOptions(args + [Function(id)], readsAsPort) == NormalizeOptions(args, readsAsPort)
  {
    var a := args + [Function(id)];
    assert a[0] == args[0];
    if |args| > 1 {
      assert a[1] == args[1];
    }
  }

  /** Startup, as a trace of observable events. */
  datatype Event =
    | PluginsRan                                  // `plugin.run` has resolved
    | PluginReady                                 // 'pluginReady' emitted
    | TransportListen(args: seq<ListenArg>)       // the transport's `listen` called
    | Ready                                       // `serverReady`: 'ready' emitted
    | CallerCallback(id: nat)                     // the caller's own callback run
    | Starting(name: string, host: JsValue, port: JsValue) // the "is starting at" log line

  /** The host the log line shows: the option's host when truthy,
      `localhost` otherwise. */
  function ShownHost(o: ListenOptions): (h: JsValue)
    ensures Truthy(h)
    ensures Truthy(o.host) ==> h == o.host
    ensures h == o.host || h == Str("localhost")
  {
    if Truthy(o.host) then o.host else Str("localhost")
  }

  /** What the wrapper does once the transport is listening (lines
      113-121): readiness first, then the caller's callback if the last
      argument was a function, then the log line. */
  function OnListening(name: string, callerLast: JsValue, o: ListenOptions): (t: seq<Event>)
    ensures |t| >= 2 && t[0] == Ready && t[|t| - 1] == Starting(name, ShownHost(o), o.port)
    ensures callerLast.Function? <==> |t| == 3
    ensures callerLast.Function? ==> t[1] == CallerCallback(callerLast.id)
  {
    [Ready] + (if callerLast.Function? then [CallerCallback(callerLast.id)] else []) + [Starting(name, ShownHost(o), o.port)]
  }

  /** The events of `listen(...args)` up to the transport call. */
  function ListenTrace(args: seq<JsValue>): (t: seq<Event>)
    ensures |t| == 3 && t[0] == PluginsRan && t[1] == PluginReady && t[2].TransportListen?
    ensures var a := t[2].args;
      (|a| > 0 ==> a[|a| - 1].ReadyWrapper?) && (forall i :: 0 <= i < |a| - 1 ==> a[i].Given?) && Recover(a) == args
  {
    RecoverInstallWrapper(args);
    [PluginsRan, PluginReady, TransportListen(InstallWrapper(args))]
  }

  /** The whole startup, assuming the transport calls its final function
      argument once it accepts connections, as Node's `listen` does. */
  function Startup(name: string, args: seq<JsValue>, readsAsPort: string -> bool): (t: seq<Event>)
    ensures |t| >= 3 && t[..3] == ListenTrace(args)
    ensures |args| == 0 ==> |t| == 3
    ensures |args| > 0 ==> (|t| == 5 || |t| == 6) && (|t| == 6 <==> args[|args| - 1].Function?)
    ensures |args| > 0 ==>
      var o := NormalizeOptions(args, readsAsPort);
      t[3] == Ready && t[|t| - 1] == Starting(name, ShownHost(o), o.port)
  {
    ListenTrace(args)
      + (if |args| > 0 then OnListening(name, args[|args| - 1], NormalizeOptions(args, readsAsPort)) else [])
  }

  /** `e` occurs in `t` at `i`, and every earlier event is not `e`. */
  predicate FirstAt(t: seq<Event>, e: Event, i: int) {
    0 <= i < |t| && t[i] == e && forall j :: 0 <= j < i ==> t[j] != e
  }

  /** Plugins finish before 'pluginReady', which comes before the
      transport is asked to listen, which comes before readiness; each of
      these happens once. */
  lemma StartupOrder(name: string, args: seq<JsValue>, readsAsPort: string -> bool)
    ensures var t := Startup(name, args, readsAsPort);
      FirstAt(t, PluginsRan, 0) && FirstAt(t, PluginReady, 1) && t[2].TransportListen?
    ensures var t := Startup(name, args, readsAsPort);
      forall i :: 0 <= i < |t| && i != 0 ==> t[i] != PluginsRan
    ensures var t := Startup(name, args, readsAsPort);
      forall i :: 0 <= i < |t| && i != 1 ==> t[i] != PluginReady
    ensures var t := Startup(name, args, readsAsPort);
      forall i :: 0 <= i < |t| && i != 2 ==> !t[i].TransportListen?
    ensures var t := Startup(name, args, readsAsPort);
      forall i :: 0 <= i < |t| && t[i] == Ready ==> i == 3
  {
    var t := Startup(name, args, readsAsPort);
    if |args| > 0 {
      var o := NormalizeOptions(args, readsAsPort);
      assert t == ListenTrace(args) + OnListening(name, args[|args| - 1], o);
    }
  }

  /** Readiness is signalled exactly when `listen` got arguments: with none,
      no wrapper is installed and 'ready' is never emitted. */
  lemma ReadyIffArguments(name: string, args: seq<JsValue>, readsAsPort: string -> bool)
    ensures Ready in Startup(name, args, readsAsPort) <==> |args| > 0
  {
    var t := Startup(name, args, readsAsPort);
    if |args| > 0 {
      assert t[3] == Ready;
    }
  }

  /** The caller's callback runs at most once, after readiness and before
      the log line, and only when it was the final argument. */
  lemma CallerCallbackPlacement(name: string, args: seq<JsValue>, readsAsPort: string -> bool, id: nat)
    ensures var t := Startup(name, args, readsAsPort);
      CallerCallback(id) in t <==> |args| > 0 && args[|args| - 1] == Function(id)
    ensures var t := Startup(name, args, readsAsPort);
      forall i :: 0 <= i < |t| && t[i] == CallerCallback(id) ==> i == 4 && t[3] == Ready && t[5].Starting?
  {
  }

  /** The documented call shapes: `listen(3000)` binds port 3000 on the
      default host, `listen(3000, '0.0.0.0')` binds that host, and
      `listen({port: 4000})` takes the object as the options. A lone
      callback, `listen(cb)`, is not a pipe name, so it becomes the port
      the log line shows, while the wrapper takes its place. */
  lemma CallShapes(readsAsPort: string -> bool)
    ensures NormalizeOptions([Number(3000)], readsAsPort) == ListenOptions(Number(3000), Undefined)
    ensures ShownHost(NormalizeOptions([Number(3000)], readsAsPort)) == Str("localhost")
    ensures NormalizeOptions([Number(3000), Str("0.0.0.0")], readsAsPort) == ListenOptions(Number(3000), Str("0.0.0.0"))
    ensures NormalizeOptions([Object(Number(4000), Undefined)], readsAsPort) == ListenOptions(Number(4000), Undefined)
    ensures NormalizeOptions([Function(7)], readsAsPort).port == Function(7)
    ensures InstallWrapper([Function(7)]) == [ReadyWrapper(Function(7))]
  {
  }
}
