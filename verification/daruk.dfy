/** Construction of the orchestrator (daruk.ts, lines 33-54): the merge
    of the caller's options over the defaults, at the leaves the core
    reads, the detach-and-reattach of the custom logger, and the check of
    the server type. */
module Daruk {
  import opened Wrappers
  import opened Registry

  /** A logger object supplied by the caller, known only by identity. */
  datatype Logger = Logger(id: nat)

  /** The state of one property on the caller's options object: not an
      own property at all, an own property holding `undefined`, or one
      holding a value. */
  datatype Slot<T> = Absent | Undef | Present(value: T)
  {
    /** What reading the property yields; None is `undefined`. */
    function Read(): Option<T> {
      if Present? then Some(value) else None
    }
  }

  /** The options as the caller passes them. */
  datatype PartialOptions = PartialOptions(
    rootPath: Option<string>,
    name: Option<string>,
    debug: Option<bool>,
    serverType: Option<string>,
    customLogger: Slot<Logger>)

  /** The canonical options after the merge. */
  datatype Options = Options(
    rootPath: string,
    name: string,
    debug: bool,
    serverType: string,
    customLogger: Option<Logger>)

  /** The logger the instance uses. */
  datatype LoggerChoice = CustomLogger(logger: Logger) | DefaultLogger

  datatype Instance<V> = Instance(name: string, options: Options, logger: LoggerChoice, modules: Modules<V>)

  /** The outcome of `new Daruk(name, options)`: the caller's options
      object as it is afterwards (it is changed even when construction
      throws), and the instance or the thrown message. */
  datatype Construction<V> = Construction(callerOptions: PartialOptions, instance: Result<Instance<V>, string>)

  const ServerTypeError := "only support koa server Type"

  /** A caller value overrides the default one. */
  function Pick<T>(user: Option<T>, default: T): T {
    if user.Some? then user.value else default
  }

  /** `options.rootPath || dirname(main)`: an empty root path is falsy and
      falls back to the directory of the program's entry file. */
  function RootPath(options: PartialOptions, mainDir: string): (r: string)
    ensures options.rootPath.Some? && options.rootPath.value != "" ==> r == options.rootPath.value
    ensures options.rootPath.None? || options.rootPath.value == "" ==> r == mainDir
  {
    if options.rootPath.Some? && options.rootPath.value != "" then options.rootPath.value else mainDir
  }

  /** The merged options. `defaults` stands for the default-options
      builder, applied to the root path, the name and the debug flag;
      the custom logger is taken out of the merge and put back verbatim. */
  function MergeOptions(name: string, options: PartialOptions, mainDir: string, defaults: (string, string, bool) -> Options): (o: Options)
    ensures o.customLogger == options.customLogger.Read()
    ensures options.serverType.Some? ==> o.serverType == options.serverType.value
    ensures options.serverType.None? ==>
      o.serverType == defaults(RootPath(options, mainDir), name, options.debug == Some(true)).serverType
    ensures options.rootPath.Some? ==> o.rootPath == options.rootPath.value
    ensures options.rootPath.None? ==>
      o.rootPath == defaults(RootPath(options, mainDir), name, options.debug == Some(true)).rootPath
    ensures options.name.Some? ==> o.name == options.name.value
    ensures options.name.None? ==>
      o.name == defaults(RootPath(options, mainDir), name, options.debug == Some(true)).name
    ensures options.debug.Some? ==> o.debug == options.debug.value
    ensures options.debug.None? ==>
      o.debug == defaults(RootPath(options, mainDir), name, options.debug == Some(true)).debug
  {
    var d := defaults(RootPath(options, mainDir), name, options.debug == Some(true));
    Options(
      Pick(options.rootPath, d.rootPath),
      Pick(options.name, d.name),
      Pick(options.debug, d.debug),
      Pick(options.serverType, d.serverType),
      options.customLogger.Read())
  }

  /** The caller's options object after construction: `customLogger` is
      deleted before the merge and assigned back afterwards, so it reads
      as before but is now always an own property; nothing else changes. */
  function ReattachLogger(options: PartialOptions): (after: PartialOptions)
    ensures after.customLogger.Read() == options.customLogger.Read()
    ensures !after.customLogger.Absent?
    ensures after.(customLogger := options.customLogger) == options
  {
    options.(customLogger := if options.customLogger.Present? then options.customLogger else Undef)
  }

  /** `new Daruk(name, options)`. */
  function Construct<V>(name: string, options: PartialOptions, mainDir: string, defaults: (string, string, bool) -> Options)
    : (r: Construction<V>)
    ensures r.callerOptions == ReattachLogger(options)
    ensures r.instance.Success? <==> MergeOptions(name, options, mainDir, defaults).serverType == "koa"
    ensures r.instance.Failure? ==> r.instance.error == ServerTypeError
    ensures r.instance.Success? ==>
      var d := r.instance.value;
      && d.name == name
      && d.options == MergeOptions(name, options, mainDir, defaults)
      && d.options.customLogger == options.customLogger.Read()
      && d.modules == map[]
      && (d.logger.CustomLogger? <==> options.customLogger.Present?)
      && (d.logger.CustomLogger? ==> d.logger.logger == options.customLogger.value)
  {
    var saved := options.customLogger;
    var merged := MergeOptions(name, options, mainDir, defaults);
    var logger := if saved.Present? then CustomLogger(saved.value) else DefaultLogger;
    if merged.serverType == "koa" then
      Construction(ReattachLogger(options), Success(Instance(name, merged, logger, map[])))
    else
      Construction(ReattachLogger(options), Failure(ServerTypeError))
  }

  /** Reattaching the logger is stable: constructing again from the
      caller's options as the first construction left them yields the
      same instance and leaves those options as they were. */
  lemma ConstructAgain<V>(name: string, options: PartialOptions, mainDir: string, defaults: (string, string, bool) -> Options)
    ensures var first := Construct<V>(name, options, mainDir, defaults);
      var second := Construct<V>(name, first.callerOptions, mainDir, defaults);
      second == first
  {
    var first := Construct<V>(name, options, mainDir, defaults);
    var opts := first.callerOptions;
    assert opts.customLogger.Read() == options.customLogger.Read();
    assert MergeOptions(name, opts, mainDir, defaults) == MergeOptions(name, options, mainDir, defaults);
  }

  /** Any server type other than `koa` aborts construction, whatever the
      defaults say. */
  lemma OnlyKoa<V>(name: string, options: PartialOptions, mainDir: string, defaults: (string, string, bool) -> Options)
    requires options.serverType.Some? && options.serverType.value != "koa"
    ensures Construct<V>(name, options, mainDir, defaults).instance == Failure(ServerTypeError)
  {
  }
}
