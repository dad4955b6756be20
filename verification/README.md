# Daruk bootstrap core in Dafny

A verified model of the bootstrap core of Daruk, a convention-driven web
framework on top of Koa. Two parts are modelled:

- **The convention-based loader** (`src/core/loader.ts`). A controller
  file's module-relative path fixes both the class name it must export and
  the route it is served at. `loadModule` and `loadClassModule` load the
  first-level entries of a module directory and insist on function exports,
  or on subclasses of the base context for class modules. Every violation
  stops loading with an error that names the offending path. The
  filesystem is abstract: a map from directory to its listing, plus the
  export each path loads to. The helpers the loader imports from elsewhere
  are fields of a `Conventions` record: the source-file filter, the
  extension stripper and the subclass test.
- **The orchestrator's deterministic parts** (`src/core/daruk.ts`). This
  covers the module registry (`mergeModule`, `setModule`,
  `setArrayModule`) and construction, which means the server-type check and
  the custom-logger reattachment. It also covers `listen`: the Node-`net`
  style argument overloads, wrapping or appending the readiness callback,
  and the order of startup events as an event trace.

Modules: `Wrappers` (Option, Result) and `Strings` (ASCII upper-casing,
first-occurrence removal, capitalisation) are shared helpers.
`ControllerPaths` holds the path → class-name and path → route functions.
`Loader` holds the loader. `Registry`, `Listen` and `Daruk` hold the
orchestrator parts.

Three details of the code that the model keeps exactly:

- The listening wrapper calls the caller's own callback before it writes
  the "is starting at" log line (src/core/daruk.ts:113-120).
- Only a lower-case ASCII letter after `/` is upper-cased in the
  controller class name (src/core/loader.ts:35).
- `getModuleDesc` keeps every entry that `lstat` does not report as a
  file, so symbolic links are kept as well as directories
  (src/core/loader.ts:91-93).

## Model

| member | source | states |
|---|---|---|
| `ControllerPaths.UpperAfterSlash` | src/core/loader.ts:35-37 | The first regex pass never lengthens the path, and it keeps a first character that is not a lower-case letter non-lower-case. Because the scan is global, no `/` in its result is followed by a lower-case letter. |
| `ControllerPaths.StripSlashes` | src/core/loader.ts:39 | The result has no `/` and is no longer than its input. A character other than `/` occurs in it iff it occurs in the input. |
| `ControllerPaths.ClassNameOf` | src/core/loader.ts:33-39 | The derived class name contains no `/` and is no longer than the path. |
| `ControllerPaths.ClassNameIsCharwise` | src/core/loader.ts:33-39 | The two regex passes give the path with each lower-case letter right after a `/` upper-cased and every `/` then removed, character by character. |
| `ControllerPaths.ClassNameLength` | src/core/loader.ts:33-39 | The class name has no `/`. Its length is the path's length minus its slashes, so only slashes disappear. |
| `ControllerPaths.TwoSegmentClassName` | src/core/loader.ts:33-39 | For `/a/b`, the class name is `a` and `b` each with the first character upper-cased, run together. |
| `ControllerPaths.ClassNameAppend` | src/core/loader.ts:35-39 | The class name is built segment by segment: a prefix that does not end in `/` contributes its own class name. |
| `ControllerPaths.RouteOf` | src/core/loader.ts:46 | The route is the path, except that a trailing `/index` becomes `/`. Then the route plus `index` gives back the path. |
| `ControllerPaths.LastSegmentRoute` | src/core/loader.ts:46 | Only a last segment spelled exactly `index` collapses. Any other last segment leaves the route equal to the path. |
| `ControllerPaths.RouteIdempotent` | src/core/loader.ts:46 | A route never collapses a second time. |
| `ControllerPaths.InnerIndexUntouched` | src/core/loader.ts:46 | A non-final `index` segment (`/index/a`) is left alone. |
| `ControllerPaths.ExampleClassNames` | src/core/loader.ts:33-43 | `/user/profile` must export `UserProfile`. `/user/index` must export `UserIndex`, because the name is taken before the trailing `index` collapses. |
| `ControllerPaths.ExampleRoutes` | src/core/loader.ts:45-47 | `/user/profile` is routed at `/user/profile` and `/user/index` at `/user/`. |
| `Strings.RemoveFirst` | src/core/loader.ts:31 | Removing the root leaves the path unchanged, or shortens it by exactly the root's length. |
| `Strings.Capitalize` | src/core/loader.ts:75-76 | The result is as long as the key. Its first character is the key's first character upper-cased, and the rest is the key's rest. |
| `Strings.IndexOfFrom` | src/core/loader.ts:31 | The index found is where the root first occurs at or after the start. There is none only when the root does not occur. |
| `Strings.RemoveFirstOfPrefix` | src/core/loader.ts:31 | When the file path starts with the root, removing the root's first occurrence leaves the path below the root. |
| `Strings.RemoveFirstLength` | src/core/loader.ts:31 | Removing the root changes nothing when the root is absent. Otherwise exactly the root's length disappears. |
| `Loader.CheckController` | src/core/loader.ts:26-47 | A file is accepted iff its export extends the base context and its `name` is the derived class name. A non-subclass fails first, naming the file. A subclass with another `name` fails with a mismatch naming the file and the derived class name. An accepted file yields its route and export. |
| `Loader.LoadController` | src/core/loader.ts:19-50 | It succeeds iff every file passes both checks. Otherwise it fails with the error of the first failing file. On success the keys are exactly the files' routes. Each value is the export of the last file with that route, and its `name` is that file's class name. |
| `Loader.IndexController` | src/core/loader.ts:31-47 | A subclass export at `/user/index` named `UserIndex` is registered at `/user/`. Under any other name, loading fails with a mismatch that expects `UserIndex`. |
| `Loader.Fold` | src/core/loader.ts:23-48 | The forEach-with-assert loop shared by the three loaders only adds keys: on success, every starting key is still present. |
| `Loader.FoldFailsFast` | src/core/loader.ts:23-48 | The shared forEach-with-assert loop succeeds iff every item passes. Otherwise it reports the first rejected item's error. |
| `Loader.FoldKeys` | src/core/loader.ts:47 | On success, the keys are the starting keys plus the keys of the accepted items. |
| `Loader.FoldLastWins` | src/core/loader.ts:47 | On success, each key holds the value of the last item yielding it: a later item with the same key overwrites an earlier one. |
| `Loader.FoldAccepted` | src/core/loader.ts:54-59 | When every item is accepted, the map holds exactly the items' keys, each with the value of the last item carrying it. |
| `Loader.GetModuleDesc` | src/core/loader.ts:85-102 | A missing directory gives no descriptors. Otherwise a descriptor appears iff it describes a listed entry that is a non-file, or a file that passes the filter. |
| `Loader.Describe` | src/core/loader.ts:89-99 | There are never more descriptors than entries. When every entry is kept there is one per entry, and when none is kept there are none. |
| `Loader.DescribeMembers` | src/core/loader.ts:89-99 | A descriptor is produced for an entry iff that entry is kept. |
| `Loader.DescribeAppend` | src/core/loader.ts:88-99 | Descriptors follow the listing order. Describing a listing in two parts concatenates the two parts' descriptors. |
| `Loader.DescribeOne` | src/core/loader.ts:91-97 | A kept file is named without its extension and a directory by its unchanged name, both with the joined path. The only entries dropped are files that fail the filter. |
| `Loader.ModuleStep` | src/core/loader.ts:55-58 | One descriptor is accepted iff its export is a function; then it contributes its name and export, otherwise the "must export a function" error for its path. |
| `Loader.LoadModule` | src/core/loader.ts:51-61 | It succeeds iff every descriptor loads a function. Otherwise it fails naming the first non-function's path. On success the keys are exactly the descriptor names, each mapped to the last such entry's export. |
| `Loader.ModuleFold` | src/core/loader.ts:54-60 | Over any descriptor list: success iff every export is a function, failure at the first non-function, and on success the keys are the names and each value is the export of the last descriptor with that name. |
| `Loader.ClassStep` | src/core/loader.ts:70-78 | One descriptor is accepted iff its export is a function extending the base context. A non-function gets the "must export a function" error; a function with another base gets the "must export a subclass" error. |
| `Loader.LoadClassModule` | src/core/loader.ts:66-81 | It succeeds iff every descriptor loads a function that extends the base context. Otherwise it fails at the first offender: "not a function" when it is not one, else "wrong base". On success it has the same keys and values as `loadModule`. |
| `Loader.ClassFold` | src/core/loader.ts:69-80 | Over any descriptor list: success iff every export is a class module, failure at the first one that is not, and the same key and last-wins facts as `Loader.ModuleFold`. |
| `Loader.Message` | src/core/loader.ts:27-77 | The module and class-module messages open with the category in brackets, `[key]`. The class-name mismatch message quotes the expected class name right after its fixed 33-character opening. |
| `Loader.MessageNamesPath` | src/core/loader.ts:27-77 | Every failure message ends with the offending path. |
| `Loader.BaseClassMessage` | src/core/loader.ts:73-77 | The class-module message names `Daruk.Base` followed by the key with its first character upper-cased. |
| `Loader.ServiceBase` | src/core/loader.ts:75-76 | For key `service`, the expected base is `Daruk.BaseService`. |
| `Registry.SetModule` | src/core/daruk.ts:172-175 | The bucket is created if absent. Afterwards the (type, key) entry holds the value, and every other (type, key) entry, other bucket and array content is unchanged. |
| `Registry.SetArrayModule` | src/core/daruk.ts:180-182 | The type's bucket becomes exactly the given sequence, with the same order and no de-duplication. No keyed entry survives in it, and other buckets are unchanged. |
| `Registry.MergeModule` | src/core/daruk.ts:150-157 | A non-object argument changes nothing. A plain object creates the bucket even when empty and sets each of its keys. Keys outside it, other buckets and array contents are unchanged. |
| `Registry.SetModuleCommutes` | src/core/daruk.ts:172-175 | Writes to different (type, key) places commute. |
| `Registry.SetModuleOverwrites` | src/core/daruk.ts:172-175 | A later write to the same (type, key) wins. |
| `Registry.SetArrayModuleReplaces` | src/core/daruk.ts:172-182 | Replacing a bucket by an array forgets keys written into it before. |
| `Listen.NormalizeOptions` | src/core/daruk.ts:123-136 | An object first argument becomes the options. A pipe name leaves them empty. Any other first argument is the port, and the host is set iff a second argument exists and is a string. No arguments give empty options. |
| `Listen.TrailingCallbackIgnored` | src/core/daruk.ts:123-136 | After at least one argument, a trailing callback does not change the options. |
| `Listen.CallShapes` | src/core/daruk.ts:123-141 | Covers `listen(3000)`, `listen(3000, '0.0.0.0')` and `listen({port: 4000})`. A lone callback becomes the logged port and is replaced by the wrapper. |
| `Listen.InstallWrapper` | src/core/daruk.ts:112-141 | A final function argument is replaced in place, so the count is unchanged. Any other final argument gets the wrapper appended, so the count grows by one. With zero arguments nothing is installed. The other arguments pass unchanged. |
| `Listen.RecoverInstallWrapper` | src/core/daruk.ts:112-141 | The caller's arguments can be read back from what the transport receives, so installing the wrapper loses nothing. |
| `Listen.ShownHost` | src/core/daruk.ts:117 | The host in the log line is always truthy. It is the options' host when that is truthy and `localhost` otherwise. |
| `Listen.ListenTrace` | src/core/daruk.ts:102-143 | Plugins run, then `pluginReady`, then one transport `listen`. The caller's arguments can be read back from what the transport receives. |
| `Listen.Startup` | src/core/daruk.ts:102-143 | Startup begins with the listen trace. With no arguments nothing follows. Otherwise `ready` comes next and the log line with the shown host and port comes last. There are six events iff the last argument was a function, and five otherwise. |
| `Listen.OnListening` | src/core/daruk.ts:95-121 | Once listening, `ready` comes first. The caller's callback runs next iff the last argument was a function. The log line with the shown host and port comes last. |
| `Listen.StartupOrder` | src/core/daruk.ts:102-143 | Plugin run, then `pluginReady`, then the transport's `listen`, then `ready`. Each happens once, in that order. |
| `Listen.ReadyIffArguments` | src/core/daruk.ts:95-143 | `ready` is emitted iff `listen` got at least one argument. |
| `Listen.CallerCallbackPlacement` | src/core/daruk.ts:112-121 | The caller's callback runs iff it was the final argument. It runs once, right after `ready` and before the log line. |
| `Daruk.RootPath` | src/core/daruk.ts:36 | A non-empty caller root path is used. An absent or empty one falls back to the entry program's directory. |
| `Daruk.MergeOptions` | src/core/daruk.ts:36-44 | Each of root path, name, debug flag and server type is the caller's value when given. Otherwise it is the default built from the root path (after its fallback), the name and the debug flag. The merged custom logger is the caller's original value. |
| `Daruk.ReattachLogger` | src/core/daruk.ts:39-44 | The caller's options change only in `customLogger`. It reads as before, including when it was absent, and is now an own property. |
| `Daruk.Construct` | src/core/daruk.ts:33-54 | The caller's options are changed by the logger reattachment even when construction throws. Construction succeeds iff the merged server type is `koa`, otherwise it fails with the source's message. On success the registry is empty, the options keep the original custom logger, and the logger is the custom one iff one was given. The instance's options are exactly `Daruk.MergeOptions` of the caller's options. |
| `Daruk.ConstructAgain` | src/core/daruk.ts:39-44 | Constructing again from the caller's options as the first construction left them gives the same instance and the same options. |
| `Daruk.OnlyKoa` | src/core/daruk.ts:50-54 | Any caller server type other than `koa` aborts construction. |

## Left out

- Filesystem I/O is not modelled: `existsSync`, `readdirSync`, `lstatSync` and the recursive listing `getFilePathRecursive`. The model receives the listings as data. A path that exists but is a file is not in the directory map, so `readdirSync` throwing on it is not modelled.
- `upath.normalize` of the root and of each file path is not modelled. Paths are taken as already normalised.
- `path.join` is modelled as `dir + "/" + name`, without its normalisation of `..` and doubled slashes.
- `uRequire` is the `load` function of the abstract disk. A `require` that throws, for example on a missing module or a syntax error, is not modelled.
- `isJsTsFile`, `JsTsReg` and `isSubClass` are defined in a file that is not part of this model. They are uninterpreted fields of `Conventions`.
- `toLocaleUpperCase` and `toUpperCase` are modelled on ASCII only. Locale-specific mappings (the Turkish dotted capital I) and non-ASCII first characters of a category key are not modelled.
- The object-assign-deep merge is not modelled. Only the leaves the core reads are merged: root path, name, debug flag, server type and custom logger. Its array semantics and nested options are out of scope. The first, discarded merge at line 38 is omitted.
- `Daruk.MergeOptions`: a caller option explicitly set to `undefined` is treated as absent. The foreign merge library's handling of `undefined` is not visible.
- `Daruk.RootPath`: `mainDir` is a parameter standing for `path.dirname(require.main.filename)` (daruk.ts:36). The throw when `require.main` is undefined and the root path is falsy is not modelled.
- `getDefaultOptions` is defined in a file that is not part of this model. It is the `defaults` parameter.
- The Koa application, its error handler, `helpDecoratorClass`, loading the built-in plugins, `mockContext`, `prettyLog`, `debugLog` and `logModuleMsg` are not modelled. `logModuleMsg` needs `filterBuiltInModule`, which is not part of this model. The other items are I/O, logging or foreign code.
- The internals of `DarukPlugin.run` are not part of this model. Its completion is a single `PluginsRan` event, so the one-at-a-time order of individual plugins is not modelled. Async scheduling, and a plugin that never resolves, are not modelled either.
- `toNumber` (`Number(x) >= 0`) is float and coercion semantics. `isPipeName` takes it as the `readsAsPort` parameter.
- JavaScript numbers are modelled as integers. NaN, fractions and the socket `path` option are not modelled.
- `Listen.Startup`: the transport is assumed to call its final function argument once it is listening, as Node's `listen` does. Transport errors and the recorded server handle are not modelled.
- `Listen.Startup`: a rejected `plugin.run` (daruk.ts:103) makes `listen` reject before `pluginReady` and before the transport is called. The trace always contains `PluginsRan` and `PluginReady`, so that outcome is not modelled.
- `Listen.OnListening`: a caller callback that throws (daruk.ts:115) skips the log line. The trace always ends in `Starting`, so that outcome is not modelled.
- `Registry.SetModule`: on an array bucket, a key that spells an array index writes an array element in JavaScript. The key `length` truncates or extends the array, and it throws `RangeError` for a value that is not a valid array length. The model stores every such key in the bucket's named-property map and leaves the items unchanged.
- `Registry.MergeModule`: it writes through `setModule` (daruk.ts:155), so the index-key and `length` behaviour on an array bucket described for `Registry.SetModule` applies to it as well and is not modelled.
- Registry type or key names that collide with `Object.prototype` members (`constructor`, `__proto__`) are not modelled. They behave as ordinary names here.
- `Registry.MergeModule` sets keys in an arbitrary order rather than `Object.keys` order. The result does not depend on the order.
