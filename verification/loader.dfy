/** The convention-based loader (src/core/loader.ts) over an abstract
    filesystem: directory listings, and the value `require` yields for a
    path. Every convention violation stops loading with an error value
    in place of the thrown assertion. */
module Loader {
  import opened Wrappers
  import opened Strings
  import opened ControllerPaths

  /** A loaded export as far as the loader inspects it: whether it is a
      function (`is.fn`), its `name` property if it has one, and an
      identity distinguishing otherwise equal exports. */
  datatype Value = Value(callable: bool, name: Option<string>, id: nat)

  /** One entry of a directory listing; `isFile` is what `lstat` reports,
      so directories and symbolic links both have it false. */
  datatype Entry = Entry(name: string, isFile: bool)

  /** A first-level module descriptor. */
  datatype Desc = Desc(name: string, path: string)

  /** The helpers the loader imports from elsewhere, left uninterpreted:
      the recognised-source-file filter, the removal of the source-file
      extension, and the test for extending the base context class. */
  datatype Conventions = Conventions(
    isJsTsFile: string -> bool,
    stripExt: string -> string,
    isSubClass: Value -> bool)

  /** The filesystem as the loader sees it: the listing of every existing
      directory, and the export each path loads to. */
  datatype Disk = Disk(dirs: map<string, seq<Entry>>, load: string -> Value)

  /** The boot-time assertion failures, each naming the offending path. */
  datatype LoadError =
    | NotBaseController(file: string)
    | ClassNameMismatch(file: string, expected: string)
    | NotFunctionModule(kind: string, path: string)
    | NotFunctionClass(key: string, path: string)
    | NotBaseClass(key: string, path: string)
  {
    function Path(): string {
      match this
      case NotBaseController(f) => f
      case ClassNameMismatch(f, _) => f
      case NotFunctionModule(_, p) => p
      case NotFunctionClass(_, p) => p
      case NotBaseClass(_, p) => p
    }
  }

  /** The base class a class module of category `key` must extend. */
  function ExpectedBase(key: string): string {
    "Daruk.Base" + Capitalize(key)
  }

  /** The text of each assertion failure. */
  function Message(e: LoadError): (r: string)
    ensures e.NotFunctionModule? ==> MatchesAt(r, "[" + e.kind + "]", 0)
    ensures e.NotFunctionClass? || e.NotBaseClass? ==> MatchesAt(r, "[" + e.key + "]", 0)
    ensures e.ClassNameMismatch? ==> MatchesAt(r, e.expected, 33)
  {
    match e
    case NotBaseController(f) =>
      "[controller must export a subclass of Daruk.BaseController in path: " + f
    case ClassNameMismatch(f, expected) =>
      var m := "controller class name should be '" + expected + "' ( CamelCase style and match route path ) in path: " + f;
      QuotedAt("controller class name should be '", expected, "' ( CamelCase style and match route path ) in path: ", f);
      m
    case NotFunctionModule(kind, p) =>
      BracketPrefix(kind, "] must export a function in path in path: ", p);
      "[" + kind + "] must export a function in path in path: " + p
    case NotFunctionClass(key, p) =>
      BracketPrefix(key, "] must export a function, ", p);
      "[" + key + "] must export a function, " + p
    case NotBaseClass(key, p) =>
      BracketPrefix(key, "] must export a subclass of " + ExpectedBase(key) + " in path: ", p);
      "[" + key + "] must export a subclass of " + ExpectedBase(key) + " in path: " + p
  }

  /** A message opening with `[name]` names the category at its start. */
  lemma BracketPrefix(name: string, rest: string, p: string)
    requires |rest| > 0 && rest[0] == ']'
    ensures MatchesAt("[" + name + rest + p, "[" + name + "]", 0)
  {
    var m := "[" + name + rest + p;
    assert m[..|name| + 2] == "[" + name + "]" by {
      forall i | 0 <= i < |name| + 2 ensures m[i] == ("[" + name + "]")[i] {
        if i == |name| + 1 {
          assert m[i] == rest[0];
        }
      }
    }
  }

  /** A part quoted between two literals sits right after the first. */
  lemma QuotedAt(pre: string, x: string, post: string, p: string)
    ensures MatchesAt(pre + x + post + p, x, |pre|)
  {
    var m := pre + x + post + p;
    assert m[|pre|..|pre| + |x|] == x;
  }

  /** Every failure message ends with the offending path. */
  lemma MessageNamesPath(e: LoadError)
    ensures EndsWith(Message(e), e.Path())
  {
    match e
    case NotBaseController(f) =>
      EndsWithAppend("[controller must export a subclass of Daruk.BaseController in path: ", f);
    case ClassNameMismatch(f, expected) =>
      EndsWithAppend("controller class name should be '" + expected + "' ( CamelCase style and match route path ) in path: ", f);
    case NotFunctionModule(kind, p) =>
      EndsWithAppend("[" + kind + "] must export a function in path in path: ", p);
    case NotFunctionClass(key, p) =>
      EndsWithAppend("[" + key + "] must export a function, ", p);
    case NotBaseClass(key, p) =>
      EndsWithAppend("[" + key + "] must export a subclass of " + ExpectedBase(key) + " in path: ", p);
  }

  /** The class-module failure names the base class built from the
      category: `Daruk.Base` followed by the category with its first
      character upper-cased. */
  lemma BaseClassMessage(key: string, p: string)
    ensures var m := Message(NotBaseClass(key, p));
      MatchesAt(m, ExpectedBase(key), |key| + 29)
    ensures |key| > 0 ==> ExpectedBase(key)[10] == ToUpper(key[0]) && ExpectedBase(key)[11..] == key[1..]
  {
    var pre := "[" + key + "] must export a subclass of ";
    var post := " in path: " + p;
    assert Message(NotBaseClass(key, p)) == pre + ExpectedBase(key) + post;
    MatchesAtMiddle(pre, ExpectedBase(key), post);
    if |key| > 0 {
      var base := "Daruk.Base";
      assert ExpectedBase(key) == base + Capitalize(key);
      assert |base| == 10;
    }
  }

  /** For the `service` category the expected base is `Daruk.BaseService`. */
  lemma ServiceBase()
    ensures ExpectedBase("service") == "Daruk.BaseService"
  {
  }

  // ---------------------------------------------------------------------
  // The fail-fast fold shared by every loader: each item yields a key and
  // a value, or an error that ends the fold; later keys overwrite earlier.
  // ---------------------------------------------------------------------

  function Fold<T>(items: seq<T>, step: T -> Result<(string, Value), LoadError>, acc: map<string, Value>)
    : (r: Result<map<string, Value>, LoadError>)
    ensures r.Success? ==> acc.Keys <= r.value.Keys
  {
    if |items| == 0 then Success(acc)
    else match step(items[0])
      case Failure(e) => Failure(e)
      case Success(kv) => Fold(items[1..], step, acc[kv.0 := kv.1])
  }

  /** Item `i` is accepted and yields key `k`. */
  predicate Yields<T>(items: seq<T>, step: T -> Result<(string, Value), LoadError>, i: int, k: string) {
    0 <= i < |items| && step(items[i]).Success? && step(items[i]).value.0 == k
  }

  /** Item `i` is the last one to yield key `k`. */
  predicate LastYield<T>(items: seq<T>, step: T -> Result<(string, Value), LoadError>, i: int, k: string) {
    Yields(items, step, i, k) && forall j :: i < j < |items| ==> !Yields(items, step, j, k)
  }

  /** The fold succeeds exactly when every item is accepted; otherwise it
      reports the error of the first rejected item. */
  lemma {:induction false} FoldFailsFast<T>(items: seq<T>, step: T -> Result<(string, Value), LoadError>, acc: map<string, Value>)
    ensures Fold(items, step, acc).Success? <==> forall i :: 0 <= i < |items| ==> step(items[i]).Success?
    ensures Fold(items, step, acc).Failure? ==>
      exists i :: 0 <= i < |items| && step(items[i]) == Failure(Fold(items, step, acc).error)
        && forall j :: 0 <= j < i ==> step(items[j]).Success?
    decreases |items|
  {
    if |items| > 0 {
      match step(items[0])
      case Failure(e) =>
        assert step(items[0]) == Failure(Fold(items, step, acc).error);
      case Success(kv) =>
        var rest := items[1..];
        FoldFailsFast(rest, step, acc[kv.0 := kv.1]);
        assert forall i :: 1 <= i < |items| ==> items[i] == rest[i - 1];
        if Fold(items, step, acc).Failure? {
          var i :| 0 <= i < |rest| && step(rest[i]) == Failure(Fold(items, step, acc).error)
            && forall j :: 0 <= j < i ==> step(rest[j]).Success?;
          assert step(items[i + 1]) == Failure(Fold(items, step, acc).error);
          assert forall j :: 0 <= j < i + 1 ==> step(items[j]).Success? by {
            forall j | 0 <= j < i + 1 ensures step(items[j]).Success? {
              if j > 0 {
                assert items[j] == rest[j - 1];
              }
            }
          }
        }
    }
  }

  /** On success, the keys are the starting keys plus the keys of the
      accepted items. */
  lemma {:induction false} FoldKeys<T>(items: seq<T>, step: T -> Result<(string, Value), LoadError>, acc: map<string, Value>)
    ensures var r := Fold(items, step, acc);
      r.Success? ==> forall k :: k in r.value <==> k in acc || exists i :: Yields(items, step, i, k)
    decreases |items|
  {
    if |items| > 0 && step(items[0]).Success? {
      var kv := step(items[0]).value;
      var rest := items[1..];
      FoldKeys(rest, step, acc[kv.0 := kv.1]);
      assert Fold(items, step, acc) == Fold(rest, step, acc[kv.0 := kv.1]);
      if Fold(items, step, acc).Success? {
        assert Yields(items, step, 0, kv.0);
        forall i, k | Yields(rest, step, i, k) ensures Yields(items, step, i + 1, k) {
          assert items[i + 1] == rest[i];
        }
        forall i, k | 1 <= i && Yields(items, step, i, k) ensures Yields(rest, step, i - 1, k) {
          assert items[i] == rest[i - 1];
        }
      }
    }
  }

  /** On success, each item key holds the value of the LAST item yielding
      it, and a starting key that no item yields keeps its starting value. */
  lemma {:induction false} FoldLastWins<T>(items: seq<T>, step: T -> Result<(string, Value), LoadError>, acc: map<string, Value>)
    ensures var r := Fold(items, step, acc);
      r.Success? ==> forall k :: k in r.value ==>
        (exists i :: LastYield(items, step, i, k) && r.value[k] == step(items[i]).value.1)
        || (k in acc && r.value[k] == acc[k] && forall i :: !Yields(items, step, i, k))
    decreases |items|
  {
    if |items| > 0 && step(items[0]).Success? {
      var kv := step(items[0]).value;
      var acc' := acc[kv.0 := kv.1];
      var rest := items[1..];
      FoldLastWins(rest, step, acc');
      var r := Fold(items, step, acc);
      assert r == Fold(rest, step, acc');
      if r.Success? {
        forall i, k | 1 <= i && Yields(items, step, i, k) ensures Yields(rest, step, i - 1, k) {
          assert items[i] == rest[i - 1];
        }
        forall k | k in r.value
          ensures (exists i :: LastYield(items, step, i, k) && r.value[k] == step(items[i]).value.1)
            || (k in acc && r.value[k] == acc[k] && forall i :: !Yields(items, step, i, k))
        {
          if i' :| LastYield(rest, step, i', k) && r.value[k] == step(rest[i']).value.1 {
            assert items[i' + 1] == rest[i'];
            assert LastYield(items, step, i' + 1, k);
          } else if k == kv.0 {
            assert LastYield(items, step, 0, k);
          }
        }
      }
    }
  }

  /** When every item is accepted with key `key(x)` and value `val(x)`,
      the fold from an empty map holds exactly the items' keys, each with
      the value of the last item carrying it. */
  lemma FoldAccepted<T>(items: seq<T>, step: T -> Result<(string, Value), LoadError>, key: T -> string, val: T -> Value)
    requires forall i :: 0 <= i < |items| ==> step(items[i]) == Success((key(items[i]), val(items[i])))
    ensures Fold(items, step, map[]).Success?
    ensures forall k :: k in Fold(items, step, map[]).value <==> exists i :: 0 <= i < |items| && key(items[i]) == k
    ensures forall k :: k in Fold(items, step, map[]).value ==>
      exists i :: 0 <= i < |items| && key(items[i]) == k && Fold(items, step, map[]).value[k] == val(items[i])
        && forall j :: i < j < |items| ==> key(items[j]) != k
  {
    FoldFailsFast(items, step, map[]);
    FoldKeys(items, step, map[]);
    FoldLastWins(items, step, map[]);
    var m := Fold(items, step, map[]).value;
    forall k | k in m
      ensures exists i :: (0 <= i < |items| && key(items[i]) == k && m[k] == val(items[i])
        && forall j :: i < j < |items| ==> key(items[j]) != k)
    {
      var i :| LastYield(items, step, i, k) && m[k] == step(items[i]).value.1;
      forall j | i < j < |items| ensures key(items[j]) != k {
        assert !Yields(items, step, j, k);
      }
    }
    forall k | exists i :: 0 <= i < |items| && key(items[i]) == k ensures k in m {
      var i :| 0 <= i < |items| && key(items[i]) == k;
      assert Yields(items, step, i, k);
    }
  }

  // ---------------------------------------------------------------------
  // loadController (loader.ts, lines 19-50)
  // ---------------------------------------------------------------------

  /** The module-relative path of a controller file: the first occurrence
      of the root removed, then the source-file extension removed. */
  function RelativePath(c: Conventions, root: string, file: string): string {
    c.stripExt(RemoveFirst(file, root))
  }

  function ControllerClassName(c: Conventions, root: string, file: string): string {
    ClassNameOf(RelativePath(c, root, file))
  }

  function ControllerRoute(c: Conventions, root: string, file: string): string {
    RouteOf(RelativePath(c, root, file))
  }

  /** The two assertions made about one controller file. */
  function CheckController(c: Conventions, disk: Disk, root: string, file: string): (r: Result<(string, Value), LoadError>)
    ensures r.Success? <==> c.isSubClass(disk.load(file)) && disk.load(file).name == Some(ControllerClassName(c, root, file))
    ensures !c.isSubClass(disk.load(file)) ==> r == Failure(NotBaseController(file))
    ensures c.isSubClass(disk.load(file)) && disk.load(file).name != Some(ControllerClassName(c, root, file)) ==>
      r == Failure(ClassNameMismatch(file, ControllerClassName(c, root, file)))
    ensures r.Success? ==> r.value == (ControllerRoute(c, root, file), disk.load(file))
  {
    var controller := disk.load(file);
    if !c.isSubClass(controller) then Failure(NotBaseController(file))
    else
      var rel := RelativePath(c, root, file);
      var expected := ClassNameOf(rel);
      if controller.name != Some(expected) then Failure(ClassNameMismatch(file, expected))
      else Success((RouteOf(rel), controller))
  }

  /** `loadController` over the recursive listing `files` of `root`. */
  function LoadController(c: Conventions, disk: Disk, root: string, files: seq<string>): (r: Result<map<string, Value>, LoadError>)
    ensures r.Success? <==> forall i :: 0 <= i < |files| ==> CheckController(c, disk, root, files[i]).Success?
    ensures r.Failure? ==>
      exists i :: 0 <= i < |files| && CheckController(c, disk, root, files[i]) == Failure(r.error)
        && forall j :: 0 <= j < i ==> CheckController(c, disk, root, files[j]).Success?
    ensures r.Success? ==>
      forall route :: route in r.value <==> exists i :: 0 <= i < |files| && ControllerRoute(c, root, files[i]) == route
    ensures r.Success? ==>
      forall route :: route in r.value ==>
        exists i :: 0 <= i < |files| && ControllerRoute(c, root, files[i]) == route
          && r.value[route] == disk.load(files[i])
          && r.value[route].name == Some(ControllerClassName(c, root, files[i]))
          && forall j :: i < j < |files| ==> ControllerRoute(c, root, files[j]) != route
  {
    var step := (f: string) => CheckController(c, disk, root, f);
    FoldFailsFast(files, step, map[]);
    var r := Fold(files, step, map[]);
    if r.Success? then
      FoldAccepted(files, step, (f: string) => ControllerRoute(c, root, f), (f: string) => disk.load(f));
      r
    else r
  }

  /** A controller at `/user/index` must be named `UserIndex`, since the
      name is checked before the index is collapsed, and is then served
      at `/user/`; under any other name loading stops at that file. */
  lemma IndexController(c: Conventions, disk: Disk, root: string, file: string)
    requires RelativePath(c, root, file) == "/user/index"
    requires c.isSubClass(disk.load(file))
    ensures disk.load(file).name == Some("UserIndex") ==>
      LoadController(c, disk, root, [file]) == Success(map["/user/" := disk.load(file)])
    ensures disk.load(file).name != Some("UserIndex") ==>
      LoadController(c, disk, root, [file]) == Failure(ClassNameMismatch(file, "UserIndex"))
  {
    assert "/" + "user" + "/" + "index" == "/user/index";
    ExampleClassNames("user", "profile", "index");
    ExampleRoutes();
    var step := (f: string) => CheckController(c, disk, root, f);
    assert [file][1..] == [];
    assert LoadController(c, disk, root, [file]) == Fold([file], step, map[]);
  }

  // ---------------------------------------------------------------------
  // getModuleDesc (loader.ts, lines 85-102)
  // ---------------------------------------------------------------------

  /** `path.join(dir, name)` for a plain file name. */
  function Join(dir: string, name: string): string {
    dir + "/" + name
  }

  /** Files are kept when they pass the source-file filter; every other
      entry (a directory, assumed to hold an index file) is kept. */
  predicate Kept(c: Conventions, dir: string, e: Entry) {
    (e.isFile && c.isJsTsFile(Join(dir, e.name))) || !e.isFile
  }

  function DescOf(c: Conventions, dir: string, e: Entry): Desc {
    Desc(if e.isFile then c.stripExt(e.name) else e.name, Join(dir, e.name))
  }

  /** Every entry of the listing is kept. */
  predicate AllKept(c: Conventions, dir: string, entries: seq<Entry>) {
    |entries| == 0 || (Kept(c, dir, entries[0]) && AllKept(c, dir, entries[1..]))
  }

  /** No entry of the listing is kept. */
  predicate NoneKept(c: Conventions, dir: string, entries: seq<Entry>) {
    |entries| == 0 || (!Kept(c, dir, entries[0]) && NoneKept(c, dir, entries[1..]))
  }

  /** The descriptors of a listing, in listing order. */
  function Describe(c: Conventions, dir: string, entries: seq<Entry>): (r: seq<Desc>)
    ensures |r| <= |entries|
    ensures AllKept(c, dir, entries) ==> |r| == |entries|
    ensures NoneKept(c, dir, entries) ==> r == []
  {
    if |entries| == 0 then []
    else (if Kept(c, dir, entries[0]) then [DescOf(c, dir, entries[0])] else []) + Describe(c, dir, entries[1..])
  }

  /** A descriptor is produced exactly for each kept entry. */
  lemma {:induction false} DescribeMembers(c: Conventions, dir: string, entries: seq<Entry>)
    ensures forall d :: d in Describe(c, dir, entries) <==>
      exists i :: 0 <= i < |entries| && Kept(c, dir, entries[i]) && d == DescOf(c, dir, entries[i])
    decreases |entries|
  {
    if |entries| > 0 {
      var rest := entries[1..];
      DescribeMembers(c, dir, rest);
      forall d ensures d in Describe(c, dir, entries) <==>
        exists i :: 0 <= i < |entries| && Kept(c, dir, entries[i]) && d == DescOf(c, dir, entries[i])
      {
        if i :| 0 <= i < |rest| && Kept(c, dir, rest[i]) && d == DescOf(c, dir, rest[i]) {
          assert entries[i + 1] == rest[i];
        }
        if i :| 0 <= i < |entries| && Kept(c, dir, entries[i]) && d == DescOf(c, dir, entries[i]) {
          if i > 0 {
            assert entries[i] == rest[i - 1];
          }
        }
      }
    }
  }

  /** The descriptors follow the listing: describing a listing in two parts
      gives the two parts' descriptors one after the other. */
  lemma {:induction false} DescribeAppend(c: Conventions, dir: string, a: seq<Entry>, b: seq<Entry>)
    ensures Describe(c, dir, a + b) == Describe(c, dir, a) + Describe(c, dir, b)
    decreases |a|
  {
    if |a| == 0 {
      assert a + b == b;
    } else {
      var head := if Kept(c, dir, a[0]) then [DescOf(c, dir, a[0])] else [];
      assert (a + b)[0] == a[0] && (a + b)[1..] == a[1..] + b;
      assert Describe(c, dir, a + b) == head + Describe(c, dir, a[1..] + b);
      assert Describe(c, dir, a) == head + Describe(c, dir, a[1..]);
      DescribeAppend(c, dir, a[1..], b);
    }
  }

  /** A kept file is named without its extension, a directory by its
      unchanged name, and both by the joined path. */
  lemma DescribeOne(c: Conventions, dir: string, e: Entry)
    ensures Kept(c, dir, e) ==> Describe(c, dir, [e]) == [Desc(if e.isFile then c.stripExt(e.name) else e.name, dir + "/" + e.name)]
    ensures !Kept(c, dir, e) ==> Describe(c, dir, [e]) == [] && e.isFile && !c.isJsTsFile(dir + "/" + e.name)
  {
    assert [e][1..] == [];
  }

  /** `getModuleDesc`: a missing directory has no descriptors. */
  function GetModuleDesc(c: Conventions, disk: Disk, dir: string): (r: seq<Desc>)
    ensures dir !in disk.dirs ==> r == []
    ensures dir in disk.dirs ==> forall d :: d in r <==>
      exists i :: 0 <= i < |disk.dirs[dir]| && Kept(c, dir, disk.dirs[dir][i]) && d == DescOf(c, dir, disk.dirs[dir][i])
  {
    if dir in disk.dirs then
      DescribeMembers(c, dir, disk.dirs[dir]);
      Describe(c, dir, disk.dirs[dir])
    else []
  }

  // ---------------------------------------------------------------------
  // loadModule and loadClassModule (loader.ts, lines 51-81)
  // ---------------------------------------------------------------------

  /** The assertion `loadModule` makes about one descriptor. */
  function ModuleStep(disk: Disk, kind: string, d: Desc): (r: Result<(string, Value), LoadError>)
    ensures r.Success? <==> disk.load(d.path).callable
    ensures r.Failure? ==> r.error == NotFunctionModule(kind, d.path)
    ensures r.Success? ==> r.value == (d.name, disk.load(d.path))
  {
    var v := disk.load(d.path);
    if !v.callable then Failure(NotFunctionModule(kind, d.path)) else Success((d.name, v))
  }

  /** `loadModule(type, dir)`: every first-level module must export a
      function; the map is keyed by descriptor name. */
  function LoadModule(c: Conventions, disk: Disk, kind: string, dir: string): (r: Result<map<string, Value>, LoadError>)
    ensures var descs := GetModuleDesc(c, disk, dir);
      r.Success? <==> forall i :: 0 <= i < |descs| ==> disk.load(descs[i].path).callable
    ensures var descs := GetModuleDesc(c, disk, dir);
      r.Failure? ==> exists i :: (0 <= i < |descs| && ModuleStep(disk, kind, descs[i]) == Failure(r.error)
        && forall j :: 0 <= j < i ==> disk.load(descs[j].path).callable)
    ensures var descs := GetModuleDesc(c, disk, dir);
      r.Success? ==> forall name :: name in r.value <==> exists i :: 0 <= i < |descs| && descs[i].name == name
    ensures var descs := GetModuleDesc(c, disk, dir);
      r.Success? ==> forall name :: name in r.value ==>
        exists i :: 0 <= i < |descs| && descs[i].name == name && r.value[name] == disk.load(descs[i].path)
          && forall j :: i < j < |descs| ==> descs[j].name != name
  {
    var descs := GetModuleDesc(c, disk, dir);
    ModuleFold(disk, kind, descs);
    Fold(descs, (d: Desc) => ModuleStep(disk, kind, d), map[])
  }

  /** The fold behind `loadModule`, over any list of descriptors. */
  lemma ModuleFold(disk: Disk, kind: string, descs: seq<Desc>)
    ensures var r := Fold(descs, (d: Desc) => ModuleStep(disk, kind, d), map[]);
      r.Success? <==> forall i :: 0 <= i < |descs| ==> disk.load(descs[i].path).callable
    ensures var r := Fold(descs, (d: Desc) => ModuleStep(disk, kind, d), map[]);
      r.Failure? ==> exists i :: (0 <= i < |descs| && ModuleStep(disk, kind, descs[i]) == Failure(r.error)
        && forall j :: 0 <= j < i ==> disk.load(descs[j].path).callable)
    ensures var r := Fold(descs, (d: Desc) => ModuleStep(disk, kind, d), map[]);
      r.Success? ==> forall name :: name in r.value <==> exists i :: 0 <= i < |descs| && descs[i].name == name
    ensures var r := Fold(descs, (d: Desc) => ModuleStep(disk, kind, d), map[]);
      r.Success? ==> forall name :: name in r.value ==>
        exists i :: 0 <= i < |descs| && descs[i].name == name && r.value[name] == disk.load(descs[i].path)
          && forall j :: i < j < |descs| ==> descs[j].name != name
  {
    var step := (d: Desc) => ModuleStep(disk, kind, d);
    FoldFailsFast(descs, step, map[]);
    if Fold(descs, step, map[]).Success? {
      FoldAccepted(descs, step, (d: Desc) => d.name, (d: Desc) => disk.load(d.path));
    }
  }

  /** A class module is acceptable when it is a function extending the
      base context class. */
  predicate IsClassModule(c: Conventions, v: Value) {
    v.callable && c.isSubClass(v)
  }

  /** The two assertions `loadClassModule` makes about one descriptor:
      a non-function fails the first, a function with the wrong base the
      second. */
  function ClassStep(c: Conventions, disk: Disk, key: string, d: Desc): (r: Result<(string, Value), LoadError>)
    ensures r.Success? <==> IsClassModule(c, disk.load(d.path))
    ensures !disk.load(d.path).callable ==> r == Failure(NotFunctionClass(key, d.path))
    ensures disk.load(d.path).callable && !c.isSubClass(disk.load(d.path)) ==> r == Failure(NotBaseClass(key, d.path))
    ensures r.Success? ==> r.value == (d.name, disk.load(d.path))
  {
    var v := disk.load(d.path);
    if !v.callable then Failure(NotFunctionClass(key, d.path))
    else if !c.isSubClass(v) then Failure(NotBaseClass(key, d.path))
    else Success((d.name, v))
  }

  /** `loadClassModule(key, dir)`: every first-level module must export a
      function that extends the base context class. */
  function LoadClassModule(c: Conventions, disk: Disk, key: string, dir: string): (r: Result<map<string, Value>, LoadError>)
    ensures var descs := GetModuleDesc(c, disk, dir);
      r.Success? <==> forall i :: 0 <= i < |descs| ==> IsClassModule(c, disk.load(descs[i].path))
    ensures var descs := GetModuleDesc(c, disk, dir);
      r.Failure? ==> exists i :: (0 <= i < |descs| && ClassStep(c, disk, key, descs[i]) == Failure(r.error)
        && forall j :: 0 <= j < i ==> IsClassModule(c, disk.load(descs[j].path)))
    ensures var descs := GetModuleDesc(c, disk, dir);
      r.Success? ==> forall name :: name in r.value <==> exists i :: 0 <= i < |descs| && descs[i].name == name
    ensures var descs := GetModuleDesc(c, disk, dir);
      r.Success? ==> forall name :: name in r.value ==>
        exists i :: 0 <= i < |descs| && descs[i].name == name && r.value[name] == disk.load(descs[i].path)
          && forall j :: i < j < |descs| ==> descs[j].name != name
  {
    var descs := GetModuleDesc(c, disk, dir);
    ClassFold(c, disk, key, descs);
    Fold(descs, (d: Desc) => ClassStep(c, disk, key, d), map[])
  }

  /** The fold behind `loadClassModule`, over any list of descriptors. */
  lemma ClassFold(c: Conventions, disk: Disk, key: string, descs: seq<Desc>)
    ensures var r := Fold(descs, (d: Desc) => ClassStep(c, disk, key, d), map[]);
      r.Success? <==> forall i :: 0 <= i < |descs| ==> IsClassModule(c, disk.load(descs[i].path))
    ensures var r := Fold(descs, (d: Desc) => ClassStep(c, disk, key, d), map[]);
      r.Failure? ==> exists i :: (0 <= i < |descs| && ClassStep(c, disk, key, descs[i]) == Failure(r.error)
        && forall j :: 0 <= j < i ==> IsClassModule(c, disk.load(descs[j].path)))
    ensures var r := Fold(descs, (d: Desc) => ClassStep(c, disk, key, d), map[]);
      r.Success? ==> forall name :: name in r.value <==> exists i :: 0 <= i < |descs| && descs[i].name == name
    ensures var r := Fold(descs, (d: Desc) => ClassStep(c, disk, key, d), map[]);
      r.Success? ==> forall name :: name in r.value ==>
        exists i :: 0 <= i < |descs| && descs[i].name == name && r.value[name] == disk.load(descs[i].path)
          && forall j :: i < j < |descs| ==> descs[j].name != name
  {
    var step := (d: Desc) => ClassStep(c, disk, key, d);
    FoldFailsFast(descs, step, map[]);
    if Fold(descs, step, map[]).Success? {
      FoldAccepted(descs, step, (d: Desc) => d.name, (d: Desc) => disk.load(d.path));
    }
  }
}
