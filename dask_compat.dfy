/**
 The dependency guard of dask_compat.py: platform flags, reading a module's
 declared version, and importing an optional dependency under a minimum
 version with a raise / warn / ignore policy.

 The runtime is an input: the result of `importlib.import_module(name)` is an
 `ImportAttempt`, `sys.modules` is a map from module names to module records,
 and the version library (`packaging.version`) is a `Versioning<V>` value that
 parses strings, orders parsed versions and prints them back.
 Exceptions and `warnings.warn` become values of `Outcome`.
 */
module DaskCompat {
  import opened Wrappers
  import opened PyStr

  /** Minimum versions of optional dependencies, keyed by top-level package name. */
  const Versions: map<string, string> := map[
    "numpy" := "1.21.0",
    "pandas" := "2.0.0",
    "bokeh" := "2.4.2",
    "jinja2" := "2.10.3",
    "pyarrow" := "7.0.0",
    "lz4" := "4.3.2"
  ]

  /** Import names whose installable (PyPI) package name differs. */
  const InstallMapping: map<string, string> := map[
    "sqlalchemy" := "SQLAlchemy",
    "tables" := "pytables"
  ]

  /** The four platform constants computed from `sys.platform` at load time. */
  datatype PlatformFlags = PlatformFlags(emscripten: bool, linux: bool, macos: bool, windows: bool)

  function FlagCount(f: PlatformFlags): nat {
    (if f.emscripten then 1 else 0) + (if f.linux then 1 else 0)
    + (if f.macos then 1 else 0) + (if f.windows then 1 else 0)
  }

  /** At most one flag is set; exactly one when the platform is one of the four known identifiers. */
  function Platform(platform: string): (f: PlatformFlags)
    ensures FlagCount(f) <= 1
    ensures FlagCount(f) == 1 <==> platform in {"emscripten", "linux", "darwin", "win32"}
    ensures f.emscripten <==> platform == "emscripten"
    ensures f.linux <==> platform == "linux"
    ensures f.macos <==> platform == "darwin"
    ensures f.windows <==> platform == "win32"
  {
    PlatformFlags(platform == "emscripten", platform == "linux", platform == "darwin", platform == "win32")
  }

  /**
   What the guard sees of a module object: its `__name__` and its
   `__version__`, which is either absent (`getattr` yields None) or a string.
   */
  datatype ModuleRecord = ModuleRecord(name: string, version: Option<string>)

  /**
   The result of `importlib.import_module(name)`: the module, an ImportError
   (which the guard catches), or any other exception (which it does not).
   */
  datatype ImportAttempt =
    | Loaded(m: ModuleRecord)
    | NotFound
    | Crashed(exception: string)

  /** The exceptions that can leave the guard. */
  datatype Exception =
    | ImportError(message: string)
    | InvalidVersion(text: string)   // raised by the version library for an unparseable minimum
    | AssertionError
    | IndexError                     // `split()[0]` of a whitespace-only version
    | Uncaught(exception: string)    // an exception from the import other than ImportError

  datatype Result<T> = Ok(value: T) | Err(exception: Exception)

  /** How a call of `import_optional_dependency` ends. */
  datatype Outcome =
    | ReturnModule(m: ModuleRecord)
    | ReturnNone(warning: Option<string>)   // the UserWarning emitted before returning None, if any
    | Raise(exception: Exception)

  /**
   The parts of the version library the guard uses: `Version(s)` (None where
   it raises InvalidVersion), the order `<` on parsed versions, and `str()`.
   */
  datatype Versioning<!V> = Versioning(parse: string -> Option<V>, less: (V, V) -> bool, show: V -> string)

  /** Python dict's `m.get(k, fallback)`. */
  function Get<K, T>(m: map<K, T>, k: K, fallback: T): T {
    if k in m then m[k] else fallback
  }

  function Lookup<K, T>(m: map<K, T>, k: K): Option<T> {
    if k in m then Some(m[k]) else None
  }

  /** The "<what> for the module '<name>'." messages of the two version errors; they name the module. */
  function ModuleMessage(what: string, moduleName: string): (msg: string)
    ensures Contains(msg, moduleName)
  {
    var a, b := what + " for the module '", "'.";
    ContainsInfix(a, moduleName, b);
    a + moduleName + b
  }

  /**
   The module's declared version. An absent or empty `__version__` raises
   ImportError naming the module; for psycopg2 only the first
   whitespace-separated token is kept, and a version made only of whitespace
   makes that `split()[0]` raise IndexError; any other module's version is
   returned as it is.
   */
  function GetVersion(m: ModuleRecord): (r: Result<string>)
    ensures !Truthy(m.version) ==>
      r.Err? && r.exception.ImportError? && Contains(r.exception.message, m.name)
    ensures Truthy(m.version) && m.name != "psycopg2" ==> r == Ok(m.version.value)
    ensures Truthy(m.version) && m.name == "psycopg2" ==>
      (r == Err(IndexError) <==> AllSpace(m.version.value))
    ensures r.Ok? ==> r.value != "" && m.version.Some? && Contains(m.version.value, r.value)
    ensures r.Ok? && m.name == "psycopg2" ==> NoSpace(r.value)
    ensures Truthy(m.version) && m.name == "psycopg2" && !AllSpace(m.version.value) ==>
      r == Ok(FirstToken(m.version.value).value)
  {
    if !Truthy(m.version) then
      Err(ImportError(ModuleMessage("Cannot determine the version", m.name)))
    else if m.name == "psycopg2" then
      match FirstToken(m.version.value)
      case None => Err(IndexError)
      case Some(token) => Ok(token)
    else
      assert m.version.value <= m.version.value;
      Ok(m.version.value)
  }

  /** The name to tell the user to install: the mapped package name when the full dotted name is mapped. */
  function PackageName(name: string): (r: string)
    ensures name in InstallMapping ==> r == InstallMapping[name]
    ensures r == name <==> name !in InstallMapping
  {
    Get(InstallMapping, name, name)
  }

  function MissingMessage(packageName: string, extra: string): (msg: string)
    ensures Contains(msg, packageName) && Contains(msg, extra)
  {
    var a := "Missing optional dependency '";
    var b := "'. " + extra + " Use pip or conda to install " + packageName + ".";
    var c := "Missing optional dependency '" + packageName + "'. ";
    var d := " Use pip or conda to install " + packageName + ".";
    assert a + packageName + b == c + extra + d;
    ContainsInfix(a, packageName, b);
    ContainsInfix(c, extra, d);
    a + packageName + b
  }

  function VersionMessage(parent: string, installed: string, required: string): (msg: string)
    ensures Contains(msg, parent) && Contains(msg, installed) && Contains(msg, required)
  {
    var p1 := "'";
    var p2 := "' version '" + installed + "' is installed; Dask requires version '" + required + "' or newer.";
    var i1 := "'" + parent + "' version '";
    var i2 := "' is installed; Dask requires version '" + required + "' or newer.";
    var r1 := "'" + parent + "' version '" + installed + "' is installed; Dask requires version '";
    var r2 := "' or newer.";
    assert p1 + parent + p2 == i1 + installed + i2 == r1 + required + r2;
    ContainsInfix(p1, parent, p2);
    ContainsInfix(i1, installed, i2);
    ContainsInfix(r1, required, r2);
    p1 + parent + p2
  }

  predicate ValidPolicy(errors: string) {
    errors in {"warn", "raise", "ignore"}
  }

  /** The module whose version is checked: the loaded entry for the top-level package, else the imported module. */
  function ModuleToCheck(name: string, m: ModuleRecord, loaded: map<string, ModuleRecord>): (r: ModuleRecord)
    ensures FirstSegment(name) in loaded ==> r == loaded[FirstSegment(name)]
    ensures FirstSegment(name) !in loaded ==> r == m
  {
    Get(loaded, FirstSegment(name), m)
  }

  /**
   The version floor: a non-empty explicit minimum wins; otherwise the table
   entry of the top-level package. Since no table entry is empty, a floor
   applies exactly when one of the two is given.
   */
  function RequiredVersion(name: string, minVersion: Option<string>): (r: Option<string>)
    ensures Truthy(minVersion) ==> r == minVersion
    ensures !Truthy(minVersion) ==> r == Lookup(Versions, FirstSegment(name))
    ensures Truthy(r) <==> Truthy(minVersion) || FirstSegment(name) in Versions
  {
    Or(minVersion, Lookup(Versions, FirstSegment(name)))
  }

  /**
   import_optional_dependency(name, extra, min_version, errors=errors), given
   the result of importing `name` and the table of loaded modules.
   A policy outside {raise, warn, ignore} fails the assertion whatever was
   imported; an exception from the import other than ImportError is not
   caught, under any policy; a returned module is always the one that was
   imported; None is returned only under warn or ignore, and with a warning
   only under warn.
   */
  function ImportOptionalDependency<V>(
    vs: Versioning<V>, name: string, extra: string, minVersion: Option<string>, errors: string,
    attempt: ImportAttempt, loaded: map<string, ModuleRecord>): (r: Outcome)
    ensures !ValidPolicy(errors) <==> r == Raise(AssertionError)
    ensures ValidPolicy(errors) && attempt.Crashed? ==> r == Raise(Uncaught(attempt.exception))
    ensures r.ReturnModule? ==> attempt == Loaded(r.m)
    ensures r.ReturnNone? ==> errors == "warn" || errors == "ignore"
    ensures r.ReturnNone? && r.warning.Some? ==> errors == "warn" && attempt.Loaded?
  {
    if !ValidPolicy(errors) then
      Raise(AssertionError)
    else
      var msg := MissingMessage(PackageName(name), extra);
      match attempt
      case NotFound =>
        if errors == "raise" then Raise(ImportError(msg)) else ReturnNone(None)
      case Crashed(e) =>
        Raise(Uncaught(e))
      case Loaded(m) =>
        var parent := FirstSegment(name);
        var minimum := RequiredVersion(name, minVersion);
        if !Truthy(minimum) then
          ReturnModule(m)
        else
          match GetVersion(ModuleToCheck(name, m, loaded))
          case Err(e) => Raise(e)
          case Ok(text) =>
            match vs.parse(text)
            case None => Raise(ImportError(ModuleMessage("Invalid version", parent)))
            case Some(installed) =>
              match vs.parse(minimum.value)
              case None => Raise(InvalidVersion(minimum.value))
              case Some(required) =>
                if vs.less(installed, required) then
                  var versionMsg := VersionMessage(parent, vs.show(installed), vs.show(required));
                  if errors == "warn" then ReturnNone(Some(versionMsg))
                  else if errors == "raise" then Raise(ImportError(versionMsg))
                  else ReturnNone(None)
                else
                  ReturnModule(m)
  }
}
