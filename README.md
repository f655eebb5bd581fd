# Dependency guard of `dask_compat.py`, modelled in Dafny

`dask_compat.py` guards a larger system's use of optional third-party packages.
Its core is `import_optional_dependency(name, extra, min_version, errors)`. It
imports a module by its dotted name. It reads the declared version of the module's
top-level package and compares it with a minimum version. It then returns the
module, returns `None` (with or without a `UserWarning`), or raises. The choice
depends on a policy: `raise`, `warn` or `ignore`. `get_version` reads a module's
`__version__`. For the `psycopg2` driver it keeps only the first
whitespace-separated token.

The model is pure, as the source is:

- `PyStr` (`py_str.dfy`) holds the Python string behaviour the guard uses.
  This is truthiness of `None`-or-string values, `a or b`, `s.split()[0]`
  (with Python's own whitespace set), `s.split(".")[0]` and `t in s`.
- `DaskCompat` (`dask_compat.dfy`) holds the static tables `VERSIONS` and
  `INSTALL_MAPPING`, the platform flags, `get_version` and
  `import_optional_dependency`. Each is a function. Its helpers `Get` and
  `Lookup` are Python's `d.get(k, default)` and `d.get(k)`
  (dask_compat.py:86, :101 and :104); what they return is stated through
  `PackageName`, `ModuleToCheck` and `RequiredVersion`.
- `GuardProperties` (`guard_properties.dfy`) states, over all inputs, what the
  guard promises.

The runtime is passed in as inputs:

- the result of `importlib.import_module(name)` is an `ImportAttempt`: the
  loaded module, an `ImportError` (caught by the guard), or any other exception
  (not caught);
- `sys.modules` is a `map<string, ModuleRecord>`;
- a module is a `ModuleRecord`: its `__name__` and its `__version__`, which is
  absent or a string;
- `packaging.version` is a `Versioning<V>` value. It holds a parse function
  (`None` where `Version(s)` raises `InvalidVersion`), the `<` order and
  `str()`. Its rules are those of PEP 440 and are not modelled.

Every exception and the warning are values of `Outcome`:

- `ReturnModule(m)`;
- `ReturnNone(warning)`;
- `Raise(e)`, where `e` is `ImportError(message)`, `InvalidVersion(text)`,
  `AssertionError`, `IndexError` or `Uncaught(...)`.

Behaviour of the code that is easy to miss, and that the model keeps:

- An unparseable *installed* version becomes an `ImportError`. An unparseable
  *minimum* is parsed outside the `try` and escapes as the version library's
  own `InvalidVersion`.
- A `psycopg2` version made only of whitespace raises `IndexError` from
  `split()[0]`. Nothing catches it.
- The platform flags guarantee at most one true flag, not exactly one. A
  platform other than the four known identifiers sets none.
- Versions are ordered by the version library's order (PEP 440), not a
  generic semantic-version order.

## Model

| member | source | states |
|---|---|---|
| `PyStr.PythonTruthiness` | dask_compat.py:48 | Python's truth test on a `None`-or-string value (`Truthy`, also used by `or` at :104 and `if` at :105): `None` and `""` are falsy, every other string, even `" "` or `"0"`, is truthy |
| `PyStr.Or` | dask_compat.py:104 | Python `a or b` on optional strings: the result is `a` when `a` is truthy and `b` otherwise, so it is truthy iff either operand is |
| `PyStr.PythonWhitespace` | dask_compat.py:52 | sample points of the separator set of `split()`, which `IsSpace` defines as Python's `str.isspace` set: tab, newline, carriage return, VT, FF, U+001F, the space, NEL, NO-BREAK SPACE, U+2009 and U+3000 are separators; letters, digits, '.', '(', the zero-width space, the byte-order mark and U+180E are not |
| `PyStr.LeadingSpaces` | dask_compat.py:52 | what `split()` skips first: a count of leading characters that are all whitespace, followed by the end or by a non-whitespace character |
| `PyStr.TakeWord` | dask_compat.py:52 | the token `split()` takes: a whitespace-free prefix of the input that ends at whitespace or at the end |
| `PyStr.FirstToken` | dask_compat.py:52 | `version.split()[0]` fails exactly when the string is all whitespace; otherwise the token is non-empty, has no whitespace and occurs in the string |
| `PyStr.LeadingSpacesOfLayout` | dask_compat.py:52 | a run of leading whitespace is skipped whole, up to the first non-whitespace character |
| `PyStr.TakeWordStopsAtSpace` | dask_compat.py:52 | a token is taken whole, up to the whitespace that ends it |
| `PyStr.FirstTokenOfLayout` | dask_compat.py:52 | for whitespace + a word + (nothing or whitespace + anything), `split()[0]` is exactly that word |
| `PyStr.FirstSegment` | dask_compat.py:100 | `name.split(".")[0]` is a prefix of `name` with no '.', ending at the first '.' or at the end of `name` |
| `PyStr.FirstSegmentOfLayout` | dask_compat.py:100 | the top-level package is unique: any dot-free prefix followed by '.' or by nothing is `name.split(".")[0]` |
| `DaskCompat.Platform` | dask_compat.py:17-20 | each flag is true iff `sys.platform` is its identifier ("emscripten", "linux", "darwin", "win32"); at most one flag is true, and exactly one iff the platform is one of the four |
| `DaskCompat.ModuleMessage` | dask_compat.py:49 | the "cannot determine the version" and "invalid version" messages name the module they are about |
| `DaskCompat.GetVersion` | dask_compat.py:46-53 | a missing or empty `__version__` raises an ImportError naming the module. For psycopg2 the result is IndexError iff the version is all whitespace. For psycopg2 with a non-blank version the result is exactly its first whitespace-separated token. Any other module's version is returned unchanged. A returned version is never empty and occurs in `__version__`; for psycopg2 it has no whitespace |
| `DaskCompat.PackageName` | dask_compat.py:86 | the reported package is `INSTALL_MAPPING[name]` for a mapped full dotted name. It differs from `name` exactly when `name` is mapped |
| `DaskCompat.MissingMessage` | dask_compat.py:87-90 | the missing-dependency message contains the package name and the `extra` text |
| `DaskCompat.VersionMessage` | dask_compat.py:113-116 | the too-old message names the top-level package, the installed version and the required version |
| `DaskCompat.ModuleToCheck` | dask_compat.py:100-101 | the version is read from the loaded-module entry of the top-level package when there is one, otherwise from the imported module |
| `DaskCompat.RequiredVersion` | dask_compat.py:104-105 | a non-empty `min_version` wins; otherwise the table entry of the top-level package is used. A floor applies iff `min_version` is non-empty or the package is in `VERSIONS` |
| `DaskCompat.ImportOptionalDependency` | dask_compat.py:55-125 | the assertion fails iff `errors` is not raise/warn/ignore, whatever the import did. Under a valid policy, an exception from the import other than ImportError propagates unchanged (only ImportError is caught at :94). A returned module is the imported one. `None` is returned only under warn/ignore, and with a warning only under warn after a successful import |
| `GuardProperties.PolicyIsExactMatch` | dask_compat.py:84 | raise, warn and ignore are accepted; the comparison is exact and case-sensitive, so "", "Raise", "warning" and "ignore " fail the assertion |
| `GuardProperties.AssertionBeforeImport` | dask_compat.py:84 | an unknown policy raises AssertionError whatever the import result and the loaded modules are |
| `GuardProperties.MissingDependency` | dask_compat.py:92-97 | a failed import under raise gives an ImportError whose message contains the package name and `extra`; warn and ignore return `None` with no warning |
| `GuardProperties.ReportedPackageNames` | dask_compat.py:41-44 | sqlalchemy is reported as SQLAlchemy and tables as pytables; every other name is reported as itself |
| `GuardProperties.TableFloorForSubmodule` | dask_compat.py:104 | with no non-empty `min_version`, the floor is the `VERSIONS` entry of the top-level package, and a floor then applies |
| `GuardProperties.NoFloorReturnsModule` | dask_compat.py:104-105 | with no non-empty `min_version` and no table entry, the imported module is returned under every policy, whatever its `__version__` |
| `GuardProperties.VersionReadFromImportedModule` | dask_compat.py:100-101 | with the top-level package not loaded, the outcome is that of a table holding the imported module under the top-level name: the imported module is checked |
| `GuardProperties.VersionReadFromTopLevelPackage` | dask_compat.py:100-101 | when the top-level package is loaded, its entry decides the outcome: importing two different submodules ends the same way, except for which module is returned |
| `GuardProperties.UndeterminableVersionRaises` | dask_compat.py:47-49 | when a floor applies and the checked module has no usable `__version__`, an ImportError naming that module is raised under every policy |
| `GuardProperties.WhitespaceDriverVersionRaises` | dask_compat.py:50-52 | a floor applies and the checked psycopg2 version is whitespace-only: IndexError under every policy |
| `GuardProperties.UnparseableInstalledVersionRaises` | dask_compat.py:106-109 | an installed version that does not parse raises an ImportError naming the top-level package, under every policy |
| `GuardProperties.UnparseableMinimumRaises` | dask_compat.py:110 | a minimum that does not parse raises the library's InvalidVersion for that text, not ImportError, once the installed version parsed |
| `GuardProperties.TooOldVersion` | dask_compat.py:112-123 | installed below the floor: the module is never returned. ignore returns `None` silently. warn returns `None` with a warning. raise raises an ImportError. Both texts name the package and both versions |
| `GuardProperties.RecentEnoughReturnsModule` | dask_compat.py:112-125 | installed not below the floor: the imported module is returned unchanged under every policy |
| `GuardProperties.NeverBelowFloor` | dask_compat.py:79-82 | a returned module is the imported one under a valid policy. When a floor applies, its version was read and parsed and is not below the parsed floor |
| `GuardProperties.UnconditionalErrors` | dask_compat.py:106-110 | whatever raises under ignore raises the same way under every policy: missing or unparseable versions are not policy-gated |
| `GuardProperties.ModuleUnderEveryPolicy` | dask_compat.py:105-125 | a module returned under one valid policy is returned under every valid policy |
| `GuardProperties.TooOldIsPolicyGated` | dask_compat.py:117-123 | when ignore returns a silent `None` after an import, a floor applies, both versions parse and the installed one is below the floor. warn then returns `None` with a warning, and raise raises an ImportError with the same text |
| `GuardProperties.DriverVersionOfLayout` | dask_compat.py:50-52 | for every psycopg2 version made of leading whitespace, a word, and then nothing or whitespace and anything, `get_version` returns exactly that word |
| `GuardProperties.DriverVersionToken` | dask_compat.py:52 | the first whitespace-separated token of "2.9.3 (dt dec pq3 ext lo64)" is "2.9.3" |
| `GuardProperties.DriverVersionIsFirstToken` | dask_compat.py:50-52 | psycopg2 reporting "2.9.3 (dt dec pq3 ext lo64)" yields "2.9.3"; any other module keeps the whole string |

## Left out

- `entry_points` (dask_compat.py:22-29) is not modelled. It emits a deprecation warning and passes the query through to `importlib_metadata`, with no logic of its own.
- `PY_VERSION` (dask_compat.py:15) is not modelled. It is a version parsed from the interpreter's version at load time.
- The Python 3.12 import switch (dask_compat.py:9-12) is not modelled. It only chooses where `importlib_metadata` comes from.
- `importlib.import_module` and `sys.modules` are not modelled. Their results are inputs: an `ImportAttempt` and a map of module records.
- PEP 440 version parsing, ordering and printing (`packaging.version.Version`) are kept abstract as `Versioning<V>`. The model assumes nothing about them, not even that `<` is an order.
- Modules are compared as values (`__name__` and `__version__`), not by object identity.
- A `__version__` that is present but not a string (for example a tuple) is not modelled. For such a value `split` or `Version` would raise a different error.
- Exception chaining (`raise ... from err`) is not modelled. Nor are the exception's cause, the warning's category beyond being the one `UserWarning`, or its stack level.
- The assertion on `errors` is modelled as always active. Running Python with `-O` strips it, and an unknown policy then behaves like `ignore`. The model does not capture that.
- The warnings filter is not modelled. The model assumes the default filter, under which `warnings.warn` (dask_compat.py:118) only emits. Under `-W error` or `warnings.simplefilter("error")` the warn branch raises `UserWarning` instead of returning `None`. The `TooOldVersion`, `TooOldIsPolicyGated` and `ImportOptionalDependency` contracts do not cover that case.
- Message wording is modelled as the source's f-strings. Installed and required versions appear as the library prints them (`show`), which may differ from the raw strings.
