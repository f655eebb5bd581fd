/**
 What `import_optional_dependency` and `get_version` promise, stated over
 every input: the missing-dependency policy, where the version is read from,
 which floor applies, the unconditional version errors, the policy-gated
 too-old case, and the safety property that a module below its floor is
 never returned.
 */
module GuardProperties {
  import opened Wrappers
  import opened PyStr
  import opened DaskCompat

  /** A failed import raises under "raise", with a message that names the package to install and the extra text; warn and ignore return None silently. */
  lemma MissingDependency<V>(
    vs: Versioning<V>, name: string, extra: string, minVersion: Option<string>, errors: string,
    loaded: map<string, ModuleRecord>)
    requires ValidPolicy(errors)
    ensures var r := ImportOptionalDependency(vs, name, extra, minVersion, errors, NotFound, loaded);
      && (errors == "raise" ==>
            && r.Raise? && r.exception.ImportError?
            && Contains(r.exception.message, PackageName(name))
            && Contains(r.exception.message, extra))
      && (errors != "raise" ==> r == ReturnNone(None))
  {
  }

  /** The package name reported for a missing import: the mapped name for the two mapped import names, `name` itself for all others. */
  lemma ReportedPackageNames(name: string)
    ensures PackageName("sqlalchemy") == "SQLAlchemy"
    ensures PackageName("tables") == "pytables"
    ensures name != "sqlalchemy" && name != "tables" ==> PackageName(name) == name
  {
  }

  /** The version floor comes from the table entry of the top-level package when no non-empty minimum is passed. */
  lemma TableFloorForSubmodule(name: string, minVersion: Option<string>)
    requires !Truthy(minVersion)
    requires FirstSegment(name) in Versions
    ensures RequiredVersion(name, minVersion) == Some(Versions[FirstSegment(name)])
    ensures Truthy(RequiredVersion(name, minVersion))
  {
  }

  /**
   With no non-empty minimum and no table entry for the top-level package,
   nothing about the version is read (not even a missing `__version__`) and
   the imported module is returned under every policy.
   */
  lemma NoFloorReturnsModule<V>(
    vs: Versioning<V>, name: string, extra: string, minVersion: Option<string>, errors: string,
    m: ModuleRecord, loaded: map<string, ModuleRecord>)
    requires ValidPolicy(errors)
    requires !Truthy(minVersion) && FirstSegment(name) !in Versions
    ensures ImportOptionalDependency(vs, name, extra, minVersion, errors, Loaded(m), loaded) == ReturnModule(m)
  {
  }

  /**
   When the top-level package is in the loaded-module table, its entry, not
   the imported submodule, decides the outcome: importing m1 or m2 ends the
   same way, up to which module is returned.
   */
  lemma VersionReadFromTopLevelPackage<V>(
    vs: Versioning<V>, name: string, extra: string, minVersion: Option<string>, errors: string,
    m1: ModuleRecord, m2: ModuleRecord, loaded: map<string, ModuleRecord>)
    requires FirstSegment(name) in loaded
    ensures var r1 := ImportOptionalDependency(vs, name, extra, minVersion, errors, Loaded(m1), loaded);
      var r2 := ImportOptionalDependency(vs, name, extra, minVersion, errors, Loaded(m2), loaded);
      r1 == if r2.ReturnModule? then ReturnModule(m1) else r2
  {
  }

  /** When a floor applies and the checked module has no usable `__version__`, an ImportError naming that module is raised under every policy. */
  lemma UndeterminableVersionRaises<V>(
    vs: Versioning<V>, name: string, extra: string, minVersion: Option<string>, errors: string,
    m: ModuleRecord, loaded: map<string, ModuleRecord>)
    requires ValidPolicy(errors)
    requires Truthy(RequiredVersion(name, minVersion))
    requires !Truthy(ModuleToCheck(name, m, loaded).version)
    ensures var r := ImportOptionalDependency(vs, name, extra, minVersion, errors, Loaded(m), loaded);
      r.Raise? && r.exception.ImportError? && Contains(r.exception.message, ModuleToCheck(name, m, loaded).name)
  {
  }

  /** A psycopg2 version made only of whitespace makes `split()[0]` raise IndexError, under every policy. */
  lemma WhitespaceDriverVersionRaises<V>(
    vs: Versioning<V>, name: string, extra: string, minVersion: Option<string>, errors: string,
    m: ModuleRecord, loaded: map<string, ModuleRecord>)
    requires ValidPolicy(errors)
    requires Truthy(RequiredVersion(name, minVersion))
    requires ModuleToCheck(name, m, loaded).name == "psycopg2"
    requires Truthy(ModuleToCheck(name, m, loaded).version) && AllSpace(ModuleToCheck(name, m, loaded).version.value)
    ensures ImportOptionalDependency(vs, name, extra, minVersion, errors, Loaded(m), loaded) == Raise(IndexError)
  {
  }

  /** An installed version that does not parse raises an ImportError naming the top-level package, under every policy. */
  lemma UnparseableInstalledVersionRaises<V>(
    vs: Versioning<V>, name: string, extra: string, minVersion: Option<string>, errors: string,
    m: ModuleRecord, loaded: map<string, ModuleRecord>, text: string)
    requires ValidPolicy(errors)
    requires Truthy(RequiredVersion(name, minVersion))
    requires GetVersion(ModuleToCheck(name, m, loaded)) == Ok(text)
    requires vs.parse(text).None?
    ensures var r := ImportOptionalDependency(vs, name, extra, minVersion, errors, Loaded(m), loaded);
      r.Raise? && r.exception.ImportError? && Contains(r.exception.message, FirstSegment(name))
  {
  }

  /**
   A minimum that does not parse escapes as the version library's own
   InvalidVersion (it is parsed outside the `try`), once the installed
   version has parsed.
   */
  lemma UnparseableMinimumRaises<V>(
    vs: Versioning<V>, name: string, extra: string, minVersion: Option<string>, errors: string,
    m: ModuleRecord, loaded: map<string, ModuleRecord>, text: string)
    requires ValidPolicy(errors)
    requires Truthy(RequiredVersion(name, minVersion))
    requires GetVersion(ModuleToCheck(name, m, loaded)) == Ok(text)
    requires vs.parse(text).Some? && vs.parse(RequiredVersion(name, minVersion).value).None?
    ensures ImportOptionalDependency(vs, name, extra, minVersion, errors, Loaded(m), loaded)
      == Raise(InvalidVersion(RequiredVersion(name, minVersion).value))
  {
  }

  /**
   Installed below the floor: warn emits one warning naming the package and
   both versions and returns None, raise raises an ImportError with that
   same text, ignore returns None silently. The module is never returned.
   */
  lemma TooOldVersion<V>(
    vs: Versioning<V>, name: string, extra: string, minVersion: Option<string>, errors: string,
    m: ModuleRecord, loaded: map<string, ModuleRecord>, installed: V, required: V)
    requires ValidPolicy(errors)
    requires Truthy(RequiredVersion(name, minVersion))
    requires GetVersion(ModuleToCheck(name, m, loaded)).Ok?
    requires vs.parse(GetVersion(ModuleToCheck(name, m, loaded)).value) == Some(installed)
    requires vs.parse(RequiredVersion(name, minVersion).value) == Some(required)
    requires vs.less(installed, required)
    ensures var r := ImportOptionalDependency(vs, name, extra, minVersion, errors, Loaded(m), loaded);
      && !r.ReturnModule?
      && (errors == "ignore" ==> r == ReturnNone(None))
      && (errors == "warn" ==> r.ReturnNone? && r.warning.Some?)
      && (errors == "raise" ==> r.Raise? && r.exception.ImportError?)
      && ((r.ReturnNone? && r.warning.Some?) || r.Raise? ==>
            var text := if r.Raise? then r.exception.message else r.warning.value;
            Contains(text, FirstSegment(name)) && Contains(text, vs.show(installed)) && Contains(text, vs.show(required)))
  {
  }

  /** Installed at or above the floor: the imported module is returned unchanged under every policy. */
  lemma RecentEnoughReturnsModule<V>(
    vs: Versioning<V>, name: string, extra: string, minVersion: Option<string>, errors: string,
    m: ModuleRecord, loaded: map<string, ModuleRecord>, installed: V, required: V)
    requires ValidPolicy(errors)
    requires Truthy(RequiredVersion(name, minVersion))
    requires GetVersion(ModuleToCheck(name, m, loaded)).Ok?
    requires vs.parse(GetVersion(ModuleToCheck(name, m, loaded)).value) == Some(installed)
    requires vs.parse(RequiredVersion(name, minVersion).value) == Some(required)
    requires !vs.less(installed, required)
    ensures ImportOptionalDependency(vs, name, extra, minVersion, errors, Loaded(m), loaded) == ReturnModule(m)
  {
  }

  /**
   The safety property: a returned module is the imported one, and when a
   floor applies, its checked version was read, parsed, and is not below the
   parsed floor.
   */
  lemma NeverBelowFloor<V>(
    vs: Versioning<V>, name: string, extra: string, minVersion: Option<string>, errors: string,
    attempt: ImportAttempt, loaded: map<string, ModuleRecord>, m: ModuleRecord)
    requires ImportOptionalDependency(vs, name, extra, minVersion, errors, attempt, loaded) == ReturnModule(m)
    ensures attempt == Loaded(m) && ValidPolicy(errors)
    ensures var floor := RequiredVersion(name, minVersion);
      var read := GetVersion(ModuleToCheck(name, m, loaded));
      Truthy(floor) ==>
        && read.Ok?
        && vs.parse(read.value).Some?
        && vs.parse(floor.value).Some?
        && !vs.less(vs.parse(read.value).value, vs.parse(floor.value).value)
  {
  }

  /**
   The policy asymmetry, first half: whatever raises under "ignore" (a
   missing or unusable version, an unparseable version, an exception from
   the import) raises the same way under every policy.
   */
  lemma UnconditionalErrors<V>(
    vs: Versioning<V>, name: string, extra: string, minVersion: Option<string>, errors: string,
    attempt: ImportAttempt, loaded: map<string, ModuleRecord>)
    requires ValidPolicy(errors)
    requires ImportOptionalDependency(vs, name, extra, minVersion, "ignore", attempt, loaded).Raise?
    ensures ImportOptionalDependency(vs, name, extra, minVersion, errors, attempt, loaded)
      == ImportOptionalDependency(vs, name, extra, minVersion, "ignore", attempt, loaded)
  {
  }

  /** A module returned under one valid policy is returned under every valid policy. */
  lemma ModuleUnderEveryPolicy<V>(
    vs: Versioning<V>, name: string, extra: string, minVersion: Option<string>, e1: string, e2: string,
    attempt: ImportAttempt, loaded: map<string, ModuleRecord>)
    requires ValidPolicy(e1) && ValidPolicy(e2)
    requires ImportOptionalDependency(vs, name, extra, minVersion, e1, attempt, loaded).ReturnModule?
    ensures ImportOptionalDependency(vs, name, extra, minVersion, e2, attempt, loaded)
      == ImportOptionalDependency(vs, name, extra, minVersion, e1, attempt, loaded)
  {
    var m := ImportOptionalDependency(vs, name, extra, minVersion, e1, attempt, loaded).m;
    NeverBelowFloor(vs, name, extra, minVersion, e1, attempt, loaded, m);
    var floor := RequiredVersion(name, minVersion);
    if Truthy(floor) {
      var read := GetVersion(ModuleToCheck(name, m, loaded));
      RecentEnoughReturnsModule(vs, name, extra, minVersion, e2, m, loaded,
        vs.parse(read.value).value, vs.parse(floor.value).value);
    }
  }

  /**
   The policy asymmetry, second half: an imported module that "ignore"
   turns into a silent None is one that is too old; "warn" then warns and
   "raise" raises, with the same text.
   */
  lemma TooOldIsPolicyGated<V>(
    vs: Versioning<V>, name: string, extra: string, minVersion: Option<string>,
    m: ModuleRecord, loaded: map<string, ModuleRecord>)
    requires ImportOptionalDependency(vs, name, extra, minVersion, "ignore", Loaded(m), loaded) == ReturnNone(None)
    ensures var floor := RequiredVersion(name, minVersion);
      var read := GetVersion(ModuleToCheck(name, m, loaded));
      && Truthy(floor) && read.Ok?
      && vs.parse(read.value).Some? && vs.parse(floor.value).Some?
      && vs.less(vs.parse(read.value).value, vs.parse(floor.value).value)
    ensures var w := ImportOptionalDependency(vs, name, extra, minVersion, "warn", Loaded(m), loaded);
      && w.ReturnNone? && w.warning.Some?
      && ImportOptionalDependency(vs, name, extra, minVersion, "raise", Loaded(m), loaded)
         == Raise(ImportError(w.warning.value))
  {
  }

  /** For every psycopg2 version laid out as whitespace, a word, then nothing or whitespace and anything, the version read is that word. */
  lemma DriverVersionOfLayout(pre: string, word: string, post: string)
    requires AllSpace(pre) && word != [] && NoSpace(word)
    requires post == [] || IsSpace(post[0])
    ensures GetVersion(ModuleRecord("psycopg2", Some(pre + word + post))) == Ok(word)
  {
    FirstTokenOfLayout(pre, word, post);
  }

  /** The policy is compared exactly and case-sensitively with the three names. */
  lemma PolicyIsExactMatch()
    ensures ValidPolicy("raise") && ValidPolicy("warn") && ValidPolicy("ignore")
    ensures !ValidPolicy("") && !ValidPolicy("Raise") && !ValidPolicy("warning") && !ValidPolicy("ignore ")
  {
  }

  /** An unknown policy fails the assertion before the import or any table is consulted: the import result and the loaded modules do not matter. */
  lemma AssertionBeforeImport<V>(
    vs: Versioning<V>, name: string, extra: string, minVersion: Option<string>, errors: string,
    a1: ImportAttempt, a2: ImportAttempt, l1: map<string, ModuleRecord>, l2: map<string, ModuleRecord>)
    requires !ValidPolicy(errors)
    ensures ImportOptionalDependency(vs, name, extra, minVersion, errors, a1, l1) == Raise(AssertionError)
    ensures ImportOptionalDependency(vs, name, extra, minVersion, errors, a1, l1)
      == ImportOptionalDependency(vs, name, extra, minVersion, errors, a2, l2)
  {
  }

  /**
   When the top-level package is not in the loaded-module table, the
   imported module itself is checked: the outcome is the one obtained with
   the imported module entered under the top-level name.
   */
  lemma VersionReadFromImportedModule<V>(
    vs: Versioning<V>, name: string, extra: string, minVersion: Option<string>, errors: string,
    m: ModuleRecord, loaded: map<string, ModuleRecord>)
    requires FirstSegment(name) !in loaded
    ensures ImportOptionalDependency(vs, name, extra, minVersion, errors, Loaded(m), loaded)
      == ImportOptionalDependency(vs, name, extra, minVersion, errors, Loaded(m), loaded[FirstSegment(name) := m])
  {
  }

  /**
   The first token of the psycopg2 driver's decorated version string is its version number.
   The string is a parameter pinned by `requires`, so the solver does not unfold the recursive functions on a literal.
   */
  lemma DriverVersionToken(v: string)
    requires v == "2.9.3 (dt dec pq3 ext lo64)"
    ensures FirstToken(v) == Some("2.9.3")
  {
    var word, post := v[..5], v[5..];
    assert word == "2.9.3";
    assert NoSpace(word) by {
      forall i | 0 <= i < |word| ensures !IsSpace(word[i]) {
        assert word[i] in {'2', '.', '9', '3'};
      }
    }
    assert v == [] + word + post;
    FirstTokenOfLayout([], word, post);
  }

  /** The psycopg2 driver's decorated version string yields its leading version number; any other module keeps it whole (`v` is pinned as in `DriverVersionToken`). */
  lemma DriverVersionIsFirstToken(v: string)
    requires v == "2.9.3 (dt dec pq3 ext lo64)"
    ensures GetVersion(ModuleRecord("psycopg2", Some(v))) == Ok("2.9.3")
    ensures GetVersion(ModuleRecord("numpy", Some(v))) == Ok(v)
  {
    DriverVersionToken(v);
  }
}
