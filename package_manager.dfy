/**
 * The memoising importer of R packages. `importr` and `utils.install_packages` are
 * foreign calls; what they answer during one import is an input, and the calls
 * made are recorded so that the contracts can say which ones happen.
 */
module PackageManager {
  import opened Wrappers

  /** The package object `importr` returns. */
  datatype Handle = Handle(id: nat)

  /** A call into the R runtime. */
  datatype RCall = ImportR(package: string) | InstallPackages(package: string)

  /** The exception an import lets escape: from the install, or from the second `importr`. */
  datatype RError = InstallFailed(package: string) | ImportFailed(package: string)

  /**
   * How the foreign calls of one import answer if they are made: the first `importr`
   * (`None`: it raises), whether `install_packages` returns normally, and the second
   * `importr`.
   */
  datatype Responses = Responses(firstImport: Option<Handle>, installSucceeds: bool, secondImport: Option<Handle>)

  /** One import: what it returns or raises, the foreign calls it makes, the cache afterwards. */
  datatype ImportStep = ImportStep(result: Result<Handle, RError>, calls: seq<RCall>, cache: map<string, Handle>)

  /** The cache a new manager starts with: the two base packages it imports itself. */
  function InitialCache(utils: Handle, base: Handle): (cache: map<string, Handle>)
    ensures cache.Keys == {"utils", "base"}
    ensures cache["utils"] == utils && cache["base"] == base
  {
    map["utils" := utils, "base" := base]
  }

  /** What `import_package(name)` does against `cache` when the runtime answers as `env` says. */
  function ImportPlan(cache: map<string, Handle>, name: string, env: Responses): (s: ImportStep)
    // a cached name is answered from the cache, with no foreign call
    ensures name in cache ==> s == ImportStep(Ok(cache[name]), [], cache)
    // otherwise the first thing done is an import of that name
    ensures name !in cache ==> |s.calls| > 0 && s.calls[0] == ImportR(name)
    ensures forall c :: c in s.calls ==> c.package == name
    // one import if it succeeds; after a failed import, the install; a retry only after the install returned
    ensures name !in cache ==>
      |s.calls| == (if env.firstImport.Some? then 1 else if env.installSucceeds then 3 else 2)
    ensures name !in cache && env.firstImport.None? ==> s.calls[1] == InstallPackages(name)
    ensures name !in cache && env.firstImport.None? && env.installSucceeds ==> s.calls[2] == ImportR(name)
    // an install happens exactly when the first import of an uncached name raised, and at most once
    ensures InstallPackages(name) in s.calls <==> name !in cache && env.firstImport.None?
    ensures forall a, b :: 0 <= a < b < |s.calls| && s.calls[a].InstallPackages? ==> !s.calls[b].InstallPackages?
    // the returned handle comes from the last import made
    ensures s.result.Ok? && name !in cache ==>
      s.calls[|s.calls| - 1] == ImportR(name) &&
      (env.firstImport.Some? ==> s.result == Ok(env.firstImport.value)) &&
      (env.firstImport.None? ==> env.secondImport == Some(s.result.value))
    // errors escape only from the install or from the retried import
    ensures s.result == Err(InstallFailed(name)) <==> name !in cache && env.firstImport.None? && !env.installSucceeds
    ensures s.result == Err(ImportFailed(name)) <==>
      name !in cache && env.firstImport.None? && env.installSucceeds && env.secondImport.None?
    ensures s.result.Err? ==> s.result.error.package == name
    // a success records the handle under the name and leaves every other entry alone
    ensures s.result.Ok? ==> s.cache == cache[name := s.result.value]
    ensures s.result.Err? ==> s.cache == cache
  {
    if name in cache then ImportStep(Ok(cache[name]), [], cache)
    else match env.firstImport
      case Some(h) => ImportStep(Ok(h), [ImportR(name)], cache[name := h])
      case None =>
        if !env.installSucceeds then
          ImportStep(Err(InstallFailed(name)), [ImportR(name), InstallPackages(name)], cache)
        else match env.secondImport
          case Some(h) =>
            ImportStep(Ok(h), [ImportR(name), InstallPackages(name), ImportR(name)], cache[name := h])
          case None =>
            ImportStep(Err(ImportFailed(name)), [ImportR(name), InstallPackages(name), ImportR(name)], cache)
  }

  /** Once an import has succeeded, importing the same name again returns the same handle and calls nothing. */
  lemma ImportIsMemoised(cache: map<string, Handle>, name: string, env: Responses, later: Responses)
    requires ImportPlan(cache, name, env).result.Ok?
    ensures var s := ImportPlan(cache, name, env);
      ImportPlan(s.cache, name, later) == ImportStep(s.result, [], s.cache)
  {
  }

  class RPackageManager {
    var utils: Handle
    var base: Handle
    var packages: map<string, Handle>
    /** The foreign calls made so far, oldest first. */
    ghost var calls: seq<RCall>

    /** The two base packages stay in the cache under their own names. */
    ghost predicate Valid()
      reads this
    {
      && "utils" in packages && packages["utils"] == utils
      && "base" in packages && packages["base"] == base
    }

    /** A new manager, given the handles its own imports of "utils" and "base" returned. */
    constructor (utilsHandle: Handle, baseHandle: Handle)
      ensures Valid()
      ensures utils == utilsHandle && base == baseHandle
      ensures packages == InitialCache(utilsHandle, baseHandle)
      ensures calls == [ImportR("utils"), ImportR("base")]
    {
      utils := utilsHandle;
      base := baseHandle;
      calls := [ImportR("utils"), ImportR("base")];
      packages := map["utils" := utilsHandle, "base" := baseHandle];
    }

    /** Returns the package, from the cache if present, else by importing it, installing it first if needed. */
    method ImportPackage(packageName: string, env: Responses) returns (r: Result<Handle, RError>)
      requires Valid()
      modifies this
      ensures Valid() && utils == old(utils) && base == old(base)
      ensures r == ImportPlan(old(packages), packageName, env).result
      ensures packages == ImportPlan(old(packages), packageName, env).cache
      ensures calls == old(calls) + ImportPlan(old(packages), packageName, env).calls
    {
      if packageName in packages {
        return Ok(packages[packageName]);
      }
      var package: Handle;
      calls := calls + [ImportR(packageName)];
      match env.firstImport {
        case Some(h) =>
          package := h;
        case None =>
          calls := calls + [InstallPackages(packageName)];
          if !env.installSucceeds {
            return Err(InstallFailed(packageName));
          }
          calls := calls + [ImportR(packageName)];
          match env.secondImport {
            case Some(h) =>
              package := h;
            case None =>
              return Err(ImportFailed(packageName));
          }
      }
      packages := packages[packageName := package];
      r := Ok(package);
    }
  }
}
