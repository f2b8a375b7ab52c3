/** The `verify_dependencies` and `import_with_fallback` logic of the
    generated `util/dependency_handler.py`. Whether a package imports is an
    abstract set of importable module names; logging is left out. */
module DependencyHandler {
  import opened Wrappers

  /** The modules `verify_dependencies` tries to import, in order. */
  const RequiredPackages: seq<string> :=
    ["torch", "torchvision", "numpy", "PIL", "transformers", "supervision", "cv2", "easyocr", "ultralytics"]

  /** The packages of `pkgs` that do not import, in the order they are tried. */
  function Missing(pkgs: seq<string>, installed: set<string>): (m: seq<string>)
    ensures |m| <= |pkgs|
    ensures forall p :: p in m <==> p in pkgs && p !in installed
    decreases |pkgs|
  {
    if |pkgs| == 0 then []
    else
      var last := pkgs[|pkgs| - 1];
      Missing(pkgs[..|pkgs| - 1], installed) + (if last in installed then [] else [last])
  }

  /** `import_with_fallback`: the module when it imports, `None` otherwise.
      Its `package_name` argument only changes the logged message. */
  function ImportWithFallback(installed: set<string>, moduleName: string): (r: Option<string>)
    ensures r.Some? <==> moduleName in installed
    ensures r.Some? ==> r.value == moduleName
  {
    if moduleName in installed then Some(moduleName) else None
  }

  /** `verify_dependencies`: tries every required package in order, collects
      those that fail to import, and reports success exactly when none failed.
      The collected list is returned as well, standing for what is logged. */
  method VerifyDependencies(installed: set<string>) returns (ok: bool, missing: seq<string>)
    ensures missing == Missing(RequiredPackages, installed)
    ensures forall p :: p in missing <==> p in RequiredPackages && p !in installed
    ensures ok <==> forall p :: p in RequiredPackages ==> p in installed
    ensures ok <==> forall p :: p in RequiredPackages ==> ImportWithFallback(installed, p).Some?
  {
    missing := [];
    var i := 0;
    while i < |RequiredPackages|
      invariant 0 <= i <= |RequiredPackages|
      invariant missing == Missing(RequiredPackages[..i], installed)
    {
      var package := RequiredPackages[i];
      assert RequiredPackages[..i + 1][..i] == RequiredPackages[..i];
      if package !in installed {
        missing := missing + [package];
      }
      i := i + 1;
    }
    assert RequiredPackages[..i] == RequiredPackages;
    ok := |missing| == 0;
    if !ok {
      assert missing[0] in missing;
    }
  }
}
