/** The patch script that adapts the vendored OmniParser checkout: it rewrites
    `util/utils.py` with marker-guarded string replacements, keeps a `.bak`
    copy, writes a dependency-handler module and reports an exit code. Files
    are an abstract map from path to text; I/O failures other than a missing
    file are not modelled. */
module Patch {
  import opened Text

  /** The files the script touches, by path relative to its working directory. */
  type FileSystem = map<string, string>

  const UtilsPath: string := "OmniParser-master/util/utils.py"
  const BackupPath: string := UtilsPath + ".bak"
  const HandlerPath: string := "OmniParser-master/util/dependency_handler.py"

  /** The `check_ocr_box` definition line, and the same line with a default
      `use_paddleocr=False` parameter added. */
  const SignatureMarker: string :=
    "def check_ocr_box(image, display_img=True, output_bb_format='xyxy', easyocr_args=None,"
  const SignatureReplacement: string := SignatureMarker + " use_paddleocr=False,"

  /** A call of `check_ocr_box`, and the same call passing `use_paddleocr=False`. */
  const CallMarker: string :=
    "check_ocr_box(image, display_img=False, output_bb_format='xyxy', easyocr_args={'text_threshold': 0.8})"
  const CallReplacement: string :=
    "check_ocr_box(image, display_img=False, output_bb_format='xyxy', easyocr_args={'text_threshold': 0.8}, use_paddleocr=False)"

  /** The PaddleOCR import, and a guarded import with a stub class as fallback. */
  const PaddleMarker: string := "from paddleocr import PaddleOCR"
  const PaddleReplacement: string :=
    "# Conditionally import PaddleOCR\ntry:\n    " + PaddleMarker
    + "\nexcept ImportError:\n    # Use a stub class that raises a useful error when called\n    class PaddleOCR:\n        def __init__(self, **kwargs):\n            self.kwargs = kwargs\n        \n        def ocr(self, img_path, cls=False):\n            logger.warning('PaddleOCR is not installed. Using EasyOCR as fallback.')\n            return []"

  /** The numpy import, and the same import followed by an import of the
      dependency handler that runs `verify_dependencies()`. */
  const NumpyMarker: string := "import numpy as np"
  const NumpyReplacement: string :=
    NumpyMarker + "\n# Import dependency handler\ntry:\n    from util.dependency_handler import verify_dependencies, import_with_fallback\n    verify_dependencies()\nexcept ImportError:\n    pass"

  /** The fixed text of the generated `dependency_handler.py`. */
  const HandlerSource: string := @"# Dependency handler for OmniParser
import logging
import sys
import importlib
import os

# Set up logging
logging.basicConfig(
    level=logging.INFO,
    format='%(asctime)s - %(name)s - %(levelname)s - %(message)s'
)
logger = logging.getLogger(""dependencies"")

def verify_dependencies():
    """"""Verify that all required dependencies are installed""""""
    required_packages = [
        ""torch"",
        ""torchvision"",
        ""numpy"",
        ""PIL"",
        ""transformers"",
        ""supervision"",
        ""cv2"",
        ""easyocr"",
        ""ultralytics""
    ]
    
    missing_packages = []
    
    for package in required_packages:
        try:
            importlib.import_module(package)
            logger.info(f""✓ {package} is installed"")
        except ImportError:
            logger.error(f""✗ {package} is missing"")
            missing_packages.append(package)
    
    if missing_packages:
        logger.warning(f""Missing required packages: {', '.join(missing_packages)}"")
        logger.warning(""Some OmniParser functionality may not work correctly"")
    else:
        logger.info(""All required dependencies are installed"")
    
    return len(missing_packages) == 0

# Add proper import error handling for key packages
def import_with_fallback(module_name, package_name=None):
    """"""Import a module with proper error handling""""""
    if package_name is None:
        package_name = module_name
        
    try:
        return importlib.import_module(module_name)
    except ImportError:
        logger.error(f""Could not import {module_name}. Please install {package_name}."")
        return None
"

  /** What a Python function of the script does: return a boolean, or raise.
      Either way the file system may have changed. */
  datatype Outcome = Returned(fs: FileSystem, value: bool) | Raised(fs: FileSystem, error: string)

  /** How the script process ends: `sys.exit(main())`, or an uncaught exception. */
  datatype Exit = Exited(fs: FileSystem, code: int) | Crashed(fs: FileSystem, error: string)

  // ---------------------------------------------------------------------
  // The rewrites, each a marker-guarded `replace`
  // ---------------------------------------------------------------------

  /** Adds the `use_paddleocr=False` default to every `check_ocr_box` definition. */
  function SignatureStage(s: string): (r: string)
    ensures |r| == |s| + 21 * Count(s, SignatureMarker)
    ensures Contains(r, SignatureMarker) <==> Contains(s, SignatureMarker)
    ensures Contains(s, SignatureMarker) ==> Contains(r, SignatureReplacement)
  {
    SignatureReplacementHasMarker();
    RewriteGrowth(s, SignatureMarker, SignatureReplacement, 21);
    KeepsOwnMarker(s, SignatureMarker, SignatureReplacement);
    Rewrite(s, SignatureMarker, SignatureReplacement)
  }

  /** Makes every matching `check_ocr_box` call pass `use_paddleocr=False`. */
  function CallSiteStage(s: string): (r: string)
    ensures |r| == |s| + 21 * Count(s, CallMarker)
    ensures !Contains(s, CallMarker) ==> r == s
    ensures Contains(s, CallMarker) ==> Contains(r, CallReplacement)
  {
    assert |CallReplacement| == |CallMarker| + 21;
    RewriteGrowth(s, CallMarker, CallReplacement, 21);
    Rewrite(s, CallMarker, CallReplacement)
  }

  /** Wraps every PaddleOCR import in a `try` with a stub fallback. */
  function ImportStage(s: string): (r: string)
    ensures |r| == |s| + 376 * Count(s, PaddleMarker)
    ensures Contains(r, PaddleMarker) <==> Contains(s, PaddleMarker)
    ensures Contains(s, PaddleMarker) ==> Contains(r, PaddleReplacement)
  {
    PaddleReplacementHasMarker();
    RewriteGrowth(s, PaddleMarker, PaddleReplacement, 376);
    KeepsOwnMarker(s, PaddleMarker, PaddleReplacement);
    Rewrite(s, PaddleMarker, PaddleReplacement)
  }

  /** Follows every numpy import with the dependency-handler import. */
  function NumpyStage(s: string): (r: string)
    ensures |r| == |s| + 170 * Count(s, NumpyMarker)
    ensures Contains(r, NumpyMarker) <==> Contains(s, NumpyMarker)
    ensures Contains(s, NumpyMarker) ==> Contains(r, NumpyReplacement)
  {
    NumpyReplacementHasMarker();
    RewriteGrowth(s, NumpyMarker, NumpyReplacement, 170);
    KeepsOwnMarker(s, NumpyMarker, NumpyReplacement);
    Rewrite(s, NumpyMarker, NumpyReplacement)
  }

  /** The text transformation of `patch_utils_file`: the call-site rewrite is
      nested under the signature test, the PaddleOCR rewrite follows
      unconditionally. The text changes exactly when the signature or the
      PaddleOCR marker is present, and it never shrinks. */
  function PatchUtilsText(s: string): (r: string)
    ensures Contains(s, SignatureMarker) ==> r == ImportStage(CallSiteStage(SignatureStage(s)))
    ensures !Contains(s, SignatureMarker) ==> r == ImportStage(s)
    ensures |r| >= |s|
    ensures r == s <==> !Contains(s, SignatureMarker) && !Contains(s, PaddleMarker)
    ensures r != s ==> |r| > |s|
  {
    var content :=
      if Contains(s, SignatureMarker) then
        CallSiteStage(ReplaceAll(s, SignatureMarker, SignatureReplacement))
      else
        s;
    RewriteIsReplaceAll(s, SignatureMarker, SignatureReplacement);
    ImportStage(content)
  }

  // ---------------------------------------------------------------------
  // The script's functions over the file system
  // ---------------------------------------------------------------------

  /** `patch_utils_file`: fails without touching anything when `utils.py` is
      missing; otherwise copies it to `utils.py.bak` (replacing any earlier
      backup), writes the patched text back even if it is unchanged, and
      succeeds. */
  function PatchUtilsFile(fs: FileSystem): (o: Outcome)
    ensures o.Returned?
    ensures o.value <==> UtilsPath in fs
    ensures UtilsPath !in fs ==> o.fs == fs
    ensures UtilsPath in fs ==>
      && o.fs.Keys == fs.Keys + {BackupPath}
      && o.fs[BackupPath] == fs[UtilsPath]
      && o.fs[UtilsPath] == PatchUtilsText(fs[UtilsPath])
      && forall f :: f in fs && f != UtilsPath && f != BackupPath ==> o.fs[f] == fs[f]
  {
    if UtilsPath !in fs then
      Returned(fs, false)
    else
      var withBackup := fs[BackupPath := fs[UtilsPath]];
      var content := withBackup[UtilsPath];
      Returned(withBackup[UtilsPath := PatchUtilsText(content)], true)
  }

  /** `add_dependency_handlers`: always writes the handler module first; then
      reading `utils.py` raises when it is missing; otherwise inserts the
      handler import after `import numpy as np` when that line is present,
      writes the file back and returns `True`. */
  function AddDependencyHandlers(fs: FileSystem): (o: Outcome)
    ensures HandlerPath in o.fs
    ensures o.Returned? <==> UtilsPath in fs
    ensures o.Returned? ==> o.value
    ensures o.Returned? ==>
      && o.fs.Keys == fs.Keys + {HandlerPath}
      && o.fs[UtilsPath] == NumpyStage(fs[UtilsPath])
      && forall f :: f in fs && f != UtilsPath && f != HandlerPath ==> o.fs[f] == fs[f]
    ensures o.Raised? ==>
      && o.fs.Keys == fs.Keys + {HandlerPath}
      && forall f :: f in fs && f != HandlerPath ==> o.fs[f] == fs[f]
  {
    var withHandler := fs[HandlerPath := HandlerSource];
    if UtilsPath !in withHandler then
      Raised(withHandler, "FileNotFoundError")
    else
      var content := withHandler[UtilsPath];
      Returned(withHandler[UtilsPath := NumpyStage(content)], true)
  }

  /** What one successful run of the script does to the text of `utils.py`. */
  function ScriptText(s: string): (r: string)
    ensures |r| >= |s|
    ensures Contains(s, NumpyMarker) ==> |r| > |s|
  {
    CountPositiveIffContains(s, NumpyMarker);
    NumpyStage(PatchUtilsText(s))
  }

  /** `main`: exit code 0 exactly when `utils.py` exists; on exit code 1 no file
      was touched and the handler step did not run; on exit code 0 only
      `utils.py`, its backup and the handler module differ. */
  function Main(fs: FileSystem): (e: Exit)
    ensures e.Exited?
    ensures e.code == 0 <==> UtilsPath in fs
    ensures e.code == 0 || e.code == 1
    ensures e.code == 1 ==> e.fs == fs
    ensures e.code == 0 ==>
      && e.fs.Keys == fs.Keys + {BackupPath, HandlerPath}
      && e.fs[BackupPath] == fs[UtilsPath]
      && e.fs[UtilsPath] == ScriptText(fs[UtilsPath])
      && forall f :: f in fs && f != UtilsPath && f != BackupPath && f != HandlerPath ==> e.fs[f] == fs[f]
  {
    var patched := PatchUtilsFile(fs);
    if !patched.value then
      Exited(patched.fs, 1)
    else
      match AddDependencyHandlers(patched.fs)
      case Raised(fs', error) => Crashed(fs', error)
      case Returned(fs', ok) => if !ok then Exited(fs', 1) else Exited(fs', 0)
  }

  // ---------------------------------------------------------------------
  // Lemmas
  // ---------------------------------------------------------------------

  /** A rewrite whose replacement contains its own marker is not idempotent:
      once its marker is present, every further application grows the text. */
  lemma OwnMarkerStagesNotIdempotent(s: string)
    ensures Contains(s, SignatureMarker) ==> SignatureStage(SignatureStage(s)) != SignatureStage(s)
    ensures Contains(s, PaddleMarker) ==> ImportStage(ImportStage(s)) != ImportStage(s)
    ensures Contains(s, NumpyMarker) ==> NumpyStage(NumpyStage(s)) != NumpyStage(s)
  {
  }

  /** The call-site rewrite is nested under the signature test: a file with
      call sites but without the signature or PaddleOCR marker is left exactly
      as it was, although the call-site rewrite on its own would change it. */
  lemma CallSiteNestedUnderSignature(s: string)
    requires Contains(s, CallMarker)
    requires !Contains(s, SignatureMarker) && !Contains(s, PaddleMarker)
    ensures PatchUtilsText(s) == s
    ensures CallSiteStage(s) != s
  {
  }

  /** Patching a file that imports PaddleOCR but lacks the signature marker
      twice gives a different text from patching it once. */
  lemma PatchUtilsTextNotIdempotent(s: string)
    requires Contains(s, PaddleMarker) && !Contains(s, SignatureMarker)
    ensures PatchUtilsText(PatchUtilsText(s)) != PatchUtilsText(s)
  {
  }

  /** A rewrite applied to exactly its own marker yields exactly its replacement. */
  lemma RewriteOfMarker(p: string, rep: string)
    requires |p| > 0
    ensures Rewrite(p, p, rep) == rep
  {
    ContainsSelf(p);
    assert p[..|p|] == p && p[|p|..] == [];
    assert ReplaceAll(p, p, rep) == rep + ReplaceAll([], p, rep);
  }

  /** The file holding just the PaddleOCR import becomes the guarded import,
      and a second run changes it again: the patch is not idempotent. */
  lemma PatchUtilsTextTwiceDiffers()
    ensures PatchUtilsText(PaddleMarker) == PaddleReplacement
    ensures PatchUtilsText(PaddleReplacement) != PaddleReplacement
  {
  }

  /** Every successful run replaces the backup with the text that run found,
      so after a second run `utils.py.bak` holds the once-patched text rather
      than the original. */
  lemma BackupOverwrittenEachRun(fs: FileSystem)
    requires UtilsPath in fs
    ensures var once := PatchUtilsFile(fs).fs;
      PatchUtilsFile(once).fs[BackupPath] == once[UtilsPath] == PatchUtilsText(fs[UtilsPath])
  {
  }

  /** A file whose second backup differs from its original: the first backup is
      not preserved. */
  lemma BackupNotFirstWriteWins()
    ensures var fs := map[UtilsPath := PaddleMarker];
      PatchUtilsFile(PatchUtilsFile(fs).fs).fs[BackupPath] != fs[UtilsPath]
  {
  }

  /** `add_dependency_handlers` writes the fixed handler text whether or not
      `utils.py` exists, and a successful `main` leaves that text in place. */
  lemma HandlerModuleAlwaysWritten(fs: FileSystem)
    ensures AddDependencyHandlers(fs).fs[HandlerPath] == HandlerSource
    ensures Main(fs).code == 0 ==> Main(fs).fs[HandlerPath] == HandlerSource
  {
  }

  /** Inside `main` the handler step always runs on an existing `utils.py` and
      returns `True`, so its failure branch cannot be taken. */
  lemma MainHandlerFailureUnreachable(fs: FileSystem)
    requires PatchUtilsFile(fs).value
    ensures AddDependencyHandlers(PatchUtilsFile(fs).fs).Returned?
    ensures AddDependencyHandlers(PatchUtilsFile(fs).fs).value
  {
  }

  /** Running `add_dependency_handlers` again on a file with the numpy import
      inserts the handler import a second time. */
  lemma AddDependencyHandlersNotIdempotent(fs: FileSystem)
    requires UtilsPath in fs && Contains(fs[UtilsPath], NumpyMarker)
    ensures var once := AddDependencyHandlers(fs).fs;
      AddDependencyHandlers(once).fs[UtilsPath] != once[UtilsPath]
  {
  }

  /** When the utils patch leaves a numpy import in place, a second run of the
      script changes `utils.py` again: either the utils patch grows the text,
      or it leaves it alone and the numpy rewrite fires once more. */
  lemma MainNotIdempotent(fs: FileSystem)
    requires UtilsPath in fs && Contains(PatchUtilsText(fs[UtilsPath]), NumpyMarker)
    ensures Main(Main(fs).fs).fs[UtilsPath] != Main(fs).fs[UtilsPath]
  {
  }

  /** A file holding just the numpy import is changed by each run of the script. */
  lemma MainTwiceDiffers()
    ensures var fs := map[UtilsPath := NumpyMarker];
      Main(Main(fs).fs).fs[UtilsPath] != Main(fs).fs[UtilsPath]
  {
  }

  /** The signature replacement extends its own marker. */
  lemma SignatureReplacementHasMarker()
    ensures Contains(SignatureReplacement, SignatureMarker)
    ensures |SignatureReplacement| == |SignatureMarker| + 21
  {
    ContainsSelf(SignatureMarker);
    ContainsBefore(SignatureMarker, " use_paddleocr=False,", SignatureMarker);
  }

  /** The PaddleOCR replacement repeats its own marker inside the `try`. */
  lemma PaddleReplacementHasMarker()
    ensures Contains(PaddleReplacement, PaddleMarker)
    ensures |PaddleReplacement| == |PaddleMarker| + 376
  {
    var head := "# Conditionally import PaddleOCR\ntry:\n    ";
    var tail := PaddleReplacement[|head + PaddleMarker|..];
    ContainsSelf(PaddleMarker);
    ContainsAfter(head, PaddleMarker, PaddleMarker);
    ContainsBefore(head + PaddleMarker, tail, PaddleMarker);
    assert head + PaddleMarker + tail == PaddleReplacement;
  }

  /** The numpy replacement extends its own marker. */
  lemma NumpyReplacementHasMarker()
    ensures Contains(NumpyReplacement, NumpyMarker)
    ensures |NumpyReplacement| == |NumpyMarker| + 170
  {
    var tail := NumpyReplacement[|NumpyMarker|..];
    ContainsSelf(NumpyMarker);
    ContainsBefore(NumpyMarker, tail, NumpyMarker);
    assert NumpyMarker + tail == NumpyReplacement;
  }

  /** A replacement built around its own marker keeps that marker present. */
  lemma KeepsOwnMarker(s: string, p: string, rep: string)
    requires |p| > 0 && |rep| > |p| && Contains(rep, p)
    ensures Contains(Rewrite(s, p, rep), p) <==> Contains(s, p)
  {
    if Contains(s, p) {
      RewriteNotIdempotent(s, p, rep);
    }
  }
}
