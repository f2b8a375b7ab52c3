# OmniParser API glue, modelled in Dafny

This project models the two pieces of logic in the OmniParser deployment glue.

- **The patch script** (`omniparser_patch.py`). It adapts a vendored OmniParser checkout so that it runs without PaddleOCR:
  - `patch_utils_file` rewrites `util/utils.py` with marker-guarded `str.replace` calls and keeps a `.bak` copy;
  - `add_dependency_handlers` writes a fixed `util/dependency_handler.py` and inserts an import of it after `import numpy as np`;
  - `main` chains the two and returns an exit code.
- **The HTTP service** (`server.py`). Its state is one global, optional OmniParser handle:
  - `load_omniparser` installs the handle, or reports failure and leaves the state as it was;
  - `/health` reports 200 or 503 depending on the handle;
  - `/parse` rejects with 503 when there is no handle, reports a parser exception as 500, and otherwise returns the parser's two outputs.

Files:

- `wrappers.dfy` (module `Wrappers`): `Option` and `Result`.
- `text.dfy` (module `Text`): Python's `marker in text` (`Contains`) and `text.replace(marker, rep)` (`ReplaceAll`). `ReplaceAll` replaces every non-overlapping occurrence, scanning left to right. `Count` gives the number of occurrences replaced, and `Rewrite` is the guarded `if marker in text: text = text.replace(...)` idiom.
- `patch.dfy` (module `Patch`): the four rewrites (`SignatureStage`, `CallSiteStage`, `ImportStage`, `NumpyStage`), the `utils.py` text transformation, and the three script functions. Files are modelled as a map from path to text (`FileSystem`).
- `dependency_handler.dfy` (module `DependencyHandler`): the list logic of `verify_dependencies` and `import_with_fallback` in the generated module. Whether a package can be imported is an abstract set of module names.
- `server.dfy` (module `Server`): the configuration, `load_omniparser`, the start-up event and the three endpoints.
  - The handle has an abstract type `H`.
  - The OmniParser constructor and `parse` are function parameters that may return a failure message.
  - The latency is a number supplied by the caller.

Behaviour this code does not have, although a patching tool and a model server might be expected to have it:

- **The patch is not idempotent.** The signature, PaddleOCR and numpy replacements each contain their own marker, so a second run rewrites again. This is proved, both per rewrite and for whole runs.
- **The backup is overwritten on every run.** There is no "first write wins" rule.
- **`utils.py` is always written back**, even when its content is unchanged.
- **The service has only two states.** The handle is either absent or present; there is no `Loading` or `Failed(reason)` state.
- **`/parse` does not validate its payload.** The base64 text goes to the parser undecoded, and there is no separate invalid-payload error.

## Model

| member | source | states |
|---|---|---|
| Text.Contains | omniparser_patch.py:35 | Python's `marker in content`: a position where the marker occurs; it has no contract of its own, and Text.CountPositiveIffContains relates it to the replace scan |
| Text.ReplaceAll | omniparser_patch.py:36-39 | Python's `content.replace(marker, rep)`; it has no contract of its own, and its meaning is stated by Text.ReplaceAllAbsent, Text.ReplaceAllLength and Text.ReplaceAllKeepsMarker |
| Text.Rewrite | omniparser_patch.py:35-39 | a guarded replace leaves text without the marker unchanged; its length is the old length plus (replacement length − marker length) per occurrence replaced; a present marker with a longer replacement strictly lengthens the text; when the marker is present, the replacement appears in the result |
| Text.CountPositiveIffContains | omniparser_patch.py:35-36 | the guard `marker in content` holds exactly when `replace` finds at least one occurrence to replace |
| Text.ReplaceAllAbsent | omniparser_patch.py:49-53 | `str.replace` with a marker that is not a substring returns the text unchanged |
| Text.ReplaceAllLength | omniparser_patch.py:50-53 | the result of `str.replace` has length `|s| + k*(|rep| - |marker|)`, where `k` is the number of left-to-right non-overlapping occurrences |
| Text.ReplaceAllKeepsMarker | omniparser_patch.py:50-53 | if the replacement contains the marker, a marker present before `replace` is still present after it |
| Text.ReplaceAllHasReplacement | omniparser_patch.py:36-39 | when `replace` finds its marker, the replacement text appears in the result |
| Text.RewriteIsReplaceAll | omniparser_patch.py:133-137 | the `if marker in content` guard changes nothing: the guarded rewrite equals the bare `replace` |
| Text.RewriteNotIdempotent | omniparser_patch.py:49-53 | a guarded rewrite whose replacement contains its marker keeps the marker, and a second application changes the text again |
| Patch.SignatureStage | omniparser_patch.py:35-39 | the signature rewrite adds 21 characters per `check_ocr_box` definition, and the definition marker is present afterwards exactly when it was before; when a definition is present, the signature with the `use_paddleocr=False` default appears in the result |
| Patch.CallSiteStage | omniparser_patch.py:42-46 | the call-site rewrite adds 21 characters per matching call and is a no-op without one; when a matching call is present, the call passing `use_paddleocr=False` appears in the result |
| Patch.ImportStage | omniparser_patch.py:49-53 | the PaddleOCR rewrite adds 376 characters per import, and the import marker is present afterwards exactly when it was before; when the import is present, the `try` block with the stub fallback appears in the result |
| Patch.NumpyStage | omniparser_patch.py:133-137 | the numpy rewrite adds 170 characters per `import numpy as np`, and that marker is present afterwards exactly when it was before; when `import numpy as np` is present, it appears followed by the handler import block |
| Patch.PatchUtilsText | omniparser_patch.py:34-53 | the call-site rewrite runs only after the signature rewrite fired; without the signature marker only the PaddleOCR rewrite applies; the text never shrinks, it is unchanged exactly when neither the signature nor the PaddleOCR marker is present, and a changed text is strictly longer |
| Patch.PatchUtilsFile | omniparser_patch.py:19-60 | a missing `utils.py` gives `False` with no file touched; otherwise the `.bak` copy holds the pre-patch text, the patched text is written back, nothing else changes, and the result is `True` |
| Patch.AddDependencyHandlers | omniparser_patch.py:62-144 | the handler module is always written; a missing `utils.py` raises after that write, with nothing else changed; otherwise the numpy rewrite is applied to `utils.py`, nothing else changes, and the result is `True` |
| Patch.HandlerModuleAlwaysWritten | omniparser_patch.py:65-125 | the handler module holds the fixed generated text after `add_dependency_handlers`, whether or not `utils.py` exists, and after a successful `main` |
| Patch.Main | omniparser_patch.py:146-160 | the script never crashes; it exits 0 exactly when `utils.py` exists, and exit 1 leaves every file untouched (the handler step does not run); on exit 0 the backup holds the original `utils.py`, the handler module exists, `utils.py` holds the text of one script run, and every other file keeps its content |
| Patch.ScriptText | omniparser_patch.py:34-137 | one script run (utils patch, then the numpy rewrite) never shrinks `utils.py`, and strictly lengthens any text that has the numpy import |
| Patch.OwnMarkerStagesNotIdempotent | omniparser_patch.py:36-53 | the signature, PaddleOCR and numpy rewrites each change the text again when applied a second time to text that had their marker |
| Patch.CallSiteNestedUnderSignature | omniparser_patch.py:35-46 | a file with call sites but without the definition or PaddleOCR marker is left exactly as it was, although the call-site rewrite alone would change it |
| Patch.PatchUtilsTextNotIdempotent | omniparser_patch.py:34-53 | patching a file that has the PaddleOCR import but not the definition marker twice differs from patching it once |
| Patch.RewriteOfMarker | omniparser_patch.py:49-53 | a guarded rewrite applied to a text that is exactly its marker yields exactly its replacement |
| Patch.PatchUtilsTextTwiceDiffers | omniparser_patch.py:48-53 | a concrete file (the PaddleOCR import alone) becomes the guarded import and is changed again by a second patch |
| Patch.BackupOverwrittenEachRun | omniparser_patch.py:27-28 | after a second successful run the backup holds the once-patched text, not the original |
| Patch.BackupNotFirstWriteWins | omniparser_patch.py:27-28 | a concrete file whose backup after two runs differs from its original content |
| Patch.MainHandlerFailureUnreachable | omniparser_patch.py:154-157 | inside `main` the handler step always returns `True`, so its failure branch is unreachable |
| Patch.AddDependencyHandlersNotIdempotent | omniparser_patch.py:132-137 | a second run of `add_dependency_handlers` on a file with the numpy import inserts the handler import again |
| Patch.MainNotIdempotent | omniparser_patch.py:146-160 | when the numpy import survives the utils patch, a second run of the whole script changes `utils.py` again |
| Patch.MainTwiceDiffers | omniparser_patch.py:146-160 | a concrete file system (only the numpy import in `utils.py`) on which two runs of the script differ from one |
| Patch.SignatureReplacementHasMarker | omniparser_patch.py:37-38 | the signature replacement contains the signature marker |
| Patch.PaddleReplacementHasMarker | omniparser_patch.py:51-52 | the PaddleOCR replacement contains the PaddleOCR import it replaces |
| Patch.NumpyReplacementHasMarker | omniparser_patch.py:135-136 | the numpy replacement contains `import numpy as np` |
| DependencyHandler.Missing | omniparser_patch.py:95-103 | the collected missing list is no longer than the packages tried, and holds exactly the tried packages that do not import |
| DependencyHandler.ImportWithFallback | omniparser_patch.py:114-123 | the module is returned exactly when it imports, otherwise `None` |
| DependencyHandler.VerifyDependencies | omniparser_patch.py:81-111 | the missing list is the in-order list of required packages that fail to import; the result is `True` exactly when every required package imports, which is also exactly when `import_with_fallback` succeeds on each of them |
| Server.ConfigFromEnv | server.py:31-35 | each configuration value is its environment variable when that is set |
| Server.DefaultConfig | server.py:31-35 | with no overrides the configuration is `weights/icon_detect/model.pt`, `florence2`, `microsoft/Florence-2-base`, `cpu`, `0.05` |
| Server.ConfigReadsOnlyItsVariables | server.py:31-35 | environments that agree on the five variables give the same configuration |
| Server.Getenv | server.py:31-35 | `os.environ.get(key, default)`: the variable's value when it is set, and the default otherwise |
| Server.LoaderConfig | server.py:76-83 | the constructor gets exactly six keys; the threshold is under `BOX_TRESHOLD` (and there is no `BOX_THRESHOLD` key); `use_paddleocr` is always `False`; the other values come from the configuration |
| Server.LoadOmniparser | server.py:65-92 | the result is `True` exactly when the constructor succeeds; on success the new handle is stored; on failure the handle is unchanged and no `Exception` escapes |
| Server.Startup | server.py:94-97 | the service starts without a handle, and after the start-up load it has one exactly when the constructor succeeded |
| Server.StartupHealth | server.py:94-133 | after start-up `/health` is 200 exactly when the load succeeded; after a failed load it reports `unavailable` |
| Server.Root | server.py:99-102 | `/` always answers 200 with a single `message` field, `OmniParser API is running` |
| Server.HealthCheck | server.py:104-133 | no handle gives 503 with `status: unavailable`, the fixed message and the models, but no device; a handle gives 200 with `status: healthy`, the models and the device |
| Server.Parse | server.py:135-159 | no handle gives 503 with the fixed detail; otherwise the raw base64 text goes to the parser; a parser failure gives 500 with detail `Error parsing image: ` plus the message; success gives 200 with `success: true` and exactly the parser's image and elements |
| Server.HealthAndParseAgree | server.py:107-142 | `/health` answers 503 exactly when `/parse` refuses with 503 |
| Server.ParseWithoutHandleIgnoresParser | server.py:138-142 | without a handle the `/parse` reply does not depend on the parser or the clock, so the parser is never invoked |
| Server.FailedReloadKeepsHandle | server.py:85-92 | a failing load on a loaded service keeps the earlier handle, so `/health` still answers 200 |
| Server.Serve | server.py:99-159 | no request changes the service state; `/health` answers 200 or 503, and `/parse` answers 200, 500 or 503 |
| Server.ServeAll | server.py:99-159 | after any sequence of requests the state is unchanged, and each reply is the reply the request gets on its own, with the parser as it behaves at that request and its own measured latency |

## Left out

- `download_weights.py` and `setup.py` are not part of this model. They are download, `git clone` and subprocess plumbing with no logic of their own.
- The OmniParser model (`util.omniparser.Omniparser`) is external. Its constructor and `parse` are opaque function parameters that may fail.
- File I/O errors other than a missing `utils.py` are not modelled: permission errors, a missing `util/` directory, and a failing `shutil.copy`. `os.path.exists` is treated as "the path is a file in the map".
- The patch script's logging and the server's logging and debug printing of environment variables are left out.
- Of the generated handler module, only the list logic of `verify_dependencies` and `import_with_fallback` is modelled. Its logging and its execution when `utils.py` is imported are left out.
- DependencyHandler.ImportWithFallback: the `package_name` argument is dropped, because it only changes the logged message.
- DependencyHandler.VerifyDependencies: importability is a set of module names, so the function always returns. In the source, an import that fails with an exception other than `ImportError` (an `OSError` from a missing native library, say) escapes `verify_dependencies`, and also escapes the `except ImportError` guarding its call in `utils.py`. That outcome is not modelled.
- Patch.FileSystem: the map holds each file's text as Python's text-mode `open()` reads it, after locale decoding and newline translation. So a CRLF `utils.py` comes back with LF line endings even when no marker matches, while `shutil.copy` keeps the original bytes in the `.bak` file; the model does not show that difference. The claims about the script, including that it never crashes, assume a UTF-8 locale: under another locale, writing the handler module's `✓` and `✗` characters raises.
- Server.ConfigFromEnv: `BOX_THRESHOLD` is kept as its text. The `float(...)` parsing, including a parse failure at import time, is not modelled.
- Server.LoadOmniparser: the source catches only `Exception`. A `BaseException` such as `SystemExit` or `KeyboardInterrupt` raised by the constructor escapes `load_omniparser`. The model's `Result` has no such outcome.
- Server.Parse: the source catches only `Exception`. A `BaseException` raised by `parse` escapes the endpoint instead of becoming a 500 reply. That outcome is not modelled.
- Server.Parse: nothing is stated about the `latency` field's value. It is a difference of two floating-point wall-clock readings, and `time.time` is not monotonic.
- FastAPI routing, CORS middleware, request-body validation by pydantic, and uvicorn start-up are left out.
- When `server.py` is run as a script, it loads once before `uvicorn.run` and the imported `server` module loads again at start-up. Only the start-up-event load is modelled.
- Concurrency is not modelled. The code has no lock around the global handle or the load.
- Patch.PatchUtilsTextNotIdempotent: this covers files without the definition marker only. A file with that marker is covered by the concrete witnesses and the per-rewrite lemma. A general proof would need the definition marker to survive the call-site and PaddleOCR rewrites, which this model does not prove.
