# image-optimizer: the transform decision, in Dafny

This project models the decision logic of the image-optimizer plugin for the
upload component. The plugin intercepts the "save uploaded file" step of the
upload component. It decides whether an upload is an image and whether any
transform was asked for. When both hold, it resizes and re-encodes the image
and rewrites the filename extension. Otherwise it stores the upload unchanged.

The pixel work belongs to the imaging library and is not modelled. Decoding is
represented by the width and height the library reports (`Raster`). The calls
made on the decoded image are values: `ResizeCall` is the version-2
`resize(w, h)` under the aspect-ratio constraint or the version-3 `scale(w, h)`,
and `EncodeCall` is `encode`, `toWebp`, `toJpeg` and the rest.

Modules:

- `PhpRuntime` (php_runtime.dfy): nullable values, PHP truthiness (`0`, `0.0`,
  `""`, `"0"` and `null` are falsy), and `strtolower`, `str_contains` and
  `strrpos`.
- `ImageProcessor` (image_processor.dfy): `process`, `processV2` and
  `processV3`. Covers the 70 quality default, the three geometry rules (max
  width, max height, percent), the version-2 and version-3 resize conditions,
  and the version-3 encoder dispatch. The rules are stated one by one as
  functions (`Clamp`, `PercentTarget`, `TargetWidth`, `TargetHeight`,
  `PolicyV2`, `PolicyV3`). The methods `ProcessV2` and `ProcessV3` update
  their locals step by step, as `processV2` and `processV3` do, and are proved equal to
  those functions.
- `OptimizerMacros` (file_upload.dfy): the class `FileUpload`. It holds the
  `imageOptimization` settings map, the `hasOptimizerHook` flag and the save
  callback. The setter macros are methods on it, and so is
  `ensureOptimizerHook`.
- `UploadPipeline` (upload_pipeline.dfy): the save callback. Covers image
  classification, the transform trigger, the filename extension rewrite, and
  `processAndStoreImage` and `processAndStoreSpatie` as step-by-step methods.

Percent targets are exact reals: `d - d * (p / 100)`, which equals
`d * (100 - p) / 100`.

Behaviour of the code worth knowing:

- An unknown format is not an error. Version 3 falls back to `encode()`, and
  version 2 passes the string to `encode` unchanged.
- The provider's two store paths always use the version-2 API
  (`Image::make`, `resize`, `encode($format, $quality)`) whatever library is
  installed. The model therefore runs both paths through `ProcessV2`.
- Nothing checks that quality lies in 0–100 or that the percent lies in
  1–100. A negative percent enlarges the image (`PercentTarget`). A percent
  of 100 asks for a zero-sized target (`FullPercentDiverges`).

## Model

| member | source | states |
|---|---|---|
| `PhpRuntime.LowerChar` | src/ImageOptimizerServiceProvider.php:118 | strtolower on one character: the result is never an upper-case ASCII letter, it equals the input exactly when the input is not one, and otherwise it is the input shifted by 32 |
| `PhpRuntime.ToLower` | src/ImageOptimizerServiceProvider.php:118 | strtolower keeps the length and lowers each character independently |
| `PhpRuntime.ToLowerKeepsTruthiness` | src/ImageProcessor.php:98-99 | lower-casing turns no truthy format falsy and no falsy one truthy, so testing truthiness before `strtolower`, as version 3 does, decides the same as testing after |
| `PhpRuntime.Contains` | src/ImageOptimizerServiceProvider.php:116 | str_contains is true exactly when the needle occurs at some index of the haystack |
| `PhpRuntime.LastIndexOf` | src/ImageOptimizerServiceProvider.php:165 | strrpos gives `false` exactly when the character is absent; otherwise it gives an index that holds the character, with no occurrence after it |
| `ImageProcessor.QualityFor` | src/ImageProcessor.php:15-17 | an explicit quality, even 0, is kept, and so is any quality when the format is falsy; with a truthy format and no quality, the result is 70 exactly when the raw format is `jpeg` or `jpg`, and null otherwise |
| `ImageProcessor.Clamp` | src/ImageProcessor.php:34-42 | a max-width or max-height rule fires exactly when its limit is truthy and strictly exceeded; its target is then the limit itself, nonzero and strictly below the current dimension |
| `ImageProcessor.PercentTarget` | src/ImageProcessor.php:44-51 | `d - d*(p/100)` equals `d*(100-p)/100`; it lies in [0, d] for p in [0, 100], for a nonzero dimension d it is below d for a positive p and above d for a negative p, and is zero exactly when d is 0 or p is 100 |
| `ImageProcessor.PolicyV2` | src/ImageProcessor.php:30-57 | version 2 never scales; it calls `resize` exactly when a width or height target is set after the three rules, and passes exactly those two targets |
| `ImageProcessor.PolicyV3` | src/ImageProcessor.php:75-96 | version 3 never calls the version-2 `resize`; it calls `scale` exactly when one of the two targets is truthy, and then version 2 would resize to the same two targets |
| `ImageProcessor.EncodingV2` | src/ImageProcessor.php:59-63 | version 2 calls `encode(format, quality)` exactly when the format is truthy, with the format and quality unchanged, and `encode()` otherwise |
| `ImageProcessor.CanonicalFormat` | src/ImageProcessor.php:99-103 | the format version 3 dispatches on is the lower-cased input, except that a lower-cased `jpg` becomes `jpeg`; so it is lower-case and never `jpg` |
| `ImageProcessor.EncodingV3` | src/ImageProcessor.php:98-124 | a falsy format gives `encode()`; for a truthy format, by its lower-cased form: `jpg` or `jpeg` gives `toJpeg`, `webp` gives `toWebp`, each with the quality exactly when it is truthy; `png`, `gif` and `bmp` give `toPng`, `toGif` and `toBitmap` with no quality; anything else gives `encode()`; the version-2 call never occurs |
| `ImageProcessor.ProcessV2` | src/ImageProcessor.php:26-64 | the sequential overwrites of `$shouldResize`, `$imageWidth` and `$imageHeight` give the rule-by-rule policy `PolicyV2`, followed by the version-2 encode |
| `ImageProcessor.ProcessV3` | src/ImageProcessor.php:66-125 | the sequential overwrites of `$calcWidth` and `$calcHeight` give `PolicyV3`, which scales only when a target is truthy, followed by the version-3 dispatch |
| `ImageProcessor.Process` | src/ImageProcessor.php:7-24 | quality is defaulted first; the version-2 path runs exactly when its class exists, and the version-3 path runs otherwise |
| `ImageProcessor.RulesFireIffTargetSet` | src/ImageProcessor.php:30-57 | some rule fired exactly when a width or height target is set afterwards, and version 2 resizes exactly then |
| `ImageProcessor.ClampsIndependent` | src/ImageProcessor.php:34-42 | with no percent, each axis target is exactly that axis's own clamp, so both clamps can apply together |
| `ImageProcessor.PercentOverwritesOneAxis` | src/ImageProcessor.php:44-51 | a truthy percent sets the height of a portrait image and the width otherwise (a square takes the width branch); the other axis keeps its clamp |
| `ImageProcessor.V3ScaleImpliesV2Resize` | src/ImageProcessor.php:75-96 | whenever version 3 scales, version 2 resizes to the same two targets |
| `ImageProcessor.V2V3AgreeOnNonzeroTargets` | src/ImageProcessor.php:94-96 | when every set target is nonzero, version 3 scales exactly when version 2 resizes, to the same targets |
| `ImageProcessor.FullPercentDiverges` | src/ImageProcessor.php:86-96 | with percent 100 on a non-portrait image and no clamps, version 2 resizes to width 0 and version 3 does not scale |
| `ImageProcessor.PolicyOnlyShrinks` | src/ImageProcessor.php:30-51 | on a non-empty image with no percent or a percent in (0, 100], every set target is strictly below its current dimension |
| `ImageProcessor.SquareHalvesWidth` | tests/OptimizationTest.php:90-114 | a 200×200 image at 50 percent gets width target 100 and no height target |
| `ImageProcessor.MaxWidthOnly` | tests/OptimizationTest.php:117-141 | a 500×200 image with max width 250 gets width target 250 and no height target; the height of 100 comes from the library |
| `ImageProcessor.EncodingV3IgnoresCase` | src/ImageProcessor.php:98-103 | the version-3 dispatch gives the same call for a format and for its lower-cased form |
| `ImageProcessor.NoFormatEncodesDefault` | src/ImageProcessor.php:59-63 | with no truthy format, both versions use the default `encode()` |
| `ImageProcessor.JpegDefaultIsCaseSensitive` | src/ImageProcessor.php:15-17 | `jpg` is encoded as jpeg at quality 70; `JPG` is encoded as jpeg with no quality, because the default is decided before lower-casing |
| `ImageProcessor.ZeroQualityKept` | src/ImageProcessor.php:105-110 | an explicit quality of 0 survives the default; version 2 passes it to `encode`, and version 3 drops it because 0 is falsy |
| `ImageProcessor.UnknownFormatFallsBack` | src/ImageProcessor.php:111-121 | `tiff` is not an error: version 3 falls back to `encode()` |
| `OptimizerMacros.SettingsRoundTrip` | src/ImageOptimizerServiceProvider.php:106-111 | reading the settings back after a key is written gives the written value in that field and leaves every other field unchanged |
| `OptimizerMacros.FileUpload.EnsureOptimizerHook` | src/ImageOptimizerServiceProvider.php:82-95 | afterwards the flag is set and the callback has been installed exactly once; a second call changes nothing; the settings are untouched |
| `OptimizerMacros.FileUpload.Optimize` | src/ImageOptimizerServiceProvider.php:35-42 | defaults to `webp` and null; writes only `format` and `quality`; installs the hook; returns the same component |
| `OptimizerMacros.FileUpload.Resize` | src/ImageOptimizerServiceProvider.php:44-50 | defaults to 50; writes only `resize`; installs the hook; returns the same component |
| `OptimizerMacros.FileUpload.MaxImageWidth` | src/ImageOptimizerServiceProvider.php:52-58 | writes only `max_width`; installs the hook; returns the same component |
| `OptimizerMacros.FileUpload.MaxImageHeight` | src/ImageOptimizerServiceProvider.php:60-66 | writes only `max_height`; installs the hook; returns the same component |
| `OptimizerMacros.FileUpload.MediaName` | src/ImageOptimizerServiceProvider.php:69-73 | writes only `media_name`; the transform settings, the flag and the callback are unchanged |
| `OptimizerMacros.FileUpload.CustomHeaders` | src/ImageOptimizerServiceProvider.php:75-79 | writes only `custom_headers`; the transform settings, the flag and the callback are unchanged |
| `OptimizerMacros.ChainedConfiguration` | tests/MacroTest.php:21-30 | extends the test's chain `optimize('webp')->resize(50)->maxImageWidth(1000)`: it uses the defaults `webp` and 50 and adds `mediaName('x')`; the chain records webp, null quality, 50 and 1000, records `x` under `media_name`, and installs the callback exactly once |
| `UploadPipeline.IsImage` | src/ImageOptimizerServiceProvider.php:115-120 | an upload is an image exactly when its MIME text (null read as `""`) contains `image` at some index, case-sensitively, or its lower-cased client extension is one of `jpg`, `jpeg`, `png`, `webp`, `gif`, `bmp`, `svg`; with no MIME type only the extension decides |
| `UploadPipeline.AnyTransformRequested` | src/ImageOptimizerServiceProvider.php:124 | a transform is requested exactly when the format is truthy or the geometry policy would resize some image; the quality plays no part |
| `UploadPipeline.ShouldTransform` | src/ImageOptimizerServiceProvider.php:122-125 | the transform runs exactly for an image whose settings give a truthy format or resize some image |
| `UploadPipeline.ExtensionCaseIgnored` | src/ImageOptimizerServiceProvider.php:115-120 | classification gives the same answer for an extension and for its lower-cased form |
| `UploadPipeline.ImageMimeSuffices` | src/ImageOptimizerServiceProvider.php:116 | a MIME type starting `image/` makes the upload an image, whatever its extension |
| `UploadPipeline.UpperCaseMimeNotImage` | src/ImageOptimizerServiceProvider.php:116-119 | the MIME test is case-sensitive: `IMAGE/PNG` with extension `pdf` is not an image |
| `UploadPipeline.UpperCaseExtensionIsImage` | src/ImageOptimizerServiceProvider.php:117-119 | with a null MIME type, extension `JPG` is lower-cased and found in the whitelist |
| `UploadPipeline.QualityAloneNeverTriggers` | src/ImageOptimizerServiceProvider.php:122-125 | a quality setting alone, or an empty settings map, never triggers a transform |
| `UploadPipeline.WithExtension` | src/ImageOptimizerServiceProvider.php:165-170 | both branches give the stem before the last dot, then `.`, then the format verbatim, so the result always ends with `.` and the format |
| `UploadPipeline.WithExtensionRoundTrip` | src/ImageOptimizerServiceProvider.php:165-170 | for a format with no dot, the extension of the rewritten name is exactly the format and its stem is the original stem |
| `UploadPipeline.RewriteTwice` | src/ImageOptimizerServiceProvider.php:257-262 | rewriting a name already rewritten to a dot-free format equals rewriting the original name |
| `UploadPipeline.RewriteIdempotent` | src/ImageOptimizerServiceProvider.php:252-262 | for a format with no dot, applying the rewrite twice equals applying it once |
| `UploadPipeline.DottedFormatNotIdempotent` | src/ImageOptimizerServiceProvider.php:165-170 | with the format `tar.gz` the rewrite is not idempotent: `a` becomes `a.tar.gz`, then `a.tar.tar.gz` |
| `UploadPipeline.RewriteExamples` | tests/OptimizationTest.php:82 | `test.jpg` becomes `test.webp`; the format is written verbatim (`a.png` becomes `a.JPEG`); `photo` becomes `photo.jpg` |
| `UploadPipeline.StoredName` | src/ImageOptimizerServiceProvider.php:161-173 | the name is unchanged without a truthy format; with one it is the stem, a dot and the format verbatim, and for a dot-free format its extension is the format and its stem is the original stem |
| `UploadPipeline.TransformPlan` | src/ImageOptimizerServiceProvider.php:126-173 | the plan never scales: it calls the version-2 `resize` exactly when some rule fires, to the two targets; it calls `encode()` without a truthy format, and otherwise `encode` with the format verbatim, the explicit quality when one is given, and else 70 exactly for `jpeg` or `jpg` |
| `UploadPipeline.PolicyIgnoresQuality` | src/ImageOptimizerServiceProvider.php:132-159 | the inline geometry does not read the quality |
| `UploadPipeline.ProcessAndStoreImage` | src/ImageOptimizerServiceProvider.php:104-184 | a non-image or a request with no transform leaves the upload to the default store; otherwise the version-2 plan with the quality default is written to the directory under the rewritten name |
| `UploadPipeline.ProcessAndStoreSpatie` | src/ImageOptimizerServiceProvider.php:187-266 | null when the record is missing or lacks `addMediaFromString`; the original bytes and name when no transform runs; otherwise the version-2 plan, with the name rewritten after the helper; when the helper does the same rewrite and the format has no dot, the name is the single rewrite |
| `UploadPipeline.SaveUploadedFile` | src/ImageOptimizerServiceProvider.php:88-94 | the media-library path runs exactly for a media-library component; an upload that triggers no transform is kept byte for byte on either path; one that does is stored as the version-2 plan |

## Left out

- The imaging library: decoding, the pixel work of `resize` and `scale`, and
  encoding. The aspect-ratio derivation of the unset axis is also left out,
  as is the rounding of real targets to whole pixels. Calls on the decoded
  image appear as values, and the decoded dimensions are a parameter. The
  floating-point error of `$resize / 100` is not modelled; targets are exact
  reals.
- The version-3 driver choice between Imagick and GD
  (src/ImageProcessor.php:68-72). It concerns the library only.
- Runtime introspection becomes parameters: `class_exists` (the `v2Installed`
  flag), `isSpatieComponent` (the `isSpatieComponent` flag) and `method_exists`
  on the record (`Record.hasAddMediaFromString`).
- `$this->evaluate` on closures: settings are taken as already evaluated. A
  settings value of a type the typed macros cannot write reads as null.
- Failures raised while decoding, for example for an SVG or a corrupt file.
  The model assumes decoding succeeds whenever a transform runs.
- Storage: `Storage::disk()->put` is the `StoredAt` result.
  `storeUploadedFileToDisk` (src/ImageOptimizerServiceProvider.php:311-331)
  is the `StoredUnchanged` result.
- The media-library adder chain (src/ImageOptimizerServiceProvider.php:268-307)
  is left out. This includes how `media_name` and `custom_headers` are
  applied. The model stops at the bytes and filename handed to
  `addMediaFromString` and `usingFileName`.
- `self::formatFilename` (src/ImageOptimizerServiceProvider.php:252) is not
  defined in any of the plugin's files. It is the `formatFilename` function
  parameter.
- `configurePackage`, `packageBooted`, `registerMacros`, `publishStubs` and the
  facade are package wiring. The macros appear as methods of `FileUpload`.
- `strtolower` is modelled on ASCII letters only, as PHP 8.2 and later
  behave.
- `in_array` uses loose comparison. Every whitelist entry is a non-numeric
  string, so loose comparison equals string equality here.
- SaveUploadedFile: its contract only summarises the two paths; the full
  statement is in the contracts of `ProcessAndStoreImage` and
  `ProcessAndStoreSpatie`, which it calls.
- ProcessAndStoreImage, ProcessAndStoreSpatie: they assume the version-2
  library is installed. Both call `Image::make` on `ImageManagerStatic`, a
  version-2 class (src/ImageOptimizerServiceProvider.php:10, 126, 215). With
  version 3 alone that call fails, and neither path stores anything. The
  model returns the version-2 plan instead.
- The save callback slot holds only the optimizer's callback. A callback the
  component was given by other code cannot be represented. `ensureOptimizerHook`
  would overwrite one set earlier (src/ImageOptimizerServiceProvider.php:88).
  One set later would replace the optimizer's callback while
  `hasOptimizerHook` stays true.
