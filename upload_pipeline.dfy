/** The save callback installed by `ensureOptimizerHook`: decide whether an upload
    is an image and whether any transform is asked for, run the version-2
    transform when both hold, rewrite the filename extension to the target
    format, and hand the result to plain storage or to the media library. */
module UploadPipeline {
  import opened PhpRuntime
  import opened ImageProcessor
  import opened OptimizerMacros

  /** What the callback learns about the uploaded file from the framework. */
  datatype Upload = Upload(
    mimeType: Option<string>,   // getMimeType()
    clientExtension: string,    // getClientOriginalExtension()
    storageName: string)        // getUploadedFileNameForStorage()

  /** The extension whitelist consulted when the MIME type does not say "image". */
  const ImageExtensions: seq<string> := ["jpg", "jpeg", "png", "webp", "gif", "bmp", "svg"]

  /** `(string) $mime`: null becomes the empty string. */
  function MimeText(mime: Option<string>): string {
    if mime.Some? then mime.value else ""
  }

  // ---------------------------------------------------------------------------
  // Classification and trigger

  /** An image by its MIME type (case-sensitive "image" substring) or, failing
      that, by its lower-cased client extension. */
  predicate IsImage(file: Upload)
    ensures IsImage(file) <==>
      || (exists i :: 0 <= i <= |MimeText(file.mimeType)| - 5 && OccursAt(MimeText(file.mimeType), "image", i))
      || ToLower(file.clientExtension) in {"jpg", "jpeg", "png", "webp", "gif", "bmp", "svg"}
    ensures file.mimeType.None? ==>
      (IsImage(file) <==> ToLower(file.clientExtension) in {"jpg", "jpeg", "png", "webp", "gif", "bmp", "svg"})
  {
    Contains(MimeText(file.mimeType), "image") || ToLower(file.clientExtension) in ImageExtensions
  }

  /** Whether some setting asks for a transform; quality alone does not. A
      transform is requested exactly when a format is set or the geometry policy
      would resize some image. */
  predicate AnyTransformRequested(s: Settings)
    ensures AnyTransformRequested(s) <==>
      TruthyStr(s.format) || exists image :: PolicyV2(image, s) != Untouched
  {
    assert TruthyInt(s.resize) ==> PolicyV2(Raster(0, 0), s) != Untouched;
    assert TruthyInt(s.maxWidth) ==>
      PolicyV2(Raster(if s.maxWidth.value < 0 then 0 else s.maxWidth.value + 1, 0), s) != Untouched;
    assert TruthyInt(s.maxHeight) ==>
      PolicyV2(Raster(0, if s.maxHeight.value < 0 then 0 else s.maxHeight.value + 1), s) != Untouched;
    TruthyStr(s.format) || TruthyInt(s.resize) || TruthyInt(s.maxWidth) || TruthyInt(s.maxHeight)
  }

  /** A transform runs only for an image with some transform requested. */
  predicate ShouldTransform(file: Upload, s: Settings)
    ensures ShouldTransform(file, s) <==>
      IsImage(file) && (TruthyStr(s.format) || exists image :: PolicyV2(image, s) != Untouched)
  {
    IsImage(file) && AnyTransformRequested(s)
  }

  /** The extension test ignores the case of the client extension. */
  lemma ExtensionCaseIgnored(file: Upload)
    ensures IsImage(file) == IsImage(file.(clientExtension := ToLower(file.clientExtension)))
  {
    ToLowerIdempotent(file.clientExtension);
  }

  /** A MIME type containing "image" decides by itself, whatever the extension. */
  lemma ImageMimeSuffices(file: Upload, m: string)
    requires file.mimeType == Some("image/" + m)
    ensures IsImage(file)
  {
  }

  /** The MIME test is case-sensitive: "IMAGE/PNG" with a "pdf" extension is not an image. */
  lemma UpperCaseMimeNotImage()
    ensures !IsImage(Upload(Some("IMAGE/PNG"), "pdf", "scan.pdf"))
  {
    var mime := "IMAGE/PNG";
    forall i | 0 <= i <= |mime| - 5
      ensures !OccursAt(mime, "image", i)
    {
      assert mime[i..i + 5][0] != 'i';
    }
    assert ToLower("pdf") == "pdf" by {
      assert forall i :: 0 <= i < 3 ==> ToLower("pdf")[i] == "pdf"[i];
    }
  }

  /** With no MIME type an upper-case whitelisted extension still makes an image. */
  lemma UpperCaseExtensionIsImage()
    ensures IsImage(Upload(None, "JPG", "photo.JPG"))
  {
    assert ToLower("JPG") == "jpg" by {
      assert forall i :: 0 <= i < 3 ==> ToLower("JPG")[i] == "jpg"[i];
    }
  }

  /** A quality setting alone, or no settings at all, never triggers a transform. */
  lemma QualityAloneNeverTriggers(file: Upload, q: Option<int>)
    ensures !ShouldTransform(file, Settings(None, q, None, None, None))
    ensures !ShouldTransform(file, SettingsOf(map[]))
  {
  }

  // ---------------------------------------------------------------------------
  // Filename policy

  /** The name before its last dot (the whole name when it has none). */
  function Stem(name: string): string {
    match LastIndexOf(name, '.')
    case Some(i) => name[..i]
    case None => name
  }

  /** The text after the last dot, if there is a dot. */
  function Extension(name: string): Option<string> {
    match LastIndexOf(name, '.')
    case Some(i) => Some(name[i + 1..])
    case None => None
  }

  /** Keep the name through its last dot and append the format verbatim, or
      append "." and the format when there is no dot. Both branches give the
      stem, a dot and the format. */
  function WithExtension(name: string, format: string): (r: string)
    ensures r == Stem(name) + "." + format
  {
    match LastIndexOf(name, '.')
    case Some(i) =>
      assert name[..i + 1] == name[..i] + ".";
      name[..i + 1] + format
    case None => name + "." + format
  }

  /** For a format without a dot the rewrite round-trips: the new extension is
      the format, verbatim, and the stem is unchanged. */
  lemma {:induction false} WithExtensionRoundTrip(name: string, format: string)
    requires '.' !in format
    ensures Extension(WithExtension(name, format)) == Some(format)
    ensures Stem(WithExtension(name, format)) == Stem(name)
  {
    var stem := Stem(name);
    var r := WithExtension(name, format);
    assert r[|stem|] == '.';
    assert r[|stem| + 1..] == format;
    LastIndexOfAt(r, '.', |stem|);
    assert r[..|stem|] == stem;
  }

  /** Rewriting again replaces only the extension the first rewrite wrote. */
  lemma {:induction false} RewriteTwice(name: string, f: string, g: string)
    requires '.' !in f
    ensures WithExtension(WithExtension(name, f), g) == WithExtension(name, g)
  {
    WithExtensionRoundTrip(name, f);
  }

  /** For a format without a dot, rewriting twice is rewriting once. */
  lemma RewriteIdempotent(name: string, format: string)
    requires '.' !in format
    ensures WithExtension(WithExtension(name, format), format) == WithExtension(name, format)
  {
    RewriteTwice(name, format, format);
  }

  /** A format that holds a dot is not idempotent: "a" with "tar.gz" twice is "a.tar.tar.gz". */
  lemma DottedFormatNotIdempotent()
    ensures WithExtension("a", "tar.gz") == "a.tar.gz"
    ensures WithExtension(WithExtension("a", "tar.gz"), "tar.gz") == "a.tar.tar.gz"
  {
  }

  /** "test.jpg" to webp is "test.webp"; the format is written verbatim, so "jpg"
      stays "jpg" and "JPEG" stays "JPEG"; "photo" gains ".jpg". */
  lemma RewriteExamples()
    ensures WithExtension("test.jpg", "webp") == "test.webp"
    ensures WithExtension("a.png", "JPEG") == "a.JPEG"
    ensures WithExtension("photo", "jpg") == "photo.jpg"
  {
    LastIndexOfAt("test.jpg", '.', 4);
    LastIndexOfAt("a.png", '.', 1);
    assert LastIndexOf("photo", '.') == None;
  }

  // ---------------------------------------------------------------------------
  // The two store paths

  /** Bytes handed to storage: the upload's own, or those of the planned transform. */
  datatype Content = OriginalBytes | Encoded(plan: Plan)

  /** What processAndStoreImage does: write the transformed image under the
      directory, or leave the upload to the component's default store. */
  datatype StoreResult = StoredAt(path: string, content: Content) | StoredUnchanged

  /** The record a media-library upload is attached to. */
  datatype Record = Record(hasAddMediaFromString: bool)

  /** The bytes and filename handed to the media library. */
  datatype MediaFile = MediaFile(content: Content, fileName: string)

  /** The stored name: the extension rewritten to a truthy format, else unchanged. */
  function StoredName(name: string, s: Settings): (r: string)
    ensures !TruthyStr(s.format) ==> r == name
    ensures TruthyStr(s.format) ==> r == Stem(name) + "." + s.format.value
    ensures TruthyStr(s.format) && '.' !in s.format.value ==> Extension(r) == s.format && Stem(r) == Stem(name)
  {
    if TruthyStr(s.format) then
      var format := s.format.value;
      if '.' !in format then
        WithExtensionRoundTrip(name, format);
        WithExtension(name, format)
      else
        WithExtension(name, format)
    else name
  }

  /** The transform both paths run, the version-2 pipeline with the quality default. */
  function TransformPlan(image: Raster, s: Settings): (p: Plan)
    ensures p.resize.Untouched? || p.resize.ResizeKeepingAspect?
    ensures p.resize.Untouched? <==> !AnyRuleFires(image, s)
    ensures p.resize.ResizeKeepingAspect? ==>
      p.resize.width == TargetWidth(image, s) && p.resize.height == TargetHeight(image, s)
    ensures !TruthyStr(s.format) ==> p.encoding == EncodeDefault
    ensures TruthyStr(s.format) ==> p.encoding.EncodeAs? && p.encoding.format == s.format.value
    ensures TruthyStr(s.format) && s.quality.Some? ==> p.encoding.quality == s.quality
    ensures TruthyStr(s.format) && s.quality.None? ==>
      p.encoding.quality == if s.format.value == "jpeg" || s.format.value == "jpg" then Some(DefaultJpegQuality) else None
  {
    Plan(PolicyV2(image, s), EncodingV2(s.format, QualityFor(s.format, s.quality)))
  }

  /** The geometry policy does not read the quality. */
  lemma PolicyIgnoresQuality(image: Raster, s: Settings, q: Option<int>)
    ensures PolicyV2(image, s.(quality := q)) == PolicyV2(image, s)
  {
  }

  /** processAndStoreImage. `image` is what decoding the upload reports; it is only
      consulted when a transform runs. */
  method ProcessAndStoreImage(settings: map<string, Value>, file: Upload, image: Raster, directory: string)
    returns (r: StoreResult)
    ensures var s := SettingsOf(settings);
      !ShouldTransform(file, s) ==> r == StoredUnchanged
    ensures var s := SettingsOf(settings);
      ShouldTransform(file, s) ==>
        r == StoredAt(directory + "/" + StoredName(file.storageName, s), Encoded(TransformPlan(image, s)))
  {
    var s := SettingsOf(settings);
    var filename := file.storageName;

    var isImage := Contains(MimeText(file.mimeType), "image");
    if !isImage {
      isImage := ToLower(file.clientExtension) in ImageExtensions;
    }

    if isImage && (TruthyStr(s.format) || TruthyInt(s.resize) || TruthyInt(s.maxWidth) || TruthyInt(s.maxHeight)) {
      var quality := QualityFor(s.format, s.quality);
      var plan := ProcessV2(image, s.(quality := quality));
      PolicyIgnoresQuality(image, s, quality);
      if TruthyStr(s.format) {
        filename := WithExtension(filename, s.format.value);
      }
      r := StoredAt(directory + "/" + filename, Encoded(plan));
    } else {
      r := StoredUnchanged;
    }
  }

  /** processAndStoreSpatie. `formatFilename` stands for `self::formatFilename`,
      which it calls before its own inline rewrite. */
  method ProcessAndStoreSpatie(
    settings: map<string, Value>, file: Upload, image: Raster, record: Option<Record>,
    formatFilename: (string, string) -> string)
    returns (r: Option<MediaFile>)
    ensures record.None? || !record.value.hasAddMediaFromString ==> r == None
    ensures var s := SettingsOf(settings);
      record.Some? && record.value.hasAddMediaFromString && !ShouldTransform(file, s) ==>
        r == Some(MediaFile(OriginalBytes, file.storageName))
    ensures var s := SettingsOf(settings);
      record.Some? && record.value.hasAddMediaFromString && ShouldTransform(file, s) ==>
        r.Some? && r.value.content == Encoded(TransformPlan(image, s)) &&
        r.value.fileName == (if TruthyStr(s.format)
                             then WithExtension(formatFilename(file.storageName, s.format.value), s.format.value)
                             else file.storageName)
    ensures var s := SettingsOf(settings);
      r.Some? && ShouldTransform(file, s) && TruthyStr(s.format) && '.' !in s.format.value &&
      formatFilename(file.storageName, s.format.value) == WithExtension(file.storageName, s.format.value) ==>
        r.value.fileName == WithExtension(file.storageName, s.format.value)
  {
    if record.None? || !record.value.hasAddMediaFromString {
      return None;
    }

    var s := SettingsOf(settings);
    var filename := file.storageName;
    var content := OriginalBytes;

    var isImage := Contains(MimeText(file.mimeType), "image");
    if !isImage {
      isImage := ToLower(file.clientExtension) in ImageExtensions;
    }

    assert isImage == IsImage(file);

    if isImage && (TruthyStr(s.format) || TruthyInt(s.resize) || TruthyInt(s.maxWidth) || TruthyInt(s.maxHeight)) {
      var quality := QualityFor(s.format, s.quality);
      var plan := ProcessV2(image, s.(quality := quality));
      PolicyIgnoresQuality(image, s, quality);
      content := Encoded(plan);
      if TruthyStr(s.format) {
        var format := s.format.value;
        filename := formatFilename(filename, format);
        filename := WithExtension(filename, format);
        if '.' !in format && formatFilename(file.storageName, format) == WithExtension(file.storageName, format) {
          RewriteIdempotent(file.storageName, format);
        }
      }
    }
    r := Some(MediaFile(content, filename));
  }

  /** What the save callback returns, by component kind. */
  datatype SaveOutcome = SavedToDisk(stored: StoreResult) | SavedAsMedia(media: Option<MediaFile>)

  /** The callback `ensureOptimizerHook` installs: the media-library path for a
      media-library component, the plain path otherwise. An upload that does not
      trigger a transform is kept byte for byte on either path. */
  method SaveUploadedFile(
    component: FileUpload, isSpatieComponent: bool, file: Upload, image: Raster,
    record: Option<Record>, directory: string, formatFilename: (string, string) -> string)
    returns (o: SaveOutcome)
    ensures o.SavedAsMedia? <==> isSpatieComponent
    ensures !ShouldTransform(file, SettingsOf(component.imageOptimization)) ==>
      o == SavedToDisk(StoredUnchanged) ||
      (o.SavedAsMedia? && (o.media.Some? ==> o.media.value == MediaFile(OriginalBytes, file.storageName)))
    ensures ShouldTransform(file, SettingsOf(component.imageOptimization)) ==>
      var plan := TransformPlan(image, SettingsOf(component.imageOptimization));
      (o.SavedToDisk? && o.stored.StoredAt? && o.stored.content == Encoded(plan)) ||
      (o.SavedAsMedia? && (o.media.Some? ==> o.media.value.content == Encoded(plan)))
  {
    if isSpatieComponent {
      var media := ProcessAndStoreSpatie(component.imageOptimization, file, image, record, formatFilename);
      return SavedAsMedia(media);
    }
    var stored := ProcessAndStoreImage(component.imageOptimization, file, image, directory);
    o := SavedToDisk(stored);
  }
}
