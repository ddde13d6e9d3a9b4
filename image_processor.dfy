/** The transform decision of `ImageProcessor::process`: the default quality, the
    choice between the two generations of the imaging library, and, for each
    generation, which resize or scale call and which encoder call is made.

    The imaging library itself is not modelled: decoding is represented by the
    dimensions it reports (`Raster`), and the calls made on the decoded image are
    values (`ResizeCall`, `EncodeCall`). */
module ImageProcessor {
  import opened PhpRuntime

  /** Width and height of the decoded image, as the library reports them. */
  datatype Raster = Raster(width: nat, height: nat)

  /** The optimisation settings, each already evaluated (closures resolved). */
  datatype Settings = Settings(
    format: Option<string>,
    quality: Option<int>,
    resize: Option<int>,
    maxWidth: Option<int>,
    maxHeight: Option<int>)

  /** The geometry call made on the decoded image: none, the version-2
      `resize(w, h)` under the aspect-ratio constraint, or the version-3 `scale(w, h)`. */
  datatype ResizeCall =
    | Untouched
    | ResizeKeepingAspect(width: Option<real>, height: Option<real>)
    | Scale(width: Option<real>, height: Option<real>)

  /** The encoder call that produces the output bytes. */
  datatype EncodeCall =
    | EncodeDefault                                   // encode(): the image's own format
    | EncodeAs(format: string, quality: Option<int>)  // version 2: encode($format, $quality)
    | ToWebp(quality: Option<int>)
    | ToJpeg(quality: Option<int>)
    | ToPng
    | ToGif
    | ToBitmap

  datatype Plan = Plan(resize: ResizeCall, encoding: EncodeCall)

  const DefaultJpegQuality: int := 70

  /** The quality actually used: an explicit quality (even 0) is kept; with a truthy
      format and no quality, 70 for exactly "jpeg" or "jpg", otherwise none. */
  function QualityFor(format: Option<string>, quality: Option<int>): (q: Option<int>)
    ensures quality.Some? || !TruthyStr(format) ==> q == quality
    ensures TruthyStr(format) && quality.None? ==>
      (q.Some? <==> format.value == "jpeg" || format.value == "jpg") &&
      (q.Some? ==> q.value == DefaultJpegQuality)
  {
    if TruthyStr(format) then
      if quality.Some? then quality
      else if format.value == "jpeg" || format.value == "jpg" then Some(DefaultJpegQuality)
      else None
    else quality
  }

  // ---------------------------------------------------------------------------
  // Geometry policy, stated rule by rule

  /** The max-width or max-height rule on one axis: the limit, when it is set,
      truthy and strictly exceeded by the current dimension. */
  function Clamp(limit: Option<int>, d: nat): (t: Option<real>)
    ensures t.Some? <==> TruthyInt(limit) && d > limit.value
    ensures t.Some? ==> t.value == limit.value as real
    ensures t.Some? ==> t.value < d as real && t.value != 0.0
  {
    if TruthyInt(limit) && d > limit.value then Some(limit.value as real) else None
  }

  /** The percent rule on one axis: `d - d * (p / 100)`, over exact reals. */
  function PercentTarget(d: nat, p: int): (t: real)
    ensures t == d as real * (100 - p) as real / 100.0
    ensures 0 <= p <= 100 ==> 0.0 <= t <= d as real
    ensures 0 < p && 0 < d ==> t < d as real
    ensures p < 0 && 0 < d ==> t > d as real
    ensures t == 0.0 <==> d == 0 || p == 100
  {
    d as real - d as real * (p as real / 100.0)
  }

  /** Taller than wide: the percent rule then targets the height; a square is not. */
  predicate Portrait(image: Raster) {
    image.height > image.width
  }

  /** Whether the percent rule applies (a truthy percent). */
  predicate PercentRule(s: Settings) {
    TruthyInt(s.resize)
  }

  /** The width target after all three rules: the percent rule overwrites the
      width of a non-portrait image; otherwise the max-width rule decides. */
  function TargetWidth(image: Raster, s: Settings): Option<real> {
    if PercentRule(s) && !Portrait(image) then Some(PercentTarget(image.width, s.resize.value))
    else Clamp(s.maxWidth, image.width)
  }

  /** The height target after all three rules, symmetric to `TargetWidth`. */
  function TargetHeight(image: Raster, s: Settings): Option<real> {
    if PercentRule(s) && Portrait(image) then Some(PercentTarget(image.height, s.resize.value))
    else Clamp(s.maxHeight, image.height)
  }

  /** At least one of the three rules fired. */
  predicate AnyRuleFires(image: Raster, s: Settings) {
    Clamp(s.maxWidth, image.width).Some? || Clamp(s.maxHeight, image.height).Some? || PercentRule(s)
  }

  /** Version 2 resizes exactly when some rule fired, to the two targets, either
      of which may be unset. */
  function PolicyV2(image: Raster, s: Settings): (r: ResizeCall)
    ensures r.Untouched? || r.ResizeKeepingAspect?
    ensures r.ResizeKeepingAspect? <==> TargetWidth(image, s).Some? || TargetHeight(image, s).Some?
    ensures r.ResizeKeepingAspect? ==> r.width == TargetWidth(image, s) && r.height == TargetHeight(image, s)
  {
    if AnyRuleFires(image, s) then ResizeKeepingAspect(TargetWidth(image, s), TargetHeight(image, s))
    else Untouched
  }

  /** Version 3 scales exactly when one of the two targets is truthy. */
  function PolicyV3(image: Raster, s: Settings): (r: ResizeCall)
    ensures r.Untouched? || r.Scale?
    ensures r.Scale? <==> TruthyReal(TargetWidth(image, s)) || TruthyReal(TargetHeight(image, s))
    ensures r.Scale? ==> PolicyV2(image, s) == ResizeKeepingAspect(r.width, r.height)
  {
    var w, h := TargetWidth(image, s), TargetHeight(image, s);
    if TruthyReal(w) || TruthyReal(h) then Scale(w, h) else Untouched
  }

  // ---------------------------------------------------------------------------
  // Encoder dispatch

  /** Version 2: `encode($format, $quality)` for a truthy format, else `encode()`. */
  function EncodingV2(format: Option<string>, quality: Option<int>): (e: EncodeCall)
    ensures e.EncodeAs? <==> TruthyStr(format)
    ensures e.EncodeAs? ==> e.format == format.value && e.quality == quality
    ensures !e.EncodeAs? ==> e == EncodeDefault
  {
    if TruthyStr(format) then EncodeAs(format.value, quality) else EncodeDefault
  }

  /** The format name version 3 dispatches on: lower-cased, with "jpg" read as "jpeg". */
  function CanonicalFormat(format: string): (c: string)
    ensures ToLower(format) == "jpg" ==> c == "jpeg"
    ensures ToLower(format) != "jpg" ==> c == ToLower(format)
    ensures c != "jpg"
    ensures ToLower(c) == c
  {
    var lower := ToLower(format);
    ToLowerIdempotent(format);
    if lower == "jpg" then
      assert ToLower("jpeg") == "jpeg" by {
        assert forall i :: 0 <= i < 4 ==> ToLower("jpeg")[i] == "jpeg"[i];
      }
      "jpeg"
    else lower
  }

  /** The formats version 3 has a dedicated encoder for. */
  const KnownFormats: set<string> := {"webp", "jpeg", "png", "gif", "bmp"}

  /** Version 3: a truthy format is canonicalised and dispatched; webp and jpeg get
      the quality only when it is truthy, png, gif and bmp never get it, and any
      other format falls back to `encode()`. */
  function EncodingV3(format: Option<string>, quality: Option<int>): (e: EncodeCall)
    ensures !TruthyStr(format) ==> e == EncodeDefault
    ensures TruthyStr(format) && CanonicalFormat(format.value) !in KnownFormats ==> e == EncodeDefault
    ensures !e.EncodeAs?
    ensures e.ToWebp? || e.ToJpeg? ==> e.quality == (if TruthyInt(quality) then quality else None)
    ensures e.ToJpeg? <==> TruthyStr(format) && CanonicalFormat(format.value) == "jpeg"
    ensures e.ToWebp? <==> TruthyStr(format) && CanonicalFormat(format.value) == "webp"
    ensures TruthyStr(format) ==>
      var lower := ToLower(format.value);
      var q := if TruthyInt(quality) then quality else None;
      && (lower == "jpg" || lower == "jpeg" ==> e == ToJpeg(q))
      && (lower == "webp" ==> e == ToWebp(q))
      && (lower == "png" ==> e == ToPng)
      && (lower == "gif" ==> e == ToGif)
      && (lower == "bmp" ==> e == ToBitmap)
      && (lower !in {"jpg", "jpeg", "webp", "png", "gif", "bmp"} ==> e == EncodeDefault)
  {
    if !TruthyStr(format) then EncodeDefault
    else
      var f := CanonicalFormat(format.value);
      var q := if TruthyInt(quality) then quality else None;
      if f == "webp" then ToWebp(q)
      else if f == "jpeg" then ToJpeg(q)
      else if f == "png" then ToPng
      else if f == "gif" then ToGif
      else if f == "bmp" then ToBitmap
      else EncodeDefault
  }

  // ---------------------------------------------------------------------------
  // The operations, updating their locals step by step as processV2 and processV3 do

  /** processV2: the three rules update the locals in order, later ones
      overwriting earlier ones; resize when any fired; then encode. */
  method ProcessV2(image: Raster, s: Settings) returns (p: Plan)
    ensures p.resize == PolicyV2(image, s)
    ensures p.encoding == EncodingV2(s.format, s.quality)
  {
    var shouldResize := false;
    var imageWidth: Option<real> := None;
    var imageHeight: Option<real> := None;

    if TruthyInt(s.maxWidth) && image.width > s.maxWidth.value {
      shouldResize := true;
      imageWidth := Some(s.maxWidth.value as real);
    }
    if TruthyInt(s.maxHeight) && image.height > s.maxHeight.value {
      shouldResize := true;
      imageHeight := Some(s.maxHeight.value as real);
    }
    if TruthyInt(s.resize) {
      shouldResize := true;
      if image.height > image.width {
        imageHeight := Some(PercentTarget(image.height, s.resize.value));
      } else {
        imageWidth := Some(PercentTarget(image.width, s.resize.value));
      }
    }

    var call := if shouldResize then ResizeKeepingAspect(imageWidth, imageHeight) else Untouched;
    p := Plan(call, EncodingV2(s.format, s.quality));
  }

  /** processV3: the same three rules on `calcWidth`/`calcHeight`; scale when
      either is truthy; then dispatch to an encoder. */
  method ProcessV3(image: Raster, s: Settings) returns (p: Plan)
    ensures p.resize == PolicyV3(image, s)
    ensures p.encoding == EncodingV3(s.format, s.quality)
  {
    var calcWidth: Option<real> := None;
    var calcHeight: Option<real> := None;

    if TruthyInt(s.maxWidth) && image.width > s.maxWidth.value {
      calcWidth := Some(s.maxWidth.value as real);
    }
    if TruthyInt(s.maxHeight) && image.height > s.maxHeight.value {
      calcHeight := Some(s.maxHeight.value as real);
    }
    if TruthyInt(s.resize) {
      if image.height > image.width {
        calcHeight := Some(PercentTarget(image.height, s.resize.value));
      } else {
        calcWidth := Some(PercentTarget(image.width, s.resize.value));
      }
    }

    var call := if TruthyReal(calcWidth) || TruthyReal(calcHeight) then Scale(calcWidth, calcHeight) else Untouched;
    p := Plan(call, EncodingV3(s.format, s.quality));
  }

  /** process: default the quality, then run the version-2 path when its class is
      installed and the version-3 path otherwise. */
  method Process(image: Raster, settings: Settings, v2Installed: bool) returns (p: Plan)
    ensures var q := QualityFor(settings.format, settings.quality);
      p == if v2Installed then Plan(PolicyV2(image, settings), EncodingV2(settings.format, q))
           else Plan(PolicyV3(image, settings), EncodingV3(settings.format, q))
  {
    var s := settings.(quality := QualityFor(settings.format, settings.quality));
    if v2Installed {
      p := ProcessV2(image, s);
    } else {
      p := ProcessV3(image, s);
    }
  }

  // ---------------------------------------------------------------------------
  // Properties of the policy

  /** Some rule fired exactly when a target is set afterwards, so version 2
      resizes exactly when it has a target to resize to. */
  lemma RulesFireIffTargetSet(image: Raster, s: Settings)
    ensures AnyRuleFires(image, s) <==> TargetWidth(image, s).Some? || TargetHeight(image, s).Some?
    ensures PolicyV2(image, s).ResizeKeepingAspect? <==> AnyRuleFires(image, s)
  {
  }

  /** The two clamps are independent and both can apply: with no percent, each
      axis target is exactly that axis's clamp. */
  lemma ClampsIndependent(image: Raster, s: Settings)
    requires !PercentRule(s)
    ensures TargetWidth(image, s) == Clamp(s.maxWidth, image.width)
    ensures TargetHeight(image, s) == Clamp(s.maxHeight, image.height)
  {
  }

  /** A truthy percent overwrites exactly one axis, the height of a portrait image
      and the width otherwise; the other axis keeps its clamp. */
  lemma PercentOverwritesOneAxis(image: Raster, s: Settings)
    requires PercentRule(s)
    ensures Portrait(image) ==>
      TargetHeight(image, s) == Some(PercentTarget(image.height, s.resize.value)) &&
      TargetWidth(image, s) == Clamp(s.maxWidth, image.width)
    ensures !Portrait(image) ==>
      TargetWidth(image, s) == Some(PercentTarget(image.width, s.resize.value)) &&
      TargetHeight(image, s) == Clamp(s.maxHeight, image.height)
  {
  }

  /** Whenever version 3 scales, version 2 resizes to the same targets. */
  lemma V3ScaleImpliesV2Resize(image: Raster, s: Settings)
    ensures PolicyV3(image, s).Scale? ==>
      PolicyV2(image, s) == ResizeKeepingAspect(PolicyV3(image, s).width, PolicyV3(image, s).height)
  {
  }

  /** Every target that is set is nonzero. */
  predicate TargetsNonzero(image: Raster, s: Settings) {
    (TargetWidth(image, s).Some? ==> TargetWidth(image, s).value != 0.0) &&
    (TargetHeight(image, s).Some? ==> TargetHeight(image, s).value != 0.0)
  }

  /** When every set target is nonzero the two generations agree: version 3
      scales exactly when version 2 resizes, to the same targets. */
  lemma V2V3AgreeOnNonzeroTargets(image: Raster, s: Settings)
    requires TargetsNonzero(image, s)
    ensures PolicyV3(image, s).Scale? <==> PolicyV2(image, s).ResizeKeepingAspect?
    ensures PolicyV3(image, s).Scale? ==>
      PolicyV3(image, s).width == PolicyV2(image, s).width &&
      PolicyV3(image, s).height == PolicyV2(image, s).height
  {
  }

  /** With the percent at 100 on a non-portrait image and no clamps, version 2
      still resizes (to width 0) while version 3 does not scale. */
  lemma FullPercentDiverges(image: Raster)
    requires !Portrait(image)
    ensures var s := Settings(None, None, Some(100), None, None);
      PolicyV2(image, s) == ResizeKeepingAspect(Some(0.0), None) && PolicyV3(image, s) == Untouched
  {
  }

  /** With a percent in (0, 100] or none, every set target is strictly below the
      current dimension of a non-empty image: the policy only shrinks. */
  lemma PolicyOnlyShrinks(image: Raster, s: Settings)
    requires image.width > 0 && image.height > 0
    requires PercentRule(s) ==> 0 < s.resize.value <= 100
    ensures TargetWidth(image, s).Some? ==> TargetWidth(image, s).value < image.width as real
    ensures TargetHeight(image, s).Some? ==> TargetHeight(image, s).value < image.height as real
  {
  }

  /** A 200 by 200 image at 50 percent takes the width branch: width target 100. */
  lemma SquareHalvesWidth()
    ensures PolicyV2(Raster(200, 200), Settings(None, None, Some(50), None, None))
      == ResizeKeepingAspect(Some(100.0), None)
  {
  }

  /** A 500 by 200 image with max width 250 gets width target 250 and no height. */
  lemma MaxWidthOnly()
    ensures PolicyV2(Raster(500, 200), Settings(None, None, None, Some(250), None))
      == ResizeKeepingAspect(Some(250.0), None)
  {
  }

  // ---------------------------------------------------------------------------
  // Properties of the encoder choice

  /** Version 3's dispatch does not depend on the case of the format string. */
  lemma EncodingV3IgnoresCase(format: string, quality: Option<int>)
    ensures EncodingV3(Some(format), quality) == EncodingV3(Some(ToLower(format)), quality)
  {
  }

  /** With no truthy format both generations use the default `encode()`. */
  lemma NoFormatEncodesDefault(format: Option<string>, quality: Option<int>)
    requires !TruthyStr(format)
    ensures EncodingV2(format, QualityFor(format, quality)) == EncodeDefault
    ensures EncodingV3(format, QualityFor(format, quality)) == EncodeDefault
  {
  }

  /** The 70 default is decided on the raw string, before version 3 lower-cases
      it: "jpg" is encoded at 70, "JPG" as jpeg with the encoder's own default. */
  lemma JpegDefaultIsCaseSensitive()
    ensures EncodingV3(Some("jpg"), QualityFor(Some("jpg"), None)) == ToJpeg(Some(70))
    ensures EncodingV3(Some("JPG"), QualityFor(Some("JPG"), None)) == ToJpeg(None)
  {
  }

  /** An explicit quality of 0 is kept: version 2 passes it to `encode`, version 3
      drops it because 0 is falsy. */
  lemma ZeroQualityKept()
    ensures QualityFor(Some("jpeg"), Some(0)) == Some(0)
    ensures EncodingV2(Some("jpeg"), Some(0)) == EncodeAs("jpeg", Some(0))
    ensures EncodingV3(Some("jpeg"), Some(0)) == ToJpeg(None)
  {
  }

  /** An unknown format is not an error: version 3 falls back to `encode()`. */
  lemma UnknownFormatFallsBack()
    ensures EncodingV3(Some("tiff"), None) == EncodeDefault
  {
  }
}
