/** The optimisation macros that `ImageOptimizerServiceProvider` adds to the
    upload component: each setter writes its own keys into the component's
    `imageOptimization` settings array, and the optimisation setters install the
    save callback, at most once, behind the `hasOptimizerHook` flag. */
module OptimizerMacros {
  import opened PhpRuntime
  import opened ImageProcessor

  /** A value held in the settings array (closures are taken as already evaluated). */
  datatype Value = Null | Int(i: int) | Str(s: string) | Headers(h: map<string, string>)

  const FormatKey: string := "format"
  const QualityKey: string := "quality"
  const ResizeKey: string := "resize"
  const MaxWidthKey: string := "max_width"
  const MaxHeightKey: string := "max_height"
  const MediaNameKey: string := "media_name"
  const CustomHeadersKey: string := "custom_headers"

  function StrValue(v: Option<string>): Value {
    if v.Some? then Str(v.value) else Null
  }

  function IntValue(v: Option<int>): Value {
    if v.Some? then Int(v.value) else Null
  }

  function HeadersValue(v: Option<map<string, string>>): Value {
    if v.Some? then Headers(v.value) else Null
  }

  /** `$settings[key] ?? null` for a string-valued key. */
  function StrSetting(m: map<string, Value>, key: string): Option<string> {
    if key in m && m[key].Str? then Some(m[key].s) else None
  }

  /** `$settings[key] ?? null` for an integer-valued key. */
  function IntSetting(m: map<string, Value>, key: string): Option<int> {
    if key in m && m[key].Int? then Some(m[key].i) else None
  }

  /** The transform settings the save callback reads from the array. */
  function SettingsOf(m: map<string, Value>): Settings {
    Settings(
      StrSetting(m, FormatKey),
      IntSetting(m, QualityKey),
      IntSetting(m, ResizeKey),
      IntSetting(m, MaxWidthKey),
      IntSetting(m, MaxHeightKey))
  }

  /** Reading back what a setter wrote gives the value passed to it. */
  lemma SettingsRoundTrip(m: map<string, Value>, format: Option<string>, quality: Option<int>, n: Option<int>)
    ensures SettingsOf(m[FormatKey := StrValue(format)]) == SettingsOf(m).(format := format)
    ensures SettingsOf(m[QualityKey := IntValue(quality)]) == SettingsOf(m).(quality := quality)
    ensures SettingsOf(m[ResizeKey := IntValue(n)]) == SettingsOf(m).(resize := n)
    ensures SettingsOf(m[MaxWidthKey := IntValue(n)]) == SettingsOf(m).(maxWidth := n)
    ensures SettingsOf(m[MaxHeightKey := IntValue(n)]) == SettingsOf(m).(maxHeight := n)
  {
  }

  /** The save callback the component is given by `ensureOptimizerHook`. */
  datatype SaveHandler = OptimizerSaveHandler

  class FileUpload {
    var imageOptimization: map<string, Value>
    var hasOptimizerHook: bool
    var saveUploadedFileUsing: Option<SaveHandler>
    /** How many times the optimizer callback has been installed. */
    ghost var hookInstalls: nat

    ghost predicate Valid()
      reads this
    {
      && (hasOptimizerHook <==> saveUploadedFileUsing == Some(OptimizerSaveHandler))
      && hookInstalls == (if hasOptimizerHook then 1 else 0)
    }

    /** A fresh component: no settings and no callback. */
    constructor Make()
      ensures Valid()
      ensures imageOptimization == map[] && !hasOptimizerHook && saveUploadedFileUsing == None
    {
      imageOptimization := map[];
      hasOptimizerHook := false;
      saveUploadedFileUsing := None;
      hookInstalls := 0;
    }

    /** ensureOptimizerHook: install the save callback unless the flag says it is there. */
    method EnsureOptimizerHook()
      requires Valid()
      modifies this
      ensures Valid() && hasOptimizerHook && hookInstalls == 1
      ensures imageOptimization == old(imageOptimization)
      ensures old(hasOptimizerHook) ==> saveUploadedFileUsing == old(saveUploadedFileUsing)
    {
      if hasOptimizerHook {
        return;
      }
      hasOptimizerHook := true;
      saveUploadedFileUsing := Some(OptimizerSaveHandler);
      hookInstalls := hookInstalls + 1;
    }

    /** optimize(format = 'webp', quality = null). */
    method Optimize(format: Option<string> := Some("webp"), quality: Option<int> := None)
      returns (self: FileUpload)
      requires Valid()
      modifies this
      ensures self == this && Valid() && hasOptimizerHook && hookInstalls == 1
      ensures imageOptimization == old(imageOptimization)[FormatKey := StrValue(format)][QualityKey := IntValue(quality)]
      ensures SettingsOf(imageOptimization) == SettingsOf(old(imageOptimization)).(format := format, quality := quality)
    {
      SettingsRoundTrip(imageOptimization, format, quality, None);
      SettingsRoundTrip(imageOptimization[FormatKey := StrValue(format)], format, quality, None);
      imageOptimization := imageOptimization[FormatKey := StrValue(format)];
      imageOptimization := imageOptimization[QualityKey := IntValue(quality)];
      EnsureOptimizerHook();
      self := this;
    }

    /** resize(percent = 50). */
    method Resize(percent: Option<int> := Some(50)) returns (self: FileUpload)
      requires Valid()
      modifies this
      ensures self == this && Valid() && hasOptimizerHook && hookInstalls == 1
      ensures imageOptimization == old(imageOptimization)[ResizeKey := IntValue(percent)]
      ensures SettingsOf(imageOptimization) == SettingsOf(old(imageOptimization)).(resize := percent)
    {
      SettingsRoundTrip(imageOptimization, None, None, percent);
      imageOptimization := imageOptimization[ResizeKey := IntValue(percent)];
      EnsureOptimizerHook();
      self := this;
    }

    /** maxImageWidth(width). */
    method MaxImageWidth(width: Option<int>) returns (self: FileUpload)
      requires Valid()
      modifies this
      ensures self == this && Valid() && hasOptimizerHook && hookInstalls == 1
      ensures imageOptimization == old(imageOptimization)[MaxWidthKey := IntValue(width)]
      ensures SettingsOf(imageOptimization) == SettingsOf(old(imageOptimization)).(maxWidth := width)
    {
      SettingsRoundTrip(imageOptimization, None, None, width);
      imageOptimization := imageOptimization[MaxWidthKey := IntValue(width)];
      EnsureOptimizerHook();
      self := this;
    }

    /** maxImageHeight(height). */
    method MaxImageHeight(height: Option<int>) returns (self: FileUpload)
      requires Valid()
      modifies this
      ensures self == this && Valid() && hasOptimizerHook && hookInstalls == 1
      ensures imageOptimization == old(imageOptimization)[MaxHeightKey := IntValue(height)]
      ensures SettingsOf(imageOptimization) == SettingsOf(old(imageOptimization)).(maxHeight := height)
    {
      SettingsRoundTrip(imageOptimization, None, None, height);
      imageOptimization := imageOptimization[MaxHeightKey := IntValue(height)];
      EnsureOptimizerHook();
      self := this;
    }

    /** mediaName(name): recorded for the media-library path; no callback installed. */
    method MediaName(name: Option<string>) returns (self: FileUpload)
      requires Valid()
      modifies this`imageOptimization
      ensures self == this && Valid()
      ensures imageOptimization == old(imageOptimization)[MediaNameKey := StrValue(name)]
      ensures SettingsOf(imageOptimization) == SettingsOf(old(imageOptimization))
    {
      imageOptimization := imageOptimization[MediaNameKey := StrValue(name)];
      self := this;
    }

    /** customHeaders(headers): recorded for the media-library path; no callback installed. */
    method CustomHeaders(headers: Option<map<string, string>>) returns (self: FileUpload)
      requires Valid()
      modifies this`imageOptimization
      ensures self == this && Valid()
      ensures imageOptimization == old(imageOptimization)[CustomHeadersKey := HeadersValue(headers)]
      ensures SettingsOf(imageOptimization) == SettingsOf(old(imageOptimization))
    {
      imageOptimization := imageOptimization[CustomHeadersKey := HeadersValue(headers)];
      self := this;
    }
  }

  /** The chain `optimize()->resize()->maxImageWidth(1000)->mediaName('x')` on a new
      component: defaults 'webp', null and 50 recorded, the callback installed once. */
  method ChainedConfiguration() returns (c: FileUpload)
    ensures c.Valid() && c.hasOptimizerHook && c.hookInstalls == 1
    ensures c.saveUploadedFileUsing == Some(OptimizerSaveHandler)
    ensures SettingsOf(c.imageOptimization) == Settings(Some("webp"), None, Some(50), Some(1000), None)
    ensures MediaNameKey in c.imageOptimization && c.imageOptimization[MediaNameKey] == Str("x")
  {
    c := new FileUpload.Make();
    var c1 := c.Optimize();
    var c2 := c1.Resize();
    var c3 := c2.MaxImageWidth(Some(1000));
    var c4 := c3.MediaName(Some("x"));
  }
}
