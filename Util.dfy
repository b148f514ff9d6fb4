/**
  Small helpers around the pipeline: settings looked up in an option map or the
  environment, the rendered text as a black-and-white bitmap, and the kernel-module
  version a Paper Pro needs.
*/
module Util {
  import opened Wrappers
  import opened Strings
  import opened Device

  type OptionMap = map<string, string>

  /** The process environment, given as a value. */
  type Env = map<string, string>

  type byte = x: int | 0 <= x < 256

  /** A setting neither the options nor the environment hold: the source panics on `unwrap`. */
  datatype UtilError = MissingEnv(envKey: string)

  // ----- Settings -----

  /** `option_or_env`: the option if present, else the environment variable, else failure. */
  function OptionOrEnv(options: OptionMap, key: string, env: Env, envKey: string): (r: Result<string, UtilError>)
    ensures key in options ==> r == Success(options[key])
    ensures key !in options && envKey in env ==> r == Success(env[envKey])
    ensures r.Failure? <==> key !in options && envKey !in env
    ensures r.Failure? ==> r.error == MissingEnv(envKey)
  {
    if key in options then Success(options[key])
    else if envKey in env then Success(env[envKey])
    else Failure(MissingEnv(envKey))
  }

  /** `option_or_env_fallback`: as `option_or_env`, the literal fallback standing in for a missing variable. */
  function OptionOrEnvFallback(options: OptionMap, key: string, env: Env, envKey: string, fallback: string): (v: string)
    ensures key in options ==> v == options[key]
    ensures key !in options ==> v == if envKey in env then env[envKey] else fallback
  {
    if key in options then options[key]
    else if envKey in env then env[envKey]
    else fallback
  }

  /** The fallback only stands in where `option_or_env` would fail; elsewhere the two agree. */
  lemma FallbackExtendsOptionOrEnv(options: OptionMap, key: string, env: Env, envKey: string, fallback: string)
    ensures OptionOrEnv(options, key, env, envKey).Success? ==>
      OptionOrEnvFallback(options, key, env, envKey, fallback) == OptionOrEnv(options, key, env, envKey).value
    ensures OptionOrEnv(options, key, env, envKey).Failure? ==>
      OptionOrEnvFallback(options, key, env, envKey, fallback) == fallback
  {
  }

  /** A present option hides the environment entirely. */
  lemma OptionHidesEnv(options: OptionMap, key: string, env1: Env, env2: Env, envKey: string)
    requires key in options
    ensures OptionOrEnv(options, key, env1, envKey) == OptionOrEnv(options, key, env2, envKey)
  {
  }

  // ----- Bitmaps -----

  /** The ink threshold of `svg_to_bitmap`: a pixel is set when its alpha exceeds 128. */
  predicate Inked(alpha: byte) {
    alpha > 128
  }

  /**
    `svg_to_bitmap` after rendering: the alpha bytes of the pixmap, row-major, cut
    into rows of `width` pixels (the last one shorter if the count does not divide).
  */
  function Threshold(alpha: seq<byte>, width: nat): (rows: seq<seq<bool>>)
    requires width > 0
    ensures forall k | 0 <= k < |rows| :: 0 < |rows[k]| <= width
    decreases |alpha|
  {
    if alpha == [] then []
    else if |alpha| <= width then [seq(|alpha|, i requires 0 <= i < |alpha| => Inked(alpha[i]))]
    else [seq(width, i requires 0 <= i < width => Inked(alpha[i]))] + Threshold(alpha[width..], width)
  }

  /** One row fewer is `width` pixels fewer. */
  lemma RowsPred(rows: nat, width: nat)
    requires rows > 0
    ensures (rows - 1) * width + width == rows * width
    ensures width <= rows * width
  {
  }

  /** The pixels of a `width` by `height` pixmap make `height` rows of `width`. */
  lemma {:induction false} ThresholdShape(alpha: seq<byte>, width: nat, height: nat)
    requires width > 0 && |alpha| == width * height
    ensures |Threshold(alpha, width)| == height
    ensures forall y | 0 <= y < height :: |Threshold(alpha, width)[y]| == width
    decreases height
  {
    if height > 0 {
      RowsPred(height, width);
      if height > 1 {
        var rest := alpha[width..];
        assert |rest| == width * (height - 1);
        ThresholdShape(rest, width, height - 1);
        var rows := Threshold(alpha, width);
        assert rows[1..] == Threshold(rest, width);
      }
    }
  }

  /** Pixel (x, y) is set exactly when the alpha byte at `y * width + x` exceeds 128. */
  lemma {:induction false} ThresholdPixel(alpha: seq<byte>, width: nat, height: nat, x: nat, y: nat)
    requires width > 0 && |alpha| == width * height && x < width && y < height
    ensures y * width + x < |alpha|
    ensures y < |Threshold(alpha, width)| && x < |Threshold(alpha, width)[y]|
    ensures Threshold(alpha, width)[y][x] <==> Inked(alpha[y * width + x])
    decreases y
  {
    RowsPred(height, width);
    if y > 0 {
      RowsPred(y, width);
      RowsPred(height - 1, width);
      var rest := alpha[width..];
      assert |rest| == width * (height - 1);
      ThresholdPixel(rest, width, height - 1, x, y - 1);
      var rows := Threshold(alpha, width);
      assert rows[1..] == Threshold(rest, width);
      assert rest[(y - 1) * width + x] == alpha[y * width + x];
    }
  }

  /** The grey level `write_bitmap_to_file` stores: ink black, background white. */
  function Luma(pixel: bool): (v: byte)
    ensures v == 0 <==> pixel
    ensures v == 255 <==> !pixel
  {
    if pixel then 0 else 255
  }

  /**
    `write_bitmap_to_file` before saving: an image as wide as the first row and as
    high as the bitmap, each row's pixels stored at their place. Pixels a short row
    does not reach keep the value a new image starts with, 0. A row longer than the
    first makes `put_pixel` panic, so rows may not be longer than the first.
  */
  method WriteBitmap(bitmap: seq<seq<bool>>) returns (img: array2<byte>)
    requires |bitmap| > 0
    requires forall y | 0 <= y < |bitmap| :: |bitmap[y]| <= |bitmap[0]|
    ensures fresh(img)
    ensures img.Length0 == |bitmap| && img.Length1 == |bitmap[0]|
    ensures forall y, x | 0 <= y < img.Length0 && 0 <= x < img.Length1 ::
      img[y, x] == if x < |bitmap[y]| then Luma(bitmap[y][x]) else 0
  {
    var width := |bitmap[0]|;
    var height := |bitmap|;
    img := new byte[height, width]((_, _) => 0);
    for y := 0 to height
      invariant forall y', x | 0 <= y' < height && 0 <= x < width ::
        img[y', x] == if y' < y && x < |bitmap[y']| then Luma(bitmap[y'][x]) else 0
    {
      var row := bitmap[y];
      for x := 0 to |row|
        invariant forall y', x' | 0 <= y' < height && 0 <= x' < width ::
          img[y', x'] == if (y' < y && x' < |bitmap[y']|) || (y' == y && x' < x) then Luma(bitmap[y'][x']) else 0
      {
        img[y, x] := Luma(row[x]);
      }
    }
  }

  /** For a full bitmap of `Threshold`, the saved image is black exactly at the inked pixels. */
  lemma SavedImageShowsInk(alpha: seq<byte>, width: nat, height: nat, x: nat, y: nat)
    requires width > 0 && |alpha| == width * height && x < width && y < height
    ensures |Threshold(alpha, width)| == height && |Threshold(alpha, width)[y]| == width
    ensures y * width + x < |alpha|
    ensures Luma(Threshold(alpha, width)[y][x]) == 0 <==> Inked(alpha[y * width + x])
  {
    ThresholdShape(alpha, width, height);
    ThresholdPixel(alpha, width, height, x, y);
  }

  // ----- The uinput module -----

  /** `split('.').take(2).collect().join(".")`: the first two components of the version. */
  function ShortVersion(imgVersion: string): string {
    var parts := Split(imgVersion, '.');
    Join(parts[..if |parts| < 2 then |parts| else 2], ".")
  }

  /** A three-or-more-component version keeps its major and minor numbers. */
  lemma ShortVersionOfLong(major: string, minor: string, rest: string)
    requires '.' !in major && '.' !in minor
    ensures ShortVersion(major + "." + minor + "." + rest) == major + "." + minor
  {
    var s := major + "." + minor + "." + rest;
    var tail := Split(rest, '.');
    assert ([[]] + tail)[1..] == tail;
    assert ("." + rest)[1..] == rest;
    SplitPrefix(minor, "." + rest, '.', [[]] + tail);
    var p2 := Split(minor + ("." + rest), '.');
    assert p2 == [minor] + tail;
    assert ([[]] + p2)[1..] == p2;
    assert ("." + minor + ("." + rest))[1..] == minor + ("." + rest);
    SplitPrefix(major, "." + minor + ("." + rest), '.', [[]] + p2);
    assert s == major + ("." + minor + ("." + rest));
    var parts := Split(s, '.');
    assert parts == [major] + p2;
    assert parts[..2] == [major, minor];
    assert [major, minor][1..] == [minor];
    assert Join([major, minor], ".") == major + "." + minor;
  }

  /** A two-component version is kept whole. */
  lemma ShortVersionOfShort(major: string, minor: string)
    requires '.' !in major && '.' !in minor
    ensures ShortVersion(major + "." + minor) == major + "." + minor
  {
    SplitNoSep(minor, '.');
    assert [[], minor][1..] == [minor];
    assert ("." + minor)[1..] == minor;
    SplitPrefix(major, "." + minor, '.', [[], minor]);
    assert major + "." + minor == major + ("." + minor);
    var parts := Split(major + "." + minor, '.');
    assert parts == [major, minor];
    assert parts[..2] == parts;
    assert [major, minor][1..] == [minor];
    assert Join([major, minor], ".") == major + "." + minor;
  }

  /** A version without dots is kept whole. */
  lemma ShortVersionOfPlain(v: string)
    requires '.' !in v
    ensures ShortVersion(v) == v
  {
    SplitNoSep(v, '.');
  }

  /** What `setup_uinput` decides to do. */
  datatype UinputAction =
    | SkipForRemarkable2
    | AlreadyLoaded
    | NoImageVersion
    | Install(shortVersion: string)

  /**
    The decisions of `setup_uinput`, given the model, what `lsmod` printed and
    `IMG_VERSION` after reading `/etc/os-release` (empty when unset).
  */
  function UinputPlan(model: DeviceModel, lsmodOutput: string, imgVersion: string): (a: UinputAction)
    ensures model == Remarkable2 ==> a == SkipForRemarkable2
    ensures a.Install? <==> model != Remarkable2 && !Contains(lsmodOutput, "uinput") && imgVersion != []
    ensures a.Install? ==> a.shortVersion == ShortVersion(imgVersion)
  {
    if model == Remarkable2 then SkipForRemarkable2
    else if Contains(lsmodOutput, "uinput") then AlreadyLoaded
    else if imgVersion == [] then NoImageVersion
    else Install(ShortVersion(imgVersion))
  }

}
