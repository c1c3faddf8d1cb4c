/**
 * `src/images.ts`: the image route `createImagesRoute` builds. `GET` reads
 * `<preset>/<file path>.<suffix>` from the route's `slug` parameter and answers 404
 * unless every piece is there, the preset exists and the suffix names the preset's
 * format; `getStaticPaths` lists every image under every preset. The transformation
 * itself (ImageMagick) is outside the model: it is the parameter `transform`, which
 * either gives the encoded image or throws, as `transformImage` rejects for a file
 * that is missing or cannot be decoded.
 */
module Images {
  import opened Common
  import opened Strings
  import Responses
  import Server

  /** `MagickFormat.WebP`. */
  const WebP := "WEBP"

  /** A preset as the route looks at it: its `format`, if any (`transform` is not modelled). */
  datatype Preset = Preset(format: Option<string>)

  /** `splitAt`: the text before `index` and the text after it, the character at `index` dropped. */
  function SplitAt(s: string, index: int): (r: (string, string))
    ensures 0 <= index < |s| ==> r.0 + [s[index]] + r.1 == s
    ensures 0 <= index < |s| ==> r == (s[..index], s[index + 1..])
    ensures index == -1 ==> r == ("", s)
  {
    assert s[0..|s|] == s;
    (Substring(s, 0, index), Substring(s, index + 1, |s|))
  }

  /** `presets[name]`: the first preset by that name. */
  function FindPreset(presets: seq<(string, Preset)>, name: string): (r: Option<Preset>)
    ensures r.None? <==> forall i :: 0 <= i < |presets| ==> presets[i].0 != name
    ensures r.Some? ==> exists i :: 0 <= i < |presets| && presets[i] == (name, r.value)
  {
    if presets == [] then None
    else if presets[0].0 == name then Some(presets[0].1)
    else FindPreset(presets[1..], name)
  }

  /** `preset.format || MagickFormat.WebP`. */
  function FormatOf(p: Preset): (r: string)
    ensures r != ""
  {
    if p.format.Some? && p.format.value != "" then p.format.value else WebP
  }

  const NotFound := Responses.TextResponse(404, "404 not found")

  /**
   * The slug split at its first `/` into preset name and path, and the path at its
   * last `.` into file path and suffix; `None` when the slug is missing or any piece
   * is empty.
   */
  function ParseSlug(slug: Option<string>): (r: Option<(string, string, string)>)
    ensures r.Some? ==> r.value.0 != "" && r.value.1 != "" && r.value.2 != ""
  {
    if slug.None? || slug.value == "" then None
    else
      var (presetName, path) := SplitAt(slug.value, IndexOf(slug.value, '/'));
      var (filePath, suffix) := SplitAt(path, LastIndexOf(path, '.'));
      if presetName == "" || filePath == "" || suffix == "" then None
      else Some((presetName, filePath, suffix))
  }

  /**
   * `transformImage(path, { ...preset, format })`, for the preset registered under a
   * name: the encoded image, or what it throws.
   */
  type Transform = (string, string, string) -> Attempt<seq<bv8>>

  /** The preset exists and the suffix names its format: the checks before the transform. */
  predicate Accepted(presetName: string, suffix: string, presets: seq<(string, Preset)>) {
    FindPreset(presets, presetName).Some? && FormatOf(FindPreset(presets, presetName).value) == ToUpper(suffix)
  }

  /**
   * `GET` once the slug is parsed: the preset must exist and the suffix name its
   * format; then the transform runs, and what it throws `GET` throws.
   */
  function Serve(presetName: string, filePath: string, suffix: string, presets: seq<(string, Preset)>, baseDir: string,
                 cacheControl: Option<string>, contentType: string -> Option<string>, transform: Transform)
    : (r: Attempt<Responses.Response>)
    ensures !Accepted(presetName, suffix, presets) ==> r.Ok? && r.value.status == 404
    ensures Accepted(presetName, suffix, presets) ==>
      var image := transform(presetName, baseDir + filePath, ToUpper(suffix));
      (image.Threw? ==> r == Threw(image.error))
      && (image.Ok? ==>
            r.Ok? && r.value.status == 200
            && r.value.body == Responses.Bytes(image.value)
            && ("Cache-Control" in r.value.headers <==> cacheControl.Some? && cacheControl.value != "")
            && (cacheControl.Some? && cacheControl.value != "" ==> r.value.headers["Cache-Control"] == cacheControl.value))
  {
    var preset := FindPreset(presets, presetName);
    if preset.None? then
      Ok(Responses.TextResponse(404, "404 Image preset \"" + presetName + "\" not found.\n\nMust be one of: \""
        + Join(Firsts(presets), "\", \"") + "\"."))
    else
      var format := FormatOf(preset.value);
      if format != ToUpper(suffix) then
        Ok(Responses.TextResponse(404, "404 Format for preset " + presetName + " must be " + format
          + " instead of " + ToUpper(suffix)))
      else
        match transform(presetName, baseDir + filePath, format)
        case Threw(e) => Threw(e)
        case Ok(img) =>
          var headers := map["Content-Type" := contentType(format).GetOr("image/?")];
          Ok(Responses.Response(200,
            if cacheControl.Some? && cacheControl.value != "" then headers["Cache-Control" := cacheControl.value] else headers,
            Responses.Bytes(img)))
  }

  /**
   * `GET`: `slug` is the route parameter, `cacheControl` what `staticCacheControlVal`
   * gives for the request, and `contentType` the media type table. An answer is
   * 200 or 404; a throw comes only from the transform of an accepted request.
   */
  function Get(slug: Option<string>, presets: seq<(string, Preset)>, baseDir: string,
               cacheControl: Option<string>, contentType: string -> Option<string>, transform: Transform)
    : (r: Attempt<Responses.Response>)
    ensures ParseSlug(slug).None? ==> r == Ok(NotFound)
    ensures r.Ok? ==> r.value.status == 200 || r.value.status == 404
    ensures r.Threw? ==>
      ParseSlug(slug).Some?
      && var (presetName, filePath, suffix) := ParseSlug(slug).value;
         Accepted(presetName, suffix, presets) && transform(presetName, baseDir + filePath, ToUpper(suffix)) == Threw(r.error)
  {
    match ParseSlug(slug)
    case None => Ok(NotFound)
    case Some((presetName, filePath, suffix)) =>
      Serve(presetName, filePath, suffix, presets, baseDir, cacheControl, contentType, transform)
  }

  /** The path `getStaticPaths` lists for one image under one preset. */
  function ImagePath(preset: string, image: string, baseDir: string): string {
    "/_images/" + preset + "/" + SliceFrom(image, |baseDir| + 1) + ".webp"
  }

  /** The paths of one image, one per preset, in the presets' order. */
  function PresetPaths(image: string, names: seq<string>, baseDir: string): (r: seq<string>)
    ensures |r| == |names| && forall j :: 0 <= j < |names| ==> r[j] == ImagePath(names[j], image, baseDir)
  {
    seq(|names|, j requires 0 <= j < |names| => ImagePath(names[j], image, baseDir))
  }

  /** `getStaticPaths`: `images` is what `findFiles` found for every file under `baseDir`. */
  function StaticPaths(images: seq<string>, names: seq<string>, baseDir: string): (r: seq<string>)
    ensures |r| == |images| * |names|
  {
    if images == [] then []
    else PresetPaths(images[0], names, baseDir) + StaticPaths(images[1..], names, baseDir)
  }

  /** Images outer, presets inner: the path of image `i` under preset `j` sits at `i * |names| + j`. */
  lemma {:induction false} StaticPathAt(images: seq<string>, names: seq<string>, baseDir: string, i: nat, j: nat)
    requires i < |images| && j < |names|
    ensures i * |names| + j < |StaticPaths(images, names, baseDir)|
    ensures StaticPaths(images, names, baseDir)[i * |names| + j] == ImagePath(names[j], images[i], baseDir)
  {
    var r := StaticPaths(images, names, baseDir);
    if i == 0 {
      assert r == PresetPaths(images[0], names, baseDir) + StaticPaths(images[1..], names, baseDir);
    } else {
      StaticPathAt(images[1..], names, baseDir, i - 1, j);
      assert i * |names| + j == |names| + ((i - 1) * |names| + j) by {
        assert i * |names| == |names| + (i - 1) * |names|;
      }
    }
  }

  /** Splitting at the first `c`, when `x` has none, gives back `x` and `y`. */
  lemma SplitAtFirst(x: string, c: char, y: string)
    requires c !in x
    ensures SplitAt(x + [c] + y, IndexOf(x + [c] + y, c)) == (x, y)
  {
    var s := x + [c] + y;
    assert s[..|x|] == x && s[|x| + 1..] == y;
    IndexOfAt(s, c, |x|);
  }

  /** Splitting at the last `c`, when `y` has none, gives back `x` and `y`. */
  lemma SplitAtLast(x: string, c: char, y: string)
    requires c !in y
    ensures SplitAt(x + [c] + y, LastIndexOf(x + [c] + y, c)) == (x, y)
  {
    var s := x + [c] + y;
    assert s[..|x|] == x && s[|x| + 1..] == y;
    LastIndexOfAt(s, c, |x|);
  }

  /** A slug `<name>/<rest>.<suffix>`, with no `/` in the name and no `.` in the suffix, parses into those pieces. */
  lemma SlugPieces(name: string, rest: string, dotSuffix: string)
    requires name != "" && '/' !in name && rest != ""
    requires |dotSuffix| > 1 && dotSuffix[0] == '.' && '.' !in dotSuffix[1..]
    ensures ParseSlug(Some(name + "/" + rest + dotSuffix)) == Some((name, rest, dotSuffix[1..]))
  {
    var slug, path, suffix := name + "/" + rest + dotSuffix, rest + dotSuffix, dotSuffix[1..];
    assert SplitAt(slug, IndexOf(slug, '/')) == (name, path) by {
      assert slug == name + ['/'] + path;
      SplitAtFirst(name, '/', path);
    }
    assert SplitAt(path, LastIndexOf(path, '.')) == (rest, suffix) by {
      assert path == rest + ['.'] + suffix;
      SplitAtLast(rest, '.', suffix);
    }
    ParsedPieces(slug, name, path, rest, suffix);
  }

  lemma ParsedPieces(slug: string, name: string, path: string, filePath: string, suffix: string)
    requires slug != "" && name != "" && filePath != "" && suffix != ""
    requires SplitAt(slug, IndexOf(slug, '/')) == (name, path)
    requires SplitAt(path, LastIndexOf(path, '.')) == (filePath, suffix)
    ensures ParseSlug(Some(slug)) == Some((name, filePath, suffix))
  {
  }

  lemma {:induction false} FindPresetAt(presets: seq<(string, Preset)>, i: nat)
    requires i < |presets| && forall j :: 0 <= j < i ==> presets[j].0 != presets[i].0
    ensures FindPreset(presets, presets[i].0) == Some(presets[i].1)
  {
    if i > 0 {
      FindPresetAt(presets[1..], i - 1);
    }
  }

  /**
   * Every listed path that the transformer accepts is served: for a preset whose name
   * has no `/` and whose format is WebP, the file `/` + baseDir + rest, listed as
   * `/_images/<preset>/<rest>.webp`, is answered 200 with the transformed image when
   * the route's slug is that path after `/_images/`. A listed file the transformer
   * rejects (`**` also lists files that are no images) makes `GET` throw instead.
   */
  lemma ListedPathServed(presets: seq<(string, Preset)>, i: nat, rest: string, baseDir: string,
                         cacheControl: Option<string>, contentType: string -> Option<string>, transform: Transform)
    requires i < |presets| && presets[i].0 != "" && '/' !in presets[i].0
    requires forall j :: 0 <= j < i ==> presets[j].0 != presets[i].0
    requires FormatOf(presets[i].1) == WebP
    requires rest != ""
    ensures var name := presets[i].0;
      var slug := name + "/" + rest + ".webp";
      var image := transform(name, baseDir + rest, WebP);
      var r := Get(Some(slug), presets, baseDir, cacheControl, contentType, transform);
      ImagePath(name, "/" + baseDir + rest, baseDir) == "/_images/" + slug
      && (image.Ok? ==> r.Ok? && r.value.status == 200 && r.value.body == Responses.Bytes(image.value))
      && (image.Threw? ==> r == Threw(image.error))
  {
    var name := presets[i].0;
    ImagePathIsSlug(name, rest, baseDir);
    SlugPieces(name, rest, ".webp");
    FindPresetAt(presets, i);
    UpperWebP();
  }

  lemma ImagePathIsSlug(name: string, rest: string, baseDir: string)
    ensures ImagePath(name, "/" + baseDir + rest, baseDir) == "/_images/" + (name + "/" + rest + ".webp")
  {
    var image := "/" + baseDir + rest;
    assert image[|baseDir| + 1..] == rest;
  }

  lemma UpperWebP()
    ensures ToUpper(".webp"[1..]) == WebP
  {
  }

  /** An unknown preset is answered 404 with the message naming the known ones. */
  lemma UnknownPresetIs404(name: string, path: string, suffix: string, presets: seq<(string, Preset)>, baseDir: string,
                           cacheControl: Option<string>, contentType: string -> Option<string>, transform: Transform)
    requires name != "" && '/' !in name && path != "" && suffix != "" && '.' !in suffix
    requires forall j :: 0 <= j < |presets| ==> presets[j].0 != name
    ensures Get(Some(name + "/" + path + ("." + suffix)), presets, baseDir, cacheControl, contentType, transform)
      == Ok(Responses.TextResponse(404, "404 Image preset \"" + name + "\" not found.\n\nMust be one of: \""
           + Join(Firsts(presets), "\", \"") + "\"."))
  {
    assert ("." + suffix)[1..] == suffix;
    SlugPieces(name, path, "." + suffix);
  }
}
