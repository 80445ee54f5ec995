/**
 * `make_thumb`: where a rendition of a media file is cached and how it is encoded.
 * The decode/resize/encode itself is external; it either succeeds or fails.
 */
module Thumb {
  import opened Wrappers
  import opened Paths
  import opened MediaTypes

  const CACHE_DIR := ".cache"

  datatype ThumbError =
    | NotUnderRoot            // `relative_to` raised
    | Unsupported(ext: string) // the ValueError for a non-media suffix
    | RenderFailed            // mkdir, the image library or the write raised

  /** One call `make_thumb(file, root, size, subdir)`. */
  datatype Request = Request(file: Path, size: nat, subdir: string)

  /** Videos become JPEG frames; images keep their own (lowercased) extension. */
  function OutputExt(ext: string): (r: Option<string>)
    ensures r.Some? <==> IsMediaExt(ext)
    ensures r.Some? ==> Dotted(r.value) && |ext| >= 2
    ensures ext in VIDEO_EXT ==> r == Some(".jpg")
    ensures ext in IMAGE_EXT && ext !in VIDEO_EXT ==> r == Some(ext)
  {
    if ext in VIDEO_EXT then Some(".jpg")
    else if ext in IMAGE_EXT then Some(ext)
    else None
  }

  /** The lowercased suffix of a path relative to the root ("" for the root itself). */
  function RelExt(rel: Path): string
  {
    if rel == [] then "" else Lower(Suffix(Name(rel)))
  }

  /** `root/.cache/<subdir>/<path relative to root, last suffix replaced>`. */
  function ThumbPath(original: Path, root: Path, subdir: string): Result<Path, ThumbError>
  {
    match RelativeTo(original, root)
    case None => Err(NotUnderRoot)
    case Some(rel) =>
      var ext := RelExt(rel);
      match OutputExt(ext)
      case None => Err(Unsupported(ext))
      case Some(out) =>
        assert |Suffix(Name(rel))| == |ext|;
        Ok(root + [CACHE_DIR, subdir] + WithSuffix(rel, out))
  }

  /** `relative_to` failing and an unsupported suffix are the only two ways the path is refused. */
  lemma ThumbPathOutcome(original: Path, root: Path, subdir: string)
    ensures ThumbPath(original, root, subdir) == Err(NotUnderRoot) <==> !IsPrefix(root, original)
    ensures ThumbPath(original, root, subdir).Ok?
        <==> IsPrefix(root, original) && IsMediaExt(RelExt(original[|root|..]))
    ensures IsPrefix(root, original) && !IsMediaExt(RelExt(original[|root|..])) ==>
              ThumbPath(original, root, subdir) == Err(Unsupported(RelExt(original[|root|..])))
  {
  }

  /**
   * The cache path mirrors the original below `root/.cache/<subdir>`: same directories,
   * same stem, and the output extension as its suffix.
   */
  lemma ThumbPathShape(original: Path, root: Path, subdir: string)
    requires ThumbPath(original, root, subdir).Ok?
    ensures |ThumbPath(original, root, subdir).value| == |original| + 2
    ensures ThumbPath(original, root, subdir).value[..|root| + 2] == root + [CACHE_DIR, subdir]
    ensures ThumbPath(original, root, subdir).value[|root| + 2..|original| + 1]
         == original[|root|..|original| - 1]
    ensures Stem(Name(ThumbPath(original, root, subdir).value)) == Stem(Name(original))
    ensures Suffix(Name(ThumbPath(original, root, subdir).value))
         == OutputExt(RelExt(original[|root|..])).value
  {
    ThumbPathOutcome(original, root, subdir);
    ThumbPathValue(original, root, subdir);
    var out := OutputExt(RelExt(original[|root|..])).value;
    Mirrored(original, root, subdir, out);
    RenamedSuffix(Name(original), out);
  }

  /** The segments of `root/.cache/<subdir>/<path below root with its suffix replaced>`. */
  lemma Mirrored(original: Path, root: Path, subdir: string, out: string)
    requires IsPrefix(root, original) && |original| > |root| && Name(original) != ""
    ensures Name(original[|root|..]) != ""
    ensures var p := root + [CACHE_DIR, subdir] + WithSuffix(original[|root|..], out);
      && |p| == |original| + 2
      && p[..|root| + 2] == root + [CACHE_DIR, subdir]
      && p[|root| + 2..|original| + 1] == original[|root|..|original| - 1]
      && Name(p) == Stem(Name(original)) + out
  {
    var rel := original[|root|..];
    assert Name(rel) == Name(original);
    var renamed := WithSuffix(rel, out);
    MirroredSegments(original, |root|, root + [CACHE_DIR, subdir], renamed);
  }

  /** `head + renamed`, where `renamed` keeps every segment of `original[k..]` but its last. */
  lemma MirroredSegments<T>(original: seq<T>, k: nat, head: seq<T>, renamed: seq<T>)
    requires k < |original| && |head| == k + 2 && |renamed| == |original| - k
    requires renamed[..|renamed| - 1] == original[k..][..|renamed| - 1]
    ensures var p := head + renamed;
      && |p| == |original| + 2
      && p[..k + 2] == head
      && p[k + 2..|original| + 1] == original[k..|original| - 1]
      && p[|p| - 1] == renamed[|renamed| - 1]
  {
    var p := head + renamed;
    assert p[k + 2..|original| + 1] == renamed[..|renamed| - 1];
  }

  /** Replacing a name's suffix by a dotted extension keeps its stem and gives that suffix. */
  lemma RenamedSuffix(name: string, out: string)
    requires Suffix(name) != [] && Dotted(out)
    ensures Suffix(Stem(name) + out) == out && Stem(Stem(name) + out) == Stem(name)
  {
    assert Stem(name) != [];
    SuffixOfStemAndExt(Stem(name), out);
  }

  /** The cache path spelled out, for the lemmas below. */
  lemma ThumbPathValue(original: Path, root: Path, subdir: string)
    requires IsPrefix(root, original) && IsMediaExt(RelExt(original[|root|..]))
    ensures original[|root|..] != [] && Name(original[|root|..]) != ""
    ensures ThumbPath(original, root, subdir)
         == Ok(root + [CACHE_DIR, subdir]
               + WithSuffix(original[|root|..], OutputExt(RelExt(original[|root|..])).value))
  {
    var rel := original[|root|..];
    assert RelativeTo(original, root) == Some(rel);
    assert |Suffix(Name(rel))| > 0;
  }

  /**
   * The outcome of one `make_thumb` call: the cache path, or the error it raises.
   * `failing` holds the calls whose rendering or writing fails.
   */
  function MakeThumb(req: Request, root: Path, failing: set<Request>): Result<Path, ThumbError>
  {
    match ThumbPath(req.file, root, req.subdir)
    case Err(e) => Err(e)
    case Ok(p) => if req in failing then Err(RenderFailed) else Ok(p)
  }

  /** A refused path raises before any rendering; an accepted one yields its cache path unless the render fails. */
  lemma MakeThumbOutcome(req: Request, root: Path, failing: set<Request>)
    ensures ThumbPath(req.file, root, req.subdir).Err? ==>
              MakeThumb(req, root, failing) == ThumbPath(req.file, root, req.subdir)
    ensures ThumbPath(req.file, root, req.subdir).Ok? && req !in failing ==>
              MakeThumb(req, root, failing) == ThumbPath(req.file, root, req.subdir)
    ensures ThumbPath(req.file, root, req.subdir).Ok? && req in failing ==>
              MakeThumb(req, root, failing) == Err(RenderFailed)
  {
  }

  datatype ArgValue = IntArg(i: int) | BoolArg(b: bool)

  /** The keyword arguments given to the encoder for an output extension. */
  function WriteArgs(outExt: string): map<string, ArgValue>
  {
    if outExt in {".jpg", ".jpeg"} then map["Q" := IntArg(85), "interlace" := BoolArg(true)]
    else map[]
  }

  lemma WriteArgsOnlyForJpeg(outExt: string)
    ensures outExt == ".jpg" || outExt == ".jpeg" ==>
              WriteArgs(outExt) == map["Q" := IntArg(85), "interlace" := BoolArg(true)]
    ensures outExt != ".jpg" && outExt != ".jpeg" ==> WriteArgs(outExt) == map[]
    ensures OutputExt(".jpe") == Some(".jpe") && WriteArgs(".jpe") == map[]
  {
  }

  /** Every video is written as a JPEG with quality 85 and interlacing. */
  lemma VideosWrittenAsJpeg(ext: string)
    requires ext in VIDEO_EXT
    ensures OutputExt(ext) == Some(".jpg")
    ensures WriteArgs(OutputExt(ext).value) == map["Q" := IntArg(85), "interlace" := BoolArg(true)]
  {
  }

  /** Both size classes of one file fail or succeed together. */
  lemma ThumbAndMediumSucceedTogether(original: Path, root: Path)
    ensures ThumbPath(original, root, "thumb").Ok? <==> ThumbPath(original, root, "medium").Ok?
  {
    if IsPrefix(root, original) && IsMediaExt(RelExt(original[|root|..])) {
      ThumbPathValue(original, root, "thumb");
      ThumbPathValue(original, root, "medium");
    }
  }

  /** The two size classes of one file differ only in the subdirectory segment. */
  lemma ThumbAndMediumDifferOnlyInSubdir(original: Path, root: Path)
    requires ThumbPath(original, root, "thumb").Ok?
    ensures ThumbPath(original, root, "medium").Ok?
    ensures ThumbPath(original, root, "medium").value
         == ThumbPath(original, root, "thumb").value[|root| + 1 := "medium"]
  {
    ThumbPathValue(original, root, "thumb");
    ThumbPathValue(original, root, "medium");
    var rel := original[|root|..];
    ReplaceSegment(root, CACHE_DIR, "thumb", "medium", WithSuffix(rel, OutputExt(RelExt(rel)).value));
  }

  lemma ReplaceSegment<T>(root: seq<T>, c: T, a: T, b: T, w: seq<T>)
    ensures (root + [c, a] + w)[|root| + 1 := b] == root + [c, b] + w
  {
  }

  /**
   * `with_suffix` drops the original extension, so siblings that share a stem and an
   * output extension ("clip.mp4" and "clip.mov", or "clip.mp4" and "clip.JPG") share one cache path.
   */
  lemma SameStemSameCachePath(root: Path, dir: Path, stem: string, e1: string, e2: string, subdir: string)
    requires stem != [] && Dotted(e1) && Dotted(e2)
    requires IsMediaExt(Lower(e1)) && OutputExt(Lower(e1)) == OutputExt(Lower(e2))
    ensures ThumbPath(root + dir + [stem + e1], root, subdir).Ok?
    ensures ThumbPath(root + dir + [stem + e1], root, subdir) == ThumbPath(root + dir + [stem + e2], root, subdir)
    ensures ThumbPath(root + dir + [stem + e1], root, subdir).value
         == root + [CACHE_DIR, subdir] + dir + [stem + OutputExt(Lower(e1)).value]
  {
    var out := OutputExt(Lower(e1)).value;
    var expected := root + [CACHE_DIR, subdir] + dir + [stem + out];
    assert ThumbPath(root + dir + [stem + e1], root, subdir) == Ok(expected) by {
      CachePathOfSibling(root, dir, stem, e1, subdir);
    }
    assert ThumbPath(root + dir + [stem + e2], root, subdir) == Ok(expected) by {
      CachePathOfSibling(root, dir, stem, e2, subdir);
    }
  }

  lemma CachePathOfSibling(root: Path, dir: Path, stem: string, e: string, subdir: string)
    requires stem != [] && Dotted(e) && IsMediaExt(Lower(e))
    ensures ThumbPath(root + dir + [stem + e], root, subdir)
         == Ok(root + [CACHE_DIR, subdir] + dir + [stem + OutputExt(Lower(e)).value])
  {
    var o := root + dir + [stem + e];
    var rel := dir + [stem + e];
    assert o[|root|..] == rel;
    assert IsPrefix(root, o);
    SuffixOfStemAndExt(stem, e);
    assert RelExt(rel) == Lower(e);
    var out := OutputExt(Lower(e)).value;
    ThumbPathValue(o, root, subdir);
    assert ThumbPath(o, root, subdir) == Ok(root + [CACHE_DIR, subdir] + WithSuffix(rel, out));
    assert WithSuffix(rel, out) == dir + [stem + out] by {
      assert rel[..|rel| - 1] == dir;
    }
    assert root + [CACHE_DIR, subdir] + (dir + [stem + out]) == root + [CACHE_DIR, subdir] + dir + [stem + out];
  }

  /** The concrete collision: clip.mp4, clip.mov and clip.jpg in one directory. */
  lemma ClipSiblingsCollide(root: Path, dir: Path, subdir: string)
    ensures ThumbPath(root + dir + ["clip.mp4"], root, subdir) == Ok(root + [CACHE_DIR, subdir] + dir + ["clip.jpg"])
    ensures ThumbPath(root + dir + ["clip.mov"], root, subdir) == Ok(root + [CACHE_DIR, subdir] + dir + ["clip.jpg"])
    ensures ThumbPath(root + dir + ["clip.jpg"], root, subdir) == Ok(root + [CACHE_DIR, subdir] + dir + ["clip.jpg"])
  {
    assert Lower(".mp4") == ".mp4" && Lower(".mov") == ".mov" && Lower(".jpg") == ".jpg";
    assert "clip" + ".mp4" == "clip.mp4" && "clip" + ".mov" == "clip.mov" && "clip" + ".jpg" == "clip.jpg";
    SameStemSameCachePath(root, dir, "clip", ".mp4", ".mov", subdir);
    SameStemSameCachePath(root, dir, "clip", ".mp4", ".jpg", subdir);
  }
}
