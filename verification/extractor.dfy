/**
 * The per-file part of a scan (`_process_file` in both scanners): the record a file yields,
 * and which files are thumbnail candidates. The two scanners differ only in the image
 * extension set they pass in.
 */
module Extractor {
  import opened Wrappers
  import opened Paths
  import opened MediaTypes
  import opened Store
  import opened MediaTree

  /** `get_md5(file_path) or 'unknown'`: None and the empty digest are both falsy. */
  function HashOrUnknown(digest: Option<string>): (h: string)
    ensures h != ""
    ensures digest.Some? && digest.value != "" ==> h == digest.value
    ensures digest.None? || digest.value == "" ==> h == "unknown"
  {
    if digest.Some? && digest.value != "" then digest.value else "unknown"
  }

  /**
   * The record built for a file `os.stat` succeeds on. The type follows the lowercased
   * `os.path.splitext` extension, tested image first, then video, then text; only an
   * image is probed for its size.
   */
  function MakeRecord(path: Path, folder: string, info: FileInfo, imageExt: set<string>): (r: FileRecord)
    ensures r.path == path && r.rootFolder == folder
  {
    var kind := Classify(ExtOf(Name(path)), imageExt);
    var dims := if kind == Image then info.dims else None;
    FileRecord(path, folder, Name(path), kind, info.size,
               HashOrUnknown(info.digest),
               if dims.Some? then Some(dims.value.0) else None,
               if dims.Some? then Some(dims.value.1) else None)
  }

  /**
   * The fields of a built record: the full file name, the size, the type chosen by the
   * first matching extension set, dimensions only for an image the probe could read, and
   * a hash that is never empty.
   */
  lemma MakeRecordFields(path: Path, folder: string, info: FileInfo, imageExt: set<string>)
    ensures var r := MakeRecord(path, folder, info, imageExt);
      && r.fileName == Name(path) && r.fileSize == info.size
      && (r.fileType == Image <==> ExtOf(Name(path)) in imageExt)
      && (r.fileType == Video <==> ExtOf(Name(path)) !in imageExt && ExtOf(Name(path)) in VIDEO_EXT)
      && (r.fileType == Text <==>
            ExtOf(Name(path)) !in imageExt && ExtOf(Name(path)) !in VIDEO_EXT && ExtOf(Name(path)) in TEXT_EXT)
      && (r.width.Some? <==> r.height.Some?)
      && (r.width.Some? ==> r.fileType == Image && info.dims == Some((r.width.value, r.height.value)))
      && (r.fileType == Image && info.dims.Some? ==> r.width.Some?)
      && r.md5Hash == HashOrUnknown(info.digest) && r.md5Hash != ""
  {
  }

  /** `_process_file`: a record, or nothing when `os.stat` raises and the file is skipped. */
  function ProcessFile(path: Path, folder: string, stats: map<Path, FileInfo>, imageExt: set<string>)
    : (r: Option<FileRecord>)
    ensures r.Some? <==> path in stats
    ensures r.Some? ==> r.value == MakeRecord(path, folder, stats[path], imageExt)
  {
    if path in stats then Some(MakeRecord(path, folder, stats[path], imageExt)) else None
  }

  /** The records a sequence of files yields, in order; failed files leave no trace. */
  function NewRecords(files: seq<Path>, folder: string, stats: map<Path, FileInfo>, imageExt: set<string>)
    : (r: seq<FileRecord>)
    ensures |r| <= |files|
    ensures forall x :: x in r ==> x.rootFolder == folder && x.path in files && x.path in stats
  {
    if files == [] then []
    else
      var init := files[..|files| - 1];
      var p := files[|files| - 1];
      assert files == init + [p];
      NewRecords(init, folder, stats, imageExt) + OptionToSeq(ProcessFile(p, folder, stats, imageExt))
  }

  /** The records are exactly those built for the files `os.stat` succeeds on. */
  lemma {:induction false} NewRecordsMembers(
    files: seq<Path>, folder: string, stats: map<Path, FileInfo>, imageExt: set<string>)
    ensures forall x :: x in NewRecords(files, folder, stats, imageExt) <==>
              x.path in files && x.path in stats && x == MakeRecord(x.path, folder, stats[x.path], imageExt)
  {
    if files != [] {
      var init := files[..|files| - 1];
      var p := files[|files| - 1];
      NewRecordsMembers(init, folder, stats, imageExt);
      assert files == init + [p];
    }
  }

  /** Each walked file yields at most one record, so distinct files give distinct paths. */
  lemma {:induction false} NewRecordsUnique(
    files: seq<Path>, folder: string, stats: map<Path, FileInfo>, imageExt: set<string>)
    requires Distinct(files)
    ensures UniquePaths(NewRecords(files, folder, stats, imageExt))
  {
    if files != [] {
      var init := files[..|files| - 1];
      var p := files[|files| - 1];
      NewRecordsUnique(init, folder, stats, imageExt);
      var a: seq<FileRecord> := NewRecords(init, folder, stats, imageExt);
      var b: seq<FileRecord> := OptionToSeq(ProcessFile(p, folder, stats, imageExt));
      assert p !in init;
      forall i, j | 0 <= i < j < |a + b| ensures (a + b)[i].path != (a + b)[j].path {
        if j >= |a| {
          assert (a + b)[i] in a;
        }
      }
    }
  }

  lemma NewRecordsSnoc(files: seq<Path>, p: Path, folder: string, stats: map<Path, FileInfo>, imageExt: set<string>)
    ensures NewRecords(files + [p], folder, stats, imageExt)
         == NewRecords(files, folder, stats, imageExt) + OptionToSeq(ProcessFile(p, folder, stats, imageExt))
  {
    assert (files + [p])[..|files|] == files;
  }

  lemma {:induction false} NewRecordsAppend(
    a: seq<Path>, b: seq<Path>, folder: string, stats: map<Path, FileInfo>, imageExt: set<string>)
    ensures NewRecords(a + b, folder, stats, imageExt)
         == NewRecords(a, folder, stats, imageExt) + NewRecords(b, folder, stats, imageExt)
    decreases |b|
  {
    if b == [] {
      assert a + b == a;
    } else {
      var b', last := b[..|b| - 1], b[|b| - 1];
      assert b == b' + [last];
      assert a + b == (a + b') + [last];
      NewRecordsAppend(a, b', folder, stats, imageExt);
      NewRecordsSnoc(a + b', last, folder, stats, imageExt);
      NewRecordsSnoc(b', last, folder, stats, imageExt);
      AppendAssoc(NewRecords(a, folder, stats, imageExt), NewRecords(b', folder, stats, imageExt),
                  OptionToSeq(ProcessFile(last, folder, stats, imageExt)));
    }
  }

  /** A thumbnail candidate: its lowercased `splitext` extension is an image or video one. */
  predicate IsCandidate(p: Path)
  {
    IsMediaExt(ExtOf(Name(p)))
  }

  /**
   * The candidates among some files, in order. Whether the file's record could be built
   * plays no part: the test runs after `_process_file`, whatever happened there.
   */
  function MediaOf(files: seq<Path>): (r: seq<Path>)
    ensures |r| <= |files|
    ensures forall p :: p in r ==> p in files && IsCandidate(p)
  {
    if files == [] then []
    else
      var init := files[..|files| - 1];
      var p := files[|files| - 1];
      assert files == init + [p];
      MediaOf(init) + (if IsCandidate(p) then [p] else [])
  }

  /** A file is a candidate exactly when its extension is a media one. */
  lemma {:induction false} MediaOfMembers(files: seq<Path>)
    ensures forall p :: p in MediaOf(files) <==> p in files && IsCandidate(p)
  {
    if files != [] {
      var init := files[..|files| - 1];
      var p := files[|files| - 1];
      MediaOfMembers(init);
      assert files == init + [p];
    }
  }

  lemma MediaOfSnoc(files: seq<Path>, p: Path)
    ensures MediaOf(files + [p]) == MediaOf(files) + (if IsCandidate(p) then [p] else [])
  {
    assert (files + [p])[..|files|] == files;
  }

  lemma {:induction false} MediaOfAppend(a: seq<Path>, b: seq<Path>)
    ensures MediaOf(a + b) == MediaOf(a) + MediaOf(b)
    decreases |b|
  {
    if b == [] {
      assert a + b == a;
    } else {
      var b', last := b[..|b| - 1], b[|b| - 1];
      assert b == b' + [last];
      assert a + b == (a + b') + [last];
      MediaOfAppend(a, b');
      MediaOfSnoc(a + b', last);
      MediaOfSnoc(b', last);
      AppendAssoc(MediaOf(a), MediaOf(b'), if IsCandidate(last) then [last] else []);
    }
  }

  /** A media file whose processing failed leaves no record and is still a candidate. */
  lemma FailedFileStillCandidate(
    files: seq<Path>, p: Path, folder: string, stats: map<Path, FileInfo>, imageExt: set<string>)
    requires p in files && p !in stats && IsCandidate(p)
    ensures p in MediaOf(files)
    ensures forall x :: x in NewRecords(files, folder, stats, imageExt) ==> x.path != p
  {
    MediaOfMembers(files);
  }

  /** Every image candidate of the scanner is stored as an image, every video one as a video. */
  lemma CandidatesAreImagesOrVideos(p: Path, folder: string, info: FileInfo)
    requires IsCandidate(p)
    ensures MakeRecord(p, folder, info, IMAGE_EXT).fileType in {Image, Video}
  {
    MakeRecordFields(p, folder, info, IMAGE_EXT);
  }
}
