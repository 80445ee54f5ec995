# Remote file management: the incremental media scanner and its surroundings

This project is a Dafny model of the core of a small media server. The server indexes a
media root directory into a SQL database and serves listings, file details, file content and
deletions over HTTP.

- **Scanner.** Every top-level folder of the root whose modification time has moved past its
  stored watermark gets rescanned. Its rows in the `files` table are deleted. Every file its
  walk visits is classified by extension, hashed and probed, and inserted as a new row. The
  media files found so far go through a thumbnail batch of two renditions per file. Only then
  is the folder's watermark upserted. The canonical scanner (`service/utils/scanner.py`) is
  modelled, and so is its earlier draft (`service/scanner.py`).
- **Thumbnail cache.** `make_thumb` derives a cache path below `root/.cache/<size class>/`
  that mirrors the file's path below the root.
- **Settings.** A key-value `config` table (media root and port) sits behind a process-wide
  `Config` object.
- **Request layer.** The handlers list folders and records, answer 403 or 404 for file
  content, and move deleted files into `root/.recycle`. These are the handlers of
  `service/server/handlers.py` and the single-file server `service/main.py`.

The model is organised by source file:

| module | file | models |
|---|---|---|
| `Wrappers` | wrappers.dfy | Option, Result, small sequence facts |
| `Paths` | paths.dfy | paths as component sequences; `relative_to`, `parents`, `suffix`, `stem`, `with_suffix`, `os.path.splitext`, `str.lower`, path text |
| `MediaTypes` | media_types.dfy | the extension sets and the image/video/text/other chain |
| `ChangeDetector` | change_detector.dfy | `folder_changed` |
| `Thumb` | thumb.dfy | `make_thumb`: cache path, output extension, write arguments |
| `Store` | store.dfy | the `files` and `folder_mtime` tables and a database session (a class) |
| `MediaTree` | media_tree.dfy | the media root as one pass sees it: listing, directories, walks, stat results |
| `Extractor` | extractor.dfy | `_process_file` and the candidate test |
| `FolderWalk` | folder_walk.dfy | the nested walk loop of both scanners, as methods |
| `ThumbBatch` | thumb_batch.dfy | `batch_thumbs` |
| `Scanner` | scanner.dfy | the canonical `_scan`, as a fold and as a method |
| `ScanProps` | scan_props.dfy | what a pass and two passes guarantee |
| `ScannerDraft` | scanner_draft.dfy | the draft `_scan` and how it relates to the canonical one |
| `ConfigOps` | config_ops.dfy | the `config` table accessors |
| `AppConfig` | app_config.dfy | the `Config` class and its singleton |
| `Handlers` | handlers.dfy | the request handlers |
| `MainApp` | main_app.dfy | the globals and routes of the single-file server |

## Representation choices

**Paths**
- A path is the sequence of its components below `/`.
- The text a path is stored under is `PathText`, and `ParsePath` is `Path(text)`. For paths
  made of valid names the two are inverse, which `ParsePathText` proves.

**The `files` table**
- The table is a sequence in primary-key order. The key is an autoincrement id, so a `merge`
  of a fresh record inserts a row.
- `file_path` is UNIQUE, so a commit whose pending rows repeat a path raises and writes
  nothing.
- Watermarks are a map from folder name to mtime. Their `merge` is an upsert, because the
  folder name is that table's key.

**The filesystem** is a snapshot taken for one pass (`MediaTree.Tree`):
- the names `os.listdir` returns;
- the entries that are directories, each with its mtime and its `os.walk`;
- for each file, what `os.stat`, the hash and the image probe return. A file missing from
  that map is one whose `os.stat` raises.

**The thumbnail pool** is the sequence of its tasks in submission order. Each outcome is that
of `make_thumb` on the task's own request. The renders that fail are a parameter.
In a scan, each `batch_thumbs` call gets its own cache status and failing renders
(`Scanner.BatchEnvs`, indexed by the calls made before it). So a batch can raise at a later
folder after earlier folders' batches ran. A file resent by the cumulative list can also fail
in one call and succeed in the next, or the other way round.

**The database session** is a class with two states and a flag:
- `view`: what its queries see, pending changes included;
- `saved`: what is committed;
- `closed`.

**The scanner** is specified by a fold over the folders, `Scanner.Pass`. The methods
`Scanner.Scan` and `ScannerDraft.DraftScan` are proved against it, and the lemmas of
`ScanProps` are proved about the fold.

### Where the design description and the code disagree

The model follows the code in each of these cases:

- **Record replacement.** The design describes records as upserted by path. The code's
  primary key is an autoincrement id:
  - replacement is a bulk delete of the folder's rows followed by plain inserts;
  - a repeated path would make the final commit raise;
  - `ScanProps.CommitNeverRaises` shows that this cannot happen for rows the scanner wrote
    itself under the same root.
- **Candidate list.** The design gives each pass its own candidate list. In the code,
  `all_media_files` is declared once before the folder loop. Each changed folder hands the
  whole accumulated list to `batch_thumbs`, so earlier folders' files are thumbnailed again
  (`ScanProps.FolderStepCumulative`, `ScanProps.PassCumulative`).
- **Video cache names.** The design gives a video's cache name its original extension
  (`clip.mp4.jpg`). The code uses `with_suffix`, so `clip.mp4`, `clip.mov` and `clip.jpg` in
  one directory share one cache path (`Thumb.ClipSiblingsCollide`).
- **Reserved names.** The design excludes cache and recycle markers by a reserved prefix.
  The code excludes exactly the names that start with a dot.
- **Cache directory failures.**
  - A cache directory that is not writable disables the thumbnails of that batch.
  - A failing `mkdir` of the cache directory or its size classes is not caught. It leaves
    `_scan`, which closes the session without a commit (`Scanner.Scan`, outcome `Aborted`).
- **One record per file.** The design says every file on disk has exactly one record after a
  rescan. A file whose `os.stat` raises gets none, and it is still a thumbnail candidate
  (`Extractor.FailedFileStillCandidate`).
- **Videos and scaling.** The design describes frame extraction by an external tool and a
  medium rendition that never upscales. The code hands every file, video or image, straight
  to the image library with the size bound. That call is outside the model.

## Model

| member | source | states |
|---|---|---|
| Paths.RelativeTo | service/utils/thumb.py:19 | `relative_to` succeeds exactly when the root is a prefix of the path, and the root followed by the result is the path; the deletion route's `relative_to` at service/server/handlers.py:57-58 behaves the same |
| Paths.Parents | service/server/handlers.py:91 | a path is among the parents exactly when it is a proper prefix |
| Paths.Lower | service/utils/scanner.py:46-48 | lowercasing keeps the length and maps each character to its lower case |
| Paths.LowerIdempotent | service/utils/thumb.py:20 | lowercasing an already lowercased suffix changes nothing |
| Paths.SplitExt | service/utils/scanner.py:67 | `os.path.splitext` of a bare file name; specified by Paths.SplitExtParts (the split and when an extension is found) and Paths.SplitExtAgreesWithSuffix (agreement with `suffix`) |
| Paths.SplitExtParts | service/utils/scanner.py:67-68 | `os.path.splitext` splits the name into two parts that concatenate back to it. A non-empty extension is one dot and what follows, after a character that is not a dot. No extension is found only when nothing but dots precede the last dot |
| Paths.Suffix | service/utils/thumb.py:20 | `suffix` is a tail of the name: empty, or a dot then at least one character, not the whole name, with no further dot |
| Paths.Stem | service/utils/thumb.py:30 | stem followed by suffix is the name |
| Paths.WithSuffix | service/utils/thumb.py:30 | `with_suffix` keeps every component but the last, whose stem gets the new extension |
| Paths.SuffixOfStemAndExt | service/utils/thumb.py:20 | a non-empty stem followed by a dotted extension has that extension as suffix and that stem as stem |
| Paths.SplitExtAgreesWithSuffix | service/utils/scanner.py:46 | where `splitext` finds an extension longer than a dot, `suffix` finds the same one |
| Paths.DotDotNameDisagrees | service/utils/thumb.py:20 | the two disagree on "..jpg": `splitext` finds no extension, `suffix` finds ".jpg" |
| Paths.ParsePathText | service/server/handlers.py:48-49 | parsing the stored text of a path of valid names gives the path back |
| Paths.PathTextInjective | service/database/models.py:29 | two paths of valid names with the same stored text are equal |
| MediaTypes.Classify | service/utils/scanner.py:70-78 | the image, video, text, other chain on the lowercased extension, image tested first; its outcome is stated by Extractor.MakeRecordFields and ScannerDraft.JpeClassification |
| MediaTypes.MediaExtensionsDotted | service/utils/scanner.py:14-15 | every image or video extension is a dot followed by a dot-free, non-empty tail |
| MediaTypes.DraftOmitsOnlyJpe | service/scanner.py:12 | the draft's image set is the canonical one without ".jpe" |
| MediaTypes.MediaNameSuffix | service/utils/thumb.py:20-27 | for every name the scanner takes as media, `suffix` lowercased equals the scanner's lowercased `splitext` extension |
| ChangeDetector.FolderChanged | service/needs_update.py:5-14 | `folder_changed` as a predicate that only reads; specified by the five ChangeDetector lemmas (not a directory, no watermark, strict one-unit slack, monotone, fresh watermark) |
| ChangeDetector.NotADirectoryIsUnchanged | service/needs_update.py:9-10 | a folder that is not a directory never needs a rescan, watermark or not |
| ChangeDetector.NoWatermarkIsChanged | service/needs_update.py:12-13 | an existing folder without a watermark needs a rescan |
| ChangeDetector.SlackIsStrict | service/needs_update.py:14 | with a watermark, rescan exactly when the mtime exceeds it by more than one; exactly one more is unchanged |
| ChangeDetector.ChangedIsMonotone | service/needs_update.py:14 | if some mtime needs a rescan, every later mtime does too |
| ChangeDetector.FreshWatermarkIsUnchanged | service/needs_update.py:11-14 | a folder whose watermark is its current mtime is unchanged |
| Thumb.ThumbPath | service/utils/thumb.py:19-30 | the cache path of `make_thumb` or the error raised before it; specified by Thumb.ThumbPathOutcome (when it is refused, and why), Thumb.ThumbPathShape and Thumb.ThumbPathValue (what it is) |
| Thumb.OutputExt | service/utils/thumb.py:22-27 | an output extension exists exactly for image and video extensions, and it is dotted. A video extension is written as ".jpg", and an image extension keeps its own extension |
| Thumb.ThumbPathOutcome | service/utils/thumb.py:19-27 | the path is refused as not under the root exactly when `relative_to` fails. Otherwise it is refused as unsupported, with that extension, exactly when the lowercased suffix is neither image nor video |
| Thumb.ThumbPathShape | service/utils/thumb.py:30 | the cache path is the root, ".cache", the size class and then the original's directories below the root. Its last name has the original's stem and the output extension as suffix |
| Thumb.ThumbPathValue | service/utils/thumb.py:19-30 | for an accepted file the cache path is `root/.cache/<subdir>/` followed by the relative path with its suffix replaced |
| Thumb.MakeThumb | service/utils/thumb.py:19-43 | one `make_thumb` call with its render as a parameter; specified by Thumb.MakeThumbOutcome |
| Thumb.MakeThumbOutcome | service/utils/thumb.py:30-43 | a refused path raises its own error before rendering. An accepted one returns its cache path unless the render fails |
| Thumb.WriteArgs | service/utils/thumb.py:37-40 | the encoder's keyword arguments; specified by Thumb.WriteArgsOnlyForJpeg and Thumb.VideosWrittenAsJpeg |
| Thumb.WriteArgsOnlyForJpeg | service/utils/thumb.py:37-40 | the writer gets quality 85 and interlacing exactly for ".jpg" and ".jpeg", nothing otherwise (so not for ".jpe") |
| Thumb.VideosWrittenAsJpeg | service/utils/thumb.py:22-23 | every video is written as ".jpg" with quality 85 and interlacing |
| Thumb.ThumbAndMediumSucceedTogether | service/utils/thumb.py:30 | one file's two size classes are both derivable or both refused |
| Thumb.ThumbAndMediumDifferOnlyInSubdir | service/utils/thumb.py:30 | the medium path is the thumb path with the size-class segment replaced; the size plays no part |
| Thumb.CachePathOfSibling | service/utils/thumb.py:19-30 | a media file `dir/stem.ext` caches at `.cache/<subdir>/dir/stem` plus its output extension, whatever its original extension |
| Thumb.SameStemSameCachePath | service/utils/thumb.py:22-30 | two siblings with one stem and the same output extension share one cache path |
| Thumb.ClipSiblingsCollide | service/utils/thumb.py:22-30 | `clip.mp4`, `clip.mov` and `clip.jpg` in one directory all cache at `clip.jpg` |
| Store.RowsOf | service/server/handlers.py:25 | the rows kept are exactly those of the folder, in table order |
| Store.WithoutFolder | service/utils/scanner.py:40 | the bulk delete keeps exactly the rows of other folders |
| Store.WithoutPath | service/server/handlers.py:52 | the bulk delete keeps exactly the rows stored under other text |
| Store.FirstWithPath | service/server/handlers.py:78 | a row is found exactly when some row is stored under the text, and the one found is such a row |
| Store.WithoutFolderUnique | service/utils/scanner.py:40 | deleting a folder's rows cannot break the UNIQUE constraint |
| Store.WithoutPathUnique | service/server/handlers.py:69-70 | deleting a path's rows cannot break the UNIQUE constraint |
| Store.RowsOfWithoutFolder | service/utils/scanner.py:40 | after the delete the folder has no rows, and every other folder reads the same |
| Store.Session.Open | service/utils/scanner.py:24 | a new session sees and holds the committed tables and is open |
| Store.Session.Watermark | service/needs_update.py:7 | the watermark query finds the folder's row exactly when there is one |
| Store.Session.DeleteFolderRows | service/utils/scanner.py:40 | the pending files lose the folder's rows; nothing is committed |
| Store.Session.DeletePathRows | service/server/handlers.py:52 | the pending files lose the rows stored under the text; nothing is committed |
| Store.Session.AddRecord | service/utils/scanner.py:92 | a merged record is queued as a new row behind the others |
| Store.Session.MergeMark | service/utils/scanner.py:55 | the watermark merge is an upsert on the folder |
| Store.Session.Commit | service/utils/scanner.py:57 | the commit succeeds exactly when the pending paths are unique. It then saves the pending tables. Otherwise nothing is saved and the failed flush rolls the session back to the saved tables |
| Store.Session.Close | service/utils/scanner.py:59 | closing discards whatever was not committed |
| MediaTree.WalkFiles | service/utils/scanner.py:43-45 | every file `os.walk` visits, in order; specified by MediaTree.WalkFilesUnder and MediaTree.WalkFilesDistinct |
| MediaTree.Under | service/utils/scanner.py:43-45 | the files of one walk step are the directory joined with each name, in order |
| MediaTree.WalkFilesUnder | service/utils/scanner.py:43 | every file of a walk below a folder lies strictly below it |
| MediaTree.TopLevelFolders | service/utils/scanner.py:28-30 | a name is selected exactly when it is listed, is a directory and does not start with a dot; `list_root_folders` at service/server/handlers.py:12-16 and service/main.py:82-87 answers exactly these names |
| MediaTree.VisibleDistinct | service/utils/scanner.py:28-30 | the selected folders are distinct |
| MediaTree.UnderDistinct | service/utils/scanner.py:44 | the files of one walk step are distinct |
| MediaTree.WalkFilesDistinct | service/utils/scanner.py:43-45 | a well-formed walk visits each file path once |
| Extractor.HashOrUnknown | service/utils/scanner.py:80 | the stored hash is the digest when there is a non-empty one, "unknown" otherwise, and never empty |
| Extractor.MakeRecord | service/utils/scanner.py:82-92 | the record carries the file's path and its folder |
| Extractor.MakeRecordFields | service/utils/scanner.py:67-92 | full file name, size, type by the image, video, text chain on the lowercased extension. Width and height come together, only for an image the probe read. The hash is the fallback one; the draft at service/scanner.py:46-70 builds its record the same way |
| Extractor.ProcessFile | service/utils/scanner.py:62-95 | a record exactly for a file `os.stat` succeeds on, and then the built one |
| Extractor.NewRecords | service/utils/scanner.py:43-45 | at most one record per walked file, each of the folder and of a walked, statted file |
| Extractor.NewRecordsMembers | service/utils/scanner.py:44-45 | the records are exactly those built for the walked files that can be statted |
| Extractor.NewRecordsUnique | service/database/models.py:29 | distinct walked files give rows with distinct paths |
| Extractor.MediaOf | service/utils/scanner.py:46-49 | the candidates are walked files with a media extension, in order |
| Extractor.MediaOfMembers | service/utils/scanner.py:46-49 | a walked file is a candidate exactly when its lowercased extension is an image or video one |
| Extractor.IsCandidate | service/utils/scanner.py:46-48 | the candidate test: the lowercased `splitext` extension of the file name is an image or a video extension; specified through Extractor.MediaOfMembers and Extractor.CandidatesAreImagesOrVideos |
| Extractor.FailedFileStillCandidate | service/utils/scanner.py:45-49 | a media file whose processing failed has no record and is still a candidate |
| Extractor.CandidatesAreImagesOrVideos | service/utils/scanner.py:72-76 | every candidate's record is typed image or video |
| FolderWalk.ProcessFileInto | service/utils/scanner.py:62-95 | the file's record is queued on the session, or nothing when `os.stat` raises; nothing is committed |
| FolderWalk.ProcessPaths | service/utils/scanner.py:44-49 | the loop over one directory's files queues their records in order and returns their candidates |
| FolderWalk.WalkFolder | service/utils/scanner.py:43-49 | the walk queues the records of every walked file and returns all candidates, in walk order; the draft's walk at service/scanner.py:32-34 does the same with its own image set |
| ThumbBatch.Schedule | service/utils/scanner.py:115-126 | twice as many tasks as files |
| ThumbBatch.ScheduleAt | service/utils/scanner.py:115-126 | file i is submitted as task 2i (thumb, 200) and then task 2i+1 (medium, 2000) |
| ThumbBatch.ScheduleFiles | service/utils/scanner.py:115-126 | task k is for file k/2, thumb when k is even and medium when odd |
| ThumbBatch.RunAll | service/utils/scanner.py:129-134 | one result per task |
| ThumbBatch.RunAllAt | service/utils/scanner.py:129-134 | task k's result is `make_thumb` on task k's own request |
| ThumbBatch.Batch | service/utils/scanner.py:98-134 | the batch raises exactly when the cache mkdir fails, or it is writable and a size-class mkdir fails. It schedules nothing exactly when the cache is not writable. Otherwise it runs the schedule and has one result per task |
| ThumbBatch.RaisingIgnoresFiles | service/utils/scanner.py:103-111 | whether a batch raises or is disabled depends on the cache directory alone |
| ThumbBatch.FailuresIsolated | service/utils/scanner.py:129-134 | task k succeeds exactly when its own cache path is derivable and its own render does not fail |
| ThumbBatch.CandidateAccepted | service/utils/thumb.py:19-27 | every scanner candidate below the root is accepted by `make_thumb` |
| ThumbBatch.BatchThumbs | service/utils/scanner.py:98-134 | the method's outcome is `Batch` |
| ThumbBatch.Submit | service/utils/scanner.py:113-126 | the submission loop yields exactly the schedule |
| ThumbBatch.Collect | service/utils/scanner.py:129-134 | the collection loop gathers every task's outcome, failures included, in order |
| Scanner.CurrentMtime | service/needs_update.py:9-11 | an mtime exists exactly for a directory, and it is that folder's mtime in the snapshot |
| Scanner.LastMark | service/needs_update.py:7 | a watermark exists exactly when the folder has a row, and it is the mark stored in that row |
| Scanner.NeedsScan | service/utils/scanner.py:34 | the `folder_changed` call of the folder loop: `folder_changed` applied to the session's watermark and the folder's current mtime; specified through ChangeDetector.FolderChanged's lemmas |
| Scanner.FolderStep | service/utils/scanner.py:33-55 | one iteration of the folder loop, whose batch meets the cache status and failing renders of its own call; specified by ScanProps.SkippedFolderUntouched, ScanProps.ChangedFolderStep, ScanProps.FolderStepKeepsUnique and ScanProps.FolderStepCumulative, and Scanner.ScanFolder is proved equal to it |
| Scanner.PassFold | service/utils/scanner.py:33-56 | the folder loop over some folders; specified by Scanner.AbortedPrefix, ScanProps.PassResult, ScanProps.PassKeepsUnique, ScanProps.PassCumulative and ScanProps.PassCandidates |
| Scanner.Pass | service/utils/scanner.py:23-59 | a whole pass over the visible top-level folders; Scanner.Scan is proved against it, and ScanProps.SecondPassIsNoOp and ScanProps.CommitNeverRaises are stated about it |
| Scanner.AbortedPrefix | service/utils/scanner.py:52-59 | once a batch raised, the remaining folders change nothing |
| Scanner.ScanFolder | service/utils/scanner.py:34-55 | one folder iteration changes the session, the candidate list and the batch calls exactly as one step of the pass does; nothing is committed |
| Scanner.Scan | service/utils/scanner.py:23-59 | the scan's outcome and batch calls are those of the pass. The database takes the pass's tables exactly when no batch raised and the paths are unique. The session is closed on every path |
| ScanProps.SkippedFolderUntouched | service/utils/scanner.py:34-36 | an unchanged folder changes no row, candidate, batch call or watermark |
| ScanProps.ChangedFolderStep | service/utils/scanner.py:37-55 | a changed folder's rows become exactly its walk's records while other folders keep theirs. Its candidates are appended and the whole list goes to one batch. The watermark moves to its mtime unless the batch raised |
| ScanProps.PassResult | service/utils/scanner.py:33-55 | after a pass that did not raise, each rescanned folder holds exactly its walk's records with its mtime as watermark; every other folder keeps its rows and watermark |
| ScanProps.NothingToRescan | service/utils/scanner.py:33-36 | a pass over unchanged folders changes nothing |
| ScanProps.SecondPassIsNoOp | service/utils/scanner.py:33-55 | on an unchanged tree, a pass after a completed pass deletes, adds, schedules and moves nothing |
| ScanProps.FolderStepKeepsUnique | service/utils/scanner.py:40-45 | a folder step keeps the rows unique and each under its own folder |
| ScanProps.PassKeepsUnique | service/utils/scanner.py:33-55 | a whole pass keeps the rows unique and each under its own folder |
| ScanProps.CommitNeverRaises | service/utils/scanner.py:57 | on rows the scanner wrote under the same root, the final commit cannot raise on the UNIQUE `file_path` constraint (the NOT NULL `file` column is not modelled) |
| ScanProps.FolderStepCumulative | service/utils/scanner.py:45-52 | the candidate list and the calls only grow, and the new call gets the whole current list |
| ScanProps.PassCumulative | service/utils/scanner.py:32-52 | over a pass every batch call's list is a prefix of every later call's list and of the final list |
| ScanProps.PassCandidates | service/utils/scanner.py:32-52 | the final candidate list holds the media files of every rescanned folder, in walk order |
| ScannerDraft.DraftStep | service/scanner.py:25-37 | one iteration of the draft loop; ScannerDraft.DraftScanFolder is proved equal to it and ScannerDraft.DraftMatchesCanonical relates it to the canonical step |
| ScannerDraft.DraftFold | service/scanner.py:25-37 | the draft folder loop over some folders; specified by ScannerDraft.DraftMatchesCanonical |
| ScannerDraft.DraftPass | service/scanner.py:20-37 | the draft's pending tables after its loop; ScannerDraft.DraftScan is proved against it and ScannerDraft.DraftPassMatchesCanonical relates it to Scanner.Pass |
| ScannerDraft.DraftScanFolder | service/scanner.py:25-37 | one iteration of the draft loop is one draft step; nothing is committed |
| ScannerDraft.DraftScan | service/scanner.py:20-39 | the draft commits its pass exactly when the paths are unique. It closes the session only then; a raising commit leaves the session open, rolled back to the saved tables |
| ScannerDraft.JpeClassification | service/scanner.py:49-57 | a ".jpe" file is an image for the canonical scanner and "other" for the draft |
| ScannerDraft.SameRecordWithoutJpe | service/scanner.py:41-73 | any other file gets the same record from both |
| ScannerDraft.SameRecordsWithoutJpe | service/scanner.py:32-34 | a walk without ".jpe" files gives both scanners the same records |
| ScannerDraft.DraftMatchesCanonical | service/scanner.py:25-37 | without ".jpe" files and with no raising batch, both folder loops leave the same tables |
| ScannerDraft.DraftPassMatchesCanonical | service/scanner.py:20-39 | the same for whole passes: the thumbnail work never touches the database |
| ConfigOps.PortStringRoundTrip | service/database/config_ops.py:36-39 | the stored text of a port is all digits and reads back as that port |
| ConfigOps.ParseDigits | service/database/config_ops.py:39 | `int(s)` on ASCII digit text, leading zeros allowed; ConfigOps.PortStringRoundTrip shows that it reads `str(n)` back as `n` |
| ConfigOps.PortStringNoLeadingZero | service/database/config_ops.py:46 | `str` of a port has no leading zero |
| ConfigOps.ConfigTable.constructor | service/database/models.py:8-13 | the `config` table starts with the given key-value rows |
| ConfigOps.ConfigTable.GetConfig | service/database/config_ops.py:11-14 | the stored value for a present key, the default otherwise |
| ConfigOps.ConfigTable.SetConfig | service/database/config_ops.py:17-21 | an upsert on the key |
| ConfigOps.ConfigTable.GetRootDir | service/database/config_ops.py:24-26 | the stored root directory, or none when the key is absent |
| ConfigOps.ConfigTable.SetRootDir | service/database/config_ops.py:29-33 | an empty path is refused with the table unchanged. Any other is stored, read back, and leaves the port as it was |
| ConfigOps.ConfigTable.GetPort | service/database/config_ops.py:36-39 | a port exactly when the key is present and its text is all digits, and it is `int` of that text (ConfigOps.ParseDigits) |
| ConfigOps.ConfigTable.SetPort | service/database/config_ops.py:42-46 | a port outside 1..65535 is refused with the table unchanged. Any other is stored as its text, reads back as itself, and leaves the root as it was |
| AppConfig.RootDirChoice | service/core/config.py:32-45 | the fallback chain of `_load_root_dir`; specified by AppConfig.RootDirChoiceProps and AppConfig.RootDirChoiceStable |
| AppConfig.UsableRoot | service/core/config.py:35 | the stored root is non-empty and is a directory; its role in the fallback chain is stated by AppConfig.RootDirChoiceProps |
| AppConfig.RootDirChoiceProps | service/core/config.py:32-45 | the choice is a non-empty existing directory, the stored one when usable. It fails exactly when neither the stored value nor the default is a directory |
| AppConfig.RootDirChoiceStable | service/core/config.py:34-42 | once the chosen directory is stored, choosing again returns it |
| AppConfig.LoadRootDir | service/core/config.py:32-45 | the result is the fallback chain's choice. The default is written only when it is chosen over an unusable stored value. A success leaves the result stored; the loader at service/main.py:47-57 makes the same choice and the same write |
| AppConfig.LoadPort | service/core/config.py:47-55 | a stored non-zero port is returned untouched; otherwise 8081 is stored and returned |
| AppConfig.Config.Blank | service/core/config.py:14-17 | a new instance has not been initialised |
| AppConfig.Config.Init | service/core/config.py:19-30 | a second call changes nothing. A first call marks the instance initialised, raises exactly when no root directory can be chosen, and otherwise loads the root, the port and the recycle settings |
| AppConfig.Config.SaveRootDir | service/core/config.py:57-60 | the table and then the field take the new root; an empty one raises and changes neither |
| AppConfig.Config.SavePort | service/core/config.py:62-65 | the table and then the field take the new port; one out of range raises and changes neither |
| AppConfig.Config.CheckRootDir | service/core/config.py:67-86 | true exactly when the root is a directory with a visible sub-directory. Only then does the recycle flag become the mkdir's outcome |
| AppConfig.ConfigRegistry.constructor | service/core/config.py:12 | no instance exists before the first call |
| AppConfig.ConfigRegistry.Get | service/core/config.py:14-22 | every call returns the stored instance and only the first initialises it. The instance is stored before initialising, so it stays even when that raised |
| Handlers.Status | service/server/handlers.py:67 | every failure answers 403, 404 or 500: 403 exactly for a path outside the root, 404 exactly for a missing file, and 500 exactly for a failed move or any other exception |
| Handlers.StrLe | service/server/handlers.py:29-35 | SQLite's binary text order used by `order_by` on a text column: code point by code point, a prefix first; Handlers.StrLeTotal and Handlers.StrLeTrans make it a total preorder |
| Handlers.SortKeyOf | service/server/handlers.py:28-35 | "name", "type" and "size" each pick their own column, exactly when `sort` is that word. The path is the sort column exactly when `sort` is none of them |
| Handlers.SortRows | service/server/handlers.py:37 | sorting keeps every row as often as it was there |
| Handlers.SortRowsSorted | service/server/handlers.py:28-35 | the sorted rows are in order for the key and direction |
| Handlers.ListFiles | service/server/handlers.py:19-38 | the `list_files` answer; specified by Handlers.ListFilesSpec |
| Handlers.ListFilesSpec | service/server/handlers.py:19-38 | the answer holds exactly the folder's rows, each as often as stored, sorted on the requested column. It is ascending for "asc" and descending for anything else; the route at service/main.py:89-107 answers the same |
| Handlers.FileInfo | service/server/handlers.py:74-81 | a record exactly when one is stored under the text, and then such a record; 404 otherwise; the single-file server's route at service/main.py:141-148 answers the same |
| Handlers.FileContent | service/server/handlers.py:84-97 | 403 exactly when the path is neither the root nor below it. Then 404 exactly when it is not a regular file, and otherwise the path itself; the single-file server's route at service/main.py:150-162 answers the same |
| Handlers.RecyclePath | service/server/handlers.py:57-62 | the recycle-bin destination of `delete_file`; specified by Handlers.RecyclePathMirrors |
| Handlers.RecyclePathMirrors | service/server/handlers.py:57-62 | no destination outside the root or for the root itself. A path deeper than a top-level folder lands at `root/.recycle/<path below root>`. A top-level entry itself lands in a folder of its own name |
| Handlers.RemovesExactlyThatPath | service/server/handlers.py:69 | for paths of valid names, deleting by a path's text removes exactly that path's rows |
| Handlers.DeleteFile | service/server/handlers.py:41-71 | the warning is logged exactly when the recycle bin is not ready. A missing file only loses its rows. Otherwise a destination outside the root or a failing mkdir answers 500, and a failing move answers 500 with the rows kept. A successful move answers the destination with the rows removed and committed |
| Handlers.RemoveRows | service/server/handlers.py:52-53 | the bulk delete on the path and its commit always go through |
| MainApp.Server.constructor | service/main.py:166-167 | a new server has the given port and is not told to exit |
| MainApp.App.constructor | service/main.py:26-27 | at load time the recycle flag is false and no server is stored |
| MainApp.App.CheckRootOrExit | service/main.py:62-80 | the process exits exactly when the root is not a directory or has no visible sub-directory. The recycle bin is created only otherwise, and the global flag stays false either way |
| MainApp.App.DeleteFile | service/main.py:109-139 | the warning is always logged, then the deletion goes as in the handler. The session is closed only where rows are removed |
| MainApp.App.RunServer | service/main.py:164-169 | a new server with the given port is stored |
| MainApp.App.StopServer | service/main.py:171-177 | true exactly when a server was stored. That server is told to exit, and none is stored afterwards |
| MainApp.StopTwice | service/main.py:171-177 | two stops in a row: the first reports whether a server was running, the second is always false |

`Paths.DotDotNameDisagrees` and `Thumb.ClipSiblingsCollide` are illustrations. The general
claims are carried by `Paths.SplitExtAgreesWithSuffix`, and by `Thumb.SameStemSameCachePath`
with `Thumb.CachePathOfSibling`.

## Left out

- The image library, hashing and the image probe are inputs: per file, a size, an optional
  digest and optional dimensions. Each render's success or failure is likewise an input,
  given separately for each batch call of a pass.
- The video frame step, the scaling (the size bound handed to the library) and the encoding
  itself are not modelled. Only the cache path and the write arguments are.
- Concurrency is left out: the thread pool, `asyncio` `run_in_executor`, the progress bar,
  the server thread `SERVER_THREAD`, and readers seeing a folder mid-rescan. The pool is run
  as the sequential list of its tasks.
- The filesystem is a snapshot for one pass or request, and the following are not state:
  - `mkdir` side effects;
  - the move in `delete_file`;
  - the recycle bin created by the start-up checks;
  - the cache files written.
  Their success or failure is a parameter.
- Because the tree is one snapshot, a folder that vanishes during its rescan is not
  modelled. In the code, the `os.stat` of the folder before its watermark is written would
  then raise and end the pass without a commit.
- Paths are absolute POSIX paths of components. Left out:
  - URL unquoting;
  - `Path.resolve` with symlinks and relative paths;
  - Windows paths (the Windows default root is only a string).
  `Handlers.FileContent` takes the already resolved request path and root.
- `Paths.Suffix` follows pathlib up to Python 3.13, where a name ending in a dot has no
  suffix.
- `Paths.Lower` and `ConfigOps.IsDigits` cover ASCII only. Unicode case folding and Unicode
  digits are left out.
- Modification times are exact reals, not IEEE doubles.
- The NOT NULL `file` column of the `files` table is left out. The scanner never sets it,
  and SQL NULL checks are not modelled.
- Autoflush timing is not modelled. A repeated path is reported at the commit, which is
  where the session raises at the latest.
- Handlers.ListFilesSpec: rows with equal sort keys are claimed in no particular order,
  because SQL leaves the order of ties unspecified. The model sorts stably, but only
  sortedness and the multiset of rows are stated.
- AppConfig.Config.Init: `init_db()` (creating the tables) is not modelled.
- `db_context` and `get_db` are not modelled: sessions and their close or rollback on
  error. The `config` table's accessors commit at once, as `_set_config` does.
- ConfigOps.ConfigTable.SetPort: the model's `int` domain leaves out `bool` arguments, which
  the source's `isinstance(port, int)` check accepts. `set_port(True)` would store "True",
  which `get_port` then reads as no port. `_load_port` passes the int 8081, and `save_port`
  passes on its argument, annotated `int`.
- Logging and `print` are not modelled; where a warning matters, a result says it was
  issued.
- `sys.exit`, the uvicorn start-up and the blocking `server.run()` are not modelled.
  `MainApp.App.CheckRootOrExit` returns whether the process would exit.
- The FastAPI application, its routes and lifespan, the GUI, `service/server/app.py` and
  `service/database/connection.py` are not part of this model.
- `service/config_ops.py` is not modelled separately. Its root-directory setter is the
  database one without validation. It is only called with the non-empty default, so
  `AppConfig.LoadRootDir` models `service/main.py`'s loader too.
- The `file_info` route returns the row's columns. The model returns the row.
