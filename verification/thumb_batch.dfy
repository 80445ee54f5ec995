/**
 * `batch_thumbs`: two renditions per candidate file, submitted in order to a worker pool
 * whose tasks succeed or fail independently. The pool is run as the sequential list of
 * its tasks; each task's outcome is that of `make_thumb` on its own request.
 */
module ThumbBatch {
  import opened Wrappers
  import opened Paths
  import opened MediaTypes
  import opened Thumb
  import opened Extractor

  const THUMB_SIZE := 200
  const MEDIUM_SIZE := 2000

  /**
   * How the cache directory behaves: whether `mkdir` of `root/.cache` succeeds, whether
   * `os.access(..., W_OK)` then holds, and whether the `thumb` and `medium` mkdirs succeed.
   */
  datatype CacheStatus = CacheStatus(cacheMkdirOk: bool, writable: bool, subdirMkdirOk: bool)

  /** The environment of the thumbnail work: the cache directory and the failing renders. */
  datatype ThumbEnv = ThumbEnv(cache: CacheStatus, failing: set<Request>)

  datatype BatchOutcome =
    | Raised     // a mkdir raised: the exception leaves `batch_thumbs`
    | Disabled   // the cache is not writable: logged, nothing scheduled
    | Ran(tasks: seq<Request>, results: seq<Result<Path, ThumbError>>)

  /** The submission order: for each file, first its thumbnail, then its medium rendition. */
  function Schedule(files: seq<Path>): (tasks: seq<Request>)
    ensures |tasks| == 2 * |files|
  {
    if files == [] then []
    else
      var f := files[|files| - 1];
      Schedule(files[..|files| - 1]) + [Request(f, THUMB_SIZE, "thumb"), Request(f, MEDIUM_SIZE, "medium")]
  }

  lemma {:induction false} ScheduleAt(files: seq<Path>, i: nat)
    requires i < |files|
    ensures Schedule(files)[2 * i] == Request(files[i], THUMB_SIZE, "thumb")
    ensures Schedule(files)[2 * i + 1] == Request(files[i], MEDIUM_SIZE, "medium")
  {
    if i < |files| - 1 {
      ScheduleAt(files[..|files| - 1], i);
    }
  }

  /** Each task has the source file at half its index: no file is skipped or repeated. */
  lemma ScheduleFiles(files: seq<Path>)
    ensures forall k :: 0 <= k < |Schedule(files)| ==> Schedule(files)[k].file == files[k / 2]
    ensures forall k :: 0 <= k < |Schedule(files)| ==>
              Schedule(files)[k].subdir == (if k % 2 == 0 then "thumb" else "medium")
  {
    forall k | 0 <= k < |Schedule(files)|
      ensures Schedule(files)[k].file == files[k / 2]
      ensures Schedule(files)[k].subdir == (if k % 2 == 0 then "thumb" else "medium")
    {
      ScheduleAt(files, k / 2);
    }
  }

  /** The outcomes of some tasks, each that of `make_thumb` on its own request. */
  function RunAll(tasks: seq<Request>, root: Path, failing: set<Request>): (results: seq<Result<Path, ThumbError>>)
    ensures |results| == |tasks|
  {
    if tasks == [] then []
    else RunAll(tasks[..|tasks| - 1], root, failing) + [MakeThumb(tasks[|tasks| - 1], root, failing)]
  }

  lemma {:induction false} RunAllAt(tasks: seq<Request>, root: Path, failing: set<Request>, k: nat)
    requires k < |tasks|
    ensures RunAll(tasks, root, failing)[k] == MakeThumb(tasks[k], root, failing)
  {
    if k < |tasks| - 1 {
      RunAllAt(tasks[..|tasks| - 1], root, failing, k);
    }
  }

  /** What one `batch_thumbs(file_list, root_dir)` call does. */
  function Batch(files: seq<Path>, root: Path, env: ThumbEnv): (b: BatchOutcome)
    ensures b == Raised <==> !env.cache.cacheMkdirOk || (env.cache.writable && !env.cache.subdirMkdirOk)
    ensures b == Disabled <==> env.cache.cacheMkdirOk && !env.cache.writable
    ensures b.Ran? ==> b.tasks == Schedule(files) && |b.results| == |b.tasks|
  {
    if !env.cache.cacheMkdirOk then Raised
    else if !env.cache.writable then Disabled
    else if !env.cache.subdirMkdirOk then Raised
    else
      var tasks := Schedule(files);
      Ran(tasks, RunAll(tasks, root, env.failing))
  }

  /** Whether a batch raises depends on the cache directory alone, never on the files. */
  lemma RaisingIgnoresFiles(a: seq<Path>, b: seq<Path>, root: Path, env: ThumbEnv)
    ensures Batch(a, root, env).Raised? <==> Batch(b, root, env).Raised?
    ensures Batch(a, root, env).Disabled? <==> Batch(b, root, env).Disabled?
  {
  }

  /**
   * A failing task changes no other task's outcome: task k succeeds exactly when its own
   * cache path can be derived and its own render does not fail.
   */
  lemma FailuresIsolated(files: seq<Path>, root: Path, env: ThumbEnv, k: nat)
    requires Batch(files, root, env).Ran? && k < |Schedule(files)|
    ensures var b := Batch(files, root, env);
      b.results[k].Ok? <==> ThumbPath(b.tasks[k].file, root, b.tasks[k].subdir).Ok? && b.tasks[k] !in env.failing
  {
    RunAllAt(Schedule(files), root, env.failing, k);
    MakeThumbOutcome(Schedule(files)[k], root, env.failing);
  }

  /** Every scanner candidate below the root is accepted by `make_thumb`. */
  lemma CandidateAccepted(p: Path, root: Path, subdir: string)
    requires IsPrefix(root, p) && |p| > |root| && IsCandidate(p)
    ensures ThumbPath(p, root, subdir).Ok?
  {
    var rel := p[|root|..];
    assert Name(rel) == Name(p);
    MediaNameSuffix(Name(p));
    ThumbPathOutcome(p, root, subdir);
  }

  /** `batch_thumbs`: submit every task, then collect every result, failures included. */
  method BatchThumbs(files: seq<Path>, root: Path, env: ThumbEnv) returns (outcome: BatchOutcome)
    ensures outcome == Batch(files, root, env)
  {
    if !env.cache.cacheMkdirOk {
      return Raised;
    }
    if !env.cache.writable {
      return Disabled;
    }
    if !env.cache.subdirMkdirOk {
      return Raised;
    }
    var tasks := Submit(files);
    var results := Collect(tasks, root, env.failing);
    outcome := Ran(tasks, results);
  }

  /** The submission loop: a thumbnail task, then a medium task, for each file in order. */
  method Submit(files: seq<Path>) returns (tasks: seq<Request>)
    ensures tasks == Schedule(files)
  {
    tasks := [];
    var i := 0;
    while i < |files|
      invariant 0 <= i <= |files|
      invariant tasks == Schedule(files[..i])
    {
      SlicePrefix(files, i);
      tasks := tasks + [Request(files[i], THUMB_SIZE, "thumb")];
      tasks := tasks + [Request(files[i], MEDIUM_SIZE, "medium")];
      i := i + 1;
    }
    SliceAll(files);
  }

  /** The collection loop: every task's outcome, a failure included, in submission order. */
  method Collect(tasks: seq<Request>, root: Path, failing: set<Request>) returns (results: seq<Result<Path, ThumbError>>)
    ensures results == RunAll(tasks, root, failing)
  {
    results := [];
    var j := 0;
    while j < |tasks|
      invariant 0 <= j <= |tasks|
      invariant results == RunAll(tasks[..j], root, failing)
    {
      SlicePrefix(tasks, j);
      results := results + [MakeThumb(tasks[j], root, failing)];
      j := j + 1;
    }
    SliceAll(tasks);
  }
}
