/**
 * The canonical incremental scan (`_scan` in `utils/scanner.py`): every visible top-level
 * folder whose watermark says it changed has its rows replaced by the records of its walk,
 * its candidates are added to the running candidate list, that whole list goes through a
 * thumbnail batch, and only then is the folder's watermark upserted. One commit at the end.
 */
module Scanner {
  import opened Wrappers
  import opened Paths
  import opened MediaTypes
  import opened ChangeDetector
  import opened Store
  import opened MediaTree
  import opened Extractor
  import opened ThumbBatch
  import opened FolderWalk

  /** `os.path.isdir(root/folder)` and then `os.stat(root/folder).st_mtime`. */
  function CurrentMtime(t: Tree, folder: string): (m: Option<real>)
    ensures m.Some? <==> folder in t.folders
    ensures m.Some? ==> m.value == t.folders[folder].mtime
  {
    if folder in t.folders then Some(t.folders[folder].mtime) else None
  }

  /** The `folder_mtime` row of a folder, as seen through the session. */
  function LastMark(marks: map<string, real>, folder: string): (m: Option<real>)
    ensures m.Some? <==> folder in marks
    ensures m.Some? ==> m.value == marks[folder]
  {
    if folder in marks then Some(marks[folder]) else None
  }

  /** `folder_changed(session, root_path, folder)`. */
  predicate NeedsScan(marks: map<string, real>, t: Tree, folder: string)
  {
    FolderChanged(LastMark(marks, folder), CurrentMtime(t, folder))
  }

  /** The files `os.walk(root/folder)` visits; nothing for a name that is not a directory. */
  function FolderFiles(t: Tree, folder: string): seq<Path>
  {
    if folder in t.folders then WalkFiles(t.folders[folder].walk) else []
  }

  /** One `batch_thumbs(all_media_files, root_path)` call: the list it was given, and what it did. */
  datatype BatchCall = BatchCall(files: seq<Path>, outcome: BatchOutcome)

  /**
   * Where a pass stands: the session's pending tables, `all_media_files`, the batch
   * calls made so far, and whether a batch raised (which ends the pass).
   */
  datatype PassState = PassState(tables: Tables, media: seq<Path>, calls: seq<BatchCall>, aborted: bool)

  /**
   * The cache directory and the failing renders as each `batch_thumbs` call of a pass meets
   * them, indexed by the number of calls made before it: the cache can turn unwritable, and a
   * render can fail in one call and succeed when the cumulative list sends it again.
   */
  type BatchEnvs = nat -> ThumbEnv

  function Start(db: Tables): PassState
  {
    PassState(db, [], [], false)
  }

  /** One iteration of the folder loop. */
  function FolderStep(st: PassState, root: Path, t: Tree, envs: BatchEnvs, folder: string): PassState
  {
    if st.aborted || !NeedsScan(st.tables.marks, t, folder) then st
    else
      var files := FolderFiles(t, folder);
      var rows := WithoutFolder(st.tables.files, folder) + NewRecords(files, folder, t.stats, IMAGE_EXT);
      var media := st.media + MediaOf(files);
      var b := Batch(media, root, envs(|st.calls|));
      var calls := st.calls + [BatchCall(media, b)];
      if b.Raised? then PassState(st.tables.(files := rows), media, calls, true)
      else PassState(Tables(rows, st.tables.marks[folder := t.folders[folder].mtime]), media, calls, false)
  }

  /** The folder loop over some folders, in order. */
  function PassFold(st: PassState, root: Path, t: Tree, envs: BatchEnvs, folders: seq<string>): PassState
  {
    if folders == [] then st
    else FolderStep(PassFold(st, root, t, envs, folders[..|folders| - 1]), root, t, envs, folders[|folders| - 1])
  }

  /** A whole pass from the committed tables over the visible top-level folders. */
  function Pass(db: Tables, root: Path, t: Tree, envs: BatchEnvs): PassState
  {
    PassFold(Start(db), root, t, envs, TopLevelFolders(t))
  }

  datatype ScanOutcome =
    | Committed      // the pass ran to its end and the commit went through
    | Aborted        // a batch raised: the session is closed without a commit
    | CommitRaised   // the commit broke the UNIQUE constraint on `file_path`

  /** What a scan leaves in the database, given the pass and the tables it started from. */
  function Outcome(r: PassState): ScanOutcome
  {
    if r.aborted then Aborted
    else if UniquePaths(r.tables.files) then Committed
    else CommitRaised
  }

  lemma {:induction false} PassFoldSnoc(st: PassState, root: Path, t: Tree, envs: BatchEnvs, folders: seq<string>, k: nat)
    requires k < |folders|
    ensures PassFold(st, root, t, envs, folders[..k + 1])
         == FolderStep(PassFold(st, root, t, envs, folders[..k]), root, t, envs, folders[k])
  {
    SlicePrefix(folders, k);
  }

  /** Once a batch raised, the remaining folders change nothing. */
  lemma {:induction false} AbortedPrefix(st: PassState, root: Path, t: Tree, envs: BatchEnvs, a: seq<string>, b: seq<string>)
    requires PassFold(st, root, t, envs, a).aborted
    ensures PassFold(st, root, t, envs, a + b) == PassFold(st, root, t, envs, a)
    decreases |b|
  {
    if b == [] {
      AppendEmpty(a);
    } else {
      var b' := b[..|b| - 1];
      assert (a + b)[..|a + b| - 1] == a + b';
      AbortedPrefix(st, root, t, envs, a, b');
    }
  }

  /**
   * One folder of `_scan`: the change test, the bulk delete, the walk, the batch over the
   * whole candidate list, then the watermark. `aborted` is set when `batch_thumbs` raised.
   */
  method ScanFolder(s: Session, root: Path, t: Tree, envs: BatchEnvs, folder: string,
                    media: seq<Path>, calls: seq<BatchCall>)
    returns (media': seq<Path>, calls': seq<BatchCall>, aborted: bool)
    modifies s
    ensures FolderStep(PassState(old(s.view), media, calls, false), root, t, envs, folder)
         == PassState(s.view, media', calls', aborted)
    ensures s.saved == old(s.saved) && s.closed == old(s.closed)
  {
    media', calls', aborted := media, calls, false;
    var changed := FolderChanged(s.Watermark(folder), CurrentMtime(t, folder));
    if !changed {
      return;
    }
    s.DeleteFolderRows(folder);
    var found := WalkFolder(s, t.folders[folder].walk, folder, t.stats, IMAGE_EXT);
    media' := media + found;
    var outcome := BatchThumbs(media', root, envs(|calls|));
    calls' := calls + [BatchCall(media', outcome)];
    if outcome.Raised? {
      aborted := true;
      return;
    }
    s.MergeMark(folder, t.folders[folder].mtime);
  }

  /**
   * `_scan`: the folder loop, then one commit, and the session closed on every path
   * (`finally`). The result says whether the database took the pass, and which batch
   * calls were made.
   */
  method Scan(s: Session, root: Path, t: Tree, envs: BatchEnvs) returns (outcome: ScanOutcome, calls: seq<BatchCall>)
    requires s.Valid()
    modifies s
    ensures var r := Pass(old(s.view), root, t, envs);
      && outcome == Outcome(r)
      && calls == r.calls
      && s.saved == (if outcome == Committed then r.tables else old(s.saved))
    ensures s.Valid() && s.closed && s.view == s.saved
  {
    ghost var db := s.view;
    var dirs := TopLevelFolders(t);
    var media: seq<Path> := [];
    calls := [];
    var i := 0;
    while i < |dirs|
      invariant 0 <= i <= |dirs|
      invariant PassFold(Start(db), root, t, envs, dirs[..i]) == PassState(s.view, media, calls, false)
      invariant s.saved == old(s.saved) && s.Valid()
    {
      var aborted;
      PassFoldSnoc(Start(db), root, t, envs, dirs, i);
      media, calls, aborted := ScanFolder(s, root, t, envs, dirs[i], media, calls);
      if aborted {
        AbortedPrefix(Start(db), root, t, envs, dirs[..i + 1], dirs[i + 1..]);
        assert dirs[..i + 1] + dirs[i + 1..] == dirs;
        s.Close();
        return Aborted, calls;
      }
      i := i + 1;
    }
    SliceAll(dirs);
    var ok := s.Commit();
    s.Close();
    outcome := if ok then Committed else CommitRaised;
  }
}
