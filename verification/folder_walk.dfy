/**
 * The walk over one changed top-level folder, shared by both scanners: each file of
 * `os.walk(root/folder)` goes through `_process_file`, and the canonical scanner also
 * collects the thumbnail candidates.
 */
module FolderWalk {
  import opened Wrappers
  import opened Paths
  import opened MediaTypes
  import opened Store
  import opened MediaTree
  import opened Extractor

  /** `_process_file(session, ...)`: queue the file's record, or log and queue nothing. */
  method ProcessFileInto(s: Session, path: Path, folder: string, stats: map<Path, FileInfo>, imageExt: set<string>)
    modifies s
    ensures s.view == old(s.view).(files := old(s.view.files) + OptionToSeq(ProcessFile(path, folder, stats, imageExt)))
    ensures s.saved == old(s.saved) && s.closed == old(s.closed)
  {
    if path in stats {
      var record := MakeRecord(path, folder, stats[path], imageExt);
      s.AddRecord(record);
    }
  }

  /**
   * The inner loop over the files of one `(dirpath, _, filenames)` triple, given as their
   * joined paths: each goes through `_process_file` and then the candidate test.
   */
  method ProcessPaths(s: Session, paths: seq<Path>, folder: string, stats: map<Path, FileInfo>, imageExt: set<string>)
    returns (found: seq<Path>)
    modifies s
    ensures s.view == old(s.view).(files := old(s.view.files) + NewRecords(paths, folder, stats, imageExt))
    ensures found == MediaOf(paths)
    ensures s.saved == old(s.saved) && s.closed == old(s.closed)
  {
    found := [];
    ghost var base := s.view.files;
    ghost var done: seq<Path> := [];
    var rest := paths;
    while rest != []
      invariant paths == done + rest
      invariant s.view.files == base + NewRecords(done, folder, stats, imageExt)
      invariant s.view.marks == old(s.view.marks)
      invariant found == MediaOf(done)
      invariant s.saved == old(s.saved) && s.closed == old(s.closed)
      decreases |rest|
    {
      var path := rest[0];
      NewRecordsSnoc(done, path, folder, stats, imageExt);
      MediaOfSnoc(done, path);
      ProcessFileInto(s, path, folder, stats, imageExt);
      AppendAssoc(base, NewRecords(done, folder, stats, imageExt), OptionToSeq(ProcessFile(path, folder, stats, imageExt)));
      if IsCandidate(path) {
        found := found + [path];
      }
      ShiftHead(done, rest);
      done := done + [path];
      rest := rest[1..];
    }
    AppendEmpty(done);
  }

  /**
   * The nested loop over `os.walk(root/folder)`: every file of every step, in order, is
   * processed; the records are queued on the session and the candidates returned.
   */
  method WalkFolder(s: Session, walk: seq<WalkStep>, folder: string, stats: map<Path, FileInfo>, imageExt: set<string>)
    returns (found: seq<Path>)
    modifies s
    ensures s.view == old(s.view).(files := old(s.view.files) + NewRecords(WalkFiles(walk), folder, stats, imageExt))
    ensures found == MediaOf(WalkFiles(walk))
    ensures s.saved == old(s.saved) && s.closed == old(s.closed)
  {
    found := [];
    ghost var base := s.view.files;
    var j := 0;
    while j < |walk|
      invariant 0 <= j <= |walk|
      invariant s.view.files == base + NewRecords(WalkFiles(walk[..j]), folder, stats, imageExt)
      invariant s.view.marks == old(s.view.marks)
      invariant found == MediaOf(WalkFiles(walk[..j]))
      invariant s.saved == old(s.saved)
      invariant s.closed == old(s.closed)
    {
      var next := Under(walk[j].dir, walk[j].names);
      WalkFilesSnoc(walk, j);
      ghost var done := WalkFiles(walk[..j]);
      NewRecordsAppend(done, next, folder, stats, imageExt);
      MediaOfAppend(done, next);
      AppendAssoc(base, NewRecords(done, folder, stats, imageExt), NewRecords(next, folder, stats, imageExt));
      var more := ProcessPaths(s, next, folder, stats, imageExt);
      found := found + more;
      j := j + 1;
    }
    SliceAll(walk);
  }
}
