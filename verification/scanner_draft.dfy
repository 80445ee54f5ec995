/**
 * The earlier scanner draft (`service/scanner.py`): the same folder loop and per-file
 * records, with ".jpe" missing from its image extensions, no thumbnail work, and no
 * `finally`: the session is closed only after a commit that did not raise.
 */
module ScannerDraft {
  import opened Wrappers
  import opened Paths
  import opened MediaTypes
  import opened Store
  import opened MediaTree
  import opened Extractor
  import opened ThumbBatch
  import opened FolderWalk
  import opened Scanner

  /** One iteration of the draft's folder loop: replace the folder's rows, then its watermark. */
  function DraftStep(tables: Tables, t: Tree, folder: string): Tables
  {
    if !NeedsScan(tables.marks, t, folder) then tables
    else
      var rows := WithoutFolder(tables.files, folder) + NewRecords(FolderFiles(t, folder), folder, t.stats, DRAFT_IMAGE_EXT);
      Tables(rows, tables.marks[folder := t.folders[folder].mtime])
  }

  function DraftFold(tables: Tables, t: Tree, folders: seq<string>): Tables
  {
    if folders == [] then tables
    else DraftStep(DraftFold(tables, t, folders[..|folders| - 1]), t, folders[|folders| - 1])
  }

  /** The draft's pending tables at the end of its folder loop. */
  function DraftPass(db: Tables, t: Tree): Tables
  {
    DraftFold(db, t, TopLevelFolders(t))
  }

  /** The draft's folder loop body. Its walk is the shared one, whose candidate list it ignores. */
  method DraftScanFolder(s: Session, t: Tree, folder: string)
    modifies s
    ensures s.view == DraftStep(old(s.view), t, folder)
    ensures s.saved == old(s.saved) && s.closed == old(s.closed)
  {
    if !NeedsScan(s.view.marks, t, folder) {
      return;
    }
    s.DeleteFolderRows(folder);
    var _ := WalkFolder(s, t.folders[folder].walk, folder, t.stats, DRAFT_IMAGE_EXT);
    s.MergeMark(folder, t.folders[folder].mtime);
  }

  /**
   * The draft `_scan`. A commit that raises leaves the session open, rolled back to the
   * saved tables; otherwise the session is committed and closed.
   */
  method DraftScan(s: Session, t: Tree) returns (committed: bool)
    requires s.Valid()
    modifies s
    ensures committed <==> UniquePaths(DraftPass(old(s.view), t).files)
    ensures s.saved == (if committed then DraftPass(old(s.view), t) else old(s.saved))
    ensures s.closed <==> committed || old(s.closed)
    ensures s.view == s.saved
    ensures s.Valid()
  {
    ghost var db := s.view;
    var dirs := TopLevelFolders(t);
    var i := 0;
    while i < |dirs|
      invariant 0 <= i <= |dirs|
      invariant s.view == DraftFold(db, t, dirs[..i])
      invariant s.saved == old(s.saved) && s.closed == old(s.closed) && s.Valid()
    {
      SlicePrefix(dirs, i);
      DraftScanFolder(s, t, dirs[i]);
      i := i + 1;
    }
    SliceAll(dirs);
    assert s.view == DraftPass(db, t);
    committed := s.Commit();
    if committed {
      s.Close();
    }
  }

  /** Where the two extension sets differ: a ".jpe" file is an image for one, other for the draft. */
  lemma JpeClassification(p: Path, folder: string, info: FileInfo)
    requires ExtOf(Name(p)) == ".jpe"
    ensures MakeRecord(p, folder, info, IMAGE_EXT).fileType == Image
    ensures MakeRecord(p, folder, info, DRAFT_IMAGE_EXT).fileType == Other
  {
  }

  /** A file whose extension is not ".jpe" gets the same record from both scanners. */
  lemma SameRecordWithoutJpe(p: Path, folder: string, stats: map<Path, FileInfo>)
    requires ExtOf(Name(p)) != ".jpe"
    ensures ProcessFile(p, folder, stats, IMAGE_EXT) == ProcessFile(p, folder, stats, DRAFT_IMAGE_EXT)
  {
    DraftOmitsOnlyJpe();
    assert Classify(ExtOf(Name(p)), IMAGE_EXT) == Classify(ExtOf(Name(p)), DRAFT_IMAGE_EXT);
  }

  lemma {:induction false} SameRecordsWithoutJpe(files: seq<Path>, folder: string, stats: map<Path, FileInfo>)
    requires forall p :: p in files ==> ExtOf(Name(p)) != ".jpe"
    ensures NewRecords(files, folder, stats, IMAGE_EXT) == NewRecords(files, folder, stats, DRAFT_IMAGE_EXT)
  {
    if files != [] {
      var init := files[..|files| - 1];
      var p := files[|files| - 1];
      assert p in files;
      assert forall q :: q in init ==> q in files;
      SameRecordsWithoutJpe(init, folder, stats);
      SameRecordWithoutJpe(p, folder, stats);
    }
  }

  /** No file any folder of the tree walks to has the extension ".jpe". */
  predicate NoJpe(t: Tree)
  {
    forall f, p :: f in t.folders && p in WalkFiles(t.folders[f].walk) ==> ExtOf(Name(p)) != ".jpe"
  }

  /**
   * Without ".jpe" files, and when no batch raises, the canonical pass leaves the very
   * tables the draft leaves: the thumbnail work never touches the database.
   */
  lemma {:induction false} DraftMatchesCanonical(st: PassState, root: Path, t: Tree, envs: BatchEnvs, folders: seq<string>)
    requires NoJpe(t) && !st.aborted && !PassFold(st, root, t, envs, folders).aborted
    ensures PassFold(st, root, t, envs, folders).tables == DraftFold(st.tables, t, folders)
  {
    if folders != [] {
      var init := folders[..|folders| - 1];
      var f := folders[|folders| - 1];
      var r' := PassFold(st, root, t, envs, init);
      assert !r'.aborted;
      DraftMatchesCanonical(st, root, t, envs, init);
      if NeedsScan(r'.tables.marks, t, f) {
        SameRecordsWithoutJpe(FolderFiles(t, f), f, t.stats);
      }
    }
  }

  lemma DraftPassMatchesCanonical(db: Tables, root: Path, t: Tree, envs: BatchEnvs)
    requires NoJpe(t) && !Pass(db, root, t, envs).aborted
    ensures Pass(db, root, t, envs).tables == DraftPass(db, t)
  {
    DraftMatchesCanonical(Start(db), root, t, envs, TopLevelFolders(t));
  }
}
