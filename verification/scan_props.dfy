/**
 * What a pass of the canonical scanner guarantees: per folder, over a whole pass, across
 * two passes, and for the commit at the end.
 */
module ScanProps {
  import opened Wrappers
  import opened Paths
  import opened MediaTypes
  import opened ChangeDetector
  import opened Store
  import opened MediaTree
  import opened Extractor
  import opened ThumbBatch
  import opened Scanner

  /** A folder the change test rejects: no row, candidate, batch or watermark changes. */
  lemma SkippedFolderUntouched(st: PassState, root: Path, t: Tree, envs: BatchEnvs, folder: string)
    requires !NeedsScan(st.tables.marks, t, folder)
    ensures FolderStep(st, root, t, envs, folder) == st
  {
  }

  lemma {:induction false} RowsOfOwnRecords(recs: seq<FileRecord>, folder: string, g: string)
    requires forall x :: x in recs ==> x.rootFolder == folder
    ensures RowsOf(recs, g) == if g == folder then recs else []
  {
    if recs != [] {
      var init := recs[..|recs| - 1];
      assert recs == init + [recs[|recs| - 1]];
      RowsOfOwnRecords(init, folder, g);
    }
  }

  /**
   * A rescanned folder: its rows become exactly the records of its walk, every other
   * folder's rows stay as they were, the candidates of its walk are appended, the whole
   * list goes to one batch, and the watermark moves to the folder's mtime unless the
   * batch raised.
   */
  lemma ChangedFolderStep(st: PassState, root: Path, t: Tree, envs: BatchEnvs, folder: string)
    requires !st.aborted && NeedsScan(st.tables.marks, t, folder)
    ensures var r := FolderStep(st, root, t, envs, folder);
      var files := FolderFiles(t, folder);
      && r.media == st.media + MediaOf(files)
      && r.calls == st.calls + [BatchCall(r.media, Batch(r.media, root, envs(|st.calls|)))]
      && (r.aborted <==> Batch(r.media, root, envs(|st.calls|)).Raised?)
      && (forall g :: RowsOf(r.tables.files, g)
                      == if g == folder then NewRecords(files, folder, t.stats, IMAGE_EXT) else RowsOf(st.tables.files, g))
      && r.tables.marks == if r.aborted then st.tables.marks else st.tables.marks[folder := t.folders[folder].mtime]
  {
    var files := FolderFiles(t, folder);
    var kept := WithoutFolder(st.tables.files, folder);
    var added := NewRecords(files, folder, t.stats, IMAGE_EXT);
    forall g ensures RowsOf(kept + added, g)
                     == if g == folder then added else RowsOf(st.tables.files, g)
    {
      RowsOfAppend(kept, added, g);
      RowsOfWithoutFolder(st.tables.files, folder, g);
      RowsOfOwnRecords(added, folder, g);
    }
  }

  /** Whether a pass over `folders`, starting from the watermarks `marks`, rescans `g`. */
  predicate Rescanned(marks: map<string, real>, t: Tree, folders: seq<string>, g: string)
  {
    g in folders && NeedsScan(marks, t, g)
  }

  /**
   * A pass that did not raise, over distinct folders: each rescanned folder holds exactly
   * the records of its walk and has its mtime as watermark; every other folder keeps its
   * rows and its watermark.
   */
  lemma {:induction false} PassResult(st: PassState, root: Path, t: Tree, envs: BatchEnvs, folders: seq<string>)
    requires !st.aborted && Distinct(folders) && !PassFold(st, root, t, envs, folders).aborted
    ensures var r := PassFold(st, root, t, envs, folders);
      forall g ::
        && RowsOf(r.tables.files, g)
           == (if Rescanned(st.tables.marks, t, folders, g) then NewRecords(FolderFiles(t, g), g, t.stats, IMAGE_EXT)
               else RowsOf(st.tables.files, g))
        && LastMark(r.tables.marks, g)
           == (if Rescanned(st.tables.marks, t, folders, g) then CurrentMtime(t, g) else LastMark(st.tables.marks, g))
  {
    if folders != [] {
      var init := folders[..|folders| - 1];
      var f := folders[|folders| - 1];
      assert folders == init + [f];
      var r' := PassFold(st, root, t, envs, init);
      assert !r'.aborted;
      PassResult(st, root, t, envs, init);
      assert f !in init;
      assert LastMark(r'.tables.marks, f) == LastMark(st.tables.marks, f);
      assert NeedsScan(r'.tables.marks, t, f) == NeedsScan(st.tables.marks, t, f);
      if NeedsScan(r'.tables.marks, t, f) {
        ChangedFolderStep(r', root, t, envs, f);
      }
      forall g ensures Rescanned(st.tables.marks, t, folders, g)
                       == (Rescanned(st.tables.marks, t, init, g) || (g == f && NeedsScan(st.tables.marks, t, f)))
      {
        assert g in folders <==> g in init || g == f;
      }
    }
  }

  lemma {:induction false} NothingToRescan(st: PassState, root: Path, t: Tree, envs: BatchEnvs, folders: seq<string>)
    requires forall g :: g in folders ==> !NeedsScan(st.tables.marks, t, g)
    ensures PassFold(st, root, t, envs, folders) == st
  {
    if folders != [] {
      NothingToRescan(st, root, t, envs, folders[..|folders| - 1]);
      assert folders[|folders| - 1] in folders;
    }
  }

  /**
   * Rescanning is idempotent: on an unchanged tree, a pass from the tables a finished pass
   * left behind deletes nothing, adds nothing, makes no batch call and moves no watermark.
   */
  lemma SecondPassIsNoOp(db: Tables, root: Path, t: Tree, envs: BatchEnvs)
    requires WellFormed(root, t) && !Pass(db, root, t, envs).aborted
    ensures var again := Pass(Pass(db, root, t, envs).tables, root, t, envs);
      again == Start(Pass(db, root, t, envs).tables)
  {
    var folders := TopLevelFolders(t);
    VisibleDistinct(t.listing, t.folders);
    PassResult(Start(db), root, t, envs, folders);
    var r := Pass(db, root, t, envs);
    forall g | g in folders ensures !NeedsScan(r.tables.marks, t, g) {
      if Rescanned(db.marks, t, folders, g) {
        FreshWatermarkIsUnchanged(t.folders[g].mtime);
      }
    }
    NothingToRescan(Start(r.tables), root, t, envs, folders);
  }

  /** Every row lies under the directory of its own top-level folder, as the scanner writes it. */
  predicate RowsUnder(root: Path, rows: seq<FileRecord>)
  {
    forall x :: x in rows ==> IsPrefix(root + [x.rootFolder], x.path)
  }

  lemma FolderStepKeepsUnique(st: PassState, root: Path, t: Tree, envs: BatchEnvs, folder: string)
    requires WellFormed(root, t) && RowsUnder(root, st.tables.files) && UniquePaths(st.tables.files)
    ensures var r := FolderStep(st, root, t, envs, folder);
      RowsUnder(root, r.tables.files) && UniquePaths(r.tables.files)
  {
    if !st.aborted && NeedsScan(st.tables.marks, t, folder) {
      var base := root + [folder];
      var walk := t.folders[folder].walk;
      var files := FolderFiles(t, folder);
      WalkFilesDistinct(base, walk);
      WalkFilesUnder(walk, base);
      NewRecordsUnique(files, folder, t.stats, IMAGE_EXT);
      WithoutFolderUnique(st.tables.files, folder);
      var kept := WithoutFolder(st.tables.files, folder);
      var added := NewRecords(files, folder, t.stats, IMAGE_EXT);
      forall x, y | x in kept && y in added ensures x.path != y.path {
        assert x.path[|root|] == (root + [x.rootFolder])[|root|];
        assert y.path[|root|] == base[|root|];
      }
      UniqueAppend(kept, added);
    }
  }

  lemma {:induction false} PassKeepsUnique(st: PassState, root: Path, t: Tree, envs: BatchEnvs, folders: seq<string>)
    requires WellFormed(root, t) && RowsUnder(root, st.tables.files) && UniquePaths(st.tables.files)
    ensures var r := PassFold(st, root, t, envs, folders);
      RowsUnder(root, r.tables.files) && UniquePaths(r.tables.files)
  {
    if folders != [] {
      var init := folders[..|folders| - 1];
      PassKeepsUnique(st, root, t, envs, init);
      FolderStepKeepsUnique(PassFold(st, root, t, envs, init), root, t, envs, folders[|folders| - 1]);
    }
  }

  /**
   * The commit cannot raise for a database whose rows the scanner wrote under the same
   * root: the pass either aborts in a batch or commits, and its rows stay under the root.
   */
  lemma CommitNeverRaises(db: Tables, root: Path, t: Tree, envs: BatchEnvs)
    requires WellFormed(root, t) && RowsUnder(root, db.files) && UniquePaths(db.files)
    ensures Outcome(Pass(db, root, t, envs)) != CommitRaised
    ensures RowsUnder(root, Pass(db, root, t, envs).tables.files)
  {
    PassKeepsUnique(Start(db), root, t, envs, TopLevelFolders(t));
  }

  /**
   * The candidate list only grows, and each batch is given the whole list as it stood:
   * every call's list is a prefix of every later call's list and of the current list.
   */
  predicate Cumulative(calls: seq<BatchCall>, media: seq<Path>)
  {
    && (forall i :: 0 <= i < |calls| ==> calls[i].files <= media)
    && (forall i, j :: 0 <= i < j < |calls| ==> calls[i].files <= calls[j].files)
  }

  lemma FolderStepCumulative(st: PassState, root: Path, t: Tree, envs: BatchEnvs, folder: string)
    requires Cumulative(st.calls, st.media)
    ensures var r := FolderStep(st, root, t, envs, folder);
      && st.media <= r.media && st.calls <= r.calls && Cumulative(r.calls, r.media)
      && (|r.calls| > |st.calls| ==> r.calls[|r.calls| - 1].files == r.media)
  {
    if !st.aborted && NeedsScan(st.tables.marks, t, folder) {
      ChangedFolderStep(st, root, t, envs, folder);
    }
  }

  lemma {:induction false} PassCumulative(st: PassState, root: Path, t: Tree, envs: BatchEnvs, folders: seq<string>)
    requires Cumulative(st.calls, st.media)
    ensures var r := PassFold(st, root, t, envs, folders);
      st.media <= r.media && st.calls <= r.calls && Cumulative(r.calls, r.media)
  {
    if folders != [] {
      var init := folders[..|folders| - 1];
      PassCumulative(st, root, t, envs, init);
      FolderStepCumulative(PassFold(st, root, t, envs, init), root, t, envs, folders[|folders| - 1]);
    }
  }

  /** The files of the rescanned folders, in folder order. */
  function ScannedFiles(marks: map<string, real>, t: Tree, folders: seq<string>): seq<Path>
  {
    if folders == [] then []
    else
      var f := folders[|folders| - 1];
      ScannedFiles(marks, t, folders[..|folders| - 1]) + (if NeedsScan(marks, t, f) then FolderFiles(t, f) else [])
  }

  /**
   * At the end of a pass that did not raise, the candidate list holds the media files of
   * every rescanned folder, in walk order, whether or not their records could be built.
   */
  lemma {:induction false} PassCandidates(st: PassState, root: Path, t: Tree, envs: BatchEnvs, folders: seq<string>)
    requires !st.aborted && Distinct(folders) && !PassFold(st, root, t, envs, folders).aborted
    ensures PassFold(st, root, t, envs, folders).media == st.media + MediaOf(ScannedFiles(st.tables.marks, t, folders))
  {
    if folders == [] {
      AppendEmpty(st.media);
    } else {
      var init := folders[..|folders| - 1];
      var f := folders[|folders| - 1];
      assert folders == init + [f];
      var r' := PassFold(st, root, t, envs, init);
      assert !r'.aborted;
      PassCandidates(st, root, t, envs, init);
      PassResult(st, root, t, envs, init);
      assert f !in init;
      var before := ScannedFiles(st.tables.marks, t, init);
      if NeedsScan(st.tables.marks, t, f) {
        ChangedFolderStep(r', root, t, envs, f);
        MediaOfAppend(before, FolderFiles(t, f));
        AppendAssoc(st.media, MediaOf(before), MediaOf(FolderFiles(t, f)));
      } else {
        AppendEmpty(before);
      }
    }
  }
}
