/**
 * The `files` and `folder_mtime` tables, and the database session that the scanner and
 * the request handlers change them through.
 *
 * The `files` table's primary key is an autoincrement id, so it is kept as a sequence in
 * id (insertion) order; `file_path` carries a UNIQUE constraint, which the database checks
 * when pending inserts are written, at the latest at commit.
 */
module Store {
  import opened Wrappers
  import opened Paths
  import opened MediaTypes

  /** One row of `files`. `file_name` is the full name, extension included. */
  datatype FileRecord = FileRecord(
    path: Path,
    rootFolder: string,
    fileName: string,
    fileType: FileType,
    fileSize: nat,
    md5Hash: string,
    width: Option<nat>,
    height: Option<nat>)

  /** The committed or pending contents of `files` (in id order) and `folder_mtime`. */
  datatype Tables = Tables(files: seq<FileRecord>, marks: map<string, real>)

  /** `filter(FileRecord.root_folder == folder)`, in id order. */
  function RowsOf(rows: seq<FileRecord>, folder: string): (r: seq<FileRecord>)
    ensures |r| <= |rows|
    ensures forall x :: x in r <==> x in rows && x.rootFolder == folder
  {
    if rows == [] then []
    else
      var init := RowsOf(rows[..|rows| - 1], folder);
      var last := rows[|rows| - 1];
      assert rows == rows[..|rows| - 1] + [last];
      if last.rootFolder == folder then init + [last] else init
  }

  /** What `query(...).filter(root_folder == folder).delete()` leaves behind. */
  function WithoutFolder(rows: seq<FileRecord>, folder: string): (r: seq<FileRecord>)
    ensures |r| <= |rows|
    ensures forall x :: x in r <==> x in rows && x.rootFolder != folder
  {
    if rows == [] then []
    else
      var init := WithoutFolder(rows[..|rows| - 1], folder);
      var last := rows[|rows| - 1];
      assert rows == rows[..|rows| - 1] + [last];
      if last.rootFolder != folder then init + [last] else init
  }

  /**
   * What `query(...).filter(file_path == text).delete()` leaves behind: the request's text
   * is compared with the stored text of each path.
   */
  function WithoutPath(rows: seq<FileRecord>, text: string): (r: seq<FileRecord>)
    ensures |r| <= |rows|
    ensures forall x :: x in r <==> x in rows && PathText(x.path) != text
  {
    if rows == [] then []
    else
      var init := WithoutPath(rows[..|rows| - 1], text);
      var last := rows[|rows| - 1];
      assert rows == rows[..|rows| - 1] + [last];
      if PathText(last.path) != text then init + [last] else init
  }

  /** The UNIQUE constraint on `file_path`. */
  predicate UniquePaths(rows: seq<FileRecord>)
  {
    forall i, j :: 0 <= i < j < |rows| ==> rows[i].path != rows[j].path
  }

  /** `query(...).filter(file_path == text).first()`: the earliest row stored under that text. */
  function FirstWithPath(rows: seq<FileRecord>, text: string): (r: Option<FileRecord>)
    ensures r.Some? <==> exists x :: x in rows && PathText(x.path) == text
    ensures r.Some? ==> r.value in rows && PathText(r.value.path) == text
  {
    if rows == [] then None
    else if PathText(rows[0].path) == text then Some(rows[0])
    else FirstWithPath(rows[1..], text)
  }

  /** The last row of a collision-free list collides with none before it. */
  lemma UniqueSplit(rows: seq<FileRecord>)
    requires UniquePaths(rows) && rows != []
    ensures UniquePaths(rows[..|rows| - 1])
    ensures forall x :: x in rows[..|rows| - 1] ==> x.path != rows[|rows| - 1].path
  {
  }

  lemma UniqueSnoc(a: seq<FileRecord>, y: FileRecord)
    requires UniquePaths(a)
    requires forall x :: x in a ==> x.path != y.path
    ensures UniquePaths(a + [y])
  {
    forall i, j | 0 <= i < j < |a + [y]| ensures (a + [y])[i].path != (a + [y])[j].path {
      if j == |a| {
        assert (a + [y])[i] in a;
      }
    }
  }

  /** A filter never creates a collision: the rows it keeps are a subsequence. */
  lemma {:induction false} WithoutFolderUnique(rows: seq<FileRecord>, folder: string)
    requires UniquePaths(rows)
    ensures UniquePaths(WithoutFolder(rows, folder))
  {
    if rows != [] {
      var init := rows[..|rows| - 1];
      UniqueSplit(rows);
      WithoutFolderUnique(init, folder);
      if rows[|rows| - 1].rootFolder != folder {
        UniqueSnoc(WithoutFolder(init, folder), rows[|rows| - 1]);
      }
    }
  }

  lemma {:induction false} WithoutPathUnique(rows: seq<FileRecord>, text: string)
    requires UniquePaths(rows)
    ensures UniquePaths(WithoutPath(rows, text))
  {
    if rows != [] {
      var init := rows[..|rows| - 1];
      UniqueSplit(rows);
      WithoutPathUnique(init, text);
      if PathText(rows[|rows| - 1].path) != text {
        UniqueSnoc(WithoutPath(init, text), rows[|rows| - 1]);
      }
    }
  }

  /** Two collision-free row lists whose paths do not meet stay collision-free together. */
  lemma UniqueAppend(a: seq<FileRecord>, b: seq<FileRecord>)
    requires UniquePaths(a) && UniquePaths(b)
    requires forall x, y :: x in a && y in b ==> x.path != y.path
    ensures UniquePaths(a + b)
  {
    forall i, j | 0 <= i < j < |a + b| ensures (a + b)[i].path != (a + b)[j].path {
      if i < |a| <= j {
        assert (a + b)[i] in a && (a + b)[j] in b;
      }
    }
  }

  /** Only the rows of the deleted folder are affected: every other folder reads the same. */
  lemma {:induction false} RowsOfWithoutFolder(rows: seq<FileRecord>, deleted: string, folder: string)
    ensures RowsOf(WithoutFolder(rows, deleted), folder)
         == if folder == deleted then [] else RowsOf(rows, folder)
  {
    if rows != [] {
      var init := rows[..|rows| - 1];
      var last := rows[|rows| - 1];
      RowsOfWithoutFolder(init, deleted, folder);
      if last.rootFolder != deleted {
        assert (WithoutFolder(init, deleted) + [last])[..|WithoutFolder(init, deleted)|]
            == WithoutFolder(init, deleted);
      }
    }
  }

  lemma {:induction false} RowsOfAppend(a: seq<FileRecord>, b: seq<FileRecord>, folder: string)
    ensures RowsOf(a + b, folder) == RowsOf(a, folder) + RowsOf(b, folder)
    decreases |b|
  {
    if b == [] {
      assert a + b == a;
    } else {
      var b' := b[..|b| - 1];
      assert (a + b)[..|a + b| - 1] == a + b';
      RowsOfAppend(a, b', folder);
    }
  }

  /**
   * A session: `view` is what its queries see, pending changes included; `saved` is
   * the committed database. Nothing reaches `saved` except through `Commit`.
   */
  class Session {
    var view: Tables
    var saved: Tables
    var closed: bool

    predicate Valid()
      reads this
    {
      UniquePaths(saved.files)
    }

    /** `session_factory()`: a fresh session on the committed database. */
    constructor Open(db: Tables)
      requires UniquePaths(db.files)
      ensures Valid() && view == db && saved == db && !closed
    {
      view := db;
      saved := db;
      closed := false;
    }

    /** `query(FolderMtime).filter(folder == folder).first()`, as `folder_changed` reads it. */
    function Watermark(folder: string): (m: Option<real>)
      reads this
      ensures m.Some? <==> folder in view.marks
      ensures m.Some? ==> m.value == view.marks[folder]
    {
      if folder in view.marks then Some(view.marks[folder]) else None
    }

    method DeleteFolderRows(folder: string)
      modifies this
      ensures view == old(view).(files := WithoutFolder(old(view.files), folder))
      ensures saved == old(saved) && closed == old(closed)
    {
      view := view.(files := WithoutFolder(view.files, folder));
    }

    method DeletePathRows(text: string)
      modifies this
      ensures view == old(view).(files := WithoutPath(old(view.files), text))
      ensures saved == old(saved) && closed == old(closed)
    {
      view := view.(files := WithoutPath(view.files, text));
    }

    /** `session.merge` of a record without an id: an insert, queued behind the others. */
    method AddRecord(r: FileRecord)
      modifies this
      ensures view == old(view).(files := old(view.files) + [r])
      ensures saved == old(saved) && closed == old(closed)
    {
      view := view.(files := view.files + [r]);
    }

    /** `session.merge(FolderMtime(...))`: the primary key is the folder, so an upsert. */
    method MergeMark(folder: string, mtime: real)
      modifies this
      ensures view == old(view).(marks := old(view.marks)[folder := mtime])
      ensures saved == old(saved) && closed == old(closed)
    {
      view := view.(marks := view.marks[folder := mtime]);
    }

    /**
     * `session.commit()`: the pending state becomes the database unless it breaks the
     * UNIQUE constraint on `file_path`, in which case it raises, nothing is written and
     * the failed flush rolls the session back, so its pending changes are gone too.
     */
    method Commit() returns (ok: bool)
      requires Valid()
      modifies this
      ensures Valid()
      ensures ok <==> UniquePaths(old(view.files))
      ensures saved == if ok then old(view) else old(saved)
      ensures view == saved && closed == old(closed)
    {
      ok := UniquePaths(view.files);
      if ok {
        saved := view;
      } else {
        view := saved;
      }
    }

    /** `session.close()`: whatever was not committed is discarded. */
    method Close()
      modifies this
      ensures view == saved && saved == old(saved) && closed
    {
      view := saved;
      closed := true;
    }
  }
}
