/**
 * The request handlers (`server/handlers.py`): listing the top-level folders and a
 * folder's records, one record's details, a file's content under the root, and moving a
 * file to the recycle bin. The filesystem facts a handler depends on are parameters.
 */
module Handlers {
  import opened Wrappers
  import opened Paths
  import opened MediaTypes
  import opened Store

  /** The error answers: 403, 404, the 500 raised for a failed move, and any other exception (500). */
  datatype Failure = Forbidden | NotFound | MoveFailed | Unhandled

  function Status(f: Failure): (code: int)
    ensures code in {403, 404, 500}
    ensures code == 403 <==> f == Forbidden
    ensures code == 404 <==> f == NotFound
    ensures code == 500 <==> f == MoveFailed || f == Unhandled
  {
    match f
    case Forbidden => 403
    case NotFound => 404
    case MoveFailed => 500
    case Unhandled => 500
  }

  // ---------------------------------------------------------------------------
  // list_files

  /** SQL text order (binary collation): lexicographic by code point, a prefix first. */
  predicate StrLe(a: string, b: string)
  {
    if a == [] then true
    else if b == [] then false
    else if a[0] != b[0] then a[0] < b[0]
    else StrLe(a[1..], b[1..])
  }

  lemma {:induction false} StrLeTotal(a: string, b: string)
    ensures StrLe(a, b) || StrLe(b, a)
  {
    if a != [] && b != [] && a[0] == b[0] {
      StrLeTotal(a[1..], b[1..]);
    }
  }

  lemma {:induction false} StrLeTrans(a: string, b: string, c: string)
    requires StrLe(a, b) && StrLe(b, c)
    ensures StrLe(a, c)
  {
    if a != [] && a[0] == b[0] && b[0] == c[0] {
      StrLeTrans(a[1..], b[1..], c[1..]);
    }
  }

  datatype SortKey = ByName | ByType | BySize | ByPath

  /** The `sort` parameter: "name", "type" and "size" pick that column, anything else the path. */
  function SortKeyOf(sort: string): (k: SortKey)
    ensures k == ByName <==> sort == "name"
    ensures k == ByType <==> sort == "type"
    ensures k == BySize <==> sort == "size"
    ensures k == ByPath <==> sort != "name" && sort != "type" && sort != "size"
  {
    if sort == "name" then ByName
    else if sort == "type" then ByType
    else if sort == "size" then BySize
    else ByPath
  }

  /** `ORDER BY <column> ASC` compares the stored column values. */
  predicate KeyLe(x: FileRecord, y: FileRecord, key: SortKey)
  {
    match key
    case ByName => StrLe(x.fileName, y.fileName)
    case ByType => StrLe(TypeName(x.fileType), TypeName(y.fileType))
    case BySize => x.fileSize <= y.fileSize
    case ByPath => StrLe(PathText(x.path), PathText(y.path))
  }

  /** `x` may come before `y`: ascending when `asc`, descending otherwise. */
  predicate InOrder(x: FileRecord, y: FileRecord, key: SortKey, asc: bool)
  {
    if asc then KeyLe(x, y, key) else KeyLe(y, x, key)
  }

  lemma InOrderTotal(x: FileRecord, y: FileRecord, key: SortKey, asc: bool)
    ensures InOrder(x, y, key, asc) || InOrder(y, x, key, asc)
  {
    match key
    case ByName => StrLeTotal(x.fileName, y.fileName);
    case ByType => StrLeTotal(TypeName(x.fileType), TypeName(y.fileType));
    case BySize =>
    case ByPath => StrLeTotal(PathText(x.path), PathText(y.path));
  }

  lemma InOrderTrans(x: FileRecord, y: FileRecord, z: FileRecord, key: SortKey, asc: bool)
    requires InOrder(x, y, key, asc) && InOrder(y, z, key, asc)
    ensures InOrder(x, z, key, asc)
  {
    match key
    case ByName =>
      if asc { StrLeTrans(x.fileName, y.fileName, z.fileName); } else { StrLeTrans(z.fileName, y.fileName, x.fileName); }
    case ByType =>
      var a, b, c := TypeName(x.fileType), TypeName(y.fileType), TypeName(z.fileType);
      if asc { StrLeTrans(a, b, c); } else { StrLeTrans(c, b, a); }
    case BySize =>
    case ByPath =>
      var a, b, c := PathText(x.path), PathText(y.path), PathText(z.path);
      if asc { StrLeTrans(a, b, c); } else { StrLeTrans(c, b, a); }
  }

  predicate Sorted(s: seq<FileRecord>, key: SortKey, asc: bool)
  {
    forall i, j :: 0 <= i < j < |s| ==> InOrder(s[i], s[j], key, asc)
  }

  /** Places `x` before the first row it may precede. */
  function Insert(x: FileRecord, s: seq<FileRecord>, key: SortKey, asc: bool): (r: seq<FileRecord>)
    ensures multiset(r) == multiset(s) + multiset{x}
  {
    if s == [] then [x]
    else if InOrder(x, s[0], key, asc) then [x] + s
    else
      assert s == [s[0]] + s[1..];
      [s[0]] + Insert(x, s[1..], key, asc)
  }

  /** Whatever `Insert` returns is `x` or a row of `s`. */
  lemma InsertMembers(x: FileRecord, s: seq<FileRecord>, key: SortKey, asc: bool, y: FileRecord)
    requires y in Insert(x, s, key, asc)
    ensures y == x || y in s
  {
    assert y in multiset(Insert(x, s, key, asc));
  }

  lemma {:induction false} InsertSorted(x: FileRecord, s: seq<FileRecord>, key: SortKey, asc: bool)
    requires Sorted(s, key, asc)
    ensures Sorted(Insert(x, s, key, asc), key, asc)
  {
    if s != [] {
      if InOrder(x, s[0], key, asc) {
        forall j | 0 < j < |s| ensures InOrder(x, s[j], key, asc) {
          InOrderTrans(x, s[0], s[j], key, asc);
        }
      } else {
        InOrderTotal(x, s[0], key, asc);
        InsertSorted(x, s[1..], key, asc);
        var rest := Insert(x, s[1..], key, asc);
        forall y | y in rest ensures InOrder(s[0], y, key, asc) {
          InsertMembers(x, s[1..], key, asc, y);
        }
      }
    }
  }

  /** An insertion sort: the rows in the order the query's ORDER BY asks for. */
  function SortRows(s: seq<FileRecord>, key: SortKey, asc: bool): (r: seq<FileRecord>)
    ensures multiset(r) == multiset(s)
  {
    if s == [] then []
    else
      assert s == [s[0]] + s[1..];
      Insert(s[0], SortRows(s[1..], key, asc), key, asc)
  }

  lemma {:induction false} SortRowsSorted(s: seq<FileRecord>, key: SortKey, asc: bool)
    ensures Sorted(SortRows(s, key, asc), key, asc)
  {
    if s != [] {
      SortRowsSorted(s[1..], key, asc);
      InsertSorted(s[0], SortRows(s[1..], key, asc), key, asc);
    }
  }

  /** `list_files(folder, sort, order)`: the folder's rows, ordered; "asc" is ascending, anything else descending. */
  function ListFiles(rows: seq<FileRecord>, folder: string, sort: string, order: string): seq<FileRecord>
  {
    SortRows(RowsOf(rows, folder), SortKeyOf(sort), order == "asc")
  }

  /**
   * The answer holds exactly the folder's rows, each as often as stored, sorted on the
   * requested column in the requested direction.
   */
  lemma ListFilesSpec(rows: seq<FileRecord>, folder: string, sort: string, order: string)
    ensures var r := ListFiles(rows, folder, sort, order);
      && multiset(r) == multiset(RowsOf(rows, folder))
      && (forall x :: x in r <==> x in rows && x.rootFolder == folder)
      && Sorted(r, SortKeyOf(sort), order == "asc")
  {
    var r := ListFiles(rows, folder, sort, order);
    SortRowsSorted(RowsOf(rows, folder), SortKeyOf(sort), order == "asc");
    forall x ensures x in r <==> x in RowsOf(rows, folder) {
      assert x in r <==> x in multiset(r);
    }
  }

  // ---------------------------------------------------------------------------
  // file_info and file_content

  /** `file_info(file_path)`: the first row stored under that text, or 404. */
  function FileInfo(rows: seq<FileRecord>, text: string): (r: Result<FileRecord, Failure>)
    ensures r.Ok? <==> exists x :: x in rows && PathText(x.path) == text
    ensures r.Ok? ==> r.value in rows && PathText(r.value.path) == text
    ensures r.Err? ==> r.error == NotFound
  {
    match FirstWithPath(rows, text)
    case None => Err(NotFound)
    case Some(x) => Ok(x)
  }

  /**
   * `file_content`: `abs` and `root` are the resolved request path and root. The root must
   * be the path itself or one of its parents (403 otherwise); then the path must be an
   * existing regular file (404 otherwise).
   */
  function FileContent(root: Path, abs: Path, regularFiles: set<Path>): (r: Result<Path, Failure>)
    ensures r == Err(Forbidden) <==> !IsPrefix(root, abs)
    ensures r == Err(NotFound) <==> IsPrefix(root, abs) && abs !in regularFiles
    ensures r.Ok? ==> r.value == abs && IsPrefix(root, abs) && abs in regularFiles
  {
    if root !in Parents(abs) && root != abs then Err(Forbidden)
    else if abs !in regularFiles then Err(NotFound)
    else Ok(abs)
  }

  // ---------------------------------------------------------------------------
  // delete_file

  /**
   * The destination of a file moved to the recycle bin: below `root/<recycle>/<first
   * segment>`, the parent of the rest, then the file's name. None where `relative_to`
   * raises (outside the root) or the path has no segment below the root.
   */
  function RecyclePath(root: Path, recycle: string, src: Path): Option<Path>
  {
    if !IsPrefix(root, src) || |src| == |root| then None
    else
      var first := src[|root|];
      var rel := src[|root| + 1..];
      var parent := if rel == [] then [] else rel[..|rel| - 1];
      Some(root + [recycle, first] + parent + [Name(src)])
  }

  /**
   * The destination mirrors the path below the root; a top-level folder itself lands in a
   * folder of its own name.
   */
  lemma RecyclePathMirrors(root: Path, recycle: string, src: Path)
    ensures RecyclePath(root, recycle, src).None? <==> !IsPrefix(root, src) || src == root
    ensures IsPrefix(root, src) && |src| >= |root| + 2 ==>
              RecyclePath(root, recycle, src) == Some(root + [recycle] + src[|root|..])
    ensures IsPrefix(root, src) && |src| == |root| + 1 ==>
              RecyclePath(root, recycle, src) == Some(root + [recycle, src[|root|], src[|root|]])
  {
    if IsPrefix(root, src) && |src| >= |root| + 2 {
      var first := src[|root|];
      var rel := src[|root| + 1..];
      var parent := rel[..|rel| - 1];
      assert Name(src) == rel[|rel| - 1];
      SliceSnoc(rel, |rel| - 1);
      SliceAll(rel);
      assert parent + [Name(src)] == rel;
      assert [first] + rel == src[|root|..];
      AppendAssoc(root + [recycle, first], parent, [Name(src)]);
      AppendAssoc(root, [recycle, first], rel);
      assert [recycle, first] + rel == [recycle] + ([first] + rel);
      AppendAssoc(root, [recycle], [first] + rel);
    } else if IsPrefix(root, src) && |src| == |root| + 1 {
      var first := src[|root|];
      assert Name(src) == first;
      assert src[|root| + 1..] == [];
      AppendEmpty(root + [recycle, first]);
      AppendAssoc(root, [recycle, first], [first]);
      assert [recycle, first] + [first] == [recycle, first, first];
    }
  }

  /** Deleting by the text of a path of valid names removes exactly the rows of that path. */
  lemma RemovesExactlyThatPath(rows: seq<FileRecord>, p: Path)
    requires forall i :: 0 <= i < |p| ==> ValidName(p[i])
    requires forall x, i :: x in rows && 0 <= i < |x.path| ==> ValidName(x.path[i])
    ensures forall x :: x in WithoutPath(rows, PathText(p)) <==> x in rows && x.path != p
  {
    forall x | x in rows && PathText(x.path) == PathText(p) ensures x.path == p {
      PathTextInjective(x.path, p);
    }
  }

  /** What the filesystem does during a deletion: `exists()`, the `mkdir` and `shutil.move`. */
  datatype DeleteEnv = DeleteEnv(srcExists: bool, mkdirOk: bool, moveOk: bool)

  datatype Deleted = RecordOnly | Recycled(dst: Path)

  /**
   * `delete_file(file_path)` on a fresh session. A warning is logged when the recycle bin
   * is not ready, and the deletion proceeds anyway. A missing file only loses its rows; an
   * existing one loses its rows only once it has been moved.
   */
  method DeleteFile(s: Session, root: Path, recycle: string, recycleReady: bool, text: string, env: DeleteEnv)
    returns (warned: bool, r: Result<Deleted, Failure>)
    requires s.Valid() && s.view == s.saved
    modifies s
    ensures warned == !recycleReady
    ensures var dst := RecyclePath(root, recycle, ParsePath(text));
      && (!env.srcExists ==> r == Ok(RecordOnly))
      && (env.srcExists && (dst.None? || !env.mkdirOk) ==> r == Err(Unhandled))
      && (env.srcExists && dst.Some? && env.mkdirOk && !env.moveOk ==> r == Err(MoveFailed))
      && (env.srcExists && dst.Some? && env.mkdirOk && env.moveOk ==> r == Ok(Recycled(dst.value)))
    ensures s.saved == if r.Ok? then old(s.saved).(files := WithoutPath(old(s.saved.files), text)) else old(s.saved)
    ensures s.Valid() && s.view == s.saved && s.closed == old(s.closed)
  {
    warned := !recycleReady;
    var src := ParsePath(text);
    if !env.srcExists {
      RemoveRows(s, text);
      return warned, Ok(RecordOnly);
    }
    var dst := RecyclePath(root, recycle, src);
    if dst.None? || !env.mkdirOk {
      return warned, Err(Unhandled);
    }
    if !env.moveOk {
      return warned, Err(MoveFailed);
    }
    RemoveRows(s, text);
    return warned, Ok(Recycled(dst.value));
  }

  /** The bulk delete on `file_path` and its commit, which cannot break the UNIQUE constraint. */
  method RemoveRows(s: Session, text: string)
    requires s.Valid() && s.view == s.saved
    modifies s
    ensures s.saved == old(s.saved).(files := WithoutPath(old(s.saved.files), text))
    ensures s.Valid() && s.view == s.saved && s.closed == old(s.closed)
  {
    s.DeletePathRows(text);
    WithoutPathUnique(old(s.saved.files), text);
    var ok := s.Commit();
  }
}
