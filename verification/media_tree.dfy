/**
 * The media root as the scanner sees it during one pass: the names `os.listdir` returns,
 * which of them are directories (with their mtime and their `os.walk`), and what
 * `os.stat`, the digest and the image probe return for each file.
 */
module MediaTree {
  import opened Wrappers
  import opened Paths

  /**
   * What the scanner learns about one file: `st_size`, `get_md5` (None when reading
   * fails) and `get_image_size` (None for `(None, None)`).
   */
  datatype FileInfo = FileInfo(size: nat, digest: Option<string>, dims: Option<(nat, nat)>)

  /** One `(dirpath, dirnames, filenames)` triple of `os.walk`, dirnames dropped. */
  datatype WalkStep = WalkStep(dir: Path, names: seq<string>)

  /** A top-level directory: its `st_mtime` and its walk, in the order `os.walk` yields it. */
  datatype Folder = Folder(mtime: real, walk: seq<WalkStep>)

  /**
   * `listing` is `os.listdir(root)`; `folders` holds the entries that are directories;
   * `stats` holds the files `os.stat` succeeds on (any other path raises).
   */
  datatype Tree = Tree(listing: seq<string>, folders: map<string, Folder>, stats: map<Path, FileInfo>)

  /** The paths of one walk step's files, `os.path.join(dirpath, file)` for each file in order. */
  function Under(dir: Path, names: seq<string>): (r: seq<Path>)
    ensures |r| == |names|
    ensures forall i :: 0 <= i < |names| ==> r[i] == dir + [names[i]]
  {
    if names == [] then [] else Under(dir, names[..|names| - 1]) + [dir + [names[|names| - 1]]]
  }

  /** Every file of a walk, in visiting order. */
  function WalkFiles(walk: seq<WalkStep>): seq<Path>
  {
    if walk == [] then []
    else WalkFiles(walk[..|walk| - 1]) + Under(walk[|walk| - 1].dir, walk[|walk| - 1].names)
  }

  lemma WalkFilesSnoc(walk: seq<WalkStep>, j: nat)
    requires j < |walk|
    ensures WalkFiles(walk[..j + 1]) == WalkFiles(walk[..j]) + Under(walk[j].dir, walk[j].names)
  {
    SlicePrefix(walk, j);
  }

  lemma {:induction false} WalkFilesUnder(walk: seq<WalkStep>, base: Path)
    requires forall k :: 0 <= k < |walk| ==> IsPrefix(base, walk[k].dir)
    ensures forall p :: p in WalkFiles(walk) ==> IsPrefix(base, p) && |p| > |base|
  {
    if walk != [] {
      WalkFilesUnder(walk[..|walk| - 1], base);
    }
  }

  /** The top-level folders a pass visits: directory entries whose name is not hidden. */
  function TopLevelFolders(t: Tree): (r: seq<string>)
    ensures |r| <= |t.listing|
    ensures forall n :: n in r <==> n in t.listing && n in t.folders && !Hidden(n)
  {
    Visible(t.listing, t.folders)
  }

  function Visible(names: seq<string>, dirs: map<string, Folder>): (r: seq<string>)
    ensures |r| <= |names|
    ensures forall n :: n in r <==> n in names && n in dirs && !Hidden(n)
  {
    if names == [] then []
    else
      var init := Visible(names[..|names| - 1], dirs);
      var n := names[|names| - 1];
      assert names == names[..|names| - 1] + [n];
      if n in dirs && !Hidden(n) then init + [n] else init
  }

  /** The filtered listing keeps the listing's order and drops nothing twice. */
  lemma {:induction false} VisibleDistinct(names: seq<string>, dirs: map<string, Folder>)
    requires Distinct(names)
    ensures Distinct(Visible(names, dirs))
  {
    if names != [] {
      var init := names[..|names| - 1];
      VisibleDistinct(init, dirs);
      assert names[|names| - 1] !in init;
      DistinctAppend(Visible(init, dirs), [names[|names| - 1]]);
    }
  }

  /**
   * The shape `os` guarantees: listed names are distinct, plain components; a folder's walk
   * stays below `root/folder`, visits each directory once and lists each name once.
   */
  predicate WellFormed(root: Path, t: Tree)
  {
    && Distinct(t.listing)
    && (forall n :: n in t.listing ==> ValidName(n))
    && (forall n :: n in t.folders ==> n in t.listing)
    && (forall n :: n in t.folders ==> WalkWellFormed(root + [n], t.folders[n].walk))
  }

  predicate WalkWellFormed(base: Path, walk: seq<WalkStep>)
  {
    && (forall k :: 0 <= k < |walk| ==> IsPrefix(base, walk[k].dir))
    && (forall k, l :: 0 <= k < l < |walk| ==> walk[k].dir != walk[l].dir)
    && (forall k :: 0 <= k < |walk| ==> Distinct(walk[k].names))
  }

  lemma {:induction false} UnderDistinct(dir: Path, names: seq<string>)
    requires Distinct(names)
    ensures Distinct(Under(dir, names))
  {
    var r := Under(dir, names);
    forall i, j | 0 <= i < j < |r| ensures r[i] != r[j] {
      assert r[i][|dir|] == names[i] && r[j][|dir|] == names[j];
    }
  }

  /** Walking a well-formed folder yields each file path once. */
  lemma {:induction false} WalkFilesDistinct(base: Path, walk: seq<WalkStep>)
    requires WalkWellFormed(base, walk)
    ensures Distinct(WalkFiles(walk))
  {
    if walk != [] {
      var init := walk[..|walk| - 1];
      var last := walk[|walk| - 1];
      assert WalkWellFormed(base, init);
      WalkFilesDistinct(base, init);
      WalkFilesDirs(init);
      UnderDistinct(last.dir, last.names);
      var a, b := WalkFiles(init), Under(last.dir, last.names);
      forall p | p in a ensures p !in b {
        var k :| 0 <= k < |init| && p[..|p| - 1] == init[k].dir;
        assert walk[k].dir != walk[|walk| - 1].dir;
      }
      DistinctAppend(a, b);
    }
  }

  /** Each walked file sits directly in one of the walked directories. */
  lemma {:induction false} WalkFilesDirs(walk: seq<WalkStep>)
    ensures forall p :: p in WalkFiles(walk) ==>
              p != [] && exists k :: 0 <= k < |walk| && p[..|p| - 1] == walk[k].dir
  {
    if walk != [] {
      var init := walk[..|walk| - 1];
      var last := walk[|walk| - 1];
      WalkFilesDirs(init);
      forall p | p in WalkFiles(walk)
        ensures p != [] && exists k :: 0 <= k < |walk| && p[..|p| - 1] == walk[k].dir
      {
        if p in WalkFiles(init) {
          var k :| 0 <= k < |init| && p[..|p| - 1] == init[k].dir;
          assert walk[k] == init[k];
        } else {
          var i :| 0 <= i < |last.names| && Under(last.dir, last.names)[i] == p;
          assert p[..|p| - 1] == walk[|walk| - 1].dir;
        }
      }
    }
  }
}
