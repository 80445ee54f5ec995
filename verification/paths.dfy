/**
 * Paths and file names as the source manipulates them through `os.path` and `pathlib`.
 *
 * A path is the sequence of its components below the filesystem root, so `[]` is "/"
 * and `["media", "trip", "a.jpg"]` is "/media/trip/a.jpg".  Comparisons are purely
 * lexical, as `PurePath.relative_to` and `PurePath.parents` are.
 */
module Paths {
  import opened Wrappers

  type Path = seq<string>

  /** `PurePath.name`: the last component, or "" for the root itself. */
  function Name(p: Path): string
  {
    if p == [] then "" else p[|p| - 1]
  }

  /** `name.startswith('.')`: hidden entries are never scanned or listed. */
  predicate Hidden(name: string)
  {
    |name| > 0 && name[0] == '.'
  }

  predicate IsPrefix(base: Path, p: Path)
  {
    |base| <= |p| && p[..|base|] == base
  }

  /** `PurePath.relative_to(base)`: the rest of `p` below `base`, or the ValueError it raises. */
  function RelativeTo(p: Path, base: Path): (r: Option<Path>)
    ensures r.Some? <==> IsPrefix(base, p)
    ensures r.Some? ==> base + r.value == p
  {
    if IsPrefix(base, p) then Some(p[|base|..]) else None
  }

  /** `PurePath.parents` of an absolute path: every proper ancestor, down to "/". */
  function Parents(p: Path): (ps: set<Path>)
    ensures forall q :: q in ps <==> IsPrefix(q, p) && q != p
  {
    var ps := set k | 0 <= k < |p| :: p[..k];
    assert forall q :: IsPrefix(q, p) && q != p ==> q == p[..|q|] && |q| < |p|;
    ps
  }

  // ---------------------------------------------------------------------------
  // Case folding

  /** `str.lower()` restricted to ASCII letters. */
  function LowerChar(c: char): (l: char)
    ensures 'A' <= c <= 'Z' ==> l as int == c as int + 32
    ensures !('A' <= c <= 'Z') ==> l == c
  {
    if 'A' <= c <= 'Z' then (c as int + 32) as char else c
  }

  function Lower(s: string): (r: string)
    ensures |r| == |s|
    ensures forall i :: 0 <= i < |s| ==> r[i] == LowerChar(s[i])
  {
    if s == [] then [] else [LowerChar(s[0])] + Lower(s[1..])
  }

  lemma LowerIdempotent(s: string)
    ensures Lower(Lower(s)) == Lower(s)
  {
  }

  // ---------------------------------------------------------------------------
  // Extensions: os.path.splitext and PurePath.suffix disagree on some names

  /** Index of the last '.' in `s`, or -1 (`str.rfind('.')`). */
  function LastDot(s: string): (i: int)
    ensures -1 <= i < |s|
    ensures i >= 0 ==> s[i] == '.'
    ensures forall k :: i < k < |s| ==> s[k] != '.'
  {
    if s == [] then -1
    else if s[|s| - 1] == '.' then |s| - 1
    else LastDot(s[..|s| - 1])
  }

  /**
   * `os.path.splitext` of a bare file name: the extension runs from the last dot,
   * unless every character before that dot is itself a dot (".bashrc" has none).
   */
  function SplitExt(name: string): (string, string)
  {
    var d := LastDot(name);
    if d > 0 && exists k :: 0 <= k < d && name[k] != '.' then
      (name[..d], name[d..])
    else
      (name, "")
  }

  /**
   * The two parts make up the name; an extension is one dot and what follows it, after
   * some character that is not a dot; no extension is found only when the name has no
   * dot or nothing but dots before its last one.
   */
  lemma SplitExtParts(name: string)
    ensures SplitExt(name).0 + SplitExt(name).1 == name
    ensures var (root, ext) := SplitExt(name);
      ext != [] ==> ext[0] == '.' && '.' !in ext[1..] && exists k :: 0 <= k < |root| && root[k] != '.'
    ensures SplitExt(name).1 == [] && '.' in name ==>
              forall k :: 0 <= k < LastDot(name) ==> name[k] == '.'
  {
  }

  /** The lowercased extension `os.path.splitext(file)[1].lower()` that the scanner classifies by. */
  function ExtOf(name: string): string
  {
    Lower(SplitExt(name).1)
  }

  /**
   * `PurePath.suffix` (Python up to 3.13): the text from the last dot, when that dot is
   * neither the first nor the last character of the name.
   */
  function Suffix(name: string): (r: string)
    ensures |r| <= |name| && name[|name| - |r|..] == r
    ensures r != [] ==> |r| >= 2 && r[0] == '.' && '.' !in r[1..] && |r| < |name|
  {
    var i := LastDot(name);
    if 0 < i < |name| - 1 then
      name[i..]
    else
      ""
  }

  /** `PurePath.stem`: the name without its suffix. */
  function Stem(name: string): (r: string)
    ensures r + Suffix(name) == name
  {
    name[..|name| - |Suffix(name)|]
  }

  /**
   * `PurePath.with_suffix(ext)`: the last component with its suffix replaced by `ext`.
   * pathlib raises on a path with an empty name, hence the precondition.
   */
  function WithSuffix(p: Path, ext: string): (r: Path)
    requires p != [] && Name(p) != ""
    ensures |r| == |p| && r[..|p| - 1] == p[..|p| - 1]
    ensures Name(r) == Stem(Name(p)) + ext
  {
    p[..|p| - 1] + [Stem(Name(p)) + ext]
  }

  /** A name with one dot-led extension of at least one character after a non-empty stem. */
  lemma SuffixOfStemAndExt(stem: string, ext: string)
    requires stem != [] && |ext| >= 2 && ext[0] == '.' && '.' !in ext[1..]
    ensures Suffix(stem + ext) == ext
    ensures Stem(stem + ext) == stem
  {
    var name := stem + ext;
    var i := LastDot(name);
    assert name[|stem|] == '.';
    assert i == |stem|;
    assert name[i..] == ext;
  }

  /**
   * Whenever `os.path.splitext` finds an extension longer than a bare dot, `PurePath.suffix`
   * finds the same one; they differ only on names such as "..jpg" or "a.".
   */
  lemma SplitExtAgreesWithSuffix(name: string)
    requires |SplitExt(name).1| >= 2
    ensures Suffix(name) == SplitExt(name).1
  {
    var d := LastDot(name);
    var ext := SplitExt(name).1;
    assert ext == name[d..];
  }

  /** The two disagree: "..jpg" has no extension for splitext but the suffix ".jpg" for pathlib. */
  lemma DotDotNameDisagrees()
    ensures SplitExt("..jpg").1 == ""
    ensures Suffix("..jpg") == ".jpg"
  {
    assert LastDot("..jpg") == 1 by {
      assert LastDot("..jpg"[..4]) == 1 by {
        assert "..jpg"[..4] == "..jp";
        assert LastDot("..jp"[..3]) == 1 by {
          assert "..jp"[..3] == "..j";
          assert LastDot("..j"[..2]) == 1 by { assert "..j"[..2] == ".."; }
        }
      }
    }
  }

  // ---------------------------------------------------------------------------
  // Path text: the string a path is stored and compared as

  predicate ValidName(c: string)
  {
    c != "" && c != "." && '/' !in c
  }

  /** "/c1/c2/.../cn" without the leading root for n = 0. */
  function Joined(p: Path): string
  {
    if p == [] then "" else Joined(p[..|p| - 1]) + "/" + Name(p)
  }

  /** `str(path)`: the text of an absolute POSIX path. */
  function PathText(p: Path): string
  {
    if p == [] then "/" else Joined(p)
  }

  /** `str.split('/')`. */
  function SplitSlash(s: string): (parts: seq<string>)
    ensures parts != []
  {
    if s == [] then [""]
    else
      var parts := SplitSlash(s[..|s| - 1]);
      if s[|s| - 1] == '/' then parts + [""]
      else parts[..|parts| - 1] + [parts[|parts| - 1] + [s[|s| - 1]]]
  }

  /** Drops the empty and "." parts that pathlib ignores. */
  function DropEmpty(parts: seq<string>): seq<string>
  {
    if parts == [] then []
    else (if parts[0] == "" || parts[0] == "." then [] else [parts[0]]) + DropEmpty(parts[1..])
  }

  /** `Path(s)` for the text of an absolute POSIX path: its components. */
  function ParsePath(s: string): Path
  {
    DropEmpty(SplitSlash(s))
  }

  lemma {:induction false} SplitSlashAppend(s: string, c: string)
    requires '/' !in c
    ensures SplitSlash(s + "/" + c) == SplitSlash(s) + [c]
    decreases |c|
  {
    if c == [] {
      assert (s + "/" + c)[..|s + "/" + c| - 1] == s;
    } else {
      var c' := c[..|c| - 1];
      var t := s + "/" + c;
      assert t[..|t| - 1] == s + "/" + c';
      assert t[|t| - 1] == c[|c| - 1];
      assert c[|c| - 1] in c;
      SplitSlashAppend(s, c');
      assert c' + [c[|c| - 1]] == c;
    }
  }

  lemma {:induction false} SplitJoined(p: Path)
    requires forall i :: 0 <= i < |p| ==> ValidName(p[i])
    ensures SplitSlash(Joined(p)) == [""] + p
  {
    if p != [] {
      var q := p[..|p| - 1];
      SplitJoined(q);
      SplitSlashAppend(Joined(q), Name(p));
      assert q + [Name(p)] == p;
    }
  }

  lemma {:induction false} DropEmptyValid(p: Path)
    requires forall i :: 0 <= i < |p| ==> ValidName(p[i])
    ensures DropEmpty(p) == p
  {
    if p != [] {
      DropEmptyValid(p[1..]);
    }
  }

  /** Parsing the text of a path gives the path back. */
  lemma ParsePathText(p: Path)
    requires forall i :: 0 <= i < |p| ==> ValidName(p[i])
    ensures ParsePath(PathText(p)) == p
  {
    if p == [] {
      assert SplitSlash("/") == ["", ""] by {
        assert "/"[..0] == "";
      }
    } else {
      SplitJoined(p);
      assert ([""] + p)[1..] == p;
      DropEmptyValid(p);
    }
  }

  /** Two paths of valid names are stored under the same text only when they are equal. */
  lemma PathTextInjective(p: Path, q: Path)
    requires forall i :: 0 <= i < |p| ==> ValidName(p[i])
    requires forall i :: 0 <= i < |q| ==> ValidName(q[i])
    requires PathText(p) == PathText(q)
    ensures p == q
  {
    ParsePathText(p);
    ParsePathText(q);
  }
}
