/** The host filesystem as a value.  A `Tree` maps the paths of regular files to
    their contents and records the directories that were created explicitly; a
    directory also exists implicitly above every entry, and the root always
    exists.  The same type describes a subtree (paths relative to its top) and the
    contents of an archive.  The machine's filesystem, which the Python code
    changes in place through `shutil`, `tarfile` and `open`, is the `fs` field of
    a `Host` object. */
module FileTree {

  import opened Results
  import opened PathLib

  /** What a regular file holds: text, or a gzip-compressed tar archive whose
      entries form a tree of their own. */
  datatype Blob = Text(chars: string) | Packed(entries: Tree)

  datatype Tree = Tree(files: map<Path, Blob>, dirs: set<Path>)

  /** The state of the filesystem after an operation that may stop half-way,
      together with what the operation returned or raised. */
  datatype Outcome<+T> = Outcome(fs: Tree, result: Result<T>)

  /** `step` applied to each item in order, stopping at the first that raises: a
      `for` loop over `items` whose body may raise. */
  function Chain(fs: Tree, items: seq<string>, step: (Tree, string) -> Outcome<()>): Outcome<()>
    decreases |items|
  {
    if items == [] then Outcome(fs, Ok(()))
    else
      var before := Chain(fs, items[..|items| - 1], step);
      if before.result.Err? then before else step(before.fs, items[|items| - 1])
  }

  /** Once an item raises, the later items do nothing. */
  lemma {:induction false} ChainStops(fs: Tree, items: seq<string>, step: (Tree, string) -> Outcome<()>, j: nat)
    requires j <= |items| && Chain(fs, items[..j], step).result.Err?
    ensures Chain(fs, items, step) == Chain(fs, items[..j], step)
    decreases |items| - j
  {
    if j < |items| {
      var n := |items| - 1;
      assert items[..n][..j] == items[..j];
      ChainStops(fs, items[..n], step, j);
    } else {
      assert items[..j] == items;
    }
  }

  /** Items are taken in list order: the last item runs on what the others left. */
  lemma ChainSnoc(fs: Tree, items: seq<string>, e: string, step: (Tree, string) -> Outcome<()>)
    ensures var before := Chain(fs, items, step);
      Chain(fs, items + [e], step) == if before.result.Err? then before else step(before.fs, e)
  {
    assert (items + [e])[..|items|] == items;
  }

  /** One more turn of the loop. */
  lemma ChainNext(fs: Tree, items: seq<string>, step: (Tree, string) -> Outcome<()>, i: nat, cur: Tree)
    requires i < |items| && Chain(fs, items[..i], step) == Outcome(cur, Ok(()))
    ensures Chain(fs, items[..i + 1], step) == step(cur, items[i])
  {
    ChainSnoc(fs, items[..i], items[i], step);
    assert items[..i] + [items[i]] == items[..i + 1];
  }

  /** A step that did not raise returned `()`. */
  lemma OkIsUnit(o: Outcome<()>)
    requires o.result.Ok?
    ensures o == Outcome(o.fs, Ok(()))
  {
    match o.result
    case Ok(u) => assert u == ();
  }

  /** The machine the code runs on: its filesystem and the user's home directory
      (`Path.home()`). */
  class Host {
    var fs: Tree
    const home: Path

    constructor (fs: Tree, home: Path)
      ensures this.fs == fs && this.home == home
    {
      this.fs := fs;
      this.home := home;
    }
  }

  const Empty := Tree(map[], {})

  predicate IsFile(t: Tree, p: Path) {
    p in t.files
  }

  /** `p.is_dir()`: the root, an explicitly created directory or anything above an
      entry. */
  predicate IsDir(t: Tree, p: Path) {
    || p == []
    || (exists d :: d in t.dirs && IsPrefix(p, d))
    || (exists k :: k in t.files && Under(p, k))
  }

  /** `p.exists()`. */
  predicate Exists(t: Tree, p: Path) {
    IsFile(t, p) || IsDir(t, p)
  }

  /** A tree whose top is not itself a file: every tree read from a directory,
      and every archive, has this shape. */
  predicate Rooted(t: Tree) {
    [] !in t.files && [] !in t.dirs
  }

  lemma PrefixCancel(p: Path, a: Path, b: Path)
    requires p + a == p + b
    ensures a == b
  {
    assert a == (p + a)[|p|..];
    assert b == (p + b)[|p|..];
  }

  /** `t` placed at `p`: every entry of `t` gets `p` in front. */
  function Graft(t: Tree, p: Path): (r: Tree)
    ensures forall k :: k in t.files ==> p + k in r.files && r.files[p + k] == t.files[k]
    ensures forall k :: k in r.files ==> IsPrefix(p, k) && k[|p|..] in t.files
    ensures forall d :: d in t.dirs ==> p + d in r.dirs
    ensures forall d :: d in r.dirs ==> IsPrefix(p, d) && d[|p|..] in t.dirs
  {
    Tree(GraftFiles(t.files, p), GraftDirs(t.dirs, p))
  }

  function GraftFiles(m: map<Path, Blob>, p: Path): (r: map<Path, Blob>)
    ensures forall k :: k in m ==> p + k in r && r[p + k] == m[k]
    ensures forall k :: k in r ==> IsPrefix(p, k) && k[|p|..] in m
  {
    var keys := GraftDirs(m.Keys, p);
    var r := map k | k in keys :: m[k[|p|..]];
    assert forall k :: k in m ==> p + k in r && r[p + k] == m[k] by {
      forall k | k in m ensures p + k in r && r[p + k] == m[k] {
        assert (p + k)[|p|..] == k;
      }
    }
    r
  }

  function GraftDirs(s: set<Path>, p: Path): (r: set<Path>)
    ensures forall d :: d in s ==> p + d in r
    ensures forall d :: d in r ==> IsPrefix(p, d) && d[|p|..] in s
  {
    var r := set d | d in s :: p + d;
    assert forall d :: d in r ==> IsPrefix(p, d) && d[|p|..] in s by {
      forall d | d in r ensures IsPrefix(p, d) && d[|p|..] in s {
        var j :| j in s && d == p + j;
        assert d[|p|..] == j;
      }
    }
    r
  }

  /** The subtree strictly below `p`, with paths relative to `p`. */
  function Sub(t: Tree, p: Path): (r: Tree)
    ensures Rooted(r)
    ensures forall k :: k in r.files <==> p + k in t.files && k != []
    ensures forall k :: k in r.files ==> r.files[k] == t.files[p + k]
    ensures forall d :: d in r.dirs <==> p + d in t.dirs && d != []
  {
    Tree(SubFiles(t.files, p), SubDirs(t.dirs, p))
  }

  function SubFiles(m: map<Path, Blob>, p: Path): (r: map<Path, Blob>)
    ensures forall k :: k in r <==> p + k in m && k != []
    ensures forall k :: k in r ==> r[k] == m[p + k]
  {
    // The keys relative to `p` are computed as the paths below `p` are.
    map k | k in SubDirs(m.Keys, p) :: m[p + k]
  }

  function SubDirs(s: set<Path>, p: Path): (r: set<Path>)
    ensures forall d :: d in r <==> p + d in s && d != []
  {
    var r := set d | d in s && Under(p, d) :: d[|p|..];
    assert forall d :: d in r <==> p + d in s && d != [] by {
      forall d ensures d in r <==> p + d in s && d != [] {
        if d in r {
          var j :| j in s && Under(p, j) && j[|p|..] == d;
          assert j == j[..|p|] + j[|p|..];
        }
        if p + d in s && d != [] {
          assert Under(p, p + d) && (p + d)[|p|..] == d;
        }
      }
    }
    r
  }

  /** `b` copied on top of `a`: files of `b` replace files of `a` at the same path,
      directories merge. */
  function Overlay(a: Tree, b: Tree): (r: Tree)
    ensures r.files.Keys == a.files.Keys + b.files.Keys
    ensures forall k :: k in b.files ==> r.files[k] == b.files[k]
    ensures forall k :: k in a.files && k !in b.files ==> r.files[k] == a.files[k]
    ensures r.dirs == a.dirs + b.dirs
  {
    Tree(a.files + b.files, a.dirs + b.dirs)
  }

  /** `t` without `p` and everything below it (`shutil.rmtree(p)`). */
  function Prune(t: Tree, p: Path): (r: Tree)
    ensures forall k :: k in r.files <==> k in t.files && !IsPrefix(p, k)
    ensures forall k :: k in r.files ==> r.files[k] == t.files[k]
    ensures forall d :: d in r.dirs <==> d in t.dirs && !IsPrefix(p, d)
    ensures p != [] ==> !Exists(r, p)
  {
    Tree(map k | k in t.files && !IsPrefix(p, k) :: t.files[k],
         set d | d in t.dirs && !IsPrefix(p, d))
  }

  /** `t` with everything strictly below `p` replaced by `w`: what a program that
      rewrites the directory `p` leaves behind. */
  function ReplaceBelow(t: Tree, p: Path, w: Tree): (r: Tree)
    ensures forall k :: k in t.files && !Under(p, k) && !(IsPrefix(p, k) && k[|p|..] in w.files) ==>
      k in r.files && r.files[k] == t.files[k]
    ensures forall k :: k in w.files ==> p + k in r.files && r.files[p + k] == w.files[k]
    ensures forall k :: k in r.files ==> (k in t.files && !Under(p, k)) || (IsPrefix(p, k) && k[|p|..] in w.files)
  {
    Overlay(Above(t, p), Graft(w, p))
  }

  /** `t` without what lies strictly below `p`. */
  function Above(t: Tree, p: Path): (r: Tree)
    ensures forall k :: k in r.files <==> k in t.files && !Under(p, k)
    ensures forall k :: k in r.files ==> r.files[k] == t.files[k]
    ensures forall d :: d in r.dirs <==> d in t.dirs && !Under(p, d)
  {
    Tree(map k | k in t.files && !Under(p, k) :: t.files[k],
         set d | d in t.dirs && !Under(p, d))
  }

  /** `t` with directory `p` recorded. */
  function AddDir(t: Tree, p: Path): Tree {
    Tree(t.files, t.dirs + {p})
  }

  /** Some segment-prefix of `p` that is shorter than `upTo` + 1 segments is a file. */
  predicate FileOnPath(t: Tree, p: Path, upTo: nat)
    requires upTo <= |p|
  {
    exists k :: 0 < k <= upTo && p[..k] in t.files
  }

  /** `p.mkdir(parents=True, exist_ok=True)`, and equally
      `os.makedirs(p, exist_ok=True)`: fails when `p` or one of its ancestors is a
      file. */
  function MakeDirs(t: Tree, p: Path): (r: Result<Tree>)
    ensures r.Ok? <==> !FileOnPath(t, p, |p|)
    ensures r.Ok? ==> r.value == AddDir(t, p)
  {
    if p != [] && p in t.files then
      assert p[..|p|] == p;
      Err(FileExists(p))
    else if FileOnPath(t, p, |p|) then Err(NotADirectory(p))
    else Ok(AddDir(t, p))
  }

  /** `os.makedirs(p)` with `exist_ok=False`: also fails when `p` exists. */
  function MakeDirsNew(t: Tree, p: Path): (r: Result<Tree>)
    ensures r.Ok? <==> !Exists(t, p) && !FileOnPath(t, p, |p|)
    ensures Exists(t, p) ==> r == Err(FileExists(p))
    ensures r.Ok? ==> r.value == AddDir(t, p)
  {
    if Exists(t, p) then Err(FileExists(p)) else MakeDirs(t, p)
  }

  /** `open(p, "w")` followed by writing `b`. */
  function WriteFile(t: Tree, p: Path, b: Blob): (r: Result<Tree>)
    ensures r.Ok? <==> !IsDir(t, p) && !FileOnPath(t, Parent(p), |Parent(p)|) && IsDir(t, Parent(p))
    ensures r.Ok? ==> r.value == Tree(t.files[p := b], t.dirs)
  {
    if IsDir(t, p) then Err(IsADirectory(p))
    else if FileOnPath(t, Parent(p), |Parent(p)|) then Err(NotADirectory(p))
    else if !IsDir(t, Parent(p)) then Err(FileNotFound(p))
    else Ok(Tree(t.files[p := b], t.dirs))
  }

  /** `open(p).read()` in text mode. */
  function ReadText(t: Tree, p: Path): (r: Result<string>)
    ensures r.Ok? <==> p in t.files && t.files[p].Text? && !IsDir(t, p) && !FileOnPath(t, Parent(p), |Parent(p)|)
    ensures r.Ok? ==> r.value == t.files[p].chars
  {
    if IsDir(t, p) then Err(IsADirectory(p))
    else if FileOnPath(t, Parent(p), |Parent(p)|) then Err(NotADirectory(p))
    else if p !in t.files then Err(FileNotFound(p))
    else match t.files[p]
      case Text(chars) => Ok(chars)
      case Packed(_) => Err(NotText(p))
  }

  /** `shutil.copy2(src, dst)`: a directory `dst` receives the file under the
      source's own name. */
  function CopyFile(t: Tree, src: Path, dst: Path): (r: Result<Tree>)
    ensures r.Ok? ==> IsFile(t, src)
  {
    if !IsFile(t, src) then (if IsDir(t, src) then Err(IsADirectory(src)) else Err(FileNotFound(src)))
    else
      var target := if IsDir(t, dst) then dst + [Name(src)] else dst;
      if target == src then Err(SameFile(target))
      else WriteFile(t, target, t.files[src])
  }

  /** `shutil.copytree(src, dst, dirs_exist_ok=existOk)`: the tree below `src`
      copied to `dst`, after `dst` and its parents are created.  A copy of a
      directory onto itself makes every file copy raise `SameFileError`; copytree
      collects those and raises `shutil.Error` once the walk is done. */
  function CopyTree(t: Tree, src: Path, dst: Path, existOk: bool): (r: Result<Tree>)
    ensures r.Ok? ==> IsDir(t, src)
    ensures r.Ok? && !existOk ==> !Exists(t, dst)
    ensures src == dst && Sub(t, src).files != map[] ==> r.Err?
    ensures r.Ok? ==> r.value == Overlay(AddDir(t, dst), Graft(Sub(t, src), dst))
  {
    if !IsDir(t, src) then (if IsFile(t, src) then Err(NotADirectory(src)) else Err(FileNotFound(src)))
    else
      var made := if existOk then MakeDirs(t, dst) else MakeDirsNew(t, dst);
      match made
      case Err(e) => Err(e)
      case Ok(t1) =>
        if src == dst && Sub(t, src).files != map[] then Err(CopyFailed(src))
        else Ok(Overlay(t1, Graft(Sub(t, src), dst)))
  }

  /** A tree copy writes only at and below its destination. */
  lemma CopyTreeKeepsOutside(t: Tree, src: Path, dst: Path, existOk: bool)
    ensures CopyTree(t, src, dst, existOk).Ok? ==> var r := CopyTree(t, src, dst, existOk).value;
      forall k :: k in t.files && !IsPrefix(dst, k) ==> k in r.files && r.files[k] == t.files[k]
  {
    var g := Graft(Sub(t, src), dst);
    assert forall k :: k in g.files ==> IsPrefix(dst, k);
  }

  /** A file copy writes only at or below its destination. */
  lemma CopyFileKeepsOutside(t: Tree, src: Path, dst: Path)
    ensures CopyFile(t, src, dst).Ok? ==> var r := CopyFile(t, src, dst).value;
      forall k :: k in t.files && !IsPrefix(dst, k) ==> k in r.files && r.files[k] == t.files[k]
  {
    var target := if IsDir(t, dst) then dst + [Name(src)] else dst;
    assert IsPrefix(dst, target);
  }

  // ---------------------------------------------------------------------------
  // Laws

  /** Reading back a directory that a program rewrote gives what it wrote. */
  lemma SubOfReplaceBelow(t: Tree, p: Path, w: Tree)
    requires Rooted(w)
    ensures Sub(ReplaceBelow(t, p, w), p) == w
  {
    var r := ReplaceBelow(t, p, w);
    SubFilesOfReplaceBelow(t, p, w, r);
    SubDirsOfReplaceBelow(t, p, w, r);
  }

  lemma SubFilesOfReplaceBelow(t: Tree, p: Path, w: Tree, r: Tree)
    requires Rooted(w) && r == ReplaceBelow(t, p, w)
    ensures Sub(r, p).files == w.files
  {
    var a := Above(t, p).files;
    var g := Graft(w, p).files;
    forall k ensures (p + k in g <==> k in w.files) && (k in w.files ==> g[p + k] == w.files[k]) {
      GraftFileAt(w, p, k);
    }
    SubFilesOfUnion(a, p, w.files, g);
    SubFilesOfAbove(t, p);
    assert r.files == a + g;
    UnionOfEmpty(w.files);
  }

  lemma UnionOfEmpty(m: map<Path, Blob>)
    ensures map[] + m == m
  {
  }

  /** Nothing is left strictly below `p` in `t` without what lies below `p`. */
  lemma SubFilesOfAbove(t: Tree, p: Path)
    ensures SubFiles(Above(t, p).files, p) == map[]
  {
    var s := SubFiles(Above(t, p).files, p);
    forall k ensures k !in s {
      if k != [] {
        assert Under(p, p + k);
      }
    }
  }

  lemma SubDirsOfReplaceBelow(t: Tree, p: Path, w: Tree, r: Tree)
    requires Rooted(w) && r == ReplaceBelow(t, p, w)
    ensures Sub(r, p).dirs == w.dirs
  {
    var g := Graft(w, p);
    assert r.dirs == Above(t, p).dirs + g.dirs;
    forall d ensures d in Sub(r, p).dirs <==> d in w.dirs {
      if d in Sub(r, p).dirs {
        assert Under(p, p + d) && (p + d)[|p|..] == d;
      }
    }
  }

  /** Removing `p` afterwards forgets what a program did below `p`. */
  lemma PruneOfReplaceBelow(t: Tree, p: Path, w: Tree)
    ensures Prune(ReplaceBelow(t, p, w), p) == Prune(t, p)
  {
    var a := Prune(ReplaceBelow(t, p, w), p);
    var b := Prune(t, p);
    assert a.files.Keys == b.files.Keys;
    assert a.files == b.files;
    assert a.dirs == b.dirs;
  }

  /** Writing the file `x` directly inside `p` writes `[x]` in the subtree of `p`. */
  lemma SubOfWrite(t: Tree, p: Path, x: string, b: Blob)
    ensures Sub(Tree(t.files[p + [x] := b], t.dirs), p) == Tree(Sub(t, p).files[[x] := b], Sub(t, p).dirs)
  {
    SubFilesOfUpdate(t.files, p, [x], b);
  }

  lemma SubFilesOfUpdate(m: map<Path, Blob>, p: Path, j: Path, b: Blob)
    requires j != []
    ensures SubFiles(m[p + j := b], p) == SubFiles(m, p)[j := b]
  {
    var a := SubFiles(m[p + j := b], p);
    var c := SubFiles(m, p)[j := b];
    forall k ensures (k in a <==> k in c) && (k in a ==> a[k] == c[k]) {
      if p + k == p + j {
        PrefixCancel(p, k, j);
      }
    }
  }

  /** Recording a directory creates no directory elsewhere than on its own path. */
  lemma IsDirOfAddDir(t: Tree, p: Path, q: Path)
    ensures IsDir(AddDir(t, p), q) <==> IsDir(t, q) || IsPrefix(q, p)
  {
    if IsDir(AddDir(t, p), q) && !IsPrefix(q, p) && q != [] {
      if exists d :: d in AddDir(t, p).dirs && IsPrefix(q, d) {
        var d :| d in AddDir(t, p).dirs && IsPrefix(q, d);
        assert d != p;
      }
    }
    if IsPrefix(q, p) {
      assert p in AddDir(t, p).dirs;
    }
  }

  /** Extracting or copying a rooted tree `e` onto the directory `p` (which is
      created first) puts `e` on top of what was below `p`. */
  lemma SubOfOverlayGraft(t: Tree, p: Path, e: Tree)
    requires Rooted(e)
    ensures Sub(Overlay(AddDir(t, p), Graft(e, p)), p) == Overlay(Sub(t, p), e)
  {
    var r := Overlay(AddDir(t, p), Graft(e, p));
    SubFilesOfOverlayGraft(t, p, e, r);
    SubDirsOfOverlayGraft(t, p, e, r);
  }

  lemma SubFilesOfOverlayGraft(t: Tree, p: Path, e: Tree, r: Tree)
    requires Rooted(e) && r == Overlay(AddDir(t, p), Graft(e, p))
    ensures Sub(r, p).files == Overlay(Sub(t, p), e).files
  {
    var g := Graft(e, p).files;
    forall k ensures (p + k in g <==> k in e.files) && (k in e.files ==> g[p + k] == e.files[k]) {
      GraftFileAt(e, p, k);
    }
    SubFilesOfUnion(t.files, p, e.files, g);
  }

  lemma SubFilesOfUnion(m: map<Path, Blob>, p: Path, f: map<Path, Blob>, g: map<Path, Blob>)
    requires [] !in f
    requires forall k :: p + k in g <==> k in f
    requires forall k :: k in f ==> g[p + k] == f[k]
    ensures SubFiles(m + g, p) == SubFiles(m, p) + f
  {
    var a := SubFiles(m + g, p);
    var b := SubFiles(m, p) + f;
    forall k ensures (k in a <==> k in b) && (k in a ==> a[k] == b[k]) {
      assert k in a <==> p + k in m + g && k != [];
      if k in f {
        assert a[k] == (m + g)[p + k] == g[p + k];
      } else if k in a {
        assert a[k] == (m + g)[p + k] == m[p + k];
      }
    }
  }

  /** What lies at `p + k` in `e` grafted at `p` is what lies at `k` in `e`. */
  lemma GraftFileAt(e: Tree, p: Path, k: Path)
    ensures p + k in Graft(e, p).files <==> k in e.files
    ensures k in e.files ==> Graft(e, p).files[p + k] == e.files[k]
  {
    if p + k in Graft(e, p).files {
      assert (p + k)[|p|..] == k;
    }
  }

  lemma GraftDirAt(e: Tree, p: Path, d: Path)
    ensures p + d in Graft(e, p).dirs <==> d in e.dirs
  {
    if p + d in Graft(e, p).dirs {
      assert (p + d)[|p|..] == d;
    }
  }

  lemma SubDirsOfOverlayGraft(t: Tree, p: Path, e: Tree, r: Tree)
    requires Rooted(e) && r == Overlay(AddDir(t, p), Graft(e, p))
    ensures Sub(r, p).dirs == Overlay(Sub(t, p), e).dirs
  {
    var g := Graft(e, p).dirs;
    forall d ensures p + d in g <==> d in e.dirs {
      GraftDirAt(e, p, d);
    }
    SubDirsOfUnion(t.dirs, p, e.dirs, g);
    assert r.dirs == t.dirs + {p} + g;
  }

  lemma SubDirsOfUnion(s: set<Path>, p: Path, f: set<Path>, g: set<Path>)
    requires [] !in f
    requires forall d :: p + d in g <==> d in f
    ensures SubDirs(s + {p} + g, p) == SubDirs(s, p) + f
  {
    var a := SubDirs(s + {p} + g, p);
    var b := SubDirs(s, p) + f;
    forall d ensures d in a <==> d in b {
      if p + d == p {
        assert |d| == 0;
      }
    }
  }

  /** ... and changes nothing outside `p`. */
  lemma PruneOfOverlayGraft(t: Tree, p: Path, e: Tree)
    ensures Prune(Overlay(AddDir(t, p), Graft(e, p)), p) == Prune(t, p)
  {
    var g := Graft(e, p);
    PruneOfBelow(t, p, g);
  }

  lemma PruneOfBelow(t: Tree, p: Path, g: Tree)
    requires forall k :: k in g.files ==> IsPrefix(p, k)
    requires forall d :: d in g.dirs ==> IsPrefix(p, d)
    ensures Prune(Overlay(AddDir(t, p), g), p) == Prune(t, p)
  {
    var a := Prune(Overlay(AddDir(t, p), g), p);
    var b := Prune(t, p);
    forall k ensures (k in a.files <==> k in b.files) && (k in a.files ==> a.files[k] == b.files[k]) {
      if k in g.files {
        assert IsPrefix(p, k);
      }
    }
    forall d ensures d in a.dirs <==> d in b.dirs {
      if d == p {
        assert IsPrefix(p, d);
      }
    }
    assert a.files == b.files;
  }

  /** Laying the same tree on top twice is laying it once. */
  lemma OverlayTwice(a: Tree, g: Tree)
    ensures Overlay(Overlay(a, g), g) == Overlay(a, g)
  {
    assert Overlay(Overlay(a, g), g).files == Overlay(a, g).files;
  }

  lemma OverlayOfEmpty(t: Tree)
    ensures Overlay(Empty, t) == t
  {
    assert Overlay(Empty, t).files == t.files;
  }

  /** Nothing lies below a path that does not exist. */
  lemma SubOfMissing(t: Tree, p: Path)
    requires !Exists(t, p)
    ensures Sub(t, p) == Empty
  {
    var s := Sub(t, p);
    assert s.files == map[];
    assert s.dirs == {};
  }

  /** Two trees that agree outside `c` agree below every path `q` that is neither
      inside `c` nor above it. */
  lemma SubOfUnchanged(a: Tree, b: Tree, c: Path, q: Path)
    requires Prune(a, c) == Prune(b, c)
    requires !IsPrefix(c, q) && !IsPrefix(q, c)
    ensures Sub(a, q) == Sub(b, q)
  {
    AgreeBelow(a, b, c, q);
    SubFilesOfAgree(a.files, b.files, q);
    SubDirsOfAgree(a.dirs, b.dirs, q);
  }

  lemma AgreeBelow(a: Tree, b: Tree, c: Path, q: Path)
    requires Prune(a, c) == Prune(b, c)
    requires !IsPrefix(c, q) && !IsPrefix(q, c)
    ensures forall k :: q + k in a.files <==> q + k in b.files
    ensures forall k :: q + k in a.files ==> a.files[q + k] == b.files[q + k]
    ensures forall d :: q + d in a.dirs <==> q + d in b.dirs
  {
    forall k ensures !IsPrefix(c, q + k) {
    }
    forall k ensures q + k in a.files <==> q + k in b.files {
      assert q + k in a.files <==> q + k in Prune(a, c).files;
      assert q + k in b.files <==> q + k in Prune(b, c).files;
    }
    forall k | q + k in a.files ensures a.files[q + k] == b.files[q + k] {
      assert Prune(a, c).files[q + k] == a.files[q + k];
      assert Prune(b, c).files[q + k] == b.files[q + k];
    }
    forall d ensures q + d in a.dirs <==> q + d in b.dirs {
      assert q + d in a.dirs <==> q + d in Prune(a, c).dirs;
      assert q + d in b.dirs <==> q + d in Prune(b, c).dirs;
    }
  }

  lemma SubFilesOfAgree(m1: map<Path, Blob>, m2: map<Path, Blob>, q: Path)
    requires forall k :: q + k in m1 <==> q + k in m2
    requires forall k :: q + k in m1 ==> m1[q + k] == m2[q + k]
    ensures SubFiles(m1, q) == SubFiles(m2, q)
  {
  }

  lemma SubDirsOfAgree(s1: set<Path>, s2: set<Path>, q: Path)
    requires forall d :: q + d in s1 <==> q + d in s2
    ensures SubDirs(s1, q) == SubDirs(s2, q)
  {
  }
}
