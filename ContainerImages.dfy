/** The on-disk image and container store (server/container_images.py): an image is
    unpacked into `~/.qnxtainer/images/<name>/<tag>`, and a container starts as a
    full copy of an image directory under `~/.qnxtainer/containers/<id>`. */
module ContainerImages {

  import opened Results
  import opened PathLib
  import opened FileTree
  import opened Layout

  const DefaultTag := "latest"

  /** `get_image_dir`: `<home>/.qnxtainer/images/<name>/<tag>`, each part joined
      with pathlib's `/`, so an absolute name or tag replaces what precedes it. */
  function GetImageDir(home: Path, name: string, tag: string := DefaultTag): (r: Path)
    ensures !IsAbsolute(name) && !IsAbsolute(tag) ==> IsPrefix(ImagesDir(home), r)
    ensures IsAbsolute(tag) ==> r == Segments(tag)
  {
    JoinPath(JoinPath(ImagesDir(home), name), tag)
  }

  /** A name or tag that is one path segment and no special one. */
  predicate PlainSegment(s: string) {
    IsSegment(s) && s != ".."
  }

  /** For one-segment names and tags the image directory is two levels below the
      images directory. */
  lemma ImageDirLayout(home: Path, name: string, tag: string)
    requires PlainSegment(name) && PlainSegment(tag)
    ensures GetImageDir(home, name, tag) == ImagesDir(home) + [name, tag]
  {
    SegmentsOfSegment(name);
    SegmentsOfSegment(tag);
  }

  /** Without a tag, the image directory is `<name>/latest`. */
  lemma DefaultImageDir(home: Path, name: string)
    requires PlainSegment(name)
    ensures GetImageDir(home, name) == ImagesDir(home) + [name, "latest"]
  {
    assert PlainSegment(DefaultTag);
    ImageDirLayout(home, name, DefaultTag);
  }

  /** Distinct one-segment (name, tag) pairs have distinct image directories. */
  lemma ImageDirInjective(home: Path, name1: string, tag1: string, name2: string, tag2: string)
    requires PlainSegment(name1) && PlainSegment(tag1) && PlainSegment(name2) && PlainSegment(tag2)
    requires (name1, tag1) != (name2, tag2)
    ensures GetImageDir(home, name1, tag1) != GetImageDir(home, name2, tag2)
  {
    ImageDirLayout(home, name1, tag1);
    ImageDirLayout(home, name2, tag2);
    var n := |ImagesDir(home)|;
    if name1 != name2 {
      assert GetImageDir(home, name1, tag1)[n] != GetImageDir(home, name2, tag2)[n];
    } else {
      assert GetImageDir(home, name1, tag1)[n + 1] != GetImageDir(home, name2, tag2)[n + 1];
    }
  }

  /** `tarfile.open(p)` for reading: the entries of the archive stored at `p`. */
  function OpenArchive(t: Tree, p: Path): (r: Result<Tree>)
    ensures r.Ok? <==> p in t.files && t.files[p].Packed? && !IsDir(t, p) && !FileOnPath(t, Parent(p), |Parent(p)|)
    ensures r.Ok? ==> r.value == t.files[p].entries
  {
    if IsDir(t, p) then Err(IsADirectory(p))
    else if FileOnPath(t, Parent(p), |Parent(p)|) then Err(NotADirectory(p))
    else if p !in t.files then Err(FileNotFound(p))
    else match t.files[p]
      case Packed(entries) => Ok(entries)
      case Text(_) => Err(NotAnArchive(p))
  }

  /** `unpack_image`: create the image directory (and its parents), then extract
      the archive's entries on top of whatever is already there. */
  function Unpack(fs: Tree, home: Path, archive: Path, name: string, tag: string := DefaultTag): (r: Outcome<Path>)
    ensures r.result.Ok? ==> r.result.value == GetImageDir(home, name, tag)
  {
    var dir := GetImageDir(home, name, tag);
    match MakeDirs(fs, dir)
    case Err(e) => Outcome(fs, Err(e))
    case Ok(fs1) =>
      match OpenArchive(fs1, archive)
      case Err(e) => Outcome(fs1, Err(e))
      case Ok(entries) => Outcome(Overlay(fs1, Graft(entries, dir)), Ok(dir))
  }

  method UnpackImage(host: Host, archive: Path, name: string, tag: string := DefaultTag) returns (r: Result<Path>)
    modifies host
    ensures Outcome(host.fs, r) == Unpack(old(host.fs), host.home, archive, name, tag)
  {
    var dir := GetImageDir(host.home, name, tag);
    var made := MakeDirs(host.fs, dir);
    if made.Err? {
      return Err(made.error);
    }
    host.fs := made.value;
    var tar := OpenArchive(host.fs, archive);
    if tar.Err? {
      return Err(tar.error);
    }
    host.fs := Overlay(host.fs, Graft(tar.value, dir));
    return Ok(dir);
  }

  /** A successful unpack reads the archive as it was, extracts it over the
      image directory so that files not in the archive survive, and changes
      nothing outside the image directory. */
  lemma UnpackOverlays(fs: Tree, home: Path, archive: Path, name: string, tag: string)
    requires Unpack(fs, home, archive, name, tag).result.Ok?
    ensures archive in fs.files && fs.files[archive].Packed?
    ensures var dir := GetImageDir(home, name, tag);
      var r := Unpack(fs, home, archive, name, tag).fs;
      var e := fs.files[archive].entries;
      (Rooted(e) ==> Sub(r, dir) == Overlay(Sub(fs, dir), e)) && Prune(r, dir) == Prune(fs, dir)
  {
    var dir := GetImageDir(home, name, tag);
    var e := fs.files[archive].entries;
    if Rooted(e) {
      SubOfOverlayGraft(fs, dir, e);
    }
    PruneOfOverlayGraft(fs, dir, e);
  }

  /** Unpacking the same archive again changes nothing, as long as the archive
      file does not itself lie inside the image directory. */
  lemma UnpackIdempotent(fs: Tree, home: Path, archive: Path, name: string, tag: string)
    requires Unpack(fs, home, archive, name, tag).result.Ok?
    requires Rooted(fs.files[archive].entries)
    requires !IsPrefix(GetImageDir(home, name, tag), archive)
    ensures var once := Unpack(fs, home, archive, name, tag);
      Unpack(once.fs, home, archive, name, tag) == once
  {
    var dir := GetImageDir(home, name, tag);
    var e := fs.files[archive].entries;
    var g := Graft(e, dir);
    var fs1 := AddDir(fs, dir);
    var once := Overlay(fs1, g);
    assert Unpack(fs, home, archive, name, tag) == Outcome(once, Ok(dir));
    assert MakeDirs(once, dir) == Ok(once) by {
      GraftKeysLonger(e, dir);
      OverlayKeepsPath(fs1, g, dir);
      assert AddDir(once, dir).dirs == once.dirs;
    }
    assert OpenArchive(once, archive) == Ok(e) by {
      assert !IsPrefix(dir, Parent(archive));
      OverlayKeepsPathOff(fs1, g, dir, Parent(archive));
      GraftedAreBelow(once, fs1, g, dir, archive);
      assert archive !in g.files;
    }
    OverlayTwice(fs1, g);
  }

  /** A grafted key lies strictly below the graft point when the grafted tree
      has no entry at its root. */
  lemma GraftKeysLonger(e: Tree, dir: Path)
    requires [] !in e.files
    ensures forall k :: k in Graft(e, dir).files ==> IsPrefix(dir, k) && |k| > |dir|
  {
    forall k | k in Graft(e, dir).files ensures IsPrefix(dir, k) && |k| > |dir| {
      assert k[|dir|..] in e.files;
    }
  }

  lemma OverlayKeepsPath(a: Tree, g: Tree, p: Path)
    requires forall k :: k in g.files ==> |k| > |p|
    ensures FileOnPath(Overlay(a, g), p, |p|) == FileOnPath(a, p, |p|)
  {
    forall j | 0 < j <= |p| ensures p[..j] !in g.files {
      assert |p[..j]| <= |p|;
    }
  }

  lemma OverlayKeepsPathOff(a: Tree, g: Tree, dir: Path, q: Path)
    requires forall k :: k in g.files ==> IsPrefix(dir, k)
    requires !IsPrefix(dir, q)
    ensures FileOnPath(Overlay(a, g), q, |q|) == FileOnPath(a, q, |q|)
  {
    forall j | 0 < j <= |q| ensures !IsPrefix(dir, q[..j]) {
      if |dir| <= j {
        assert q[..j][..|dir|] == q[..|dir|];
      }
    }
  }

  lemma GraftedAreBelow(once: Tree, fs1: Tree, g: Tree, dir: Path, archive: Path)
    requires once == Overlay(fs1, g) && !IsDir(fs1, archive) && archive in fs1.files
    requires !IsPrefix(dir, archive) && !FileOnPath(fs1, dir, |dir|)
    requires forall k :: k in g.files ==> IsPrefix(dir, k)
    requires forall d :: d in g.dirs ==> IsPrefix(dir, d)
    requires dir in fs1.dirs
    ensures !IsDir(once, archive)
  {
    assert archive != [];
  }

  /** A failure after the directory is made (a missing or unreadable archive)
      leaves the new, empty image directory behind: nothing is cleaned up. */
  lemma FailedUnpackKeepsDirectory(fs: Tree, home: Path, archive: Path, name: string, tag: string)
    requires var dir := GetImageDir(home, name, tag);
      !FileOnPath(fs, dir, |dir|) && OpenArchive(AddDir(fs, dir), archive).Err?
    ensures var r := Unpack(fs, home, archive, name, tag);
      r.result.Err? && r.fs == AddDir(fs, GetImageDir(home, name, tag)) && IsDir(r.fs, GetImageDir(home, name, tag))
  {
  }

  // ---------------------------------------------------------------------------
  // prep_container (lines 23-29)

  /** `uuid.uuid4().hex`: 32 lowercase hexadecimal digits, with the version digit
      4 and the variant bits 10. */
  predicate IsUuid4Hex(s: string) {
    |s| == 32 && (forall i :: 0 <= i < |s| ==> s[i] in "0123456789abcdef")
    && s[12] == '4' && s[16] in "89ab"
  }

  /** `containers_dir / container_id`: inside the containers directory unless the
      id is an absolute path. */
  function ContainerDir(home: Path, id: string): (r: Path)
    ensures !IsAbsolute(id) ==> IsPrefix(ContainersDir(home), r)
  {
    JoinPath(ContainersDir(home), id)
  }

  lemma ContainerDirLayout(home: Path, id: string)
    requires IsUuid4Hex(id)
    ensures ContainerDir(home, id) == ContainersDir(home) + [id]
  {
    assert id[0] != '/' && id != "." && '/' !in id;
    SegmentsOfSegment(id);
  }

  /** `prep_container` with `id` the fresh hex id: the image directory copied to a
      new container directory, which must not exist yet; the id is returned. */
  function Prep(fs: Tree, home: Path, id: string, name: string, tag: string := DefaultTag): (r: Outcome<string>)
    ensures r.result.Ok? ==> r.result.value == id
  {
    match CopyTree(fs, GetImageDir(home, name, tag), ContainerDir(home, id), false)
    case Err(e) => Outcome(fs, Err(e))
    case Ok(fs1) => Outcome(fs1, Ok(id))
  }

  method PrepContainer(host: Host, id: string, name: string, tag: string := DefaultTag) returns (r: Result<string>)
    requires IsUuid4Hex(id)
    modifies host
    ensures Outcome(host.fs, r) == Prep(old(host.fs), host.home, id, name, tag)
  {
    var copied := CopyTree(host.fs, GetImageDir(host.home, name, tag), ContainerDir(host.home, id), false);
    if copied.Err? {
      return Err(copied.error);
    }
    host.fs := copied.value;
    return Ok(id);
  }

  /** After `prep_container` the container directory holds exactly the image's
      tree, and nothing outside the container directory changed. */
  lemma PrepCopiesImage(fs: Tree, home: Path, id: string, name: string, tag: string)
    requires Prep(fs, home, id, name, tag).result.Ok?
    ensures var r := Prep(fs, home, id, name, tag).fs; var c := ContainerDir(home, id);
      Sub(r, c) == Sub(fs, GetImageDir(home, name, tag)) && Prune(r, c) == Prune(fs, c)
  {
    var c := ContainerDir(home, id);
    var img := Sub(fs, GetImageDir(home, name, tag));
    var copied := CopyTree(fs, GetImageDir(home, name, tag), c, false);
    assert copied.Ok? && !Exists(fs, c);
    CopyIntoMissing(fs, c, img, copied.value);
    PruneOfOverlayGraft(fs, c, img);
  }

  lemma CopyIntoMissing(fs: Tree, c: Path, img: Tree, r: Tree)
    requires Rooted(img) && !Exists(fs, c)
    requires r == Overlay(AddDir(fs, c), Graft(img, c))
    ensures Sub(r, c) == img
  {
    SubOfMissing(fs, c);
    SubOfOverlayGraft(fs, c, img);
    OverlayOfEmpty(img);
  }

  /** The image directory and every other container are left as they were. */
  lemma PrepLeavesImageAndOthers(fs: Tree, home: Path, id: string, other: string, name: string, tag: string)
    requires IsUuid4Hex(id) && IsUuid4Hex(other) && id != other
    requires PlainSegment(name) && PlainSegment(tag)
    requires Prep(fs, home, id, name, tag).result.Ok?
    ensures var r := Prep(fs, home, id, name, tag).fs;
      Sub(r, GetImageDir(home, name, tag)) == Sub(fs, GetImageDir(home, name, tag))
      && Sub(r, ContainerDir(home, other)) == Sub(fs, ContainerDir(home, other))
  {
    var r := Prep(fs, home, id, name, tag).fs;
    var c := ContainerDir(home, id);
    PrepCopiesImage(fs, home, id, name, tag);
    ImageApartFromContainer(home, id, name, tag);
    SubOfUnchanged(r, fs, c, GetImageDir(home, name, tag));
    ContainersApart(home, id, other);
    SubOfUnchanged(r, fs, c, ContainerDir(home, other));
  }

  /** No container directory is above or below an image directory. */
  lemma ImageApartFromContainer(home: Path, id: string, name: string, tag: string)
    requires IsUuid4Hex(id) && PlainSegment(name) && PlainSegment(tag)
    ensures var c := ContainerDir(home, id); var d := GetImageDir(home, name, tag);
      !IsPrefix(c, d) && !IsPrefix(d, c)
  {
    var c := ContainerDir(home, id);
    var d := GetImageDir(home, name, tag);
    ImageDirLayout(home, name, tag);
    ContainerDirLayout(home, id);
    assert c[|home| + 1] == "containers" && d[|home| + 1] == "images";
  }

  /** Two containers with different ids have disjoint directories. */
  lemma ContainersApart(home: Path, id: string, other: string)
    requires IsUuid4Hex(id) && IsUuid4Hex(other) && id != other
    ensures var c := ContainerDir(home, id); var o := ContainerDir(home, other);
      !IsPrefix(c, o) && !IsPrefix(o, c)
  {
    var c := ContainerDir(home, id);
    var o := ContainerDir(home, other);
    ContainerDirLayout(home, id);
    ContainerDirLayout(home, other);
    assert c[|home| + 2] == id && o[|home| + 2] == other;
  }

  /** `prep_container` raises when the image directory is missing (or a file),
      and when the container directory already exists, and then changes nothing. */
  lemma PrepFailures(fs: Tree, home: Path, id: string, name: string, tag: string)
    ensures var r := Prep(fs, home, id, name, tag);
      !IsDir(fs, GetImageDir(home, name, tag)) ==> r.result.Err? && r.fs == fs
    ensures var r := Prep(fs, home, id, name, tag);
      IsDir(fs, GetImageDir(home, name, tag)) && Exists(fs, ContainerDir(home, id)) ==>
        r == Outcome(fs, Err(FileExists(ContainerDir(home, id))))
  {
  }

  /** The copy is independent: writing a file inside the container directory
      leaves the image directory as it was. */
  lemma ContainerWriteKeepsImage(fs: Tree, home: Path, id: string, name: string, tag: string, p: Path, b: Blob)
    requires IsUuid4Hex(id) && PlainSegment(name) && PlainSegment(tag)
    requires Under(ContainerDir(home, id), p)
    ensures Sub(Tree(fs.files[p := b], fs.dirs), GetImageDir(home, name, tag)) == Sub(fs, GetImageDir(home, name, tag))
  {
    var c := ContainerDir(home, id);
    var w := Tree(fs.files[p := b], fs.dirs);
    assert Prune(w, c).files == Prune(fs, c).files;
    ImageApartFromContainer(home, id, name, tag);
    SubOfUnchanged(w, fs, c, GetImageDir(home, name, tag));
  }
}
