/** The image builder (image_builder/image_builder.py): it copies a build context
    into a fresh temporary workspace, applies the manifest's mounts, runs the
    build command there, writes the environment file and the runner script, and
    packs the workspace under a single top-level directory `image` into an archive
    below `~/.qnxtainer/images`: the name with its colons turned into directories,
    and its last dotted suffix replaced by `.tar.gz`.

    The text transforms are functions; the steps that change the filesystem are
    methods on the `Host`, each proved equal to a function of the old state. */
module ImageBuilder {

  import opened Results
  import opened PyStrings
  import opened PathLib
  import opened FileTree
  import opened Layout

  const ManifestFile := "qnxtainer.yml"
  const EnvFile := ".env"
  const RunnerFile := "run.sh"
  const RunnerSeparator := " \\\n\t"
  const ArchiveTop := "image"
  const ArchiveSuffix := ".tar.gz"

  /** The manifest as `yaml.safe_load` returns it; `None` is a missing key. */
  datatype Manifest = Manifest(
    name: Option<string>,
    cmd: Option<string>,
    build: Option<string>,
    env: Option<seq<(string, string)>>,
    mounts: Option<seq<string>>)

  /** `manifest.get("name", f"qnxtainer-{slug}")`. */
  function ImageName(m: Manifest, slug: string): string {
    if m.name.Some? then m.name.value else "qnxtainer-" + slug
  }

  /** `manifest.get("env", {})`, in the mapping's order. */
  function EnvOf(m: Manifest): seq<(string, string)> {
    if m.env.Some? then m.env.value else []
  }

  /** `manifest.get("mounts", [])`. */
  function MountsOf(m: Manifest): seq<string> {
    if m.mounts.Some? then m.mounts.value else []
  }

  // ---------------------------------------------------------------------------
  // make_env (lines 39-45)

  /** `"=".join([key, value])`. */
  function EnvLine(pair: (string, string)): string {
    Join("=", [pair.0, pair.1])
  }

  function EnvLines(env: seq<(string, string)>): (lines: seq<string>)
    ensures |lines| == |env|
    ensures forall i :: 0 <= i < |env| ==> lines[i] == env[i].0 + "=" + env[i].1
  {
    assert forall i :: 0 <= i < |env| ==> EnvLine(env[i]) == env[i].0 + "=" + env[i].1 by {
      forall i | 0 <= i < |env| ensures EnvLine(env[i]) == env[i].0 + "=" + env[i].1 {
        JoinPair("=", env[i].0, env[i].1);
      }
    }
    seq(|env|, i requires 0 <= i < |env| => EnvLine(env[i]))
  }

  /** The text of the `.env` file: one `KEY=VALUE` line per pair, in the mapping's
      order, separated by "\n" and with no newline after the last one. */
  function MakeEnv(env: seq<(string, string)>): (text: string)
    ensures text == "" <==> env == []
    ensures env != [] ==> EndsWith(text, EnvLine(env[|env| - 1]))
  {
    var lines := EnvLines(env);
    if env == [] then Join("\n", lines)
    else
      var n := |lines| - 1;
      assert lines == lines[..n] + [lines[n]];
      JoinSnocIsInterleave("\n", lines[..n], lines[n]);
      Join("\n", lines)
  }

  predicate EndsWith(s: string, suffix: string) {
    |suffix| <= |s| && s[|s| - |suffix|..] == suffix
  }

  /** Pairs that survive the trip through the `.env` text: keys without '=' or a
      newline, values without a newline. */
  predicate PlainEnv(env: seq<(string, string)>) {
    forall i :: 0 <= i < |env| ==> '=' !in env[i].0 && '\n' !in env[i].0 && '\n' !in env[i].1
  }

  /** Reads `.env` text back: one pair per line, split at the first '='. */
  function ParseEnv(text: string): Option<seq<(string, string)>> {
    if text == "" then Some([]) else ParsePairs(Split(text, '\n'))
  }

  function ParsePairs(lines: seq<string>): Option<seq<(string, string)>>
    decreases |lines|
  {
    if lines == [] then Some([])
    else match (Partition(lines[0], '='), ParsePairs(lines[1..]))
      case (Some(kv), Some(rest)) => Some([kv] + rest)
      case _ => None
  }

  /** The `.env` text loses nothing: parsing it gives back the pairs, in order. */
  lemma EnvRoundTrip(env: seq<(string, string)>)
    requires PlainEnv(env)
    ensures ParseEnv(MakeEnv(env)) == Some(env)
  {
    if env != [] {
      var lines := EnvLines(env);
      SplitJoin(lines, '\n');
      ParsePairsOfLines(env);
    }
  }

  lemma {:induction false} ParsePairsOfLines(env: seq<(string, string)>)
    requires PlainEnv(env)
    ensures ParsePairs(EnvLines(env)) == Some(env)
    decreases |env|
  {
    if env != [] {
      PartitionAt(env[0].0, '=', env[0].1);
      ParsePairsOfLines(env[1..]);
      assert EnvLines(env)[1..] == EnvLines(env[1..]);
      assert EnvLines(env)[0] == env[0].0 + ['='] + env[0].1;
      assert [env[0]] + env[1..] == env;
    }
  }

  lemma {:induction false} PartitionAt(a: string, c: char, b: string)
    requires c !in a
    ensures Partition(a + [c] + b, c) == Some((a, b))
    decreases |a|
  {
    if a != [] {
      PartitionAt(a[1..], c, b);
      assert (a + [c] + b)[1..] == a[1..] + [c] + b;
      assert [a[0]] + a[1..] == a;
    } else {
      assert (a + [c] + b)[1..] == b;
    }
  }

  // ---------------------------------------------------------------------------
  // make_runner (lines 29-36)

  /** The text of `run.sh`: the `.env` file's lines, each with the terminator
      `readlines` keeps, then the run command, joined by `" \\\n\t"`. */
  function Runner(envText: string, runCommand: string): (script: string)
    ensures EndsWith(script, runCommand)
  {
    RunnerLayout(envText, runCommand);
    Join(RunnerSeparator, ReadLines(envText) + [runCommand])
  }

  /** Each `.env` line is followed by exactly one separator, and the run command
      comes last with none after it. */
  lemma RunnerLayout(envText: string, runCommand: string)
    ensures Join(RunnerSeparator, ReadLines(envText) + [runCommand])
         == Concat(Suffixed(ReadLines(envText), RunnerSeparator)) + runCommand
  {
    JoinSnocIsInterleave(RunnerSeparator, ReadLines(envText), runCommand);
  }

  /** An empty `.env` file gives a runner that is exactly the run command. */
  lemma RunnerOfEmptyEnv(runCommand: string)
    ensures Runner("", runCommand) == runCommand
  {
    assert Split("", '\n') == [""];
  }

  /** The runner built from the `.env` text of `env`: every `KEY=VALUE` line but
      the last keeps its "\n", every line is followed by the separator, and the
      run command ends the script. */
  lemma RunnerOfEnv(env: seq<(string, string)>, runCommand: string)
    requires env != [] && PlainEnv(env)
    requires forall i :: 0 <= i < |env| ==> '\r' !in env[i].0 && '\r' !in env[i].1
    ensures var lines := EnvLines(env);
      Runner(MakeEnv(env), runCommand)
        == Concat(Suffixed(Suffixed(lines[..|lines| - 1], "\n") + [lines[|lines| - 1]], RunnerSeparator)) + runCommand
  {
    var lines := EnvLines(env);
    assert forall i :: 0 <= i < |lines| ==> lines[i] != "" && '\n' !in lines[i] && '\r' !in lines[i] by {
      forall i | 0 <= i < |lines| ensures lines[i] != "" && '\n' !in lines[i] && '\r' !in lines[i] {
        assert lines[i] == env[i].0 + "=" + env[i].1;
        assert lines[i][|env[i].0|] == '=';
      }
    }
    ReadLinesOfJoin(lines);
    RunnerLayout(MakeEnv(env), runCommand);
  }

  // ---------------------------------------------------------------------------
  // Mount entries (line 50)

  /** `[src, dest] = entry.split(":")`: exactly one colon, or a ValueError. */
  function ParseMount(entry: string): (r: Result<(string, string)>)
    ensures r.Ok? <==> multiset(entry)[':'] == 1
    ensures r.Ok? ==> ':' !in r.value.0 && ':' !in r.value.1 && entry == r.value.0 + ":" + r.value.1
    ensures r.Err? ==> r.error == MalformedMount(entry)
  {
    var parts := Split(entry, ':');
    JoinSplit(entry, ':');
    if |parts| == 2 then Ok((parts[0], parts[1])) else Err(MalformedMount(entry))
  }

  // ---------------------------------------------------------------------------
  // Output name (lines 86-88)

  /** `"/".join(name.split(":"))`: every colon becomes a slash. */
  function FoldTag(name: string): (r: string)
    ensures r == Replace(name, ':', '/')
    ensures ':' !in r
  {
    JoinSplitIsReplace(name, ':', '/');
    Join("/", Split(name, ':'))
  }

  /** `(image_dir / output_name).with_suffix(".tar.gz")`. */
  function OutputPath(home: Path, name: string): (r: Result<Path>)
    ensures var p := JoinPath(ImagesDir(home), FoldTag(name));
      r.Err? <==> Name(p) == ""
    ensures var p := JoinPath(ImagesDir(home), FoldTag(name));
      r.Ok? ==> |r.value| == |p| && r.value[..|p| - 1] == p[..|p| - 1] && EndsWith(r.value[|p| - 1], ArchiveSuffix)
  {
    WithSuffix(JoinPath(ImagesDir(home), FoldTag(name)), ArchiveSuffix)
  }

  /** The path the archive of `name` is written to, once the colon-separated
      parts of the name are known to be plain segments. */
  lemma OutputPathOfParts(home: Path, name: string, parts: seq<string>)
    requires Split(name, ':') == parts
    requires forall i :: 0 <= i < |parts| ==> IsSegment(parts[i])
    ensures OutputPath(home, name) == WithSuffix(ImagesDir(home) + parts, ArchiveSuffix)
  {
    var folded := FoldTag(name);
    assert folded == Join("/", parts);
    SegmentsOfJoin(parts);
    JoinStartsWithFirst("/", parts);
    assert JoinPath(ImagesDir(home), folded) == ImagesDir(home) + parts;
  }

  /** For a name whose colon-separated parts are plain segments and whose last part
      has no dot, the archive lies `k` directories below the images directory for
      `k` colons, and its file name is the last part plus ".tar.gz". */
  lemma OutputPathOfTaggedName(home: Path, name: string)
    requires var parts := Split(name, ':');
      (forall i :: 0 <= i < |parts| ==> IsSegment(parts[i])) && '.' !in parts[|parts| - 1]
    ensures var parts := Split(name, ':'); var k := multiset(name)[':'];
      OutputPath(home, name) == Ok(ImagesDir(home) + parts[..k] + [parts[k] + ArchiveSuffix])
  {
    var parts := Split(name, ':');
    OutputPathOfParts(home, name, parts);
    var k := |parts| - 1;
    AppendLast(ImagesDir(home), parts);
    WithSuffixOfPlain(ImagesDir(home) + parts[..k], parts[k], ArchiveSuffix);
  }

  lemma {:induction false} JoinStartsWithFirst(sep: string, parts: seq<string>)
    requires |parts| >= 1 && parts[0] != ""
    ensures |Join(sep, parts)| > 0 && Join(sep, parts)[0] == parts[0][0]
  {
  }

  /** A tag with a dot loses what follows its last dot: `name:1.0` and `name:1.5`
      are both packed to `images/name/1.tar.gz`, because `with_suffix` replaces the
      ".0" or ".5" that pathlib takes for a suffix, so the two images overwrite
      each other. */
  lemma DottedTagsCollide(home: Path, name: string, major: string, minor1: string, minor2: string)
    requires SimplePart(name) && SimplePart(major) && SimplePart(minor1) && SimplePart(minor2)
    ensures OutputPath(home, name + ":" + major + "." + minor1)
         == OutputPath(home, name + ":" + major + "." + minor2)
         == Ok(ImagesDir(home) + [name, major + ArchiveSuffix])
  {
    DottedTag(home, name, major, minor1);
    DottedTag(home, name, major, minor2);
  }

  /** A non-empty part of an image name with no colon, slash or dot. */
  predicate SimplePart(s: string) {
    s != "" && ':' !in s && '/' !in s && '.' !in s
  }

  lemma DottedTag(home: Path, name: string, major: string, minor: string)
    requires SimplePart(name) && SimplePart(major) && SimplePart(minor)
    ensures OutputPath(home, name + ":" + major + "." + minor) == Ok(ImagesDir(home) + [name, major + ArchiveSuffix])
  {
    OutputPathOfTagged(home, name, major, minor);
    ArchiveOfDotted(home, name, major, minor);
  }

  lemma OutputPathOfTagged(home: Path, name: string, major: string, minor: string)
    requires SimplePart(name) && SimplePart(major) && SimplePart(minor)
    ensures OutputPath(home, name + ":" + major + "." + minor)
         == WithSuffix(ImagesDir(home) + [name] + [major + "." + minor], ArchiveSuffix)
  {
    SplitOfTagged(name, major, minor);
    OutputPathOfPair(home, name + ":" + major + "." + minor, name, major + "." + minor);
  }

  lemma ArchiveOfDotted(home: Path, name: string, major: string, minor: string)
    requires SimplePart(major) && SimplePart(minor)
    ensures WithSuffix(ImagesDir(home) + [name] + [major + "." + minor], ArchiveSuffix)
         == Ok(ImagesDir(home) + [name, major + ArchiveSuffix])
  {
    WithSuffixOfDotted(ImagesDir(home) + [name], major, minor);
    assert ImagesDir(home) + [name] + [major + ArchiveSuffix] == ImagesDir(home) + [name, major + ArchiveSuffix];
  }

  lemma OutputPathOfPair(home: Path, full: string, name: string, tag: string)
    requires Split(full, ':') == [name, tag] && IsSegment(name) && IsSegment(tag)
    ensures OutputPath(home, full) == WithSuffix(ImagesDir(home) + [name] + [tag], ArchiveSuffix)
  {
    assert forall i :: 0 <= i < |[name, tag]| ==> IsSegment([name, tag][i]);
    OutputPathOfParts(home, full, [name, tag]);
    SamePath(ImagesDir(home), name, tag);
  }

  lemma SamePath(dir: Path, name: string, tag: string)
    ensures dir + [name, tag] == dir + [name] + [tag]
  {
  }

  lemma SplitOfTagged(name: string, major: string, minor: string)
    requires SimplePart(name) && SimplePart(major) && SimplePart(minor)
    ensures var tag := major + "." + minor;
      Split(name + ":" + major + "." + minor, ':') == [name, tag] && IsSegment(name) && IsSegment(tag)
  {
    var tag := major + "." + minor;
    DottedIsSegment(major, minor);
    SplitPrefix(name, tag, ':');
    SplitFree(tag, ':');
    TaggedText(name, major, minor);
  }

  lemma DottedIsSegment(major: string, minor: string)
    requires SimplePart(major) && SimplePart(minor)
    ensures var tag := major + "." + minor; ':' !in tag && IsSegment(tag)
  {
    var tag := major + "." + minor;
    assert tag[0] == major[0];
  }

  lemma TaggedText(name: string, major: string, minor: string)
    ensures name + ":" + major + "." + minor == name + [':'] + (major + "." + minor)
  {
  }

  lemma WithSuffixOfDotted(dir: Path, major: string, minor: string)
    requires SimplePart(major) && SimplePart(minor)
    ensures WithSuffix(dir + [major + "." + minor], ArchiveSuffix) == Ok(dir + [major + ArchiveSuffix])
  {
    var tag := major + "." + minor;
    LastDotAt(major, minor);
    assert Stem(tag) == major by {
      assert tag[..|major|] == major;
    }
    var p := dir + [tag];
    assert Name(p) == tag && Parent(p) == dir;
  }

  lemma {:induction false} LastDotAt(x: string, y: string)
    requires '.' !in y
    ensures LastDot(x + "." + y) == Some(|x|)
    decreases |y|
  {
    var s := x + "." + y;
    if y != [] {
      var y' := y[..|y| - 1];
      assert s[..|s| - 1] == x + "." + y';
      assert s[|s| - 1] == y[|y| - 1];
      LastDotAt(x, y');
    }
  }

  // ---------------------------------------------------------------------------
  // mount_files (lines 48-57)

  /** `Path(src).absolute().resolve()`, with the context directory as the working
      directory. */
  function MountSource(cwd: Path, src: string): Path {
    Normalize(JoinPath(cwd, src))
  }

  /** `image_build_dir / dest`. */
  function MountTarget(ws: Path, dest: string): Path {
    JoinPath(ws, dest)
  }

  function Unit(r: Result<Tree>, fs: Tree): Outcome<()> {
    match r
    case Ok(t) => Outcome(t, Ok(()))
    case Err(e) => Outcome(fs, Err(e))
  }

  /** One iteration of the loop: parse the entry, create the destination's parent,
      then copy a directory over the destination, copy a file to it, or do nothing
      when the source does not exist. */
  function MountOne(fs: Tree, cwd: Path, ws: Path, entry: string): (r: Outcome<()>)
    ensures r.result.Err? ==> r.fs.files == fs.files
    ensures r.result.Ok? ==> ParseMount(entry).Ok?
    ensures r.result.Ok? ==> var d := MountTarget(ws, ParseMount(entry).value.1);
      forall k :: k in fs.files && !IsPrefix(d, k) ==> k in r.fs.files && r.fs.files[k] == fs.files[k]
  {
    match ParseMount(entry)
    case Err(e) => Outcome(fs, Err(e))
    case Ok((src, dest)) =>
      var s := MountSource(cwd, src);
      var d := MountTarget(ws, dest);
      match MakeDirs(fs, Parent(d))
      case Err(e) => Outcome(fs, Err(e))
      case Ok(fs1) =>
        if IsDir(fs1, s) then
          CopyTreeKeepsOutside(fs1, s, d, true);
          Unit(CopyTree(fs1, s, d, true), fs1)
        else if IsFile(fs1, s) then
          CopyFileKeepsOutside(fs1, s, d);
          Unit(CopyFile(fs1, s, d), fs1)
        else Outcome(fs1, Ok(()))
  }

  /** The mounts applied in list order, stopping at the first that raises. */
  function MountAll(fs: Tree, cwd: Path, ws: Path, entries: seq<string>): Outcome<()> {
    Chain(fs, entries, MountStep(cwd, ws))
  }

  function MountStep(cwd: Path, ws: Path): (Tree, string) -> Outcome<()> {
    (t, e) => MountOne(t, cwd, ws, e)
  }

  method MountFiles(host: Host, cwd: Path, ws: Path, entries: seq<string>) returns (r: Result<()>)
    modifies host
    ensures Outcome(host.fs, r) == MountAll(old(host.fs), cwd, ws, entries)
  {
    ghost var start := host.fs;
    var mount := MountStep(cwd, ws);
    var i := 0;
    while i < |entries|
      invariant 0 <= i <= |entries|
      invariant Chain(start, entries[..i], mount) == Outcome(host.fs, Ok(()))
    {
      var out := mount(host.fs, entries[i]);
      ChainNext(start, entries, mount, i, host.fs);
      host.fs := out.fs;
      if out.result.Err? {
        ChainStops(start, entries, mount, i + 1);
        return out.result;
      }
      OkIsUnit(out);
      i := i + 1;
    }
    assert entries[..i] == entries;
    return Ok(());
  }

  /** The first mount that raises ends the loop: later entries are not applied. */
  lemma MountAllStops(fs: Tree, cwd: Path, ws: Path, entries: seq<string>, j: nat)
    requires j <= |entries| && MountAll(fs, cwd, ws, entries[..j]).result.Err?
    ensures MountAll(fs, cwd, ws, entries) == MountAll(fs, cwd, ws, entries[..j])
  {
    ChainStops(fs, entries, MountStep(cwd, ws), j);
  }

  /** A mount whose source is a file and whose destination is not a directory
      writes the source's contents at the destination, creates the destination's
      parent, and changes nothing else; in particular it overwrites a file the
      context copy or an earlier mount put there. */
  lemma MountedFileLands(fs: Tree, cwd: Path, ws: Path, entry: string)
    requires ParseMount(entry).Ok?
    requires var (src, dest) := ParseMount(entry).value;
      IsFile(fs, MountSource(cwd, src)) && !IsDir(fs, MountSource(cwd, src)) && !IsDir(fs, MountTarget(ws, dest))
    ensures var (src, dest) := ParseMount(entry).value;
      var s := MountSource(cwd, src); var d := MountTarget(ws, dest);
      var r := MountOne(fs, cwd, ws, entry);
      r.result.Ok? ==> r.fs == Tree(fs.files[d := fs.files[s]], fs.dirs + {Parent(d)})
  {
    var (src, dest) := ParseMount(entry).value;
    var s := MountSource(cwd, src);
    var d := MountTarget(ws, dest);
    if MakeDirs(fs, Parent(d)).Ok? {
      var fs1 := AddDir(fs, Parent(d));
      IsDirOfAddDir(fs, Parent(d), s);
      IsDirOfAddDir(fs, Parent(d), d);
    }
  }

  /** A mount whose source is a directory copies every file below it to the same
      place below the destination. */
  lemma MountedDirectoryOverlays(fs: Tree, cwd: Path, ws: Path, entry: string)
    requires ParseMount(entry).Ok?
    requires var (src, dest) := ParseMount(entry).value; IsDir(fs, MountSource(cwd, src))
    ensures var (src, dest) := ParseMount(entry).value;
      var s := MountSource(cwd, src); var d := MountTarget(ws, dest);
      var r := MountOne(fs, cwd, ws, entry);
      r.result.Ok? ==> forall k :: k in Sub(fs, s).files ==> d + k in r.fs.files && r.fs.files[d + k] == fs.files[s + k]
  {
    var (src, dest) := ParseMount(entry).value;
    var s := MountSource(cwd, src);
    var d := MountTarget(ws, dest);
    if MakeDirs(fs, Parent(d)).Ok? {
      IsDirOfAddDir(fs, Parent(d), s);
      assert Sub(AddDir(fs, Parent(d)), s).files == Sub(fs, s).files;
    }
  }

  /** A mount of a directory onto itself, such as `/opt/sdk:/opt/sdk`, raises as
      soon as the directory holds a file: every file copy meets its own source. */
  lemma SelfMountFails(fs: Tree, cwd: Path, ws: Path, entry: string)
    requires ParseMount(entry).Ok?
    requires var (src, dest) := ParseMount(entry).value;
      var d := MountTarget(ws, dest);
      MountSource(cwd, src) == d && IsDir(fs, d) && Sub(fs, d).files != map[]
    ensures MountOne(fs, cwd, ws, entry).result.Err?
  {
    var (src, dest) := ParseMount(entry).value;
    var d := MountTarget(ws, dest);
    if MakeDirs(fs, Parent(d)).Ok? {
      IsDirOfAddDir(fs, Parent(d), d);
      assert Sub(AddDir(fs, Parent(d)), d).files == Sub(fs, d).files;
    }
  }

  /** A mount whose source does not exist (and is not created by making the
      destination's parent) leaves every file as it was. */
  lemma MissingSourceKeepsFiles(fs: Tree, cwd: Path, ws: Path, entry: string)
    requires ParseMount(entry).Ok?
    requires var (src, dest) := ParseMount(entry).value;
      var s := MountSource(cwd, src);
      !Exists(fs, s) && !IsPrefix(s, Parent(MountTarget(ws, dest)))
    ensures var (src, dest) := ParseMount(entry).value;
      var d := MountTarget(ws, dest);
      var r := MountOne(fs, cwd, ws, entry);
      r.fs.files == fs.files && (r.result.Ok? <==> !FileOnPath(fs, Parent(d), |Parent(d)|))
  {
    var (src, dest) := ParseMount(entry).value;
    var s := MountSource(cwd, src);
    var d := MountTarget(ws, dest);
    IsDirOfAddDir(fs, Parent(d), s);
  }

  /** The mounts of `entries + [e]` are those of `entries`, then `e` on the result:
      list order is application order. */
  lemma MountAllAppend(fs: Tree, cwd: Path, ws: Path, entries: seq<string>, e: string)
    ensures var before := MountAll(fs, cwd, ws, entries);
      MountAll(fs, cwd, ws, entries + [e]) == if before.result.Err? then before else MountOne(before.fs, cwd, ws, e)
  {
    ChainSnoc(fs, entries, e, MountStep(cwd, ws));
  }

  /** Two file mounts to the same destination: the later one's contents win. */
  lemma LaterMountOverwrites(fs: Tree, cwd: Path, ws: Path, first: string, second: string)
    requires ParseMount(first).Ok? && ParseMount(second).Ok?
    requires ParseMount(first).value.1 == ParseMount(second).value.1
    requires var s1 := MountSource(cwd, ParseMount(first).value.0);
      var s2 := MountSource(cwd, ParseMount(second).value.0);
      var d := MountTarget(ws, ParseMount(first).value.1);
      IsFile(fs, s1) && !IsDir(fs, s1) && IsFile(fs, s2) && !IsDir(fs, s2) && !IsDir(fs, d) && s2 != d
    ensures var s2 := MountSource(cwd, ParseMount(second).value.0);
      var d := MountTarget(ws, ParseMount(first).value.1);
      var r := MountAll(fs, cwd, ws, [first, second]);
      r.result.Ok? ==> d in r.fs.files && r.fs.files[d] == fs.files[s2]
  {
    var s1 := MountSource(cwd, ParseMount(first).value.0);
    var s2 := MountSource(cwd, ParseMount(second).value.0);
    var d := MountTarget(ws, ParseMount(first).value.1);
    var mid := MountOne(fs, cwd, ws, first);
    MountAllPair(fs, cwd, ws, first, second);
    MountedFileLands(fs, cwd, ws, first);
    if mid.result.Ok? {
      FileMountMadeParent(fs, cwd, ws, first);
      NotDirAfterFileMount(fs, d, fs.files[s1], s2);
      NotDirAfterFileMount(fs, d, fs.files[s1], d);
      MountedFileLands(mid.fs, cwd, ws, second);
    }
  }

  lemma MountAllPair(fs: Tree, cwd: Path, ws: Path, first: string, second: string)
    ensures var mid := MountOne(fs, cwd, ws, first);
      MountAll(fs, cwd, ws, [first, second]) == if mid.result.Err? then mid else MountOne(mid.fs, cwd, ws, second)
  {
    MountAllAppend(fs, cwd, ws, [], first);
    MountAllAppend(fs, cwd, ws, [first], second);
    assert [] + [first] == [first];
    assert [first] + [second] == [first, second];
  }

  /** A mount that succeeds created its destination's parent. */
  lemma FileMountMadeParent(fs: Tree, cwd: Path, ws: Path, entry: string)
    requires ParseMount(entry).Ok? && MountOne(fs, cwd, ws, entry).result.Ok?
    ensures var d := MountTarget(ws, ParseMount(entry).value.1);
      !FileOnPath(fs, Parent(d), |Parent(d)|)
  {
  }

  /** After a file mount to `d`, a path that was neither a directory nor a prefix of
      `d`'s parent is still not a directory. */
  lemma NotDirAfterFileMount(fs: Tree, d: Path, b: Blob, q: Path)
    requires d != [] && !IsDir(fs, q) && (q in fs.files || q == d)
    requires !FileOnPath(fs, Parent(d), |Parent(d)|)
    ensures !IsDir(Tree(fs.files[d := b], fs.dirs + {Parent(d)}), q)
  {
    var fs1 := Tree(fs.files[d := b], fs.dirs + {Parent(d)});
    assert q != [];
    assert !IsPrefix(q, Parent(d));
    forall e | e in fs1.dirs ensures !IsPrefix(q, e) {
    }
    forall k | k in fs1.files ensures !Under(q, k) {
    }
  }

  // ---------------------------------------------------------------------------
  // build_image (lines 60-91) and the steps it calls (lines 19-45)

  /** What running the build command did: its exit status and what it left in the
      workspace. */
  datatype BuildRun = BuildRun(exitCode: int, workspace: Tree)

  /** `copy_files`: the context directory copied over the workspace. */
  function CopyContext(fs: Tree, ctx: Path, ws: Path): Outcome<()> {
    Unit(CopyTree(fs, ctx, ws, true), fs)
  }

  /** `build_program`: no build command is a ValueError from `shlex.split`; the
      command runs in the workspace, and a non-zero exit status raises
      `CalledProcessError` after its effects on the workspace. */
  function BuildStep(fs: Tree, ws: Path, build: Option<string>, run: (string, Tree) -> BuildRun): (r: Outcome<()>)
    ensures build.None? ==> r == Outcome(fs, Err(MissingBuildCommand))
    ensures build.Some? ==> var b := run(build.value, Sub(fs, ws));
      r.fs == ReplaceBelow(fs, ws, b.workspace) && (r.result.Ok? <==> b.exitCode == 0)
      && (r.result.Err? ==> r.result.error == BuildFailed(b.exitCode))
  {
    match build
    case None => Outcome(fs, Err(MissingBuildCommand))
    case Some(cmd) =>
      var b := run(cmd, Sub(fs, ws));
      var after := ReplaceBelow(fs, ws, b.workspace);
      if b.exitCode != 0 then Outcome(after, Err(BuildFailed(b.exitCode))) else Outcome(after, Ok(()))
  }

  /** `make_env`: the `.env` file written in the workspace. */
  function EnvStep(fs: Tree, ws: Path, env: seq<(string, string)>): Outcome<()> {
    Unit(WriteFile(fs, ws + [EnvFile], Text(MakeEnv(env))), fs)
  }

  /** `make_runner`: `run.sh` is opened for writing (and so emptied) before `.env`
      is read; a missing run command raises when the lines are joined, leaving the
      empty `run.sh` behind. */
  function RunnerStep(fs: Tree, ws: Path, cmd: Option<string>): Outcome<()> {
    match WriteFile(fs, ws + [RunnerFile], Text(""))
    case Err(e) => Outcome(fs, Err(e))
    case Ok(fs1) =>
      match ReadText(fs1, ws + [EnvFile])
      case Err(e) => Outcome(fs1, Err(e))
      case Ok(text) =>
        if cmd.None? then Outcome(fs1, Err(MissingRunCommand))
        else Unit(WriteFile(fs1, ws + [RunnerFile], Text(Runner(text, cmd.value))), fs1)
  }

  /** The archive `tar.add(workspace, arcname="image")` writes: the workspace's
      entries, all below the one top-level directory `image`. */
  function ArchiveOf(w: Tree): (r: Tree)
    ensures Rooted(r) && [ArchiveTop] in r.dirs
    ensures forall k :: k in w.files <==> [ArchiveTop] + k in r.files
    ensures forall k :: k in w.files ==> r.files[[ArchiveTop] + k] == w.files[k]
    ensures forall k :: k in r.files ==> |k| >= 1 && k[0] == ArchiveTop
    ensures forall d :: d in r.dirs ==> |d| >= 1 && d[0] == ArchiveTop
    ensures forall d :: d != [] ==> (d in w.dirs <==> [ArchiveTop] + d in r.dirs)
  {
    var g := Graft(w, [ArchiveTop]);
    assert forall k :: [ArchiveTop] + k in g.files ==> k in w.files by {
      forall k | [ArchiveTop] + k in g.files ensures k in w.files {
        assert ([ArchiveTop] + k)[1..] == k;
      }
    }
    assert forall d :: d != [] && [ArchiveTop] + d in g.dirs + {[ArchiveTop]} ==> d in w.dirs by {
      forall d | d != [] && [ArchiveTop] + d in g.dirs + {[ArchiveTop]} ensures d in w.dirs {
        assert ([ArchiveTop] + d)[1..] == d;
        assert [ArchiveTop] + d != [ArchiveTop];
      }
    }
    Tree(g.files, g.dirs + {[ArchiveTop]})
  }

  /** The archive write: the output path, then `tarfile.open(..., "w:gz")`. */
  function ArchiveStep(fs: Tree, home: Path, ws: Path, name: string): Outcome<Path> {
    match OutputPath(home, name)
    case Err(e) => Outcome(fs, Err(e))
    case Ok(out) =>
      match WriteFile(fs, out, Packed(ArchiveOf(Sub(fs, ws))))
      case Err(e) => Outcome(fs, Err(e))
      case Ok(fs1) => Outcome(fs1, Ok(out))
  }

  /** The workspace after the context copy and the mounts (lines 78-79). */
  function Staged(fs: Tree, ctx: Path, ws: Path, m: Manifest): Outcome<()> {
    var copied := CopyContext(fs, ctx, ws);
    if copied.result.Err? then copied else MountAll(copied.fs, ctx, ws, MountsOf(m))
  }

  /** The finished workspace (lines 78-83): copy, mounts, build, `.env`, `run.sh`. */
  function Workspace(fs: Tree, ctx: Path, ws: Path, m: Manifest, run: (string, Tree) -> BuildRun): Outcome<()> {
    var staged := Staged(fs, ctx, ws, m);
    if staged.result.Err? then staged
    else
      var built := BuildStep(staged.fs, ws, m.build, run);
      if built.result.Err? then built
      else
        var envd := EnvStep(built.fs, ws, EnvOf(m));
        if envd.result.Err? then envd else RunnerStep(envd.fs, ws, m.cmd)
  }

  /** The body of the `with` block (lines 68-91), once the temporary directory
      exists: read the manifest, finish the workspace, write the archive. */
  function InBuildDir(fs: Tree, home: Path, ctx: Path, ws: Path, slug: string,
                      yaml: string -> Manifest, run: (string, Tree) -> BuildRun): Outcome<Path>
  {
    match ReadText(fs, ctx + [ManifestFile])
    case Err(e) => Outcome(fs, Err(e))
    case Ok(text) =>
      var m := yaml(text);
      var done := Workspace(fs, ctx, ws, m, run);
      if done.result.Err? then Outcome(done.fs, Err(done.result.error))
      else ArchiveStep(done.fs, home, ws, ImageName(m, slug))
  }

  /** `context_dir.absolute().resolve()`. */
  function ContextDir(cwd: Path, contextArg: string): Path {
    Normalize(JoinPath(cwd, contextArg))
  }

  /** `build_image`: create the images directory, create the temporary workspace
      `ws`, do the build inside it, and remove the workspace whatever happened.
      The result is the archive path, where the Python function returns `None`. */
  function Build(fs: Tree, home: Path, cwd: Path, contextArg: string, ws: Path, slug: string,
                 yaml: string -> Manifest, run: (string, Tree) -> BuildRun): Outcome<Path>
  {
    match MakeDirs(fs, ImagesDir(home))
    case Err(e) => Outcome(fs, Err(e))
    case Ok(fs1) =>
      var inner := InBuildDir(AddDir(fs1, ws), home, ContextDir(cwd, contextArg), ws, slug, yaml, run);
      Outcome(Prune(inner.fs, ws), inner.result)
  }

  /** The temporary workspace is gone after `build_image`, whether the build
      succeeded or raised. */
  lemma BuildRemovesWorkspace(fs: Tree, home: Path, cwd: Path, contextArg: string, ws: Path, slug: string,
                              yaml: string -> Manifest, run: (string, Tree) -> BuildRun)
    requires !Exists(fs, ws)
    ensures !Exists(Build(fs, home, cwd, contextArg, ws, slug, yaml, run).fs, ws)
  {
    assert ws != [];
  }

  // ---------------------------------------------------------------------------
  // The steps as they change the host

  method CopyFiles(host: Host, ctx: Path, ws: Path) returns (r: Result<()>)
    modifies host
    ensures Outcome(host.fs, r) == CopyContext(old(host.fs), ctx, ws)
  {
    var copied := CopyTree(host.fs, ctx, ws, true);
    if copied.Err? {
      return Err(copied.error);
    }
    host.fs := copied.value;
    return Ok(());
  }

  method BuildProgram(host: Host, ws: Path, build: Option<string>, run: (string, Tree) -> BuildRun) returns (r: Result<()>)
    modifies host
    ensures Outcome(host.fs, r) == BuildStep(old(host.fs), ws, build, run)
  {
    if build.None? {
      return Err(MissingBuildCommand);
    }
    var b := run(build.value, Sub(host.fs, ws));
    host.fs := ReplaceBelow(host.fs, ws, b.workspace);
    if b.exitCode != 0 {
      return Err(BuildFailed(b.exitCode));
    }
    return Ok(());
  }

  method MakeEnvFile(host: Host, ws: Path, env: seq<(string, string)>) returns (r: Result<()>)
    modifies host
    ensures Outcome(host.fs, r) == EnvStep(old(host.fs), ws, env)
  {
    var written := WriteFile(host.fs, ws + [EnvFile], Text(MakeEnv(env)));
    if written.Err? {
      return Err(written.error);
    }
    host.fs := written.value;
    return Ok(());
  }

  method MakeRunnerFile(host: Host, ws: Path, cmd: Option<string>) returns (r: Result<()>)
    modifies host
    ensures Outcome(host.fs, r) == RunnerStep(old(host.fs), ws, cmd)
  {
    var emptied := WriteFile(host.fs, ws + [RunnerFile], Text(""));
    if emptied.Err? {
      return Err(emptied.error);
    }
    host.fs := emptied.value;
    var envText := ReadText(host.fs, ws + [EnvFile]);
    if envText.Err? {
      return Err(envText.error);
    }
    if cmd.None? {
      return Err(MissingRunCommand);
    }
    var written := WriteFile(host.fs, ws + [RunnerFile], Text(Runner(envText.value, cmd.value)));
    if written.Err? {
      return Err(written.error);
    }
    host.fs := written.value;
    return Ok(());
  }

  /** The body of the `with` block, step by step. */
  method BuildInDir(host: Host, ctx: Path, ws: Path, slug: string,
                    yaml: string -> Manifest, run: (string, Tree) -> BuildRun) returns (r: Result<Path>)
    modifies host
    ensures Outcome(host.fs, r) == InBuildDir(old(host.fs), host.home, ctx, ws, slug, yaml, run)
  {
    var manifestText := ReadText(host.fs, ctx + [ManifestFile]);
    if manifestText.Err? {
      return Err(manifestText.error);
    }
    var m := yaml(manifestText.value);
    var step := FinishWorkspace(host, ctx, ws, m, run);
    if step.Err? {
      return Err(step.error);
    }
    var out := OutputPath(host.home, ImageName(m, slug));
    if out.Err? {
      return Err(out.error);
    }
    var archived := WriteFile(host.fs, out.value, Packed(ArchiveOf(Sub(host.fs, ws))));
    if archived.Err? {
      return Err(archived.error);
    }
    host.fs := archived.value;
    return Ok(out.value);
  }

  /** Lines 78-83: copy, mount, build, `.env`, `run.sh`, stopping at the first
      step that raises. */
  method FinishWorkspace(host: Host, ctx: Path, ws: Path, m: Manifest, run: (string, Tree) -> BuildRun) returns (r: Result<()>)
    modifies host
    ensures Outcome(host.fs, r) == Workspace(old(host.fs), ctx, ws, m, run)
  {
    r := CopyFiles(host, ctx, ws);
    if r.Err? {
      return;
    }
    r := MountFiles(host, ctx, ws, MountsOf(m));
    if r.Err? {
      return;
    }
    r := BuildProgram(host, ws, m.build, run);
    if r.Err? {
      return;
    }
    r := MakeEnvFile(host, ws, EnvOf(m));
    if r.Err? {
      return;
    }
    r := MakeRunnerFile(host, ws, m.cmd);
  }

  /** `build_image` on the host: `ws` is the fresh name `tempfile` picks, so
      nothing exists there yet. */
  method BuildImage(host: Host, cwd: Path, contextArg: string, ws: Path, slug: string,
                    yaml: string -> Manifest, run: (string, Tree) -> BuildRun) returns (r: Result<Path>)
    requires !Exists(host.fs, ws)
    modifies host
    ensures Outcome(host.fs, r) == Build(old(host.fs), host.home, cwd, contextArg, ws, slug, yaml, run)
  {
    var made := MakeDirs(host.fs, ImagesDir(host.home));
    if made.Err? {
      return Err(made.error);
    }
    host.fs := AddDir(made.value, ws);
    r := BuildInDir(host, ContextDir(cwd, contextArg), ws, slug, yaml, run);
    host.fs := Prune(host.fs, ws);
  }

  // ---------------------------------------------------------------------------
  // Laws of the pipeline

  /** `copy_files` into an empty workspace makes the workspace exactly the
      context directory's tree. */
  lemma ContextCopyIsContext(fs: Tree, ctx: Path, ws: Path)
    requires Sub(fs, ws) == Empty
    requires CopyContext(fs, ctx, ws).result.Ok?
    ensures Sub(CopyContext(fs, ctx, ws).fs, ws) == Sub(fs, ctx)
  {
    var context := Sub(fs, ctx);
    assert CopyTree(fs, ctx, ws, true).Ok?;
    SubOfOverlayGraft(fs, ws, context);
    OverlayOfEmpty(context);
  }

  /** In `build_image`, with a fresh temporary directory, the workspace after
      `copy_files` is exactly the context directory's tree. */
  lemma BuildCopiesContext(fs: Tree, home: Path, ctx: Path, ws: Path)
    requires !Exists(fs, ws) && !IsPrefix(ws, ImagesDir(home))
    requires CopyContext(AddDir(AddDir(fs, ImagesDir(home)), ws), ctx, ws).result.Ok?
    ensures var fs2 := AddDir(AddDir(fs, ImagesDir(home)), ws);
      Sub(CopyContext(fs2, ctx, ws).fs, ws) == Sub(fs2, ctx)
  {
    FreshWorkspaceIsEmpty(fs, home, ws);
    ContextCopyIsContext(AddDir(AddDir(fs, ImagesDir(home)), ws), ctx, ws);
  }

  /** The temporary directory `build_image` creates is empty when the context is
      copied into it: creating the images directory puts nothing inside it. */
  lemma FreshWorkspaceIsEmpty(fs: Tree, home: Path, ws: Path)
    requires !Exists(fs, ws) && !IsPrefix(ws, ImagesDir(home))
    ensures Sub(AddDir(AddDir(fs, ImagesDir(home)), ws), ws) == Empty
  {
    SubOfMissing(fs, ws);
    var t := AddDir(AddDir(fs, ImagesDir(home)), ws);
    forall d | d != [] ensures ws + d != ImagesDir(home) {
      assert (ws + d)[..|ws|] == ws;
    }
    assert Sub(t, ws).files == Sub(fs, ws).files;
    assert Sub(t, ws).dirs == Sub(fs, ws).dirs;
  }

  /** The workspace the build leaves, with `.env` and then `run.sh` written into it. */
  function Finished(w: Tree, env: seq<(string, string)>, cmd: string): Tree {
    var envText := MakeEnv(env);
    Tree(w.files[[EnvFile] := Text(envText)][[RunnerFile] := Text(Runner(envText, cmd))], w.dirs)
  }

  /** A build command that exits with a non-zero status stops the build there:
      `.env`, `run.sh` and the archive are not written, and once the workspace is
      removed the host is as the context copy and the mounts left it. */
  lemma BuildFailureWritesNothing(fs: Tree, home: Path, ctx: Path, ws: Path, slug: string,
                                  yaml: string -> Manifest, run: (string, Tree) -> BuildRun)
    requires ReadText(fs, ctx + [ManifestFile]).Ok?
    requires var m := yaml(ReadText(fs, ctx + [ManifestFile]).value);
      var staged := Staged(fs, ctx, ws, m);
      staged.result.Ok? && m.build.Some? && run(m.build.value, Sub(staged.fs, ws)).exitCode != 0
    ensures var m := yaml(ReadText(fs, ctx + [ManifestFile]).value);
      var staged := Staged(fs, ctx, ws, m);
      var b := run(m.build.value, Sub(staged.fs, ws));
      var r := InBuildDir(fs, home, ctx, ws, slug, yaml, run);
      r.result == Err(BuildFailed(b.exitCode)) && r.fs == ReplaceBelow(staged.fs, ws, b.workspace)
      && Prune(r.fs, ws) == Prune(staged.fs, ws)
  {
    var m := yaml(ReadText(fs, ctx + [ManifestFile]).value);
    var staged := Staged(fs, ctx, ws, m);
    var b := run(m.build.value, Sub(staged.fs, ws));
    PruneOfReplaceBelow(staged.fs, ws, b.workspace);
  }

  /** A workspace that was finished without error is the build's output with the
      `.env` text of the manifest's environment and the runner script written into
      it, and the build exited with status 0. */
  lemma FinishedWorkspace(fs: Tree, ctx: Path, ws: Path, m: Manifest, run: (string, Tree) -> BuildRun)
    requires Workspace(fs, ctx, ws, m, run).result.Ok?
    ensures Staged(fs, ctx, ws, m).result.Ok? && m.build.Some? && m.cmd.Some?
    ensures var b := run(m.build.value, Sub(Staged(fs, ctx, ws, m).fs, ws));
      b.exitCode == 0 &&
      (Rooted(b.workspace) ==> Sub(Workspace(fs, ctx, ws, m, run).fs, ws) == Finished(b.workspace, EnvOf(m), m.cmd.value))
  {
    var staged := Staged(fs, ctx, ws, m);
    var b := run(m.build.value, Sub(staged.fs, ws));
    var built := BuildStep(staged.fs, ws, m.build, run);
    var envd := EnvStep(built.fs, ws, EnvOf(m));
    var done := RunnerStep(envd.fs, ws, m.cmd);
    assert Workspace(fs, ctx, ws, m, run) == done;
    EnvStepWrites(built.fs, ws, EnvOf(m));
    RunnerStepWrites(envd.fs, ws, m.cmd);
    if Rooted(b.workspace) {
      SubOfReplaceBelow(staged.fs, ws, b.workspace);
    }
  }

  /** `make_env` puts the `.env` text at `.env` in the workspace and nothing else. */
  lemma EnvStepWrites(fs: Tree, ws: Path, env: seq<(string, string)>)
    requires EnvStep(fs, ws, env).result.Ok?
    ensures var r := EnvStep(fs, ws, env).fs;
      ws + [EnvFile] in r.files && r.files[ws + [EnvFile]] == Text(MakeEnv(env))
      && Sub(r, ws) == Tree(Sub(fs, ws).files[[EnvFile] := Text(MakeEnv(env))], Sub(fs, ws).dirs)
  {
    SubOfWrite(fs, ws, EnvFile, Text(MakeEnv(env)));
  }

  /** Writing a file twice keeps the second contents. */
  lemma SubOfRewrite(fs: Tree, ws: Path, x: string, first: Blob, second: Blob)
    ensures var fs1 := Tree(fs.files[ws + [x] := first], fs.dirs);
      Sub(Tree(fs1.files[ws + [x] := second], fs1.dirs), ws) == Tree(Sub(fs, ws).files[[x] := second], Sub(fs, ws).dirs)
  {
    var fs1 := Tree(fs.files[ws + [x] := first], fs.dirs);
    assert fs1.files[ws + [x] := second] == fs.files[ws + [x] := second];
    SubOfWrite(fs, ws, x, second);
  }

  /** `make_runner` puts at `run.sh` the runner built from what `.env` holds, and
      writes nothing else. */
  lemma RunnerStepWrites(fs: Tree, ws: Path, cmd: Option<string>)
    requires RunnerStep(fs, ws, cmd).result.Ok?
    ensures cmd.Some? && ws + [EnvFile] in fs.files && fs.files[ws + [EnvFile]].Text?
    ensures var envText := fs.files[ws + [EnvFile]].chars;
      Sub(RunnerStep(fs, ws, cmd).fs, ws)
        == Tree(Sub(fs, ws).files[[RunnerFile] := Text(Runner(envText, cmd.value))], Sub(fs, ws).dirs)
  {
    var fs1 := Tree(fs.files[ws + [RunnerFile] := Text("")], fs.dirs);
    assert ws + [RunnerFile] != ws + [EnvFile] by {
      assert (ws + [RunnerFile])[|ws|] != (ws + [EnvFile])[|ws|];
    }
    var envText := fs.files[ws + [EnvFile]].chars;
    var script := Text(Runner(envText, cmd.value));
    var done := Tree(fs1.files[ws + [RunnerFile] := script], fs1.dirs);
    assert RunnerStep(fs, ws, cmd).fs == done;
    SubOfRewrite(fs, ws, RunnerFile, Text(""), script);
  }

  /** A build that succeeds wrote the archive of the finished workspace at the
      output path. */
  lemma ArchiveOfBuild(fs: Tree, home: Path, ctx: Path, ws: Path, slug: string,
                       yaml: string -> Manifest, run: (string, Tree) -> BuildRun)
    requires InBuildDir(fs, home, ctx, ws, slug, yaml, run).result.Ok?
    ensures ReadText(fs, ctx + [ManifestFile]).Ok?
    ensures var m := yaml(ReadText(fs, ctx + [ManifestFile]).value);
      var done := Workspace(fs, ctx, ws, m, run);
      var r := InBuildDir(fs, home, ctx, ws, slug, yaml, run);
      done.result.Ok? && OutputPath(home, ImageName(m, slug)) == Ok(r.result.value)
      && r.fs == Tree(done.fs.files[r.result.value := Packed(ArchiveOf(Sub(done.fs, ws)))], done.fs.dirs)
  {
    var rt := ReadText(fs, ctx + [ManifestFile]);
    assert rt.Ok?;
    var m := yaml(rt.value);
    var done := Workspace(fs, ctx, ws, m, run);
    assert done.result.Ok?;
    assert InBuildDir(fs, home, ctx, ws, slug, yaml, run) == ArchiveStep(done.fs, home, ws, ImageName(m, slug));
    ArchiveStepWrites(done.fs, home, ws, ImageName(m, slug));
  }

  /** The archive step writes the archive file and nothing else. */
  lemma ArchiveStepWrites(fs: Tree, home: Path, ws: Path, name: string)
    requires ArchiveStep(fs, home, ws, name).result.Ok?
    ensures var r := ArchiveStep(fs, home, ws, name);
      OutputPath(home, name) == Ok(r.result.value)
      && r.fs == Tree(fs.files[r.result.value := Packed(ArchiveOf(Sub(fs, ws)))], fs.dirs)
  {
    var out := OutputPath(home, name);
    assert out.Ok?;
    var blob := Packed(ArchiveOf(Sub(fs, ws)));
    var w := WriteFile(fs, out.value, blob);
    assert w.Ok?;
    assert ArchiveStep(fs, home, ws, name) == Outcome(w.value, Ok(out.value));
  }

  /** What a successful `build_image` leaves: the build command exited with 0,
      the archive is at the path derived from the image name, and (unless that
      path lies inside the removed workspace) it holds, under `image`, exactly the
      build's output plus `.env` and `run.sh`. */
  lemma BuildArchivesWorkspace(fs: Tree, home: Path, cwd: Path, contextArg: string, ws: Path, slug: string,
                               yaml: string -> Manifest, run: (string, Tree) -> BuildRun)
    requires Build(fs, home, cwd, contextArg, ws, slug, yaml, run).result.Ok?
    ensures MakeDirs(fs, ImagesDir(home)).Ok?
    ensures var fs2 := AddDir(AddDir(fs, ImagesDir(home)), ws); var ctx := ContextDir(cwd, contextArg);
      ReadText(fs2, ctx + [ManifestFile]).Ok?
    ensures var fs2 := AddDir(AddDir(fs, ImagesDir(home)), ws); var ctx := ContextDir(cwd, contextArg);
      var m := yaml(ReadText(fs2, ctx + [ManifestFile]).value);
      var staged := Staged(fs2, ctx, ws, m);
      staged.result.Ok? && m.build.Some? && m.cmd.Some?
    ensures var fs2 := AddDir(AddDir(fs, ImagesDir(home)), ws); var ctx := ContextDir(cwd, contextArg);
      var m := yaml(ReadText(fs2, ctx + [ManifestFile]).value);
      var b := run(m.build.value, Sub(Staged(fs2, ctx, ws, m).fs, ws));
      var r := Build(fs, home, cwd, contextArg, ws, slug, yaml, run);
      b.exitCode == 0 && OutputPath(home, ImageName(m, slug)) == Ok(r.result.value)
      && (Rooted(b.workspace) && !IsPrefix(ws, r.result.value) ==>
            r.result.value in r.fs.files
            && r.fs.files[r.result.value] == Packed(ArchiveOf(Finished(b.workspace, EnvOf(m), m.cmd.value))))
  {
    var fs2 := AddDir(AddDir(fs, ImagesDir(home)), ws);
    var ctx := ContextDir(cwd, contextArg);
    ArchiveOfBuild(fs2, home, ctx, ws, slug, yaml, run);
    var m := yaml(ReadText(fs2, ctx + [ManifestFile]).value);
    FinishedWorkspace(fs2, ctx, ws, m, run);
  }

  /** With a manifest that gives only the build and run commands, the image is
      named `qnxtainer-<slug>`, nothing is mounted, `.env` is empty and `run.sh` is
      exactly the run command. */
  lemma DefaultManifest(slug: string, cmd: string, build: string, w: Tree)
    ensures var m := Manifest(None, Some(cmd), Some(build), None, None);
      ImageName(m, slug) == "qnxtainer-" + slug && MountsOf(m) == []
      && Finished(w, EnvOf(m), cmd).files[[EnvFile]] == Text("")
      && Finished(w, EnvOf(m), cmd).files[[RunnerFile]] == Text(cmd)
  {
    RunnerOfEmptyEnv(cmd);
  }

  /** Only the images directory itself is created: a tagged name `name:tag`
      (writing `images/name/tag.tar.gz`) fails unless `images/name` already is a
      directory. */
  lemma TaggedNameNeedsImageDirectory(fs: Tree, home: Path, ws: Path, name: string, tag: string)
    requires SimplePart(name) && SimplePart(tag)
    requires !IsDir(fs, ImagesDir(home) + [name])
    ensures ArchiveStep(fs, home, ws, name + ":" + tag).result.Err?
  {
    var out := ImagesDir(home) + [name] + [tag + ArchiveSuffix];
    OutputPathOfTag(home, name, tag);
    assert Parent(out) == ImagesDir(home) + [name];
    assert WriteFile(fs, out, Packed(ArchiveOf(Sub(fs, ws)))).Err?;
  }

  lemma OutputPathOfTag(home: Path, name: string, tag: string)
    requires SimplePart(name) && SimplePart(tag)
    ensures OutputPath(home, name + ":" + tag) == Ok(ImagesDir(home) + [name] + [tag + ArchiveSuffix])
  {
    var full := name + ":" + tag;
    assert full == name + [':'] + tag;
    SplitPrefix(name, tag, ':');
    SplitFree(tag, ':');
    OutputPathOfPair(home, full, name, tag);
    WithSuffixOfPlain(ImagesDir(home) + [name], tag, ArchiveSuffix);
  }
}
