# QNXtainer in Dafny

This project models the core of QNXtainer, a small container engine for QNX:

- **Image builder** (`image_builder/image_builder.py`). It copies a build context into a
  temporary workspace and applies the manifest's `mounts`. It runs the build command there,
  then writes the `.env` file and the `run.sh` runner. Last, it packs the workspace, under a
  single top-level directory `image`, into an archive below `~/.qnxtainer/images`. The
  archive's path is the name with each colon turned into a directory, and with its last
  dotted suffix replaced by `.tar.gz` (`demo.v2` is written to `images/demo.tar.gz`).
- **Image and container store** (`server/container_images.py`). `unpack_image` extracts an
  image archive into `~/.qnxtainer/images/<name>/<tag>`. `prep_container` copies an image
  directory to a fresh `~/.qnxtainer/containers/<id>`.
- **Catalog** (`server/data.py`, with the records of `server/image.py` and
  `server/container.py`). It keeps two append-only lists and exports them as JSON.

How the pieces are modelled:

- The host filesystem is a value, `FileTree.Tree`: a map from absolute paths (segment lists)
  to file contents, plus a set of directories that were created explicitly. Any path above
  an entry is a directory too.
- A gzip tar archive is a file whose contents are a tree (`Packed`).
- The machine is a `FileTree.Host` object with a mutable `fs` field and the user's home
  directory.
- Each step that changes the disk is a method with `modifies host`. Its `ensures` equates
  the new disk and the result with a function of the old disk, and the lemmas are proved
  about those functions.
- An exception is an `Error` value. A step that raises returns `Err` and keeps the effects
  it already had. For example, `make_runner` has already emptied `run.sh` when it fails.
- The catalog is a `class Data` whose two `seq` fields `AddImage` and `AddContainer` append
  to. `to_json` is modelled as the JSON value that `json.dumps` would serialise.

Python library behaviour the model spells out:

- `str.split`, `str.join` and `readlines` (universal newlines, line ends kept).
- pathlib's `/`: an absolute right-hand side replaces the left.
- `with_suffix` (Python 3.12 suffix rules) and `resolve()` (lexical resolution of `..`).
- `mkdir(parents=True, exist_ok=True)`.
- `shutil.copytree` with and without `dirs_exist_ok`, and `shutil.copy2`, as long as no copied
  file lands where a directory is and no copied directory where a file is (see "Left out").
  A directory copied onto itself raises `shutil.Error` once it holds a file, as each
  file copy meets its own source.
- `date.isoformat()`.

Behaviour of the code that the lemmas make explicit:

- A tag with a dot loses its last dotted part. `name:1.0` and `name:1.5` are written to the
  same archive, `images/name/1.tar.gz` (`DottedTagsCollide`).
- Only `~/.qnxtainer/images` is created. A `name:tag` build therefore fails to write its
  archive unless `images/name` already exists (`TaggedNameNeedsImageDirectory`).
- `unpack_image` does not clean up after a failure. The empty image directory stays
  (`FailedUnpackKeepsDirectory`).
- Extracting overlays the archive on an existing image directory and does not replace it
  (`UnpackOverlays`).
- The catalog never deduplicates (`ExportKeepsDuplicates`).

Other facts about the code that the model keeps:

- `unpack_image` returns the image directory's path.
- `Data` is two plain lists, with no ids, aliases, deduplication or lock.

## Model

| member | source | states |
|---|---|---|
| `ImageBuilder.EnvLines` | image_builder/image_builder.py:41-43 | one line per environment pair, in the mapping's order, each exactly `KEY=VALUE` |
| `ImageBuilder.MakeEnv` | image_builder/image_builder.py:39-45 | the `.env` text is empty exactly when the environment is empty, and it ends with the last pair's line (no trailing newline) |
| `ImageBuilder.EnvRoundTrip` | image_builder/image_builder.py:41-43 | splitting the `.env` text at newlines and each line at its first `=` gives back every pair in order, for keys without `=` or newline and values without newline |
| `ImageBuilder.Runner` | image_builder/image_builder.py:35 | the runner script always ends with the run command |
| `ImageBuilder.RunnerLayout` | image_builder/image_builder.py:35 | every line `readlines` returns is followed by exactly one `" \\\n\t"`, and the run command comes last with no separator after it |
| `ImageBuilder.RunnerOfEmptyEnv` | image_builder/image_builder.py:33-36 | with an empty `.env` the runner is exactly the run command |
| `ImageBuilder.RunnerOfEnv` | image_builder/image_builder.py:35-45 | for the `.env` that `make_env` wrote: every `KEY=VALUE` line but the last keeps its `"\n"`, each line is followed by the separator, then the command |
| `ImageBuilder.ParseMount` | image_builder/image_builder.py:50 | a mount entry is accepted exactly when it has one colon; the two sides have no colon and rebuild the entry; any other entry raises ValueError (from the unpacking of the split, whose message gives only the count of values; the model's `MalformedMount` error carries the entry) |
| `ImageBuilder.OutputPath` | image_builder/image_builder.py:86-88 | the archive path keeps every segment of `images/` joined with the folded name but the last, whose name gains the `.tar.gz` suffix; it raises exactly when that joined path has an empty name (the root) |
| `ImageBuilder.FoldTag` | image_builder/image_builder.py:86 | every colon of the name becomes a slash and no colon is left |
| `ImageBuilder.OutputPathOfParts` | image_builder/image_builder.py:86-88 | when the colon-separated parts are plain segments, the archive path is `with_suffix` of the images directory followed by those parts |
| `ImageBuilder.OutputPathOfTaggedName` | image_builder/image_builder.py:86-88 | a name with k colons, plain parts and no dot in its last part is archived k directories below the images directory, as the last part plus `.tar.gz` |
| `ImageBuilder.OutputPathOfTag` | image_builder/image_builder.py:86-88 | `name:tag` is archived at `images/name/tag.tar.gz` |
| `ImageBuilder.DottedTagsCollide` | image_builder/image_builder.py:86-88 | `name:M.a` and `name:M.b` give the same archive path `images/name/M.tar.gz` |
| `ImageBuilder.TaggedNameNeedsImageDirectory` | image_builder/image_builder.py:63-64 | the archive write of `name:tag` fails when `images/name` is not a directory |
| `ImageBuilder.MountOne` | image_builder/image_builder.py:50-57 | a mount that raises (a bad entry, a parent that cannot be made, a failed copy) changes no file; a mount that succeeds had a well-formed entry and changes no file outside its destination |
| `ImageBuilder.SelfMountFails` | image_builder/image_builder.py:52-55 | a directory mounted onto itself (such as `/opt/sdk:/opt/sdk`) raises as soon as it holds a file |
| `ImageBuilder.MountFiles` | image_builder/image_builder.py:48-57 | the loop applies the entries in list order and stops at the first that raises, leaving the disk as the mount function of the old disk says |
| `ImageBuilder.MountAllStops` | image_builder/image_builder.py:49-50 | once a mount raises, later entries are never applied |
| `ImageBuilder.MountAllAppend` | image_builder/image_builder.py:49 | the mounts of `entries + [e]` are those of `entries` followed by `e` on their result |
| `ImageBuilder.MountedFileLands` | image_builder/image_builder.py:51-57 | a file source is copied to the destination, overwriting what was there, the destination's parent is created, and nothing else changes |
| `ImageBuilder.MountedDirectoryOverlays` | image_builder/image_builder.py:54-55 | a directory source copies each of its files to the same relative place below the destination |
| `ImageBuilder.MissingSourceKeepsFiles` | image_builder/image_builder.py:53-57 | a source that does not exist changes no file, and the mount succeeds exactly when the destination's parent can be created |
| `ImageBuilder.LaterMountOverwrites` | image_builder/image_builder.py:49-57 | of two file mounts to one destination, the later one's contents remain |
| `ImageBuilder.FileMountMadeParent` | image_builder/image_builder.py:53 | a mount that succeeded had no file on the way to its destination's parent |
| `ImageBuilder.BuildStep` | image_builder/image_builder.py:23-26 | no build command raises before anything runs; otherwise the workspace becomes what the command left, and the step fails with the exit code exactly when it is non-zero |
| `ImageBuilder.ArchiveOf` | image_builder/image_builder.py:90-91 | the archive holds every workspace file, with the same contents, below the top-level `image`, and nothing else; it holds every workspace directory below `image` too, empty ones included, and no other directory |
| `ImageBuilder.ContextCopyIsContext` | image_builder/image_builder.py:19-20 | a context copy into an empty workspace makes the workspace exactly the context directory's tree |
| `ImageBuilder.FreshWorkspaceIsEmpty` | image_builder/image_builder.py:63-67 | the fresh temporary directory is still empty after the images directory is created |
| `ImageBuilder.BuildCopiesContext` | image_builder/image_builder.py:62-78 | in `build_image` the workspace after `copy_files` is exactly the context directory's tree |
| `ImageBuilder.CopyFiles` | image_builder/image_builder.py:19-20 | the host disk after the context copy equals `copytree(..., dirs_exist_ok=True)` of the old disk |
| `ImageBuilder.BuildProgram` | image_builder/image_builder.py:23-26 | the host disk and result after the build equal the build-step function of the old disk |
| `ImageBuilder.MakeEnvFile` | image_builder/image_builder.py:39-45 | `.env` is written with the `make_env` text, and a write error is reported |
| `ImageBuilder.MakeRunnerFile` | image_builder/image_builder.py:29-36 | `run.sh` is emptied first, then `.env` is read, a missing run command raises, and then the runner is written |
| `ImageBuilder.FinishWorkspace` | image_builder/image_builder.py:78-83 | copy, mounts, build, `.env` and `run.sh` run in this order, stopping at the first step that raises |
| `ImageBuilder.BuildInDir` | image_builder/image_builder.py:66-91 | the manifest is read, the workspace finished and the archive written at the output path, which is returned |
| `ImageBuilder.BuildImage` | image_builder/image_builder.py:60-91 | for a workspace path where nothing exists yet, as `TemporaryDirectory` guarantees: the images directory is created, the temporary workspace exists during the build and is removed afterwards, whatever the outcome |
| `ImageBuilder.BuildRemovesWorkspace` | image_builder/image_builder.py:63-91 | after `build_image`, successful or not, nothing exists at the workspace path |
| `ImageBuilder.BuildFailureWritesNothing` | image_builder/image_builder.py:81-91 | a non-zero build exit stops the build: no `.env`, `run.sh` or archive is written; and, for a build command that writes only inside the workspace, outside it the disk is as the copy and mounts left it |
| `ImageBuilder.FinishedWorkspace` | image_builder/image_builder.py:78-83 | a finished workspace means the build exited 0, and the workspace is the build's output plus `.env` and the runner made from it |
| `ImageBuilder.EnvStepWrites` | image_builder/image_builder.py:44-45 | `make_env` changes only `.env`, to the `make_env` text |
| `ImageBuilder.RunnerStepWrites` | image_builder/image_builder.py:29-36 | `make_runner` succeeds only with a run command and a text `.env`, and changes only `run.sh`, to the runner built from that `.env` |
| `ImageBuilder.ArchiveStepWrites` | image_builder/image_builder.py:86-91 | the archive step writes exactly the archive file at the output path |
| `ImageBuilder.ArchiveOfBuild` | image_builder/image_builder.py:66-91 | a successful build has read its manifest, finished the workspace, and written the archive of that workspace at the output path of the image name |
| `ImageBuilder.BuildArchivesWorkspace` | image_builder/image_builder.py:60-91 | after a successful `build_image` the archive at the output path holds, under `image`, the build's output plus `.env` and `run.sh` |
| `ImageBuilder.DefaultManifest` | image_builder/image_builder.py:73-77 | a manifest with only `build` and `cmd` names the image `qnxtainer-<slug>`, mounts nothing, and gives an empty `.env` and a runner that is just the command |
| `ContainerImages.GetImageDir` | server/container_images.py:7-10 | a relative name and tag give a directory inside the images directory; an absolute tag replaces everything before it |
| `ContainerImages.ImageDirLayout` | server/container_images.py:7-10 | for one-segment name and tag the image directory is `images/<name>/<tag>` |
| `ContainerImages.DefaultImageDir` | server/container_images.py:7 | without a tag the image directory is `images/<name>/latest` |
| `ContainerImages.ImageDirInjective` | server/container_images.py:7-10 | distinct one-segment (name, tag) pairs have distinct image directories |
| `ContainerImages.OpenArchive` | server/container_images.py:18 | opening succeeds exactly when the path is an archive file reachable through directories, and yields its entries |
| `ContainerImages.Unpack` | server/container_images.py:13-20 | a successful unpack returns the image directory of the name and tag |
| `ContainerImages.UnpackImage` | server/container_images.py:13-20 | the host disk after `unpack_image` equals the unpack function of the old disk |
| `ContainerImages.UnpackOverlays` | server/container_images.py:16-19 | the archive was a file; the image directory ends as its old contents overlaid by the archive's entries, and nothing outside it changes |
| `ContainerImages.UnpackIdempotent` | server/container_images.py:16-19 | unpacking the same archive again changes nothing |
| `ContainerImages.FailedUnpackKeepsDirectory` | server/container_images.py:17-18 | when the archive cannot be opened, the newly created image directory remains |
| `ContainerImages.ContainerDir` | server/container_images.py:25-27 | a relative id gives a directory inside the containers directory |
| `ContainerImages.ContainerDirLayout` | server/container_images.py:25-27 | for a uuid4 hex id the container directory is `containers/<id>` |
| `ContainerImages.Prep` | server/container_images.py:23-29 | a successful `prep_container` returns the container id |
| `ContainerImages.PrepContainer` | server/container_images.py:23-29 | the host disk after `prep_container` equals the prep function of the old disk |
| `ContainerImages.PrepCopiesImage` | server/container_images.py:28 | the new container directory holds exactly the image directory's tree, and nothing outside it changes |
| `ContainerImages.PrepLeavesImageAndOthers` | server/container_images.py:24-28 | the image directory and every other container directory are unchanged |
| `ContainerImages.PrepFailures` | server/container_images.py:28 | a missing image directory raises and changes nothing; an existing container directory raises FileExistsError and changes nothing |
| `ContainerImages.ContainerWriteKeepsImage` | server/container_images.py:28 | the container is a copy: writing inside it leaves the image directory unchanged |
| `Records.ParseIsoOfIsoFormat` | server/image.py:15 | the ISO text of a date reads back as that date |
| `Records.IsoFormatInjective` | server/image.py:15 | distinct dates have distinct ISO texts |
| `Records.IsoFormat` | server/image.py:15 | the ISO text is ten characters with dashes at positions 4 and 7 |
| `Records.ImageToDict` | server/image.py:11-17 | the projection has exactly the keys name, tag, created_at, description, in that order |
| `Records.ImageRoundTrip` | server/image.py:11-17 | the image is recovered from its projection, so the projection loses nothing |
| `Records.ContainerToDict` | server/container.py:10-15 | the projection has exactly the keys status, cpu, memory, in that order |
| `Records.ContainerRoundTrip` | server/container.py:10-15 | the container is recovered from its projection |
| `ServerData.Given` | server/data.py:12-13 | a missing or empty list argument gives an empty list, and a non-empty one is kept as given |
| `ServerData.Data.constructor` | server/data.py:7-13 | both fields start as the given lists, or empty when the argument is missing or empty |
| `ServerData.Data.AddImage` | server/data.py:15-16 | the image is appended at the end of `images`, and `containers` is unchanged |
| `ServerData.Data.AddContainer` | server/data.py:18-19 | the container is appended at the end of `containers`, and `images` is unchanged |
| `ServerData.Data.ToJson` | server/data.py:21-27 | the export has exactly the keys images and containers, and both lists can be read back from it unchanged |
| `ServerData.Export` | server/data.py:21-27 | the export has exactly the keys images and containers, in that order |
| `ServerData.ExportRoundTrip` | server/data.py:21-27 | the export holds both lists with their order and repetitions: reading it back gives them exactly |
| `ServerData.ExportAfterAddImage` | server/data.py:15-16 | after adding an image, the exported images gain its projection at the end and the exported containers are unchanged |
| `ServerData.ExportAfterAddContainer` | server/data.py:18-19 | after adding a container, the exported containers gain its projection at the end and the exported images are unchanged |
| `ServerData.ExportKeepsDuplicates` | server/data.py:16 | an image added twice is exported twice |

## Left out

- Console output (`print`), the `typer` command line and `server/main.py`: they are not part
  of the core.
- YAML parsing: the parsed manifest is a parameter `yaml` of the build, a total function from
  the manifest text to a `Manifest`. An empty or non-mapping `qnxtainer.yml` is therefore not
  modelled: there `yaml.safe_load` gives `None`, a list or a scalar, and `manifest.get`
  raises AttributeError before the context is copied.
- `Faker().slug()`: the random slug is a parameter.
- `uuid.uuid4()`: the fresh id is a parameter. `PrepContainer` requires it to have the
  uuid4 hex form.
- `tempfile.TemporaryDirectory()`: the fresh directory name is a parameter `ws`.
- `subprocess.run` and `shlex.split`: the build command is a parameter `run`. It maps the
  command and the workspace to an exit status and the workspace it leaves. Quoting errors
  in `shlex` and a command that cannot be started are not modelled.
- The build command is assumed to read and write only the workspace, because `run` sees
  and returns nothing else. A real command can write anywhere, `~/.qnxtainer/images`
  included. What `BuildFailureWritesNothing`, `FinishedWorkspace` and
  `BuildArchivesWorkspace` say about the disk after the build holds only under that
  assumption.
- `os.chdir`: the working directory is the explicit `cwd`. Mount sources are resolved
  against the context directory, as after the code's `chdir`.
- `json.dumps` text encoding: the export is a structured JSON value. A float is an opaque
  64-bit pattern.
- gzip and the tar format: an archive is the tree it contains. Tar member metadata (modes,
  owners, times), links, and extraction filters are not modelled. `copy2` metadata is not
  modelled either.
- Symbolic links: `resolve()` is lexical, and `..` in a mount destination or an image name is
  an ordinary segment.
- A relative archive path for `unpack_image`: the model takes the archive's absolute path.
- Concurrency: the single-threaded server needs no lock, and none is modelled.
- `Data` aliasing: Python keeps a non-empty list argument itself, so a later `add_image` also
  changes the caller's list. The model copies the value.
- `FileTree.CopyTree`, `FileTree.Overlay`, `ContainerImages.Unpack`: a copied or extracted
  file landing on an existing directory, or a directory on an existing file, is not
  modelled. There `copy2` copies into the directory, `copytree` collects the error and
  raises `shutil.Error` at the end, and `extractall` raises. The model succeeds instead and
  keeps both the file and the directory's contents at that path. The copy, mount and unpack
  lemmas describe the real outcome only when no such collision happens.
- `ImageBuilder.Manifest`, `ImageBuilder.EnvLine`: manifest values are text, and `None`
  stands for a missing key. `yaml.safe_load` gives typed values, and `str(value)` turns
  `true` into `True`, `8080` into `8080` and null into `None`. A key that is not text makes
  `"=".join` raise TypeError. A key present with a null value is not modelled either:
  `manifest.get` then returns `None`, where the model uses the default. A null `name`
  raises at `name.split` after `.env` and `run.sh` are written, a null `env` raises in
  `make_env`, and a null `mounts` raises in `mount_files`.
- File modes: the model has no modes, so it does not show that nothing makes `run.sh`
  executable.
- `FileTree.CopyTree`, `ImageBuilder.MountOne`: a copy whose source and destination overlap
  without being equal, one strictly inside the other, is not modelled. Python then walks into
  its own output. The model copies the source tree as it was before the copy.
- The shell's reading of `run.sh` (where each kept `"\n"` before a `" \\"` ends a command) is
  not modelled. The model states only the text of the script.
- `ContainerImages.GetImageDir`: its exact layout is stated by `ImageDirLayout` only for names
  and tags that are one plain segment. For other relative strings the model states only that
  the path lies inside the images directory.
