/** Where the engine keeps its state below the user's home directory. */
module Layout {

  import opened PathLib

  /** `Path.home() / ".qnxtainer" / "images"`. */
  function ImagesDir(home: Path): Path {
    home + [".qnxtainer", "images"]
  }

  /** `Path.home() / ".qnxtainer" / "containers"`. */
  function ContainersDir(home: Path): Path {
    home + [".qnxtainer", "containers"]
  }
}
