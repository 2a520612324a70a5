/** Failure-carrying values shared by every module of the model.  The Python code
    reports failures by raising exceptions; here each such exception is a value of
    `Error`, and an operation that can raise returns a `Result`. */
module Results {

  datatype Option<+T> = None | Some(value: T)

  /** The exceptions the modelled code can raise, named after what Python raises.
      Paths are the absolute segment lists of the host filesystem. */
  datatype Error =
    | FileNotFound(path: seq<string>)        // FileNotFoundError
    | FileExists(path: seq<string>)          // FileExistsError
    | NotADirectory(path: seq<string>)       // NotADirectoryError (a prefix is a file)
    | IsADirectory(path: seq<string>)        // IsADirectoryError
    | NotAnArchive(path: seq<string>)        // tarfile.ReadError
    | NotText(path: seq<string>)             // UnicodeDecodeError reading binary data as text
    | SameFile(path: seq<string>)            // shutil.SameFileError
    | CopyFailed(path: seq<string>)          // shutil.Error collected by copytree
    | EmptyName(path: seq<string>)           // ValueError from PurePath.with_suffix
    | MalformedMount(entry: string)          // ValueError from `[src, dest] = ...split(":")`
    | MissingBuildCommand                    // ValueError from shlex.split(None)
    | MissingRunCommand                      // TypeError from str.join over None
    | BuildFailed(exitCode: int)             // CalledProcessError from check_returncode

  datatype Result<+T> = Ok(value: T) | Err(error: Error)
}
