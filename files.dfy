/**
 * The local filesystem as the loaders and the downloader see it: a map from
 * path to text contents, changed by `open(path, "w")` followed by `write`
 * and read by `open(path, "r").read()`.
 */
module Files {
  import opened Wrappers
  import opened Strings

  datatype IoError = FileNotFound(path: string)

  /** POSIX `os.path.join(folder, name)` for two arguments. */
  function PathJoin(folder: string, name: string): (path: string)
    ensures "/" <= name ==> path == name
    ensures !("/" <= name) && folder != [] && !EndsWith(folder, "/") ==> path == folder + "/" + name
  {
    if "/" <= name then name
    else if folder == [] || EndsWith(folder, "/") then folder + name
    else folder + "/" + name
  }

  /** A joined path always ends with the name that was joined. */
  lemma PathJoinEndsWithName(folder: string, name: string)
    ensures EndsWith(PathJoin(folder, name), name)
  {
  }

  class FileSystem {
    var files: map<string, string>

    /** Opens `path` for writing (truncating it) and writes `content`. */
    method Write(path: string, content: string)
      modifies this
      ensures files == old(files)[path := content]
    {
      files := files[path := content];
    }

    /** Reads the whole of `path`; a missing file is FileNotFoundError. */
    method Read(path: string) returns (r: Result<string, IoError>)
      ensures path in files ==> r == Success(files[path])
      ensures path !in files ==> r == Failure(FileNotFound(path))
    {
      if path in files {
        r := Success(files[path]);
      } else {
        r := Failure(FileNotFound(path));
      }
    }
  }
}
