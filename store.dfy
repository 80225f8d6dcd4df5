/** The file system under the cache directory, as the program sees it:
    files that hold JSON text (or text that is not JSON), the directories
    that exist, and whether creating files and directories succeeds. */
module Store {
  import opened Base
  import opened Json

  /** The content of a cache file: JSON text, stood for by the value it
      parses to, or text that does not parse. */
  datatype Content = JsonText(doc: Value) | Garbage

  /** Why reading a cache file fails: the file is missing, or its text is
      not the expected JSON (`serde_json::Error` turned into
      `io::ErrorKind::InvalidData` by `?`). */
  datatype IoError = NotFound | InvalidData

  /** `File::open(path)` followed by `serde_json::from_reader` into a
      `Value`. */
  function ReadOutcome(files: map<string, Content>, path: string): (r: Result<Value, IoError>)
    ensures r.Ok? <==> path in files && files[path].JsonText?
    ensures r.Ok? ==> r.value == files[path].doc
    ensures r == Err(NotFound) <==> path !in files
  {
    if path !in files then Err(NotFound)
    else match files[path]
      case JsonText(v) => Ok(v)
      case Garbage => Err(InvalidData)
  }

  class Disk {
    var files: map<string, Content>
    var dirs: set<string>
    /** Whether the process may create files and directories. */
    const writable: bool

    constructor (files: map<string, Content>, dirs: set<string>, writable: bool)
      ensures this.files == files && this.dirs == dirs && this.writable == writable
    {
      this.files := files;
      this.dirs := dirs;
      this.writable := writable;
    }

    /** `DirBuilder::new().recursive(true).create(path)`: succeeds when the
        directory can be created or already exists. */
    method CreateDirAll(path: string) returns (ok: bool)
      modifies this`dirs
      ensures ok == (writable || path in old(dirs))
      ensures dirs == if writable then old(dirs) + {path} else old(dirs)
    {
      ok := writable || path in dirs;
      if writable {
        dirs := dirs + {path};
      }
    }

    /** Opens `path` and parses it as JSON; changes nothing. */
    method ReadJson(path: string) returns (r: Result<Value, IoError>)
      ensures r == ReadOutcome(files, path)
    {
      if path !in files {
        r := Err(NotFound);
      } else if files[path].Garbage? {
        r := Err(InvalidData);
      } else {
        r := Ok(files[path].doc);
      }
    }

    /** `File::create(path)` and `write_all` of `doc` serialised: replaces the
        whole file when the process may write, and fails otherwise. */
    method WriteJson(path: string, doc: Value) returns (ok: bool)
      modifies this`files
      ensures ok == writable
      ensures files == if writable then old(files)[path := JsonText(doc)] else old(files)
    {
      ok := writable;
      if writable {
        files := files[path := JsonText(doc)];
      }
    }
  }
}
