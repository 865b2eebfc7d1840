/**
  The status hook of the file-folder example
  (image_file_folder_continuous_example/main.cc, RunFileContinuousPreprocessing):
  when a status directory is configured, every change of preprocessing status
  creates an empty marker file in it, named by the clock reading and the code.

  The clock is read by the caller and passed in; whether the file can be opened
  is decided by the file system, which the model does not see, and is passed in
  as `opens`.
*/
module StatusNotifier {
  import opened Wrappers
  import opened MarkerName

  /** The canonical error codes of an `absl::Status` other than OK. */
  datatype StatusCode =
    | Cancelled | Unknown | InvalidArgument | DeadlineExceeded | NotFound
    | AlreadyExists | PermissionDenied | ResourceExhausted | FailedPrecondition
    | Aborted | OutOfRange | Unimplemented | Internal | Unavailable | DataLoss
    | Unauthenticated

  /** `absl::Status`: OK, or an error code with its message. */
  datatype Status = OkStatus | Error(code: StatusCode, message: string)

  /**
    `dir / name` for POSIX `std::filesystem::path`: an absolute right-hand side
    replaces the left; otherwise a '/' is put between them when the left has a
    file name, that is, when it is non-empty and does not end in '/'.
  */
  function JoinPath(dir: string, name: string): (path: string)
    ensures name != [] && name[0] == '/' ==> path == name
    ensures !(name != [] && name[0] == '/') ==>
              && (if dir == [] || dir[|dir| - 1] == '/' then |path| == |dir| + |name|
                  else |path| == |dir| + 1 + |name| && path[|dir|] == '/')
              && path[..|dir|] == dir
              && path[|path| - |name|..] == name
  {
    if name != [] && name[0] == '/' then name
    else if dir == [] || dir[|dir| - 1] == '/' then dir + name
    else dir + "/" + name
  }

  /** Within one directory, relative names go to distinct paths. */
  lemma JoinPathInjective(dir: string, name1: string, name2: string)
    requires name1 != [] && name1[0] != '/' && name2 != [] && name2[0] != '/'
    requires JoinPath(dir, name1) == JoinPath(dir, name2)
    ensures name1 == name2
  {
    var p := JoinPath(dir, name1);
    assert name1 == p[|p| - |name1|..];
    assert name2 == p[|p| - |name2|..];
  }

  /** Where the marker of a change to `code` at `ts` is written. */
  function MarkerPath(dir: string, ts: Micros, code: int): (path: string)
    ensures var name := FormatMarker(ts, code);
            && |path| >= |dir| + |name|
            && path[..|dir|] == dir
            && path[|path| - |name|..] == name
  {
    MarkerNameRelative(ts, code);
    JoinPath(dir, FormatMarker(ts, code))
  }

  /** The hook's failure: an internal error whose message ends with the path it could not write. */
  function WriteFailure(path: string): (s: Status)
    ensures s.Error? && s.code == Internal
    ensures |s.message| > |path| && s.message[|s.message| - |path|..] == path
  {
    Error(Internal, "Could not write status file " + path)
  }

  /** A marker name starts with a digit, so it is never an absolute path. */
  lemma MarkerNameRelative(ts: Micros, code: int)
    ensures FormatMarker(ts, code) != [] && IsDigit(FormatMarker(ts, code)[0])
  {
    var a := TimestampText(ts);
    var d := Decimal(ts);
    NameFields(ts, code);
    if |d| < TimestampWidth {
      assert a[0] == '0';
    } else {
      assert a == d;
    }
  }

  /**
    Markers of distinct status changes (non-negative codes) land at distinct
    paths in the status directory; two changes overwrite each other's marker
    only when they share both the microsecond and the code.
  */
  lemma MarkerPathInjective(dir: string, ts1: Micros, code1: int, ts2: Micros, code2: int)
    requires code1 >= 0 && code2 >= 0
    requires MarkerPath(dir, ts1, code1) == MarkerPath(dir, ts2, code2)
    ensures ts1 == ts2 && code1 == code2
  {
    MarkerNameRelative(ts1, code1);
    MarkerNameRelative(ts2, code2);
    JoinPathInjective(dir, FormatMarker(ts1, code1), FormatMarker(ts2, code2));
    MarkerNameInjective(ts1, code1, ts2, code2);
  }

  /** The files the hook can see: each path with its contents. */
  class FileSystem {
    var files: map<string, seq<bv8>>

    constructor (files: map<string, seq<bv8>>)
      ensures this.files == files
    {
      this.files := files;
    }

    /**
      Opens `path` for writing, as an `std::ofstream` does, and closes it at
      once without writing. When the open succeeds the file exists afterwards
      and is empty (created, or truncated if it was there); when it fails
      nothing changes.
    */
    method OpenAndClose(path: string, opens: bool) returns (ok: bool)
      modifies this
      ensures ok == opens
      ensures files == if opens then old(files)[path := []] else old(files)
    {
      ok := opens;
      if opens {
        files := files[path := []];
      }
    }
  }

  /** The part of the foreground container this example touches: its status hook. */
  class FileForegroundContainer {
    /**
      The installed `OnStatusChange` hook, given by the status directory it
      captures; `None` while no hook is installed.
    */
    var statusHook: Option<string>

    constructor ()
      ensures statusHook == None
    {
      statusHook := None;
    }

    /**
      The hook: names the marker after `now` and `status`, opens and closes it
      in the status directory, and reports whether that worked. No content is
      written either way.
    */
    method OnStatusChange(status: int, now: Micros, opens: bool, fs: FileSystem) returns (result: Status)
      requires statusHook.Some?
      modifies fs
      ensures var path := MarkerPath(statusHook.value, now, status);
              && (opens ==> result == OkStatus && fs.files == old(fs.files)[path := []])
              && (!opens ==> result == WriteFailure(path) && fs.files == old(fs.files))
    {
      var path := JoinPath(statusHook.value, FormatMarker(now, status));
      var ok := fs.OpenAndClose(path, opens);
      if !ok {
        return WriteFailure(path);
      }
      return OkStatus;
    }
  }

  /**
    The set-up half of RunFileContinuousPreprocessing: build the container,
    make sure the status directory exists (`createDirectory` is what that
    returned), and install the hook only for a non-empty directory path.
    On a failure to create the directory, its status is returned at once.
  */
  method RunFileContinuousPreprocessing(statusDirectory: string, createDirectory: Status)
    returns (result: Status, container: FileForegroundContainer)
    ensures fresh(container)
    ensures result == createDirectory
    ensures container.statusHook ==
              if createDirectory.OkStatus? && statusDirectory != [] then Some(statusDirectory) else None
  {
    container := new FileForegroundContainer();
    if !createDirectory.OkStatus? {
      return createDirectory, container;
    }
    if statusDirectory != [] {
      container.statusHook := Some(statusDirectory);
    }
    result := OkStatus;
  }
}
