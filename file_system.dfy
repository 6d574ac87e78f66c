/**
  The filesystem as the synchroniser's os / open calls see it: regular files with
  their text, and a set of directories.  Paths are compared as strings; "." and
  ".." components, repeated separators and symbolic links are not resolved.
 */
module FileSystem {
  import opened Paths
  import opened Wrappers

  /** What `open(path, encoding='utf-8').read()` yields: the decoded text, or a
      decoding failure. */
  datatype Content = Text(text: string) | Undecodable

  datatype FsState = FsState(files: map<Path, Content>, dirs: set<Path>)

  /** No path is both a regular file and a directory. */
  predicate Valid(fs: FsState) {
    fs.files.Keys !! fs.dirs
  }

  /** The directories above p: the prefix before each separator ("/" for a leading one). */
  function Ancestors(p: Path): set<Path> {
    set i | 0 <= i < |p| && p[i] == SEP :: if i == 0 then "/" else p[..i]
  }

  /** os.path.exists */
  predicate Exists(fs: FsState, p: Path) {
    p in fs.files || p in fs.dirs
  }

  /** os.path.isfile */
  predicate IsFile(fs: FsState, p: Path) {
    p in fs.files
  }

  /** os.makedirs(p, exist_ok=True) raises OSError: empty path, or p or one of its
      ancestors is a regular file. */
  predicate MakeDirsFails(fs: FsState, p: Path) {
    p == "" || p in fs.files || Ancestors(p) * fs.files.Keys != {}
  }

  function MakeDirsEffect(fs: FsState, p: Path): FsState {
    fs.(dirs := fs.dirs + {p} + Ancestors(p))
  }

  /** open(p, 'w') raises: p names a directory, or its parent directory is missing. */
  predicate OpenForWriteFails(fs: FsState, p: Path) {
    p == "" || p[|p| - 1] == SEP || p in fs.dirs || (DirName(p) != "" && DirName(p) !in fs.dirs)
  }

  function WriteEffect(fs: FsState, p: Path, text: string): FsState {
    fs.(files := fs.files[p := Text(text)])
  }

  lemma MakeDirsKeepsValid(fs: FsState, p: Path)
    requires Valid(fs) && !MakeDirsFails(fs, p)
    ensures Valid(MakeDirsEffect(fs, p)) && p in MakeDirsEffect(fs, p).dirs
  {
  }

  lemma WriteKeepsValid(fs: FsState, p: Path, text: string)
    requires Valid(fs) && !OpenForWriteFails(fs, p)
    ensures Valid(WriteEffect(fs, p, text))
  {
  }

  /** The filesystem the script runs against. */
  class Disk {
    var files: map<Path, Content>
    var dirs: set<Path>

    function State(): FsState
      reads this
    {
      FsState(files, dirs)
    }

    constructor (initial: FsState)
      ensures State() == initial
    {
      files := initial.files;
      dirs := initial.dirs;
    }

    /** os.path.exists */
    function PathExists(p: Path): bool
      reads this
    {
      Exists(State(), p)
    }

    /** os.path.isfile */
    function IsRegularFile(p: Path): bool
      reads this
    {
      IsFile(State(), p)
    }

    /** os.makedirs(p, exist_ok=True); ok is false where OSError is raised. */
    method MakeDirs(p: Path) returns (ok: bool)
      modifies this
      ensures ok == !MakeDirsFails(old(State()), p)
      ensures State() == if ok then MakeDirsEffect(old(State()), p) else old(State())
    {
      ok := !MakeDirsFails(State(), p);
      if ok {
        dirs := dirs + {p} + Ancestors(p);
      }
    }

    /** open(p, 'r', encoding='utf-8').read(); None where decoding raises. */
    method ReadText(p: Path) returns (text: Option<string>)
      requires p in files
      ensures text == if files[p].Text? then Some(files[p].text) else None
    {
      text := if files[p].Text? then Some(files[p].text) else None;
    }

    /** open(p, 'w').write(text); ok is false where opening raises. */
    method WriteText(p: Path, text: string) returns (ok: bool)
      modifies this
      ensures ok == !OpenForWriteFails(old(State()), p)
      ensures State() == if ok then WriteEffect(old(State()), p, text) else old(State())
    {
      ok := !OpenForWriteFails(State(), p);
      if ok {
        files := files[p := Text(text)];
      }
    }
  }
}
