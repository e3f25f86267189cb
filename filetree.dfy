/**
 * An abstract POSIX filesystem: regular files with their contents and a set
 * of directories, and the three operations the dispatcher performs on it
 * (`Path.mkdir(exist_ok=True)`, `rename`, `Path.unlink`), each returning the
 * error it raises, if any.
 */
module FileTree {
  import opened Wrappers
  import opened Paths

  type Data = seq<bv8>

  datatype Tree = Tree(files: map<Path, Data>, dirs: set<Path>)

  datatype OsError = FileNotFoundError | FileExistsError | IsADirectoryError

  /** The tree after an operation and the error the operation raised. */
  datatype Step = Step(tree: Tree, error: Option<OsError>)

  /**
   * The root is a directory, nothing is both a file and a directory, and
   * everything sits in an existing directory.
   */
  ghost predicate WellFormed(t: Tree)
  {
    && [] in t.dirs
    && (forall p :: p in t.files ==> p !in t.dirs && Parent(p) in t.dirs)
    && (forall d :: d in t.dirs ==> Parent(d) in t.dirs)
  }

  /** `Path(d).mkdir(exist_ok=True)`. */
  function MkdirStep(t: Tree, d: Path): (s: Step)
    ensures s.tree.files == t.files
    ensures s.error.None? <==> d in s.tree.dirs
    ensures s.error.None? <==> d in t.dirs || (d !in t.files && Parent(d) in t.dirs)
    ensures s.error == Some(FileExistsError) <==> d !in t.dirs && d in t.files
    ensures s.error == Some(FileNotFoundError) <==> d !in t.dirs && d !in t.files && Parent(d) !in t.dirs
    ensures s.error != Some(IsADirectoryError)
    ensures s.tree.dirs == t.dirs || s.tree.dirs == t.dirs + {d}
    ensures WellFormed(t) ==> WellFormed(s.tree)
  {
    if d in t.dirs then Step(t, None)
    else if d in t.files then Step(t, Some(FileExistsError))
    else if Parent(d) !in t.dirs then Step(t, Some(FileNotFoundError))
    else Step(Tree(t.files, t.dirs + {d}), None)
  }

  /** `os.rename(src, dst)` for a source that is not a directory; an existing file at `dst` is replaced. */
  function RenameStep(t: Tree, src: Path, dst: Path): (s: Step)
    requires src !in t.dirs
    ensures s.tree.dirs == t.dirs
    ensures s.error.None? <==> src in t.files && Parent(dst) in t.dirs && dst !in t.dirs
    ensures s.error == Some(FileNotFoundError) <==> src !in t.files || Parent(dst) !in t.dirs
    ensures s.error == Some(IsADirectoryError) <==> src in t.files && Parent(dst) in t.dirs && dst in t.dirs
    ensures s.error != Some(FileExistsError)
    ensures s.error.Some? ==> s.tree == t
    ensures s.error.None? ==> dst in s.tree.files && s.tree.files[dst] == t.files[src]
    ensures s.error.None? && src != dst ==> src !in s.tree.files
    ensures forall p :: p != src && p != dst && p in t.files ==> p in s.tree.files && s.tree.files[p] == t.files[p]
    ensures forall p :: p in s.tree.files ==> p in t.files || p == dst
    ensures WellFormed(t) ==> WellFormed(s.tree)
  {
    if src !in t.files || Parent(dst) !in t.dirs then Step(t, Some(FileNotFoundError))
    else if dst in t.dirs then Step(t, Some(IsADirectoryError))
    else Step(Tree(t.files - {src} + map[dst := t.files[src]], t.dirs), None)
  }

  /** `Path(p).unlink()`; on a directory it raises IsADirectoryError, as on Linux. */
  function UnlinkStep(t: Tree, p: Path): (s: Step)
    ensures s.tree.dirs == t.dirs
    ensures s.error.None? <==> p in t.files && p !in t.dirs
    ensures s.error == Some(IsADirectoryError) <==> p in t.dirs
    ensures s.error == Some(FileNotFoundError) <==> p !in t.dirs && p !in t.files
    ensures s.error != Some(FileExistsError)
    ensures s.error.Some? ==> s.tree == t
    ensures p !in s.tree.files || s.error.Some?
    ensures forall q :: q != p && q in t.files ==> q in s.tree.files && s.tree.files[q] == t.files[q]
    ensures s.tree.files.Keys <= t.files.Keys
    ensures WellFormed(t) ==> WellFormed(s.tree)
  {
    if p in t.dirs then Step(t, Some(IsADirectoryError))
    else if p !in t.files then Step(t, Some(FileNotFoundError))
    else Step(Tree(t.files - {p}, t.dirs), None)
  }

  /** The machine's filesystem, updated in place by each operation. */
  class FileSystem {
    var files: map<Path, Data>
    var dirs: set<Path>

    function State(): Tree
      reads this
    {
      Tree(files, dirs)
    }

    constructor (t: Tree)
      ensures State() == t
    {
      files := t.files;
      dirs := t.dirs;
    }

    method Mkdir(d: Path) returns (err: Option<OsError>)
      modifies this
      ensures Step(State(), err) == MkdirStep(old(State()), d)
    {
      var s := MkdirStep(State(), d);
      files, dirs, err := s.tree.files, s.tree.dirs, s.error;
    }

    method Rename(src: Path, dst: Path) returns (err: Option<OsError>)
      requires src !in dirs
      modifies this
      ensures Step(State(), err) == RenameStep(old(State()), src, dst)
    {
      var s := RenameStep(State(), src, dst);
      files, dirs, err := s.tree.files, s.tree.dirs, s.error;
    }

    method Unlink(p: Path) returns (err: Option<OsError>)
      modifies this
      ensures Step(State(), err) == UnlinkStep(old(State()), p)
    {
      var s := UnlinkStep(State(), p);
      files, dirs, err := s.tree.files, s.tree.dirs, s.error;
    }
  }
}
