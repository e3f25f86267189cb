/**
 * The file dispatcher: a created file is filtered against the ignore list,
 * its name is parsed, and then either a processing program is run on it (when
 * the name is already normalised) or it is renamed to its normalised name;
 * finally it is disposed of once: deleted on success, moved to a sibling
 * `archive` directory on a problem.
 *
 * The child process is represented by its exit code, and a PermissionError
 * from the rename by the flag `denied`; both are inputs of the cycle.
 */
module Dispatcher {
  import opened Wrappers
  import opened Strings
  import opened Paths
  import opened FileTree

  const PdfIndexProgram := "pdf_bill_indexing/hlap_pdf_idx"
  const HlapConvertProgram := "transforms/hlap_cnvrt"
  const DupesProgram := "dupes_sorting/sort_multiples"
  const TransformProgram := "transforms/transform_file"

  /** What the filename parser returns: company code, file name, file type, normalised name, directory. */
  datatype ParsedName = ParsedName(cname: string, fname: string, ftype: string, nname: string, dir: string)

  /**
   * Process-wide settings: the watched directory WATCH_ME, the ignore list,
   * and the filename parser (its definition is not part of this model).
   */
  datatype Config = Config(watchMe: string, ignore: seq<string>, parse: string -> ParsedName)

  /** An exception that escapes a dispatch cycle. */
  datatype Raised = OsRaised(error: OsError) | IndexError

  //---------------------------------------------------------------- ignore filter

  /** The ignore entries that occur in `path`, in list order. */
  function IgnoreMatches(ignore: seq<string>, path: string): (r: seq<string>)
    ensures forall x :: x in r <==> x in ignore && Contains(path, x)
    ensures |r| <= |ignore|
  {
    if ignore == [] then []
    else (if Contains(path, ignore[0]) then [ignore[0]] else []) + IgnoreMatches(ignore[1..], path)
  }

  /** A path is ignored exactly when one of the ignore entries occurs in it. */
  predicate Ignored(ignore: seq<string>, path: string)
  {
    exists i :: 0 <= i < |ignore| && Contains(path, ignore[i])
  }

  //---------------------------------------------------------------- classification

  /** The article logged before the company code; indexing an empty code raises IndexError. */
  function Article(cname: string): (r: Result<string, Raised>)
    ensures r.Err? <==> cname == []
    ensures r.Ok? ==> (r.value == "an" || r.value == "a")
    ensures r.Ok? ==> (r.value == "an" <==> cname[0] in "aeiou")
  {
    if cname == [] then Err(IndexError)
    else if cname[0] in "aeiou" then Ok("an")
    else Ok("a")
  }

  /** The routing rules, first match wins. */
  function SelectProgram(cname: string, fname: string, ftype: string): (program: string)
    ensures program in {PdfIndexProgram, HlapConvertProgram, DupesProgram, TransformProgram}
    ensures program == PdfIndexProgram <==> cname == "hlap" && ftype == "pdf"
    ensures program == HlapConvertProgram <==> cname == "hlap" && ftype != "pdf"
    ensures program == DupesProgram <==> cname != "hlap" && Contains(Lower(fname), "dupes")
    ensures program == TransformProgram <==> cname != "hlap" && !Contains(Lower(fname), "dupes")
  {
    if cname == "hlap" then
      if ftype == "pdf" then PdfIndexProgram else HlapConvertProgram
    else if Contains(Lower(fname), "dupes") then DupesProgram
    else TransformProgram
  }

  /** "dupes" is recognised in any letter case, anywhere in the name, for every company but hlap. */
  lemma DupesInAnyCase(cname: string, fname: string, ftype: string, word: string, k: nat)
    requires cname != "hlap"
    requires Lower(word) == "dupes" && OccursAt(word, fname, k)
    ensures SelectProgram(cname, fname, ftype) == DupesProgram
  {
    LowerKeepsOccurrence(word, fname, k);
  }

  //---------------------------------------------------------------- command

  /** The fields a program invocation carries. */
  datatype Invocation = Invocation(program: string, cname: string, ftype: string, fname: string, watchDir: string)

  /** Reads an argument vector of the command's shape back into the fields it carries. */
  function ParseCommand(argv: seq<string>): Option<Invocation>
  {
    if && |argv| == 10 && argv[0] == "python"
       && |argv[1]| >= 9 && argv[1][..6] == "./src/" && argv[1][|argv[1]| - 3..] == ".py"
       && argv[2] == "-n" && argv[4] == "-t" && argv[6] == "-f" && argv[8] == "-p"
    then Some(Invocation(argv[1][6..|argv[1]| - 3], argv[3], argv[5], argv[7], argv[9]))
    else None
  }

  /**
   * The argument vector of a program run: the interpreter, the program's
   * script, then four flag/value pairs. Each value is a separate element,
   * passed through unchanged, so every field can be read back exactly.
   */
  function BuildCommand(program: string, cname: string, ftype: string, fname: string, watchDir: string): (argv: seq<string>)
    ensures |argv| == 10 && argv[0] == "python" && argv[1] == "./src/" + program + ".py"
    ensures ParseCommand(argv) == Some(Invocation(program, cname, ftype, fname, watchDir))
  {
    var script := "./src/" + program + ".py";
    assert script[..6] == "./src/" && script[|script| - 3..] == ".py" && script[6..|script| - 3] == program;
    ["python", script, "-n", cname, "-t", ftype, "-f", fname, "-p", watchDir]
  }

  //---------------------------------------------------------------- disposal

  /** The archive directory: a sibling `archive` of the watched directory. */
  function ArchiveDir(watchDir: string): Path
  {
    Parent(ToPath(watchDir)) + ["archive"]
  }

  /** The archive directory sits beside the watched directory and is called `archive`. */
  lemma ArchiveDirShape(watchDir: string)
    ensures var a, w := ArchiveDir(watchDir), ToPath(watchDir);
            && |a| > 0 && a[|a| - 1] == "archive" && Parent(a) == Parent(w)
            && (w != [] ==> |a| == |w| && a[..|a| - 1] == w[..|w| - 1])
  {
  }

  /** Where the dispatched file lives: the watched directory joined with its name. */
  function SourcePath(watchDir: string, fname: string): Path
  {
    Join(ToPath(watchDir), fname)
  }

  /** A plain file name lives directly in the watched directory; any relative name lives below it. */
  lemma SourcePathShape(watchDir: string, fname: string)
    ensures var src, w := SourcePath(watchDir, fname), ToPath(watchDir);
            && (!IsAbsolute(fname) ==> |w| <= |src| && src[..|w|] == w)
            && (PlainName(fname) ==> src == w + [fname] && Parent(src) == w)
  {
    JoinShape(ToPath(watchDir), fname);
  }

  /**
   * The file a disposal may move is neither a directory nor the archive
   * directory itself (moving a directory is not modelled).
   */
  predicate Movable(t: Tree, fname: string, watchDir: string)
  {
    SourcePath(watchDir, fname) !in t.dirs && SourcePath(watchDir, fname) != ArchiveDir(watchDir)
  }

  /** A FileNotFoundError is swallowed; every other error escapes. */
  function Suppressed(s: Step): (r: Step)
    ensures r.tree == s.tree && r.error != Some(FileNotFoundError)
    ensures s.error == Some(FileNotFoundError) ==> r == Step(s.tree, None)
    ensures s.error != Some(FileNotFoundError) ==> r == s
  {
    if s.error == Some(FileNotFoundError) then Step(s.tree, None) else s
  }

  /**
   * The disposal of one file: on a problem, make sure the archive directory
   * exists and move the file into it; otherwise delete the file. A
   * FileNotFoundError at any point ends the disposal silently.
   */
  function DisposalOf(t: Tree, fname: string, prob: bool, watchDir: string): (s: Step)
    requires prob ==> Movable(t, fname, watchDir)
    ensures s.error != Some(FileNotFoundError)
    ensures WellFormed(t) ==> WellFormed(s.tree)
  {
    var src := SourcePath(watchDir, fname);
    if prob then
      var made := MkdirStep(t, ArchiveDir(watchDir));
      if made.error.Some? then Suppressed(made)
      else Suppressed(RenameStep(made.tree, src, Join(ArchiveDir(watchDir), fname)))
    else Suppressed(UnlinkStep(t, src))
  }

  /** On success the file is deleted and nothing else changes; a file that is already gone is left alone. */
  lemma DisposalOnSuccess(t: Tree, fname: string, watchDir: string)
    requires SourcePath(watchDir, fname) !in t.dirs
    ensures DisposalOf(t, fname, false, watchDir) == Step(Tree(t.files - {SourcePath(watchDir, fname)}, t.dirs), None)
  {
  }

  /**
   * On a problem the archive directory exists afterwards, the file has moved
   * there under its own name with its contents, and no other file changed.
   */
  lemma DisposalOnProblem(t: Tree, fname: string, watchDir: string)
    requires WellFormed(t) && PlainName(fname)
    requires SourcePath(watchDir, fname) in t.files
    requires ToPath(watchDir) != ArchiveDir(watchDir)
    requires ArchiveDir(watchDir) !in t.files
    requires ArchiveDir(watchDir) + [fname] !in t.dirs
    ensures var s := DisposalOf(t, fname, true, watchDir);
            var src, dst := SourcePath(watchDir, fname), ArchiveDir(watchDir) + [fname];
            && s.error.None?
            && s.tree.dirs == t.dirs + {ArchiveDir(watchDir)}
            && dst in s.tree.files && s.tree.files[dst] == t.files[src]
            && src !in s.tree.files
            && s.tree.files.Keys == t.files.Keys - {src} + {dst}
            && (forall p :: p in t.files && p != src && p != dst ==> s.tree.files[p] == t.files[p])
  {
    var archive := ArchiveDir(watchDir);
    var src, dst := SourcePath(watchDir, fname), archive + [fname];
    ProblemDisposalSteps(t, fname, watchDir);
    var made := MkdirStep(t, archive);
    var moved := RenameStep(made.tree, src, dst);
    assert moved.tree.files.Keys == t.files.Keys - {src} + {dst};
  }

  /** On a problem, disposal is a successful mkdir of the archive followed by a rename that can succeed. */
  lemma ProblemDisposalSteps(t: Tree, fname: string, watchDir: string)
    requires WellFormed(t) && PlainName(fname)
    requires SourcePath(watchDir, fname) in t.files
    requires ToPath(watchDir) != ArchiveDir(watchDir)
    requires ArchiveDir(watchDir) !in t.files
    requires ArchiveDir(watchDir) + [fname] !in t.dirs
    ensures var archive := ArchiveDir(watchDir);
            var src, dst := SourcePath(watchDir, fname), archive + [fname];
            var made := MkdirStep(t, archive);
            && made.error.None? && made.tree == Tree(t.files, t.dirs + {archive})
            && src != dst && src in made.tree.files && src !in made.tree.dirs
            && Parent(dst) in made.tree.dirs && dst !in made.tree.dirs
            && DisposalOf(t, fname, true, watchDir) == RenameStep(made.tree, src, dst)
  {
    var w, archive := ToPath(watchDir), ArchiveDir(watchDir);
    PlainNameIsOneComponent(fname);
    var src, dst := w + [fname], archive + [fname];
    assert SourcePath(watchDir, fname) == src;
    assert Join(archive, fname) == dst;
    assert Parent(src) == w;
    assert Parent(archive) == Parent(w);
    assert src != dst by {
      assert src[..|src| - 1] == w && dst[..|dst| - 1] == archive;
    }
    var made := MkdirStep(t, archive);
    assert made.error.None? && made.tree.dirs == t.dirs + {archive} && made.tree.files == t.files;
    assert Parent(dst) == archive;
  }

  /**
   * When the file is not there, disposal changes no file; it may create the
   * archive directory, and it raises only if a regular file named `archive`
   * is in the way.
   */
  lemma DisposalOfMissingFile(t: Tree, fname: string, prob: bool, watchDir: string)
    requires WellFormed(t) && Movable(t, fname, watchDir)
    requires SourcePath(watchDir, fname) !in t.files
    ensures var s := DisposalOf(t, fname, prob, watchDir);
            && s.tree.files == t.files
            && (s.tree.dirs == t.dirs || (prob && s.tree.dirs == t.dirs + {ArchiveDir(watchDir)}))
            && (s.error.Some? <==> prob && ArchiveDir(watchDir) in t.files)
  {
  }

  /** Disposing of the same file a second time does nothing. */
  lemma DisposalTwice(t: Tree, fname: string, prob: bool, watchDir: string)
    requires prob ==> Movable(t, fname, watchDir)
    requires DisposalOf(t, fname, prob, watchDir).error.None?
    ensures var once := DisposalOf(t, fname, prob, watchDir).tree;
            && (prob ==> Movable(once, fname, watchDir))
            && DisposalOf(once, fname, prob, watchDir) == Step(once, None)
  {
    var src := SourcePath(watchDir, fname);
    var once := DisposalOf(t, fname, prob, watchDir).tree;
    if prob {
      var archive := ArchiveDir(watchDir);
      var made := MkdirStep(t, archive);
      if made.error.None? {
        var dst := Join(archive, fname);
        var moved := RenameStep(made.tree, src, dst);
        assert once == moved.tree;
        assert MkdirStep(once, archive) == Step(once, None);
        if moved.error.None? && src == dst {
          assert once.files == made.tree.files;
        }
      }
    }
  }

  //---------------------------------------------------------------- rename

  /** The outcome of a rename attempt: the new tree and either the success flag or an escaping error. */
  datatype Renaming = Renaming(tree: Tree, result: Result<bool, OsError>)

  /**
   * Renaming a file within WATCH_ME; the paths are the directory string and
   * the names glued together. A PermissionError (`denied`) yields false and
   * changes nothing; any other error escapes.
   */
  function RenameOf(t: Tree, watchMe: string, oldName: string, newName: string, denied: bool): (r: Renaming)
    requires ToPath(watchMe + oldName) !in t.dirs
    ensures r.tree.dirs == t.dirs
    ensures r.result != Ok(true) ==> r.tree == t
    ensures r.result == Ok(false) <==> denied
    ensures r.result == Ok(true) ==>
              (&& ToPath(watchMe + oldName) in t.files
               && ToPath(watchMe + newName) in r.tree.files
               && r.tree.files[ToPath(watchMe + newName)] == t.files[ToPath(watchMe + oldName)])
    ensures var src, dst := ToPath(watchMe + oldName), ToPath(watchMe + newName);
            && (r.result == Ok(true) && src != dst ==> src !in r.tree.files)
            && (forall p :: p in t.files && p != src && p != dst ==> p in r.tree.files && r.tree.files[p] == t.files[p])
            && (forall p :: p in r.tree.files ==> p in t.files || p == dst)
            && (r.result.Err? ==> !denied && (r.result.error == FileNotFoundError <==> src !in t.files || Parent(dst) !in t.dirs))
            && (r.result == Ok(true) <==> !denied && src in t.files && Parent(dst) in t.dirs && dst !in t.dirs)
  {
    if denied then Renaming(t, Ok(false))
    else
      var s := RenameStep(t, ToPath(watchMe + oldName), ToPath(watchMe + newName));
      Renaming(s.tree, if s.error.Some? then Err(s.error.value) else Ok(true))
  }

  //---------------------------------------------------------------- dispatch

  /** What a cycle did with the file. */
  datatype Action = NoAction | Invoked(argv: seq<string>, exitCode: int) | RenameTried(oldName: string, newName: string)

  /** The observable record of a cycle: its action, the disposal call (name and problem flag), and any escaping exception. */
  datatype Trace = Trace(action: Action, disposal: Option<(string, bool)>, raised: Option<Raised>)

  datatype Cycle = Cycle(tree: Tree, trace: Trace)

  function RaisedBy(e: Option<OsError>): Option<Raised>
  {
    if e.Some? then Some(OsRaised(e.value)) else None
  }

  /** The file a cycle may move is not a directory (moving a directory is not modelled). */
  predicate DispatchReady(t: Tree, cfg: Config, filename: string)
  {
    var p := cfg.parse(filename);
    Movable(t, p.fname, cfg.watchMe) && ToPath(cfg.watchMe + p.fname) !in t.dirs
  }

  /** One dispatch cycle, always against WATCH_ME. */
  function DispatchOf(t: Tree, cfg: Config, filename: string, exitCode: int, denied: bool): (c: Cycle)
    requires DispatchReady(t, cfg, filename)
    ensures c.trace.raised == Some(IndexError) <==> cfg.parse(filename).cname == ""
    ensures c.trace.disposal.Some? ==> c.trace.disposal.value.0 == cfg.parse(filename).fname
    ensures c.trace.disposal.None? ==> c.trace.raised.Some?
    ensures c.trace.raised != Some(OsRaised(FileNotFoundError)) || c.trace.action.RenameTried?
    ensures WellFormed(t) ==> WellFormed(c.tree)
  {
    var p := cfg.parse(filename);
    match Article(p.cname)
    case Err(e) => Cycle(t, Trace(NoAction, None, Some(e)))
    case Ok(_) =>
      if p.fname == p.nname then
        var program := SelectProgram(p.cname, p.fname, p.ftype);
        var argv := BuildCommand(program, p.cname, p.ftype, p.fname, cfg.watchMe);
        var prob := exitCode != 0;
        var d := DisposalOf(t, p.fname, prob, cfg.watchMe);
        Cycle(d.tree, Trace(Invoked(argv, exitCode), Some((p.fname, prob)), RaisedBy(d.error)))
      else
        var rn := RenameOf(t, cfg.watchMe, p.fname, p.nname, denied);
        match rn.result
        case Err(e) => Cycle(rn.tree, Trace(RenameTried(p.fname, p.nname), None, Some(OsRaised(e))))
        case Ok(success) =>
          var d := DisposalOf(rn.tree, p.fname, !success, cfg.watchMe);
          Cycle(d.tree, Trace(RenameTried(p.fname, p.nname), Some((p.fname, !success)), RaisedBy(d.error)))
  }

  /**
   * A cycle with a non-empty company code runs the selected program exactly
   * when the name is already normalised and renames otherwise; unless the
   * rename raised, it then disposes of the original name once, with the
   * problem flag "non-zero exit" or "rename refused".
   */
  lemma DispatchShape(t: Tree, cfg: Config, filename: string, exitCode: int, denied: bool)
    requires DispatchReady(t, cfg, filename)
    ensures var p, c := cfg.parse(filename), DispatchOf(t, cfg, filename, exitCode, denied).trace;
            && (p.cname == "" ==> c == Trace(NoAction, None, Some(IndexError)))
            && (p.cname != "" && p.fname == p.nname ==>
                  && c.action == Invoked(BuildCommand(SelectProgram(p.cname, p.fname, p.ftype),
                                                      p.cname, p.ftype, p.fname, cfg.watchMe), exitCode)
                  && c.disposal == Some((p.fname, exitCode != 0)))
            && (p.cname != "" && p.fname != p.nname ==>
                  && c.action == RenameTried(p.fname, p.nname)
                  && (c.disposal.None? <==> c.raised.Some? && !denied)
                  && (c.disposal.Some? ==> c.disposal.value == (p.fname, denied)))
  {
  }

  /**
   * After a successful rename the original name is gone from WATCH_ME, so
   * the disposal that follows changes nothing.
   */
  lemma RenamedFileIsNotDisposed(t: Tree, cfg: Config, filename: string, exitCode: int)
    requires WellFormed(t) && DispatchReady(t, cfg, filename)
    requires EndsWithSeparator(cfg.watchMe)
    requires var p := cfg.parse(filename);
             p.cname != "" && PlainName(p.fname) && PlainName(p.nname) && p.fname != p.nname
    requires var p := cfg.parse(filename);
             RenameOf(t, cfg.watchMe, p.fname, p.nname, false).result == Ok(true)
    ensures var p, c := cfg.parse(filename), DispatchOf(t, cfg, filename, exitCode, false);
            && c.tree == RenameOf(t, cfg.watchMe, p.fname, p.nname, false).tree
            && c.trace.raised.None?
  {
    var p := cfg.parse(filename);
    var w := ToPath(cfg.watchMe);
    ConcatenationIsJoin(cfg.watchMe, p.fname);
    ConcatenationIsJoin(cfg.watchMe, p.nname);
    PlainNameIsOneComponent(p.fname);
    PlainNameIsOneComponent(p.nname);
    assert ToPath(cfg.watchMe + p.fname) == w + [p.fname];
    assert ToPath(cfg.watchMe + p.nname) == w + [p.nname];
    assert w + [p.fname] != w + [p.nname] by {
      assert (w + [p.fname])[|w|] == p.fname;
      assert (w + [p.nname])[|w|] == p.nname;
    }
  }

  /**
   * A file whose name is already normalised is run through its program and
   * then deleted when the program exits with 0, or moved to the archive
   * directory under its own name otherwise, with only the archive directory
   * added and no other file changed; no exception escapes. The
   * program is represented by its exit code only, so this holds for a child
   * that leaves `fname` in place.
   */
  lemma DispatchedFileIsDisposed(t: Tree, cfg: Config, filename: string, exitCode: int, denied: bool)
    requires WellFormed(t) && DispatchReady(t, cfg, filename)
    requires var p := cfg.parse(filename);
             && p.cname != "" && p.fname == p.nname && PlainName(p.fname)
             && SourcePath(cfg.watchMe, p.fname) in t.files
             && ToPath(cfg.watchMe) != ArchiveDir(cfg.watchMe)
             && ArchiveDir(cfg.watchMe) !in t.files
             && ArchiveDir(cfg.watchMe) + [p.fname] !in t.dirs
    ensures var p, c := cfg.parse(filename), DispatchOf(t, cfg, filename, exitCode, denied);
            var src, dst := SourcePath(cfg.watchMe, p.fname), ArchiveDir(cfg.watchMe) + [p.fname];
            && c.trace.raised.None?
            && src !in c.tree.files
            && (exitCode == 0 ==> c.tree == Tree(t.files - {src}, t.dirs))
            && (exitCode != 0 ==>
                  && dst in c.tree.files && c.tree.files[dst] == t.files[src]
                  && c.tree.dirs == t.dirs + {ArchiveDir(cfg.watchMe)}
                  && c.tree.files.Keys == t.files.Keys - {src} + {dst}
                  && forall q :: q in t.files && q != src && q != dst ==> c.tree.files[q] == t.files[q])
  {
    var p := cfg.parse(filename);
    if exitCode == 0 {
      DisposalOnSuccess(t, p.fname, cfg.watchMe);
    } else {
      DisposalOnProblem(t, p.fname, cfg.watchMe);
    }
  }

  /**
   * A file whose rename to its normalised name is refused is moved to the
   * archive directory under its original name; only the archive directory
   * is added, no other file changes, and no exception escapes.
   */
  lemma DeniedRenameIsArchived(t: Tree, cfg: Config, filename: string, exitCode: int)
    requires WellFormed(t) && DispatchReady(t, cfg, filename)
    requires var p := cfg.parse(filename);
             && p.cname != "" && p.fname != p.nname && PlainName(p.fname)
             && SourcePath(cfg.watchMe, p.fname) in t.files
             && ToPath(cfg.watchMe) != ArchiveDir(cfg.watchMe)
             && ArchiveDir(cfg.watchMe) !in t.files
             && ArchiveDir(cfg.watchMe) + [p.fname] !in t.dirs
    ensures var p, c := cfg.parse(filename), DispatchOf(t, cfg, filename, exitCode, true);
            var src, dst := SourcePath(cfg.watchMe, p.fname), ArchiveDir(cfg.watchMe) + [p.fname];
            && c.trace == Trace(RenameTried(p.fname, p.nname), Some((p.fname, true)), None)
            && src !in c.tree.files
            && dst in c.tree.files && c.tree.files[dst] == t.files[src]
            && c.tree.dirs == t.dirs + {ArchiveDir(cfg.watchMe)}
            && c.tree.files.Keys == t.files.Keys - {src} + {dst}
            && forall q :: q in t.files && q != src && q != dst ==> c.tree.files[q] == t.files[q]
  {
    var p := cfg.parse(filename);
    DisposalOnProblem(t, p.fname, cfg.watchMe);
  }

  /** "acme_dupes_202401.csv" goes to the duplicate sorter. */
  lemma AcmeDupesIsSorted(ftype: string)
    ensures SelectProgram("acme", "acme_dupes_202401.csv", ftype) == DupesProgram
  {
    var name := "acme_dupes_202401.csv";
    assert Lower("dupes") == "dupes";
    assert name[5..10] == "dupes";
    DupesInAnyCase("acme", name, ftype, "dupes", 5);
  }

  /** The bill file name of the hlap scenario. */
  const HlapBillName := "B47001_02_201702_47001.pdf"

  lemma HlapBillNameIsPlain()
    ensures PlainName(HlapBillName)
  {
    var name := HlapBillName;
    forall i | 0 <= i < |name| ensures name[i] != '/' {
      assert name[i] in "0123456789B_.pdf";
    }
  }

  /**
   * An hlap PDF bill whose indexing program exits non-zero, and leaves the
   * file where it was, ends up in the archive directory under its own name.
   */
  lemma HlapPdfFailureIsArchived(t: Tree, cfg: Config, exitCode: int)
    requires cfg.parse(HlapBillName) == ParsedName("hlap", HlapBillName, "pdf", HlapBillName, cfg.watchMe)
    requires exitCode != 0
    requires var w := cfg.watchMe;
             && WellFormed(t) && DispatchReady(t, cfg, HlapBillName)
             && SourcePath(w, HlapBillName) in t.files && ToPath(w) != ArchiveDir(w)
             && ArchiveDir(w) !in t.files && ArchiveDir(w) + [HlapBillName] !in t.dirs
    ensures var c := DispatchOf(t, cfg, HlapBillName, exitCode, false);
            && c.trace.action.Invoked? && c.trace.action.argv[1] == "./src/" + PdfIndexProgram + ".py"
            && ArchiveDir(cfg.watchMe) + [HlapBillName] in c.tree.files
            && SourcePath(cfg.watchMe, HlapBillName) !in c.tree.files
  {
    HlapBillNameIsPlain();
    assert SelectProgram("hlap", HlapBillName, "pdf") == PdfIndexProgram;
    DispatchShape(t, cfg, HlapBillName, exitCode, false);
    DispatchedFileIsDisposed(t, cfg, HlapBillName, exitCode, false);
  }

  //---------------------------------------------------------------- created-file event

  /** A created-file event: ignored paths are dropped, every other path goes through one dispatch cycle. */
  function CreatedOf(t: Tree, cfg: Config, path: string, exitCode: int, denied: bool): (r: Option<Cycle>)
    requires !Ignored(cfg.ignore, path) ==> DispatchReady(t, cfg, path)
    ensures r.None? <==> Ignored(cfg.ignore, path)
    ensures r.Some? ==> r.value == DispatchOf(t, cfg, path, exitCode, denied)
  {
    var matches := IgnoreMatches(cfg.ignore, path);
    if matches != [] then
      assert matches[0] in cfg.ignore;
      None
    else
      assert forall i :: 0 <= i < |cfg.ignore| ==> cfg.ignore[i] !in matches;
      Some(DispatchOf(t, cfg, path, exitCode, denied))
  }

  //---------------------------------------------------------------- effects on the filesystem

  method HandleProcessedFile(fs: FileSystem, fname: string, prob: bool, watchDir: string) returns (err: Option<OsError>)
    requires prob ==> Movable(fs.State(), fname, watchDir)
    modifies fs
    ensures Step(fs.State(), err) == DisposalOf(old(fs.State()), fname, prob, watchDir)
  {
    var src := SourcePath(watchDir, fname);
    if prob {
      var archive := ArchiveDir(watchDir);
      err := fs.Mkdir(archive);
      if err.None? {
        err := fs.Rename(src, Join(archive, fname));
      }
    } else {
      err := fs.Unlink(src);
    }
    if err == Some(FileNotFoundError) {
      err := None;
    }
  }

  method RenameFile(fs: FileSystem, watchMe: string, oldName: string, newName: string, denied: bool) returns (result: Result<bool, OsError>)
    requires ToPath(watchMe + oldName) !in fs.dirs
    modifies fs
    ensures Renaming(fs.State(), result) == RenameOf(old(fs.State()), watchMe, oldName, newName, denied)
  {
    if denied {
      return Ok(false);
    }
    var err := fs.Rename(ToPath(watchMe + oldName), ToPath(watchMe + newName));
    result := if err.Some? then Err(err.value) else Ok(true);
  }

  method DispatchFile(fs: FileSystem, cfg: Config, filename: string, exitCode: int, denied: bool) returns (trace: Trace)
    requires DispatchReady(fs.State(), cfg, filename)
    modifies fs
    ensures Cycle(fs.State(), trace) == DispatchOf(old(fs.State()), cfg, filename, exitCode, denied)
  {
    var p := cfg.parse(filename);
    var article := Article(p.cname);
    if article.Err? {
      return Trace(NoAction, None, Some(article.error));
    }
    var action, prob;
    if p.fname == p.nname {
      var program := SelectProgram(p.cname, p.fname, p.ftype);
      var command := BuildCommand(program, p.cname, p.ftype, p.fname, cfg.watchMe);
      action, prob := Invoked(command, exitCode), exitCode != 0;
    } else {
      var success := RenameFile(fs, cfg.watchMe, p.fname, p.nname, denied);
      action := RenameTried(p.fname, p.nname);
      if success.Err? {
        return Trace(action, None, Some(OsRaised(success.error)));
      }
      prob := !success.value;
    }
    var err := HandleProcessedFile(fs, p.fname, prob, cfg.watchMe);
    trace := Trace(action, Some((p.fname, prob)), RaisedBy(err));
  }

  method OnCreated(fs: FileSystem, cfg: Config, path: string, exitCode: int, denied: bool) returns (trace: Option<Trace>)
    requires !Ignored(cfg.ignore, path) ==> DispatchReady(fs.State(), cfg, path)
    modifies fs
    ensures trace.None? <==> Ignored(cfg.ignore, path)
    ensures trace.None? ==> fs.State() == old(fs.State())
    ensures trace.Some? ==> Cycle(fs.State(), trace.value) == DispatchOf(old(fs.State()), cfg, path, exitCode, denied)
  {
    var matches := IgnoreMatches(cfg.ignore, path);
    if matches != [] {
      assert matches[0] in cfg.ignore;
      return None;
    }
    assert forall i :: 0 <= i < |cfg.ignore| ==> cfg.ignore[i] !in matches;
    var t := DispatchFile(fs, cfg, path, exitCode, denied);
    trace := Some(t);
  }
}
