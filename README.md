# File dispatcher and HLAP PDF bill index, modelled in Dafny

The dispatcher watches a directory (`WATCH_ME`) for new files. It drops
paths that contain one of the ignore substrings. For every other path it
parses the name into company code, file name, file type and normalised name.
Then it does one of two things:

- If the name is already normalised, it runs one of four processing
  programs, passing the fields as separate arguments.
- Otherwise it renames the file to its normalised name.

Finally it disposes of the original name once. The file is deleted when the
program exited with 0. It is moved into an `archive` directory beside the
watched directory when the program failed or the rename was refused. A file
that has already gone is not an error.

The PDF bill indexer runs over the page texts of a bill PDF:

- It writes one record `account,start,end` per bill page. The account is the
  page's ninth text line, zero-padded to ten characters. Start and end are the
  same index number: the page's 1-based position plus the alignment test pages
  before it.
- It skips pages that mention `ALIGNMENT`.
- It then reports whether the index checker's results were all true.
- Before indexing, it renames the input PDF to the composed bill name if the
  two names differ.

Files:

- `wrappers.dfy`: `Option` and `Result`.
- `strings.dfy`: Python's substring test `in`, `str.lower` on ASCII letters,
  `str.split` on one character, and decimal formatting of a natural number,
  each with its inverse or characterising lemma.
- `paths.dfy`: paths as pathlib sees them (component sequences), `/`-joining,
  `parent`, and the link between joining with `/` and gluing strings.
- `filetree.dfy`: an abstract filesystem `Tree` with regular files and
  directories. It has the three operations the dispatcher uses (`mkdir` with
  `exist_ok=True`, `rename`, `unlink`), each a function returning the new
  tree and the raised error. The class `FileSystem` holds the tree in fields
  that its methods update in place.
- `dispatcher.dfy`: `dispatcher.py`. The pure decisions are functions, and
  the created-file handler and dispatch cycle are `Dispatcher.OnCreated` and
  `Dispatcher.DispatchFile`. These methods work on a `FileSystem` and are
  proved equal to the cycle function `Dispatcher.DispatchOf`.
- `hlap_pdf_idx.dfy`: `create_index`'s page loop as the method
  `HlapPdfIdx.CreateIndex`. The method is proved equal to a fold over the
  pages, and the fold is proved equal to a description without the loop (bill
  pages, alignment counts, first and last accounts). The file also has
  `checkout_idx` and `main`'s rename decision.

Some errors escape a dispatch cycle instead of becoming the problem flag, and
the model follows the code in this:

- An empty company code raises IndexError while the dispatch message is
  logged (`dispatcher.py:98`). FileExistsError from creating the archive
  directory escapes (`dispatcher.py:87`), and so does any error other than
  PermissionError from the rename (`dispatcher.py:107-109`). The model
  reports these as the cycle's raised exception (`Dispatcher.Raised`).
- What happens to a name the parser cannot split depends on
  `utils.parse_filename_new`, which is not part of this model: the parser is
  a total function in the configuration.
- The rename builds its paths by gluing `WATCH_ME` and the name as strings,
  while disposal joins them with pathlib. `Paths.ConcatenationIsJoin` shows
  that the two agree when `WATCH_ME` ends with `/`.
  `Paths.ConcatenationWithoutSeparator` shows that they do not otherwise.

## Model

| member | source | states |
|---|---|---|
| Strings.Contains | dispatcher.py:40 | the substring test is true exactly when `sub` occurs at some position of `s` |
| Strings.Lower | dispatcher.py:120 | lower-casing keeps the length and maps each character on its own |
| Strings.LowerKeepsOccurrence | dispatcher.py:120 | a word that occurs in a name occurs, lower-cased, in the lower-cased name |
| Strings.Split | src/pdf_bill_indexing/hlap_pdf_idx.py:43 | splitting yields at least one part and no part contains the separator |
| Strings.SplitJoin | src/pdf_bill_indexing/hlap_pdf_idx.py:43 | splitting the separator-joined parts (none containing the separator) gives the parts back |
| Strings.JoinSplit | src/pdf_bill_indexing/hlap_pdf_idx.py:43 | joining the parts of a split with the separator gives the string back |
| Strings.Decimal | src/pdf_bill_indexing/hlap_pdf_idx.py:34 | a number's decimal text is non-empty, all digits, without a leading zero |
| Strings.DecimalRoundTrip | src/pdf_bill_indexing/hlap_pdf_idx.py:34 | reading back a number's decimal text gives the number |
| Paths.CleanAppend | dispatcher.py:81-82 | the components of two concatenated piece lists are those of each, concatenated |
| Paths.PlainNameIsOneComponent | dispatcher.py:82 | a name without `/` that is not empty or "." is exactly one path component |
| Paths.ToPathComponents | dispatcher.py:81 | `Path(s)` keeps only components that are not empty, not "." and without `/`; a plain name is the single component itself |
| Paths.JoinShape | dispatcher.py:82 | an absolute name replaces the base; any other name keeps the base as a prefix; a plain name adds exactly itself as the last component |
| Paths.ParentShape | dispatcher.py:86 | the parent drops exactly the last component; the root is its own parent |
| Paths.ConcatenationIsJoin | dispatcher.py:107 | `WATCH_ME + name` names the same path as `Path(WATCH_ME) / name` when `WATCH_ME` ends with `/` |
| Paths.ConcatenationWithoutSeparator | dispatcher.py:107 | without the trailing `/` the glued path differs from the joined one ("/in" + "x.csv") |
| FileTree.MkdirStep | dispatcher.py:87 | no file changes; it succeeds exactly when the directory exists already or its parent does and no file has its name; FileExistsError exactly when a regular file has its name; FileNotFoundError exactly when neither it nor its parent exists; at most that directory is added; well-formedness is kept |
| FileTree.RenameStep | dispatcher.py:88 | it succeeds exactly when the source file and the target's parent exist and the target is no directory; FileNotFoundError exactly when the source or the target's parent is missing; IsADirectoryError exactly when the target is a directory; never FileExistsError; on success the target holds the source's contents, the source is gone and other files are unchanged; on error nothing changes |
| FileTree.UnlinkStep | dispatcher.py:91 | it succeeds exactly when the path is a regular file; IsADirectoryError exactly on a directory; FileNotFoundError exactly when nothing has that name; on success only that file is removed; on error nothing changes |
| FileTree.FileSystem.Mkdir | dispatcher.py:87 | the new state and error are those of `MkdirStep` on the old state |
| FileTree.FileSystem.Rename | dispatcher.py:88 | the new state and error are those of `RenameStep` on the old state |
| FileTree.FileSystem.Unlink | dispatcher.py:91 | the new state and error are those of `UnlinkStep` on the old state |
| Dispatcher.IgnoreMatches | dispatcher.py:40 | the list comprehension holds exactly the ignore entries that occur in the path |
| Dispatcher.CreatedOf | dispatcher.py:38-42 | an event is dropped exactly when one of the ignore entries occurs in its path; otherwise its outcome is the dispatch cycle `DispatchOf` on that path |
| Dispatcher.OnCreated | dispatcher.py:38-42 | an ignored path changes nothing and yields no cycle; otherwise the filesystem and trace are those of the dispatch cycle |
| Dispatcher.Article | dispatcher.py:98 | an empty company code raises IndexError; otherwise the article is "an" exactly when the code starts with a lower-case vowel, and "a" otherwise |
| Dispatcher.SelectProgram | dispatcher.py:115-122 | the program is one of the four; PDF index exactly for hlap with type pdf; hlap convert exactly for hlap otherwise; duplicate sorter exactly for another company whose lower-cased name contains "dupes"; transform in every other case |
| Dispatcher.DupesInAnyCase | dispatcher.py:120-121 | "dupes" in any letter case, anywhere in the name, selects the duplicate sorter for every company except hlap |
| Dispatcher.AcmeDupesIsSorted | dispatcher.py:120-121 | "acme_dupes_202401.csv" is sent to the duplicate sorter |
| Dispatcher.BuildCommand | dispatcher.py:62-73 | ten arguments, the interpreter and the program's script first, and every field can be read back unchanged from its flag position |
| Dispatcher.Suppressed | dispatcher.py:83 | a FileNotFoundError becomes no error, with the tree it left kept; any other outcome passes through |
| Dispatcher.SourcePathShape | dispatcher.py:81-82 | `watch_path / fname` keeps `watch_path` as a prefix for a relative name; for a plain name it is `watch_path` plus that name, whose parent is `watch_path` |
| Dispatcher.ArchiveDirShape | dispatcher.py:86 | `watch_path.parent / "archive"` ends in "archive" and is a sibling of `watch_path`: same parent, and for a non-root `watch_path` the same length with only the last component changed |
| Dispatcher.DisposalOf | dispatcher.py:76-91 | disposal never raises FileNotFoundError and keeps the filesystem well-formed |
| Dispatcher.DisposalOnSuccess | dispatcher.py:89-91 | without a problem the file is deleted, nothing else changes, and nothing is raised, also when the file is already gone |
| Dispatcher.DisposalOnProblem | dispatcher.py:84-88 | with a problem the archive directory exists afterwards and the file has moved into it under its own name with its contents; no other file changed and nothing is raised |
| Dispatcher.ProblemDisposalSteps | dispatcher.py:84-88 | with a problem and the file present, disposal is an archive `mkdir` that succeeds and adds only the archive directory, followed by a rename of the file into it that can succeed |
| Dispatcher.DisposalOfMissingFile | dispatcher.py:77-83 | when the file is missing, no file changes, only the archive directory may be created, and an error escapes exactly when a regular file named `archive` is in the way |
| Dispatcher.DisposalTwice | dispatcher.py:76-91 | after a disposal that raised nothing, disposing of the same name again changes nothing and raises nothing |
| Dispatcher.HandleProcessedFile | dispatcher.py:76-91 | the new filesystem and raised error are those of `DisposalOf` on the old filesystem |
| Dispatcher.RenameOf | dispatcher.py:102-112 | directories never change; a PermissionError gives false and changes nothing; any other failure changes nothing and is FileNotFoundError exactly when the old file or the target's parent is missing; it succeeds exactly when it is not denied, the old file exists, the target's parent exists and the target is no directory; on success the new name holds the old file's contents and the old name is gone; every other file is unchanged and no file appears except the new name |
| Dispatcher.RenameFile | dispatcher.py:102-112 | the new filesystem and result are those of `RenameOf` on the old filesystem |
| Dispatcher.DispatchOf | dispatcher.py:126-140 | IndexError escapes exactly when the company code is empty; a disposal is always of the parsed file name, and a cycle without one has raised; FileNotFoundError escapes only from a rename attempt; a well-formed filesystem stays well-formed |
| Dispatcher.DispatchShape | dispatcher.py:126-140 | an empty company code ends the cycle with IndexError before anything else; a normalised name runs the selected program's command and disposes with the problem flag "exit code non-zero"; otherwise the file is renamed, and it is disposed with the flag "rename refused" unless the rename raised |
| Dispatcher.RenamedFileIsNotDisposed | dispatcher.py:136-140 | after a successful rename the disposal that follows changes nothing and nothing is raised |
| Dispatcher.DispatchedFileIsDisposed | dispatcher.py:130-140 | a normalised file present in `WATCH_ME` is gone from there after the cycle: deleted with nothing else changed on exit code 0; otherwise moved into the archive under its own name with its contents, with only the archive directory added and no other file changed |
| Dispatcher.DeniedRenameIsArchived | dispatcher.py:136-140 | a file whose rename is refused is moved to the archive under its original name with its contents, with only the archive directory added and no other file changed, and nothing escapes |
| Dispatcher.HlapPdfFailureIsArchived | dispatcher.py:117-140 | an hlap PDF bill is run through the PDF index program and, when that fails, ends up in the archive |
| Dispatcher.DispatchFile | dispatcher.py:126-140 | the new filesystem and trace are those of the dispatch cycle `DispatchOf` on the old filesystem |
| HlapPdfIdx.Pad10 | src/pdf_bill_indexing/hlap_pdf_idx.py:34 | the account right-aligned in ten characters with leading '0's, kept whole when longer |
| HlapPdfIdx.IndexLineIsOneLine | src/pdf_bill_indexing/hlap_pdf_idx.py:34 | a record is at least fifteen characters long and ends in a newline; for an account without a newline (every piece of `split('\n')`), that newline is its only one |
| HlapPdfIdx.IndexLineFields | src/pdf_bill_indexing/hlap_pdf_idx.py:34 | for an account without ',', a record ends in a newline and splits at ',' into the padded account and the index number twice, which reads back as the number |
| HlapPdfIdx.AlignmentMeansMention | src/pdf_bill_indexing/hlap_pdf_idx.py:38 | a page is an alignment page exactly when "ALIGNMENT" occurs somewhere in its text |
| HlapPdfIdx.AccountOfNinthLine | src/pdf_bill_indexing/hlap_pdf_idx.py:43-45 | the account is the ninth piece of `text.split('\n')`; there is none (IndexError) exactly when there are fewer than nine pieces; it holds no newline |
| HlapPdfIdx.KeepFirstIsOr | src/pdf_bill_indexing/hlap_pdf_idx.py:46 | `first_acc or acc_no` keeps a non-empty `first_acc`, and takes `acc_no` when `first_acc` is unset or empty; it is empty only when `acc_no` is |
| HlapPdfIdx.PageCount | src/pdf_bill_indexing/hlap_pdf_idx.py:48 | `page_no + 1` after the loop is the number of pages, and 1 for an empty document, whose loop never binds `page_no` |
| HlapPdfIdx.ScanStepWrites | src/pdf_bill_indexing/hlap_pdf_idx.py:37-47 | one loop turn stops only at a bill page with fewer than nine lines, and keeps the records; it appends one record, with that page's account at index number position + 1 + alignment pages so far, exactly for a readable bill page; after a stop it changes nothing |
| HlapPdfIdx.ScanPages | src/pdf_bill_indexing/hlap_pdf_idx.py:35-47 | `first_acc` is set exactly when `acc_no` is; no records without an account; records plus alignment pages never exceed the pages |
| HlapPdfIdx.ScanStops | src/pdf_bill_indexing/hlap_pdf_idx.py:45 | once a short page has raised, later pages change nothing |
| HlapPdfIdx.IndexOutcomeOf | src/pdf_bill_indexing/hlap_pdf_idx.py:36-48 | a short page lies within the document; the page count is the number of pages, and 1 for an empty document; there are never more records than pages |
| HlapPdfIdx.CreateIndex | src/pdf_bill_indexing/hlap_pdf_idx.py:32-48 | the loop ends with the outcome of the fold over the pages |
| HlapPdfIdx.BillPages | src/pdf_bill_indexing/hlap_pdf_idx.py:38-41 | the positions of exactly the non-alignment pages, strictly increasing; with the alignment pages they make up all pages |
| HlapPdfIdx.ScanStopsAtFirstShortPage | src/pdf_bill_indexing/hlap_pdf_idx.py:43-45 | the loop raises exactly when some bill page has fewer than nine lines, and it does so at the first such page |
| HlapPdfIdx.ScanWritesOneRecordPerBill | src/pdf_bill_indexing/hlap_pdf_idx.py:36-47 | with readable bill pages, the k-th record holds the k-th bill page's account and its index number, position + 1 + earlier alignment pages |
| HlapPdfIdx.IndexNumbersIncrease | src/pdf_bill_indexing/hlap_pdf_idx.py:44 | later pages get strictly larger index numbers |
| HlapPdfIdx.RecordsInIncreasingOrder | src/pdf_bill_indexing/hlap_pdf_idx.py:36-47 | records appear in strictly increasing index-number order |
| HlapPdfIdx.AccountsAreBillAccounts | src/pdf_bill_indexing/hlap_pdf_idx.py:45 | one account per bill page, the k-th being the ninth line of the k-th bill page |
| HlapPdfIdx.FirstNonEmpty | src/pdf_bill_indexing/hlap_pdf_idx.py:46 | none exactly for no accounts; a non-empty result is the first non-empty account, with only empty ones before it; "" only when every account is empty |
| HlapPdfIdx.FirstNonEmptyAppend | src/pdf_bill_indexing/hlap_pdf_idx.py:46 | appending an account updates the first non-empty account as `first_acc or acc_no` does |
| HlapPdfIdx.FirstAccountIsFirstNonEmpty | src/pdf_bill_indexing/hlap_pdf_idx.py:46 | `first_acc` ends as the first non-empty bill account, or "" when all are empty |
| HlapPdfIdx.FirstAccountIsStable | src/pdf_bill_indexing/hlap_pdf_idx.py:46 | a non-empty `first_acc` never changes on later pages |
| HlapPdfIdx.LastAccountIsLast | src/pdf_bill_indexing/hlap_pdf_idx.py:45 | `acc_no` ends as the last bill page's account, and is unbound without bill pages |
| HlapPdfIdx.IndexOutcomeCases | src/pdf_bill_indexing/hlap_pdf_idx.py:32-52 | short page exactly when a bill page is unreadable, with the records before it; no account exactly when there is no bill page; otherwise the page count equals the pages, one record per bill page, and the first and last accounts |
| HlapPdfIdx.Failing | src/pdf_bill_indexing/hlap_pdf_idx.py:62 | exactly the results whose check is false |
| HlapPdfIdx.CheckoutIdx | src/pdf_bill_indexing/hlap_pdf_idx.py:55-64 | correct exactly when every result is true; otherwise it reports the failed checks, and there is at least one |
| HlapPdfIdx.LastDot | src/pdf_bill_indexing/hlap_pdf_idx.py:96 | the position of the last '.' (no '.' after it), or -1 |
| HlapPdfIdx.PdfSuffixed | src/pdf_bill_indexing/hlap_pdf_idx.py:96 | `with_suffix(".pdf")` gives a name whose suffix is ".pdf" and whose stem is the original stem |
| HlapPdfIdx.RenamePlan | src/pdf_bill_indexing/hlap_pdf_idx.py:94-98 | the input file is renamed exactly when its name differs from the composed name; the new name is the composed name with suffix ".pdf" |

## Left out

- Logging, `argparse`, `watch_directory`'s observer and sleep loop, and the `__main__` blocks are not modelled. They are I/O and process control with no decision in them.
- The `time.sleep(5)` before renaming is not modelled, because time is outside the model.
- The child process is represented only by its exit code, a parameter. The files the child itself creates or removes are not modelled.
- `utils.parse_filename_new`, `utils.compose_hlap_filename`, `utils.IGNORE` and `utils.FILE_PATH` come from `app_modules.utilities`, and `check_idx_file` from `pdf_bill_indexing.hlap_idx_check`; neither module is part of this model. They are parameters: the configuration's parser, the composed name, the ignore list, `WATCH_ME`, and the checker's results as a sequence of (name, passed) pairs.
- The PDF reader is replaced by the sequence of page texts. The temporary file and its `replace` onto the `.spdfi` name are replaced by the sequence of records.
- `put_files_to_sftp` and main's `'test' not in input_fp` gate are not modelled, because they are network I/O.
- Strings.Lower: covers ASCII letters only, with no Unicode case mapping.
- Paths keep no distinction between relative and absolute roots, and ".." is not resolved.
- A missing parent directory and a parent that is a regular file both raise FileNotFoundError; ENOTDIR is not distinguished.
- The only PermissionError modelled is the one in the rename (`denied`). Other operations never raise it.
- FileTree.RenameStep: requires the source not to be a directory, because moving directories is not modelled; the same holds for FileTree.FileSystem.Rename.
- Dispatcher.DisposalOf: requires, on a problem, that the file is not a directory and not the archive directory itself, because moving directories is not modelled.
- Dispatcher.HandleProcessedFile: the same requirement as `DisposalOf`.
- Dispatcher.RenameOf: requires that the old name is not a directory, because moving directories is not modelled.
- Dispatcher.RenameFile: the same requirement as `RenameOf`.
- Dispatcher.DispatchOf: requires `DispatchReady`: the dispatched name is not a directory in either spelling of its path. The reason is the same.
- Dispatcher.DispatchFile: the same requirement as `DispatchOf`.
- Dispatcher.CreatedOf: the same requirement as `DispatchOf`, for paths that are not ignored.
- Dispatcher.OnCreated: the same requirement as `DispatchOf`, for paths that are not ignored.
- Dispatcher.HlapPdfFailureIsArchived: holds for a child that leaves the file in place. The PDF index program itself first renames its input to `<composed name>.pdf` (`src/pdf_bill_indexing/hlap_pdf_idx.py:94-98`). When the composed name differs and the program then fails, the file stays in `WATCH_ME` under that new name, and disposing of the original name only creates the archive directory.
- Dispatcher.DispatchedFileIsDisposed: the same restriction, for every program: the child is represented by its exit code only, so the lemma covers a child that leaves the file in place.
- HlapPdfIdx.RenamePlan: requires the composed name to be one path component that is not empty or ".". pathlib's `with_suffix` raises ValueError on an empty name, and a name with `/` in it is not modelled. The `replace` onto the new name is not modelled as a filesystem step.
