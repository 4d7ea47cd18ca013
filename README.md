# gret core, modelled in Dafny

gret is a grep-like tool. It walks a directory tree and matches every line of every text file against a
list of regular expressions. It keeps only the directories that lead to a matched file and prints the
result as a coloured tree, as a list of file paths, or as a single file. An interactive menu can
then be used to move a highlight over the printed lines. An older searcher, `copy.rs`, looks for the
literal `TODO` and prints the tree as it goes.

This project models those parts.

- `bytes.dfy`, `wrappers.dfy`, `paths.dfy`: the byte type, `Option`/`Result`, and paths as sequences of
  components with `Path::parent` and `Path::starts_with`.
- `formats.dfy` (`Formats`): the terminal styles, the branch glyphs, `get_terminator`, `get_reset` and
  `get_color`. Output is a sequence of `Piece`s: plain text, lossily decoded bytes, escape sequences,
  and names drawn through `dir_name`/`file_name`.
- `line_matcher.dfy` (`LineMatcher`): `SliceExt::trim` and `File::add_matches`. Lines are split on
  `\n` and trimmed. Matches are collected pattern by pattern, sorted by their end (a stable sort) and
  clamped so that they do not overlap. A buffer holding NUL is skipped.
- `tree_builder.dfy` (`TreeBuilder`): `search_file`, `get_name_as_string` and
  `begin_search_on_directory`. The `Rc<RefCell<Directory>>` graph is an arena, a sequence of
  `DirNode`s indexed by the `directories` map. The walker's output is a sequence of `WalkItem`s, and
  each file's content, link target and `HOME` are parameters.
- `tree_shape.dfy` (`TreeShape`): the arena frozen into the `Dir` tree the printer reads, and what the
  search guarantees about that tree.
- `printer.dfy` (`Printer`): the renderer as a `Writer` class. Its field `written` is the output
  stream, and every write method appends exactly the pieces a specification function gives.
- `menu.rs` → `menu.dfy` (`Menu`): `read_char` over a stream of terminal events, and `draw_loop` as
  the queued terminal commands and the selection drawn at every redraw.
- `copy.rs` → `todo_search.dfy` (`TodoSearch`): the legacy `TODO` searcher's `search_file`, with its
  upward walk over the chain of not-yet-printed directories.

## Model

| member | source | states |
|---|---|---|
| Formats.GetTerminator | src/formats.rs:34-39 | The terminator shows exactly one newline. Outside the menu it is the plain `NEW_LINE`. In the menu it is wrapped by a reset and the default foreground. |
| Formats.GetReset | src/formats.rs:41-47 | Two styles ending in `NO_BOLD`. The menu resets to the default foreground, otherwise `RESET_COLOR` is used. |
| Formats.GetColor | src/formats.rs:49-51 | Pattern `i` is coloured `MATCHED_COLORS[i % 3]`: green, magenta or red, never the line-number or default colour. |
| Formats.ColorCycle | src/formats.rs:32 | The colours repeat with period three, and neighbouring pattern ids never share a colour. |
| Formats.GlyphsUniform | src/formats.rs:27-30 | All four branch glyphs and spacers are three characters wide, so the tree columns line up. |
| Paths.ParentPath | src/searcher.rs:178-179 | `parent()` drops the last component. It is `None` exactly for the empty path and the filesystem root. |
| LineMatcher.Position | src/searcher.rs:79 | The first byte that is not a tab or space, with only such bytes before it. `None` exactly when the slice is all whitespace. |
| LineMatcher.RPosition | src/searcher.rs:80 | The last byte that is not a tab or space, with only such bytes after it. `None` exactly when the slice is all whitespace. |
| LineMatcher.TrimSpec | src/searcher.rs:70-88 | `trim` gives a contiguous piece of the line surrounded only by tabs and spaces. It is empty exactly for an all-whitespace line, and otherwise starts and ends on a non-whitespace byte. |
| LineMatcher.TrimSome | src/searcher.rs:79-81 | When both positions exist, `first <= last` and the result is `self[first..last + 1]`. The `unreachable!()` branch cannot be taken. |
| LineMatcher.TrimIdempotent | src/searcher.rs:70-88 | Trimming a trimmed line changes nothing. |
| LineMatcher.RawMatchesWithin | src/searcher.rs:103-115 | Every collected match lies inside the trimmed line and carries the id of one of the patterns. |
| LineMatcher.CollectMatches | src/searcher.rs:102-115 | The loop collects every match of every pattern, in pattern order and then in match order, each tagged with its pattern id. |
| LineMatcher.InsertPermutes | src/searcher.rs:118 | Inserting into the sorted prefix adds exactly one element and loses none. |
| LineMatcher.InsertSorted | src/searcher.rs:118 | Inserting after every element with a smaller or equal end keeps the sequence sorted by end. |
| LineMatcher.SortByEndFacts | src/searcher.rs:118 | `sort_by_key(end)` gives a permutation of the matches, sorted by end. |
| LineMatcher.SortByEndStable | src/searcher.rs:118 | The sort is stable: for every end offset, the matches that end there come out in their input order. |
| LineMatcher.ClampedFacts | src/searcher.rs:120-128 | The clamping pass changes only start offsets, and only moves them later. The spans stay sorted and inside the line, and each starts no earlier than its predecessor ends. |
| LineMatcher.SortKeepsBounds | src/searcher.rs:118 | Sorting keeps every span inside the line. |
| LineMatcher.ResolveFacts | src/searcher.rs:116-128 | Sort then clamp: the same number of matches, each a sorted match with a start that may move later. The result is sorted, inside the line and free of overlaps. |
| LineMatcher.ClampOverlaps | src/searcher.rs:120-128 | The `while m_id < matches.len()` loop computes exactly the clamping pass. |
| LineMatcher.SplitLines | src/searcher.rs:98 | The split yields at least one fragment, even for an empty buffer, so line numbers start at 1. |
| LineMatcher.SplitJoin | src/searcher.rs:98 | Joining the fragments with `\n` gives back the buffer, and no fragment holds a newline. |
| LineMatcher.PresentSound | src/searcher.rs:129-133 | Every pushed record is the outcome of the line its number names. |
| LineMatcher.PresentOrdered | src/searcher.rs:129-133 | Pushed records come in strictly increasing line order. |
| LineMatcher.PresentComplete | src/searcher.rs:129-133 | No matched line is left out of the pushed records. |
| LineMatcher.ScanFromRecords | src/searcher.rs:100-135 | Every record of the per-line loop is the record of one fragment, under that fragment's number. |
| LineMatcher.OutcomeRecord | src/searcher.rs:129-133 | A present outcome is the record of its own fragment. |
| LineMatcher.ScanRecords | src/searcher.rs:92-136 | A buffer holding NUL gives no records. Otherwise every record is the record of one fragment of the split. |
| LineMatcher.ScanOrderedComplete | src/searcher.rs:92-136 | Records are in increasing line order, and every line on which some pattern matched has a record (when the buffer holds no NUL). |
| LineMatcher.ScanWellFormed | src/searcher.rs:116-133 | Under well-formed patterns, every record's spans are sorted, inside the line and non-overlapping: the shape `print_line` needs. |
| LineMatcher.MatchLines | src/searcher.rs:100-135 | The per-line loop pushes exactly the records of the fragments, in order. |
| LineMatcher.MatchLine | src/searcher.rs:101-134 | One iteration gives the record of its fragment, or nothing. |
| LineMatcher.File.constructor | src/searcher.rs:246-251 | A new `File` has the given name, path and link target, and no lines. |
| LineMatcher.File.AddMatches | src/searcher.rs:92-136 | `add_matches` appends the records of the buffer to the file's lines, and nothing else changes. |
| TreeBuilder.GetNameAsString | src/searcher.rs:258-271 | Succeeds exactly when the path ends in a normal, valid-UTF-8 component, and then returns its name. Otherwise it fails with `CantGetName` for that path. |
| TreeBuilder.LinkedPath | src/searcher.rs:229-244 | A link target is kept exactly when there is one. It is unchanged unless it lies under `HOME`. |
| TreeBuilder.LinkedPathRoundTrip | src/searcher.rs:232-238 | Replacing the `HOME` prefix by `~` loses nothing: expanding `~` back gives the target. |
| TreeBuilder.SearchOutcome | src/searcher.rs:220-256 | Unreadable file: `Ok(None)`. Readable file with an unusable name: `CantGetName`. Otherwise a `File` with the path, its name, the link as shown, and the records of `add_matches`. |
| TreeBuilder.SearchFile | src/searcher.rs:220-256 | `search_file` computes exactly that outcome. |
| TreeBuilder.Link | src/searcher.rs:201-202 | Pushing a child and clearing its `to_add` flag changes only that parent's children and that child's flag. |
| TreeBuilder.AddFileKeeps | src/searcher.rs:189 | Storing a matched file in its directory's node keeps the arena valid, with only that node waiting to be linked. |
| TreeBuilder.LinkKeeps | src/searcher.rs:196-204 | One turn of the upward walk keeps the arena valid and hands the pending link to the parent. |
| TreeBuilder.LinkChildrenPlaced | src/searcher.rs:201-202 | After linking, every child sits under its own parent directory and is marked linked. |
| TreeBuilder.LinkChildrenDistinct | src/searcher.rs:198-202 | A directory is pushed into its parent's children at most once. |
| TreeBuilder.StopKeeps | src/searcher.rs:193-200 | The walk may stop at the root or at a directory already linked: the arena is then valid. |
| TreeBuilder.InsertDirKeeps | src/searcher.rs:158-166 | Recording a new directory, unlinked and empty, keeps the arena valid. |
| TreeBuilder.ParentPathIsUp | src/searcher.rs:178-179 | For a path below the root, `parent()` is the directory one level up, which is the root or again below it. |
| TreeBuilder.StoreMatchedFile | src/searcher.rs:178-210 | A matched file is appended to its directory's files and to no other node. Its directory ends up linked, all the way up to the root, and the arena stays valid. Every children list keeps its old entries as a prefix; only directories that were unlinked are appended. |
| TreeBuilder.WalkStep | src/searcher.rs:192-205 | Each turn of the `while let` loop finds the parent among the recorded directories and keeps the walk's invariant. |
| TreeBuilder.WalkEndAtRoot | src/searcher.rs:206-209 | Reaching the root links the last directory into the top directory, leaving a valid arena. |
| TreeBuilder.WalkEndLinked | src/searcher.rs:198-200 | Meeting a directory that is already linked ends the walk with a valid arena. |
| TreeBuilder.LinkUpward | src/searcher.rs:186-209 | The upward walk links the file's directory and its unlinked ancestors. It leaves every node's files as they were and the arena valid. Each link is pushed at the end of its parent's children, after the children already there; only directories that were unlinked are appended, and none becomes unlinked again. |
| TreeBuilder.DirNew | src/searcher.rs:158-166 | A directory entry not seen before is recorded under its path. |
| TreeBuilder.FileStored | src/searcher.rs:167-211 | A file entry with matched lines is recorded in the node of its directory. |
| TreeBuilder.ProgressStart | src/searcher.rs:147-150 | Before the walk, the arena is the root directory alone, named by `get_name_as_string` or `/`. |
| TreeBuilder.VisitDir | src/searcher.rs:158-166 | A directory entry fails exactly on an unusable name, and otherwise advances the loop state. |
| TreeBuilder.VisitFile | src/searcher.rs:167-211 | A file entry fails exactly when `search_file` fails, and otherwise advances the loop state. |
| TreeBuilder.Visit | src/searcher.rs:155-215 | A walker error or an entry that is neither file nor directory is skipped. Other entries go to the branches above. |
| TreeBuilder.BeginSearchOnDirectory | src/searcher.rs:141-218 | Succeeds exactly when no entry makes it fail; an error is that of the first failing entry. On success the arena is valid, the root is named, every directory carries its name, every matched file sits in its directory's node, and each node's files are exactly the walk's matched files lying directly in that directory, in walk order. |
| TreeBuilder.FailureAt | src/searcher.rs:159 | One failing entry makes the whole search fail (the `?`). |
| TreeShape.ChildDeeper | src/searcher.rs:201 | A directory's child is one path component deeper, so the pointer graph has no cycles. |
| TreeShape.SingleAttachment | src/searcher.rs:198-208 | No directory is attached twice, and the root is attached nowhere: the pointer graph is a tree. |
| TreeShape.FreezePruned | src/searcher.rs:178-210 | Every directory in the result tree has a child directory or a matched file. |
| TreeShape.ParentAttached | src/searcher.rs:201-208 | A linked directory sits in the children of a shallower directory that is itself linked, or of the root. |
| TreeShape.SubtreeUnderRoot | src/searcher.rs:186-209 | The files below any linked directory are reachable from the root. |
| TreeShape.ListedIsStored | src/searcher.rs:182-189 | Every file the tree lists was stored in some node. |
| TreeShape.FrozenFiles | src/searcher.rs:178-210 | The tree lists exactly the files stored in the arena: none is stranded in an unlinked directory. |
| TreeShape.SearchTree | src/searcher.rs:141-218 | The returned tree is named after the root, has no empty subdirectory, and lists exactly the walk's files with matched lines. |
| TreeShape.SearchTreeOrder | src/searcher.rs:178-189 | Every directory of the returned tree lists the walk's matched files that lie directly in it, in the order the walk yielded them. |
| Printer.DecimalDigits | src/printer.rs:226-230 | A line number is written as a non-empty run of digits without a leading zero. |
| Printer.DecimalRoundTrip | src/printer.rs:226-230 | Reading the written line number back gives the number. |
| Printer.NameTextShows | src/formats.rs:53-59 | A name, styled or not, shows its own text. |
| Printer.CountSuffixShows | src/printer.rs:193-195 | The count suffix shows `": {count}"` exactly when counts are on. |
| Printer.LinkedNameShows | src/printer.rs:175-192 | A file name shows ` -> ` and the target exactly when the file is a link. |
| Printer.FileNameRowShows | src/printer.rs:174-199 | A file row shows the name, the link, the count of matched lines and the terminator. |
| Printer.FilePathRowShows | src/printer.rs:32-58 | A path row shows the whole path in place of the name. |
| Printer.DirNameRowShows | src/printer.rs:201-212 | A directory row shows the name, the count of files and subdirectories, and the terminator. |
| Printer.TrimStartFacts | src/printer.rs:222 | The leading half of `trim` (also `trim_start` at copy.rs:187): it removes exactly the leading whitespace. |
| Printer.TrimEndFacts | src/printer.rs:222 | `trim_end` removes exactly the trailing whitespace. |
| Printer.TextTrimSpec | src/printer.rs:222 | `trim` leaves a contiguous piece surrounded only by whitespace, starting and ending on non-whitespace. A line already trimmed stays the same. |
| Printer.MatchRunsBytes | src/printer.rs:235-249 | After `n` matches, the styled runs show the line's bytes up to the end of the `n`th match, in order. |
| Printer.PrintLineRoundTrip | src/printer.rs:225-252 | The styled line shows every byte of the line exactly once, in order: the escapes add colour and lose nothing. |
| Printer.PrintLineUnstyled | src/printer.rs:218-224 | Without styling, a line is the optional `"{n}: "` and the trimmed text, and no escape. |
| Printer.DescendantsShape | src/printer.rs:85-121 | A directory prints nothing exactly when it has no children and no files. Otherwise its name row comes first. |
| Printer.SingleFileShape | src/printer.rs:155-172 | A single file prints nothing exactly when it has no lines. Otherwise its name row comes first. |
| Printer.PathRowsAppend | src/printer.rs:19-30 | The path rows of two lists of files are the rows of the first, then those of the second. |
| Printer.FilesOnlyOrder | src/printer.rs:19-30 | The files-only view lists one path row per file of the tree, depth first, children before the directory's own files. |
| Printer.JustFilesView | src/printer.rs:8-17 | In files-only mode the output is the path rows of the tree's files, or of the single file. |
| Printer.UnstyledResults | src/printer.rs:60-74 | With styling off and a plain terminator, the output holds no escape sequence at all. |
| Printer.Writer.NewLine | src/printer.rs:259-261 | Appends the terminator. |
| Printer.Writer.WriteResets | src/printer.rs:255-257 | Appends the reset sequence. |
| Printer.Writer.WriteCount | src/printer.rs:193-195 | Appends the count suffix. |
| Printer.Writer.WriteFileName | src/printer.rs:174-199 | Appends the file row. |
| Printer.Writer.WriteFilePath | src/printer.rs:32-58 | Appends the path row. |
| Printer.Writer.WriteDirName | src/printer.rs:201-212 | Appends the directory row. |
| Printer.Writer.PrintLine | src/printer.rs:214-253 | Appends the line as specified: unstyled, or header plus styled runs plus the rest of the line. |
| Printer.Writer.WriteMatches | src/printer.rs:235-249 | The match loop appends the styled runs of all matches and returns where the last one ended. |
| Printer.Writer.WriteLineRows | src/printer.rs:139-150 | Appends one row per matched line, each behind its prefix. |
| Printer.Writer.PrintFile | src/printer.rs:123-153 | Appends the file row behind its glyph, then its lines one column further in. |
| Printer.Writer.PrintSingleFile | src/printer.rs:155-172 | Appends the single-file view. |
| Printer.Writer.HandleDescendants | src/printer.rs:85-121 | Appends the directory's subtree: name row, child directories, then files. |
| Printer.Writer.WriteChildren | src/printer.rs:97-109 | Appends each child subtree behind its glyph. Only the last entry overall gets `BRANCH_END`. |
| Printer.Writer.WriteFileGroup | src/printer.rs:110-119 | Appends each file block. Only the last file gets `BRANCH_END`. |
| Printer.Writer.StartPrintDirectory | src/printer.rs:76-83 | Appends the tree from an empty prefix. |
| Printer.Writer.WriteFiles | src/printer.rs:19-30 | Appends the files-only rows of a tree. |
| Printer.Writer.WriteFilePaths | src/printer.rs:27-29 | Appends one path row per file, in order. |
| Printer.Writer.JustWriteFiles | src/printer.rs:8-17 | Appends the files-only view of a search result. |
| Printer.Writer.WriteResults | src/printer.rs:60-74 | Appends the view the configuration selects. |
| Menu.KeyResult | src/menu.rs:116-127 | Ctrl-C gives `None`. Any other character press gives its character. |
| Menu.ReadChar | src/menu.rs:114-130 | Skips every event that is not a character press and answers the first that is, with `None` exactly for Ctrl-C. |
| Menu.StepFacts | src/menu.rs:83-96 | The loop ends exactly on `q` or Ctrl-C. `j`/`k` move the highlight by one within the selectable lines, and any other key leaves it. |
| Menu.RunAfterRead | src/menu.rs:83-96 | One `read_char` decides the next redraw or the end of the loop. |
| Menu.RunBounded | src/menu.rs:63-96 | The highlight never leaves `0..max_selected_id - 1`. |
| Menu.FramePrintsLines | src/menu.rs:71-78 | A redraw prints every line, in order. |
| Menu.FrameUnhighlighted | src/menu.rs:71-78 | Rows before the selected one carry no highlight. |
| Menu.FrameSelection | src/menu.rs:71-78 | A redraw holds exactly one highlight, placed between the move to the selected row and that row's text. |
| Menu.DrawFrame | src/menu.rs:71-78 | The frame loop queues exactly one redraw. |
| Menu.Turn | src/menu.rs:83-96 | One key: the new selection or the end of the loop, as `Step` says. A quitting key is still ahead when the loop goes on. |
| Menu.Redraw | src/menu.rs:66-78 | Appends one redraw for the current selection. |
| Menu.DrawLoop | src/menu.rs:58-97 | Starting at line 0, the loop redraws once per key until `q` or Ctrl-C, ending on that key. The selections drawn are exactly those of `Run`, and the commands queued are their redraws. |
| TodoSearch.LineContainsBytes | copy.rs:151-165 | True exactly when `TODO` occurs in the line, and never for a line shorter than four bytes. |
| TodoSearch.EmitAncestors | copy.rs:109-121 | The upward walk writes exactly the specified names and clears exactly the specified flags. |
| TodoSearch.EmittedOrder | copy.rs:109-121 | The names written are the unprinted directories from the outermost down to the file's own, stopping at the first printed one or the root. |
| TodoSearch.ClearedFacts | copy.rs:110-115 | Each directory the walk passes is marked printed and otherwise kept. The directory it stops at, every directory above it and the root keep their flags, and no name changes. |
| TodoSearch.EmitOnce | copy.rs:109-121 | Walking the same chain again, after its flags were updated, writes nothing (unless the chain is the root alone). |
| TodoSearch.LineRowShape | copy.rs:184-189 | A matched line is written as its indentation, the glyph, and its text with leading whitespace removed. |
| TodoSearch.FragmentsPrefix | copy.rs:105-135 | The newline-terminated lines the loop sees, plus the final fragment, are the newline-split fragments of the file. |
| TodoSearch.MatchedLinesSplit | copy.rs:105-146 | The lines examined by the loop and the final check are exactly the `TODO` lines of the newline split. |
| TodoSearch.AgreeWhenTerminated | copy.rs:137-146 | The as-written and corrected outputs agree whenever the final fragment does not match, or some terminated line matched. |
| TodoSearch.OutputEmpty | copy.rs:90-149 | The corrected output is empty exactly for a non-ASCII file or a file with no `TODO` line in its newline split. |
| TodoSearch.OutputShape | copy.rs:90-149 | For an ASCII file with a `TODO` line, the corrected output is the pending directory names, one file-name piece, then three pieces per `TODO` line of the newline split, in order: indentation, the line without leading whitespace, a newline. Each such line holds `TODO` and no newline. |
| TodoSearch.WriteDirNames | copy.rs:119-121 | Writes the pending directory rows in order. |
| TodoSearch.WriteMatch | copy.rs:108-130 | A matching terminated line: on the first match the pending directories and the file name, then the line. |
| TodoSearch.WriteFirstMatch | copy.rs:109-130 | The first match writes the pending directory rows, the file row and the line row. |
| TodoSearch.ScanTerminated | copy.rs:103-135 | After the byte loop: where the last line starts, whether anything matched, whether the chain is still held, and what was written. |
| TodoSearch.WriteFinal | copy.rs:137-146 | The final fragment as written completes the as-written output. |
| TodoSearch.SearchFile | copy.rs:90-149 | `search_file` writes the as-written output. It returns the chain only when no terminated line matched. |
| TodoSearch.FinalFragmentSkipsDirectories | copy.rs:137-146 | A file holding only `TODO`, in the unprinted directory `src` below the unprinted root `project`: both directory rows are missing from the as-written output; the corrected one writes `project`, then `src`. |
| TodoSearch.WriteFinalCorrected | copy.rs:137-146 | The final fragment treated like any line completes the corrected output. |
| TodoSearch.SearchFileCorrected | copy.rs:90-149 | The corrected search writes the corrected output and gives up the chain once anything matched. |

## Findings

| source | as written | input that shows it | evidently intended | confidence | as-written member | corrected member |
|---|---|---|---|---|---|---|
| copy.rs:137-146 | When the only `TODO` of a file sits on a last line without a newline, the file name and the line are written, but the pending directory names are not. The chain is returned with its flags untouched. | A file `notes.txt` holding exactly the bytes `TODO`, at depth 0, in the directory `src` below the root `project`, neither of them printed yet (the root starts unprinted, copy.rs:39-43). | The final fragment behaves like every other matching line: `project` and `src` are written first, then the file name, then the line. | not executed | TodoSearch.FinalFragmentSkipsDirectories | TodoSearch.SearchFileCorrected |

The as-written behaviour is `TodoSearch.SearchFile`/`OutputAsWritten`. The corrected behaviour is
`TodoSearch.SearchFileCorrected`/`Output`. It is proved equal to the as-written output on every file
except those whose only `TODO` line is a final line without a newline (`AgreeWhenTerminated`). On
every file it writes one row per `TODO` line of the newline split, the final fragment included
(`OutputEmpty`, `OutputShape`).

## Left out

- The regular-expression engine: a `Pattern` is the function from a line to the (start, end) spans
  of its `find_iter`. The only assumption about it is that the spans lie inside the line
  (`PatternsWellFormed`).
- The directory walker (`ignore::WalkBuilder`, hidden files, maximum depth): its output is a sequence
  of `WalkItem`s given in a parent-before-child order (`WalkOrdered`). That order is why the
  `unwrap()`s at src/searcher.rs:187 and 197 cannot panic in the model.
- File system access: file contents, `read_link` targets, `is_dir`/`is_file`, and the `HOME` variable
  are parameters.
- Terminal I/O: crossterm calls become `Command` values and writes become `Piece` values. Flushing,
  I/O errors and the `?` on writes are not modelled.
- Lossy UTF-8 decoding: decoded bytes stay bytes (`Raw`). `trim`, `trim_start` and `trim_end` on a
  decoded line use ASCII whitespace only. Unicode whitespace beyond ASCII is not modelled.
- Menu.DrawLoop: requires between 2 and 65535 rendered lines. The selection is a `u16`
  (src/menu.rs:62-63). The menu opens only when something matched (src/main.rs:47-49 and 58-59),
  so the rendering holds at least one terminator with its newline, and its split has at least two parts.
- TodoSearch.EmitOnce: says only that walking the same chain again writes nothing. The flags cleared
  at copy.rs:112 are never read again: `take()` at copy.rs:109 consumes the chain and the move at
  copy.rs:113 drops each node, so `WriteFirstMatch` discards the updated chain too. The root's flag is
  never cleared (copy.rs:115-117), so a walk from another unprinted directory below the same root
  would write the root again.
- Menu.ReadChar: blocks until a key arrives. The model instead requires a character press in the
  event stream, and `DrawLoop` requires a quitting key.
- `menu::draw`, terminal setup, the clear on resize, and `cleanup` are not part of this model. The
  rendered lines are a parameter.
- The recursive `search`/`search_dir` of copy.rs, its ignore handling and its `get_name_as_string`
  are not part of this model. Neither is the panic of the `.unwrap()` at copy.rs:82, which is reached
  once `search_file` has taken the directory chain. `TodoSearch.SearchFile` says when `None` is
  returned.
- `BRANCH_CHAR`, which copy.rs reads as `formats::BRANCH_CHAR` (copy.rs:174, 181, 188), is not among
  the constants of src/formats.rs; it is the parameter `branch`. The copy.rs `depth` counter is passed in as a number.
- The `directories` map is keyed by the path's component list, not by its `OsString` bytes
  (src/searcher.rs:147, 160-165, 187, 197), so two spellings of one path such as `a/b` and `a//b`
  share a key. Paths produced by the walker have one spelling each.
- TreeBuilder.BeginSearchOnDirectory: gives each node's files in walk order, but the order of each
  node's children only step by step: `StoreMatchedFile` and `LinkUpward` append new links after the
  existing children (src/searcher.rs:201-202, 206-209). No closed form of the children order over
  the whole walk is stated.
- `Rc<RefCell<Directory>>` sharing is replaced by an arena of nodes and the `Freeze` function to a
  tree value. Aliasing and update through shared pointers are therefore not modelled.
- The styling performed by `formats::dir_name`/`file_name` is opaque (`Named` pieces).
- `m.matcher_id` at src/printer.rs:243 is read as the `regex_id` field set at src/searcher.rs:110.
- The global `CONFIG` is an explicit `Config` value. Argument parsing, the logger and `error_prefix`
  are outside this model.
- Printer.Writer.PrintLine: needs sorted, disjoint, in-bounds spans when styling is on. Those are
  exactly what `LineMatcher.ScanWellFormed` proves `add_matches` produces.
