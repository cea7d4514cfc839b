# Directory Opus button scripts, modelled in Dafny

This project models five JScript button and user-command scripts for the
Directory Opus file manager. It proves properties of each.

- **Create_Bak_Button.js** makes a `.bak` copy of every selected item. The
  first copy is `name.bak`; later ones are `name.bak2`, `name.bak3`, and so
  on, numbered one past the highest version in the folder. With `RESTORE`,
  it copies `name.bak<N>` back over `name` (module `BackupNames`,
  `backup_names.dfy`).
- **Copy_Tree_Structure.js** puts an ASCII-art tree of the selection on the
  clipboard. Selected folders can be expanded down to `EXPAND_DEPTH`. A
  context line comes first (`CopyTree`, `copy_tree.dfy`, for the arguments,
  the expansion and the path tree; `TreeRender`, `tree_render.dfy`, for the
  text).
- **Combine_To_TXT_File.js** writes the selected text files into one file.
  Each file has a header line. Files are sorted by name, date, either
  reversed, or by directory structure (`CombineSort`, `combine_sort.dfy`,
  for the comparators and the sort; `CombineText`, `combine_text.dfy`, for
  the arguments, the gathering, the headers, the output lines and the
  output location).
- **Copy_File_Paths_Auto_Quoted.js** and **Copy_File_Names_Auto_Quoted.js**
  copy the selected paths or names, one per line. Lines are quoted according
  to `MULTILINE_QUOTE_MODE` and `NO_SINGLE_ITEM_QUOTES` (`Quoting`,
  `quoting.dfy`, shared; `CopyPaths`, `copy_paths.dfy`; `CopyNames`,
  `copy_names.dfy`).

`Text` (`text.dfy`) holds the JavaScript string operations the scripts
rely on: decimal digits, `toLowerCase`, `join` and `split`.

The scripts' loops are Dafny methods with loop invariants. Each method is
proved equal to a specification function:

- `GetLastBakNum` against `LastBakNum`;
- `BakOnClick` against `ClickCommands`;
- `Expand` and `ExpandSelectedItems` against `ExpandItem` and `ExpandItems`;
- `GenerateTree` and `ConvertTreeToText` against `BuildTree` and `RenderLevel`;
- `CollectFiles`, `GatherFiles` and `WriteCombined` against `FilesOf`,
  `Gathered` and `OutputLines`;
- the two copy commands against `ClipboardText`.

`sortFiles` sorts an array in place. Its model is an in-place insertion sort
on a Dafny `array` (`SortInPlace`).

The properties are stated about those functions. The host is supplied
through parameters:

- folder listings;
- existence tests;
- the modification times;
- the host's string collation (`cmp`);
- the contents of files (`readAll`);
- the dialog's answer.

## Model

| member | source | states |
|---|---|---|
| BackupNames.LastBakNumIsMax | Create_Bak_Button.js:112-150 | the last backup number is at least every sibling's version, and is 0 or the version of some sibling (a true maximum) |
| BackupNames.BareVersion | Create_Bak_Button.js:124-128 | the bare `name.bak` counts as version 1 |
| BackupNames.NumberedVersion | Create_Bak_Button.js:129-141 | `name.bak<N>` counts as version N |
| BackupNames.NonNumericEndingIgnored | Create_Bak_Button.js:133-134 | a sibling whose ending after `name.bak` is not a number counts as no version |
| BackupNames.MaximumUnique | Create_Bak_Button.js:112-150 | two listings with the same names give the same last number |
| BackupNames.OrderIrrelevant | Create_Bak_Button.js:101-109 | the order in which files and folders are listed does not change the last number |
| BackupNames.NoMatchNoVersion | Create_Bak_Button.js:121 | with no sibling starting `name.bak`, the last number is 0 and the new backup is `name.bak` |
| BackupNames.IrrelevantSibling | Create_Bak_Button.js:121-143 | a sibling that shows no version leaves the last number unchanged |
| BackupNames.BareMeansNumbered | Create_Bak_Button.js:40-48 | once `name.bak` exists, the next backup is numbered `name.bak<last+1>` with last at least 1 |
| BackupNames.GetLastBakNum | Create_Bak_Button.js:91-152 | the scan of files and then sub-folders returns exactly the maximum version `LastBakNum` over that listing |
| BackupNames.CreateBakCommand | Create_Bak_Button.js:38-49 | the command is `Copy DUPLICATE "<item>" AS *` followed by a suffix, the one `CreateBakCommandTarget` describes |
| BackupNames.CreateBakCommandTarget | Create_Bak_Button.js:38-49 | the name the command copies to (the item's name in place of `*`) is the next backup name: the scan reads it as version last+1, and it is never `name.bak1` |
| BackupNames.NeverBak1 | Create_Bak_Button.js:40-48 | no backup is ever named `name.bak1` |
| BackupNames.NewBackupVersion | Create_Bak_Button.js:40-48 | the new backup's name shows exactly the version after the last one |
| BackupNames.CreationAdvances | Create_Bak_Button.js:27-50 | adding the new backup to the listing raises the last number by exactly one |
| BackupNames.NextNameIsFresh | Create_Bak_Button.js:27-50 | the new backup's name differs, as a string, from every name in the listing |
| BackupNames.TrailingDigitsStart | Create_Bak_Button.js:61 | finds where the final run of digits (`\d*$`) begins |
| BackupNames.ParseBackupName | Create_Bak_Button.js:61-69 | a result is a match of `^(.+)\.bak(\d*)$` whose group 1 is the original name |
| BackupNames.ParseComplete | Create_Bak_Button.js:61-69 | every match of the pattern is found by the parse (no false "not a valid .bak file") |
| BackupNames.RestoreMatchUnique | Create_Bak_Button.js:61-64 | the pattern's group 1 is unique |
| BackupNames.RestoreInvertsCreate | Create_Bak_Button.js:61-64 | restoring `name + ".bak" + digits` gives back `name` |
| BackupNames.CreatedBackupRestores | Create_Bak_Button.js:27-69 | every backup name the button creates restores to the item it was made from |
| BackupNames.RestoreBak | Create_Bak_Button.js:52-89 | error dialog iff the name does not match; nothing run iff the backup is missing; otherwise a `Delete QUIET` of the original only if it exists, then `Copy DUPLICATE <bak> AS <original>` |
| BackupNames.RestoreCommandsIff | Create_Bak_Button.js:74-88 | a command is run iff the backup exists; two (delete, then copy) iff the original also exists |
| BackupNames.BakOnClick | Create_Bak_Button.js:154-170 | the loop over the selection runs exactly the commands `ClickCommands` lists, restoring under `RESTORE` and creating otherwise |
| BackupNames.CreateOneCommandPerItem | Create_Bak_Button.js:159-170 | without RESTORE, item i of the selection gets exactly command i, its backup at the next free version |
| BackupNames.RestoreCommandBound | Create_Bak_Button.js:159-170 | with RESTORE, at most two commands per item, and none when no selected name is a backup name |
| Text.DecimalString | Create_Bak_Button.js:45-46 | the digits written for a backup number denote that number, with no leading zero |
| Text.DecimalStringInjective | Create_Bak_Button.js:45-46 | different numbers give different backup suffixes |
| Text.ToLower | Copy_File_Paths_Auto_Quoted.js:41 | lower-casing keeps the length and lower-cases each letter |
| Text.ToLowerIdempotent | Copy_Tree_Structure.js:77-88 | lower-casing the already lower-cased context line changes nothing |
| Text.Split | Combine_To_TXT_File.js:268-269 | `split` always yields at least one part |
| Text.JoinSplit | Combine_To_TXT_File.js:268-269 | joining the parts of a split gives back the string |
| Text.SplitJoin | Copy_File_Paths_Auto_Quoted.js:74-90 | splitting a join of separator-free parts gives back the parts |
| Text.LastIndexOf | Combine_To_TXT_File.js:202 | the last occurrence of a character, or none iff it does not occur |
| CopyTree.TrimStart | Copy_Tree_Structure.js:65 | the suffix of the argument left after parseInt's leading whitespace: everything removed is whitespace, and what is left does not start with whitespace |
| CopyTree.LeadingDigits | Copy_Tree_Structure.js:65 | the length of the longest run of digits at the start |
| CopyTree.ParseIntToString | Copy_Tree_Structure.js:65 | parseInt of an integer's text gives back the integer |
| CopyTree.ParseDigits | Copy_Tree_Structure.js:65 | a run of digits parses to its decimal value |
| CopyTree.ParseMinusRun | Copy_Tree_Structure.js:65 | a minus sign followed by digits parses to the negated value |
| CopyTree.ExpandDepthArg | Copy_Tree_Structure.js:63-73 | the depth is the parsed argument iff it parses to an integer of at least -1, and -1 otherwise |
| CopyTree.ExpandDepthOfInteger | Copy_Tree_Structure.js:63-73 | an integer argument n gives n when n is at least -1, and -1 otherwise |
| CopyTree.ContextLineArg | Copy_Tree_Structure.js:75-88 | the context line is one of none/folder/path, in lower case; it is the lower-cased argument iff that is valid, and "folder" otherwise |
| CopyTree.TopLine | Copy_Tree_Structure.js:99-122 | empty iff the context line is none; otherwise the folder name or full path of the source folder or its parent, plus a line break |
| CopyTree.RelativeParts | Copy_Tree_Structure.js:161 | the components after the first baseDepth, always a suffix of the path |
| CopyTree.Expand | Copy_Tree_Structure.js:134-145 | the recursive expansion appends exactly `ExpandItem` to what was pushed before |
| CopyTree.ExpandSelectedItems | Copy_Tree_Structure.js:131-152 | the expansion of the selection equals `ExpandItems` from depth 0 |
| CopyTree.NoExpansionAtLimit | Copy_Tree_Structure.js:136 | at or beyond the depth limit (EXPAND_DEPTH 0 for the selection), exactly the items themselves are listed |
| CopyTree.ItemsAreListed | Copy_Tree_Structure.js:135 | every item is itself part of the expansion |
| CopyTree.ExpandedFolderListsEntries | Copy_Tree_Structure.js:136-143 | an expanded folder contributes every one of its entries |
| CopyTree.ExpandDepthBound | Copy_Tree_Structure.js:136 | with a limit d, nothing more than d levels below a selected item is listed |
| CopyTree.ExpandDepthBoundAll | Copy_Tree_Structure.js:138-143 | the same bound for the entries of an expanded folder |
| CopyTree.IndexOfKey | Copy_Tree_Structure.js:167 | the position of a key, or the length iff absent |
| CopyTree.InsertKeys | Copy_Tree_Structure.js:164-171 | inserting a path keeps a level's keys in place and appends at most the new one |
| CopyTree.InsertFlag | Copy_Tree_Structure.js:167-169 | after insertion, a path already present keeps its folder flag; a new prefix of the inserted path gets "folder" unless it is the full path of a file |
| CopyTree.InsertUnique | Copy_Tree_Structure.js:167 | insertion never creates a second copy of a key |
| CopyTree.BuildTreeFlags | Copy_Tree_Structure.js:158-172 | the built tree has exactly the paths the items pass through, each flagged by the first item that reached it (`FirstWriter`) |
| CopyTree.ItemPathsPresent | Copy_Tree_Structure.js:158-172 | every item's relative path is in the tree |
| CopyTree.FirstWriterFound | Copy_Tree_Structure.js:158-172 | every prefix of an item's relative path has a first writer |
| CopyTree.BuildTreeUnique | Copy_Tree_Structure.js:158-172 | no level of the built tree holds a key twice |
| TreeRender.Dirs | Copy_Tree_Structure.js:186-194 | the folder keys of a level, all taken from the level |
| TreeRender.Files | Copy_Tree_Structure.js:186-194 | the file keys of a level, all taken from the level |
| TreeRender.PartitionPermutes | Copy_Tree_Structure.js:186-194 | folders and files together are exactly the level's keys, none lost or repeated |
| TreeRender.ArrangePermutes | Copy_Tree_Structure.js:196-201 | the listing order is a permutation of the level |
| TreeRender.ArrangeGrouped | Copy_Tree_Structure.js:196-201 | every folder precedes every file, or with FILES_FIRST every file precedes every folder |
| TreeRender.Partition | Copy_Tree_Structure.js:186-194 | the first loop produces exactly `Dirs` and `Files` |
| TreeRender.WriteEntry | Copy_Tree_Structure.js:204-225 | one round of the second loop appends exactly the entry's text: its line, its subtree and its gap lines |
| TreeRender.ConvertTreeToText | Copy_Tree_Structure.js:180-229 | the recursive conversion produces exactly `RenderLevel` |
| TreeRender.WriteEntries | Copy_Tree_Structure.js:203-226 | the second loop writes the entries' texts one after another, in listing order |
| TreeRender.GenerateTree | Copy_Tree_Structure.js:154-178 | building the tree and converting it gives `RenderLevel(BuildTree(items))` |
| TreeRender.CopyTreeOnClick | Copy_Tree_Structure.js:8-129 | the clipboard text is the top line followed by the tree of the expanded selection |
| TreeRender.RenderEntriesStart | Copy_Tree_Structure.js:209 | every entry line starts with a branch glyph, which is not whitespace |
| TreeRender.RenderBlankIffEmpty | Copy_Tree_Structure.js:217 | a subtree's text is blank iff the folder has no entries, so the gap line appears exactly after non-empty folders that are not last |
| TreeRender.RenderLevelLines | Copy_Tree_Structure.js:180-229 | the text of a level is whole lines, each ending in a line break |
| TreeRender.RenderEntriesLines | Copy_Tree_Structure.js:203-226 | the text of the remaining entries is whole lines |
| TreeRender.MixedLevel | Copy_Tree_Structure.js:186-201 | a level of one folder and one file lists the folder first, or the file first with FILES_FIRST |
| TreeRender.EntryLayout | Copy_Tree_Structure.js:203-226 | for any level and any entry: its line is the indent, the end branch iff it is last (or the last file under FILES_FIRST), then its key; a folder is followed by its subtree and a gap line iff it has entries and is not last; the last file under FILES_FIRST is followed by a gap line iff folders follow |
| TreeRender.FoldersFirstRendering | Copy_Tree_Structure.js:203-226 | any folder with entries followed by any file, at any indent: a middle folder branch, the subtree indented by a vertical line, a gap line, then an end file branch |
| TreeRender.FilesFirstRendering | Copy_Tree_Structure.js:203-226 | with FILES_FIRST, any file and any folder at any indent: the file as an end branch, the vertical gap line, then the folder as the end branch with its subtree indented by blanks |
| CombineSort.DateCompare | Combine_To_TXT_File.js:253 | -1, 0 or 1, zero iff the times are equal, negative iff the first is earlier |
| CombineSort.DirLoopReturns | Combine_To_TXT_File.js:272-288 | the comparator's loop always returns a value |
| CombineSort.DirCompareReturnsInLoop | Combine_To_TXT_File.js:290-291 | the fall-through `aParts.length - bParts.length` is never reached |
| CombineSort.DirLoopAntisymmetric | Combine_To_TXT_File.js:272-288 | swapping the two paths flips the sign of the loop's result |
| CombineSort.DirCompareAntisymmetric | Combine_To_TXT_File.js:267-292 | the directory comparator is antisymmetric in sign when the collation is |
| CombineSort.SameFolderByName | Combine_To_TXT_File.js:273-276 | two files in the same folder compare by their names |
| CombineSort.FileBeforeSubfolder | Combine_To_TXT_File.js:277-284 | a file in a folder sorts before everything in that folder's subfolders |
| CombineSort.OrderAntisymmetric | Combine_To_TXT_File.js:244-295 | each of the five comparators is antisymmetric in sign |
| CombineSort.DirLoopTransitive | Combine_To_TXT_File.js:272-288 | for a transitive, antisymmetric collation, the loop's order is transitive from any component on |
| CombineSort.DirCompareTransitive | Combine_To_TXT_File.js:267-292 | for a transitive, antisymmetric collation, the directory comparator is transitive |
| CombineSort.OrderTransitive | Combine_To_TXT_File.js:244-295 | for a transitive, antisymmetric collation, each of the five comparators is transitive |
| CombineSort.AdjacentSortedIsSorted | Combine_To_TXT_File.js:244-295 | for a transitive comparator, ordered neighbours mean a sorted list |
| CombineSort.AdjacentSortedSpan | Combine_To_TXT_File.js:244-295 | for a transitive comparator, ordered neighbours order every pair |
| CombineSort.ReverseIsSwapped | Combine_To_TXT_File.js:246-265 | name-reverse and date-reverse are name and date with their arguments swapped |
| CombineSort.SwappedSortsBackwards | Combine_To_TXT_File.js:256-265 | sorted by a swapped comparator iff sorted by the comparator when read backwards |
| CombineSort.ReverseOrders | Combine_To_TXT_File.js:246-265 | a list sorted name-reverse (date-reverse) is exactly a name (date) sorted list read backwards |
| CombineSort.DateOrders | Combine_To_TXT_File.js:251-265 | date order lists the newest first; date-reverse lists the oldest first |
| CombineSort.SortInPlace | Combine_To_TXT_File.js:247 | the array is rearranged (same multiset) so that every pair of neighbours is in order |
| CombineSort.SortFiles | Combine_To_TXT_File.js:244-295 | options 1 to 5 rearrange the files (same multiset) so that neighbours are in the order of that comparator, and, when the collation is transitive, every pair is; any other option leaves them alone |
| CombineText.SortTypeOption | Combine_To_TXT_File.js:82-101 | SORT_TYPE selects option k iff its lower-case form is the k-th keyword; none otherwise |
| CombineText.SortTypeRoundTrip | Combine_To_TXT_File.js:82-101 | every keyword, in any letter case, selects its own option |
| CombineText.ChooseSort | Combine_To_TXT_File.js:52-101 | without SORT_TYPE the dialog decides, and Cancel stops; with SORT_TYPE the keyword decides with the argument switches, and an invalid keyword stops |
| CombineText.FilesOfMembers | Combine_To_TXT_File.js:111-115 | a listed item is gathered iff it is not a folder |
| CombineText.CollectFiles | Combine_To_TXT_File.js:111-123 | one enumeration loop appends exactly the listing's files, in order |
| CombineText.Gathered | Combine_To_TXT_File.js:104-161 | the script stops iff it would work on selected files and none is selected |
| CombineText.GatherFiles | Combine_To_TXT_File.js:104-161 | the gathering loops produce exactly `Gathered` |
| CombineText.DotTailFrom | Combine_To_TXT_File.js:199-202 | where `/\.[^stop]*$/` starts matching, if anywhere |
| CombineText.DotTailLeftmost | Combine_To_TXT_File.js:199-202 | that position is the leftmost at which the expression matches |
| CombineText.StripLastExtension | Combine_To_TXT_File.js:202 | HIDE_EXTENSIONS cuts a name at its last '.' (unchanged without one) |
| CombineText.LastComponentStart | Combine_To_TXT_File.js:199 | the start of the last path component: position 0 or just after a backslash, with no backslash from there on |
| CombineText.StripFromFirstDotOfLastComponent | Combine_To_TXT_File.js:199 | for a relative path it cuts at the first '.' of the last component |
| CombineText.ReplaceDotTailPrefix | Combine_To_TXT_File.js:199-202 | what is removed starts with '.', and what is left is a prefix |
| CombineText.HeaderForms | Combine_To_TXT_File.js:195-203 | the header is the name or `\` plus the relative path; hiding extensions yields a prefix cut at the right '.' |
| CombineText.WriteCombined | Combine_To_TXT_File.js:192-221 | the output loop writes exactly `OutputLines` |
| CombineText.WriteFile | Combine_To_TXT_File.js:193-220 | one round writes the header alone in debug mode, else the framed header (unless EXCLUDE_HEADERS), the content and the blank line (unless EXCLUDE_HEADERS) |
| CombineText.DebugListsHeaders | Combine_To_TXT_File.js:205-206 | in debug mode the file is the list of headers, in sorted order |
| CombineText.ContentsOnly | Combine_To_TXT_File.js:208-219 | with EXCLUDE_HEADERS the file is the contents, one after another |
| CombineText.FramedContents | Combine_To_TXT_File.js:208-219 | otherwise each file is three lines: the separator line with its header, its contents, a blank line |
| CombineText.LastSeparator | Combine_To_TXT_File.js:170-175 | the last `\` or `/`, or none iff the path has none |
| CombineText.ParentAndName | Combine_To_TXT_File.js:170-175 | folder, separator and file name put together give back the path; the name holds no separator |
| CombineText.DefaultOutput | Combine_To_TXT_File.js:179-184 | without OUTPUT the file is DebugSortedList.txt or CombinedTextFile.txt, in the source folder or, with OUTPUT_UP_ONE, its parent |
| CombineText.RelativeOutput | Combine_To_TXT_File.js:173-178 | an OUTPUT naming no existing place lands at source folder + `\` + OUTPUT |
| CombineText.ExistingOutput | Combine_To_TXT_File.js:170-172 | an OUTPUT whose folder or file exists is used as it stands |
| CombineText.CombineOnClick | Combine_To_TXT_File.js:7-235 | nothing is written iff the choice is cancelled or invalid or no file is selected; otherwise the gathered files, rearranged so that neighbours are in the chosen comparator's order (every pair when the collation is transitive), are written to the chosen path, with the closing message unless NO_FINISHED_DIALOG |
| Quoting.QuoteModeArg | Copy_File_Paths_Auto_Quoted.js:39-49 | Always iff the lower-cased argument is "always", Auto iff "auto", otherwise Never (also when absent) |
| Quoting.Quote | Copy_File_Paths_Auto_Quoted.js:70 | the text between one pair of double quotes |
| Quoting.SingleItemQuoting | Copy_File_Paths_Auto_Quoted.js:64-71 | a single item is quoted iff it holds a space and NO_SINGLE_ITEM_QUOTES is off; otherwise it is copied as is |
| Quoting.LineQuoting | Copy_File_Paths_Auto_Quoted.js:83-89 | a line is quoted iff the mode is Always, or Auto and the text holds a space |
| Quoting.AppendLine | Copy_File_Paths_Auto_Quoted.js:80-89 | one round of the copy loop adds a line break from the second item on, then the item's line as the mode quotes it |
| Quoting.QuotedLines | Copy_File_Paths_Auto_Quoted.js:74-90 | one line per item, in selection order, quoted by the mode |
| Quoting.ForceIgnoredForMany | Copy_File_Names_Auto_Quoted.js:59-73 | NO_SINGLE_ITEM_QUOTES has no effect when several items are selected |
| Quoting.NeverIsPlainJoin | Copy_File_Names_Auto_Quoted.js:59-73 | in Never mode several items are copied as the newline-join of their texts |
| Quoting.OneLinePerItem | Copy_File_Names_Auto_Quoted.js:60-73 | splitting the copied text at line breaks gives back one line per item, in order, with no trailing newline |
| CopyPaths.PathText | Copy_File_Paths_Auto_Quoted.js:60-63 | a folder's path gets FOLDER_TERMINATOR appended; a file's does not |
| CopyPaths.PathTexts | Copy_File_Paths_Auto_Quoted.js:74-78 | one path text per selected item, in order |
| CopyPaths.CopyPathsOnClick | Copy_File_Paths_Auto_Quoted.js:26-93 | nothing is copied for an empty selection; otherwise the clipboard gets exactly `ClipboardText` of the path texts |
| CopyPaths.TerminatorBeforeQuoting | Copy_File_Paths_Auto_Quoted.js:76-86 | the terminator is appended before the Auto space test, so it takes part in it |
| CopyPaths.FilesGetNoTerminator | Copy_File_Paths_Auto_Quoted.js:75-89 | a file's line is its path alone, quoted by the mode |
| CopyNames.CopyNamesOnClick | Copy_File_Names_Auto_Quoted.js:22-76 | nothing is copied for an empty selection; otherwise the clipboard gets exactly `ClipboardText` of the names |

## Left out

- Host I/O is not modelled. This covers `DOpus.SetClip`, `RunCommand`, the
  dialogs, `DOpus.Output` logging, `ReadDir`, `FileSystemObject` and
  creating and writing the output file. Commands, clipboard text and output
  lines are returned as values. Listings, existence tests, file contents
  (`readAll`) and the dialog's answer are parameters.
- The time between items is not modelled. `BakOnClick` takes each item's
  listing and existence tests as they are when that item is processed.
- BackupNames.SiblingVersion counts only all-digit endings after
  `name.bak`. The script tests the ending with `isNaN` and then takes
  `parseInt`. So endings that JavaScript's number conversion also accepts
  would count there, but are ignored here: surrounding whitespace, a sign,
  a fraction or exponent, a `0x` prefix.
- BackupNames.ParseBackupName treats `.` in the pattern as any character
  except the four JavaScript line terminators. No other regular-expression
  feature is involved.
- CopyTree.ExpandDepthArg: the host passes EXPAND_DEPTH as a number (the
  template `/N`). The model parses its decimal text with `parseInt` rules
  (whitespace, sign, leading digits). `ExpandDepthOfInteger` covers the
  integer case.
- Text.ToLower lower-cases ASCII letters only. Every keyword compared after
  lower-casing is ASCII (none/folder/path, never/always/auto and the five
  sort types). Two non-ASCII characters lower-case to text with an ASCII
  letter in it: the Kelvin sign gives `k`, which no keyword contains, and
  the dotted capital I (U+0130) gives `i` followed by the combining dot
  U+0307, which is not ASCII. So no non-ASCII argument lower-cases to a
  keyword, and the comparisons come out as in the model.
- CopyTree.Insert: the path tree is a JavaScript object (`pathTree`). It is
  modelled as a list of entries in insertion order, and the inner
  navigation loop becomes the recursive `Insert` on that value.
- The object's own key quirks are not modelled:
  - integer-like keys enumerating first in some engines;
  - a component named `_isDir`;
  - components such as `constructor` that are inherited properties.
- Host path objects are approximated:
  - `Split` and `Split(n)` on component lists, as `RelativeParts`;
  - `filepart`, and `Parent()` of the source path, become the `PathText`
    parameters;
  - `FSUtil.Resolve` of `path\..` becomes the `resolvedParent` parameter.
- The text of `getRelativePath` is part of the `FileInfo` given
  (`relativePath`). The host computes it from `realpath.Split`.
- `GetParentFolderName` and `GetFileName` are modelled as the text before and
  after the last `\` or `/`. Roots, drive letters and trailing separators
  are not treated specially.
- String collation (`localeCompare`) is a parameter `cmp`, required to be
  antisymmetric in sign. The host's date comparison of `item.modify` is
  `DateCompare` on integer times.
- CombineSort.SortInPlace: `Array.prototype.sort` is the host's own
  algorithm. The model uses an insertion sort and promises only what holds
  for any comparator antisymmetric in sign: a permutation whose neighbours
  are in order. Full sortedness follows by `AdjacentSortedIsSorted` when
  the comparator is also transitive; `SortFiles` and `CombineOnClick` state
  it for the five comparators whenever the collation is transitive
  (`OrderTransitive`). Stability is not stated.
- The unused `folderTerminator` parameter of `convertTreeToText` is left
  out, and so is the unused `sourcePath` parameter of `sortFiles`.
- The only `String(...)` coercions in the copy commands are of
  `item.realpath` (Copy_File_Paths_Auto_Quoted.js:60 and 75); the model
  takes the path text as given.
- Quoting.QuoteModeArg, CopyTree.ContextLineArg and
  CopyPaths.FolderTerminatorArg model the arguments given with a value
  (`/O` templates). Given as a bare switch, the host passes boolean `true`:
  then `.toLowerCase()` throws (Copy_File_Paths_Auto_Quoted.js:41,
  Copy_File_Names_Auto_Quoted.js:37, Copy_Tree_Structure.js:77) and nothing
  is copied, and a bare FOLDER_TERMINATOR appends the text `true`
  (Copy_File_Paths_Auto_Quoted.js:52). Neither outcome is modelled.
- BackupNames.GetLastBakNum and Text.DecimalString use unbounded integers.
  JavaScript numbers are doubles, so the script agrees with them only below
  2^53. At 2^53, `lastBakNum + 1` rounds back to 2^53 and the command
  targets an existing name, which `NextNameIsFresh` rules out in the model.
  Above 2^53, `parseInt` maps distinct digit endings to the same number.
  From 10^21 on, `String(n)` writes an exponent form, not plain digits.
- BackupNames.NextNameIsFresh: freshness is exact string inequality, which
  is also how the script's prefix test (Create_Bak_Button.js:126) compares
  names. The host file system compares names without regard to case, so a
  sibling such as `report.txt.BAK` is not seen as a backup of `report.txt`
  and is not counted, yet `report.txt.bak` would name the same file. The
  model does not promise that nothing is overwritten under case-insensitive
  names.
