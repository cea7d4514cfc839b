/** "Copy tree structure", second half: turning the path tree into the lines of
    text that go to the clipboard, and the command that ties it together. */
module TreeRender {
  import opened Text
  import opened CopyTree

  // The appearance settings of the script.
  const MiddleFileBranch := "├───"
  const EndFileBranch := "└───"
  const MiddleFolderBranch := "├───"
  const EndFolderBranch := "└───"
  const VerticalBranch := "│"
  const FolderPrefix := ""
  const FolderSuffix := ""

  /** The entries of a level that are folders, in insertion order. */
  function Dirs(level: seq<Entry>): (dirs: seq<Entry>)
    ensures forall e :: e in dirs ==> e in level && e.isDir
  {
    if level == [] then []
    else Dirs(level[..|level| - 1]) + if level[|level| - 1].isDir then [level[|level| - 1]] else []
  }

  /** The entries of a level that are files, in insertion order. */
  function Files(level: seq<Entry>): (files: seq<Entry>)
    ensures forall e :: e in files ==> e in level && !e.isDir
  {
    if level == [] then []
    else Files(level[..|level| - 1]) + if level[|level| - 1].isDir then [] else [level[|level| - 1]]
  }

  /** The order in which a level is listed: folders then files, or the other way round. */
  function Arrange(level: seq<Entry>, filesFirst: bool): (entries: seq<Entry>)
    ensures forall e :: e in entries ==> e in level
  {
    if filesFirst then Files(level) + Dirs(level) else Dirs(level) + Files(level)
  }

  /** Listing a level neither loses nor repeats an entry. */
  lemma {:induction false} PartitionPermutes(level: seq<Entry>)
    ensures multiset(Dirs(level)) + multiset(Files(level)) == multiset(level)
  {
    if level != [] {
      var init, last := level[..|level| - 1], level[|level| - 1];
      PartitionPermutes(init);
      PartitionStep(level);
      assert multiset(level) == multiset(init) + multiset{last} by {
        assert level == init + [last];
      }
    }
  }

  /** The last entry of a level goes to exactly one of the two lists. */
  lemma PartitionStep(level: seq<Entry>)
    requires level != []
    ensures var init, last := level[..|level| - 1], level[|level| - 1];
            multiset(Dirs(level)) + multiset(Files(level))
            == multiset(Dirs(init)) + multiset(Files(init)) + multiset{last}
  {
    var init, last := level[..|level| - 1], level[|level| - 1];
    if last.isDir {
      assert Dirs(level) == Dirs(init) + [last] && Files(level) == Files(init);
    } else {
      assert Dirs(level) == Dirs(init) && Files(level) == Files(init) + [last];
    }
  }

  lemma ArrangePermutes(level: seq<Entry>, filesFirst: bool)
    ensures multiset(Arrange(level, filesFirst)) == multiset(level)
    ensures |Arrange(level, filesFirst)| == |level|
  {
    PartitionPermutes(level);
    assert |multiset(Arrange(level, filesFirst))| == |multiset(level)|;
  }

  /** The listing is grouped: every folder is listed before every file, or, with
      FILES_FIRST, every file before every folder. */
  lemma ArrangeGrouped(level: seq<Entry>, filesFirst: bool, i: nat, j: nat)
    requires i < j < |Arrange(level, filesFirst)|
    ensures var entries := Arrange(level, filesFirst);
            if filesFirst then entries[j].isDir || !entries[i].isDir
            else !entries[j].isDir || entries[i].isDir
  {
    var entries := Arrange(level, filesFirst);
    var first := if filesFirst then Files(level) else Dirs(level);
    var second := if filesFirst then Dirs(level) else Files(level);
    assert entries == first + second;
    if i < |first| {
      assert entries[i] in first;
    } else {
      assert entries[i] in second && entries[j] in second;
    }
    if j >= |first| {
      assert entries[j] in second;
    } else {
      assert entries[j] in first && entries[i] in first;
    }
  }

  /** The branch drawn before an entry's name. */
  function Branch(isDir: bool, isLastEntry: bool, isLastFile: bool): string
  {
    if isDir then (if isLastEntry then EndFolderBranch else MiddleFolderBranch)
    else (if isLastEntry || isLastFile then EndFileBranch else MiddleFileBranch)
  }

  function Label(e: Entry): string
  {
    if e.isDir then FolderPrefix + e.key + FolderSuffix else e.key
  }

  /** The indentation the entries below an entry get. */
  function ChildIndent(indent: string, isLastEntry: bool): string
  {
    indent + if isLastEntry then "    " else VerticalBranch + "   "
  }

  /** The text `convertTreeToText` produces for a level. */
  function RenderLevel(level: seq<Entry>, indent: string, filesFirst: bool): string
    decreases level, 1
  {
    RenderEntries(level, Arrange(level, filesFirst), |Files(level)|, |Dirs(level)|, 0, indent, filesFirst)
  }

  /** The text for entries[i..], the listing of `level` with its file and folder counts. */
  function RenderEntries(level: seq<Entry>, entries: seq<Entry>, nFiles: nat, nDirs: nat, i: nat,
                         indent: string, filesFirst: bool): string
    requires i <= |entries|
    requires forall e :: e in entries ==> e in level
    decreases level, 0, |entries| - i, 1
  {
    if i == |entries| then ""
    else EntryText(level, entries, nFiles, nDirs, i, indent, filesFirst)
         + RenderEntries(level, entries, nFiles, nDirs, i + 1, indent, filesFirst)
  }

  /** The text for entries[i]: its line, for a folder its subtree and the gap
      after a folder that has entries, and the gap after the last file. */
  function EntryText(level: seq<Entry>, entries: seq<Entry>, nFiles: nat, nDirs: nat, i: nat,
                     indent: string, filesFirst: bool): (t: string)
    requires i < |entries|
    requires forall e :: e in entries ==> e in level
    ensures |t| > |indent| && (t[|indent|] == '├' || t[|indent|] == '└')
    decreases level, 0, |entries| - i, 0
  {
    var e := entries[i];
    assert e in level;
    var isLastEntry := i == |entries| - 1;
    var isLastFile := i == nFiles - 1 && filesFirst && i < nFiles;
    var line := indent + Branch(e.isDir, isLastEntry, isLastFile) + Label(e) + "\n";
    var subText := if e.isDir then RenderLevel(e.sub, ChildIndent(indent, isLastEntry), filesFirst) else "";
    var folderGap := if e.isDir && !isLastEntry && !Blank(subText) then indent + VerticalBranch + "\n" else "";
    var fileGap := if isLastFile && filesFirst && nDirs > 0 then indent + VerticalBranch + "\n" else "";
    line + subText + folderGap + fileGap
  }

  /** The first loop of `convertTreeToText`: the keys of a level split into
      folders and files, each in the order the level lists them. */
  method Partition(tree: seq<Entry>) returns (dirs: seq<Entry>, files: seq<Entry>)
    ensures dirs == Dirs(tree) && files == Files(tree)
  {
    dirs, files := [], [];
    var i := 0;
    while i < |tree|
      invariant 0 <= i <= |tree|
      invariant dirs == Dirs(tree[..i]) && files == Files(tree[..i])
    {
      assert tree[..i + 1][..i] == tree[..i];
      if tree[i].isDir {
        dirs := dirs + [tree[i]];
      } else {
        files := files + [tree[i]];
      }
      i := i + 1;
    }
    assert tree[..i] == tree;
  }

  /** `convertTreeToText`: sorts the keys of a level into folders and files, then
      writes one line per entry, each folder followed by its own subtree. */
  method ConvertTreeToText(tree: seq<Entry>, indent: string, filesFirst: bool) returns (treeText: string)
    ensures treeText == RenderLevel(tree, indent, filesFirst)
    decreases tree, 2
  {
    var dirs, files := Partition(tree);
    var entries := if filesFirst then files + dirs else dirs + files;
    assert entries == Arrange(tree, filesFirst);
    treeText := WriteEntries(tree, entries, |files|, |dirs|, indent, filesFirst);
  }

  /** The second loop of `convertTreeToText`: the text of every entry, in listing order. */
  method WriteEntries(tree: seq<Entry>, entries: seq<Entry>, nFiles: nat, nDirs: nat,
                      indent: string, filesFirst: bool) returns (treeText: string)
    requires forall e :: e in entries ==> e in tree
    ensures treeText == RenderEntries(tree, entries, nFiles, nDirs, 0, indent, filesFirst)
    decreases tree, 1
  {
    treeText := "";
    var i := 0;
    while i < |entries|
      invariant 0 <= i <= |entries|
      invariant treeText + RenderEntries(tree, entries, nFiles, nDirs, i, indent, filesFirst)
                == RenderEntries(tree, entries, nFiles, nDirs, 0, indent, filesFirst)
    {
      var chunk := WriteEntry(tree, entries, nFiles, nDirs, i, indent, filesFirst);
      RenderStep(tree, entries, nFiles, nDirs, i, indent, filesFirst, treeText, chunk);
      treeText := treeText + chunk;
      i := i + 1;
    }
  }

  /** The body of the second loop of `convertTreeToText`: what it appends for entries[i]. */
  method WriteEntry(tree: seq<Entry>, entries: seq<Entry>, nFiles: nat, nDirs: nat, i: nat,
                    indent: string, filesFirst: bool) returns (chunk: string)
    requires i < |entries|
    requires forall e :: e in entries ==> e in tree
    ensures chunk == EntryText(tree, entries, nFiles, nDirs, i, indent, filesFirst)
    decreases tree, 0
  {
    var e := entries[i];
    var isLastEntry := i == |entries| - 1;
    var isLastFile := i == nFiles - 1 && filesFirst && i < nFiles;
    var line := indent + Branch(e.isDir, isLastEntry, isLastFile) + Label(e) + "\n";
    var subTreeText, folderGap, fileGap := "", "", "";
    if e.isDir {
      assert e in tree;
      subTreeText := ConvertTreeToText(e.sub, ChildIndent(indent, isLastEntry), filesFirst);
      if !isLastEntry && !Blank(subTreeText) {
        folderGap := indent + VerticalBranch + "\n";
      }
    }
    if isLastFile && filesFirst && nDirs > 0 {
      fileGap := indent + VerticalBranch + "\n";
    }
    chunk := line + subTreeText + folderGap + fileGap;
  }

  /** One round of the second loop: appending entries[i]'s text leaves the rest of the listing to write. */
  lemma RenderStep(level: seq<Entry>, entries: seq<Entry>, nFiles: nat, nDirs: nat, i: nat,
                   indent: string, filesFirst: bool, written: string, chunk: string)
    requires i < |entries|
    requires forall e :: e in entries ==> e in level
    requires chunk == EntryText(level, entries, nFiles, nDirs, i, indent, filesFirst)
    ensures written + RenderEntries(level, entries, nFiles, nDirs, i, indent, filesFirst)
            == (written + chunk) + RenderEntries(level, entries, nFiles, nDirs, i + 1, indent, filesFirst)
  {
  }

  /** `generateTree`: inserts every item's relative path into the tree, then
      renders the tree from the top level with no indentation. */
  method GenerateTree(items: seq<FsItem>, baseDepth: int, filesFirst: bool) returns (treeText: string)
    ensures treeText == RenderLevel(BuildTree(items, baseDepth), "", filesFirst)
  {
    var pathTree: seq<Entry> := [];
    var i := 0;
    while i < |items|
      invariant 0 <= i <= |items|
      invariant pathTree == BuildTree(items[..i], baseDepth)
    {
      assert items[..i + 1][..i] == items[..i];
      pathTree := Insert(pathTree, RelativeParts(items[i].path, baseDepth), items[i].isDir);
      i := i + 1;
    }
    assert items[..i] == items;
    treeText := ConvertTreeToText(pathTree, "", filesFirst);
  }

  /** The text placed on the clipboard for the arguments, the source folder and the selection. */
  function TreeOutput(upOne: bool, filesFirst: bool, gotDepth: bool, depthArg: string,
                      gotContext: bool, contextArg: string, tab: PathText, parent: PathText,
                      sourcePathDepth: nat, selected: seq<FsItem>): string
  {
    var expandDepth := ExpandDepthArg(gotDepth, depthArg);
    var contextLine := ContextLineArg(gotContext, contextArg);
    TopLine(contextLine, upOne, tab, parent)
      + RenderLevel(BuildTree(ExpandItems(selected, 0, expandDepth), InitialDepth(sourcePathDepth, upOne)), "", filesFirst)
  }

  /** `OnClick`: validates the arguments, expands the selection and returns the
      text the script places on the clipboard. */
  method CopyTreeOnClick(upOne: bool, filesFirst: bool, gotDepth: bool, depthArg: string,
                         gotContext: bool, contextArg: string, tab: PathText, parent: PathText,
                         sourcePathDepth: nat, selected: seq<FsItem>) returns (clip: string)
    ensures clip == TreeOutput(upOne, filesFirst, gotDepth, depthArg, gotContext, contextArg,
                               tab, parent, sourcePathDepth, selected)
  {
    var expandDepth := ExpandDepthArg(gotDepth, depthArg);
    var contextLine := ContextLineArg(gotContext, contextArg);
    var initialDepth := InitialDepth(sourcePathDepth, upOne);
    var expandedItems := ExpandSelectedItems(selected, expandDepth);
    var topLine := TopLine(contextLine, upOne, tab, parent);
    var treeText := GenerateTree(expandedItems, initialDepth, filesFirst);
    clip := topLine + treeText;
  }

  // ---------------------------------------------------------------------------
  // Properties of the rendering

  /** The entry lines start with a branch glyph, which is not whitespace. */
  lemma RenderEntriesStart(level: seq<Entry>, entries: seq<Entry>, nFiles: nat, nDirs: nat, i: nat,
                           indent: string, filesFirst: bool)
    requires i < |entries| && forall e :: e in entries ==> e in level
    ensures var s := RenderEntries(level, entries, nFiles, nDirs, i, indent, filesFirst);
            |s| > |indent| && !IsJsWhitespace(s[|indent|])
  {
    var t := EntryText(level, entries, nFiles, nDirs, i, indent, filesFirst);
    var s := RenderEntries(level, entries, nFiles, nDirs, i, indent, filesFirst);
    assert s[|indent|] == t[|indent|];
  }

  /** A subtree is blank exactly when the folder is empty, so the gap after a
      folder is written exactly for folders that have entries. */
  lemma RenderBlankIffEmpty(level: seq<Entry>, indent: string, filesFirst: bool)
    ensures Blank(RenderLevel(level, indent, filesFirst)) <==> level == []
  {
    ArrangePermutes(level, filesFirst);
    if level != [] {
      RenderEntriesStart(level, Arrange(level, filesFirst), |Files(level)|, |Dirs(level)|, 0, indent, filesFirst);
    } else {
      assert Arrange(level, filesFirst) == [];
    }
  }

  /** The layout of any entry of any level: its line is the indent, the end
      branch iff it is the last entry (or, with FILES_FIRST, the last file),
      else the middle branch, then its key. A folder's line is followed by its
      subtree and, iff the folder has entries and is not last, a gap line; the
      last file under FILES_FIRST is followed by a gap line iff folders follow. */
  lemma EntryLayout(level: seq<Entry>, indent: string, filesFirst: bool, k: nat)
    requires k < |Arrange(level, filesFirst)|
    ensures var entries := Arrange(level, filesFirst);
            var e := entries[k];
            var isLast := k == |entries| - 1;
            var isLastFile := filesFirst && k == |Files(level)| - 1;
            var line := indent + (if isLast || isLastFile then "└───" else "├───") + e.key + "\n";
            var t := EntryText(level, entries, |Files(level)|, |Dirs(level)|, k, indent, filesFirst);
            && |t| >= |line| && t[..|line|] == line
            && (e.isDir ==> t[|line|..] == RenderLevel(e.sub, ChildIndent(indent, isLast), filesFirst)
                                           + (if !isLast && e.sub != [] then indent + VerticalBranch + "\n" else ""))
            && (!e.isDir ==> t[|line|..] == (if isLastFile && |Dirs(level)| > 0 then indent + VerticalBranch + "\n" else ""))
  {
    var entries := Arrange(level, filesFirst);
    var e := entries[k];
    var isLast := k == |entries| - 1;
    ArrangeFilesFirst(level, filesFirst, k);
    EntryTextParts(level, entries, |Files(level)|, |Dirs(level)|, k, indent, filesFirst);
    if e.isDir {
      RenderBlankIffEmpty(e.sub, ChildIndent(indent, isLast), filesFirst);
    }
  }

  /** With FILES_FIRST, the listing begins with the level's files. */
  lemma ArrangeFilesFirst(level: seq<Entry>, filesFirst: bool, k: nat)
    requires k < |Arrange(level, filesFirst)|
    ensures filesFirst && k < |Files(level)| ==> !Arrange(level, filesFirst)[k].isDir
  {
    if filesFirst && k < |Files(level)| {
      assert Arrange(level, filesFirst)[k] == Files(level)[k];
    }
  }

  /** EntryText as its line followed by the rest, for a folder and for a file. */
  lemma EntryTextParts(level: seq<Entry>, entries: seq<Entry>, nFiles: nat, nDirs: nat, i: nat,
                       indent: string, filesFirst: bool)
    requires i < |entries|
    requires forall e :: e in entries ==> e in level
    requires i == nFiles - 1 && filesFirst ==> !entries[i].isDir
    ensures var e := entries[i];
            var isLast := i == |entries| - 1;
            var isLastFile := filesFirst && i == nFiles - 1;
            var line := indent + (if isLast || isLastFile then "└───" else "├───") + e.key + "\n";
            var t := EntryText(level, entries, nFiles, nDirs, i, indent, filesFirst);
            && |t| >= |line| && t[..|line|] == line
            && (e.isDir ==> var subText := RenderLevel(e.sub, ChildIndent(indent, isLast), filesFirst);
                            t[|line|..] == subText + (if !isLast && !Blank(subText) then indent + VerticalBranch + "\n" else ""))
            && (!e.isDir ==> t[|line|..] == (if isLastFile && nDirs > 0 then indent + VerticalBranch + "\n" else ""))
  {
    var e := entries[i];
    var isLast := i == |entries| - 1;
    var isLastFile := filesFirst && i == nFiles - 1;
    var line := indent + (if isLast || isLastFile then "└───" else "├───") + e.key + "\n";
    assert line == indent + Branch(e.isDir, isLast, i == nFiles - 1 && filesFirst && i < nFiles) + Label(e) + "\n";
    EntryTextUnfold(level, entries, nFiles, nDirs, i, indent, filesFirst);
    var t := EntryText(level, entries, nFiles, nDirs, i, indent, filesFirst);
    var subText := if e.isDir then RenderLevel(e.sub, ChildIndent(indent, isLast), filesFirst) else "";
    var folderGap := if e.isDir && !isLast && !Blank(subText) then indent + VerticalBranch + "\n" else "";
    var fileGap := if isLastFile && nDirs > 0 then indent + VerticalBranch + "\n" else "";
    assert t == line + (subText + folderGap + fileGap);
    assert t[..|line|] == line && t[|line|..] == subText + folderGap + fileGap;
    if e.isDir {
      assert fileGap == [];
      assert subText + folderGap + fileGap == subText + folderGap;
    } else {
      assert subText + folderGap + fileGap == fileGap;
    }
  }

  /** EntryText as its line followed by the rest. */
  lemma EntryTextUnfold(level: seq<Entry>, entries: seq<Entry>, nFiles: nat, nDirs: nat, i: nat,
                        indent: string, filesFirst: bool)
    requires i < |entries|
    requires forall e :: e in entries ==> e in level
    ensures var e := entries[i];
            var isLast := i == |entries| - 1;
            var isLastFile := i == nFiles - 1 && filesFirst && i < nFiles;
            var subText := if e.isDir then RenderLevel(e.sub, ChildIndent(indent, isLast), filesFirst) else "";
            EntryText(level, entries, nFiles, nDirs, i, indent, filesFirst)
            == (indent + Branch(e.isDir, isLast, isLastFile) + Label(e) + "\n")
               + (subText
                  + (if e.isDir && !isLast && !Blank(subText) then indent + VerticalBranch + "\n" else "")
                  + (if isLastFile && filesFirst && nDirs > 0 then indent + VerticalBranch + "\n" else ""))
  {
  }


  /** Empty, or ending with a line break. */
  predicate WholeLines(s: string) {
    s == [] || s[|s| - 1] == '\n'
  }

  lemma ConcatWholeLines(a: string, b: string)
    requires WholeLines(a) && WholeLines(b)
    ensures WholeLines(a + b)
  {
  }

  /** The text of a level is a run of whole lines, so the subtree text of a
      folder always ends its last line before the next line starts. */
  lemma {:induction false} RenderLevelLines(level: seq<Entry>, indent: string, filesFirst: bool)
    ensures WholeLines(RenderLevel(level, indent, filesFirst))
    decreases level, 1
  {
    RenderEntriesLines(level, Arrange(level, filesFirst), |Files(level)|, |Dirs(level)|, 0, indent, filesFirst);
  }

  lemma {:induction false} RenderEntriesLines(level: seq<Entry>, entries: seq<Entry>, nFiles: nat, nDirs: nat,
                                              i: nat, indent: string, filesFirst: bool)
    requires i <= |entries| && forall e :: e in entries ==> e in level
    ensures WholeLines(RenderEntries(level, entries, nFiles, nDirs, i, indent, filesFirst))
    decreases level, 0, |entries| - i, 1
  {
    if i < |entries| {
      EntryTextLines(level, entries, nFiles, nDirs, i, indent, filesFirst);
      RenderEntriesLines(level, entries, nFiles, nDirs, i + 1, indent, filesFirst);
      ConcatWholeLines(EntryText(level, entries, nFiles, nDirs, i, indent, filesFirst),
                       RenderEntries(level, entries, nFiles, nDirs, i + 1, indent, filesFirst));
    }
  }

  /** The text of one entry is whole lines: its own line, its subtree and the gaps. */
  lemma {:induction false} EntryTextLines(level: seq<Entry>, entries: seq<Entry>, nFiles: nat, nDirs: nat,
                                          i: nat, indent: string, filesFirst: bool)
    requires i < |entries| && forall e :: e in entries ==> e in level
    ensures WholeLines(EntryText(level, entries, nFiles, nDirs, i, indent, filesFirst))
    decreases level, 0, |entries| - i, 0
  {
    var e := entries[i];
    assert e in level;
    var isLastEntry := i == |entries| - 1;
    var isLastFile := i == nFiles - 1 && filesFirst && i < nFiles;
    var line := indent + Branch(e.isDir, isLastEntry, isLastFile) + Label(e) + "\n";
    var subText := if e.isDir then RenderLevel(e.sub, ChildIndent(indent, isLastEntry), filesFirst) else "";
    var folderGap := if e.isDir && !isLastEntry && !Blank(subText) then indent + VerticalBranch + "\n" else "";
    var fileGap := if isLastFile && filesFirst && nDirs > 0 then indent + VerticalBranch + "\n" else "";
    if e.isDir {
      RenderLevelLines(e.sub, ChildIndent(indent, isLastEntry), filesFirst);
    }
    ConcatWholeLines(line, subText);
    ConcatWholeLines(line + subText, folderGap);
    ConcatWholeLines(line + subText + folderGap, fileGap);
  }

  /** Appending an entry to a level appends it to the folders or to the files. */
  lemma PartitionAppend(level: seq<Entry>, e: Entry)
    ensures Dirs(level + [e]) == Dirs(level) + (if e.isDir then [e] else [])
    ensures Files(level + [e]) == Files(level) + (if e.isDir then [] else [e])
  {
    assert (level + [e])[..|level|] == level;
  }

  /** A folder and a file in one level, in the two orders `convertTreeToText` lists them. */
  lemma MixedLevel(folder: Entry, file: Entry, filesFirst: bool)
    requires folder.isDir && !file.isDir
    ensures Dirs([folder, file]) == [folder] && Files([folder, file]) == [file]
    ensures Arrange([folder, file], filesFirst) == if filesFirst then [file, folder] else [folder, file]
  {
    PartitionAppend([], folder);
    PartitionAppend([folder], file);
    assert [folder] + [file] == [folder, file];
  }

  /** Folders first: a folder with entries and a file are drawn as a middle
      folder branch, the folder's subtree below a vertical line, a gap line,
      and an end branch for the file. */
  lemma FoldersFirstRendering(folder: Entry, file: Entry, indent: string)
    requires folder.isDir && !file.isDir && folder.sub != []
    ensures RenderLevel([folder, file], indent, false)
            == (indent + MiddleFolderBranch + folder.key + "\n")
               + RenderLevel(folder.sub, indent + (VerticalBranch + "   "), false)
               + (indent + VerticalBranch + "\n")
               + (indent + EndFileBranch + file.key + "\n")
  {
    MixedLevel(folder, file, false);
    FoldersFirstEntries(folder, file, indent);
  }

  lemma FoldersFirstEntries(folder: Entry, file: Entry, indent: string)
    requires folder.isDir && !file.isDir && folder.sub != []
    ensures EntryText([folder, file], [folder, file], 1, 1, 0, indent, false)
            == (indent + MiddleFolderBranch + folder.key + "\n")
               + RenderLevel(folder.sub, indent + (VerticalBranch + "   "), false)
               + (indent + VerticalBranch + "\n")
    ensures RenderEntries([folder, file], [folder, file], 1, 1, 1, indent, false)
            == indent + EndFileBranch + file.key + "\n"
  {
    var level := [folder, file];
    RenderBlankIffEmpty(folder.sub, indent + (VerticalBranch + "   "), false);
    assert Label(folder) == folder.key;
    assert ChildIndent(indent, false) == indent + (VerticalBranch + "   ");
    assert RenderEntries(level, level, 1, 1, 2, indent, false) == "";
  }

  /** Files first: the last file is drawn with an end branch even though the
      folder follows, then a vertical gap line, then the folder as the last
      entry, its subtree indented by blanks. */
  lemma FilesFirstRendering(folder: Entry, file: Entry, indent: string)
    requires folder.isDir && !file.isDir
    ensures RenderLevel([folder, file], indent, true)
            == (indent + EndFileBranch + file.key + "\n")
               + (indent + VerticalBranch + "\n")
               + ((indent + EndFolderBranch + folder.key + "\n")
                  + RenderLevel(folder.sub, indent + "    ", true))
  {
    MixedLevel(folder, file, true);
    FilesFirstEntries(folder, file, indent);
  }

  lemma FilesFirstEntries(folder: Entry, file: Entry, indent: string)
    requires folder.isDir && !file.isDir
    ensures EntryText([folder, file], [file, folder], 1, 1, 0, indent, true)
            == (indent + EndFileBranch + file.key + "\n") + (indent + VerticalBranch + "\n")
    ensures RenderEntries([folder, file], [file, folder], 1, 1, 1, indent, true)
            == (indent + EndFolderBranch + folder.key + "\n") + RenderLevel(folder.sub, indent + "    ", true)
  {
    var level, entries := [folder, file], [file, folder];
    assert Label(folder) == folder.key;
    assert ChildIndent(indent, true) == indent + "    ";
    assert RenderEntries(level, entries, 1, 1, 2, indent, true) == "";
  }
}
