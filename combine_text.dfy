/** "Combine to text file": the arguments and the dialog, the gathering of the
    files, the file headers, the layout of the combined file and where it is
    written. The order of the files is in CombineSort. */
module CombineText {
  import opened Text
  import opened CombineSort

  // ---------------------------------------------------------------------------
  // Arguments and the dialog

  /** The four switches, from the arguments or from the dialog's check boxes. */
  datatype Options = Options(excludeHeaders: bool, useRelativePath: bool, hideExtensions: bool, debugMode: bool)

  /** The SORT_TYPE keyword of each sort option. */
  function SortTypeName(sortOption: nat): string
    requires 1 <= sortOption <= 5
  {
    match sortOption
    case 1 => "name"
    case 2 => "date"
    case 3 => "name-reverse"
    case 4 => "date-reverse"
    case _ => "directory"
  }

  /** The sort option SORT_TYPE names, matched without regard to case; None
      for any other value, which ends the script. */
  function SortTypeOption(sortType: string): (sortOption: Option<nat>)
    ensures sortOption.Some? ==> 1 <= sortOption.value <= 5 && ToLower(sortType) == SortTypeName(sortOption.value)
    ensures sortOption.None? ==> forall k :: 1 <= k <= 5 ==> ToLower(sortType) != SortTypeName(k)
  {
    var key := ToLower(sortType);
    if key == "name" then Some(1)
    else if key == "date" then Some(2)
    else if key == "name-reverse" then Some(3)
    else if key == "date-reverse" then Some(4)
    else if key == "directory" then Some(5)
    else None
  }

  /** Every keyword, in any case, selects its own option. */
  lemma SortTypeRoundTrip(sortOption: nat, sortType: string)
    requires 1 <= sortOption <= 5 && ToLower(sortType) == SortTypeName(sortOption)
    ensures SortTypeOption(sortType) == Some(sortOption)
  {
  }

  /** What the dialog returns: the button pressed (0 for Cancel, 1 to 5 for the
      sort options) and the state of the four check boxes. */
  datatype DialogAnswer = DialogAnswer(button: nat, options: Options)

  /** The sort option and switches in force, or None when the script stops: the
      dialog is shown only when SORT_TYPE is absent (or empty). */
  function ChooseSort(sortType: string, argOptions: Options, dialog: DialogAnswer): (choice: Option<(nat, Options)>)
    ensures sortType == "" ==> (choice.None? <==> dialog.button == 0)
    ensures sortType == "" && choice.Some? ==> choice.value == (dialog.button, dialog.options)
    ensures sortType != "" ==> (choice.None? <==> SortTypeOption(sortType).None?)
    ensures sortType != "" && choice.Some? ==> choice.value == (SortTypeOption(sortType).value, argOptions)
  {
    if sortType == "" then
      if dialog.button == 0 then None else Some((dialog.button, dialog.options))
    else
      match SortTypeOption(sortType)
      case None => None
      case Some(sortOption) => Some((sortOption, argOptions))
  }

  // ---------------------------------------------------------------------------
  // Gathering the files

  /** An item of a folder listing. */
  datatype Listed = Listed(info: FileInfo, isDir: bool)

  /** Where the files come from: the selected files, the listing of INPUT_DIR,
      or (INPUT_DIR given without a value) the listings of the selected folders. */
  datatype InputSource =
    | SelectedFiles(files: seq<FileInfo>)
    | InputDirectory(listing: seq<Listed>)
    | SelectedFolders(listings: seq<seq<Listed>>)

  /** The files of a listing, in listing order, folders skipped. */
  function FilesOf(listing: seq<Listed>): seq<FileInfo>
  {
    if listing == [] then []
    else FilesOf(listing[..|listing| - 1])
         + if listing[|listing| - 1].isDir then [] else [listing[|listing| - 1].info]
  }

  /** Exactly the listed items that are not folders are gathered. */
  lemma {:induction false} FilesOfMembers(listing: seq<Listed>, f: FileInfo)
    ensures f in FilesOf(listing) <==> Listed(f, false) in listing
  {
    if listing != [] {
      var init := listing[..|listing| - 1];
      FilesOfMembers(init, f);
      assert listing == init + [listing[|listing| - 1]];
    }
  }

  /** One enumeration loop: pushes every item that is not a folder. */
  method CollectFiles(listing: seq<Listed>, filesArray: seq<FileInfo>) returns (result: seq<FileInfo>)
    ensures result == filesArray + FilesOf(listing)
  {
    result := filesArray;
    var k := 0;
    while k < |listing|
      invariant 0 <= k <= |listing|
      invariant result == filesArray + FilesOf(listing[..k])
    {
      assert listing[..k + 1][..k] == listing[..k];
      if !listing[k].isDir {
        result := result + [listing[k].info];
      }
      k := k + 1;
    }
    assert listing[..k] == listing;
  }

  /** The files of the selected folders' listings, folder after folder. */
  function FilesOfAll(listings: seq<seq<Listed>>): seq<FileInfo>
  {
    if listings == [] then [] else FilesOfAll(listings[..|listings| - 1]) + FilesOf(listings[|listings| - 1])
  }

  /** The files to combine, or None when no file is selected (the script stops). */
  function Gathered(source: InputSource): (files: Option<seq<FileInfo>>)
    ensures files.None? <==> source.SelectedFiles? && source.files == []
  {
    match source
    case SelectedFiles(fs) => if fs == [] then None else Some(fs)
    case InputDirectory(listing) => Some(FilesOf(listing))
    case SelectedFolders(listings) => Some(FilesOfAll(listings))
  }

  /** Builds `filesArray` from the input source. */
  method GatherFiles(source: InputSource) returns (files: Option<seq<FileInfo>>)
    ensures files == Gathered(source)
  {
    match source
    case SelectedFiles(fs) =>
      if |fs| == 0 {
        return None;
      }
      files := Some(fs);
    case InputDirectory(listing) =>
      var filesArray := CollectFiles(listing, []);
      assert filesArray == FilesOf(listing);
      files := Some(filesArray);
    case SelectedFolders(listings) =>
      var filesArray: seq<FileInfo> := [];
      var k := 0;
      while k < |listings|
        invariant 0 <= k <= |listings|
        invariant filesArray == FilesOfAll(listings[..k])
      {
        assert listings[..k + 1][..k] == listings[..k] && listings[..k + 1][k] == listings[k];
        filesArray := CollectFiles(listings[k], filesArray);
        k := k + 1;
      }
      assert listings[..k] == listings;
      files := Some(filesArray);
  }

  // ---------------------------------------------------------------------------
  // Headers

  /** Where the regular expression `/\.[^stop]*$/` matches when searching from
      position p: the first '.' with no `stop` character after it. */
  function DotTailFrom(s: string, stop: char, p: nat): (r: Option<nat>)
    requires p <= |s|
    ensures r.Some? ==> p <= r.value < |s|
    decreases |s| - p
  {
    if p == |s| then None
    else if s[p] == '.' && stop !in s[p + 1..] then Some(p)
    else DotTailFrom(s, stop, p + 1)
  }

  /** A position where `/\.[^stop]*$/` can match. */
  predicate DotTailAt(s: string, stop: char, p: nat) {
    p < |s| && s[p] == '.' && stop !in s[p + 1..]
  }

  /** The search finds the leftmost position where the expression matches. */
  lemma {:induction false} DotTailLeftmost(s: string, stop: char, p: nat)
    requires p <= |s|
    ensures var r := DotTailFrom(s, stop, p);
            && (r.Some? ==> p <= r.value && DotTailAt(s, stop, r.value)
                            && forall q :: p <= q < r.value ==> !DotTailAt(s, stop, q))
            && (r.None? ==> forall q :: p <= q < |s| ==> !DotTailAt(s, stop, q))
    decreases |s| - p
  {
    if p < |s| && !DotTailAt(s, stop, p) {
      DotTailLeftmost(s, stop, p + 1);
    }
  }

  /** `s.replace(/\.[^stop]*$/, '')`: s cut at the match, or s when there is none. */
  function ReplaceDotTail(s: string, stop: char): string
  {
    match DotTailFrom(s, stop, 0)
    case Some(p) => s[..p]
    case None => s
  }

  /** With stop '.', the match starts at the last '.': the name loses its last extension. */
  lemma StripLastExtension(s: string)
    ensures ReplaceDotTail(s, '.') == match LastIndexOf(s, '.') case Some(p) => s[..p] case None => s
  {
    DotTailLeftmost(s, '.', 0);
    match LastIndexOf(s, '.')
    case Some(p) =>
      assert DotTailAt(s, '.', p);
      var q := DotTailFrom(s, '.', 0).value;
      assert forall k :: q < k < |s| ==> s[k] == s[q + 1..][k - q - 1];
      assert forall k :: p < k < |s| ==> s[k] == s[p + 1..][k - p - 1];
      assert q == p;
    case None =>
  }

  /** The position just after the last backslash (0 when there is none). */
  function LastComponentStart(s: string): (start: nat)
    ensures start <= |s| && '\\' !in s[start..]
    ensures start == 0 || s[start - 1] == '\\'
  {
    match LastIndexOf(s, '\\')
    case Some(b) => b + 1
    case None => 0
  }

  /** With stop '\', the match starts at the first '.' of the last path
      component: a relative path loses everything from there on. */
  lemma StripFromFirstDotOfLastComponent(s: string)
    ensures var start := LastComponentStart(s);
            match DotTailFrom(s, '\\', 0)
            case Some(p) => start <= p && s[p] == '.' && '.' !in s[start..p]
            case None => '.' !in s[start..]
  {
    var start := LastComponentStart(s);
    DotTailLeftmost(s, '\\', 0);
    match DotTailFrom(s, '\\', 0)
    case Some(p) =>
      MatchInLastComponent(s, p);
      forall k | start <= k < p ensures s[k] != '.' {
        if s[k] == '.' {
          DotInLastComponentMatches(s, k);
        }
      }
      assert forall k :: 0 <= k < p - start ==> s[start..p][k] == s[start + k];
    case None =>
      forall k | start <= k < |s| ensures s[k] != '.' {
        if s[k] == '.' {
          DotInLastComponentMatches(s, k);
        }
      }
      assert forall k :: 0 <= k < |s| - start ==> s[start..][k] == s[start + k];
  }

  /** Every '.' of the last path component is a place where the expression can match. */
  lemma DotInLastComponentMatches(s: string, q: nat)
    requires LastComponentStart(s) <= q < |s| && s[q] == '.'
    ensures DotTailAt(s, '\\', q)
  {
    var start := LastComponentStart(s);
    assert s[q + 1..] == s[start..][q + 1 - start..];
  }

  /** The expression cannot match before the last backslash. */
  lemma MatchInLastComponent(s: string, p: nat)
    requires DotTailAt(s, '\\', p)
    ensures LastComponentStart(s) <= p
  {
  }

  /** Whatever the expression removes begins with a '.', and what is left is a prefix. */
  lemma ReplaceDotTailPrefix(s: string, stop: char)
    ensures var r := ReplaceDotTail(s, stop);
            |r| <= |s| && r == s[..|r|] && (r == s || s[|r|] == '.')
  {
    DotTailLeftmost(s, stop, 0);
  }

  /** The header of a file: its name, or `\` and its relative path, with the
      extension removed when HIDE_EXTENSIONS is on. */
  function Header(file: FileInfo, options: Options): string
  {
    if options.useRelativePath then
      var header := "\\" + file.relativePath;
      if options.hideExtensions then ReplaceDotTail(header, '\\') else header
    else if options.hideExtensions then ReplaceDotTail(file.name, '.')
    else file.name
  }

  /** The headers the two switches produce, in terms of the name and the path. */
  lemma HeaderForms(file: FileInfo, options: Options)
    ensures !options.hideExtensions ==>
              Header(file, options) == if options.useRelativePath then "\\" + file.relativePath else file.name
    ensures options.hideExtensions && !options.useRelativePath ==>
              Header(file, options) == match LastIndexOf(file.name, '.') case Some(p) => file.name[..p] case None => file.name
    ensures options.hideExtensions && options.useRelativePath ==>
              var h := Header(file, options);
              var full := "\\" + file.relativePath;
              && LastComponentStart(full) <= |h| <= |full| && h == full[..|h|] && '.' !in full[LastComponentStart(full)..|h|]
              && (h == full || full[|h|] == '.')
  {
    StripLastExtension(file.name);
    var full := "\\" + file.relativePath;
    StripFromFirstDotOfLastComponent(full);
    ReplaceDotTailPrefix(full, '\\');
  }

  // ---------------------------------------------------------------------------
  // The combined file

  const Separator := "----------------------------------------"

  /** The lines (one per `WriteLine`) written for one file. */
  function FileLines(header: string, content: string, options: Options): seq<string>
  {
    if options.debugMode then [header]
    else
      (if options.excludeHeaders then [] else [Separator + " " + header + " " + Separator])
      + [content]
      + (if options.excludeHeaders then [] else [""])
  }

  /** The lines of the combined file; `readAll` gives the text of the file at a path. */
  function OutputLines(files: seq<FileInfo>, options: Options, readAll: string -> string): seq<string>
  {
    if files == [] then []
    else
      var last := files[|files| - 1];
      OutputLines(files[..|files| - 1], options, readAll) + FileLines(Header(last, options), readAll(last.path), options)
  }

  /** The output loop: one `WriteLine` after another, file by file. */
  method WriteCombined(files: seq<FileInfo>, options: Options, readAll: string -> string) returns (lines: seq<string>)
    ensures lines == OutputLines(files, options, readAll)
  {
    lines := [];
    var i := 0;
    while i < |files|
      invariant 0 <= i <= |files|
      invariant lines == OutputLines(files[..i], options, readAll)
    {
      OutputLinesStep(files, i, options, readAll);
      lines := WriteFile(lines, files[i], options, readAll);
      i := i + 1;
    }
    assert files[..i] == files;
  }

  /** The body of the output loop: the `WriteLine` calls for one file. */
  method WriteFile(lines: seq<string>, file: FileInfo, options: Options, readAll: string -> string)
    returns (written: seq<string>)
    ensures written == lines + FileLines(Header(file, options), readAll(file.path), options)
  {
    written := lines;
    var header := Header(file, options);
    if options.debugMode {
      written := written + [header];
    } else {
      if !options.excludeHeaders {
        written := written + [Separator + " " + header + " " + Separator];
      }
      var content := readAll(file.path);
      written := written + [content];
      if !options.excludeHeaders {
        written := written + [""];
      }
    }
  }

  /** The lines of the first i + 1 files are those of the first i, then those of file i. */
  lemma OutputLinesStep(files: seq<FileInfo>, i: nat, options: Options, readAll: string -> string)
    requires i < |files|
    ensures OutputLines(files[..i + 1], options, readAll)
            == OutputLines(files[..i], options, readAll) + FileLines(Header(files[i], options), readAll(files[i].path), options)
  {
    assert files[..i + 1][..i] == files[..i];
  }

  /** In debug mode the file is the list of headers, in sorted order. */
  lemma {:induction false} DebugListsHeaders(files: seq<FileInfo>, options: Options, readAll: string -> string)
    requires options.debugMode
    ensures var out := OutputLines(files, options, readAll);
            |out| == |files| && forall i :: 0 <= i < |files| ==> out[i] == Header(files[i], options)
  {
    if files != [] {
      DebugListsHeaders(files[..|files| - 1], options, readAll);
    }
  }

  /** Without headers the file is the contents one after another. */
  lemma {:induction false} ContentsOnly(files: seq<FileInfo>, options: Options, readAll: string -> string)
    requires !options.debugMode && options.excludeHeaders
    ensures var out := OutputLines(files, options, readAll);
            |out| == |files| && forall i :: 0 <= i < |files| ==> out[i] == readAll(files[i].path)
  {
    if files != [] {
      ContentsOnly(files[..|files| - 1], options, readAll);
    }
  }

  /** Otherwise each file takes three lines: the separator line with its header,
      its content, and a blank line. */
  lemma {:induction false} FramedContents(files: seq<FileInfo>, options: Options, readAll: string -> string)
    requires !options.debugMode && !options.excludeHeaders
    ensures var out := OutputLines(files, options, readAll);
            && |out| == 3 * |files|
            && forall i :: 0 <= i < |files| ==>
                 && out[3 * i] == Separator + " " + Header(files[i], options) + " " + Separator
                 && out[3 * i + 1] == readAll(files[i].path)
                 && out[3 * i + 2] == ""
  {
    if files != [] {
      var init, last := files[..|files| - 1], files[|files| - 1];
      FramedContents(init, options, readAll);
      assert OutputLines(files, options, readAll) == OutputLines(init, options, readAll)
             + [Separator + " " + Header(last, options) + " " + Separator, readAll(last.path), ""];
    }
  }

  // ---------------------------------------------------------------------------
  // Where the combined file goes

  /** The default file name. */
  function DefaultFileName(debugMode: bool): string
  {
    (if debugMode then "DebugSortedList" else "CombinedTextFile") + ".txt"
  }

  predicate IsSeparator(c: char) {
    c == '\\' || c == '/'
  }

  /** The position of the last path separator, if any. */
  function LastSeparator(s: string): (r: Option<nat>)
    ensures r.None? ==> forall k :: 0 <= k < |s| ==> !IsSeparator(s[k])
    ensures r.Some? ==> r.value < |s| && IsSeparator(s[r.value])
                        && forall k :: r.value < k < |s| ==> !IsSeparator(s[k])
  {
    if s == [] then None
    else if IsSeparator(s[|s| - 1]) then Some(|s| - 1)
    else LastSeparator(s[..|s| - 1])
  }

  /** `GetParentFolderName`: the text before the last separator ("" without one). */
  function ParentFolderName(s: string): string
  {
    match LastSeparator(s) case Some(p) => s[..p] case None => ""
  }

  /** `GetFileName`: the text after the last separator. */
  function FileName(s: string): string
  {
    match LastSeparator(s) case Some(p) => s[p + 1..] case None => s
  }

  /** Splitting a path into folder and file name loses nothing. */
  lemma ParentAndName(s: string)
    ensures LastSeparator(s).Some? ==> ParentFolderName(s) + [s[LastSeparator(s).value]] + FileName(s) == s
    ensures LastSeparator(s).None? ==> FileName(s) == s
    ensures forall k :: 0 <= k < |FileName(s)| ==> !IsSeparator(FileName(s)[k])
  {
    match LastSeparator(s)
    case Some(p) =>
      assert s == s[..p] + [s[p]] + s[p + 1..];
      var name := s[p + 1..];
      forall k | 0 <= k < |name| ensures !IsSeparator(name[k]) {
        assert name[k] == s[p + 1 + k];
      }
    case None =>
  }

  /** The folder and the name of the combined file. `parentFolderExists` and
      `fileExists` are the host's answers for OUTPUT's folder and for OUTPUT
      itself; `resolvedParent` is the source folder's parent. */
  function OutputTarget(output: string, outputUpOne: bool, debugMode: bool, sourcePath: string,
                        resolvedParent: string, parentFolderExists: bool, fileExists: bool): (string, string)
  {
    if output != "" then
      if parentFolderExists || fileExists then (ParentFolderName(output), FileName(output))
      else if LastSeparator(output).Some? then (sourcePath + "\\" + ParentFolderName(output), FileName(output))
      else (sourcePath, output)
    else ((if outputUpOne then resolvedParent else sourcePath), DefaultFileName(debugMode))
  }

  function OutputFilePath(target: (string, string)): string
  {
    target.0 + "\\" + target.1
  }

  /** Without OUTPUT the file is DebugSortedList.txt or CombinedTextFile.txt, in
      the source folder or its parent. */
  lemma DefaultOutput(outputUpOne: bool, debugMode: bool, sourcePath: string, resolvedParent: string,
                      parentFolderExists: bool, fileExists: bool)
    ensures var t := OutputTarget("", outputUpOne, debugMode, sourcePath, resolvedParent, parentFolderExists, fileExists);
            && t.1 == (if debugMode then "DebugSortedList.txt" else "CombinedTextFile.txt")
            && t.0 == (if outputUpOne then resolvedParent else sourcePath)
  {
  }

  /** An OUTPUT that names no existing place is taken relative to the source
      folder: with backslashes, the file lands at source folder + `\` + OUTPUT. */
  lemma RelativeOutput(output: string, outputUpOne: bool, debugMode: bool, sourcePath: string, resolvedParent: string)
    requires output != ""
    requires LastSeparator(output).None? || output[LastSeparator(output).value] == '\\'
    ensures OutputFilePath(OutputTarget(output, outputUpOne, debugMode, sourcePath, resolvedParent, false, false))
            == sourcePath + "\\" + output
  {
    ParentAndName(output);
  }

  /** An OUTPUT whose folder or file exists is used as it stands. */
  lemma ExistingOutput(output: string, outputUpOne: bool, debugMode: bool, sourcePath: string,
                       resolvedParent: string, fileExists: bool)
    requires LastSeparator(output).Some? && output[LastSeparator(output).value] == '\\'
    ensures OutputFilePath(OutputTarget(output, outputUpOne, debugMode, sourcePath, resolvedParent, true, fileExists))
            == output
  {
    ParentAndName(output);
  }

  /** The message of the closing dialog. */
  function FinishedMessage(debugMode: bool, outputFilePath: string): string
  {
    (if debugMode then "Debug list generated successfully.\nOutput file: "
     else "Text files concatenated successfully.\nOutput file: ") + outputFilePath
  }

  // ---------------------------------------------------------------------------
  // The command

  /** What the command produces: the file written and the closing message, if shown. */
  datatype Combined = Combined(path: string, lines: seq<string>, finishedMessage: Option<string>)

  /** `OnClick`: chooses the order and switches, gathers and sorts the files and
      writes them out. `cmp` is the host's string collation, `readAll` the text
      of a file; `order` is the order the files were written in. */
  method CombineOnClick(sortType: string, argOptions: Options, dialog: DialogAnswer, noFinishedDialog: bool,
                        output: string, outputUpOne: bool, source: InputSource,
                        sourcePath: string, resolvedParent: string, parentFolderExists: bool, fileExists: bool,
                        cmp: (string, string) -> int, readAll: string -> string)
    returns (result: Option<Combined>, order: seq<FileInfo>)
    requires Antisymmetric(cmp)
    ensures result.None? <==> ChooseSort(sortType, argOptions, dialog).None? || Gathered(source).None?
    ensures result.Some? ==>
              var (sortOption, options) := ChooseSort(sortType, argOptions, dialog).value;
              var target := OutputTarget(output, outputUpOne, options.debugMode, sourcePath,
                                         resolvedParent, parentFolderExists, fileExists);
              && multiset(order) == multiset(Gathered(source).value)
              && (1 <= sortOption <= 5 ==> AdjacentSorted(order, Order(sortOption, cmp)))
              && (1 <= sortOption <= 5 && Transitive(cmp) ==> SortedBy(order, Order(sortOption, cmp)))
              && (!(1 <= sortOption <= 5) ==> order == Gathered(source).value)
              && result.value.path == OutputFilePath(target)
              && result.value.lines == OutputLines(order, options, readAll)
              && result.value.finishedMessage ==
                   if noFinishedDialog then None else Some(FinishedMessage(options.debugMode, OutputFilePath(target)))
  {
    order := [];
    var choice := ChooseSort(sortType, argOptions, dialog);
    if choice.None? {
      return None, order;
    }
    var (sortOption, options) := choice.value;
    var gathered := GatherFiles(source);
    if gathered.None? {
      return None, order;
    }
    var files := gathered.value;
    var filesArray := new FileInfo[|files|](k requires 0 <= k < |files| => files[k]);
    assert filesArray[..] == files;
    SortFiles(filesArray, sortOption, cmp);
    order := filesArray[..];
    var target := OutputTarget(output, outputUpOne, options.debugMode, sourcePath,
                               resolvedParent, parentFolderExists, fileExists);
    var outputFilePath := OutputFilePath(target);
    var lines := WriteCombined(order, options, readAll);
    var message := if noFinishedDialog then None else Some(FinishedMessage(options.debugMode, outputFilePath));
    result := Some(Combined(outputFilePath, lines, message));
  }
}
