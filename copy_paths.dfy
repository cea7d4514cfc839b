/** "Copy file paths, auto quoted": the full paths of the selected items, a
    folder's path with FOLDER_TERMINATOR appended. */
module CopyPaths {
  import opened Text
  import opened Quoting

  /** A selected item: its full path and whether it is a folder. */
  datatype Selected = Selected(realpath: string, isDir: bool)

  /** FOLDER_TERMINATOR: the text appended to folder paths ("" when absent). */
  function FolderTerminatorArg(gotArg: bool, arg: string): string
  {
    if gotArg then arg else ""
  }

  /** The path copied for an item: the terminator is added to folders only. */
  function PathText(item: Selected, terminator: string): (text: string)
    ensures item.isDir ==> text == item.realpath + terminator
    ensures !item.isDir ==> text == item.realpath
  {
    if item.isDir then item.realpath + terminator else item.realpath
  }

  /** The paths copied for the selection, in selection order. */
  function PathTexts(items: seq<Selected>, terminator: string): (texts: seq<string>)
    ensures |texts| == |items| && forall i :: 0 <= i < |items| ==> texts[i] == PathText(items[i], terminator)
  {
    seq(|items|, i requires 0 <= i < |items| => PathText(items[i], terminator))
  }

  /** The text `OnClick` puts on the clipboard, or None when nothing is selected. */
  function CopiedPaths(items: seq<Selected>, gotMode: bool, modeArg: string, noSingleItemQuotes: bool,
                       gotTerminator: bool, terminatorArg: string): Option<string>
  {
    ClipboardText(PathTexts(items, FolderTerminatorArg(gotTerminator, terminatorArg)),
                  QuoteModeArg(gotMode, modeArg), noSingleItemQuotes)
  }

  /** `OnClick`: builds the clipboard text for the selected items. */
  method CopyPathsOnClick(items: seq<Selected>, gotMode: bool, modeArg: string, noSingleItemQuotes: bool,
                          gotTerminator: bool, terminatorArg: string)
    returns (clip: Option<string>)
    ensures clip == CopiedPaths(items, gotMode, modeArg, noSingleItemQuotes, gotTerminator, terminatorArg)
  {
    if |items| == 0 {
      return None;
    }
    var forceNoSingleItemQuotes := noSingleItemQuotes;
    var multiLineQuoteMode := QuoteModeArg(gotMode, modeArg);
    var includeTrailingTerminator := FolderTerminatorArg(gotTerminator, terminatorArg);

    var clipboardText := "";
    if |items| == 1 {
      var filePath := items[0].realpath;
      if items[0].isDir {
        filePath := filePath + includeTrailingTerminator;
      }
      if !HasSpace(filePath) || forceNoSingleItemQuotes {
        clipboardText := filePath;
      } else {
        clipboardText := "\"" + filePath + "\"";
      }
    } else {
      ghost var texts := PathTexts(items, includeTrailingTerminator);
      var i := 0;
      while i < |items|
        invariant 0 <= i <= |items|
        invariant clipboardText == Join(QuotedLines(texts[..i], multiLineQuoteMode), "\n")
      {
        var filePath := items[i].realpath;
        if items[i].isDir {
          filePath := filePath + includeTrailingTerminator;
        }
        assert filePath == texts[i];
        ghost var before := clipboardText;
        clipboardText := AppendLine(clipboardText, i, multiLineQuoteMode, filePath);
        JoinStep(texts, multiLineQuoteMode, i, before, clipboardText);
        i := i + 1;
      }
      assert texts[..i] == texts;
    }
    clip := Some(clipboardText);
  }

  /** A folder's terminator is part of what the quoting rules look at: with Auto
      a folder is quoted when its path or its terminator holds a space. */
  lemma TerminatorBeforeQuoting(items: seq<Selected>, terminator: string, i: nat)
    requires i < |items| && items[i].isDir
    ensures QuotedLines(PathTexts(items, terminator), Auto)[i] ==
              if HasSpace(items[i].realpath + terminator) then Quote(items[i].realpath + terminator)
              else items[i].realpath + terminator
  {
  }

  /** A file's path is copied without the terminator. */
  lemma FilesGetNoTerminator(items: seq<Selected>, terminator: string, mode: QuoteMode, i: nat)
    requires i < |items| && !items[i].isDir
    ensures QuotedLines(PathTexts(items, terminator), mode)[i] == LineText(mode, items[i].realpath)
  {
  }
}
