/** "Copy file names, auto quoted": the names of the selected items. */
module CopyNames {
  import opened Text
  import opened Quoting

  /** The text `OnClick` puts on the clipboard, or None when nothing is selected. */
  function CopiedNames(names: seq<string>, gotMode: bool, modeArg: string, noSingleItemQuotes: bool): Option<string>
  {
    ClipboardText(names, QuoteModeArg(gotMode, modeArg), noSingleItemQuotes)
  }

  /** `OnClick`: builds the clipboard text for the names of the selected items. */
  method CopyNamesOnClick(names: seq<string>, gotMode: bool, modeArg: string, noSingleItemQuotes: bool)
    returns (clip: Option<string>)
    ensures clip == CopiedNames(names, gotMode, modeArg, noSingleItemQuotes)
  {
    if |names| == 0 {
      return None;
    }
    var forceNoSingleItemQuotes := noSingleItemQuotes;
    var multiLineQuoteMode := QuoteModeArg(gotMode, modeArg);

    var clipboardText := "";
    if |names| == 1 {
      if !HasSpace(names[0]) || forceNoSingleItemQuotes {
        clipboardText := names[0];
      } else {
        clipboardText := "\"" + names[0] + "\"";
      }
    } else {
      var i := 0;
      while i < |names|
        invariant 0 <= i <= |names|
        invariant clipboardText == Join(QuotedLines(names[..i], multiLineQuoteMode), "\n")
      {
        var fileName := names[i];
        ghost var before := clipboardText;
        clipboardText := AppendLine(clipboardText, i, multiLineQuoteMode, fileName);
        JoinStep(names, multiLineQuoteMode, i, before, clipboardText);
        i := i + 1;
      }
      assert names[..i] == names;
    }
    clip := Some(clipboardText);
  }
}
