/** What the two "auto quoted" copy commands share: the quote-mode argument,
    the quoting rules and the newline-joined clipboard text. */
module Quoting {
  import opened Text

  /** MULTILINE_QUOTE_MODE: how the lines are quoted when several items are selected. */
  datatype QuoteMode = Never | Always | Auto

  /** The mode the argument selects, lower-cased; an absent or unknown value means Never. */
  function QuoteModeArg(gotArg: bool, arg: string): (mode: QuoteMode)
    ensures mode == Always <==> gotArg && ToLower(arg) == "always"
    ensures mode == Auto <==> gotArg && ToLower(arg) == "auto"
    ensures mode == Never <==> !gotArg || (ToLower(arg) != "always" && ToLower(arg) != "auto")
  {
    if !gotArg then Never
    else
      var key := ToLower(arg);
      if key == "never" then Never
      else if key == "always" then Always
      else if key == "auto" then Auto
      else Never
  }

  predicate HasSpace(s: string) {
    ' ' in s
  }

  function Quote(s: string): (q: string)
    ensures |q| == |s| + 2 && q[0] == '"' && q[|q| - 1] == '"' && q[1..|q| - 1] == s
  {
    "\"" + s + "\""
  }

  /** The text for a single selected item: quoted exactly when it holds a space
      and NO_SINGLE_ITEM_QUOTES is off. */
  function SingleItemText(text: string, forceNoSingleItemQuotes: bool): string
  {
    if !HasSpace(text) || forceNoSingleItemQuotes then text else Quote(text)
  }

  lemma SingleItemQuoting(text: string, forceNoSingleItemQuotes: bool)
    ensures SingleItemText(text, forceNoSingleItemQuotes) == Quote(text) <==> HasSpace(text) && !forceNoSingleItemQuotes
    ensures SingleItemText(text, forceNoSingleItemQuotes) != Quote(text) ==> SingleItemText(text, forceNoSingleItemQuotes) == text
  {
    if HasSpace(text) && !forceNoSingleItemQuotes {
    } else {
      assert |Quote(text)| != |text|;
    }
  }

  /** One line of a multiple selection. */
  function LineText(mode: QuoteMode, text: string): string
  {
    if mode == Always || (mode == Auto && HasSpace(text)) then Quote(text) else text
  }

  /** Always quotes every line, Never none, Auto exactly the lines holding a space. */
  lemma LineQuoting(mode: QuoteMode, text: string)
    ensures LineText(mode, text) == Quote(text) <==> mode == Always || (mode == Auto && HasSpace(text))
    ensures LineText(mode, text) != Quote(text) ==> LineText(mode, text) == text
  {
    assert |Quote(text)| != |text|;
  }

  /** The lines of a multiple selection, in selection order. */
  function QuotedLines(texts: seq<string>, mode: QuoteMode): (lines: seq<string>)
    ensures |lines| == |texts| && forall i :: 0 <= i < |texts| ==> lines[i] == LineText(mode, texts[i])
  {
    seq(|texts|, i requires 0 <= i < |texts| => LineText(mode, texts[i]))
  }

  /** The clipboard text for the selected items' texts; None for an empty
      selection, when nothing is copied. */
  function ClipboardText(texts: seq<string>, mode: QuoteMode, forceNoSingleItemQuotes: bool): Option<string>
  {
    if |texts| == 0 then None
    else if |texts| == 1 then Some(SingleItemText(texts[0], forceNoSingleItemQuotes))
    else Some(Join(QuotedLines(texts, mode), "\n"))
  }

  /** One round of a copy loop appends the next line, after a newline from the second line on. */
  lemma JoinStep(texts: seq<string>, mode: QuoteMode, i: nat, before: string, after: string)
    requires i < |texts|
    requires before == Join(QuotedLines(texts[..i], mode), "\n")
    requires after == (if i > 0 then before + "\n" else before) + LineText(mode, texts[i])
    ensures after == Join(QuotedLines(texts[..i + 1], mode), "\n")
  {
    var lines := QuotedLines(texts[..i + 1], mode);
    assert lines[..i] == QuotedLines(texts[..i], mode);
  }

  /** One round of a copy loop: a line break from the second line on, then the
      text, in double quotes when the mode asks for them. */
  method AppendLine(clipboardText: string, i: nat, mode: QuoteMode, text: string) returns (result: string)
    ensures result == (if i > 0 then clipboardText + "\n" else clipboardText) + LineText(mode, text)
  {
    result := clipboardText;
    if i > 0 {
      result := result + "\n";
    }
    ghost var prefix := result;
    if mode == Always {
      result := result + "\"" + text + "\"";
    } else if mode == Auto && HasSpace(text) {
      result := result + "\"" + text + "\"";
    } else {
      result := result + text;
    }
    assert prefix + "\"" + text + "\"" == prefix + Quote(text);
  }

  /** NO_SINGLE_ITEM_QUOTES has no effect on a multiple selection. */
  lemma ForceIgnoredForMany(texts: seq<string>, mode: QuoteMode)
    requires |texts| >= 2
    ensures ClipboardText(texts, mode, true) == ClipboardText(texts, mode, false)
  {
  }

  /** In Never mode a multiple selection is the plain newline-join of the texts. */
  lemma NeverIsPlainJoin(texts: seq<string>, forceNoSingleItemQuotes: bool)
    requires |texts| >= 2
    ensures ClipboardText(texts, Never, forceNoSingleItemQuotes) == Some(Join(texts, "\n"))
  {
    assert QuotedLines(texts, Never) == texts;
  }

  /** A multiple selection gives one line per item, in order, with no trailing
      newline: splitting the text at its newlines gives back the lines. */
  lemma OneLinePerItem(texts: seq<string>, mode: QuoteMode, forceNoSingleItemQuotes: bool)
    requires |texts| >= 2
    requires forall i :: 0 <= i < |texts| ==> '\n' !in texts[i]
    ensures var lines := Split(ClipboardText(texts, mode, forceNoSingleItemQuotes).value, '\n');
            |lines| == |texts| && forall i :: 0 <= i < |texts| ==> lines[i] == LineText(mode, texts[i])
  {
    var lines := QuotedLines(texts, mode);
    forall i | 0 <= i < |lines| ensures '\n' !in lines[i] {
      if lines[i] == Quote(texts[i]) {
        assert lines[i] == "\"" + texts[i] + "\"";
      }
    }
    SplitJoin(lines, '\n');
  }
}
