/** The "create .bak backup / restore from .bak" button.

    Creating: the folder listing is scanned for `name + ext` (the bare backup,
    which counts as version 1) and `name + ext + N` (numbered backups); the
    highest version in use is the "last" number, and the next backup is
    `name + ext` when nothing is in use, else `name + ext + (last + 1)`.
    There is never a `.bak1`.

    Restoring: the selected name is parsed with `^(.+)\.bak(\d*)$` (always
    `.bak`, case-sensitive, whatever extension creation is configured with),
    and the backup is copied back over the original. */
module BackupNames {
  import opened Text

  /** The backup extension the script is configured with. */
  const BackupExtension: string := ".bak"

  /** The marker the restore pattern looks for. */
  const RestoreMarker: string := ".bak"

  // ---------------------------------------------------------------------------
  // Scanning the listing

  /** The version a single sibling shows to be in use for `name`:
      1 for the bare backup, N for a numbered backup `name + ext + N`,
      0 for anything else (no prefix match, or a suffix that is not digits). */
  function SiblingVersion(name: string, ext: string, sibling: string): nat
  {
    var bak := name + ext;
    if !StartsWith(sibling, bak) then 0
    else if |sibling| == |bak| then 1
    else
      var ending := sibling[|bak|..];
      if AllDigits(ending) then DecimalValue(ending) else 0
  }

  /** The bare backup name shows version 1. */
  lemma BareVersion(name: string, ext: string)
    ensures SiblingVersion(name, ext, name + ext) == 1
  {
    assert StartsWith(name + ext, name + ext);
  }

  /** A numbered backup shows its number. */
  lemma NumberedVersion(name: string, ext: string, n: nat)
    ensures SiblingVersion(name, ext, name + ext + DecimalString(n)) == n
  {
    var s := name + ext + DecimalString(n);
    assert s[..|name + ext|] == name + ext;
    assert s[|name + ext|..] == DecimalString(n);
  }

  /** A sibling whose ending after `name + ext` is not all digits shows nothing. */
  lemma NonNumericEndingIgnored(name: string, ext: string, ending: string)
    requires ending != [] && !AllDigits(ending)
    ensures SiblingVersion(name, ext, name + ext + ending) == 0
  {
    var s := name + ext + ending;
    assert s[..|name + ext|] == name + ext;
    assert s[|name + ext|..] == ending;
  }

  /** The highest version in use among the siblings (0 when none is). */
  function LastBakNum(name: string, ext: string, siblings: seq<string>): nat
  {
    if siblings == [] then 0
    else
      var v := SiblingVersion(name, ext, siblings[|siblings| - 1]);
      var m := LastBakNum(name, ext, siblings[..|siblings| - 1]);
      if v > m then v else m
  }

  /** The last number is the maximum of the versions the siblings show, or 0. */
  lemma {:induction false} LastBakNumIsMax(name: string, ext: string, siblings: seq<string>)
    ensures forall i :: 0 <= i < |siblings| ==> SiblingVersion(name, ext, siblings[i]) <= LastBakNum(name, ext, siblings)
    ensures LastBakNum(name, ext, siblings) == 0
            || exists i :: 0 <= i < |siblings| && SiblingVersion(name, ext, siblings[i]) == LastBakNum(name, ext, siblings)
  {
    if siblings != [] {
      var init := siblings[..|siblings| - 1];
      LastBakNumIsMax(name, ext, init);
      assert forall i :: 0 <= i < |init| ==> init[i] == siblings[i];
    }
  }

  /** Two numbers that are both "the maximum" of the same versions are equal. */
  lemma MaximumUnique(name: string, ext: string, a: seq<string>, b: seq<string>)
    requires forall s :: s in a <==> s in b
    ensures LastBakNum(name, ext, a) == LastBakNum(name, ext, b)
  {
    var la, lb := LastBakNum(name, ext, a), LastBakNum(name, ext, b);
    LastBakNumIsMax(name, ext, a);
    LastBakNumIsMax(name, ext, b);
    if la > 0 {
      var i :| 0 <= i < |a| && SiblingVersion(name, ext, a[i]) == la;
      assert a[i] in b;
      var j :| 0 <= j < |b| && b[j] == a[i];
      assert la <= lb;
    }
    if lb > 0 {
      var j :| 0 <= j < |b| && SiblingVersion(name, ext, b[j]) == lb;
      assert b[j] in a;
      var i :| 0 <= i < |a| && a[i] == b[j];
      assert lb <= la;
    }
  }

  /** The order of the listing does not matter. */
  lemma OrderIrrelevant(name: string, ext: string, a: seq<string>, b: seq<string>)
    requires multiset(a) == multiset(b)
    ensures LastBakNum(name, ext, a) == LastBakNum(name, ext, b)
  {
    forall s
      ensures s in a <==> s in b
    {
      assert s in a <==> s in multiset(a);
      assert s in b <==> s in multiset(b);
    }
    MaximumUnique(name, ext, a, b);
  }

  /** With no sibling starting with `name + ext`, nothing is in use. */
  lemma {:induction false} NoMatchNoVersion(name: string, ext: string, siblings: seq<string>)
    requires forall i :: 0 <= i < |siblings| ==> !StartsWith(siblings[i], name + ext)
    ensures LastBakNum(name, ext, siblings) == 0
    ensures NextBakName(name, ext, LastBakNum(name, ext, siblings)) == name + ext
  {
    LastBakNumIsMax(name, ext, siblings);
    assert forall i :: 0 <= i < |siblings| ==> SiblingVersion(name, ext, siblings[i]) == 0;
  }

  /** A sibling that shows no version (unrelated name, non-numeric ending)
      does not change the result. */
  lemma IrrelevantSibling(name: string, ext: string, siblings: seq<string>, s: string)
    requires SiblingVersion(name, ext, s) == 0
    ensures LastBakNum(name, ext, siblings + [s]) == LastBakNum(name, ext, siblings)
  {
    assert (siblings + [s])[..|siblings|] == siblings;
  }

  /** The bare backup in the listing means the next backup is numbered, from 2 on. */
  lemma BareMeansNumbered(name: string, ext: string, siblings: seq<string>)
    requires name + ext in siblings
    ensures LastBakNum(name, ext, siblings) >= 1
    ensures NextBakName(name, ext, LastBakNum(name, ext, siblings))
            == name + ext + DecimalString(LastBakNum(name, ext, siblings) + 1)
  {
    var last := LastBakNum(name, ext, siblings);
    assert last >= 1 by {
      var i :| 0 <= i < |siblings| && siblings[i] == name + ext;
      BareVersion(name, ext);
      LastBakNumIsMax(name, ext, siblings);
    }
    var digits := DecimalString(last + 1);
    assert NextBakName(name, ext, last) == name + (ext + digits);
    assert name + (ext + digits) == name + ext + digits;
  }

  /** Scans the files and then the sub-folders of the parent folder. */
  method GetLastBakNum(name: string, ext: string, files: seq<string>, subfolders: seq<string>)
    returns (lastBakNum: nat)
    ensures lastBakNum == LastBakNum(name, ext, files + subfolders)
  {
    var items: seq<string> := [];
    var f := 0;
    while f < |files|
      invariant 0 <= f <= |files| && items == files[..f]
    {
      items := items + [files[f]];
      f := f + 1;
    }
    var d := 0;
    while d < |subfolders|
      invariant 0 <= d <= |subfolders| && items == files + subfolders[..d]
    {
      items := items + [subfolders[d]];
      d := d + 1;
    }
    assert subfolders[..d] == subfolders;

    lastBakNum := 0;
    var theoreticalBakName := name + ext;
    var i := 0;
    while i < |items|
      invariant 0 <= i <= |items|
      invariant lastBakNum == LastBakNum(name, ext, items[..i])
    {
      assert items[..i + 1][..i] == items[..i];
      var current := items[i];
      if StartsWith(current, theoreticalBakName) {
        if |current| == |theoreticalBakName| {
          if lastBakNum == 0 {
            lastBakNum := 1;
          }
        } else {
          var extEnding := current[|theoreticalBakName|..];
          if AllDigits(extEnding) {
            var extEndingNum := DecimalValue(extEnding);
            if extEndingNum > lastBakNum {
              lastBakNum := extEndingNum;
            }
          }
        }
      }
      i := i + 1;
    }
    assert items[..i] == items;
  }

  // ---------------------------------------------------------------------------
  // Creating

  /** What follows the item's name in the new backup's name. */
  function BackupSuffix(ext: string, lastBakNum: nat): string
  {
    if lastBakNum == 0 then ext else ext + DecimalString(lastBakNum + 1)
  }

  /** The name the new backup gets (`Copy ... AS *<suffix>`: `*` is the item's name). */
  function NextBakName(name: string, ext: string, lastBakNum: nat): string
  {
    name + BackupSuffix(ext, lastBakNum)
  }

  /** The start of the copy command, up to the `*` that stands for the item's name. */
  function CopyAs(itemPath: string): string
  {
    "Copy DUPLICATE \"" + itemPath + "\" AS *"
  }

  /** The command `createBak` runs for the item at `itemPath`: a copy of the
      item under the name `*` followed by a suffix, which is a bare backup
      when no version is in use, else the version after the last one. */
  function CreateBakCommand(itemPath: string, ext: string, lastBakNum: nat): (cmd: string)
    ensures |cmd| >= |CopyAs(itemPath)| && cmd[..|CopyAs(itemPath)|] == CopyAs(itemPath)
  {
    if lastBakNum == 0 then CopyAs(itemPath) + ext
    else CopyAs(itemPath) + ext + DecimalString(lastBakNum + 1)
  }

  /** For an item named `name`, the name the command copies to (the name with
      the `*` replaced, `name + s`) is the next backup name: the scan reads it
      as one more than the last version, and it is never `.bak1`. */
  lemma CreateBakCommandTarget(itemPath: string, name: string, ext: string, lastBakNum: nat, s: string)
    requires CreateBakCommand(itemPath, ext, lastBakNum) == CopyAs(itemPath) + s
    ensures name + s == NextBakName(name, ext, lastBakNum)
    ensures SiblingVersion(name, ext, name + s) == lastBakNum + 1
    ensures name + s != name + ext + "1"
  {
    var prefix := CopyAs(itemPath);
    var cmd := CreateBakCommand(itemPath, ext, lastBakNum);
    assert cmd == prefix + BackupSuffix(ext, lastBakNum);
    assert s == cmd[|prefix|..] == BackupSuffix(ext, lastBakNum);
    NewBackupVersion(name, ext, lastBakNum);
    NeverBak1(name, ext, lastBakNum);
  }

  /** There is never a `name + ext + "1"`. */
  lemma NeverBak1(name: string, ext: string, lastBakNum: nat)
    ensures NextBakName(name, ext, lastBakNum) != name + ext + "1"
  {
    var x := NextBakName(name, ext, lastBakNum);
    var n := |name + ext|;
    if lastBakNum > 0 && x == name + ext + "1" {
      assert x[n..] == DecimalString(lastBakNum + 1);
      assert x[n..] == "1" == DecimalString(1);
      DecimalStringInjective(lastBakNum + 1, 1);
    }
  }

  /** The new backup shows exactly one version more than the last one in use. */
  lemma NewBackupVersion(name: string, ext: string, lastBakNum: nat)
    ensures SiblingVersion(name, ext, NextBakName(name, ext, lastBakNum)) == lastBakNum + 1
  {
    if lastBakNum == 0 {
      BareVersion(name, ext);
    } else {
      NumberedVersion(name, ext, lastBakNum + 1);
      assert NextBakName(name, ext, lastBakNum) == name + ext + DecimalString(lastBakNum + 1);
    }
  }

  /** Adding the new backup to the listing raises the last number by exactly one. */
  lemma {:induction false} CreationAdvances(name: string, ext: string, siblings: seq<string>)
    ensures LastBakNum(name, ext, AfterCreation(name, ext, siblings)) == LastBakNum(name, ext, siblings) + 1
  {
    var last := LastBakNum(name, ext, siblings);
    var s' := siblings + [NextBakName(name, ext, last)];
    assert s'[..|siblings|] == siblings;
    NewBackupVersion(name, ext, last);
  }

  /** The new backup's name differs, as a string, from every name in the listing. */
  lemma NextNameIsFresh(name: string, ext: string, siblings: seq<string>)
    ensures NextBakName(name, ext, LastBakNum(name, ext, siblings)) !in siblings
  {
    var last := LastBakNum(name, ext, siblings);
    NewBackupVersion(name, ext, last);
    LastBakNumIsMax(name, ext, siblings);
  }

  /** The listing after one more backup of `name` is created in it. */
  function AfterCreation(name: string, ext: string, siblings: seq<string>): seq<string>
  {
    siblings + [NextBakName(name, ext, LastBakNum(name, ext, siblings))]
  }

  // ---------------------------------------------------------------------------
  // Restoring

  /** `name` is group 1 of a match of `^(.+)\.bak(\d*)$` against s. */
  ghost predicate IsRestoreMatch(s: string, name: string) {
    && |name| >= 1
    && NoLineTerminator(name)
    && |s| >= |name| + |RestoreMarker|
    && s[..|name|] == name
    && s[|name|..|name| + |RestoreMarker|] == RestoreMarker
    && AllDigits(s[|name| + |RestoreMarker|..])
  }

  /** Where the run of digits that ends s begins. */
  function TrailingDigitsStart(s: string): (k: nat)
    ensures k <= |s| && AllDigits(s[k..])
    ensures k > 0 ==> !IsDigit(s[k - 1])
  {
    if s == [] || !IsDigit(s[|s| - 1]) then |s|
    else
      var k := TrailingDigitsStart(s[..|s| - 1]);
      assert s[k..] == s[..|s| - 1][k..] + [s[|s| - 1]];
      k
  }

  /** The original name recovered from a backup's name, or None when the name
      does not match `^(.+)\.bak(\d*)$`. */
  function ParseBackupName(s: string): (r: Option<string>)
    ensures r.Some? ==> IsRestoreMatch(s, r.value)
  {
    var k := TrailingDigitsStart(s);
    var m := |RestoreMarker|;
    if k >= m + 1 && s[k - m..k] == RestoreMarker && NoLineTerminator(s[..k - m])
    then Some(s[..k - m])
    else None
  }

  /** Every match is the one the parse finds: the `.bak` recognised is the
      rightmost one, and a name that does not match is rejected. */
  lemma ParseComplete(s: string, name: string)
    requires IsRestoreMatch(s, name)
    ensures ParseBackupName(s) == Some(name)
  {
    var k := TrailingDigitsStart(s);
    var j := |name| + |RestoreMarker|;
    assert s[j - 1] == 'k';
    // every character from j on is a digit, and the one before j is not
    assert k == j;
  }

  /** The marker is unique: two matches give the same original name. */
  lemma RestoreMatchUnique(s: string, a: string, b: string)
    requires IsRestoreMatch(s, a) && IsRestoreMatch(s, b)
    ensures a == b
  {
    ParseComplete(s, a);
    ParseComplete(s, b);
  }

  /** Round trip: restoring a name built as `name + ".bak" + digits` gives back name. */
  lemma RestoreInvertsCreate(name: string, digits: string)
    requires |name| >= 1 && NoLineTerminator(name) && AllDigits(digits)
    ensures ParseBackupName(name + RestoreMarker + digits) == Some(name)
  {
    var s := name + RestoreMarker + digits;
    assert s[..|name|] == name;
    assert s[|name|..|name| + 4] == RestoreMarker;
    assert s[|name| + 4..] == digits;
    ParseComplete(s, name);
  }

  /** With the default extension, every backup name the button creates restores to the item. */
  lemma CreatedBackupRestores(name: string, last: nat)
    requires |name| >= 1 && NoLineTerminator(name)
    ensures ParseBackupName(NextBakName(name, BackupExtension, last)) == Some(name)
  {
    if last == 0 {
      RestoreInvertsCreate(name, "");
      assert name + RestoreMarker + "" == NextBakName(name, BackupExtension, last);
    } else {
      RestoreInvertsCreate(name, DecimalString(last + 1));
      assert name + RestoreMarker + DecimalString(last + 1) == NextBakName(name, BackupExtension, last);
    }
  }

  /** What `restoreBak` does for one selected item. */
  datatype RestoreOutcome =
    | NotABackup(dialogText: string)      // error dialog, no file command
    | BackupMissing(logText: string)      // logged, no file command
    | Restored(commands: seq<string>)     // the commands run, in order

  /** `restoreBak` for the item `bakName` in folder `dir`; the two existence
      tests of the file system are inputs. */
  function RestoreBak(dir: string, bakName: string, bakExists: bool, originalExists: bool): (r: RestoreOutcome)
    ensures r.NotABackup? <==> ParseBackupName(bakName).None?
    ensures r.BackupMissing? <==> ParseBackupName(bakName).Some? && !bakExists
    ensures r.Restored? ==>
              var original := ParseBackupName(bakName).value;
              && |r.commands| == (if originalExists then 2 else 1)
              && r.commands[|r.commands| - 1]
                 == "Copy DUPLICATE \"" + dir + "\\" + bakName + "\" AS \"" + original + "\""
              && (originalExists ==> r.commands[0] == "Delete QUIET \"" + dir + "\\" + original + "\"")
  {
    match ParseBackupName(bakName)
    case None => NotABackup("Error: The selected file is not a valid .bak file: \n" + bakName)
    case Some(original) =>
      var bakFilePath := dir + "\\" + bakName;
      var originalFilePath := dir + "\\" + original;
      if !bakExists then BackupMissing("Backup file does not exist: " + bakFilePath)
      else
        var delete := if originalExists then ["Delete QUIET \"" + originalFilePath + "\""] else [];
        Restored(delete + ["Copy DUPLICATE \"" + bakFilePath + "\" AS \"" + original + "\""])
  }

  /** A file command is issued exactly when the backup exists; the original is
      deleted only when both exist. */
  lemma RestoreCommandsIff(dir: string, bakName: string, bakExists: bool, originalExists: bool)
    requires ParseBackupName(bakName).Some?
    ensures RestoreBak(dir, bakName, bakExists, originalExists).Restored? <==> bakExists
    ensures (RestoreBak(dir, bakName, bakExists, originalExists).Restored?
             && |RestoreBak(dir, bakName, bakExists, originalExists).commands| == 2)
            <==> bakExists && originalExists
  {
  }
  // ---------------------------------------------------------------------------
  // The button

  /** A selected item as the button sees it when it comes to that item: its full
      path, its name, the listing of the source folder (files, then sub-folders)
      and the two existence tests `restoreBak` makes. */
  datatype SelectedItem = SelectedItem(path: string, name: string,
                                       files: seq<string>, subfolders: seq<string>,
                                       bakExists: bool, originalExists: bool)

  /** The file commands run for one item: one `Copy` when creating, the
      commands of a successful restore when restoring. */
  function ItemCommands(dir: string, item: SelectedItem, doRestore: bool): seq<string>
  {
    if doRestore then
      match RestoreBak(dir, item.name, item.bakExists, item.originalExists)
      case Restored(commands) => commands
      case _ => []
    else
      [CreateBakCommand(item.path, BackupExtension, LastBakNum(item.name, BackupExtension, item.files + item.subfolders))]
  }

  /** The file commands run for the selection, item by item in selection order. */
  function ClickCommands(dir: string, items: seq<SelectedItem>, doRestore: bool): seq<string>
  {
    if |items| == 0 then []
    else ClickCommands(dir, items[..|items| - 1], doRestore) + ItemCommands(dir, items[|items| - 1], doRestore)
  }

  /** `OnClick`: RESTORE switches every selected item from creating a backup to
      restoring one; returns the file commands run, in order. */
  method BakOnClick(dir: string, items: seq<SelectedItem>, gotRestore: bool) returns (commands: seq<string>)
    ensures commands == ClickCommands(dir, items, gotRestore)
  {
    var doRestore := false;
    if gotRestore {
      doRestore := true;
    }
    commands := [];
    var i := 0;
    while i < |items|
      invariant 0 <= i <= |items|
      invariant commands == ClickCommands(dir, items[..i], doRestore)
    {
      var currentItem := items[i];
      assert items[..i + 1][..i] == items[..i];
      if doRestore == true {
        var outcome := RestoreBak(dir, currentItem.name, currentItem.bakExists, currentItem.originalExists);
        if outcome.Restored? {
          commands := commands + outcome.commands;
        }
      } else {
        var lastBakNum := GetLastBakNum(currentItem.name, BackupExtension, currentItem.files, currentItem.subfolders);
        commands := commands + [CreateBakCommand(currentItem.path, BackupExtension, lastBakNum)];
      }
      i := i + 1;
    }
    assert items[..i] == items;
  }

  /** Without RESTORE every selected item gets exactly one backup command, in
      selection order, naming the next free version of that item. */
  lemma {:induction false} CreateOneCommandPerItem(dir: string, items: seq<SelectedItem>)
    ensures |ClickCommands(dir, items, false)| == |items|
    ensures forall i :: 0 <= i < |items| ==>
              ClickCommands(dir, items, false)[i]
              == CreateBakCommand(items[i].path, BackupExtension,
                                  LastBakNum(items[i].name, BackupExtension, items[i].files + items[i].subfolders))
  {
    if |items| > 0 {
      var n := |items| - 1;
      var init := items[..n];
      CreateOneCommandPerItem(dir, init);
      var before := ClickCommands(dir, init, false);
      var commands := ClickCommands(dir, items, false);
      assert commands == before + ItemCommands(dir, items[n], false);
      forall i | 0 <= i < n
        ensures commands[i] == CreateBakCommand(items[i].path, BackupExtension,
                                                LastBakNum(items[i].name, BackupExtension, items[i].files + items[i].subfolders))
      {
        assert init[i] == items[i] && commands[i] == before[i];
      }
      assert commands[n] == ItemCommands(dir, items[n], false)[0];
    }
  }

  /** With RESTORE at most two commands are run per item, and none for an item
      whose name is not a backup name. */
  lemma {:induction false} RestoreCommandBound(dir: string, items: seq<SelectedItem>)
    ensures |ClickCommands(dir, items, true)| <= 2 * |items|
    ensures (forall i :: 0 <= i < |items| ==> ParseBackupName(items[i].name).None?)
            ==> ClickCommands(dir, items, true) == []
  {
    if |items| > 0 {
      var init := items[..|items| - 1];
      RestoreCommandBound(dir, init);
      forall i | 0 <= i < |init|
        ensures init[i] == items[i]
      {
      }
    }
  }
}
