/** "Copy tree structure": the argument validation, the expansion of the
    selection into the folders below it, and the building of the path tree
    from the expanded items. Rendering the tree as text is in TreeRender. */
module CopyTree {
  import opened Text

  // ---------------------------------------------------------------------------
  // Arguments

  /** The string with its leading JavaScript whitespace removed. */
  function TrimStart(s: string): (r: string)
    ensures |r| <= |s| && r == s[|s| - |r|..]
    ensures r == [] || !IsJsWhitespace(r[0])
    ensures forall i :: 0 <= i < |s| - |r| ==> IsJsWhitespace(s[i])
  {
    if s != [] && IsJsWhitespace(s[0]) then TrimStart(s[1..]) else s
  }

  /** How many decimal digits s begins with. */
  function LeadingDigits(s: string): (n: nat)
    ensures n <= |s| && AllDigits(s[..n])
    ensures n < |s| ==> !IsDigit(s[n])
  {
    if s != [] && IsDigit(s[0]) then
      var n := 1 + LeadingDigits(s[1..]);
      assert s[..n] == [s[0]] + s[1..][..n - 1];
      n
    else 0
  }

  /** `parseInt(s, 10)`: leading whitespace, an optional sign, then the longest
      run of decimal digits; None stands for NaN (no digit at all). */
  function ParseInt(s: string): Option<int>
  {
    var t := TrimStart(s);
    if t != [] && t[0] == '-' then
      match DigitRun(t[1..])
      case Some(m) => Some(-(m as int))
      case None => None
    else if t != [] && t[0] == '+' then
      match DigitRun(t[1..])
      case Some(m) => Some(m as int)
      case None => None
    else
      match DigitRun(t)
      case Some(m) => Some(m as int)
      case None => None
  }

  /** The value of the digits u begins with; None when it begins with none. */
  function DigitRun(u: string): Option<nat>
  {
    var n := LeadingDigits(u);
    if n == 0 then None else Some(DecimalValue(u[..n]))
  }

  /** How an integer value is written as text. */
  function IntToString(n: int): string
  {
    if n < 0 then "-" + DecimalString(-n) else DecimalString(n)
  }

  /** Parsing the text of an integer gives back the integer. */
  lemma ParseIntToString(n: int)
    ensures ParseInt(IntToString(n)) == Some(n)
  {
    if n < 0 {
      var s := IntToString(n);
      assert s[1..] == DecimalString(-n);
      ParseMinusRun(s);
    } else {
      ParseDigits(DecimalString(n));
    }
  }

  /** A run of digits parses to its value. */
  lemma ParseDigits(d: string)
    requires d != [] && AllDigits(d)
    ensures ParseInt(d) == Some(DecimalValue(d) as int)
  {
    assert IsDigit(d[0]);
    NoLeadingSpace(d);
    WholeDigitRun(d);
  }

  /** A string that is a minus sign followed by digits only parses to the negated digits. */
  lemma ParseMinusRun(s: string)
    requires |s| >= 2 && s[0] == '-' && AllDigits(s[1..])
    ensures ParseInt(s) == Some(-(DecimalValue(s[1..]) as int))
  {
    NoLeadingSpace(s);
    WholeDigitRun(s[1..]);
  }

  /** Nothing is trimmed from a string that does not start with whitespace. */
  lemma NoLeadingSpace(s: string)
    requires s != [] && (IsDigit(s[0]) || s[0] == '-')
    ensures TrimStart(s) == s
  {
  }

  /** A string made of digits only is read whole. */
  lemma WholeDigitRun(d: string)
    requires d != [] && AllDigits(d)
    ensures DigitRun(d) == Some(DecimalValue(d))
  {
    AllDigitsPrefix(d);
  }

  /** A string of digits is one run of leading digits. */
  lemma {:induction false} AllDigitsPrefix(d: string)
    requires AllDigits(d)
    ensures LeadingDigits(d) == |d| && d[..|d|] == d
  {
    if d != [] {
      AllDigitsPrefix(d[1..]);
    }
  }

  /** EXPAND_DEPTH: kept when it parses to an integer of at least -1, else -1
      (also the default when the argument is absent). */
  function ExpandDepthArg(gotArg: bool, argText: string): (depth: int)
    ensures depth >= -1
    ensures gotArg && ParseInt(argText).Some? && ParseInt(argText).value >= -1
            ==> depth == ParseInt(argText).value
    ensures !(gotArg && ParseInt(argText).Some? && ParseInt(argText).value >= -1) ==> depth == -1
  {
    if !gotArg then -1
    else match ParseInt(argText)
      case Some(n) => if n >= -1 then n else -1
      case None => -1
  }

  /** The host hands EXPAND_DEPTH over as an integer, written out as text. */
  lemma ExpandDepthOfInteger(n: int)
    ensures ExpandDepthArg(true, IntToString(n)) == if n >= -1 then n else -1
  {
    ParseIntToString(n);
  }

  predicate IsContextLine(s: string) {
    s == "none" || s == "folder" || s == "path"
  }

  /** CONTEXT_LINE, lower-cased: kept when it is none/folder/path, else "folder"
      (also the default when the argument is absent). */
  function ContextLineArg(gotArg: bool, arg: string): (contextLine: string)
    ensures IsContextLine(contextLine) && ToLower(contextLine) == contextLine
    ensures gotArg && IsContextLine(ToLower(arg)) ==> contextLine == ToLower(arg)
    ensures !(gotArg && IsContextLine(ToLower(arg))) ==> contextLine == "folder"
  {
    if gotArg && IsContextLine(ToLower(arg)) then ToLower(arg) else "folder"
  }

  /** A folder path as the host writes it: its last component, and the whole path. */
  datatype PathText = PathText(filepart: string, full: string)

  /** The first line of the output: nothing, the folder's name, or its full path,
      of the source folder or (with UP_ONE_CONTEXT) of its parent. */
  function TopLine(contextLine: string, upOne: bool, tab: PathText, parent: PathText): (line: string)
    requires IsContextLine(contextLine)
    ensures line == "" <==> contextLine == "none"
    ensures line != "" ==> line[|line| - 1] == '\n'
    ensures contextLine == "folder" ==> line[..|line| - 1] == (if upOne then parent else tab).filepart
    ensures contextLine == "path" ==> line[..|line| - 1] == (if upOne then parent else tab).full
  {
    var shown := if upOne then parent else tab;
    var line := if contextLine == "folder" then shown.filepart + "\n"
                else if contextLine == "path" then shown.full + "\n"
                else "";
    assert line != "" ==> line[..|line| - 1] + "\n" == line;
    line
  }

  /** How many leading path components are dropped from every item. */
  function InitialDepth(sourcePathDepth: nat, upOne: bool): int
  {
    if upOne then sourcePathDepth - 1 else sourcePathDepth
  }

  /** `realpath.Split(baseDepth)`: the components after the first baseDepth. */
  function RelativeParts(path: seq<string>, baseDepth: int): (parts: seq<string>)
    ensures |parts| <= |path| && parts == path[|path| - |parts|..]
    ensures 0 <= baseDepth <= |path| ==> |parts| == |path| - baseDepth
  {
    if baseDepth <= 0 then path
    else if baseDepth >= |path| then []
    else path[baseDepth..]
  }

  // ---------------------------------------------------------------------------
  // Expanding the selection

  /** A file or folder as the host lists it: its full path as components, and
      (for a folder) what reading the folder yields. */
  datatype FsItem = FsItem(path: seq<string>, isDir: bool, children: seq<FsItem>)

  /** Whether `expand` reads the folder of an item seen at `depth`. */
  predicate Expands(item: FsItem, depth: nat, expandDepth: int) {
    item.isDir && (expandDepth == -1 || depth < expandDepth)
  }

  /** What `expand(item, depth)` pushes, in order. */
  function ExpandItem(item: FsItem, depth: nat, expandDepth: int): seq<FsItem>
    decreases item
  {
    [item] + if Expands(item, depth, expandDepth) then ExpandItems(item.children, depth + 1, expandDepth) else []
  }

  /** What expanding each of `items` in turn pushes. */
  function ExpandItems(items: seq<FsItem>, depth: nat, expandDepth: int): seq<FsItem>
    decreases items
  {
    if items == [] then []
    else ExpandItems(items[..|items| - 1], depth, expandDepth) + ExpandItem(items[|items| - 1], depth, expandDepth)
  }

  /** `expand`: pushes the item, then, when the folder is expanded, each entry of it. */
  method Expand(item: FsItem, depth: nat, expandDepth: int, expandedItems: seq<FsItem>)
    returns (result: seq<FsItem>)
    ensures result == expandedItems + ExpandItem(item, depth, expandDepth)
    decreases item
  {
    result := expandedItems + [item];
    if item.isDir && (expandDepth == -1 || depth < expandDepth) {
      var children := item.children;
      var i := 0;
      while i < |children|
        invariant 0 <= i <= |children|
        invariant result == expandedItems + [item] + ExpandItems(children[..i], depth + 1, expandDepth)
      {
        assert children[..i + 1][..i] == children[..i];
        result := Expand(children[i], depth + 1, expandDepth, result);
        i := i + 1;
      }
      assert children[..i] == children;
    }
  }

  /** `expandSelectedItems`: every selected item expanded from depth 0. */
  method ExpandSelectedItems(items: seq<FsItem>, expandDepth: int) returns (expandedItems: seq<FsItem>)
    ensures expandedItems == ExpandItems(items, 0, expandDepth)
  {
    expandedItems := [];
    var i := 0;
    while i < |items|
      invariant 0 <= i <= |items|
      invariant expandedItems == ExpandItems(items[..i], 0, expandDepth)
    {
      assert items[..i + 1][..i] == items[..i];
      expandedItems := Expand(items[i], 0, expandDepth, expandedItems);
      i := i + 1;
    }
    assert items[..i] == items;
  }

  /** At or beyond the depth limit nothing is expanded: with EXPAND_DEPTH 0 the
      output is exactly the selection. */
  lemma {:induction false} NoExpansionAtLimit(items: seq<FsItem>, depth: nat, expandDepth: int)
    requires 0 <= expandDepth <= depth
    ensures ExpandItems(items, depth, expandDepth) == items
  {
    if items != [] {
      NoExpansionAtLimit(items[..|items| - 1], depth, expandDepth);
      assert items[..|items| - 1] + [items[|items| - 1]] == items;
    }
  }

  /** Every item listed is itself in the expansion. */
  lemma {:induction false} ItemsAreListed(items: seq<FsItem>, depth: nat, expandDepth: int)
    ensures forall j :: 0 <= j < |items| ==> items[j] in ExpandItems(items, depth, expandDepth)
  {
    if items != [] {
      var init := items[..|items| - 1];
      ItemsAreListed(init, depth, expandDepth);
      forall j | 0 <= j < |items|
        ensures items[j] in ExpandItems(items, depth, expandDepth)
      {
        if j < |init| {
          assert items[j] == init[j];
        } else {
          assert ExpandItem(items[j], depth, expandDepth)[0] == items[j];
        }
      }
    }
  }

  /** A folder that is expanded contributes each of its entries. */
  lemma ExpandedFolderListsEntries(item: FsItem, depth: nat, expandDepth: int)
    requires Expands(item, depth, expandDepth)
    ensures forall c :: c in item.children ==> c in ExpandItem(item, depth, expandDepth)
  {
    ItemsAreListed(item.children, depth + 1, expandDepth);
  }

  /** Each entry's path is its folder's path and one more component. */
  ghost predicate PathsNested(item: FsItem)
    decreases item
  {
    forall i :: 0 <= i < |item.children| ==>
      |item.children[i].path| == |item.path| + 1 && PathsNested(item.children[i])
  }

  /** With a limit, nothing deeper than the limit below a selected item is listed. */
  lemma {:induction false} ExpandDepthBound(item: FsItem, depth: nat, expandDepth: int)
    requires PathsNested(item) && 0 <= depth <= expandDepth
    ensures forall n :: n in ExpandItem(item, depth, expandDepth) ==>
              |n.path| <= |item.path| + (expandDepth - depth)
    decreases item
  {
    if Expands(item, depth, expandDepth) {
      ExpandDepthBoundAll(item.children, item, depth + 1, expandDepth);
    }
  }

  lemma {:induction false} ExpandDepthBoundAll(items: seq<FsItem>, parent: FsItem, depth: nat, expandDepth: int)
    requires 0 < depth <= expandDepth && PathsNested(parent)
    requires forall j :: 0 <= j < |items| ==> items[j] in parent.children
    ensures forall n :: n in ExpandItems(items, depth, expandDepth) ==>
              |n.path| <= |parent.path| + 1 + (expandDepth - depth)
    decreases parent, items
  {
    if items != [] {
      var init, last := items[..|items| - 1], items[|items| - 1];
      assert forall j :: 0 <= j < |init| ==> init[j] == items[j];
      ExpandDepthBoundAll(init, parent, depth, expandDepth);
      assert last in parent.children;
      var k :| 0 <= k < |parent.children| && parent.children[k] == last;
      ExpandDepthBound(last, depth, expandDepth);
    }
  }

  // ---------------------------------------------------------------------------
  // Building the path tree

  /** One key of a tree level: a path component, the folder flag it was created
      with, and the level below it. A level is a list in insertion order. */
  datatype Entry = Entry(key: string, isDir: bool, sub: seq<Entry>)

  function Keys(level: seq<Entry>): (ks: seq<string>)
    ensures |ks| == |level| && forall i :: 0 <= i < |level| ==> ks[i] == level[i].key
  {
    seq(|level|, i requires 0 <= i < |level| => level[i].key)
  }

  /** Where the key is in the level (the level's length when it is absent). */
  function IndexOfKey(ks: seq<string>, key: string): (k: nat)
    ensures k <= |ks|
    ensures k < |ks| ==> ks[k] == key
    ensures k == |ks| <==> key !in ks
    ensures forall j :: 0 <= j < k ==> ks[j] != key
  {
    if ks == [] then 0
    else if ks[0] == key then 0
    else 1 + IndexOfKey(ks[1..], key)
  }

  lemma {:induction false} IndexOfKeyAppend(ks: seq<string>, y: string, key: string)
    ensures IndexOfKey(ks + [y], key) == if key in ks || key == y then IndexOfKey(ks, key) else |ks| + 1
  {
    if ks != [] {
      assert (ks + [y])[1..] == ks[1..] + [y];
      IndexOfKeyAppend(ks[1..], y, key);
    }
  }

  /** `currentLevel[part]` for each part in turn, creating what is missing; a
      created key is a folder unless it is the last part of a file's path. */
  function Insert(level: seq<Entry>, parts: seq<string>, itemIsDir: bool): seq<Entry>
    decreases parts
  {
    if parts == [] then level
    else
      var k := IndexOfKey(Keys(level), parts[0]);
      if k < |level| then
        level[k := level[k].(sub := Insert(level[k].sub, parts[1..], itemIsDir))]
      else
        level + [Entry(parts[0], |parts| > 1 || itemIsDir, Insert([], parts[1..], itemIsDir))]
  }

  /** The folder flag at the end of the path q, if the tree has that path. */
  function FlagAt(level: seq<Entry>, q: seq<string>): Option<bool>
    decreases q
  {
    if q == [] then None
    else
      var k := IndexOfKey(Keys(level), q[0]);
      if k == |level| then None
      else if |q| == 1 then Some(level[k].isDir)
      else FlagAt(level[k].sub, q[1..])
  }

  predicate IsPrefix(q: seq<string>, p: seq<string>) {
    |q| <= |p| && p[..|q|] == q
  }

  /** Inserting a path leaves the keys of the level in place and appends at most the new one. */
  lemma InsertKeys(level: seq<Entry>, parts: seq<string>, itemIsDir: bool)
    ensures var ks := Keys(Insert(level, parts, itemIsDir));
            ks == Keys(level) || (parts != [] && parts[0] !in Keys(level) && ks == Keys(level) + [parts[0]])
  {
    if parts != [] {
      var k := IndexOfKey(Keys(level), parts[0]);
      var r := Insert(level, parts, itemIsDir);
      if k < |level| {
        assert Keys(r) == Keys(level);
      } else {
        assert Keys(r) == Keys(level) + [parts[0]];
      }
    }
  }

  /** What insertion does to every path: a path already present keeps its flag
      (first writer wins); a missing prefix of the inserted path gets the flag
      "folder unless it is the whole path of a file"; every other path is untouched. */
  lemma {:induction false} InsertFlag(level: seq<Entry>, parts: seq<string>, itemIsDir: bool, q: seq<string>)
    requires q != []
    ensures FlagAt(Insert(level, parts, itemIsDir), q) ==
              if FlagAt(level, q).Some? then FlagAt(level, q)
              else if IsPrefix(q, parts) then Some(|q| < |parts| || itemIsDir)
              else None
    decreases parts, 1
  {
    if parts != [] {
      PrefixStep(q, parts);
      if IndexOfKey(Keys(level), parts[0]) < |level| {
        InsertFlagFound(level, parts, itemIsDir, q);
      } else {
        InsertFlagAppended(level, parts, itemIsDir, q);
      }
    }
  }

  /** A path is a prefix of another when their first components agree and the rests are prefixes. */
  lemma PrefixStep(q: seq<string>, parts: seq<string>)
    requires q != [] && parts != []
    ensures IsPrefix(q, parts) <==> q[0] == parts[0] && IsPrefix(q[1..], parts[1..])
  {
    if q[0] == parts[0] && IsPrefix(q[1..], parts[1..]) {
      assert parts[..|q|] == [parts[0]] + parts[1..][..|q| - 1];
      assert q == [q[0]] + q[1..];
    }
  }

  /** `InsertFlag` when the first component is already a key: the insertion
      goes on below that key and nothing else changes. */
  lemma {:induction false} InsertFlagFound(level: seq<Entry>, parts: seq<string>, itemIsDir: bool, q: seq<string>)
    requires q != [] && parts != [] && IndexOfKey(Keys(level), parts[0]) < |level|
    requires IsPrefix(q, parts) <==> q[0] == parts[0] && IsPrefix(q[1..], parts[1..])
    ensures FlagAt(Insert(level, parts, itemIsDir), q) ==
              if FlagAt(level, q).Some? then FlagAt(level, q)
              else if IsPrefix(q, parts) then Some(|q| < |parts| || itemIsDir)
              else None
    decreases parts, 0
  {
    var k := IndexOfKey(Keys(level), parts[0]);
    var r := Insert(level, parts, itemIsDir);
    assert Keys(r) == Keys(level);
    if q[0] == parts[0] && |q| > 1 {
      InsertFlag(level[k].sub, parts[1..], itemIsDir, q[1..]);
    }
  }

  /** `InsertFlag` when the first component is new: a new entry holding the
      rest of the path is appended. */
  lemma {:induction false} InsertFlagAppended(level: seq<Entry>, parts: seq<string>, itemIsDir: bool, q: seq<string>)
    requires q != [] && parts != [] && IndexOfKey(Keys(level), parts[0]) == |level|
    requires IsPrefix(q, parts) <==> q[0] == parts[0] && IsPrefix(q[1..], parts[1..])
    ensures FlagAt(Insert(level, parts, itemIsDir), q) ==
              if FlagAt(level, q).Some? then FlagAt(level, q)
              else if IsPrefix(q, parts) then Some(|q| < |parts| || itemIsDir)
              else None
    decreases parts, 0
  {
    var ks := Keys(level);
    var r := Insert(level, parts, itemIsDir);
    var e := Entry(parts[0], |parts| > 1 || itemIsDir, Insert([], parts[1..], itemIsDir));
    assert r == level + [e];
    assert Keys(r) == ks + [parts[0]];
    IndexOfKeyAppend(ks, parts[0], q[0]);
    if q[0] == parts[0] {
      assert FlagAt(level, q) == None;
      if |q| > 1 {
        InsertFlag([], parts[1..], itemIsDir, q[1..]);
        assert FlagAt([], q[1..]) == None;
      }
    } else {
      var kq := IndexOfKey(ks, q[0]);
      if kq < |level| {
        assert r[kq] == level[kq];
      }
    }
  }

  /** No key appears twice in a level, at any depth. */
  ghost predicate UniqueKeys(level: seq<Entry>)
    decreases level
  {
    && (forall i, j :: 0 <= i < j < |level| ==> level[i].key != level[j].key)
    && (forall i :: 0 <= i < |level| ==> UniqueKeys(level[i].sub))
  }

  /** Insertion keeps keys unique. */
  lemma {:induction false} InsertUnique(level: seq<Entry>, parts: seq<string>, itemIsDir: bool)
    requires UniqueKeys(level)
    ensures UniqueKeys(Insert(level, parts, itemIsDir))
    decreases parts
  {
    if parts != [] {
      var k := IndexOfKey(Keys(level), parts[0]);
      var r := Insert(level, parts, itemIsDir);
      if k < |level| {
        InsertUnique(level[k].sub, parts[1..], itemIsDir);
        assert Keys(r) == Keys(level);
        forall i, j | 0 <= i < j < |r| ensures r[i].key != r[j].key {
          assert r[i].key == Keys(level)[i] && r[j].key == Keys(level)[j];
        }
      } else {
        assert UniqueKeys([]);
        InsertUnique([], parts[1..], itemIsDir);
        assert parts[0] !in Keys(level);
        forall i, j | 0 <= i < j < |r| ensures r[i].key != r[j].key {
          if j == |level| {
            assert r[i].key == Keys(level)[i];
          }
        }
      }
    }
  }

  /** The tree `generateTree` builds from the items, one insertion per item. */
  function BuildTree(items: seq<FsItem>, baseDepth: int): seq<Entry>
  {
    if items == [] then []
    else
      var last := items[|items| - 1];
      Insert(BuildTree(items[..|items| - 1], baseDepth), RelativeParts(last.path, baseDepth), last.isDir)
  }

  /** Reference definition of a path's flag without any tree: the flag the first
      item whose relative path passes through q gives it. */
  function FirstWriter(items: seq<FsItem>, baseDepth: int, q: seq<string>): Option<bool>
  {
    if items == [] then None
    else
      var earlier := FirstWriter(items[..|items| - 1], baseDepth, q);
      var parts := RelativeParts(items[|items| - 1].path, baseDepth);
      if earlier.Some? then earlier
      else if IsPrefix(q, parts) then Some(|q| < |parts| || items[|items| - 1].isDir)
      else None
  }

  /** The built tree has exactly the paths the items pass through, each with the
      flag of its first writer: later items never change a flag. */
  lemma {:induction false} BuildTreeFlags(items: seq<FsItem>, baseDepth: int, q: seq<string>)
    requires q != []
    ensures FlagAt(BuildTree(items, baseDepth), q) == FirstWriter(items, baseDepth, q)
  {
    if items == [] {
      assert FlagAt([], q) == None;
    } else {
      var last := items[|items| - 1];
      BuildTreeFlags(items[..|items| - 1], baseDepth, q);
      InsertFlag(BuildTree(items[..|items| - 1], baseDepth), RelativeParts(last.path, baseDepth), last.isDir, q);
    }
  }

  /** Every item's relative path is a path of the built tree. */
  lemma {:induction false} ItemPathsPresent(items: seq<FsItem>, baseDepth: int, i: nat)
    requires i < |items| && RelativeParts(items[i].path, baseDepth) != []
    ensures FlagAt(BuildTree(items, baseDepth), RelativeParts(items[i].path, baseDepth)).Some?
  {
    var q := RelativeParts(items[i].path, baseDepth);
    BuildTreeFlags(items, baseDepth, q);
    FirstWriterFound(items, baseDepth, q, i);
  }

  lemma {:induction false} FirstWriterFound(items: seq<FsItem>, baseDepth: int, q: seq<string>, i: nat)
    requires i < |items| && IsPrefix(q, RelativeParts(items[i].path, baseDepth))
    ensures FirstWriter(items, baseDepth, q).Some?
  {
    if i < |items| - 1 {
      FirstWriterFound(items[..|items| - 1], baseDepth, q, i);
    }
  }

  /** The built tree never holds a key twice in a level. */
  lemma {:induction false} BuildTreeUnique(items: seq<FsItem>, baseDepth: int)
    ensures UniqueKeys(BuildTree(items, baseDepth))
  {
    if items == [] {
      assert UniqueKeys([]);
    } else {
      var last := items[|items| - 1];
      BuildTreeUnique(items[..|items| - 1], baseDepth);
      InsertUnique(BuildTree(items[..|items| - 1], baseDepth), RelativeParts(last.path, baseDepth), last.isDir);
    }
  }
}
