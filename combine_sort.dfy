/** "Combine to text file": the order in which the selected files are
    concatenated. The string collation of the host (`localeCompare`) is a
    parameter `cmp`, required only to be antisymmetric in sign. */
module CombineSort {
  import opened Text

  /** A file to be combined: its name, full path, modification time (as a
      number the host compares) and path relative to the source folder. */
  datatype FileInfo = FileInfo(name: string, path: string, date: int, relativePath: string)

  /** A comparison whose sign flips when its arguments are swapped. */
  ghost predicate Antisymmetric<T(!new)>(order: (T, T) -> int) {
    forall x, y :: order(x, y) > 0 <==> order(y, x) < 0
  }

  /** The host's comparison of two modification times: -1, 0 or 1. */
  function DateCompare(x: int, y: int): (c: int)
    ensures c == 0 <==> x == y
    ensures c < 0 <==> x < y
    ensures -1 <= c <= 1
  {
    if x < y then -1 else if x > y then 1 else 0
  }

  // ---------------------------------------------------------------------------
  // The directory-structure comparator

  /** The loop of the directory comparator from component i on: the value it
      returns, or None when the loop runs to its end. */
  function DirLoop(cmp: (string, string) -> int, a: seq<string>, b: seq<string>, i: nat): Option<int>
    requires i <= |a| && i <= |b|
    decreases |a| - i
  {
    if i == |a| || i == |b| then None
    else if i == |a| - 1 && i == |b| - 1 then Some(cmp(a[i], b[i]))
    else if i == |a| - 1 then Some(-1)
    else if i == |b| - 1 then Some(1)
    else if cmp(a[i], b[i]) != 0 then Some(cmp(a[i], b[i]))
    else DirLoop(cmp, a, b, i + 1)
  }

  /** Case 5 of `sortFiles` on the components of two relative paths: files
      before subfolders, compared component by component. */
  function DirCompare(cmp: (string, string) -> int, a: seq<string>, b: seq<string>): int
  {
    match DirLoop(cmp, a, b, 0)
    case Some(c) => c
    case None => |a| - |b|
  }

  /** The loop always returns: `split` yields at least one component, so one of
      the two paths reaches its last component first. */
  lemma {:induction false} DirLoopReturns(cmp: (string, string) -> int, a: seq<string>, b: seq<string>, i: nat)
    requires 1 <= |a| && 1 <= |b| && i < |a| && i < |b|
    ensures DirLoop(cmp, a, b, i).Some?
    decreases |a| - i
  {
    if i != |a| - 1 && i != |b| - 1 && cmp(a[i], b[i]) == 0 {
      DirLoopReturns(cmp, a, b, i + 1);
    }
  }

  /** The fall-through after the loop is never reached. */
  lemma DirCompareReturnsInLoop(cmp: (string, string) -> int, a: seq<string>, b: seq<string>)
    requires 1 <= |a| && 1 <= |b|
    ensures DirLoop(cmp, a, b, 0).Some? && DirCompare(cmp, a, b) == DirLoop(cmp, a, b, 0).value
  {
    DirLoopReturns(cmp, a, b, 0);
  }

  /** Swapping the paths flips the sign of the loop's result. */
  lemma {:induction false} DirLoopAntisymmetric(cmp: (string, string) -> int, a: seq<string>, b: seq<string>, i: nat)
    requires Antisymmetric(cmp) && i <= |a| && i <= |b|
    ensures DirLoop(cmp, a, b, i).Some? == DirLoop(cmp, b, a, i).Some?
    ensures DirLoop(cmp, a, b, i).Some? ==>
              (DirLoop(cmp, a, b, i).value > 0 <==> DirLoop(cmp, b, a, i).value < 0)
    decreases |a| - i
  {
    if i < |a| && i < |b| && i != |a| - 1 && i != |b| - 1 && cmp(a[i], b[i]) == 0 {
      assert !(cmp(b[i], a[i]) > 0) && !(cmp(b[i], a[i]) < 0);
      DirLoopAntisymmetric(cmp, a, b, i + 1);
    }
  }

  /** The directory comparator is antisymmetric in sign when the string compare is. */
  lemma DirCompareAntisymmetric(cmp: (string, string) -> int, a: seq<string>, b: seq<string>)
    requires Antisymmetric(cmp)
    ensures DirCompare(cmp, a, b) > 0 <==> DirCompare(cmp, b, a) < 0
  {
    DirLoopAntisymmetric(cmp, a, b, 0);
  }

  /** Components the string compare cannot tell apart let the loop go on. */
  lemma {:induction false} DirLoopEqualPrefix(cmp: (string, string) -> int, a: seq<string>, b: seq<string>, i: nat, k: nat)
    requires Antisymmetric(cmp)
    requires i <= k < |a| && k < |b| && a[..k] == b[..k]
    requires k == |a| - 1 || k == |b| - 1
    ensures DirLoop(cmp, a, b, i) == DirLoop(cmp, a, b, k)
    decreases k - i
  {
    if i < k {
      assert a[i] == a[..k][i] && b[i] == b[..k][i];
      assert !(cmp(a[i], a[i]) > 0);
      DirLoopEqualPrefix(cmp, a, b, i + 1, k);
    }
  }

  /** Two files in the same folder are ordered by their names. */
  lemma SameFolderByName(cmp: (string, string) -> int, a: seq<string>, b: seq<string>)
    requires Antisymmetric(cmp)
    requires |a| == |b| >= 1 && a[..|a| - 1] == b[..|b| - 1]
    ensures DirCompare(cmp, a, b) == cmp(a[|a| - 1], b[|b| - 1])
  {
    DirLoopEqualPrefix(cmp, a, b, 0, |a| - 1);
  }

  /** A file directly in a folder comes before anything inside a subfolder of it. */
  lemma FileBeforeSubfolder(cmp: (string, string) -> int, a: seq<string>, b: seq<string>)
    requires Antisymmetric(cmp)
    requires 1 <= |a| < |b| && a[..|a| - 1] == b[..|a| - 1]
    ensures DirCompare(cmp, a, b) == -1 && DirCompare(cmp, b, a) == 1
  {
    DirLoopEqualPrefix(cmp, a, b, 0, |a| - 1);
    DirLoopEqualPrefix(cmp, b, a, 0, |a| - 1);
  }

  // ---------------------------------------------------------------------------
  // The comparators of `sortFiles`

  /** The components of a relative path, as `split("\\")` gives them. */
  function PathParts(relativePath: string): seq<string>
  {
    Split(relativePath, '\\')
  }

  /** The comparator `sortFiles` uses for each sort option (1 to 5). */
  function Order(sortOption: nat, cmp: (string, string) -> int): (FileInfo, FileInfo) -> int
    requires 1 <= sortOption <= 5
  {
    match sortOption
    case 1 => (a: FileInfo, b: FileInfo) => cmp(a.name, b.name)
    case 2 => (a: FileInfo, b: FileInfo) => DateCompare(b.date, a.date)
    case 3 => (a: FileInfo, b: FileInfo) => cmp(b.name, a.name)
    case 4 => (a: FileInfo, b: FileInfo) => DateCompare(a.date, b.date)
    case _ => (a: FileInfo, b: FileInfo) => DirCompare(cmp, PathParts(a.relativePath), PathParts(b.relativePath))
  }

  /** Every comparator of `sortFiles` is antisymmetric when the string compare is. */
  lemma OrderAntisymmetric(sortOption: nat, cmp: (string, string) -> int)
    requires 1 <= sortOption <= 5 && Antisymmetric(cmp)
    ensures Antisymmetric(Order(sortOption, cmp))
  {
    var order := Order(sortOption, cmp);
    forall x, y ensures order(x, y) > 0 <==> order(y, x) < 0 {
      if sortOption == 1 {
        assert order(x, y) == cmp(x.name, y.name) && order(y, x) == cmp(y.name, x.name);
      } else if sortOption == 2 {
        assert order(x, y) == DateCompare(y.date, x.date) && order(y, x) == DateCompare(x.date, y.date);
      } else if sortOption == 3 {
        assert order(x, y) == cmp(y.name, x.name) && order(y, x) == cmp(x.name, y.name);
      } else if sortOption == 4 {
        assert order(x, y) == DateCompare(x.date, y.date) && order(y, x) == DateCompare(y.date, x.date);
      } else {
        var px, py := PathParts(x.relativePath), PathParts(y.relativePath);
        assert order(x, y) == DirCompare(cmp, px, py) && order(y, x) == DirCompare(cmp, py, px);
        DirCompareAntisymmetric(cmp, px, py);
      }
    }
  }

  /** The loop compares the paths lexicographically, component by component
      (a last component before any folder, then by the string compare), so it
      is transitive when the string compare is a total preorder. */
  lemma {:induction false} DirLoopTransitive(cmp: (string, string) -> int, a: seq<string>, b: seq<string>,
                                             c: seq<string>, i: nat)
    requires Transitive(cmp) && Antisymmetric(cmp)
    requires i < |a| && i < |b| && i < |c|
    ensures var ab, bc, ac := DirLoop(cmp, a, b, i), DirLoop(cmp, b, c, i), DirLoop(cmp, a, c, i);
            ab.Some? && bc.Some? && ab.value <= 0 && bc.value <= 0 ==> ac.Some? && ac.value <= 0
    decreases |a| - i
  {
    var la, lb, lc := i == |a| - 1, i == |b| - 1, i == |c| - 1;
    if !la && !lb && !lc {
      var x, y, z := cmp(a[i], b[i]), cmp(b[i], c[i]), cmp(a[i], c[i]);
      if x <= 0 && y <= 0 && z == 0 {
        assert cmp(c[i], a[i]) == 0;
        assert cmp(b[i], a[i]) <= 0 && cmp(c[i], b[i]) <= 0;
      }
      if x == 0 && y == 0 {
        DirLoopTransitive(cmp, a, b, c, i + 1);
      }
    }
  }

  /** The directory comparator is transitive when the string compare is a total preorder. */
  lemma DirCompareTransitive(cmp: (string, string) -> int, a: seq<string>, b: seq<string>, c: seq<string>)
    requires Transitive(cmp) && Antisymmetric(cmp)
    requires 1 <= |a| && 1 <= |b| && 1 <= |c|
    ensures DirCompare(cmp, a, b) <= 0 && DirCompare(cmp, b, c) <= 0 ==> DirCompare(cmp, a, c) <= 0
  {
    DirCompareReturnsInLoop(cmp, a, b);
    DirCompareReturnsInLoop(cmp, b, c);
    DirCompareReturnsInLoop(cmp, a, c);
    DirLoopTransitive(cmp, a, b, c, 0);
  }

  /** Every comparator of `sortFiles` is transitive when the string compare is a
      total preorder (transitive and antisymmetric in sign). */
  lemma OrderTransitive(sortOption: nat, cmp: (string, string) -> int)
    requires 1 <= sortOption <= 5 && Transitive(cmp) && Antisymmetric(cmp)
    ensures Transitive(Order(sortOption, cmp))
  {
    var order := Order(sortOption, cmp);
    forall x, y, z | order(x, y) <= 0 && order(y, z) <= 0 ensures order(x, z) <= 0 {
      if sortOption == 1 {
        assert order(x, y) == cmp(x.name, y.name) && order(y, z) == cmp(y.name, z.name);
      } else if sortOption == 3 {
        assert order(x, y) == cmp(y.name, x.name) && order(y, z) == cmp(z.name, y.name);
      } else if sortOption == 5 {
        var px, py, pz := PathParts(x.relativePath), PathParts(y.relativePath), PathParts(z.relativePath);
        assert order(x, y) == DirCompare(cmp, px, py) && order(y, z) == DirCompare(cmp, py, pz);
        DirCompareTransitive(cmp, px, py, pz);
      }
    }
  }

  /** Each pair of neighbours is in order. */
  ghost predicate AdjacentSorted<T>(s: seq<T>, order: (T, T) -> int) {
    NeighboursOrdered(s, order, 0, |s|)
  }

  /** Each pair is in order. */
  ghost predicate SortedBy<T>(s: seq<T>, order: (T, T) -> int) {
    forall i, j :: 0 <= i < j < |s| ==> order(s[i], s[j]) <= 0
  }

  ghost predicate Transitive<T(!new)>(order: (T, T) -> int) {
    forall x, y, z :: order(x, y) <= 0 && order(y, z) <= 0 ==> order(x, z) <= 0
  }

  /** For a transitive comparator, ordered neighbours mean an ordered sequence. */
  lemma AdjacentSortedIsSorted<T(!new)>(s: seq<T>, order: (T, T) -> int)
    requires Transitive(order) && AdjacentSorted(s, order)
    ensures SortedBy(s, order)
  {
    forall i, j | 0 <= i < j < |s| ensures order(s[i], s[j]) <= 0 {
      AdjacentSortedSpan(s, order, i, j);
    }
  }

  lemma {:induction false} AdjacentSortedSpan<T(!new)>(s: seq<T>, order: (T, T) -> int, i: nat, j: nat)
    requires Transitive(order) && AdjacentSorted(s, order) && i < j < |s|
    ensures order(s[i], s[j]) <= 0
    decreases j - i
  {
    if i + 1 < j {
      AdjacentSortedSpan(s, order, i, j - 1);
    }
  }

  function Reverse<T>(s: seq<T>): (r: seq<T>)
    ensures |r| == |s| && forall i :: 0 <= i < |s| ==> r[i] == s[|s| - 1 - i]
  {
    seq(|s|, i requires 0 <= i < |s| => s[|s| - 1 - i])
  }

  /** Name-reverse is name with its arguments swapped; date-reverse is date with its arguments swapped. */
  lemma ReverseIsSwapped(cmp: (string, string) -> int)
    ensures forall x, y :: Order(3, cmp)(x, y) == Order(1, cmp)(y, x)
    ensures forall x, y :: Order(4, cmp)(x, y) == Order(2, cmp)(y, x)
  {
  }

  /** Sorted by a swapped comparator is sorted by the comparator, read backwards. */
  lemma SwappedSortsBackwards<T>(s: seq<T>, order: (T, T) -> int, swapped: (T, T) -> int)
    requires forall x, y :: swapped(x, y) == order(y, x)
    ensures SortedBy(s, swapped) <==> SortedBy(Reverse(s), order)
  {
    var r := Reverse(s);
    var n := |s|;
    if SortedBy(r, order) {
      forall i, j | 0 <= i < j < n ensures swapped(s[i], s[j]) <= 0 {
        assert r[n - 1 - j] == s[j] && r[n - 1 - i] == s[i];
      }
    }
    if SortedBy(s, swapped) {
      forall i, j | 0 <= i < j < n ensures order(r[i], r[j]) <= 0 {
        assert r[i] == s[n - 1 - i] && r[j] == s[n - 1 - j];
      }
    }
  }

  /** A list sorted by name-reverse is a list sorted by name read backwards, and
      the same holds for date-reverse and date. */
  lemma ReverseOrders(s: seq<FileInfo>, cmp: (string, string) -> int)
    ensures SortedBy(s, Order(3, cmp)) <==> SortedBy(Reverse(s), Order(1, cmp))
    ensures SortedBy(s, Order(4, cmp)) <==> SortedBy(Reverse(s), Order(2, cmp))
  {
    ReverseIsSwapped(cmp);
    SwappedSortsBackwards(s, Order(1, cmp), Order(3, cmp));
    SwappedSortsBackwards(s, Order(2, cmp), Order(4, cmp));
  }

  /** Date order lists the newest file first; date-reverse the oldest. */
  lemma DateOrders(s: seq<FileInfo>, cmp: (string, string) -> int)
    ensures SortedBy(s, Order(2, cmp)) <==> forall i, j :: 0 <= i < j < |s| ==> s[i].date >= s[j].date
    ensures SortedBy(s, Order(4, cmp)) <==> forall i, j :: 0 <= i < j < |s| ==> s[i].date <= s[j].date
  {
  }

  // ---------------------------------------------------------------------------
  // Sorting in place

  /** `Array.prototype.sort` as used here: rearranges the array so that each
      pair of neighbours is in order (an insertion sort stands in for the host's
      algorithm; only this contract is relied on). */
  method SortInPlace<T(!new)>(a: array<T>, order: (T, T) -> int)
    requires Antisymmetric(order)
    modifies a
    ensures multiset(a[..]) == multiset(old(a[..]))
    ensures AdjacentSorted(a[..], order)
  {
    var i := 0;
    while i < a.Length
      invariant 0 <= i <= a.Length
      invariant multiset(a[..]) == multiset(old(a[..]))
      invariant NeighboursOrdered(a[..], order, 0, i)
    {
      InsertBackwards(a, i, order);
      i := i + 1;
    }
  }

  /** The neighbours s[k - 1], s[k] with lo < k < hi are in order. */
  ghost predicate NeighboursOrdered<T>(s: seq<T>, order: (T, T) -> int, lo: nat, hi: nat)
    requires hi <= |s|
  {
    forall k :: lo < k < hi ==> order(s[k - 1], s[k]) <= 0
  }

  /** One pass of the insertion: a[i] moves left past every neighbour that
      should follow it, leaving a[..i + 1] with ordered neighbours. */
  method InsertBackwards<T(!new)>(a: array<T>, i: nat, order: (T, T) -> int)
    requires Antisymmetric(order) && i < a.Length
    requires NeighboursOrdered(a[..], order, 0, i)
    modifies a
    ensures multiset(a[..]) == multiset(old(a[..]))
    ensures NeighboursOrdered(a[..], order, 0, i + 1)
  {
    var j := i;
    while j > 0 && order(a[j - 1], a[j]) > 0
      invariant 0 <= j <= i
      invariant multiset(a[..]) == multiset(old(a[..]))
      invariant NeighboursOrdered(a[..], order, 0, j) && NeighboursOrdered(a[..], order, j, i + 1)
      invariant 0 < j < i ==> order(a[j - 1], a[j + 1]) <= 0
    {
      SwapStep(a[..], order, i, j);
      Swap(a, j - 1, j);
      j := j - 1;
    }
    JoinNeighbours(a[..], order, j, i + 1);
  }

  /** Moving the inserted element one place left keeps both ordered runs. */
  lemma SwapStep<T(!new)>(s: seq<T>, order: (T, T) -> int, i: nat, j: nat)
    requires Antisymmetric(order) && 0 < j <= i < |s|
    requires NeighboursOrdered(s, order, 0, j) && NeighboursOrdered(s, order, j, i + 1)
    requires j < i ==> order(s[j - 1], s[j + 1]) <= 0
    requires order(s[j - 1], s[j]) > 0
    ensures var t := s[j - 1 := s[j]][j := s[j - 1]];
            && NeighboursOrdered(t, order, 0, j - 1) && NeighboursOrdered(t, order, j - 1, i + 1)
            && (0 < j - 1 < i ==> order(t[j - 2], t[j]) <= 0)
  {
    var t := s[j - 1 := s[j]][j := s[j - 1]];
    assert order(t[j - 1], t[j]) < 0;
    forall k | j - 1 < k < i + 1 ensures order(t[k - 1], t[k]) <= 0 {
      if k > j + 1 {
        assert t[k - 1] == s[k - 1] && t[k] == s[k];
      }
    }
    forall k | 0 < k < j - 1 ensures order(t[k - 1], t[k]) <= 0 {
      assert t[k - 1] == s[k - 1] && t[k] == s[k];
    }
  }

  /** Two ordered runs whose meeting neighbours are in order form one run. */
  lemma JoinNeighbours<T>(s: seq<T>, order: (T, T) -> int, j: nat, hi: nat)
    requires j < hi <= |s|
    requires NeighboursOrdered(s, order, 0, j) && NeighboursOrdered(s, order, j, hi)
    requires j > 0 ==> order(s[j - 1], s[j]) <= 0
    ensures NeighboursOrdered(s, order, 0, hi)
  {
  }

  /** Exchanges two neighbours of the array. */
  method Swap<T>(a: array<T>, i: nat, j: nat)
    requires i < j < a.Length
    modifies a
    ensures a[..] == old(a[..])[i := old(a[j])][j := old(a[i])]
    ensures multiset(a[..]) == multiset(old(a[..]))
  {
    a[i], a[j] := a[j], a[i];
  }

  /** `sortFiles`: sorts by the chosen comparator; any other option leaves the order alone. */
  method SortFiles(filesArray: array<FileInfo>, sortOption: nat, cmp: (string, string) -> int)
    requires Antisymmetric(cmp)
    modifies filesArray
    ensures multiset(filesArray[..]) == multiset(old(filesArray[..]))
    ensures 1 <= sortOption <= 5 ==> AdjacentSorted(filesArray[..], Order(sortOption, cmp))
    ensures 1 <= sortOption <= 5 && Transitive(cmp) ==> SortedBy(filesArray[..], Order(sortOption, cmp))
    ensures !(1 <= sortOption <= 5) ==> filesArray[..] == old(filesArray[..])
  {
    if 1 <= sortOption <= 5 {
      OrderAntisymmetric(sortOption, cmp);
      SortInPlace(filesArray, Order(sortOption, cmp));
      if Transitive(cmp) {
        OrderTransitive(sortOption, cmp);
        AdjacentSortedIsSorted(filesArray[..], Order(sortOption, cmp));
      }
    }
  }
}
