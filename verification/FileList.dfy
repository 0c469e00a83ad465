// The list of files to send: the rows shown, the set of paths that keeps them
// unique, and the totals under them.
module FileLists {
  import opened Tables

  // The hidden columns of a row; the list store is a sequence of rows.
  datatype Row = Row(path: string, size: int)

  // int64 addition wraps around.
  function Int64(n: int): (r: int)
    ensures -0x8000_0000_0000_0000 <= r < 0x8000_0000_0000_0000
  {
    (n + 0x8000_0000_0000_0000) % 0x1_0000_0000_0000_0000 - 0x8000_0000_0000_0000
  }

  lemma Int64Sum(a: int, b: int)
    ensures Int64(Int64(a) + b) == Int64(a + b)
    ensures -0x8000_0000_0000_0000 <= a < 0x8000_0000_0000_0000 ==> Int64(a) == a
  {
    var m, x := 0x1_0000_0000_0000_0000, a + 0x8000_0000_0000_0000;
    var q := x / 0x1_0000_0000_0000_0000;
    assert x == q * 0x1_0000_0000_0000_0000 + x % 0x1_0000_0000_0000_0000;
    assert Int64(a) == a - q * 0x1_0000_0000_0000_0000;
  }

  function Sizes(rows: seq<Row>): int {
    if rows == [] then 0 else Sizes(rows[..|rows| - 1]) + rows[|rows| - 1].size
  }

  lemma {:induction false} SizesJoin(a: seq<Row>, b: seq<Row>)
    ensures Sizes(a + b) == Sizes(a) + Sizes(b)
  {
    if b == [] {
      assert a + b == a;
    } else {
      assert (a + b)[..|a + b| - 1] == a + b[..|b| - 1];
      SizesJoin(a, b[..|b| - 1]);
    }
  }

  // The rows from index k on that are not dropped, in order
  function KeepFrom(rows: seq<Row>, k: nat, dropped: set<nat>): seq<Row>
    decreases |rows| - k
  {
    if k >= |rows| then []
    else (if k in dropped then [] else [rows[k]]) + KeepFrom(rows, k + 1, dropped)
  }

  // The dropped ones
  function DropFrom(rows: seq<Row>, k: nat, dropped: set<nat>): seq<Row>
    decreases |rows| - k
  {
    if k >= |rows| then []
    else (if k in dropped then [rows[k]] else []) + DropFrom(rows, k + 1, dropped)
  }

  lemma {:induction false} KeepUndropped(rows: seq<Row>, k: nat, j: nat, dropped: set<nat>)
    requires k <= j <= |rows|
    requires forall i :: k <= i < j ==> i !in dropped
    ensures KeepFrom(rows, k, dropped) == rows[k..j] + KeepFrom(rows, j, dropped)
    decreases j - k
  {
    if k == j {
      assert rows[k..j] == [];
    } else {
      KeepUndropped(rows, k + 1, j, dropped);
      assert KeepFrom(rows, k, dropped) == [rows[k]] + KeepFrom(rows, k + 1, dropped);
      hide KeepFrom;
      assert rows[k..j] == [rows[k]] + rows[k + 1..j];
    }
  }

  // Every kept row comes from an index that is not dropped, and the other way
  // around.
  ghost predicate KeptAt(rows: seq<Row>, k: nat, dropped: set<nat>, r: Row) {
    exists i :: k <= i < |rows| && i !in dropped && rows[i] == r
  }

  lemma {:induction false} KeepMembers(rows: seq<Row>, k: nat, dropped: set<nat>, r: Row)
    ensures r in KeepFrom(rows, k, dropped) <==> KeptAt(rows, k, dropped, r)
    decreases |rows| - k
  {
    if k < |rows| {
      KeepMembers(rows, k + 1, dropped, r);
      KeptNext(rows, k, dropped, r);
      hide KeptAt;
      KeepOne(rows, k, dropped);
      hide KeepFrom;
    }
  }

  lemma KeptNext(rows: seq<Row>, k: nat, dropped: set<nat>, r: Row)
    requires k < |rows|
    ensures KeptAt(rows, k, dropped, r) <==> KeptAt(rows, k + 1, dropped, r) || (k !in dropped && rows[k] == r)
  {
    if k !in dropped && rows[k] == r {
      assert KeptAt(rows, k, dropped, r);
    }
  }

  ghost predicate PathsDistinct(rows: seq<Row>) {
    forall i, j :: 0 <= i < j < |rows| ==> rows[i].path != rows[j].path
  }

  lemma {:induction false} KeepDistinct(rows: seq<Row>, k: nat, dropped: set<nat>)
    requires PathsDistinct(rows)
    ensures PathsDistinct(KeepFrom(rows, k, dropped))
    decreases |rows| - k
  {
    if k < |rows| {
      KeepDistinct(rows, k + 1, dropped);
      var others := KeepFrom(rows, k + 1, dropped);
      forall j | 0 <= j < |others| ensures others[j].path != rows[k].path {
        KeepMembers(rows, k + 1, dropped, others[j]);
      }
    }
  }

  ghost predicate AllKnown(rows: seq<Row>, known: set<string>) {
    forall i :: 0 <= i < |rows| ==> rows[i].path in known
  }

  // One row more, of a path that was not known before
  lemma RowAdded(rows: seq<Row>, known: set<string>, row: Row)
    requires PathsDistinct(rows) && AllKnown(rows, known) && row.path !in known
    ensures PathsDistinct(rows + [row]) && AllKnown(rows + [row], known + {row.path})
    ensures Int64(Sizes(rows + [row])) == Int64(Int64(Sizes(rows)) + row.size)
  {
    assert (rows + [row])[..|rows|] == rows;
    Int64Sum(Sizes(rows), row.size);
    hide Int64;
    hide Sizes;
  }

  // One row less: by distinctness no other row has its path.
  lemma RowRemoved(rows: seq<Row>, known: set<string>, index: nat)
    requires PathsDistinct(rows) && AllKnown(rows, known) && index < |rows|
    ensures var left := rows[..index] + rows[index + 1..];
      PathsDistinct(left) && AllKnown(left, known - {rows[index].path})
  {
    var left := rows[..index] + rows[index + 1..];
    assert forall j :: 0 <= j < |left| ==> left[j] == rows[if j < index then j else j + 1];
  }

  lemma TotalWithout(rows: seq<Row>, index: nat)
    requires index < |rows|
    ensures Int64(Sizes(rows[..index] + rows[index + 1..])) == Int64(Int64(Sizes(rows)) - rows[index].size)
  {
    hide Sizes;
    SizesWithout(rows, index);
    Int64Sum(Sizes(rows), -rows[index].size);
    hide Int64;
  }

  lemma SplitAt(rows: seq<Row>, index: nat)
    requires index < |rows|
    ensures rows == rows[..index] + ([rows[index]] + rows[index + 1..])
  {
  }

  lemma SizesWithout(rows: seq<Row>, index: nat)
    requires index < |rows|
    ensures Sizes(rows[..index] + rows[index + 1..]) == Sizes(rows) - rows[index].size
  {
    hide Sizes;
    SplitAt(rows, index);
    SizesJoin(rows[..index], [rows[index]] + rows[index + 1..]);
    SizesCons(rows[index], rows[index + 1..]);
    SizesJoin(rows[..index], rows[index + 1..]);
  }

  lemma SizesCons(row: Row, rows: seq<Row>)
    ensures Sizes([row] + rows) == row.size + Sizes(rows)
  {
    assert Sizes([row]) == row.size;
    hide Sizes;
    SizesJoin([row], rows);
  }

  class FileList {
    var fileMap: set<string>
    var rows: seq<Row>
    var totalFileSize: int
    var totalFileCount: int

    // Paths are shown once and only when they are in the map; the totals are
    // those of the rows.
    ghost predicate Valid()
      reads this
    {
      && PathsDistinct(rows)
      && AllKnown(rows, fileMap)
      && totalFileCount == |rows|
      && totalFileSize == Int64(Sizes(rows))
    }

    ghost function Listed(): Listing
      reads this
    {
      Listing(rows, fileMap)
    }

    constructor ()
      ensures Valid() && rows == [] && fileMap == {}
    {
      fileMap, rows, totalFileSize, totalFileCount := {}, [], 0, 0;
    }

    // One file of a batch: skipped when its path is known; remembered, but not
    // shown, when its size cannot be read.
    method AddFile(fileName: string, stat: string -> Option<int>)
      requires Valid()
      modifies this
      ensures Valid() && fileMap == old(fileMap) + {fileName}
      ensures rows == if fileName in old(fileMap) || stat(fileName) == None then old(rows)
                      else old(rows) + [Row(fileName, stat(fileName).value)]
    {
      if fileName in fileMap {
        return;
      }
      fileMap := fileMap + {fileName};
      var s := stat(fileName);
      if s == None {
        return;
      }
      hide PathsDistinct;
      hide Sizes;
      hide Int64;
      RowAdded(rows, old(fileMap), Row(fileName, s.value));
      rows := rows + [Row(fileName, s.value)];
      totalFileSize := Int64(totalFileSize + s.value);
      totalFileCount := totalFileCount + 1;
    }

    // A batch appends the rows of its new paths in order, each once.
    method AddFilesToListStore(fileNames: seq<string>, stat: string -> Option<int>)
      requires Valid()
      modifies this
      ensures Valid() && Listed() == Apply(old(Listed()), Add(fileNames, stat))
    {
      hide PathsDistinct;
      hide AllKnown;
      hide Sizes;
      hide Int64;
      hide NewRows;
      hide Names;
      NothingAdded(stat, fileMap);
      assert fileNames[..0] == [];
      for i := 0 to |fileNames|
        invariant Valid() && fileMap == old(fileMap) + Names(fileNames[..i])
        invariant rows == old(rows) + NewRows(fileNames[..i], stat, old(fileMap))
      {
        BatchNext(fileNames, i, stat, old(fileMap));
        AddFile(fileNames[i], stat);
      }
      assert fileNames[..|fileNames|] == fileNames;
    }

    // One selected row, by its index: left alone if it is not there or cannot
    // be read.
    method RemoveFile(index: nat, readable: bool)
      requires Valid()
      modifies this
      ensures Valid()
      ensures if index < |old(rows)| && readable
              then
                && rows == old(rows)[..index] + old(rows)[index + 1..]
                && fileMap == old(fileMap) - {old(rows)[index].path}
              else rows == old(rows) && fileMap == old(fileMap)
    {
      if index >= |rows| || !readable {
        return;
      }
      hide PathsDistinct;
      hide Sizes;
      hide Int64;
      var row := rows[index];
      RowRemoved(rows, fileMap, index);
      TotalWithout(rows, index);
      fileMap := fileMap - {row.path};
      rows := rows[..index] + rows[index + 1..];
      totalFileSize := Int64(totalFileSize - row.size);
      totalFileCount := totalFileCount - 1;
    }

    // Deletes the selected rows by the indices they had before, last one first.
    // `selected` lists the indices in ascending order, as the selection does.
    method RemoveSelectedFiles(selected: seq<nat>, readable: nat -> bool)
      requires Valid() && forall i, j :: 0 <= i < j < |selected| ==> selected[i] < selected[j]
      modifies this
      ensures Valid()
      ensures Listed() == Apply(old(Listed()), Remove(selected, readable))
      ensures var dropped := Dropped(selected, readable, |old(rows)|);
        && totalFileCount == old(totalFileCount) - |dropped|
        && totalFileSize == Int64(old(totalFileSize) - Sizes(DropFrom(old(rows), 0, dropped)))
    {
      hide KeepFrom;
      hide Paths;
      hide Dropped;
      hide Sizes;
      ghost var all, dropped, known := rows, Dropped(selected, readable, |rows|), fileMap;
      ghost var next: nat := |rows|;
      NothingCleared(all, known, dropped);
      var left := |selected|;
      while left > 0
        invariant 0 <= left <= |selected| && next <= |all|
        invariant forall j :: 0 <= j < left ==> selected[j] < next || next == |all|
        invariant forall j :: left <= j < |selected| ==> selected[j] >= next
        invariant Valid() && Cleared(all, known, dropped, next, rows, fileMap)
      {
        left := left - 1;
        var index := selected[left];
        ghost var rowsBefore, mapBefore := rows, fileMap;
        RemoveFile(index, readable(index));
        if index < |all| {
          SkipUnselected(selected, left, readable, |all|, next);
          ClearedNext(all, known, dropped, next, rowsBefore, mapBefore, index);
          next := index;
        } else {
          ClearedShorter(all, known, dropped, next, rowsBefore, mapBefore);
        }
      }
      NoneSelected(selected, readable, |all|, next);
      AllCleared(all, known, dropped, next, rows, fileMap);
      Int64Sum(Sizes(all), -Sizes(DropFrom(all, 0, dropped)));
    }
  }

  // From index `next` on, the dropped rows and their paths are gone.
  ghost predicate Cleared(all: seq<Row>, known: set<string>, dropped: set<nat>, next: nat, rows: seq<Row>,
                          fileMap: set<string>) {
    next <= |all| && rows == all[..next] + KeepFrom(all, next, dropped) && fileMap == known - Paths(all, dropped, next)
  }

  lemma NothingCleared(all: seq<Row>, known: set<string>, dropped: set<nat>)
    ensures Cleared(all, known, dropped, |all|, all, known)
  {
    assert all[..|all|] + [] == all;
    assert Paths(all, dropped, |all|) == {};
  }

  lemma ClearedShorter(all: seq<Row>, known: set<string>, dropped: set<nat>, next: nat, rows: seq<Row>,
                       fileMap: set<string>)
    requires Cleared(all, known, dropped, next, rows, fileMap)
    ensures |rows| <= |all|
  {
    KeepShorter(all, next, dropped);
  }

  // With nothing dropped in between, the row at a lower index is still there.
  lemma ClearedUpTo(all: seq<Row>, known: set<string>, dropped: set<nat>, next: nat,
                    rows: seq<Row>, fileMap: set<string>, index: nat)
    requires Cleared(all, known, dropped, next, rows, fileMap) && index < next
    requires forall i :: index < i < next ==> i !in dropped
    ensures rows == all[..index] + ([all[index]] + KeepFrom(all, index + 1, dropped))
  {
    KeepUndropped(all, index + 1, next, dropped);
    hide KeepFrom;
    hide Paths;
    assert all[..next] == all[..index] + ([all[index]] + all[index + 1..next]);
  }

  lemma WithoutMiddle(before: seq<Row>, row: Row, after: seq<Row>)
    ensures var rows := before + ([row] + after);
      |before| < |rows| && rows[|before|] == row && rows[..|before|] + rows[|before| + 1..] == before + after
  {
    var rows := before + ([row] + after);
    assert rows[..|before|] == before && rows[|before| + 1..] == after;
  }

  lemma ClearedNext(all: seq<Row>, known: set<string>, dropped: set<nat>, next: nat,
                    rows: seq<Row>, fileMap: set<string>, index: nat)
    requires Cleared(all, known, dropped, next, rows, fileMap) && index < next
    requires forall i :: index < i < next ==> i !in dropped
    ensures index < |rows| && rows[index] == all[index]
    ensures if index in dropped
            then Cleared(all, known, dropped, index, rows[..index] + rows[index + 1..], fileMap - {all[index].path})
            else Cleared(all, known, dropped, index, rows, fileMap)
  {
    hide Paths;
    hide KeepFrom;
    var later := KeepFrom(all, index + 1, dropped);
    ClearedUpTo(all, known, dropped, next, rows, fileMap, index);
    PathsFrom(all, dropped, index, next);
    KeepOne(all, index, dropped);
    WithoutMiddle(all[..index], all[index], later);
    assert |all[..index]| == index;
  }

  lemma KeepOne(rows: seq<Row>, k: nat, dropped: set<nat>)
    requires k < |rows|
    ensures KeepFrom(rows, k, dropped) ==
            if k in dropped then KeepFrom(rows, k + 1, dropped) else [rows[k]] + KeepFrom(rows, k + 1, dropped)
  {
    assert [] + KeepFrom(rows, k + 1, dropped) == KeepFrom(rows, k + 1, dropped);
  }

  lemma AllCleared(all: seq<Row>, known: set<string>, dropped: set<nat>, next: nat, rows: seq<Row>,
                   fileMap: set<string>)
    requires Cleared(all, known, dropped, next, rows, fileMap)
    requires forall i :: 0 <= i < next ==> i !in dropped
    requires forall i :: i in dropped ==> i < |all|
    ensures rows == KeepFrom(all, 0, dropped) && fileMap == known - Paths(all, dropped, 0)
    ensures |rows| == |all| - |dropped| && Sizes(rows) == Sizes(all) - Sizes(DropFrom(all, 0, dropped))
  {
    KeepUndropped(all, 0, next, dropped);
    NothingDropped(all, dropped, next);
    KeepCount(all, 0, dropped);
    KeepSizes(all, 0, dropped);
    assert all[0..] == all && all[0..next] == all[..next];
  }

  // The paths of the dropped rows from index k on
  function Paths(rows: seq<Row>, dropped: set<nat>, k: nat): set<string> {
    set i | i in dropped && k <= i < |rows| :: rows[i].path
  }

  lemma SkipUnselected(selected: seq<nat>, left: nat, readable: nat -> bool, count: nat, next: nat)
    requires left < |selected| && selected[left] < count
    ensures selected[left] in Dropped(selected, readable, count) <==> readable(selected[left])
    requires forall i, j :: 0 <= i < j < |selected| ==> selected[i] < selected[j]
    requires forall j :: left < j < |selected| ==> selected[j] >= next
    ensures forall i :: selected[left] < i < next ==> i !in Dropped(selected, readable, count)
  {
    forall i: nat | selected[left] < i < next ensures i !in selected {
      forall j | 0 <= j < |selected| ensures selected[j] != i {
        if j < left {
          assert selected[j] < selected[left];
        }
      }
    }
  }

  lemma NoneSelected(selected: seq<nat>, readable: nat -> bool, count: nat, next: nat)
    requires forall j :: 0 <= j < |selected| ==> selected[j] >= next
    ensures forall i :: 0 <= i < next ==> i !in Dropped(selected, readable, count)
    ensures forall i :: i in Dropped(selected, readable, count) ==> i < count
  {
  }

  lemma NothingDropped(rows: seq<Row>, dropped: set<nat>, next: nat)
    requires forall i :: 0 <= i < next ==> i !in dropped
    ensures Paths(rows, dropped, next) == Paths(rows, dropped, 0)
  {
    forall p | p in Paths(rows, dropped, 0) ensures p in Paths(rows, dropped, next) {
      var i :| i in dropped && 0 <= i < |rows| && rows[i].path == p;
      assert next <= i;
    }
  }

  lemma PathsFrom(rows: seq<Row>, dropped: set<nat>, index: nat, next: nat)
    requires index < next <= |rows| && forall i :: index < i < next ==> i !in dropped
    ensures Paths(rows, dropped, index) ==
      Paths(rows, dropped, next) + (if index in dropped then {rows[index].path} else {})
  {
    forall p | p in Paths(rows, dropped, index)
      ensures p in Paths(rows, dropped, next) || (index in dropped && p == rows[index].path)
    {
      var i :| i in dropped && index <= i < |rows| && rows[i].path == p;
      assert i == index || next <= i;
    }
    if index in dropped {
      assert rows[index].path in Paths(rows, dropped, index);
    }
  }

  lemma {:induction false} KeepShorter(rows: seq<Row>, k: nat, dropped: set<nat>)
    ensures |KeepFrom(rows, k, dropped)| <= if k <= |rows| then |rows| - k else 0
    decreases |rows| - k
  {
    if k < |rows| {
      KeepShorter(rows, k + 1, dropped);
    }
  }

  lemma {:induction false} KeepCount(rows: seq<Row>, k: nat, dropped: set<nat>)
    requires k <= |rows| && forall i :: i in dropped ==> i < |rows|
    ensures |KeepFrom(rows, k, dropped)| + |set i | i in dropped && i >= k| == |rows| - k
    ensures k == 0 ==> |KeepFrom(rows, k, dropped)| + |dropped| == |rows|
    decreases |rows| - k
  {
    var from := set i | i in dropped && i >= k;
    if k < |rows| {
      KeepCount(rows, k + 1, dropped);
      var later := set i | i in dropped && i >= k + 1;
      assert from == if k in dropped then later + {k} else later;
    } else {
      assert from == {};
    }
    if k == 0 {
      assert from == dropped;
    }
  }

  // The sizes of the rows are those of the kept and those of the dropped ones.
  lemma {:induction false} KeepSizes(rows: seq<Row>, k: nat, dropped: set<nat>)
    requires k <= |rows|
    ensures Sizes(KeepFrom(rows, k, dropped)) + Sizes(DropFrom(rows, k, dropped)) == Sizes(rows[k..])
    decreases |rows| - k
  {
    if k == |rows| {
      assert rows[k..] == [];
    } else {
      KeepSizesNext(rows, k, dropped);
      hide Sizes;
      hide KeepFrom;
      hide DropFrom;
      KeepSizes(rows, k + 1, dropped);
    }
  }

  lemma KeepSizesNext(rows: seq<Row>, k: nat, dropped: set<nat>)
    requires k < |rows|
    ensures Sizes(KeepFrom(rows, k, dropped)) + Sizes(DropFrom(rows, k, dropped)) ==
            rows[k].size + Sizes(KeepFrom(rows, k + 1, dropped)) + Sizes(DropFrom(rows, k + 1, dropped))
    ensures Sizes(rows[k..]) == rows[k].size + Sizes(rows[k + 1..])
  {
    hide Sizes;
    hide KeepFrom;
    hide DropFrom;
    KeepOne(rows, k, dropped);
    DropOne(rows, k, dropped);
    SizesCons(rows[k], KeepFrom(rows, k + 1, dropped));
    SizesCons(rows[k], DropFrom(rows, k + 1, dropped));
    SizesCons(rows[k], rows[k + 1..]);
    assert rows[k..] == [rows[k]] + rows[k + 1..];
  }

  lemma DropOne(rows: seq<Row>, k: nat, dropped: set<nat>)
    requires k < |rows|
    ensures DropFrom(rows, k, dropped) ==
            if k in dropped then [rows[k]] + DropFrom(rows, k + 1, dropped) else DropFrom(rows, k + 1, dropped)
  {
    assert [] + DropFrom(rows, k + 1, dropped) == DropFrom(rows, k + 1, dropped);
  }

  function Names(fileNames: seq<string>): set<string> {
    set n | n in fileNames
  }

  // The rows a batch adds to a list that knows the paths `known`
  function NewRows(fileNames: seq<string>, stat: string -> Option<int>, known: set<string>): seq<Row> {
    if fileNames == [] then [] else
    var before, last := fileNames[..|fileNames| - 1], fileNames[|fileNames| - 1];
    NewRows(before, stat, known) +
    (if last in known || last in before || stat(last) == None then [] else [Row(last, stat(last).value)])
  }

  lemma NothingAdded(stat: string -> Option<int>, known: set<string>)
    ensures Names([]) == {} && NewRows([], stat, known) == []
  {
  }

  // A batch shows its i-th path after the ones before it, unless it is known or
  // one of these.
  lemma BatchNext(fileNames: seq<string>, i: nat, stat: string -> Option<int>, known: set<string>)
    requires i < |fileNames|
    ensures Names(fileNames[..i + 1]) == Names(fileNames[..i]) + {fileNames[i]}
    ensures NewRows(fileNames[..i + 1], stat, known) == NewRows(fileNames[..i], stat, known) +
      (if fileNames[i] in known + Names(fileNames[..i]) || stat(fileNames[i]) == None then []
       else [Row(fileNames[i], stat(fileNames[i]).value)])
  {
    assert fileNames[..i + 1][..i] == fileNames[..i];
    assert fileNames[..i + 1] == fileNames[..i] + [fileNames[i]];
  }

  function Dropped(selected: seq<nat>, readable: nat -> bool, count: nat): set<nat> {
    set i | i in selected && i < count && readable(i)
  }

  // Runs of batches, on the rows and the set of known paths

  datatype Listing = Listing(rows: seq<Row>, known: set<string>)

  datatype Batch =
    | Add(fileNames: seq<string>, stat: string -> Option<int>)
    | Remove(selected: seq<nat>, readable: nat -> bool)

  function Apply(l: Listing, b: Batch): Listing {
    match b
    case Add(fileNames, stat) => Listing(l.rows + NewRows(fileNames, stat, l.known), l.known + Names(fileNames))
    case Remove(selected, readable) =>
      var dropped := Dropped(selected, readable, |l.rows|);
      Listing(KeepFrom(l.rows, 0, dropped), l.known - Paths(l.rows, dropped, 0))
  }

  function ApplyAll(l: Listing, bs: seq<Batch>): Listing
    decreases |bs|
  {
    if bs == [] then l else ApplyAll(Apply(l, bs[0]), bs[1..])
  }

  predicate Shown(l: Listing, path: string) {
    exists i :: 0 <= i < |l.rows| && l.rows[i].path == path
  }

  ghost predicate ListingInv(l: Listing) {
    PathsDistinct(l.rows) && AllKnown(l.rows, l.known)
  }

  lemma {:induction false} NewRowsExact(fileNames: seq<string>, stat: string -> Option<int>, known: set<string>)
    ensures PathsDistinct(NewRows(fileNames, stat, known))
    ensures forall r :: r in NewRows(fileNames, stat, known) <==>
      r.path in fileNames && r.path !in known && stat(r.path) == Some(r.size)
  {
    if fileNames != [] {
      NewRowsExact(fileNames[..|fileNames| - 1], stat, known);
    }
  }

  lemma BatchKeepsInv(l: Listing, b: Batch)
    requires ListingInv(l)
    ensures ListingInv(Apply(l, b))
  {
    match b
    case Add(fileNames, stat) =>
      NewRowsExact(fileNames, stat, l.known);
      var added := NewRows(fileNames, stat, l.known);
      forall j | 0 <= j < |added| ensures added[j].path !in l.known && added[j].path in fileNames {
        assert added[j] in added;
      }
    case Remove(selected, readable) =>
      var dropped := Dropped(selected, readable, |l.rows|);
      KeepDistinct(l.rows, 0, dropped);
      var kept := KeepFrom(l.rows, 0, dropped);
      forall j | 0 <= j < |kept| ensures kept[j].path in l.known - Paths(l.rows, dropped, 0) {
        KeepMembers(l.rows, 0, dropped, kept[j]);
        assert kept[j] in kept;
      }
  }

  // After any batches from the empty list, paths are shown once, and only paths
  // that the map knows.
  lemma {:induction false} RunsKeepInv(l: Listing, bs: seq<Batch>)
    requires ListingInv(l)
    ensures ListingInv(ApplyAll(l, bs))
    decreases |bs|
  {
    if bs != [] {
      BatchKeepsInv(l, bs[0]);
      RunsKeepInv(Apply(l, bs[0]), bs[1..]);
    }
  }

  // A path is shown by an add batch exactly when it was shown before or is in
  // the batch, unknown, and of readable size.
  lemma AddShowsExactly(l: Listing, fileNames: seq<string>, stat: string -> Option<int>, path: string)
    ensures Shown(Apply(l, Add(fileNames, stat)), path) <==>
            Shown(l, path) || (path in fileNames && path !in l.known && stat(path) != None)
  {
    NewRowsExact(fileNames, stat, l.known);
    var added := NewRows(fileNames, stat, l.known);
    var t := Apply(l, Add(fileNames, stat));
    assert t.rows == l.rows + added;
    if Shown(l, path) {
      var i :| 0 <= i < |l.rows| && l.rows[i].path == path;
      assert t.rows[i].path == path;
    } else if path in fileNames && path !in l.known && stat(path) != None {
      assert Row(path, stat(path).value) in added;
      var j :| 0 <= j < |added| && added[j] == Row(path, stat(path).value);
      assert t.rows[|l.rows| + j].path == path;
    }
  }

  // `out` lists the rows with the indices `kept`: in ascending order exactly
  // those from k on that are not dropped.
  ghost predicate Picks(rows: seq<Row>, k: nat, dropped: set<nat>, out: seq<Row>, kept: seq<nat>) {
    && |kept| == |out|
    && (forall j :: 0 <= j < |kept| ==> k <= kept[j] < |rows| && out[j] == rows[kept[j]])
    && (forall i, j :: 0 <= i < j < |kept| ==> kept[i] < kept[j])
    && (forall i :: k <= i < |rows| ==> (i in kept <==> i !in dropped))
  }

  lemma PicksSkip(rows: seq<Row>, k: nat, dropped: set<nat>, out: seq<Row>, kept: seq<nat>)
    requires k < |rows| && Picks(rows, k + 1, dropped, out, kept) && k in dropped
    ensures Picks(rows, k, dropped, out, kept)
  {
    assert forall j :: 0 <= j < |kept| ==> kept[j] != k;
  }

  lemma PicksOne(rows: seq<Row>, k: nat, dropped: set<nat>, out: seq<Row>, kept: seq<nat>)
    requires k < |rows| && Picks(rows, k + 1, dropped, out, kept) && k !in dropped
    ensures Picks(rows, k, dropped, [rows[k]] + out, [k] + kept)
  {
    forall i | k <= i < |rows| ensures i in [k] + kept <==> i !in dropped {
      assert i in [k] + kept <==> i == k || i in kept;
    }
  }

  lemma {:induction false} KeepIndices(rows: seq<Row>, k: nat, dropped: set<nat>) returns (kept: seq<nat>)
    requires k <= |rows|
    ensures Picks(rows, k, dropped, KeepFrom(rows, k, dropped), kept)
    decreases |rows| - k
  {
    if k == |rows| {
      return [];
    }
    hide Picks;
    hide KeepFrom;
    kept := KeepIndices(rows, k + 1, dropped);
    KeepOne(rows, k, dropped);
    if k in dropped {
      PicksSkip(rows, k, dropped, KeepFrom(rows, k + 1, dropped), kept);
    } else {
      PicksOne(rows, k, dropped, KeepFrom(rows, k + 1, dropped), kept);
      kept := [k] + kept;
    }
  }

  // Removing leaves, in their order, exactly the rows that were not selected or
  // could not be read, and forgets exactly the paths of the others.
  lemma RemovedExactly(l: Listing, selected: seq<nat>, readable: nat -> bool) returns (kept: seq<nat>)
    ensures var t := Apply(l, Remove(selected, readable));
      && |kept| == |t.rows| && (forall j :: 0 <= j < |kept| ==> kept[j] < |l.rows| && t.rows[j] == l.rows[kept[j]])
      && (forall p :: p in t.known <==>
           p in l.known && !(exists i :: i in selected && i < |l.rows| && readable(i) && l.rows[i].path == p))
    ensures forall i, j :: 0 <= i < j < |kept| ==> kept[i] < kept[j]
    ensures forall i :: 0 <= i < |l.rows| ==> (i in kept <==> !(i in selected && readable(i)))
  {
    var dropped := Dropped(selected, readable, |l.rows|);
    kept := KeepIndices(l.rows, 0, dropped);
    forall i | i in selected && i < |l.rows| && readable(i) ensures l.rows[i].path in Paths(l.rows, dropped, 0) {
      assert i in dropped;
    }
    hide KeepFrom;
  }

  // A removed row is gone from the list and from the map, so its path can be
  // added again.
  lemma RemovedCanReturn(l: Listing, selected: seq<nat>, readable: nat -> bool, i: nat)
    requires ListingInv(l) && i < |l.rows| && i in selected && readable(i)
    ensures var t := Apply(l, Remove(selected, readable));
      l.rows[i].path !in t.known && !Shown(t, l.rows[i].path)
  {
    BatchKeepsInv(l, Remove(selected, readable));
    assert i in Dropped(selected, readable, |l.rows|);
    assert l.rows[i].path in Paths(l.rows, Dropped(selected, readable, |l.rows|), 0);
  }

  // A path that is known but not shown, as after a failed size query, is never
  // shown again, whatever is added or removed.
  lemma {:induction false} HiddenForever(l: Listing, path: string, bs: seq<Batch>)
    requires path in l.known && !Shown(l, path)
    ensures path in ApplyAll(l, bs).known && !Shown(ApplyAll(l, bs), path)
    decreases |bs|
  {
    if bs != [] {
      var t := Apply(l, bs[0]);
      match bs[0] {
        case Add(fileNames, stat) => AddShowsExactly(l, fileNames, stat, path);
        case Remove(selected, readable) =>
          if Shown(t, path) {
            var i :| 0 <= i < |t.rows| && t.rows[i].path == path;
            KeepMembers(l.rows, 0, Dropped(selected, readable, |l.rows|), t.rows[i]);
          }
      }
      HiddenForever(t, path, bs[1..]);
    }
  }

  // How a path gets there: added to the empty list while its size cannot be
  // read, it is never shown after any batches, though its size be read later.
  lemma UnreadableHiddenForever(fileNames: seq<string>, stat: string -> Option<int>, path: string, bs: seq<Batch>)
    requires path in fileNames && stat(path) == None
    ensures !Shown(ApplyAll(Listing([], {}), [Add(fileNames, stat)] + bs), path)
  {
    var empty := Listing([], {});
    var run := [Add(fileNames, stat)] + bs;
    AddShowsExactly(empty, fileNames, stat, path);
    assert run[0] == Add(fileNames, stat) && run[1..] == bs;
    HiddenForever(Apply(empty, Add(fileNames, stat)), path, bs);
  }
}
