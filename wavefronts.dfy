// The list of loaded wavefronts in the surface analysis dock
// (surfaceanalysistools.cpp): the item texts of the list widget, the
// shortened names it shows, renaming, deletion and the order in which a
// multiple selection is handed over for deletion.

module Names {
  /** A piece of a name with no slash in it. */
  predicate Plain(t: string)
  {
    forall m :: 0 <= m < |t| ==> t[m] != '/'
  }

  /** The slash-free pieces of a split. */
  predicate NoSlash(parts: seq<string>)
  {
    forall k :: 0 <= k < |parts| ==> Plain(parts[k])
  }

  /** The position of the last slash of a name that has one. */
  function LastSlash(s: string): (i: nat)
    requires !Plain(s)
    ensures i < |s| && s[i] == '/' && Plain(s[i + 1..])
    decreases |s|
  {
    var n := |s| - 1;
    if s[n] == '/' then n
    else
      assert s == s[..n] + [s[n]];
      var i := LastSlash(s[..n]);
      assert s[i + 1..] == s[..n][i + 1..] + [s[n]];
      i
  }

  /** `QString::split('/')` with empty pieces kept: the pieces between the
      slashes, from left to right. */
  function Split(s: string): (parts: seq<string>)
    ensures |parts| >= 1
    ensures |parts| > 1 <==> !Plain(s)
    decreases |s|
  {
    if Plain(s) then [s]
    else
      var i := LastSlash(s);
      Split(s[..i]) + [s[i + 1..]]
  }

  /** No piece of a split holds a slash. */
  lemma {:induction false} SplitPieces(s: string)
    ensures NoSlash(Split(s))
    decreases |s|
  {
    if !Plain(s) {
      var i := LastSlash(s);
      SplitPieces(s[..i]);
      var p := Split(s[..i]);
      assert Split(s) == p + [s[i + 1..]];
    }
  }

  /** `QStringList::join('/')`. */
  function Join(parts: seq<string>): string
    requires |parts| >= 1
  {
    if |parts| == 1 then parts[0]
    else Join(parts[..|parts| - 1]) + "/" + parts[|parts| - 1]
  }

  /** Joining the pieces of a split gives back the name. */
  lemma {:induction false} JoinSplit(s: string)
    ensures Join(Split(s)) == s
    decreases |s|
  {
    if !Plain(s) {
      var i := LastSlash(s);
      JoinSplit(s[..i]);
      var p := Split(s[..i]);
      assert (p + [s[i + 1..]])[..|p|] == p;
      assert s == s[..i] + "/" + s[i + 1..];
    }
  }

  /** The slash put between a name and a slash-free piece is the last. */
  lemma LastSlashBefore(j: string, last: string)
    requires Plain(last)
    ensures var s := j + "/" + last;
      !Plain(s) && LastSlash(s) == |j|
  {
    var s := j + "/" + last;
    assert s[|j|] == '/';
    var i := LastSlash(s);
    forall m | i < m < |s|
      ensures s[m] != '/'
    {
      assert s[m] == s[i + 1..][m - i - 1];
    }
    forall m | |j| < m < |s|
      ensures s[m] != '/'
    {
      assert s[m] == last[m - |j| - 1];
    }
  }

  /** Splitting a name, a slash and a slash-free piece splits the name and
      appends the piece. */
  lemma SplitAround(j: string, last: string)
    requires Plain(last)
    ensures Split(j + "/" + last) == Split(j) + [last]
  {
    var s := j + "/" + last;
    LastSlashBefore(j, last);
    assert s[..|j|] == j;
    assert s[|j| + 1..] == last;
  }

  /** Splitting what was joined gives back the slash-free pieces: `Split`
      and `Join` are inverse to each other. */
  lemma {:induction false} SplitJoin(parts: seq<string>)
    requires |parts| >= 1 && NoSlash(parts)
    ensures Split(Join(parts)) == parts
    decreases |parts|
  {
    var n := |parts|;
    if n > 1 {
      var init := parts[..n - 1];
      SplitJoin(init);
      SplitAround(Join(init), parts[n - 1]);
      assert parts == init + [parts[n - 1]];
    }
  }

  /** The name the list shows for a wavefront path: the last two
      `/`-separated pieces joined by one `/`, or the whole name when it has
      no slash (`addWaveFront` and `nameChanged`). */
  function Shorten(name: string): (r: string)
  {
    var list := Split(name);
    if |list| > 1 then list[|list| - 2] + "/" + list[|list| - 1] else name
  }

  /** `QString::endsWith`, case-sensitive. */
  predicate EndsWith(text: string, suffix: string)
  {
    |suffix| <= |text| && text[|text| - |suffix|..] == suffix
  }


  /** A name with a slash splits into the pieces before its last slash
      and the piece after it. */
  lemma SplitStep(s: string)
    requires !Plain(s)
    ensures Split(s) == Split(s[..LastSlash(s)]) + [s[LastSlash(s) + 1..]]
  {
  }

  /** The shortened form of a path: the last piece before its last slash,
      a slash, and the piece after it. */
  lemma ShortenOfPath(name: string)
    requires !Plain(name)
    ensures var i := LastSlash(name);
      var p := Split(name[..i]);
      Shorten(name) == p[|p| - 1] + "/" + name[i + 1..]
  {
    var i := LastSlash(name);
    var p := Split(name[..i]);
    var list := Split(name);
    SplitStep(name);
    assert list[|list| - 2] == p[|p| - 1];
    assert list[|list| - 1] == name[i + 1..];
  }

  /** A name without a slash is shown unchanged. */
  lemma ShortenPlain(name: string)
    requires Plain(name)
    ensures Shorten(name) == name
  {
    assert Split(name) == [name];
  }




  /** Where the last piece of a name starts. */
  function PieceStart(s: string): (k: nat)
    ensures k <= |s|
  {
    if Plain(s) then 0 else LastSlash(s) + 1
  }

  /** The last piece of a split is the name from `PieceStart` on. */
  lemma LastPiece(s: string)
    ensures var p := Split(s);
      p[|p| - 1] == s[PieceStart(s)..]
  {
    if !Plain(s) {
      var i := LastSlash(s);
      assert Split(s)[|Split(s)| - 1] == s[i + 1..];
    }
  }

  /** Where the shortened name starts within the name: at the start of the
      piece before the last slash, or at 0 for a name without a slash. */
  function ShortStart(name: string): (k: nat)
    ensures k <= |name|
  {
    if Plain(name) then 0 else PieceStart(name[..LastSlash(name)])
  }

  /** Cutting a name at a slash and putting the slash back. */
  lemma SliceAtSlash(name: string, c: nat, i: nat)
    requires c <= i < |name| && name[i] == '/'
    ensures name[c..] == name[..i][c..] + "/" + name[i + 1..]
  {
  }

  /** For a path, the shortened name is the name from `ShortStart` on. */
  lemma ShortenPathIsTail(name: string)
    requires !Plain(name)
    ensures Shorten(name) == name[ShortStart(name)..]
  {
    var i := LastSlash(name);
    var head := name[..i];
    ShortenOfPath(name);
    LastPiece(head);
    SliceAtSlash(name, PieceStart(head), i);
  }

  /** The shortened name is the name from `ShortStart` on. */
  lemma ShortenIsTail(name: string)
    ensures Shorten(name) == name[ShortStart(name)..]
  {
    if Plain(name) {
      ShortenPlain(name);
    } else {
      ShortenPathIsTail(name);
    }
  }

  /** The shortened name is always a suffix of the name. */
  lemma ShortenSuffix(name: string)
    ensures EndsWith(name, Shorten(name))
  {
    var k := ShortStart(name);
    ShortenIsTail(name);
    assert |name[k..]| == |name| - k;
  }

  /** A shortened path splits into exactly the last two pieces of the path. */
  lemma ShortenPieces(name: string)
    requires !Plain(name)
    ensures var p := Split(name);
      Split(Shorten(name)) == p[|p| - 2..]
  {
    var p := Split(name);
    var n := |p|;
    SplitPieces(name);
    SplitAround(p[n - 2], p[n - 1]);
    assert Split(p[n - 2]) == [p[n - 2]];
    assert p[n - 2..] == [p[n - 2], p[n - 1]];
  }

  /** Shortening a shortened name changes nothing. */
  lemma ShortenIdempotent(name: string)
    ensures Shorten(Shorten(name)) == Shorten(name)
  {
    if !Plain(name) {
      ShortenPieces(name);
    } else {
      ShortenPlain(name);
      ShortenPlain(name);
    }
  }
}

module WavefrontList {
  import opened Names

  /** The two match modes `findItems` is called with. */
  datatype MatchMode = Exactly | EndingWith

  predicate Matches(text: string, pattern: string, mode: MatchMode)
  {
    match mode
    case Exactly => text == pattern
    case EndingWith => EndsWith(text, pattern)
  }

  /** `QListWidget::findItems`: the rows whose text matches, in row order. */
  function FindItems(items: seq<string>, pattern: string, mode: MatchMode): (rows: seq<int>)
    ensures forall k :: 0 <= k < |rows| ==> 0 <= rows[k] < |items| && Matches(items[rows[k]], pattern, mode)
    ensures forall i :: 0 <= i < |items| && Matches(items[i], pattern, mode) ==> i in rows
    ensures forall a, b :: 0 <= a < b < |rows| ==> rows[a] < rows[b]
    ensures (forall i :: 0 <= i < |items| ==> !Matches(items[i], pattern, mode)) ==> rows == []
  {
    var hits := seq(|items|, i requires 0 <= i < |items| => Matches(items[i], pattern, mode));
    PositionsComplete(hits, 0);
    Positions(hits, 0)
  }

  /** The positions, from `from` on, at which `hits` holds. */
  function Positions(hits: seq<bool>, from: nat): (rows: seq<int>)
    requires from <= |hits|
    ensures forall k :: 0 <= k < |rows| ==> from <= rows[k] < |hits| && hits[rows[k]]
    ensures forall a, b :: 0 <= a < b < |rows| ==> rows[a] < rows[b]
    ensures (forall i :: from <= i < |hits| ==> !hits[i]) ==> rows == []
    decreases |hits| - from
  {
    if from == |hits| then []
    else
      var rest := Positions(hits, from + 1);
      if hits[from] then [from] + rest else rest
  }

  /** Every position at which `hits` holds is found. */
  lemma {:induction false} PositionsComplete(hits: seq<bool>, from: nat)
    requires from <= |hits|
    ensures forall i :: from <= i < |hits| && hits[i] ==> i in Positions(hits, from)
    decreases |hits| - from
  {
    if from < |hits| {
      PositionsComplete(hits, from + 1);
    }
  }

  /** The first row found is the first matching row. */
  lemma FirstMatch(items: seq<string>, pattern: string, mode: MatchMode)
    requires FindItems(items, pattern, mode) != []
    ensures var k := FindItems(items, pattern, mode)[0];
      forall j :: 0 <= j < k ==> !Matches(items[j], pattern, mode)
  {
    var rows := FindItems(items, pattern, mode);
    forall j | 0 <= j < rows[0]
      ensures !Matches(items[j], pattern, mode)
    {
      forall a | 0 <= a < |rows|
        ensures rows[a] != j
      {
        assert a == 0 || rows[0] < rows[a];
      }
    }
  }

  /** Strictly increasing rows spread over at least as many rows as there
      are entries. */
  lemma {:induction false} Spread(rows: seq<int>)
    requires |rows| > 0
    requires forall a, b :: 0 <= a < b < |rows| ==> rows[a] < rows[b]
    ensures rows[|rows| - 1] >= rows[0] + |rows| - 1
    decreases |rows|
  {
    var n := |rows|;
    if n > 1 {
      Spread(rows[..n - 1]);
      assert rows[n - 2] < rows[n - 1];
    }
  }

  /** Row `k` is the only row showing `name`. */
  predicate OnlyRow(items: seq<string>, name: string, k: int)
  {
    0 <= k < |items| && items[k] == name &&
    forall j :: 0 <= j < |items| && items[j] == name ==> j == k
  }

  /** Some row is the only row showing `name`. */
  ghost predicate UniqueRow(items: seq<string>, name: string)
  {
    exists k :: 0 <= k < |items| && OnlyRow(items, name, k)
  }

  /** The exact search finds a single row exactly when one row alone shows
      the name, and then it finds that row. */
  lemma ExactSearch(items: seq<string>, name: string)
    ensures |FindItems(items, name, Exactly)| == 1 <==> UniqueRow(items, name)
    ensures forall k :: OnlyRow(items, name, k) ==> FindItems(items, name, Exactly) == [k]
  {
    var exact := FindItems(items, name, Exactly);
    if |exact| == 1 {
      assert OnlyRow(items, name, exact[0]);
    }
    forall k | OnlyRow(items, name, k)
      ensures exact == [k]
    {
      assert k in exact;
      assert forall a :: 0 <= a < |exact| ==> exact[a] == k;
      Spread(exact);
    }
  }

  /** `nameChanged(QString, QString)`: a single exact match takes the new
      name as given; otherwise the first row ending with the shortened old
      name takes the shortened new name; with no such row nothing changes. */
  function Renamed(items: seq<string>, oldName: string, newName: string): seq<string>
  {
    var exact := FindItems(items, oldName, Exactly);
    if |exact| == 1 then items[exact[0] := newName]
    else
      var ending := FindItems(items, Shorten(oldName), EndingWith);
      if |ending| > 0 then items[ending[0] := Shorten(newName)] else items
  }

  /** Renaming a name that one row alone shows renames that row only. */
  lemma RenameUnique(items: seq<string>, oldName: string, newName: string, k: int)
    requires OnlyRow(items, oldName, k)
    ensures Renamed(items, oldName, newName) == items[k := newName]
  {
    ExactSearch(items, oldName);
  }

  /** Otherwise the first row ending with the shortened old name, and only
      that row, takes the shortened new name. */
  lemma RenameByEnding(items: seq<string>, oldName: string, newName: string, k: int)
    requires !UniqueRow(items, oldName)
    requires 0 <= k < |items| && EndsWith(items[k], Shorten(oldName))
    requires forall j :: 0 <= j < k ==> !EndsWith(items[j], Shorten(oldName))
    ensures Renamed(items, oldName, newName) == items[k := Shorten(newName)]
  {
    ExactSearch(items, oldName);
    var ending := FindItems(items, Shorten(oldName), EndingWith);
    assert Matches(items[k], Shorten(oldName), EndingWith);
    assert k in ending;
    FirstMatch(items, Shorten(oldName), EndingWith);
    assert Matches(items[ending[0]], Shorten(oldName), EndingWith);
    assert ending[0] == k;
  }

  /** When no row ends with the shortened old name, no row shows the old
      name either, and renaming changes nothing. */
  lemma RenameNoMatch(items: seq<string>, oldName: string, newName: string)
    requires forall j :: 0 <= j < |items| ==> !EndsWith(items[j], Shorten(oldName))
    ensures forall j :: 0 <= j < |items| ==> items[j] != oldName
    ensures Renamed(items, oldName, newName) == items
  {
    ShortenSuffix(oldName);
    ExactSearch(items, oldName);
    assert forall j :: 0 <= j < |items| ==> !Matches(items[j], Shorten(oldName), EndingWith);
  }

  /** `takeItem(i)`: removes row `i`; a row that does not exist leaves the
      list as it is. */
  function RemoveAt(items: seq<string>, i: int): (r: seq<string>)
    ensures 0 <= i < |items| ==> |r| == |items| - 1
    ensures 0 <= i < |items| ==> forall j :: 0 <= j < i ==> r[j] == items[j]
    ensures 0 <= i < |items| ==> forall j :: i <= j < |r| ==> r[j] == items[j + 1]
    ensures !(0 <= i < |items|) ==> r == items
  {
    if 0 <= i < |items| then items[..i] + items[i + 1..] else items
  }

  /** The item texts of the dock's list widget and the row it last marked
      as current. */
  class WavefrontList {
    var items: seq<string>
    var lastCurrentItem: int

    constructor ()
      ensures items == [] && lastCurrentItem == -1
    {
      items := [];
      lastCurrentItem := -1;
    }

    /** `addWaveFront`: appends the shortened name as a new last row and
        makes it the current row. */
    method AddWaveFront(name: string)
      modifies this
      ensures items == old(items) + [Shorten(name)]
      ensures lastCurrentItem == |items| - 1
    {
      items := items + [Shorten(name)];
      lastCurrentItem := |items| - 1;
    }

    /** `deleteWaveFront`: removes row `i`, if there is one. */
    method DeleteWaveFront(i: int)
      modifies this
      ensures items == RemoveAt(old(items), i)
      ensures lastCurrentItem == old(lastCurrentItem)
    {
      if 0 <= i < |items| {
        items := items[..i] + items[i + 1..];
      }
    }

    /** `nameChanged(int, QString)`: row `ndx` takes the new text. The row
        must exist. */
    method NameChangedAt(ndx: int, newName: string)
      requires 0 <= ndx < |items|
      modifies this
      ensures items == old(items)[ndx := newName]
      ensures lastCurrentItem == old(lastCurrentItem)
    {
      items := items[ndx := newName];
    }

    /** `nameChanged(QString, QString)`. */
    method NameChanged(oldName: string, newName: string)
      modifies this
      ensures items == Renamed(old(items), oldName, newName)
      ensures lastCurrentItem == old(lastCurrentItem)
    {
      var exact := FindItems(items, oldName, Exactly);
      if |exact| == 1 {
        items := items[exact[0] := newName];
        return;
      }
      var ending := FindItems(items, Shorten(oldName), EndingWith);
      if |ending| > 0 {
        items := items[ending[0] := Shorten(newName)];
      }
    }
  }
}

module DeleteOrder {
  import opened WavefrontList

  predicate Descending(s: seq<int>)
  {
    forall a, b :: 0 <= a < b < |s| ==> s[a] >= s[b]
  }

  predicate StrictlyDescending(s: seq<int>)
  {
    forall a, b :: 0 <= a < b < |s| ==> s[a] > s[b]
  }

  predicate Distinct(s: seq<int>)
  {
    forall a, b :: 0 <= a < b < |s| ==> s[a] != s[b]
  }

  /** Inserts `x` into a descending sequence. */
  function Insert(x: int, s: seq<int>): (r: seq<int>)
    requires Descending(s)
    ensures Descending(r)
    ensures multiset(r) == multiset(s) + multiset{x}
    ensures |r| > 0 && (r[0] == x || (|s| > 0 && r[0] == s[0]))
  {
    if |s| == 0 || x >= s[0] then [x] + s
    else
      var rest := Insert(x, s[1..]);
      assert s == [s[0]] + s[1..];
      assert s[0] >= rest[0];
      [s[0]] + rest
  }

  /** Into a strictly descending sequence that lacks `x`, the insertion is
      strictly descending. */
  lemma {:induction false} InsertStrict(x: int, s: seq<int>)
    requires StrictlyDescending(s) && x !in s
    ensures StrictlyDescending(Insert(x, s))
    decreases |s|
  {
    if |s| > 0 && x < s[0] {
      InsertStrict(x, s[1..]);
      var rest := Insert(x, s[1..]);
      assert s[0] > rest[0];
      assert Insert(x, s) == [s[0]] + rest;
    }
  }

  /** `qSort(indexList, qGreater<int>())` in `on_deleteWave_clicked`: the
      selected rows, largest first. */
  function SortDescending(s: seq<int>): (r: seq<int>)
    ensures Descending(r)
    ensures multiset(r) == multiset(s)
  {
    if |s| == 0 then []
    else
      assert s == [s[0]] + s[1..];
      Insert(s[0], SortDescending(s[1..]))
  }

  /** The rows of a selection are distinct, and then the order is strict. */
  lemma {:induction false} SortStrict(s: seq<int>)
    requires Distinct(s)
    ensures StrictlyDescending(SortDescending(s))
    decreases |s|
  {
    if |s| > 0 {
      var rest := SortDescending(s[1..]);
      var tail := s[1..];
      assert Distinct(tail) by {
        forall a, b | 0 <= a < b < |tail| ensures tail[a] != tail[b] {
          assert tail[a] == s[a + 1] && tail[b] == s[b + 1];
        }
      }
      SortStrict(tail);
      assert s[0] !in tail by {
        forall k | 0 <= k < |tail| ensures tail[k] != s[0] {
          assert tail[k] == s[k + 1];
        }
      }
      assert s[0] !in multiset(tail);
      InsertStrict(s[0], rest);
    }
  }

  /** The list after the rows are removed one at a time, in the order given. */
  function DeleteAll(items: seq<string>, rows: seq<int>): seq<string>
    decreases |rows|
  {
    if |rows| == 0 then items else DeleteAll(RemoveAt(items, rows[0]), rows[1..])
  }

  /** The rows of `items` whose index (counted from `first`) is not in
      `gone`, in order. */
  function Keep(items: seq<string>, gone: seq<int>, first: int): seq<string>
    decreases |items|
  {
    if |items| == 0 then []
    else (if first in gone then [] else [items[0]]) + Keep(items[1..], gone, first + 1)
  }

  /** Only membership in `gone` matters to `Keep`. */
  lemma {:induction false} KeepSameRows(items: seq<string>, g1: seq<int>, g2: seq<int>, first: int)
    requires forall x :: x in g1 <==> x in g2
    ensures Keep(items, g1, first) == Keep(items, g2, first)
    decreases |items|
  {
    if |items| > 0 {
      KeepSameRows(items[1..], g1, g2, first + 1);
    }
  }

  /** Nothing is dropped from rows past every removed index. */
  lemma {:induction false} KeepPast(items: seq<string>, gone: seq<int>, first: int)
    requires forall k :: 0 <= k < |gone| ==> gone[k] < first
    ensures Keep(items, gone, first) == items
    decreases |items|
  {
    if |items| > 0 {
      KeepPast(items[1..], gone, first + 1);
      assert first !in gone;
      assert items == [items[0]] + items[1..];
    }
  }

  /** Removing row `i`, above every other removed row, is the same as
      adding `i` to the removed rows. */
  lemma {:induction false} RemoveThenKeep(items: seq<string>, gone: seq<int>, first: int, i: int)
    requires first <= i < first + |items|
    requires forall k :: 0 <= k < |gone| ==> gone[k] < i
    ensures Keep(items[..i - first] + items[i - first + 1..], gone, first) == Keep(items, [i] + gone, first)
    decreases |items|
  {
    if i == first {
      assert items[..0] + items[1..] == items[1..];
      KeepPast(items[1..], gone, first);
      KeepPast(items[1..], [i] + gone, first + 1);
    } else {
      var rest := items[1..];
      RemoveThenKeep(rest, gone, first + 1, i);
      var cut := items[..i - first] + items[i - first + 1..];
      assert cut[0] == items[0];
      assert cut[1..] == rest[..i - first - 1] + rest[i - first..];
      assert first in [i] + gone <==> first in gone;
    }
  }

  /** Deleting strictly descending, existing rows one at a time removes
      exactly those rows and keeps every other row in order: deleting the
      highest row first never shifts a row still to be deleted. */
  lemma {:induction false} DescendingDelete(items: seq<string>, rows: seq<int>)
    requires StrictlyDescending(rows)
    requires forall k :: 0 <= k < |rows| ==> 0 <= rows[k] < |items|
    ensures DeleteAll(items, rows) == Keep(items, rows, 0)
    decreases |rows|
  {
    if |rows| == 0 {
      KeepPast(items, rows, 0);
    } else {
      var i := rows[0];
      var rest := rows[1..];
      assert forall k :: 0 <= k < |rest| ==> rest[k] == rows[k + 1];
      DescendingDelete(RemoveAt(items, i), rest);
      RemoveThenKeep(items, rest, 0, i);
      assert rows == [i] + rest;
    }
  }

  /** `on_deleteWave_clicked` hands over the selection largest row first;
      deleting the rows in that order removes exactly the selected rows. */
  lemma SelectionDelete(items: seq<string>, selected: seq<int>)
    requires Distinct(selected)
    requires forall k :: 0 <= k < |selected| ==> 0 <= selected[k] < |items|
    ensures DeleteAll(items, SortDescending(selected)) == Keep(items, selected, 0)
  {
    var order := SortDescending(selected);
    SortStrict(selected);
    assert forall x :: x in order <==> x in selected by {
      assert forall x :: x in order <==> x in multiset(order);
      assert forall x :: x in selected <==> x in multiset(selected);
    }
    forall k | 0 <= k < |order|
      ensures 0 <= order[k] < |items|
    {
      assert order[k] in selected;
    }
    DescendingDelete(items, order);
    KeepSameRows(items, order, selected, 0);
  }
}
