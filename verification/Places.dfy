/** Items that travel through a row of places, the earliest item in the first place: what
    may be moved without disturbing their order. */
module Places {
  ghost function Flat<T>(row: seq<seq<T>>): seq<T> {
    if row == [] then [] else row[0] + Flat(row[1..])
  }

  // Nothing lies strictly between two places.
  ghost predicate Clear<T>(row: seq<seq<T>>, i: nat, j: nat)
    requires j <= |row|
  {
    forall k :: i < k < j ==> row[k] == []
  }

  datatype Move<T> =
    | Stay
    | Append(i: nat, xs: seq<T>)           // new items, in place i
    | Advance(i: nat, j: nat, n: nat)      // the first n items of place j go to place i
    | Retreat(i: nat)                      // all items of place i go to place i + 1

  ghost predicate Possible<T>(row: seq<seq<T>>, mv: Move<T>) {
    match mv
    case Stay => true
    case Append(i, xs) => i < |row| && (xs != [] ==> Clear(row, i, |row|))
    case Advance(i, j, n) => i < j < |row| && n <= |row[j]| && (n > 0 ==> Clear(row, i, j))
    case Retreat(i) => i + 1 < |row| && row[i + 1] == []
  }

  ghost function Moved<T>(row: seq<seq<T>>, mv: Move<T>): seq<seq<T>>
    requires Possible(row, mv)
  {
    match mv
    case Stay => row
    case Append(i, xs) => row[i := row[i] + xs]
    case Advance(i, j, n) => row[i := row[i] + row[j][..n]][j := row[j][n..]]
    case Retreat(i) => row[i := []][i + 1 := row[i]]
  }

  lemma {:induction false} FlatClear<T>(row: seq<seq<T>>)
    requires forall k :: 0 <= k < |row| ==> row[k] == []
    ensures Flat(row) == []
  {
    if row != [] {
      FlatClear(row[1..]);
    }
  }

  lemma {:induction false} AppendKeeps<T>(row: seq<seq<T>>, i: nat, xs: seq<T>)
    requires i < |row| && (xs != [] ==> Clear(row, i, |row|))
    ensures Flat(row[i := row[i] + xs]) == Flat(row) + xs
  {
    var row' := row[i := row[i] + xs];
    if xs == [] {
      assert row[i] + xs == row[i];
      assert row' == row;
    } else if i == 0 {
      FlatClear(row[1..]);
      assert row'[1..] == row[1..];
    } else {
      assert row'[1..] == row[1..][i - 1 := row[1..][i - 1] + xs];
      AppendKeeps(row[1..], i - 1, xs);
    }
  }

  // Behind cleared places, the first items of place j are the first of all.
  lemma {:induction false} TakeFront<T>(row: seq<seq<T>>, j: nat, n: nat)
    requires j < |row| && n <= |row[j]| && forall k :: 0 <= k < j ==> row[k] == []
    ensures Flat(row) == row[j][..n] + Flat(row[j := row[j][n..]])
  {
    var row' := row[j := row[j][n..]];
    if j == 0 {
      assert row'[1..] == row[1..];
      assert row[0] == row[0][..n] + row[0][n..];
    } else {
      assert row'[1..] == row[1..][j - 1 := row[1..][j - 1][n..]];
      TakeFront(row[1..], j - 1, n);
      assert [] + Flat(row[1..]) == Flat(row[1..]) && [] + Flat(row'[1..]) == Flat(row'[1..]);
    }
  }

  lemma {:induction false} AdvanceKeeps<T>(row: seq<seq<T>>, i: nat, j: nat, n: nat)
    requires i < j < |row| && n <= |row[j]| && (n > 0 ==> Clear(row, i, j))
    ensures Flat(row[i := row[i] + row[j][..n]][j := row[j][n..]]) == Flat(row)
  {
    var row' := row[i := row[i] + row[j][..n]][j := row[j][n..]];
    if n == 0 {
      assert row[i] + row[j][..n] == row[i] && row[j][n..] == row[j];
      assert row' == row;
    } else if i == 0 {
      TakeFront(row[1..], j - 1, n);
      assert row'[1..] == row[1..][j - 1 := row[1..][j - 1][n..]];
      assert row[0] + (row[j][..n] + Flat(row'[1..])) == (row[0] + row[j][..n]) + Flat(row'[1..]);
    } else {
      assert row'[1..] == row[1..][i - 1 := row[1..][i - 1] + row[1..][j - 1][..n]][j - 1 := row[1..][j - 1][n..]];
      AdvanceKeeps(row[1..], i - 1, j - 1, n);
    }
  }

  // A possible move keeps the items in order: the new ones come last.
  lemma MovedKeeps<T>(row: seq<seq<T>>, mv: Move<T>)
    requires Possible(row, mv)
    ensures Flat(Moved(row, mv)) == if mv.Append? then Flat(row) + mv.xs else Flat(row)
  {
    match mv
    case Stay =>
    case Append(i, xs) => AppendKeeps(row, i, xs);
    case Advance(i, j, n) => AdvanceKeeps(row, i, j, n);
    case Retreat(i) =>
      var row' := Moved(row, mv);
      AdvanceKeeps(row', i, i + 1, |row[i]|);
      assert row'[i] + row'[i + 1][..|row[i]|] == row[i] && row'[i + 1][|row[i]|..] == row[i + 1];
      assert row == row'[i := row'[i] + row'[i + 1][..|row[i]|]][i + 1 := row'[i + 1][|row[i]|..]];
  }
}
