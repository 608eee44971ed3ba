/** Vocabulary shared by the two spreadsheet-backed tables: the outcome of
    reading a table file, and row selection by a boolean mask. */
module Storage {

  datatype Option<T> = None | Some(value: T)

  /** What reading a table file yields: all of its rows, or a failure
      (the file is missing or corrupt). */
  datatype Table<T> = Readable(rows: seq<T>) | Unreadable

  /** The rows the operations work with: every read path of the program
      treats a failed read as an empty table. */
  function Load<T>(t: Table<T>): seq<T>
  {
    match t
    case Readable(rows) => rows
    case Unreadable => []
  }

  /** The table file after "load it (or start empty), concatenate one row,
      write the whole table back". */
  function Appended<T>(t: Table<T>, row: T): (r: Table<T>)
    ensures r.Readable? && |Load(r)| == |Load(t)| + 1
    ensures Load(r)[..|Load(t)|] == Load(t) && Load(r)[|Load(t)|] == row
  {
    Readable(Load(t) + [row])
  }

  /** Boolean-mask selection `df[mask]`: the rows satisfying `keep`, in
      their original order. */
  function Filter<T>(keep: T -> bool, s: seq<T>): (r: seq<T>)
    ensures |r| <= |s|
    ensures forall i :: 0 <= i < |r| ==> r[i] in s && keep(r[i])
    ensures forall i :: 0 <= i < |s| && keep(s[i]) ==> s[i] in r
    ensures r == [] <==> forall i :: 0 <= i < |s| ==> !keep(s[i])
  {
    if s == [] then []
    else
      var rest := Filter(keep, s[1..]);
      if keep(s[0]) then [s[0]] + rest else rest
  }

  /** Selecting from a table with one more row at the end selects the same
      rows, followed by the new row when it passes the mask. */
  lemma {:induction false} FilterAppend<T>(keep: T -> bool, s: seq<T>, x: T)
    ensures Filter(keep, s + [x]) == Filter(keep, s) + (if keep(x) then [x] else [])
  {
    if s == [] {
      assert [] + [x] == [x];
    } else {
      assert (s + [x])[0] == s[0];
      assert (s + [x])[1..] == s[1..] + [x];
      FilterAppend(keep, s[1..], x);
    }
  }

  /** Membership in a selection, element-wise. */
  lemma FilterMembership<T>(keep: T -> bool, s: seq<T>)
    ensures forall x :: x in Filter(keep, s) <==> x in s && keep(x)
  {
    var r := Filter(keep, s);
    forall x ensures x in r <==> x in s && keep(x) {
      if x in r {
        var k :| 0 <= k < |r| && r[k] == x;
      }
      if x in s && keep(x) {
        var k :| 0 <= k < |s| && s[k] == x;
      }
    }
  }

  lemma {:induction false} FilterConcat<T>(keep: T -> bool, a: seq<T>, b: seq<T>)
    ensures Filter(keep, a + b) == Filter(keep, a) + Filter(keep, b)
  {
    if a == [] {
      assert a + b == b;
    } else {
      assert (a + b)[0] == a[0];
      assert (a + b)[1..] == a[1..] + b;
      FilterConcat(keep, a[1..], b);
    }
  }

  /** A selection that every row passes keeps the whole table. */
  lemma {:induction false} FilterKeepsAll<T>(keep: T -> bool, s: seq<T>)
    requires forall i :: 0 <= i < |s| ==> keep(s[i])
    ensures Filter(keep, s) == s
  {
    if s != [] {
      assert forall i :: 0 <= i < |s[1..]| ==> keep(s[1..][i]) by {
        forall i | 0 <= i < |s[1..]| ensures keep(s[1..][i]) {
          assert s[1..][i] == s[i + 1];
        }
      }
      FilterKeepsAll(keep, s[1..]);
      assert [s[0]] + s[1..] == s;
    }
  }
}
