/**
 * Generic operations on the data records of one worksheet, held as a
 * sequence. Row 1 of a worksheet holds the column headers, so the record at
 * 0-based index k sits at sheet row k + 2.
 */
module Records {

  import opened Wrappers

  /** The sheet row of the first data record. */
  const FIRST_DATA_ROW: nat := 2

  /** Sheet row of the record at 0-based index `k`. */
  function Position(k: nat): nat
  {
    k + FIRST_DATA_ROW
  }

  /** `p` is the sheet row of one of `n` data records. */
  predicate IsDataPosition(n: nat, p: int)
  {
    FIRST_DATA_ROW <= p < n + FIRST_DATA_ROW
  }

  /** Index of the first record that `matches` accepts: the linear scan with early exit. */
  function FirstMatch<R>(rows: seq<R>, matches: R -> bool): (r: Option<nat>)
    ensures r.Some? ==> r.value < |rows| && matches(rows[r.value])
    ensures r.Some? ==> forall k :: 0 <= k < r.value ==> !matches(rows[k])
    ensures r.None? <==> forall k :: 0 <= k < |rows| ==> !matches(rows[k])
  {
    if rows == [] then None
    else if matches(rows[0]) then Some(0)
    else
      match FirstMatch(rows[1..], matches)
      case None => None
      case Some(k) => Some(k + 1)
  }

  /** A record paired with the sheet row it sits at. */
  datatype Listed<R> = Listed(position: nat, row: R)

  /**
   * The records that `keep` accepts, each paired with its sheet row, where
   * the first record of `rows` sits at row `start`.
   */
  function ListWhere<R>(rows: seq<R>, keep: R -> bool, start: nat): seq<Listed<R>>
  {
    if rows == [] then []
    else (if keep(rows[0]) then [Listed(start, rows[0])] else []) + ListWhere(rows[1..], keep, start + 1)
  }

  /** Every listed entry is an accepted record at the sheet row it claims. */
  lemma {:induction false} ListWhereSound<R>(rows: seq<R>, keep: R -> bool, start: nat)
    ensures |ListWhere(rows, keep, start)| <= |rows|
    ensures forall e :: e in ListWhere(rows, keep, start) ==>
      start <= e.position < start + |rows| && rows[e.position - start] == e.row && keep(e.row)
  {
    if rows != [] {
      ListWhereSound(rows[1..], keep, start + 1);
    }
  }

  /** Every accepted record is listed, at its own sheet row. */
  lemma {:induction false} ListWhereComplete<R>(rows: seq<R>, keep: R -> bool, start: nat)
    ensures forall k :: 0 <= k < |rows| && keep(rows[k]) ==> Listed(start + k, rows[k]) in ListWhere(rows, keep, start)
  {
    if rows != [] {
      ListWhereComplete(rows[1..], keep, start + 1);
      forall k | 0 <= k < |rows| && keep(rows[k])
        ensures Listed(start + k, rows[k]) in ListWhere(rows, keep, start)
      {
        if k > 0 {
          assert rows[1..][k - 1] == rows[k];
        }
      }
    }
  }

  /** Entries appear in sheet order: positions strictly increase. */
  lemma {:induction false} ListWhereOrdered<R>(rows: seq<R>, keep: R -> bool, start: nat)
    ensures forall i, j :: 0 <= i < j < |ListWhere(rows, keep, start)| ==>
      ListWhere(rows, keep, start)[i].position < ListWhere(rows, keep, start)[j].position
  {
    if rows != [] {
      var tail := ListWhere(rows[1..], keep, start + 1);
      ListWhereOrdered(rows[1..], keep, start + 1);
      ListWhereSound(rows[1..], keep, start + 1);
      forall e | e in tail ensures e.position > start { }
    }
  }

  /** The records left after removing the one at sheet row `p`; later records move up. */
  function Deleted<R>(rows: seq<R>, p: nat): (r: seq<R>)
    requires IsDataPosition(|rows|, p)
    ensures |r| == |rows| - 1
    ensures forall j :: 0 <= j < p - FIRST_DATA_ROW ==> r[j] == rows[j]
    ensures forall j :: p - FIRST_DATA_ROW <= j < |r| ==> r[j] == rows[j + 1]
  {
    rows[..p - FIRST_DATA_ROW] + rows[p - FIRST_DATA_ROW + 1..]
  }

  /** Deleting sheet row `p` removes exactly the record at `p` and nothing else. */
  lemma DeletedRemovesOne<R>(rows: seq<R>, p: nat, x: R)
    requires IsDataPosition(|rows|, p) && rows[p - FIRST_DATA_ROW] == x
    ensures multiset(Deleted(rows, p)) + multiset{x} == multiset(rows)
  {
    var k := p - FIRST_DATA_ROW;
    assert rows == rows[..k] + [rows[k]] + rows[k + 1..];
  }

  /** Deleting the sheet row of a listed entry removes exactly that entry's record. */
  lemma DeletedListed<R>(rows: seq<R>, keep: R -> bool, e: Listed<R>)
    requires e in ListWhere(rows, keep, FIRST_DATA_ROW)
    ensures IsDataPosition(|rows|, e.position)
    ensures multiset(Deleted(rows, e.position)) + multiset{e.row} == multiset(rows)
  {
    ListedAt(rows, keep, e);
    DeletedRemovesOne(rows, e.position, e.row);
  }

  lemma ListedAt<R>(rows: seq<R>, keep: R -> bool, e: Listed<R>)
    requires e in ListWhere(rows, keep, FIRST_DATA_ROW)
    ensures IsDataPosition(|rows|, e.position) && rows[e.position - FIRST_DATA_ROW] == e.row
  {
    ListWhereSound(rows, keep, FIRST_DATA_ROW);
  }

  /**
   * What a listing becomes once sheet row `p` is deleted: the entry at `p`
   * disappears and every later entry moves up one row.
   */
  function Renumbered<R>(listing: seq<Listed<R>>, p: nat): seq<Listed<R>>
  {
    if listing == [] then []
    else
      var e := listing[0];
      (if e.position == p then []
       else if e.position < p then [e]
       else [Listed(e.position - 1, e.row)])
      + Renumbered(listing[1..], p)
  }

  lemma {:induction false} RenumberedConcat<R>(a: seq<Listed<R>>, b: seq<Listed<R>>, p: nat)
    ensures Renumbered(a + b, p) == Renumbered(a, p) + Renumbered(b, p)
  {
    if a != [] {
      assert (a + b)[1..] == a[1..] + b;
      RenumberedConcat(a[1..], b, p);
    } else {
      assert a + b == b;
    }
  }

  /** A listing that starts below row `p` moves up one row as a whole. */
  lemma {:induction false} RenumberedBelow<R>(rows: seq<R>, keep: R -> bool, p: nat, q: nat)
    requires p < q
    ensures Renumbered(ListWhere(rows, keep, q), p) == ListWhere(rows, keep, q - 1)
  {
    if rows != [] {
      var head := if keep(rows[0]) then [Listed(q, rows[0])] else [];
      RenumberedConcat(head, ListWhere(rows[1..], keep, q + 1), p);
      RenumberedBelow(rows[1..], keep, p, q + 1);
      assert Renumbered(head, p) == if keep(rows[0]) then [Listed(q - 1, rows[0])] else [] by {
        if keep(rows[0]) {
          assert head[1..] == [];
        }
      }
    }
  }

  /**
   * Listing after a positional delete: deleting the record at index `k`
   * drops its entry (if listed) and shifts the later entries up by one row.
   */
  lemma {:induction false} ListWhereDeleted<R>(rows: seq<R>, keep: R -> bool, start: nat, k: nat)
    requires k < |rows|
    ensures ListWhere(rows[..k] + rows[k + 1..], keep, start)
         == Renumbered(ListWhere(rows, keep, start), start + k)
  {
    var head := if keep(rows[0]) then [Listed(start, rows[0])] else [];
    RenumberedConcat(head, ListWhere(rows[1..], keep, start + 1), start + k);
    if k == 0 {
      assert rows[..k] + rows[k + 1..] == rows[1..];
      RenumberedBelow(rows[1..], keep, start, start + 1);
    } else {
      var rest := rows[1..][..k - 1] + rows[1..][k..];
      assert rows[..k] + rows[k + 1..] == [rows[0]] + rest;
      assert ([rows[0]] + rest)[1..] == rest;
      ListWhereDeleted(rows[1..], keep, start + 1, k - 1);
    }
  }

  /** The same, for the listing of a whole worksheet and a sheet row. */
  lemma ListWhereAfterDelete<R>(rows: seq<R>, keep: R -> bool, p: nat)
    requires IsDataPosition(|rows|, p)
    ensures ListWhere(Deleted(rows, p), keep, FIRST_DATA_ROW) == Renumbered(ListWhere(rows, keep, FIRST_DATA_ROW), p)
  {
    ListWhereDeleted(rows, keep, FIRST_DATA_ROW, p - FIRST_DATA_ROW);
  }

  /** Overwriting a record that is not listed with another one that is not listed keeps the listing. */
  lemma {:induction false} ListWhereUpdate<R>(rows: seq<R>, keep: R -> bool, start: nat, k: nat, x: R)
    requires k < |rows| && !keep(rows[k]) && !keep(x)
    ensures ListWhere(rows[k := x], keep, start) == ListWhere(rows, keep, start)
  {
    if k > 0 {
      assert rows[k := x][1..] == rows[1..][k - 1 := x];
      ListWhereUpdate(rows[1..], keep, start + 1, k - 1, x);
    } else {
      assert rows[k := x][1..] == rows[1..];
    }
  }

  /** Appending a record adds at most one entry, at the end, at the new last sheet row. */
  lemma {:induction false} ListWhereAppend<R>(rows: seq<R>, keep: R -> bool, start: nat, x: R)
    ensures ListWhere(rows + [x], keep, start)
         == ListWhere(rows, keep, start) + (if keep(x) then [Listed(start + |rows|, x)] else [])
  {
    if rows == [] {
      assert [x][1..] == [];
    } else {
      assert (rows + [x])[1..] == rows[1..] + [x];
      ListWhereAppend(rows[1..], keep, start + 1, x);
    }
  }

}
