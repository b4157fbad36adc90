/**
 * What the `find` functions of spoolman/database/printer.py and
 * spoolman/database/cost.py share: the sort order type, the not-found error,
 * and how the database evaluates the statement they assemble (WHERE, then
 * ORDER BY, then OFFSET/LIMIT; COUNT(*) over the WHERE alone).
 *
 * spoolman/database/utils.py (SortOrder, parse_nested_field and the WHERE
 * helpers) is not part of this model. SortOrder is taken to have exactly the
 * members ASC and DESC, and the ordering of two rows on a named field is a
 * parameter, `cmp`, standing for parse_nested_field plus the database's
 * column comparison.
 */
module DbUtils {
  import opened Wrappers

  datatype SortOrder = Asc | Desc

  /** A `dict[str, SortOrder]`: Python dictionaries keep insertion order, so it is kept as its items. */
  type SortMap = seq<(string, SortOrder)>

  /** The `created`/`registered` column: an opaque point in time supplied by the caller. */
  datatype Timestamp = Timestamp(seconds: int)

  /** spoolman.exceptions.ItemNotFoundError with its message, `e.args[0]`. */
  datatype DbError = ItemNotFound(message: string)

  /** The database's comparison of two rows on a field: negative, zero or positive. */
  type FieldCompare<!R> = (string, R, R) -> int

  /** Comparing b with a gives the opposite sign of comparing a with b. */
  ghost predicate Antisymmetric<R(!new)>(cmp: FieldCompare<R>)
  {
    forall f, a, b :: cmp(f, a, b) == -cmp(f, b, a)
  }

  // ----- ORDER BY -----

  /**
   * ORDER BY f1 d1, f2 d2, ...: the first clause that tells the rows apart
   * decides, a DESC clause reversing its field's comparison.
   */
  function Compare<R>(orderBy: SortMap, cmp: FieldCompare<R>, a: R, b: R): int
    decreases |orderBy|
  {
    if orderBy == [] then 0
    else
      var (field, order) := orderBy[0];
      var c := if order == Asc then cmp(field, a, b) else -cmp(field, a, b);
      if c != 0 then c else Compare(orderBy[1..], cmp, a, b)
  }

  lemma {:induction false} CompareAntisymmetric<R(!new)>(orderBy: SortMap, cmp: FieldCompare<R>, a: R, b: R)
    requires Antisymmetric(cmp)
    ensures Compare(orderBy, cmp, a, b) == -Compare(orderBy, cmp, b, a)
    decreases |orderBy|
  {
    if orderBy != [] {
      var (field, order) := orderBy[0];
      assert cmp(field, a, b) == -cmp(field, b, a);
      CompareAntisymmetric(orderBy[1..], cmp, a, b);
    }
  }

  /** Every row compares at most equal to the row after it. */
  predicate SortedBy<R>(s: seq<R>, orderBy: SortMap, cmp: FieldCompare<R>)
  {
    forall i :: 1 <= i < |s| ==> Compare(orderBy, cmp, s[i - 1], s[i]) <= 0
  }

  function InsertSorted<R>(x: R, s: seq<R>, orderBy: SortMap, cmp: FieldCompare<R>): (r: seq<R>)
    ensures multiset(r) == multiset(s) + multiset{x}
    ensures |r| == |s| + 1
    ensures r[0] == x || (s != [] && r[0] == s[0])
  {
    if s == [] then [x]
    else if Compare(orderBy, cmp, x, s[0]) <= 0 then [x] + s
    else
      assert s == [s[0]] + s[1..];
      [s[0]] + InsertSorted(x, s[1..], orderBy, cmp)
  }

  lemma {:induction false} InsertSortedIsSorted<R(!new)>(x: R, s: seq<R>, orderBy: SortMap, cmp: FieldCompare<R>)
    requires Antisymmetric(cmp) && SortedBy(s, orderBy, cmp)
    ensures SortedBy(InsertSorted(x, s, orderBy, cmp), orderBy, cmp)
  {
    if s != [] && Compare(orderBy, cmp, x, s[0]) > 0 {
      var tail := s[1..];
      assert SortedBy(tail, orderBy, cmp) by {
        forall i | 1 <= i < |tail| ensures Compare(orderBy, cmp, tail[i - 1], tail[i]) <= 0 {
          assert tail[i - 1] == s[i] && tail[i] == s[i + 1];
        }
      }
      InsertSortedIsSorted(x, tail, orderBy, cmp);
      CompareAntisymmetric(orderBy, cmp, x, s[0]);
      var r := InsertSorted(x, tail, orderBy, cmp);
      assert r[0] == x || r[0] == s[1];
      var out := [s[0]] + r;
      forall i | 1 <= i < |out| ensures Compare(orderBy, cmp, out[i - 1], out[i]) <= 0 {
        if i > 1 {
          assert out[i - 1] == r[i - 2] && out[i] == r[i - 1];
        }
      }
    }
  }

  /** The rows in the order the ORDER BY clauses ask for (ties in an order the model fixes). */
  function OrderRows<R>(s: seq<R>, orderBy: SortMap, cmp: FieldCompare<R>): (r: seq<R>)
    ensures multiset(r) == multiset(s)
    ensures |r| == |s|
  {
    if s == [] then []
    else
      assert s == [s[0]] + s[1..];
      InsertSorted(s[0], OrderRows(s[1..], orderBy, cmp), orderBy, cmp)
  }

  lemma {:induction false} OrderRowsIsSorted<R(!new)>(s: seq<R>, orderBy: SortMap, cmp: FieldCompare<R>)
    requires Antisymmetric(cmp)
    ensures SortedBy(OrderRows(s, orderBy, cmp), orderBy, cmp)
  {
    if s != [] {
      OrderRowsIsSorted(s[1..], orderBy, cmp);
      InsertSortedIsSorted(s[0], OrderRows(s[1..], orderBy, cmp), orderBy, cmp);
    }
  }

  // ----- OFFSET / LIMIT -----

  function Min(a: int, b: int): int { if a <= b then a else b }

  /** OFFSET offset LIMIT limit: at most `limit` rows, starting `offset` rows in. */
  function Window<R>(s: seq<R>, offset: nat, limit: nat): (r: seq<R>)
    ensures |r| <= limit
    ensures |r| == if offset >= |s| then 0 else Min(limit, |s| - offset)
    ensures forall i :: 0 <= i < |r| ==> r[i] == s[offset + i]
  {
    if offset >= |s| then [] else s[offset..Min(offset + limit, |s|)]
  }

  // ----- the assembled statement -----

  /**
   * The parts of the SELECT that `find` builds step by step: its ORDER BY
   * clauses, and OFFSET/LIMIT (offset, limit) when a limit was given.
   */
  datatype Statement = Statement(orderBy: SortMap, window: Option<(nat, nat)>)

  /** The statement `find` assembles: one ORDER BY per sort entry, and OFFSET/LIMIT only when a limit is given. */
  function FindStatement(sortBy: SortMap, limit: Option<nat>, offset: nat): (stmt: Statement)
    ensures stmt.orderBy == sortBy
    ensures stmt.window.Some? <==> limit.Some?
    ensures limit.Some? ==> stmt.window.value == (offset, limit.value)
  {
    Statement(sortBy, if limit.Some? then Some((offset, limit.value)) else None)
  }

  /**
   * Running the statement over the rows its WHERE clause kept. SQL applies
   * ORDER BY before OFFSET/LIMIT whichever was added to the statement first.
   */
  function Execute<R>(stmt: Statement, matching: seq<R>, cmp: FieldCompare<R>): seq<R>
  {
    var ordered := OrderRows(matching, stmt.orderBy, cmp);
    match stmt.window
    case None => ordered
    case Some((offset, limit)) => Window(ordered, offset, limit)
  }

  /** The result is drawn from the matching rows: all of them, or an OFFSET/LIMIT slice; ordered when `cmp` is antisymmetric. */
  lemma ExecuteSpec<R(!new)>(stmt: Statement, matching: seq<R>, cmp: FieldCompare<R>)
    ensures var items := Execute(stmt, matching, cmp);
      && (Antisymmetric(cmp) ==> SortedBy(items, stmt.orderBy, cmp))
      && (forall x :: x in items ==> x in matching)
      && (stmt.window.None? ==> multiset(items) == multiset(matching) && |items| == |matching|)
      && (stmt.window.Some? ==> |items| <= stmt.window.value.1)
  {
    var ordered := OrderRows(matching, stmt.orderBy, cmp);
    if Antisymmetric(cmp) {
      OrderRowsIsSorted(matching, stmt.orderBy, cmp);
    }
    assert forall x :: x in ordered ==> x in matching by {
      forall x | x in ordered ensures x in matching {
        assert x in multiset(ordered);
      }
    }
    if stmt.window.Some? {
      var (offset, limit) := stmt.window.value;
      var items := Window(ordered, offset, limit);
      if Antisymmetric(cmp) {
        forall i | 1 <= i < |items| ensures Compare(stmt.orderBy, cmp, items[i - 1], items[i]) <= 0 {
          assert items[i - 1] == ordered[offset + i - 1] && items[i] == ordered[offset + i];
        }
      }
      forall x | x in items ensures x in ordered {
        var i :| 0 <= i < |items| && items[i] == x;
        assert ordered[offset + i] == x;
      }
    }
  }

  // ----- WHERE over a table -----

  /** Every row is stored under its own id. */
  ghost predicate KeyedBy<R>(rows: map<int, R>, id: R -> int)
  {
    forall k :: k in rows ==> id(rows[k]) == k
  }

  /** The rows with an id in [0, n) that `keep` accepts, in ascending id order. */
  function RowsWhere<R>(rows: map<int, R>, n: nat, keep: R -> bool): seq<R>
  {
    if n == 0 then []
    else RowsWhere(rows, n - 1, keep) + (if n - 1 in rows && keep(rows[n - 1]) then [rows[n - 1]] else [])
  }

  /** Exactly the stored rows below `n` that `keep` accepts, each once, by ascending id. */
  lemma {:induction false} RowsWhereMembers<R>(rows: map<int, R>, n: nat, keep: R -> bool, id: R -> int)
    requires KeyedBy(rows, id)
    ensures forall x :: x in RowsWhere(rows, n, keep) ==> id(x) in rows && rows[id(x)] == x && 0 <= id(x) < n && keep(x)
    ensures forall k :: k in rows && 0 <= k < n && keep(rows[k]) ==> rows[k] in RowsWhere(rows, n, keep)
    ensures forall i, j :: 0 <= i < j < |RowsWhere(rows, n, keep)| ==> id(RowsWhere(rows, n, keep)[i]) < id(RowsWhere(rows, n, keep)[j])
  {
    if n > 0 {
      RowsWhereMembers(rows, n - 1, keep, id);
      var before := RowsWhere(rows, n - 1, keep);
      var s := RowsWhere(rows, n, keep);
      if n - 1 in rows && keep(rows[n - 1]) {
        assert s == before + [rows[n - 1]];
        forall i, j | 0 <= i < j < |s| ensures id(s[i]) < id(s[j]) {
          if j == |s| - 1 {
            assert s[j] == rows[n - 1] && id(s[j]) == n - 1;
            assert s[i] == before[i] && before[i] in before;
          } else {
            assert s[i] == before[i] && s[j] == before[j];
          }
        }
      }
    }
  }

  /** The ids below `n` of the stored rows that `keep` accepts. */
  function KeysBelow<R>(rows: map<int, R>, n: nat, keep: R -> bool): set<int>
  {
    set k | k in rows && 0 <= k < n && keep(rows[k])
  }

  /** The number of rows returned is the number of matching ids below `n`. */
  lemma {:induction false} RowsWhereCount<R>(rows: map<int, R>, n: nat, keep: R -> bool)
    ensures |RowsWhere(rows, n, keep)| == |KeysBelow(rows, n, keep)|
  {
    if n > 0 {
      RowsWhereCount(rows, n - 1, keep);
      var before := KeysBelow(rows, n - 1, keep);
      var after := KeysBelow(rows, n, keep);
      if n - 1 in rows && keep(rows[n - 1]) {
        assert after == before + {n - 1};
        assert n - 1 !in before;
      } else {
        assert after == before;
      }
    }
  }

  /** The ids of the stored rows that `keep` accepts. */
  function KeysWhere<R>(rows: map<int, R>, keep: R -> bool): (ks: set<int>)
    ensures forall k :: k in ks <==> k in rows && keep(rows[k])
  {
    set k | k in rows && keep(rows[k])
  }

  /** When every id is below `n`, the rows returned are as many as the stored rows `keep` accepts. */
  lemma RowsWhereCountAll<R>(rows: map<int, R>, n: nat, keep: R -> bool)
    requires forall k :: k in rows ==> 0 <= k < n
    ensures |RowsWhere(rows, n, keep)| == |KeysWhere(rows, keep)|
  {
    RowsWhereCount(rows, n, keep);
    assert KeysBelow(rows, n, keep) == KeysWhere(rows, keep);
  }
}
