/**
 * spoolman/database/cost.py: the `cost_calculation` table and its create,
 * get, find, update and delete operations, over a map from id to record.
 *
 * The `filament` table is not part of this model: the ids of the stored
 * filaments are a parameter wherever `db.get(models.Filament, id)` is asked.
 * Printers are looked up in a PrinterDb.PrinterTable through its GetById,
 * as the source calls `printer_db.get_by_id`.
 */
module CostDb {
  import opened Wrappers
  import opened Text
  import opened DbUtils
  import PrinterDb

  /** The fifteen value columns of `cost_calculation`, all nullable. */
  datatype CostFields = CostFields(
    printTimeHours: Option<real>,
    laborTimeHours: Option<real>,
    filamentWeightG: Option<real>,
    materialCost: Option<real>,
    energyCost: Option<real>,
    depreciationCost: Option<real>,
    laborCost: Option<real>,
    consumablesCost: Option<real>,
    failureRate: Option<real>,
    markupRate: Option<real>,
    basePrice: Option<real>,
    upliftedPrice: Option<real>,
    finalPrice: Option<real>,
    currency: Option<string>,
    notes: Option<string>)

  const NoFields := CostFields(None, None, None, None, None, None, None, None, None, None, None, None, None, None, None)

  /** A row of `cost_calculation`: id, creation time, the two references and the value columns. */
  datatype CostCalculation = CostCalculation(
    id: int,
    created: Timestamp,
    printerId: Option<int>,
    filamentId: Option<int>,
    fields: CostFields)

  /** The numeric columns, in declaration order. */
  function Reals(f: CostFields): (vs: seq<Option<real>>)
    ensures |vs| == 13
  {
    [f.printTimeHours, f.laborTimeHours, f.filamentWeightG, f.materialCost, f.energyCost,
     f.depreciationCost, f.laborCost, f.consumablesCost, f.failureRate, f.markupRate,
     f.basePrice, f.upliftedPrice, f.finalPrice]
  }

  /** The text columns, in declaration order. */
  function Texts(f: CostFields): (vs: seq<Option<string>>)
    ensures |vs| == 2
  {
    [f.currency, f.notes]
  }

  /** The two views together are the whole record. */
  lemma ColumnsDetermineFields(a: CostFields, b: CostFields)
    requires Reals(a) == Reals(b) && Texts(a) == Texts(b)
    ensures a == b
  {
    assert Reals(a)[0] == Reals(b)[0] && Reals(a)[1] == Reals(b)[1] && Reals(a)[2] == Reals(b)[2];
    assert Reals(a)[3] == Reals(b)[3] && Reals(a)[4] == Reals(b)[4] && Reals(a)[5] == Reals(b)[5];
    assert Reals(a)[6] == Reals(b)[6] && Reals(a)[7] == Reals(b)[7] && Reals(a)[8] == Reals(b)[8];
    assert Reals(a)[9] == Reals(b)[9] && Reals(a)[10] == Reals(b)[10] && Reals(a)[11] == Reals(b)[11];
    assert Reals(a)[12] == Reals(b)[12] && Texts(a)[0] == Texts(b)[0] && Texts(a)[1] == Texts(b)[1];
  }

  /** The value columns after the fifteen `x if x is not None else calculation.x` assignments of `update`. */
  function Coalesced(patch: CostFields, current: CostFields): (r: CostFields)
    ensures forall i :: 0 <= i < 13 ==> Reals(r)[i] == Coalesce(Reals(patch)[i], Reals(current)[i])
    ensures forall i :: 0 <= i < 2 ==> Texts(r)[i] == Coalesce(Texts(patch)[i], Texts(current)[i])
  {
    CostFields(
      Coalesce(patch.printTimeHours, current.printTimeHours),
      Coalesce(patch.laborTimeHours, current.laborTimeHours),
      Coalesce(patch.filamentWeightG, current.filamentWeightG),
      Coalesce(patch.materialCost, current.materialCost),
      Coalesce(patch.energyCost, current.energyCost),
      Coalesce(patch.depreciationCost, current.depreciationCost),
      Coalesce(patch.laborCost, current.laborCost),
      Coalesce(patch.consumablesCost, current.consumablesCost),
      Coalesce(patch.failureRate, current.failureRate),
      Coalesce(patch.markupRate, current.markupRate),
      Coalesce(patch.basePrice, current.basePrice),
      Coalesce(patch.upliftedPrice, current.upliftedPrice),
      Coalesce(patch.finalPrice, current.finalPrice),
      Coalesce(patch.currency, current.currency),
      Coalesce(patch.notes, current.notes))
  }

  /**
   * What coalescing means for the stored values: no update clears a column
   * (the final price included), the empty patch changes nothing, and
   * applying the same patch twice is applying it once.
   */
  lemma CoalescedSpec(patch: CostFields, current: CostFields)
    ensures forall i :: 0 <= i < 13 && Reals(current)[i].Some? ==> Reals(Coalesced(patch, current))[i].Some?
    ensures forall i :: 0 <= i < 2 && Texts(current)[i].Some? ==> Texts(Coalesced(patch, current))[i].Some?
    ensures current.finalPrice.Some? ==> Coalesced(patch, current).finalPrice.Some?
    ensures Coalesced(NoFields, current) == current
    ensures Coalesced(patch, Coalesced(patch, current)) == Coalesced(patch, current)
  {
    var once := Coalesced(patch, current);
    assert Reals(current)[12] == current.finalPrice;
    assert Reals(once)[12] == once.finalPrice;
    ColumnsDetermineFields(Coalesced(NoFields, current), current);
    ColumnsDetermineFields(Coalesced(patch, once), once);
  }

  /** The record after `update` with the given arguments, when every reference exists. */
  function Updated(c: CostCalculation, printerId: Option<int>, filamentId: Option<int>, patch: CostFields): (r: CostCalculation)
    ensures r.id == c.id && r.created == c.created
  {
    c.(printerId := Coalesce(printerId, c.printerId),
       filamentId := Coalesce(filamentId, c.filamentId),
       fields := Coalesced(patch, c.fields))
  }

  /** Updating twice with the same arguments is updating once. */
  lemma UpdatedIdempotent(c: CostCalculation, printerId: Option<int>, filamentId: Option<int>, patch: CostFields)
    ensures Updated(Updated(c, printerId, filamentId, patch), printerId, filamentId, patch)
      == Updated(c, printerId, filamentId, patch)
  {
    CoalescedSpec(patch, c.fields);
  }

  function NotFoundMessage(id: int): string
  {
    "No cost calculation with ID " + IntToString(id) + " found."
  }

  function FilamentNotFoundMessage(id: int): string
  {
    "No filament with ID " + IntToString(id) + " found."
  }

  // ----- the id filters of `find` -----

  /**
   * A `printer_id`/`filament_id` filter as the query documents it: exact
   * match against any id of the list, -1 standing for "no reference"; no
   * list matches every row.
   */
  predicate IdMatches(ids: Option<seq<int>>, ref: Option<int>)
  {
    match ids
    case None => true
    case Some(list) => if ref.Some? then ref.value in list else -1 in list
  }

  /** The two WHERE clauses together: both must hold. */
  function CostFilter(printerIds: Option<seq<int>>, filamentIds: Option<seq<int>>): CostCalculation -> bool
  {
    (c: CostCalculation) => IdMatches(printerIds, c.printerId) && IdMatches(filamentIds, c.filamentId)
  }

  // ----- the table -----

  class CostTable {
    var rows: map<int, CostCalculation>
    /** Stand-in for the primary-key generator: every id in use is below it. */
    var nextId: nat

    ghost predicate Valid()
      reads this
    {
      nextId >= 1 && forall k :: k in rows ==> 1 <= k < nextId && rows[k].id == k
    }

    constructor()
      ensures Valid() && rows == map[]
    {
      rows := map[];
      nextId := 1;
    }

    /**
     * `create`: a given printer must exist, then a given filament; only
     * then is one row added, under a fresh id, holding the arguments.
     */
    method Create(printers: PrinterDb.PrinterTable, filaments: set<int>, printerId: Option<int>,
                  filamentId: Option<int>, fields: CostFields, now: Timestamp)
      returns (r: Result<CostCalculation, DbError>)
      requires Valid()
      modifies this
      ensures Valid()
      ensures printerId.Some? && printerId.value !in printers.rows ==>
        r == Failure(ItemNotFound(PrinterDb.NotFoundMessage(printerId.value))) && rows == old(rows)
      ensures (printerId.None? || printerId.value in printers.rows) && filamentId.Some? && filamentId.value !in filaments ==>
        r == Failure(ItemNotFound(FilamentNotFoundMessage(filamentId.value))) && rows == old(rows)
      ensures (printerId.None? || printerId.value in printers.rows) && (filamentId.None? || filamentId.value in filaments) ==>
        && r.Success?
        && r.value.id !in old(rows) && r.value.id >= 1
        && r.value == CostCalculation(r.value.id, now, printerId, filamentId, fields)
        && rows == old(rows)[r.value.id := r.value]
    {
      if printerId.Some? {
        var printer := printers.GetById(printerId.value);
        if printer.Failure? {
          return Failure(printer.error);
        }
      }
      if filamentId.Some? && filamentId.value !in filaments {
        return Failure(ItemNotFound(FilamentNotFoundMessage(filamentId.value)));
      }
      var calculation := CostCalculation(nextId, now, printerId, filamentId, fields);
      rows := rows[nextId := calculation];
      nextId := nextId + 1;
      r := Success(calculation);
    }

    /** `get_by_id`: the stored row, or ItemNotFoundError. */
    method GetById(id: int) returns (r: Result<CostCalculation, DbError>)
      ensures id in rows ==> r == Success(rows[id])
      ensures id !in rows ==> r == Failure(ItemNotFound(NotFoundMessage(id)))
    {
      if id !in rows {
        return Failure(ItemNotFound(NotFoundMessage(id)));
      }
      r := Success(rows[id]);
    }

    /**
     * `update`: the row must exist, then a given printer, then a given
     * filament; any of these raising leaves the table as it was (nothing is
     * committed). Otherwise the references and each value column are
     * assigned in turn, and no other row changes.
     */
    method Update(printers: PrinterDb.PrinterTable, filaments: set<int>, id: int, printerId: Option<int>,
                  filamentId: Option<int>, patch: CostFields) returns (r: Result<CostCalculation, DbError>)
      requires Valid()
      modifies this
      ensures Valid() && nextId == old(nextId)
      ensures id !in old(rows) ==> r == Failure(ItemNotFound(NotFoundMessage(id)))
      ensures id in old(rows) && printerId.Some? && printerId.value !in printers.rows ==>
        r == Failure(ItemNotFound(PrinterDb.NotFoundMessage(printerId.value)))
      ensures (id in old(rows) && (printerId.None? || printerId.value in printers.rows)
               && filamentId.Some? && filamentId.value !in filaments) ==>
        r == Failure(ItemNotFound(FilamentNotFoundMessage(filamentId.value)))
      ensures r.Failure? ==> rows == old(rows)
      ensures r.Success? ==>
        && id in old(rows)
        && r.value == Updated(old(rows)[id], printerId, filamentId, patch)
        && rows == old(rows)[id := r.value]
      ensures (id in old(rows) && (printerId.None? || printerId.value in printers.rows)
               && (filamentId.None? || filamentId.value in filaments)) ==> r.Success?
    {
      var found := GetById(id);
      if found.Failure? {
        return found;
      }
      var calculation := found.value;
      if printerId.Some? {
        var printer := printers.GetById(printerId.value);
        if printer.Failure? {
          return Failure(printer.error);
        }
        calculation := calculation.(printerId := printerId);
      }
      if filamentId.Some? {
        if filamentId.value !in filaments {
          return Failure(ItemNotFound(FilamentNotFoundMessage(filamentId.value)));
        }
        calculation := calculation.(filamentId := filamentId);
      }
      var f := calculation.fields;
      f := f.(printTimeHours := Coalesce(patch.printTimeHours, f.printTimeHours));
      f := f.(laborTimeHours := Coalesce(patch.laborTimeHours, f.laborTimeHours));
      f := f.(filamentWeightG := Coalesce(patch.filamentWeightG, f.filamentWeightG));
      f := f.(materialCost := Coalesce(patch.materialCost, f.materialCost));
      f := f.(energyCost := Coalesce(patch.energyCost, f.energyCost));
      f := f.(depreciationCost := Coalesce(patch.depreciationCost, f.depreciationCost));
      f := f.(laborCost := Coalesce(patch.laborCost, f.laborCost));
      f := f.(consumablesCost := Coalesce(patch.consumablesCost, f.consumablesCost));
      f := f.(failureRate := Coalesce(patch.failureRate, f.failureRate));
      f := f.(markupRate := Coalesce(patch.markupRate, f.markupRate));
      f := f.(basePrice := Coalesce(patch.basePrice, f.basePrice));
      f := f.(upliftedPrice := Coalesce(patch.upliftedPrice, f.upliftedPrice));
      f := f.(finalPrice := Coalesce(patch.finalPrice, f.finalPrice));
      f := f.(currency := Coalesce(patch.currency, f.currency));
      f := f.(notes := Coalesce(patch.notes, f.notes));
      calculation := calculation.(fields := f);
      rows := rows[id := calculation];
      r := Success(calculation);
    }

    /** `delete`: the row is gone and nothing else changes; an unknown id raises. */
    method Delete(id: int) returns (r: Result<(), DbError>)
      requires Valid()
      modifies this
      ensures Valid() && nextId == old(nextId)
      ensures id !in old(rows) ==> r == Failure(ItemNotFound(NotFoundMessage(id))) && rows == old(rows)
      ensures id in old(rows) ==> r == Success(()) && rows == old(rows) - {id}
    {
      if id !in rows {
        return Failure(ItemNotFound(NotFoundMessage(id)));
      }
      rows := rows - {id};
      r := Success(());
    }

    /** The rows both id filters keep, by ascending id. */
    function Matching(printerIds: Option<seq<int>>, filamentIds: Option<seq<int>>): seq<CostCalculation>
      reads this
    {
      RowsWhere(rows, nextId, CostFilter(printerIds, filamentIds))
    }

    /**
     * `find`: the WHERE clauses on both references; with a limit the total
     * is counted over them first and OFFSET/LIMIT is added; one ORDER BY per
     * sort entry; with no limit the total is the number of rows returned.
     */
    method Find(printerIds: Option<seq<int>>, filamentIds: Option<seq<int>>, sortBy: Option<SortMap>,
                limit: Option<nat>, offset: nat, cmp: FieldCompare<CostCalculation>)
      returns (items: seq<CostCalculation>, totalCount: nat)
      requires Valid()
      ensures items == Execute(FindStatement(if sortBy.Some? then sortBy.value else [], limit, offset),
        Matching(printerIds, filamentIds), cmp)
      ensures forall c :: c in items ==>
        c.id in rows && rows[c.id] == c && IdMatches(printerIds, c.printerId) && IdMatches(filamentIds, c.filamentId)
      ensures Antisymmetric(cmp) ==> SortedBy(items, if sortBy.Some? then sortBy.value else [], cmp)
      ensures limit.None? ==> multiset(items) == multiset(Matching(printerIds, filamentIds)) && totalCount == |items|
      ensures limit.Some? ==> |items| <= limit.value
      ensures totalCount == |KeysWhere(rows, CostFilter(printerIds, filamentIds))|
    {
      var matching := Matching(printerIds, filamentIds);
      var stmt := Statement([], None);
      var total: Option<nat> := None;
      if limit.Some? {
        total := Some(|matching|);
        stmt := stmt.(window := Some((offset, limit.value)));
      }
      if sortBy.Some? {
        for i := 0 to |sortBy.value|
          invariant stmt.orderBy == sortBy.value[..i]
          invariant stmt.window == if limit.Some? then Some((offset, limit.value)) else None
        {
          stmt := stmt.(orderBy := stmt.orderBy + [sortBy.value[i]]);
        }
        assert sortBy.value[..|sortBy.value|] == sortBy.value;
      }
      items := Execute(stmt, matching, cmp);
      totalCount := if total.None? then |items| else total.value;
      FindFacts(printerIds, filamentIds, stmt, cmp);
    }

    /** What the statement over the WHERE result yields, and the size of that result. */
    lemma FindFacts(printerIds: Option<seq<int>>, filamentIds: Option<seq<int>>, stmt: Statement,
                    cmp: FieldCompare<CostCalculation>)
      requires Valid()
      ensures var items := Execute(stmt, Matching(printerIds, filamentIds), cmp);
        && (forall c :: c in items ==>
              c.id in rows && rows[c.id] == c && IdMatches(printerIds, c.printerId) && IdMatches(filamentIds, c.filamentId))
        && (Antisymmetric(cmp) ==> SortedBy(items, stmt.orderBy, cmp))
        && (stmt.window.None? ==>
              multiset(items) == multiset(Matching(printerIds, filamentIds)) && |items| == |Matching(printerIds, filamentIds)|)
        && (stmt.window.Some? ==> |items| <= stmt.window.value.1)
      ensures |Matching(printerIds, filamentIds)| == |KeysWhere(rows, CostFilter(printerIds, filamentIds))|
    {
      RowsWhereMembers(rows, nextId, CostFilter(printerIds, filamentIds), (c: CostCalculation) => c.id);
      ExecuteSpec(stmt, Matching(printerIds, filamentIds), cmp);
      RowsWhereCountAll(rows, nextId, CostFilter(printerIds, filamentIds));
    }
  }
}
