/**
 * spoolman/database/printer.py: the `printer` table and its create, get,
 * find, update and delete operations. The table is a map from id to record;
 * the session, commit/refresh and the websocket broadcast after each change
 * are not part of this model.
 */
module PrinterDb {
  import opened Wrappers
  import opened Text
  import opened DbUtils

  /** A row of `printer` (name NOT NULL; the other columns nullable). */
  datatype Printer = Printer(
    id: int,
    registered: Timestamp,
    name: string,
    powerWatts: Option<real>,
    depreciationCostPerHour: Option<real>,
    comment: Option<string>)

  /** The keyword arguments of `update` after `printer_id`; `None` means "leave as is". */
  datatype PrinterPatch = PrinterPatch(
    name: Option<string>,
    powerWatts: Option<real>,
    depreciationCostPerHour: Option<real>,
    comment: Option<string>)

  const NoChange := PrinterPatch(None, None, None, None)

  /** The printer after the four coalescing assignments of `update`. */
  function Patched(p: Printer, patch: PrinterPatch): (r: Printer)
    ensures r.id == p.id && r.registered == p.registered
  {
    p.(name := if patch.name.Some? then patch.name.value else p.name,
       powerWatts := Coalesce(patch.powerWatts, p.powerWatts),
       depreciationCostPerHour := Coalesce(patch.depreciationCostPerHour, p.depreciationCostPerHour),
       comment := Coalesce(patch.comment, p.comment))
  }

  /** The patch whose given fields win over those of `earlier`. */
  function Then(earlier: PrinterPatch, later: PrinterPatch): PrinterPatch
  {
    PrinterPatch(
      Coalesce(later.name, earlier.name),
      Coalesce(later.powerWatts, earlier.powerWatts),
      Coalesce(later.depreciationCostPerHour, earlier.depreciationCostPerHour),
      Coalesce(later.comment, earlier.comment))
  }

  /**
   * Coalescing update: a given field takes the argument, an absent one keeps
   * its value, so no update can clear a column; the empty patch changes
   * nothing; applying a patch twice is applying it once; and two updates in a
   * row are the one update whose later arguments win.
   */
  lemma PatchedSpec(p: Printer, patch: PrinterPatch, later: PrinterPatch)
    ensures var r := Patched(p, patch);
      && (patch.name.Some? ==> r.name == patch.name.value)
      && (patch.powerWatts.Some? ==> r.powerWatts == patch.powerWatts)
      && (patch.depreciationCostPerHour.Some? ==> r.depreciationCostPerHour == patch.depreciationCostPerHour)
      && (patch.comment.Some? ==> r.comment == patch.comment)
      && (patch.name.None? ==> r.name == p.name)
      && (patch.powerWatts.None? ==> r.powerWatts == p.powerWatts)
      && (patch.depreciationCostPerHour.None? ==> r.depreciationCostPerHour == p.depreciationCostPerHour)
      && (patch.comment.None? ==> r.comment == p.comment)
    ensures Patched(p, NoChange) == p
    ensures Patched(Patched(p, patch), patch) == Patched(p, patch)
    ensures Patched(Patched(p, patch), later) == Patched(p, Then(patch, later))
  {
  }

  /** ItemNotFoundError's message for a printer id. */
  function NotFoundMessage(id: int): string
  {
    "No printer with ID " + IntToString(id) + " found."
  }

  // ----- the name filter -----

  /** A term written between double quotes. */
  predicate IsQuoted(term: string)
  {
    |term| >= 2 && term[0] == '"' && term[|term| - 1] == '"'
  }

  /** One search term: a quoted term matches the exact name, any other term a case-insensitive part of it. */
  predicate TermMatches(term: string, name: string)
  {
    if IsQuoted(term) then name == term[1..|term| - 1]
    else Contains(Lower(name), Lower(term))
  }

  /** The `name` query: comma-separated terms, any of which may match; no filter matches every printer. */
  predicate NameMatches(filter: Option<string>, name: string)
  {
    filter.None? || exists i :: 0 <= i < |Split(filter.value, ',')| && TermMatches(Split(filter.value, ',')[i], name)
  }

  /** The WHERE clause on `name`, as a test on rows. */
  function NameFilter(filter: Option<string>): Printer -> bool
  {
    (p: Printer) => NameMatches(filter, p.name)
  }

  lemma ContainsItself(s: string)
    ensures Contains(s, s)
  {
  }

  /** A printer is found by its own name, quoted or not, and by no filter at all. */
  lemma NameMatchesOwnName(name: string)
    requires ',' !in name
    ensures NameMatches(None, name)
    ensures !IsQuoted(name) ==> NameMatches(Some(name), name)
    ensures NameMatches(Some("\"" + name + "\""), name)
  {
    ContainsItself(Lower(name));
    assert Split(name, ',') == [name];
    assert !IsQuoted(name) ==> TermMatches(Split(name, ',')[0], name);
    var quoted := "\"" + name + "\"";
    assert ',' !in quoted by {
      forall i | 0 <= i < |quoted| ensures quoted[i] != ',' {
        if 0 < i < |quoted| - 1 {
          assert quoted[i] == name[i - 1];
        }
      }
    }
    assert Split(quoted, ',') == [quoted];
    assert quoted[1..|quoted| - 1] == name;
    assert TermMatches(Split(quoted, ',')[0], name);
  }

  /**
   * One unquoted term: it matches exactly the names holding it as a part,
   * ignoring case, and so does its lower-cased form.
   */
  lemma NameFilterTerm(term: string, name: string)
    requires ',' !in term && !IsQuoted(term)
    ensures NameMatches(Some(term), name) <==> Contains(Lower(name), Lower(term))
    ensures NameMatches(Some(Lower(term)), name) == NameMatches(Some(term), name)
  {
    var lowered := Lower(term);
    LowerOfLower(term);
    assert ',' !in lowered by {
      forall i | 0 <= i < |lowered| ensures lowered[i] != ',' {
        assert term[i] != ',';
      }
    }
    assert !IsQuoted(lowered);
    SingleTermMatches(term, name);
    SingleTermMatches(lowered, name);
  }

  /** A filter without a comma is a single term. */
  lemma SingleTermMatches(term: string, name: string)
    requires ',' !in term
    ensures NameMatches(Some(term), name) <==> TermMatches(term, name)
  {
    var terms := Split(term, ',');
    assert terms == [term];
    if TermMatches(term, name) {
      assert TermMatches(terms[0], name);
    }
  }

  // ----- the table -----

  class PrinterTable {
    var rows: map<int, Printer>
    /** Stand-in for the primary-key generator: every id in use is below it. */
    var nextId: nat

    ghost predicate Valid()
      reads this
    {
      nextId >= 1 && forall k :: k in rows ==> 1 <= k < nextId && rows[k].id == k
    }

    constructor()
      ensures Valid() && rows == map[]
    {
      rows := map[];
      nextId := 1;
    }

    /** `create`: one new row under a fresh id, holding the arguments and the time of the call. */
    method Create(name: string, powerWatts: Option<real>, depreciationCostPerHour: Option<real>,
                  comment: Option<string>, now: Timestamp) returns (p: Printer)
      requires Valid()
      modifies this
      ensures Valid()
      ensures p.id !in old(rows) && p.id >= 1
      ensures p == Printer(p.id, now, name, powerWatts, depreciationCostPerHour, comment)
      ensures rows == old(rows)[p.id := p]
    {
      p := Printer(nextId, now, name, powerWatts, depreciationCostPerHour, comment);
      rows := rows[nextId := p];
      nextId := nextId + 1;
    }

    /** `get_by_id`: the stored row, or ItemNotFoundError. */
    method GetById(id: int) returns (r: Result<Printer, DbError>)
      ensures id in rows ==> r == Success(rows[id])
      ensures id !in rows ==> r == Failure(ItemNotFound(NotFoundMessage(id)))
    {
      if id !in rows {
        return Failure(ItemNotFound(NotFoundMessage(id)));
      }
      r := Success(rows[id]);
    }

    /**
     * `update`: fetch the row (not found raises before anything changes),
     * then assign each column in turn; no other row changes.
     */
    method Update(id: int, patch: PrinterPatch) returns (r: Result<Printer, DbError>)
      requires Valid()
      modifies this
      ensures Valid() && nextId == old(nextId)
      ensures id !in old(rows) ==> r == Failure(ItemNotFound(NotFoundMessage(id))) && rows == old(rows)
      ensures id in old(rows) ==> r == Success(Patched(old(rows)[id], patch)) && rows == old(rows)[id := r.value]
    {
      r := GetById(id);
      if r.Failure? {
        return;
      }
      var printer := r.value;
      printer := printer.(name := if patch.name.Some? then patch.name.value else printer.name);
      printer := printer.(powerWatts := Coalesce(patch.powerWatts, printer.powerWatts));
      printer := printer.(depreciationCostPerHour := Coalesce(patch.depreciationCostPerHour, printer.depreciationCostPerHour));
      printer := printer.(comment := Coalesce(patch.comment, printer.comment));
      rows := rows[id := printer];
      r := Success(printer);
    }

    /** `delete`: the row is gone and nothing else changes; an unknown id raises. */
    method Delete(id: int) returns (r: Result<(), DbError>)
      requires Valid()
      modifies this
      ensures Valid() && nextId == old(nextId)
      ensures id !in old(rows) ==> r == Failure(ItemNotFound(NotFoundMessage(id))) && rows == old(rows)
      ensures id in old(rows) ==> r == Success(()) && rows == old(rows) - {id}
    {
      if id !in rows {
        return Failure(ItemNotFound(NotFoundMessage(id)));
      }
      rows := rows - {id};
      r := Success(());
    }

    /** The rows the WHERE clause on `name` keeps, by ascending id. */
    function Matching(name: Option<string>): seq<Printer>
      reads this
    {
      RowsWhere(rows, nextId, NameFilter(name))
    }

    /**
     * `find`: the statement gets its OFFSET/LIMIT when a limit is given (the
     * total is then counted first over the WHERE alone) and one ORDER BY per
     * sort entry; with no limit the total is the number of rows returned.
     */
    method Find(name: Option<string>, sortBy: Option<SortMap>, limit: Option<nat>, offset: nat,
                cmp: FieldCompare<Printer>) returns (items: seq<Printer>, totalCount: nat)
      requires Valid()
      ensures items == Execute(FindStatement(if sortBy.Some? then sortBy.value else [], limit, offset),
        Matching(name), cmp)
      ensures forall p :: p in items ==> p.id in rows && rows[p.id] == p && NameMatches(name, p.name)
      ensures Antisymmetric(cmp) ==> SortedBy(items, if sortBy.Some? then sortBy.value else [], cmp)
      ensures limit.None? ==> multiset(items) == multiset(Matching(name)) && totalCount == |items|
      ensures limit.Some? ==> |items| <= limit.value
      ensures totalCount == |KeysWhere(rows, NameFilter(name))|
    {
      var matching := Matching(name);
      var stmt := Statement([], None);
      var total: Option<nat> := None;
      if limit.Some? {
        total := Some(|matching|);
        stmt := stmt.(window := Some((offset, limit.value)));
      }
      if sortBy.Some? {
        for i := 0 to |sortBy.value|
          invariant stmt.orderBy == sortBy.value[..i]
          invariant stmt.window == if limit.Some? then Some((offset, limit.value)) else None
        {
          stmt := stmt.(orderBy := stmt.orderBy + [sortBy.value[i]]);
        }
        assert sortBy.value[..|sortBy.value|] == sortBy.value;
      }
      items := Execute(stmt, matching, cmp);
      totalCount := if total.None? then |items| else total.value;
      FindFacts(name, stmt, cmp);
    }

    /** What the statement over the WHERE result yields, and the size of that result. */
    lemma FindFacts(name: Option<string>, stmt: Statement, cmp: FieldCompare<Printer>)
      requires Valid()
      ensures var items := Execute(stmt, Matching(name), cmp);
        && (forall p :: p in items ==> p.id in rows && rows[p.id] == p && NameMatches(name, p.name))
        && (Antisymmetric(cmp) ==> SortedBy(items, stmt.orderBy, cmp))
        && (stmt.window.None? ==> multiset(items) == multiset(Matching(name)) && |items| == |Matching(name)|)
        && (stmt.window.Some? ==> |items| <= stmt.window.value.1)
      ensures |Matching(name)| == |KeysWhere(rows, NameFilter(name))|
    {
      RowsWhereMembers(rows, nextId, NameFilter(name), (p: Printer) => p.id);
      ExecuteSpec(stmt, Matching(name), cmp);
      MatchingCount(name);
    }

    lemma MatchingCount(name: Option<string>)
      requires Valid()
      ensures |Matching(name)| == |KeysWhere(rows, NameFilter(name))|
    {
      RowsWhereCountAll(rows, nextId, NameFilter(name));
    }
  }
}
