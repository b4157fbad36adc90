/**
 * spoolman/api/v1/cost.py: the id-list query parser `_parse_int_csv`, the
 * request body of the cost endpoints and its validation, and the
 * find/get/create/update/delete handlers over a CostDb.CostTable. The
 * websocket endpoints are not part of this model.
 */
module CostApi {
  import opened Wrappers
  import opened Text
  import opened DbUtils
  import opened Http
  import opened SortParam
  import PrinterDb
  import opened CostDb

  // ----- `_parse_int_csv` -----

  /** `[int(v) for v in pieces]`: the first piece `int` rejects raises ValueError, reported here with that piece. */
  function ParseInts(pieces: seq<string>): (r: Result<seq<int>, string>)
    ensures r.Success? <==> forall i :: 0 <= i < |pieces| ==> IsIntLiteral(pieces[i])
    ensures r.Success? ==> |r.value| == |pieces| && forall i :: 0 <= i < |pieces| ==> ParseInt(pieces[i]) == Some(r.value[i])
    ensures r.Failure? ==> r.error in pieces && !IsIntLiteral(r.error)
  {
    if pieces == [] then Success([])
    else
      assert forall i :: 1 <= i < |pieces| ==> pieces[i] == pieces[1..][i - 1];
      match ParseInt(pieces[0])
      case None => Failure(pieces[0])
      case Some(x) =>
        match ParseInts(pieces[1..])
        case Failure(e) => Failure(e)
        case Success(xs) => Success([x] + xs)
  }

  /** The query pattern `^-?\d+(,-?\d+)*$`: decimal integers separated by single commas. */
  predicate MatchesIdPattern(s: string)
  {
    forall i :: 0 <= i < |Split(s, ',')| ==> IsIntLiteral(Split(s, ',')[i])
  }

  /** `_parse_int_csv`: None stays None; otherwise the comma-separated pieces as ints. */
  function ParseIntCsv(value: Option<string>): (r: Result<Option<seq<int>>, string>)
    ensures value.None? ==> r == Success(None)
    ensures value.Some? ==> (r.Success? <==> MatchesIdPattern(value.value))
    ensures value.Some? && r.Success? ==> r.value.Some?
  {
    match value
    case None => Success(None)
    case Some(s) =>
      match ParseInts(Split(s, ','))
      case Failure(piece) => Failure(piece)
      case Success(ids) => Success(Some(ids))
  }

  /** For a string the query pattern admits: one int per piece, in order, one more than there are commas. */
  lemma ParseIntCsvSpec(s: string)
    requires MatchesIdPattern(s)
    ensures ParseIntCsv(Some(s)).Success?
    ensures var ids := ParseIntCsv(Some(s)).value.value;
      && |ids| == Count(s, ',') + 1
      && forall i :: 0 <= i < |ids| ==> ParseInt(Split(s, ',')[i]) == Some(ids[i])
  {
    SplitCount(s, ',');
  }

  /** `",".join(str(i) for i in ids)`. */
  function JoinInts(ids: seq<int>): string
    requires |ids| >= 1
  {
    Join(seq(|ids|, i requires 0 <= i < |ids| => IntToString(ids[i])), ',')
  }

  /** Writing a non-empty id list the way the query expects and parsing it gives the list back. */
  lemma ParseIntCsvRoundTrip(ids: seq<int>)
    requires |ids| >= 1
    ensures MatchesIdPattern(JoinInts(ids))
    ensures ParseIntCsv(Some(JoinInts(ids))) == Success(Some(ids))
  {
    var parts := seq(|ids|, i requires 0 <= i < |ids| => IntToString(ids[i]));
    forall i | 0 <= i < |parts|
      ensures ',' !in parts[i] && ParseInt(parts[i]) == Some(ids[i]) && IsIntLiteral(parts[i])
    {
      IntToStringRoundTrip(ids[i]);
    }
    SplitJoin(parts, ',');
    var r := ParseInts(parts);
    assert r.Success?;
    assert r.value == ids by {
      forall i | 0 <= i < |ids| ensures r.value[i] == ids[i] {
        assert ParseInt(parts[i]) == Some(r.value[i]);
      }
    }
  }

  /** The query validation of `printer_id` and `filament_id`: a given value must match the pattern. */
  function QueryErrors(printerId: Option<string>, filamentId: Option<string>): (errs: seq<FieldError>)
    ensures errs == [] <==>
      (printerId.Some? ==> MatchesIdPattern(printerId.value)) && (filamentId.Some? ==> MatchesIdPattern(filamentId.value))
    ensures printerId.Some? && !MatchesIdPattern(printerId.value) ==> PatternMismatch("printer_id") in errs
    ensures filamentId.Some? && !MatchesIdPattern(filamentId.value) ==> PatternMismatch("filament_id") in errs
  {
    (if printerId.Some? && !MatchesIdPattern(printerId.value) then [PatternMismatch("printer_id")] else [])
      + (if filamentId.Some? && !MatchesIdPattern(filamentId.value) then [PatternMismatch("filament_id")] else [])
  }

  // ----- the request body -----

  /** `CostCalculationParameters` (the update body is the same model); absent and null are both `None`. */
  datatype CostBody = CostBody(
    printerId: Option<int>,
    filamentId: Option<int>,
    printTimeHours: Option<real>,
    laborTimeHours: Option<real>,
    filamentWeightG: Option<real>,
    materialCost: Option<real>,
    energyCost: Option<real>,
    energyCostPerKwh: Option<real>,
    depreciationCost: Option<real>,
    laborCost: Option<real>,
    laborCostPerHour: Option<real>,
    consumablesCost: Option<real>,
    failureRate: Option<real>,
    markupRate: Option<real>,
    basePrice: Option<real>,
    upliftedPrice: Option<real>,
    finalPrice: Option<real>,
    currency: Option<string>,
    itemNames: Option<string>,
    notes: Option<string>)

  /** The fields declared with `ge=0`, by their JSON names. */
  function NumericFields(b: CostBody): seq<(string, Option<real>)>
  {
    [("print_time_hours", b.printTimeHours), ("labor_time_hours", b.laborTimeHours),
     ("filament_weight_g", b.filamentWeightG), ("material_cost", b.materialCost),
     ("energy_cost", b.energyCost), ("energy_cost_per_kwh", b.energyCostPerKwh),
     ("depreciation_cost", b.depreciationCost), ("labor_cost", b.laborCost),
     ("labor_cost_per_hour", b.laborCostPerHour), ("consumables_cost", b.consumablesCost),
     ("failure_rate", b.failureRate), ("markup_rate", b.markupRate),
     ("base_price", b.basePrice), ("uplifted_price", b.upliftedPrice), ("final_price", b.finalPrice)]
  }

  /** The fields declared with `max_length`, with their limits. */
  function TextFields(b: CostBody): seq<(string, Option<string>, nat)>
  {
    [("currency", b.currency, 8), ("item_names", b.itemNames, 512), ("notes", b.notes, 1024)]
  }

  /** Every number of the body non-negative, and each text within its limit. */
  predicate ValidBody(b: CostBody)
  {
    && NonNegative(b.printTimeHours) && NonNegative(b.laborTimeHours) && NonNegative(b.filamentWeightG)
    && NonNegative(b.materialCost) && NonNegative(b.energyCost) && NonNegative(b.energyCostPerKwh)
    && NonNegative(b.depreciationCost) && NonNegative(b.laborCost) && NonNegative(b.laborCostPerHour)
    && NonNegative(b.consumablesCost) && NonNegative(b.failureRate) && NonNegative(b.markupRate)
    && NonNegative(b.basePrice) && NonNegative(b.upliftedPrice) && NonNegative(b.finalPrice)
    && WithinLength(b.currency, 8) && WithinLength(b.itemNames, 512) && WithinLength(b.notes, 1024)
  }

  lemma NumericFieldsValid(b: CostBody)
    ensures (forall i :: 0 <= i < |NumericFields(b)| ==> NonNegative(NumericFields(b)[i].1)) <==>
      && NonNegative(b.printTimeHours) && NonNegative(b.laborTimeHours) && NonNegative(b.filamentWeightG)
      && NonNegative(b.materialCost) && NonNegative(b.energyCost) && NonNegative(b.energyCostPerKwh)
      && NonNegative(b.depreciationCost) && NonNegative(b.laborCost) && NonNegative(b.laborCostPerHour)
      && NonNegative(b.consumablesCost) && NonNegative(b.failureRate) && NonNegative(b.markupRate)
      && NonNegative(b.basePrice) && NonNegative(b.upliftedPrice) && NonNegative(b.finalPrice)
  {
    var numbers := NumericFields(b);
    assert numbers[0].1 == b.printTimeHours && numbers[1].1 == b.laborTimeHours && numbers[2].1 == b.filamentWeightG;
    assert numbers[3].1 == b.materialCost && numbers[4].1 == b.energyCost && numbers[5].1 == b.energyCostPerKwh;
    assert numbers[6].1 == b.depreciationCost && numbers[7].1 == b.laborCost && numbers[8].1 == b.laborCostPerHour;
    assert numbers[9].1 == b.consumablesCost && numbers[10].1 == b.failureRate && numbers[11].1 == b.markupRate;
    assert numbers[12].1 == b.basePrice && numbers[13].1 == b.upliftedPrice && numbers[14].1 == b.finalPrice;
  }

  lemma TextFieldsValid(b: CostBody)
    ensures (forall i :: 0 <= i < |TextFields(b)| ==> WithinLength(TextFields(b)[i].1, TextFields(b)[i].2)) <==>
      WithinLength(b.currency, 8) && WithinLength(b.itemNames, 512) && WithinLength(b.notes, 1024)
  {
    var texts := TextFields(b);
    assert texts[0].1 == b.currency && texts[1].1 == b.itemNames && texts[2].1 == b.notes;
  }

  /** The validation errors of a body: one per broken constraint, none exactly for a valid body. */
  function BodyErrors(b: CostBody): (errs: seq<FieldError>)
    ensures errs == [] <==> ValidBody(b)
    ensures forall i :: 0 <= i < |NumericFields(b)| && !NonNegative(NumericFields(b)[i].1) ==>
      LessThanZero(NumericFields(b)[i].0) in errs
    ensures forall i :: 0 <= i < |TextFields(b)| && !WithinLength(TextFields(b)[i].1, TextFields(b)[i].2) ==>
      TooLong(TextFields(b)[i].0, TextFields(b)[i].2) in errs
  {
    NumericFieldsValid(b);
    TextFieldsValid(b);
    NonNegativeErrors(NumericFields(b)) + LengthErrors(TextFields(b))
  }

  /** The values `cost_db` stores: the body without energy_cost_per_kwh, labor_cost_per_hour and item_names. */
  function PersistedFields(b: CostBody): (f: CostFields)
    ensures f.printTimeHours == b.printTimeHours && f.finalPrice == b.finalPrice
    ensures f.currency == b.currency && f.notes == b.notes
  {
    CostFields(b.printTimeHours, b.laborTimeHours, b.filamentWeightG, b.materialCost, b.energyCost,
               b.depreciationCost, b.laborCost, b.consumablesCost, b.failureRate, b.markupRate,
               b.basePrice, b.upliftedPrice, b.finalPrice, b.currency, b.notes)
  }

  /**
   * The stored values do not depend on the three fields the database layer
   * does not take, and those of a valid body fit their columns: no negative
   * number, currency within String(8), notes within String(1024).
   */
  lemma PersistedFieldsSpec(b: CostBody, energyCostPerKwh: Option<real>, laborCostPerHour: Option<real>,
                            itemNames: Option<string>)
    ensures PersistedFields(b.(energyCostPerKwh := energyCostPerKwh, laborCostPerHour := laborCostPerHour,
                               itemNames := itemNames)) == PersistedFields(b)
    ensures BodyErrors(b) == [] ==>
      && (forall i :: 0 <= i < 13 ==> NonNegative(Reals(PersistedFields(b))[i]))
      && WithinLength(PersistedFields(b).currency, 8)
      && WithinLength(PersistedFields(b).notes, 1024)
  {
    if BodyErrors(b) == [] {
      var stored := Reals(PersistedFields(b));
      assert stored == [b.printTimeHours, b.laborTimeHours, b.filamentWeightG, b.materialCost, b.energyCost,
                        b.depreciationCost, b.laborCost, b.consumablesCost, b.failureRate, b.markupRate,
                        b.basePrice, b.upliftedPrice, b.finalPrice];
    }
  }

  // ----- calling the database layer -----

  /** The keyword argument names the cost handlers and `cost_db` use. */
  datatype Keyword =
    | Db | CalculationId | PrinterIdArg | FilamentIdArg | PrintTimeHours | LaborTimeHours | FilamentWeightG
    | MaterialCost | EnergyCost | EnergyCostPerKwh | DepreciationCost | LaborCost | LaborCostPerHour
    | ConsumablesCost | FailureRate | MarkupRate | BasePrice | UpliftedPrice | FinalPrice | Currency
    | ItemNames | Notes

  /** The keyword parameters of `cost_db.create`. */
  const DbCreateParameters: set<Keyword> := {
    Db, PrinterIdArg, FilamentIdArg, PrintTimeHours, LaborTimeHours, FilamentWeightG, MaterialCost, EnergyCost,
    DepreciationCost, LaborCost, ConsumablesCost, FailureRate, MarkupRate, BasePrice, UpliftedPrice, FinalPrice,
    Currency, Notes}

  /** The keyword parameters of `cost_db.update`. */
  const DbUpdateParameters: set<Keyword> := DbCreateParameters + {CalculationId}

  /** The body's keyword arguments the handlers pass, in call order. */
  const BodyKeywords: seq<Keyword> := [
    PrinterIdArg, FilamentIdArg, PrintTimeHours, LaborTimeHours, FilamentWeightG, MaterialCost, EnergyCost,
    EnergyCostPerKwh, DepreciationCost, LaborCost, LaborCostPerHour, ConsumablesCost, FailureRate, MarkupRate,
    BasePrice, UpliftedPrice, FinalPrice, Currency, ItemNames, Notes]

  /** Only those of them the database layer stores. */
  const PersistedKeywords: seq<Keyword> := [
    PrinterIdArg, FilamentIdArg, PrintTimeHours, LaborTimeHours, FilamentWeightG, MaterialCost, EnergyCost,
    DepreciationCost, LaborCost, ConsumablesCost, FailureRate, MarkupRate,
    BasePrice, UpliftedPrice, FinalPrice, Currency, Notes]

  /**
   * Python's binding of keyword arguments: the first one the callee does not
   * declare raises TypeError before the callee's body runs.
   */
  function UnexpectedKeyword(passed: seq<Keyword>, accepted: set<Keyword>): (r: Option<Keyword>)
    ensures r.None? <==> forall i :: 0 <= i < |passed| ==> passed[i] in accepted
    ensures r.Some? ==> r.value in passed && r.value !in accepted
  {
    if passed == [] then None
    else if passed[0] !in accepted then Some(passed[0])
    else
      assert forall i :: 1 <= i < |passed| ==> passed[i] == passed[1..][i - 1];
      UnexpectedKeyword(passed[1..], accepted)
  }

  /** The calls as written pass energy_cost_per_kwh, which neither database function declares. */
  lemma AsWrittenCallsRejected()
    ensures UnexpectedKeyword([Db] + BodyKeywords, DbCreateParameters) == Some(EnergyCostPerKwh)
    ensures UnexpectedKeyword([Db, CalculationId] + BodyKeywords, DbUpdateParameters) == Some(EnergyCostPerKwh)
  {
    BodyKeywordsStopAtEnergyRate([Db], DbCreateParameters);
    BodyKeywordsStopAtEnergyRate([Db, CalculationId], DbUpdateParameters);
  }

  /** Behind any accepted leading keywords, binding the body's keywords fails at energy_cost_per_kwh. */
  lemma BodyKeywordsStopAtEnergyRate(lead: seq<Keyword>, accepted: set<Keyword>)
    requires accepted == DbCreateParameters || accepted == DbUpdateParameters
    requires forall i :: 0 <= i < |lead| ==> lead[i] in accepted
    ensures UnexpectedKeyword(lead + BodyKeywords, accepted) == Some(EnergyCostPerKwh)
  {
    var prefix := [PrinterIdArg, FilamentIdArg, PrintTimeHours, LaborTimeHours, FilamentWeightG, MaterialCost, EnergyCost];
    var rest := BodyKeywords[8..];
    assert BodyKeywords == prefix + [EnergyCostPerKwh] + rest;
    var bound := lead + prefix;
    assert lead + BodyKeywords == bound + [EnergyCostPerKwh] + rest;
    assert forall i :: 0 <= i < |bound| ==> bound[i] in accepted by {
      forall i | 0 <= i < |bound| ensures bound[i] in accepted {
        if i >= |lead| {
          assert bound[i] == prefix[i - |lead|];
        }
      }
    }
    UnexpectedKeywordStopsAt(bound, EnergyCostPerKwh, rest, accepted);
  }

  /** Binding stops at the first keyword the callee does not declare. */
  lemma {:induction false} UnexpectedKeywordStopsAt(bound: seq<Keyword>, k: Keyword, rest: seq<Keyword>, accepted: set<Keyword>)
    requires forall i :: 0 <= i < |bound| ==> bound[i] in accepted
    requires k !in accepted
    ensures UnexpectedKeyword(bound + [k] + rest, accepted) == Some(k)
  {
    if bound == [] {
      assert bound + [k] + rest == [k] + rest;
    } else {
      assert (bound + [k] + rest)[1..] == bound[1..] + [k] + rest;
      UnexpectedKeywordStopsAt(bound[1..], k, rest, accepted);
    }
  }

  /** Passing only the stored fields binds. */
  lemma PersistedCallsAccepted()
    ensures UnexpectedKeyword([Db] + PersistedKeywords, DbCreateParameters).None?
    ensures UnexpectedKeyword([Db, CalculationId] + PersistedKeywords, DbUpdateParameters).None?
  {
    PersistedKeywordsBind([Db], DbCreateParameters);
    PersistedKeywordsBind([Db, CalculationId], DbUpdateParameters);
  }

  lemma PersistedKeywordsBind(lead: seq<Keyword>, accepted: set<Keyword>)
    requires DbCreateParameters <= accepted
    requires forall i :: 0 <= i < |lead| ==> lead[i] in accepted
    ensures UnexpectedKeyword(lead + PersistedKeywords, accepted).None?
  {
    var passed := lead + PersistedKeywords;
    forall i | 0 <= i < |passed| ensures passed[i] in accepted {
      if i >= |lead| {
        assert passed[i] == PersistedKeywords[i - |lead|];
      }
    }
  }

  // ----- handlers -----

  /**
   * `find`: the id lists are validated against the query pattern (422), the
   * sort string is parsed (a malformed one raises: 500), both id lists are
   * parsed, and the matching rows are answered with `x-total-count`.
   */
  method Find(table: CostTable, printerId: Option<string>, filamentId: Option<string>, sort: Option<string>,
              limit: Option<nat>, offset: nat, cmp: FieldCompare<CostCalculation>) returns (resp: Response<CostCalculation>)
    requires table.Valid()
    ensures QueryErrors(printerId, filamentId) != [] ==> resp == Unprocessable(QueryErrors(printerId, filamentId))
    ensures QueryErrors(printerId, filamentId) == [] && SortSpec(sort).Failure? ==> resp == InternalError()
    ensures QueryErrors(printerId, filamentId) == [] && SortSpec(sort).Success? ==>
      var printerIds := ParseIntCsv(printerId).value;
      var filamentIds := ParseIntCsv(filamentId).value;
      && resp.status == 200
      && resp.body == Items(Execute(FindStatement(SortSpec(sort).value, limit, offset), table.Matching(printerIds, filamentIds), cmp))
      && resp.totalCount == Some(IntToString(|KeysWhere(table.rows, CostFilter(printerIds, filamentIds))|))
      && (forall c :: c in resp.body.items ==>
            c.id in table.rows && table.rows[c.id] == c && IdMatches(printerIds, c.printerId) && IdMatches(filamentIds, c.filamentId))
      && (limit.Some? ==> |resp.body.items| <= limit.value)
      && (limit.None? ==> |resp.body.items| == |KeysWhere(table.rows, CostFilter(printerIds, filamentIds))|)
      && ParseInt(resp.totalCount.value) == Some(|KeysWhere(table.rows, CostFilter(printerIds, filamentIds))|)
  {
    var errs := QueryErrors(printerId, filamentId);
    if errs != [] {
      return Unprocessable(errs);
    }
    var sortBy := ParseSort(sort);
    if sortBy.Failure? {
      return InternalError();
    }
    var printerIds := ParseIntCsv(printerId).value;
    var filamentIds := ParseIntCsv(filamentId).value;
    var items, totalCount := table.Find(printerIds, filamentIds, Some(sortBy.value), limit, offset, cmp);
    IntToStringRoundTrip(totalCount);
    resp := Response(200, Items(items), Some(IntToString(totalCount)));
  }

  /** `get`: the calculation, or 404 with the not-found message. */
  method Get(table: CostTable, id: int) returns (resp: Response<CostCalculation>)
    ensures id in table.rows ==> resp == Ok(Item(table.rows[id]))
    ensures id !in table.rows ==> resp == NotFound(CostDb.NotFoundMessage(id))
  {
    var r := table.GetById(id);
    match r
    case Failure(ItemNotFound(message)) => resp := NotFound(message);
    case Success(c) => resp := Ok(Item(c));
  }

  /**
   * The create handler, passing `keywords` to `cost_db.create`: 422 for a
   * bad body; 500 when a keyword does not bind; 404 for an unknown printer
   * or filament; else 201 and the new calculation.
   */
  method CreateWithKeywords(keywords: seq<Keyword>, table: CostTable, printers: PrinterDb.PrinterTable,
                            filaments: set<int>, body: CostBody, now: Timestamp) returns (resp: Response<CostCalculation>)
    requires table.Valid()
    modifies table
    ensures table.Valid()
    ensures resp.status != 201 ==> table.rows == old(table.rows)
    ensures BodyErrors(body) != [] ==> resp == Unprocessable(BodyErrors(body))
    ensures BodyErrors(body) == [] && UnexpectedKeyword([Db] + keywords, DbCreateParameters).Some? ==>
      resp == InternalError()
    ensures BodyErrors(body) == [] && UnexpectedKeyword([Db] + keywords, DbCreateParameters).None? ==>
      && (body.printerId.Some? && body.printerId.value !in printers.rows ==>
            resp == NotFound(PrinterDb.NotFoundMessage(body.printerId.value)))
      && ((body.printerId.None? || body.printerId.value in printers.rows)
            && body.filamentId.Some? && body.filamentId.value !in filaments ==>
            resp == NotFound(FilamentNotFoundMessage(body.filamentId.value)))
      && ((body.printerId.None? || body.printerId.value in printers.rows)
            && (body.filamentId.None? || body.filamentId.value in filaments) ==>
            && resp.status == 201 && resp.body.Item?
            && var c := resp.body.item;
            && c.id !in old(table.rows)
            && c == CostCalculation(c.id, now, body.printerId, body.filamentId, PersistedFields(body))
            && table.rows == old(table.rows)[c.id := c])
  {
    var errs := BodyErrors(body);
    if errs != [] {
      return Unprocessable(errs);
    }
    if UnexpectedKeyword([Db] + keywords, DbCreateParameters).Some? {
      return InternalError();
    }
    var r := table.Create(printers, filaments, body.printerId, body.filamentId, PersistedFields(body), now);
    match r
    case Failure(ItemNotFound(message)) => resp := NotFound(message);
    case Success(c) => resp := Response(201, Item(c), None);
  }

  /** `create` as written: every valid body is answered 500 and nothing is stored. */
  method CreateAsWritten(table: CostTable, printers: PrinterDb.PrinterTable, filaments: set<int>,
                         body: CostBody, now: Timestamp) returns (resp: Response<CostCalculation>)
    requires table.Valid()
    modifies table
    ensures table.Valid() && table.rows == old(table.rows)
    ensures BodyErrors(body) != [] ==> resp == Unprocessable(BodyErrors(body))
    ensures BodyErrors(body) == [] ==> resp == InternalError()
  {
    AsWrittenCallsRejected();
    resp := CreateWithKeywords(BodyKeywords, table, printers, filaments, body, now);
  }

  /** `create` passing the stored fields only: 422, 404 for an unknown reference, else 201 and the new row. */
  method Create(table: CostTable, printers: PrinterDb.PrinterTable, filaments: set<int>,
                body: CostBody, now: Timestamp) returns (resp: Response<CostCalculation>)
    requires table.Valid()
    modifies table
    ensures table.Valid()
    ensures resp.status != 201 ==> table.rows == old(table.rows)
    ensures BodyErrors(body) != [] ==> resp == Unprocessable(BodyErrors(body))
    ensures BodyErrors(body) == [] && body.printerId.Some? && body.printerId.value !in printers.rows ==>
      resp == NotFound(PrinterDb.NotFoundMessage(body.printerId.value))
    ensures (BodyErrors(body) == [] && (body.printerId.None? || body.printerId.value in printers.rows)
             && body.filamentId.Some? && body.filamentId.value !in filaments) ==>
      resp == NotFound(FilamentNotFoundMessage(body.filamentId.value))
    ensures (BodyErrors(body) == [] && (body.printerId.None? || body.printerId.value in printers.rows)
             && (body.filamentId.None? || body.filamentId.value in filaments)) ==>
      && resp.status == 201 && resp.body.Item?
      && var c := resp.body.item;
      && c.id !in old(table.rows)
      && c == CostCalculation(c.id, now, body.printerId, body.filamentId, PersistedFields(body))
      && table.rows == old(table.rows)[c.id := c]
  {
    PersistedCallsAccepted();
    resp := CreateWithKeywords(PersistedKeywords, table, printers, filaments, body, now);
  }

  /**
   * The update handler, passing `keywords` to `cost_db.update`: 422 for a
   * bad body; 500 when a keyword does not bind; 404 for an unknown
   * calculation, printer or filament; else 200 and the coalesced row.
   */
  method UpdateWithKeywords(keywords: seq<Keyword>, table: CostTable, printers: PrinterDb.PrinterTable,
                            filaments: set<int>, id: int, body: CostBody) returns (resp: Response<CostCalculation>)
    requires table.Valid()
    modifies table
    ensures table.Valid()
    ensures resp.status != 200 ==> table.rows == old(table.rows)
    ensures BodyErrors(body) != [] ==> resp == Unprocessable(BodyErrors(body))
    ensures BodyErrors(body) == [] && UnexpectedKeyword([Db, CalculationId] + keywords, DbUpdateParameters).Some? ==>
      resp == InternalError()
    ensures BodyErrors(body) == [] && UnexpectedKeyword([Db, CalculationId] + keywords, DbUpdateParameters).None? ==>
      && (id !in old(table.rows) ==> resp == NotFound(CostDb.NotFoundMessage(id)))
      && (id in old(table.rows) && body.printerId.Some? && body.printerId.value !in printers.rows ==>
            resp == NotFound(PrinterDb.NotFoundMessage(body.printerId.value)))
      && ((id in old(table.rows) && (body.printerId.None? || body.printerId.value in printers.rows)
            && body.filamentId.Some? && body.filamentId.value !in filaments) ==>
            resp == NotFound(FilamentNotFoundMessage(body.filamentId.value)))
      && ((id in old(table.rows) && (body.printerId.None? || body.printerId.value in printers.rows)
            && (body.filamentId.None? || body.filamentId.value in filaments)) ==>
            && resp == Ok(Item(Updated(old(table.rows)[id], body.printerId, body.filamentId, PersistedFields(body))))
            && table.rows == old(table.rows)[id := resp.body.item])
  {
    var errs := BodyErrors(body);
    if errs != [] {
      return Unprocessable(errs);
    }
    if UnexpectedKeyword([Db, CalculationId] + keywords, DbUpdateParameters).Some? {
      return InternalError();
    }
    var r := table.Update(printers, filaments, id, body.printerId, body.filamentId, PersistedFields(body));
    match r
    case Failure(ItemNotFound(message)) => resp := NotFound(message);
    case Success(c) => resp := Ok(Item(c));
  }

  /** `update` as written: every valid body is answered 500, whatever the id, and nothing changes. */
  method UpdateAsWritten(table: CostTable, printers: PrinterDb.PrinterTable, filaments: set<int>,
                         id: int, body: CostBody) returns (resp: Response<CostCalculation>)
    requires table.Valid()
    modifies table
    ensures table.Valid() && table.rows == old(table.rows)
    ensures BodyErrors(body) != [] ==> resp == Unprocessable(BodyErrors(body))
    ensures BodyErrors(body) == [] ==> resp == InternalError()
  {
    AsWrittenCallsRejected();
    resp := UpdateWithKeywords(BodyKeywords, table, printers, filaments, id, body);
  }

  /** `update` passing the stored fields only. */
  method Update(table: CostTable, printers: PrinterDb.PrinterTable, filaments: set<int>,
                id: int, body: CostBody) returns (resp: Response<CostCalculation>)
    requires table.Valid()
    modifies table
    ensures table.Valid()
    ensures resp.status != 200 ==> table.rows == old(table.rows)
    ensures BodyErrors(body) != [] ==> resp == Unprocessable(BodyErrors(body))
    ensures BodyErrors(body) == [] && id !in old(table.rows) ==> resp == NotFound(CostDb.NotFoundMessage(id))
    ensures (BodyErrors(body) == [] && id in old(table.rows)
             && body.printerId.Some? && body.printerId.value !in printers.rows) ==>
      resp == NotFound(PrinterDb.NotFoundMessage(body.printerId.value))
    ensures (BodyErrors(body) == [] && id in old(table.rows) && (body.printerId.None? || body.printerId.value in printers.rows)
             && body.filamentId.Some? && body.filamentId.value !in filaments) ==>
      resp == NotFound(FilamentNotFoundMessage(body.filamentId.value))
    ensures (BodyErrors(body) == [] && id in old(table.rows) && (body.printerId.None? || body.printerId.value in printers.rows)
             && (body.filamentId.None? || body.filamentId.value in filaments)) ==>
      && resp == Ok(Item(Updated(old(table.rows)[id], body.printerId, body.filamentId, PersistedFields(body))))
      && table.rows == old(table.rows)[id := resp.body.item]
  {
    PersistedCallsAccepted();
    resp := UpdateWithKeywords(PersistedKeywords, table, printers, filaments, id, body);
  }

  /** `delete`: 404 for an unknown id, else the row is gone and the answer is a message. */
  method Delete(table: CostTable, id: int) returns (resp: Response<CostCalculation>)
    requires table.Valid()
    modifies table
    ensures table.Valid()
    ensures id !in old(table.rows) ==> resp == NotFound(CostDb.NotFoundMessage(id)) && table.rows == old(table.rows)
    ensures id in old(table.rows) ==> resp == Ok(Message("Cost calculation deleted.")) && table.rows == old(table.rows) - {id}
  {
    var r := table.Delete(id);
    match r
    case Failure(ItemNotFound(message)) => resp := NotFound(message);
    case Success(_) => resp := Ok(Message("Cost calculation deleted."));
  }

  /** A deleted calculation is not found afterwards. */
  method DeleteThenGet(table: CostTable, id: int) returns (deleted: Response<CostCalculation>, got: Response<CostCalculation>)
    requires table.Valid()
    modifies table
    ensures got == NotFound(CostDb.NotFoundMessage(id))
  {
    deleted := Delete(table, id);
    got := Get(table, id);
  }
}
