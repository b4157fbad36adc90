/**
 * spoolman/api/v1/printer.py: the request bodies of the printer endpoints,
 * their validation, and the find/get/create/update/delete handlers over a
 * PrinterDb.PrinterTable. The websocket endpoints are not part of this model.
 */
module PrinterApi {
  import opened Wrappers
  import opened Text
  import opened DbUtils
  import opened Http
  import opened SortParam
  import opened PrinterDb

  /** A JSON body field: left out, sent as null, or sent with a value. */
  datatype Provided<T> = Absent | Null | Given(value: T)

  /**
   * A printer body. Only `name` needs the three cases: for the other fields
   * pydantic treats an absent field and a null one alike (both `None`).
   */
  datatype PrinterBody = PrinterBody(
    name: Provided<string>,
    powerWatts: Option<real>,
    depreciationCostPerHour: Option<real>,
    comment: Option<string>)

  /** The constraints both body models share: `ge=0` on the two numbers, at most 1024 characters of comment. */
  function BoundErrors(body: PrinterBody): seq<FieldError>
  {
    NonNegativeErrors([("power_watts", body.powerWatts), ("depreciation_cost_per_hour", body.depreciationCostPerHour)])
      + LengthErrors([("comment", body.comment, 1024)])
  }

  predicate WithinBounds(body: PrinterBody)
  {
    NonNegative(body.powerWatts) && NonNegative(body.depreciationCostPerHour) && WithinLength(body.comment, 1024)
  }

  lemma BoundErrorsSpec(body: PrinterBody)
    ensures BoundErrors(body) == [] <==> WithinBounds(body)
  {
    var numbers := [("power_watts", body.powerWatts), ("depreciation_cost_per_hour", body.depreciationCostPerHour)];
    var texts := [("comment", body.comment, 1024)];
    assert numbers[0].1 == body.powerWatts && numbers[1].1 == body.depreciationCostPerHour;
    assert texts[0].1 == body.comment && texts[0].2 == 1024;
  }

  /** `PrinterParameters`: `name: str` is required and may not be null. */
  function CreateErrors(body: PrinterBody): (errs: seq<FieldError>)
    ensures errs == [] <==> body.name.Given? && WithinBounds(body)
    ensures body.name.Absent? ==> MissingField("name") in errs
    ensures body.name.Null? ==> NotAString("name") in errs
  {
    BoundErrorsSpec(body);
    var nameErrors := match body.name
      case Absent => [MissingField("name")]
      case Null => [NotAString("name")]
      case Given(_) => [];
    nameErrors + BoundErrors(body)
  }

  /**
   * `PrinterUpdateParameters`: `name` is optional, but the `prevent_none`
   * validator, which pydantic runs only on a field that was sent, rejects an
   * explicit null.
   */
  function UpdateErrors(body: PrinterBody): (errs: seq<FieldError>)
    ensures errs == [] <==> !body.name.Null? && WithinBounds(body)
    ensures body.name.Null? ==> ValueError("name", "Value must not be None.") in errs
  {
    BoundErrorsSpec(body);
    (if body.name.Null? then [ValueError("name", "Value must not be None.")] else []) + BoundErrors(body)
  }

  /** The keyword arguments the update handler passes on: absent and null both become `None`. */
  function PatchOf(body: PrinterBody): (patch: PrinterPatch)
    ensures patch.name.Some? <==> body.name.Given?
    ensures body.name.Given? ==> patch.name.value == body.name.value
    ensures patch.powerWatts == body.powerWatts && patch.depreciationCostPerHour == body.depreciationCostPerHour
    ensures patch.comment == body.comment
  {
    PrinterPatch(if body.name.Given? then Some(body.name.value) else None,
                 body.powerWatts, body.depreciationCostPerHour, body.comment)
  }

  /**
   * What an update body does to the stored printer: a sent field replaces
   * the column, an absent one (and for the numbers and the comment, a null
   * one) keeps it, so no update body can clear a column.
   */
  lemma UpdateBodyEffect(p: Printer, body: PrinterBody)
    ensures var r := Patched(p, PatchOf(body));
      && r.id == p.id && r.registered == p.registered
      && r.name == (if body.name.Given? then body.name.value else p.name)
      && r.powerWatts == (if body.powerWatts.Some? then body.powerWatts else p.powerWatts)
      && r.depreciationCostPerHour == (if body.depreciationCostPerHour.Some? then body.depreciationCostPerHour else p.depreciationCostPerHour)
      && r.comment == (if body.comment.Some? then body.comment else p.comment)
    ensures p.powerWatts.Some? ==> Patched(p, PatchOf(body)).powerWatts.Some?
    ensures p.depreciationCostPerHour.Some? ==> Patched(p, PatchOf(body)).depreciationCostPerHour.Some?
    ensures p.comment.Some? ==> Patched(p, PatchOf(body)).comment.Some?
  {
    PatchedSpec(p, PatchOf(body), PatchOf(body));
  }

  // ----- handlers -----

  /**
   * `find`: parse the sort string (a malformed one raises, which becomes a
   * 500), query the table, answer the rows with `x-total-count`.
   */
  method Find(table: PrinterTable, name: Option<string>, sort: Option<string>, limit: Option<nat>, offset: nat,
              cmp: FieldCompare<Printer>) returns (resp: Response<Printer>)
    requires table.Valid()
    ensures SortSpec(sort).Failure? ==> resp == InternalError()
    ensures SortSpec(sort).Success? ==>
      && resp.status == 200
      && resp.body == Items(Execute(FindStatement(SortSpec(sort).value, limit, offset), table.Matching(name), cmp))
      && resp.totalCount == Some(IntToString(|KeysWhere(table.rows, NameFilter(name))|))
    ensures resp.status == 200 ==>
      && (forall p :: p in resp.body.items ==> p.id in table.rows && table.rows[p.id] == p && NameMatches(name, p.name))
      && (limit.Some? ==> |resp.body.items| <= limit.value)
      && (limit.None? ==> |resp.body.items| == |KeysWhere(table.rows, NameFilter(name))|)
      && ParseInt(resp.totalCount.value) == Some(|KeysWhere(table.rows, NameFilter(name))|)
  {
    var sortBy := ParseSort(sort);
    if sortBy.Failure? {
      return InternalError();
    }
    var items, totalCount := table.Find(name, Some(sortBy.value), limit, offset, cmp);
    IntToStringRoundTrip(totalCount);
    resp := Response(200, Items(items), Some(IntToString(totalCount)));
  }

  /** `get`: the printer, or 404 with the not-found message. */
  method Get(table: PrinterTable, id: int) returns (resp: Response<Printer>)
    ensures id in table.rows ==> resp == Ok(Item(table.rows[id]))
    ensures id !in table.rows ==> resp == NotFound(NotFoundMessage(id))
  {
    var r := table.GetById(id);
    match r
    case Failure(ItemNotFound(message)) => resp := NotFound(message);
    case Success(p) => resp := Ok(Item(p));
  }

  /** `create`: a valid body always yields 201 and the new printer. */
  method Create(table: PrinterTable, body: PrinterBody, now: Timestamp) returns (resp: Response<Printer>)
    requires table.Valid()
    modifies table
    ensures table.Valid()
    ensures CreateErrors(body) != [] ==> resp == Unprocessable(CreateErrors(body)) && table.rows == old(table.rows)
    ensures CreateErrors(body) == [] ==>
      && resp.status == 201 && resp.body.Item?
      && var p := resp.body.item;
      && p.id !in old(table.rows)
      && p == Printer(p.id, now, body.name.value, body.powerWatts, body.depreciationCostPerHour, body.comment)
      && table.rows == old(table.rows)[p.id := p]
  {
    var errs := CreateErrors(body);
    if errs != [] {
      return Unprocessable(errs);
    }
    var p := table.Create(body.name.value, body.powerWatts, body.depreciationCostPerHour, body.comment, now);
    resp := Response(201, Item(p), None);
  }

  /** `update`: 422 for a bad body, 404 for an unknown id, else 200 and the coalesced printer. */
  method Update(table: PrinterTable, id: int, body: PrinterBody) returns (resp: Response<Printer>)
    requires table.Valid()
    modifies table
    ensures table.Valid()
    ensures UpdateErrors(body) != [] ==> resp == Unprocessable(UpdateErrors(body)) && table.rows == old(table.rows)
    ensures UpdateErrors(body) == [] && id !in old(table.rows) ==>
      resp == NotFound(NotFoundMessage(id)) && table.rows == old(table.rows)
    ensures UpdateErrors(body) == [] && id in old(table.rows) ==>
      && resp == Ok(Item(Patched(old(table.rows)[id], PatchOf(body))))
      && table.rows == old(table.rows)[id := resp.body.item]
  {
    var errs := UpdateErrors(body);
    if errs != [] {
      return Unprocessable(errs);
    }
    var r := table.Update(id, PatchOf(body));
    match r
    case Failure(ItemNotFound(message)) => resp := NotFound(message);
    case Success(p) => resp := Ok(Item(p));
  }

  /** `delete`: 404 for an unknown id, else the row is gone and the answer is a message. */
  method Delete(table: PrinterTable, id: int) returns (resp: Response<Printer>)
    requires table.Valid()
    modifies table
    ensures table.Valid()
    ensures id !in old(table.rows) ==> resp == NotFound(NotFoundMessage(id)) && table.rows == old(table.rows)
    ensures id in old(table.rows) ==> resp == Ok(Message("Printer deleted.")) && table.rows == old(table.rows) - {id}
  {
    var r := table.Delete(id);
    match r
    case Failure(ItemNotFound(message)) => resp := NotFound(message);
    case Success(_) => resp := Ok(Message("Printer deleted."));
  }

  /** A deleted printer is not found afterwards. */
  method DeleteThenGet(table: PrinterTable, id: int) returns (deleted: Response<Printer>, got: Response<Printer>)
    requires table.Valid()
    modifies table
    ensures got == NotFound(NotFoundMessage(id))
  {
    deleted := Delete(table, id);
    got := Get(table, id);
  }

  /** Sending the same update twice leaves the printer as one update does. */
  method UpdateTwice(table: PrinterTable, id: int, body: PrinterBody) returns (first: Response<Printer>, second: Response<Printer>)
    requires table.Valid()
    modifies table
    ensures first.status == 200 ==> first.body.Item? && second == first && table.rows == old(table.rows)[id := first.body.item]
  {
    first := Update(table, id, body);
    ghost var once := table.rows;
    second := Update(table, id, body);
    if first.status == 200 {
      PatchedSpec(old(table.rows)[id], PatchOf(body), PatchOf(body));
      assert once[id] == Patched(old(table.rows)[id], PatchOf(body));
    }
  }
}
