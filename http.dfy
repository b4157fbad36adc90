/**
 * The shape of what the endpoints answer, and the request-body validation
 * FastAPI and pydantic apply before a handler runs: a body that breaks a
 * field constraint is answered with 422 and the handler is never entered.
 */
module Http {
  import opened Wrappers

  /** The JSON payload of a response. */
  datatype Body<R> =
    | Item(item: R)                             // one record, `Model.from_db(item)`
    | Items(items: seq<R>)                      // a list of records
    | Message(message: string)                  // spoolman.api.v1.models.Message
    | ValidationErrors(errors: seq<FieldError>) // FastAPI's 422 detail list
    | ServerError                               // an exception no handler caught

  /** Status code, payload and the `x-total-count` header when there is one. */
  datatype Response<R> = Response(status: nat, body: Body<R>, totalCount: Option<string>)

  /** One entry of a pydantic validation error. */
  datatype FieldError =
    | MissingField(field: string)             // a required field is absent
    | NotAString(field: string)               // null where a `str` is required
    | LessThanZero(field: string)             // `ge=0` broken
    | TooLong(field: string, maxLength: nat)  // `max_length` broken
    | ValueError(field: string, message: string) // a field validator raised ValueError
    | PatternMismatch(field: string)          // a query parameter does not match its `pattern`

  function Ok<R>(body: Body<R>): Response<R> { Response(200, body, None) }

  /** How every endpoint answers ItemNotFoundError: 404 and `{"message": e.args[0]}`. */
  function NotFound<R>(message: string): (r: Response<R>)
    ensures r.status == 404 && r.body == Message(message) && r.totalCount.None?
  {
    Response(404, Message(message), None)
  }

  function Unprocessable<R>(errors: seq<FieldError>): (r: Response<R>)
    ensures r.status == 422 && r.body == ValidationErrors(errors)
  {
    Response(422, ValidationErrors(errors), None)
  }

  /** An uncaught exception: Starlette answers 500. */
  function InternalError<R>(): (r: Response<R>)
    ensures r.status == 500 && r.body == ServerError
  {
    Response(500, ServerError, None)
  }

  // ----- field constraints -----

  /** `Optional[float] = Field(None, ge=0)`: None passes, a number must not be negative. */
  predicate NonNegative(v: Option<real>)
  {
    v.Some? ==> v.value >= 0.0
  }

  /** `Optional[str] = Field(None, max_length=n)`, counting characters. */
  predicate WithinLength(v: Option<string>, maxLength: nat)
  {
    v.Some? ==> |v.value| <= maxLength
  }

  /** The `ge=0` errors of a list of named numeric fields, in field order. */
  function NonNegativeErrors(fields: seq<(string, Option<real>)>): (errs: seq<FieldError>)
    ensures forall e :: e in errs ==>
      exists i :: 0 <= i < |fields| && e == LessThanZero(fields[i].0) && !NonNegative(fields[i].1)
    ensures forall i :: 0 <= i < |fields| && !NonNegative(fields[i].1) ==> LessThanZero(fields[i].0) in errs
    ensures errs == [] <==> forall i :: 0 <= i < |fields| ==> NonNegative(fields[i].1)
  {
    if fields == [] then []
    else
      var rest := NonNegativeErrors(fields[1..]);
      assert forall i :: 1 <= i < |fields| ==> fields[i] == fields[1..][i - 1];
      if NonNegative(fields[0].1) then rest else [LessThanZero(fields[0].0)] + rest
  }

  /** The `max_length` errors of a list of named text fields with their limits, in field order. */
  function LengthErrors(fields: seq<(string, Option<string>, nat)>): (errs: seq<FieldError>)
    ensures forall e :: e in errs ==>
      exists i :: 0 <= i < |fields| && e == TooLong(fields[i].0, fields[i].2) && !WithinLength(fields[i].1, fields[i].2)
    ensures forall i :: 0 <= i < |fields| && !WithinLength(fields[i].1, fields[i].2) ==> TooLong(fields[i].0, fields[i].2) in errs
    ensures errs == [] <==> forall i :: 0 <= i < |fields| ==> WithinLength(fields[i].1, fields[i].2)
  {
    if fields == [] then []
    else
      var rest := LengthErrors(fields[1..]);
      assert forall i :: 1 <= i < |fields| ==> fields[i] == fields[1..][i - 1];
      if WithinLength(fields[0].1, fields[0].2) then rest else [TooLong(fields[0].0, fields[0].2)] + rest
  }
}
