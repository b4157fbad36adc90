/**
 * The `sort` query parameter of the list endpoints, spoolman/api/v1/cost.py
 * lines 113-117 and spoolman/api/v1/printer.py lines 106-110 (the same loop):
 * "field:direction" items separated by commas become an insertion-ordered
 * dictionary from field to SortOrder.
 */
module SortParam {
  import opened Wrappers
  import opened Text
  import opened DbUtils

  /** The exceptions the loop lets escape. */
  datatype SortError =
    | WrongPieceCount(item: string, pieces: nat)  // ValueError from `field, direction = item.split(":")`
    | UnknownDirection(name: string)              // KeyError from `SortOrder[direction.upper()]`

  /** `SortOrder[direction.upper()]`: enum lookup by member name. */
  function ParseDirection(direction: string): Result<SortOrder, SortError>
  {
    var name := Upper(direction);
    if name == "ASC" then Success(Asc)
    else if name == "DESC" then Success(Desc)
    else Failure(UnknownDirection(name))
  }

  /** One "field:direction" item. */
  function ParseItem(item: string): Result<(string, SortOrder), SortError>
  {
    var parts := Split(item, ':');
    if |parts| != 2 then Failure(WrongPieceCount(item, |parts|))
    else
      match ParseDirection(parts[1])
      case Failure(e) => Failure(e)
      case Success(order) => Success((parts[0], order))
  }

  // ----- the dictionary -----

  function Keys(m: SortMap): seq<string>
  {
    seq(|m|, i requires 0 <= i < |m| => m[i].0)
  }

  predicate DistinctKeys(m: SortMap)
  {
    forall i, j :: 0 <= i < j < |m| ==> m[i].0 != m[j].0
  }

  /** `m.get(field)`. */
  function Lookup(m: SortMap, field: string): Option<SortOrder>
  {
    if m == [] then None else if m[0].0 == field then Some(m[0].1) else Lookup(m[1..], field)
  }

  /** `m[field] = order`: an existing key keeps its position and takes the new value; a new key goes last. */
  function Put(m: SortMap, field: string, order: SortOrder): SortMap
  {
    if m == [] then [(field, order)]
    else if m[0].0 == field then [(field, order)] + m[1..]
    else [m[0]] + Put(m[1..], field, order)
  }

  lemma KeysCons(x: (string, SortOrder), m: SortMap)
    ensures Keys([x] + m) == [x.0] + Keys(m)
  {
    var whole := [x] + m;
    assert forall i :: 1 <= i < |whole| ==> whole[i] == m[i - 1];
  }

  lemma KeysSnoc(m: SortMap, x: (string, SortOrder))
    ensures Keys(m + [x]) == Keys(m) + [x.0]
  {
    assert forall i :: 0 <= i < |m| ==> (m + [x])[i] == m[i];
  }

  lemma {:induction false} PutKeys(m: SortMap, field: string, order: SortOrder)
    ensures Keys(Put(m, field, order)) == if field in Keys(m) then Keys(m) else Keys(m) + [field]
  {
    if m != [] {
      assert m == [m[0]] + m[1..];
      KeysCons(m[0], m[1..]);
      if m[0].0 == field {
        KeysCons((field, order), m[1..]);
      } else {
        PutKeys(m[1..], field, order);
        KeysCons(m[0], Put(m[1..], field, order));
        assert Keys(m) + [field] == [m[0].0] + (Keys(m[1..]) + [field]);
      }
    }
  }

  lemma {:induction false} PutLookup(m: SortMap, field: string, order: SortOrder, g: string)
    ensures Lookup(Put(m, field, order), g) == if g == field then Some(order) else Lookup(m, g)
  {
    if m != [] && m[0].0 != field {
      PutLookup(m[1..], field, order, g);
      assert Put(m, field, order)[1..] == Put(m[1..], field, order);
    }
  }

  /** Assignment into a dictionary: the key is present once, with the new value; nothing else changes. */
  lemma PutSpec(m: SortMap, field: string, order: SortOrder)
    requires DistinctKeys(m)
    ensures DistinctKeys(Put(m, field, order))
    ensures Keys(Put(m, field, order)) == if field in Keys(m) then Keys(m) else Keys(m) + [field]
    ensures forall g :: Lookup(Put(m, field, order), g) == if g == field then Some(order) else Lookup(m, g)
  {
    PutKeys(m, field, order);
    forall g ensures Lookup(Put(m, field, order), g) == if g == field then Some(order) else Lookup(m, g) {
      PutLookup(m, field, order, g);
    }
    var out := Put(m, field, order);
    forall i, j | 0 <= i < j < |out| ensures out[i].0 != out[j].0 {
      assert out[i].0 == Keys(out)[i] && out[j].0 == Keys(out)[j];
      if field !in Keys(m) && j == |m| {
        assert Keys(out)[i] == Keys(m)[i];
      } else {
        assert Keys(out)[i] == m[i].0 && Keys(out)[j] == m[j].0;
      }
    }
  }

  // ----- the loop, as a specification -----

  /** The items parsed in order, failing with the error of the first item that does not parse. */
  function ParseItems(items: seq<string>): Result<seq<(string, SortOrder)>, SortError>
  {
    if items == [] then Success([])
    else
      match ParseItems(items[..|items| - 1])
      case Failure(e) => Failure(e)
      case Success(pairs) =>
        match ParseItem(items[|items| - 1])
        case Failure(e) => Failure(e)
        case Success(pair) => Success(pairs + [pair])
  }

  /** The dictionary the assignments `sort_by[field] = order` build, one pair after another. */
  function Build(pairs: seq<(string, SortOrder)>): SortMap
  {
    if pairs == [] then []
    else
      var last := pairs[|pairs| - 1];
      Put(Build(pairs[..|pairs| - 1]), last.0, last.1)
  }

  /** What the endpoints compute from their `sort` argument. */
  function SortSpec(sort: Option<string>): Result<SortMap, SortError>
  {
    match sort
    case None => Success([])
    case Some(s) =>
      match ParseItems(Split(s, ','))
      case Failure(e) => Failure(e)
      case Success(pairs) => Success(Build(pairs))
  }

  /** Once a prefix of the items fails, the loop fails with that error. */
  lemma {:induction false} ParseItemsFailureSticks(items: seq<string>, k: nat)
    requires k <= |items|
    requires ParseItems(items[..k]).Failure?
    ensures ParseItems(items) == ParseItems(items[..k])
    decreases |items|
  {
    if k == |items| {
      assert items[..k] == items;
    } else {
      var init := items[..|items| - 1];
      assert init[..k] == items[..k];
      ParseItemsFailureSticks(init, k);
    }
  }

  /** One more item: its error is the whole loop's error, or its pair extends the pairs so far. */
  lemma ParseItemsNext(items: seq<string>, i: nat, pairs: seq<(string, SortOrder)>)
    requires i < |items|
    requires ParseItems(items[..i]) == Success(pairs)
    ensures ParseItem(items[i]).Failure? ==> ParseItems(items) == Failure(ParseItem(items[i]).error)
    ensures ParseItem(items[i]).Success? ==> ParseItems(items[..i + 1]) == Success(pairs + [ParseItem(items[i]).value])
  {
    var upTo := items[..i + 1];
    assert upTo[..|upTo| - 1] == items[..i] && upTo[|upTo| - 1] == items[i];
    if ParseItem(items[i]).Failure? {
      ParseItemsFailureSticks(items, i + 1);
    }
  }

  lemma BuildSnoc(pairs: seq<(string, SortOrder)>, pair: (string, SortOrder))
    ensures Build(pairs + [pair]) == Put(Build(pairs), pair.0, pair.1)
  {
    assert (pairs + [pair])[..|pairs|] == pairs;
  }

  /**
   * The sort-string loop: `sort_by` starts empty and each item either raises
   * or is assigned into it.
   */
  method ParseSort(sort: Option<string>) returns (r: Result<SortMap, SortError>)
    ensures r == SortSpec(sort)
    ensures sort.None? ==> r == Success([])
    ensures r.Success? ==> DistinctKeys(r.value)
  {
    var sortBy: SortMap := [];
    if sort.Some? {
      var items := Split(sort.value, ',');
      ghost var pairs: seq<(string, SortOrder)> := [];
      for i := 0 to |items|
        invariant ParseItems(items[..i]) == Success(pairs)
        invariant sortBy == Build(pairs)
      {
        ParseItemsNext(items, i, pairs);
        var parts := Split(items[i], ':');
        if |parts| != 2 {
          return Failure(WrongPieceCount(items[i], |parts|));
        }
        var field, direction := parts[0], parts[1];
        var name := Upper(direction);
        var order: SortOrder;
        if name == "ASC" {
          order := Asc;
        } else if name == "DESC" {
          order := Desc;
        } else {
          return Failure(UnknownDirection(name));
        }
        BuildSnoc(pairs, (field, order));
        sortBy := Put(sortBy, field, order);
        pairs := pairs + [(field, order)];
      }
      assert items[..|items|] == items;
      BuildKeys(pairs);
    }
    r := Success(sortBy);
  }

  // ----- what the loop computes -----

  /** Each field once, in the order of its first appearance. */
  function FirstOccurrences(fields: seq<string>): seq<string>
  {
    if fields == [] then []
    else
      var init := fields[..|fields| - 1];
      var last := fields[|fields| - 1];
      if last in init then FirstOccurrences(init) else FirstOccurrences(init) + [last]
  }

  /** The direction of the last pair that names `field`. */
  function LastOrder(pairs: seq<(string, SortOrder)>, field: string): Option<SortOrder>
  {
    if pairs == [] then None
    else if pairs[|pairs| - 1].0 == field then Some(pairs[|pairs| - 1].1)
    else LastOrder(pairs[..|pairs| - 1], field)
  }

  /**
   * Dictionary semantics of the assignments, keys: each field is a key once,
   * and keys keep the position of their first assignment.
   */
  lemma {:induction false} BuildKeys(pairs: seq<(string, SortOrder)>)
    ensures DistinctKeys(Build(pairs))
    ensures Keys(Build(pairs)) == FirstOccurrences(Keys(pairs))
    ensures forall f :: f in Keys(Build(pairs)) <==> f in Keys(pairs)
  {
    if pairs != [] {
      var init := pairs[..|pairs| - 1];
      var last := pairs[|pairs| - 1];
      var before := Build(init);
      BuildKeys(init);
      PutSpec(before, last.0, last.1);
      KeysSnoc(init, last);
      assert init + [last] == pairs;
      var fields := Keys(pairs);
      assert fields[..|fields| - 1] == Keys(init) && fields[|fields| - 1] == last.0;
    }
  }

  /** Dictionary semantics of the assignments, values: a repeated field takes the direction of its last assignment. */
  lemma {:induction false} BuildLookup(pairs: seq<(string, SortOrder)>, field: string)
    ensures Lookup(Build(pairs), field) == LastOrder(pairs, field)
  {
    if pairs != [] {
      var init := pairs[..|pairs| - 1];
      var last := pairs[|pairs| - 1];
      BuildKeys(init);
      BuildLookup(init, field);
      PutSpec(Build(init), last.0, last.1);
    }
  }

  /** The items parse as a whole exactly when each parses; the error is that of the first bad item. */
  lemma {:induction false} ParseItemsSpec(items: seq<string>)
    ensures ParseItems(items).Success? <==> forall i :: 0 <= i < |items| ==> ParseItem(items[i]).Success?
    ensures ParseItems(items).Success? ==>
      |ParseItems(items).value| == |items|
      && forall i :: 0 <= i < |items| ==> ParseItems(items).value[i] == ParseItem(items[i]).value
    ensures forall k ::
      (0 <= k < |items| && ParseItem(items[k]).Failure? && (forall j :: 0 <= j < k ==> ParseItem(items[j]).Success?))
      ==> ParseItems(items) == Failure(ParseItem(items[k]).error)
  {
    if items != [] {
      var init := items[..|items| - 1];
      ParseItemsSpec(init);
      assert forall i :: 0 <= i < |init| ==> init[i] == items[i];
      forall k | 0 <= k < |items| && ParseItem(items[k]).Failure?
        && (forall j :: 0 <= j < k ==> ParseItem(items[j]).Success?)
        ensures ParseItems(items) == Failure(ParseItem(items[k]).error)
      {
        if k < |init| {
          assert ParseItem(init[k]).Failure?;
          assert forall j :: 0 <= j < k ==> ParseItem(init[j]).Success?;
        } else {
          assert forall j :: 0 <= j < |init| ==> ParseItem(init[j]).Success?;
        }
      }
    }
  }

  /** An item without exactly one ':' raises the unpacking ValueError. */
  lemma ParseItemNeedsOneColon(item: string)
    ensures Count(item, ':') != 1 ==> ParseItem(item) == Failure(WrongPieceCount(item, Count(item, ':') + 1))
    ensures Count(item, ':') == 1 ==> ParseItem(item).Success? || ParseItem(item).error.UnknownDirection?
  {
    SplitCount(item, ':');
  }

  /** A field without ':' and a direction the enum knows, written "field:direction", parse back. */
  lemma ParseItemRoundTrip(field: string, direction: string)
    requires ':' !in field
    requires ParseDirection(direction).Success?
    ensures ParseItem(field + [':'] + direction) == Success((field, ParseDirection(direction).value))
  {
    assert ':' !in direction by {
      var name := Upper(direction);
      assert name == "ASC" || name == "DESC";
      forall i | 0 <= i < |direction| ensures direction[i] != ':' {
        assert name[i] == UpperChar(direction[i]) && name[i] != ':';
      }
    }
    SplitJoin([field, direction], ':');
    assert Join([field, direction], ':') == field + [':'] + direction;
  }

  /** The direction is case-insensitive. */
  lemma DirectionIgnoresCase(direction: string)
    ensures ParseDirection(Lower(direction)) == ParseDirection(direction)
    ensures ParseDirection(Upper(direction)) == ParseDirection(direction)
  {
    UpperOfLower(direction);
  }

  /**
   * What a present `sort` string yields: success exactly when every item
   * parses, and then a dictionary without repeated keys, its keys in order of
   * first appearance, each with the direction of its last appearance.
   */
  lemma SortSpecMeaning(s: string)
    ensures SortSpec(Some(s)).Success? <==>
      forall i :: 0 <= i < |Split(s, ',')| ==> ParseItem(Split(s, ',')[i]).Success?
    ensures SortSpec(Some(s)).Success? ==>
      var m := SortSpec(Some(s)).value;
      var pairs := ParseItems(Split(s, ',')).value;
      && DistinctKeys(m)
      && Keys(m) == FirstOccurrences(Keys(pairs))
      && (forall f :: Lookup(m, f) == LastOrder(pairs, f))
  {
    ParseItemsSpec(Split(s, ','));
    assert SortSpec(Some(s)).Success? <==> ParseItems(Split(s, ',')).Success?;
    if ParseItems(Split(s, ',')).Success? {
      var pairs := ParseItems(Split(s, ',')).value;
      BuildKeys(pairs);
      forall f ensures Lookup(Build(pairs), f) == LastOrder(pairs, f) {
        BuildLookup(pairs, f);
      }
    }
  }
}
