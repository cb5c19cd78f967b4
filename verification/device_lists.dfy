/** The map-by-id update both device screens apply to their lists:
    `list.map(x => x.id === id ? {...x, ...changes} : x)`. */
module DeviceLists {
  import opened JsValue

  /** `x.id === id`. */
  predicate HasId(item: Value, id: int)
  {
    Get(item, "id") == Num(id)
  }

  /** No entry is `null`/`undefined` (reading `.id` of one would throw). */
  predicate NoNullish(items: seq<Value>)
  {
    forall i :: 0 <= i < |items| ==> !Nullish(items[i])
  }

  /** Every entry with this id already holds the given field values. */
  predicate Holds(items: seq<Value>, id: int, changes: map<string, Value>)
  {
    forall i :: 0 <= i < |items| && HasId(items[i], id) ==>
      forall k :: k in changes ==> k in items[i].fields && items[i].fields[k] == changes[k]
  }

  /** `after` is `before` with, at most, the entries carrying this id
      replaced. */
  predicate SameElsewhere(before: seq<Value>, after: seq<Value>, id: int)
  {
    && |after| == |before|
    && forall i :: 0 <= i < |before| && !HasId(before[i], id) ==> after[i] == before[i]
  }

  function UpdateById(items: seq<Value>, id: int, changes: map<string, Value>): (r: seq<Value>)
    requires NoNullish(items)
    ensures |r| == |items| && NoNullish(r)
    ensures forall i :: 0 <= i < |items| && HasId(items[i], id) ==>
              items[i].Obj? && r[i] == Obj(items[i].fields + changes)
    ensures SameElsewhere(items, r, id)
  {
    if items == [] then []
    else
      var head := if HasId(items[0], id) then Obj(items[0].fields + changes) else items[0];
      [head] + UpdateById(items[1..], id, changes)
  }

  /** An update that changes nothing on the entries it targets returns the
      list unchanged. */
  lemma {:induction false} UpdateByIdNoChange(items: seq<Value>, id: int, changes: map<string, Value>)
    requires NoNullish(items)
    requires Holds(items, id, changes)
    ensures UpdateById(items, id, changes) == items
  {
    var r := UpdateById(items, id, changes);
    forall i | 0 <= i < |items|
      ensures r[i] == items[i]
    {
      if HasId(items[i], id) {
        var f := items[i].fields;
        assert f + changes == f;
      }
    }
  }

  /** A second update of the same entries that covers every field the first
      one wrote (and leaves the id alone) wipes out the first one entirely. */
  lemma UpdateByIdOverwrite(items: seq<Value>, id: int, first: map<string, Value>, second: map<string, Value>)
    requires NoNullish(items)
    requires first.Keys <= second.Keys && "id" !in first
    ensures UpdateById(UpdateById(items, id, first), id, second) == UpdateById(items, id, second)
  {
    var once := UpdateById(items, id, first);
    var twice := UpdateById(once, id, second);
    var direct := UpdateById(items, id, second);
    forall i | 0 <= i < |items|
      ensures twice[i] == direct[i]
    {
      if HasId(items[i], id) {
        MergeOverwrite(items[i].fields, first, second);
      }
    }
  }

  lemma MergeOverwrite(f: map<string, Value>, first: map<string, Value>, second: map<string, Value>)
    requires first.Keys <= second.Keys && "id" !in first
    ensures Get(Obj(f + first), "id") == Get(Obj(f), "id")
    ensures (f + first) + second == f + second
  {
  }
}
