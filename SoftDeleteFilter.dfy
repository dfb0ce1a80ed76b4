/** The `transformResponse` hook of the item-list call: the parsed upstream payload is
    walked by index and every record whose `deleted` property is not strictly `true` is
    pushed onto a fresh array, which becomes the response data. */
module SoftDeleteFilter {
  import opened JsValues

  /** `item.deleted === true`: only an object whose own `deleted` member is the boolean
      true. A missing member, `false`, the string "true" or the number 1 do not qualify. */
  predicate IsSoftDeleted(item: Json) {
    item.JObject? && "deleted" in item.fields && item.fields["deleted"] == JBool(true)
  }

  /** The records the filter keeps, in their original order (specification). */
  function Kept(items: seq<Json>): seq<Json>
    decreases |items|
  {
    if items == [] then []
    else
      var last := items[|items| - 1];
      Kept(items[..|items| - 1]) + (if IsSoftDeleted(last) then [] else [last])
  }

  /** The positions of the kept records, in increasing order: an independent description
      of which input records make up the output. */
  function KeptIndices(items: seq<Json>): seq<nat>
    decreases |items|
  {
    if items == [] then []
    else
      KeptIndices(items[..|items| - 1])
      + (if IsSoftDeleted(items[|items| - 1]) then [] else [|items| - 1])
  }

  /** What the loop walks over: `parseData[i]` for `i < parseData.length`. None when reading
      `length` throws (the payload is null). A string is walked character by character;
      a boolean, number or object has no `length`, so the loop body never runs. */
  function Elements(parseData: Json): Option<seq<Json>> {
    match parseData
    case JNull => None
    case JArray(elems) => Some(elems)
    case JString(s) => Some(seq(|s|, i requires 0 <= i < |s| => JString([s[i]])))
    case JBool(_) => Some([])
    case JNumber(_) => Some([])
    case JObject(_) => Some([])
  }

  /** The data the hook hands on, or None when it throws: reading `length` of a null
      payload, or `deleted` of a null element. */
  function Transformed(parseData: Json): (r: Option<seq<Json>>)
    ensures r.Some? ==> forall x :: x in r.value ==> !IsSoftDeleted(x)
  {
    match Elements(parseData)
    case None => None
    case Some(items) =>
      if JNull in items then None
      else KeptMembership(items); Some(Kept(items))
  }

  /** The hook itself: an index loop that pushes every record that is not soft-deleted. */
  method TransformResponse(parseData: Json) returns (r: Option<seq<Json>>)
    ensures r == Transformed(parseData)
    ensures r.Some? ==> forall x :: x in r.value ==> !IsSoftDeleted(x)
  {
    var elements := Elements(parseData);
    if elements.None? {
      return None;
    }
    var items := elements.value;
    var updatedArray: seq<Json> := [];
    for i := 0 to |items|
      invariant updatedArray == Kept(items[..i])
      invariant JNull !in items[..i]
    {
      if items[i] == JNull {
        return None;
      }
      assert items[..i + 1][..i] == items[..i];
      if !IsSoftDeleted(items[i]) {
        updatedArray := updatedArray + [items[i]];
      }
    }
    assert items[..|items|] == items;
    return Some(updatedArray);
  }

  /** The output consists of exactly the records at the non-deleted positions, in their
      original relative order, each one unchanged. */
  lemma {:induction false} KeptSelectsInOrder(items: seq<Json>)
    ensures |KeptIndices(items)| == |Kept(items)|
    ensures forall k :: 0 <= k < |KeptIndices(items)| ==>
      KeptIndices(items)[k] < |items| && Kept(items)[k] == items[KeptIndices(items)[k]]
    ensures forall j, k :: 0 <= j < k < |KeptIndices(items)| ==>
      KeptIndices(items)[j] < KeptIndices(items)[k]
    ensures forall i :: 0 <= i < |items| ==>
      (i in KeptIndices(items) <==> !IsSoftDeleted(items[i]))
  {
    if items != [] {
      var n := |items| - 1;
      var front := items[..n];
      KeptSelectsInOrder(front);
      assert forall i :: 0 <= i < n ==> front[i] == items[i];
    }
  }

  /** A record appears in the output iff it appears in the input and is not soft-deleted. */
  lemma {:induction false} KeptMembership(items: seq<Json>)
    ensures forall x :: x in Kept(items) <==> x in items && !IsSoftDeleted(x)
  {
    if items != [] {
      var n := |items| - 1;
      KeptMembership(items[..n]);
      assert items == items[..n] + [items[n]];
    }
  }

  /** The output is never longer than the input, takes no record more often than the
      input has it, and an empty input gives an empty output. */
  lemma {:induction false} KeptBounds(items: seq<Json>)
    ensures |Kept(items)| <= |items|
    ensures multiset(Kept(items)) <= multiset(items)
    ensures items == [] ==> Kept(items) == []
  {
    if items != [] {
      var n := |items| - 1;
      KeptBounds(items[..n]);
      assert items == items[..n] + [items[n]];
    }
  }

  /** The filter gives back its input exactly when no record is soft-deleted. */
  lemma {:induction false} KeptIsIdentityIff(items: seq<Json>)
    ensures Kept(items) == items <==> forall i :: 0 <= i < |items| ==> !IsSoftDeleted(items[i])
  {
    if items != [] {
      var n := |items| - 1;
      var front, last := items[..n], items[n];
      assert items == front + [last];
      KeptIsIdentityIff(front);
      KeptBounds(front);
      assert |Kept(items)| == |Kept(front)| + (if IsSoftDeleted(last) then 0 else 1);
      if Kept(items) == items {
        assert !IsSoftDeleted(last);
        assert Kept(front) + [last] == front + [last];
        assert Kept(front) == (Kept(front) + [last])[..n];
      }
      if forall i :: 0 <= i < |items| ==> !IsSoftDeleted(items[i]) {
        assert forall i :: 0 <= i < n ==> front[i] == items[i];
      }
    }
  }

  /** Filtering distributes over concatenation: each record is judged on its own. */
  lemma {:induction false} KeptAppend(a: seq<Json>, b: seq<Json>)
    ensures Kept(a + b) == Kept(a) + Kept(b)
    decreases |b|
  {
    if b == [] {
      assert a + b == a;
    } else {
      var n := |b| - 1;
      KeptAppend(a, b[..n]);
      assert (a + b)[..|a + b| - 1] == a + b[..n];
    }
  }

  /** Filtering an already filtered list changes nothing. */
  lemma KeptIdempotent(items: seq<Json>)
    ensures Kept(Kept(items)) == Kept(items)
  {
    KeptMembership(items);
    KeptIsIdentityIff(Kept(items));
  }

  /** When the hook succeeds, the list it hands on is the input's elements with the
      soft-deleted ones removed, and it never throws on an array without null elements. */
  lemma TransformedOnArray(elems: seq<Json>)
    ensures JNull !in elems ==> Transformed(JArray(elems)) == Some(Kept(elems))
    ensures JNull in elems ==> Transformed(JArray(elems)) == None
    ensures Transformed(JArray([])) == Some([])
  {
  }

  /** Only the boolean true hides a record: a missing flag, `false`, the string "true",
      the number 1 and `null` all leave it in place. */
  lemma OnlyStrictTrueHides()
    ensures var records := [
      JObject(map["id" := JNumber("1")]),
      JObject(map["id" := JNumber("2"), "deleted" := JBool(false)]),
      JObject(map["id" := JNumber("3"), "deleted" := JString("true")]),
      JObject(map["id" := JNumber("4"), "deleted" := JNumber("1")]),
      JObject(map["id" := JNumber("5"), "deleted" := JNull])];
      Kept(records) == records
  {
    var records := [
      JObject(map["id" := JNumber("1")]),
      JObject(map["id" := JNumber("2"), "deleted" := JBool(false)]),
      JObject(map["id" := JNumber("3"), "deleted" := JString("true")]),
      JObject(map["id" := JNumber("4"), "deleted" := JNumber("1")]),
      JObject(map["id" := JNumber("5"), "deleted" := JNull])];
    KeptIsIdentityIff(records);
  }
}
