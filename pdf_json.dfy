/** service/PdfJsonUtilities.java: jsonToMap / processMap / processList, which
    turn an org.json tree into LinkedHashMaps and ArrayLists for the PDF
    template. */
module PdfJson {
  import opened JavaLang

  /** An org.json value. An object lists its members in the order `keys()`
      yields them. */
  datatype Json =
    | JNull                       // JSONObject.NULL
    | JBool(b: bool)
    | JNumber(literal: string)
    | JString(s: string)
    | JArray(items: seq<Json>)
    | JObject(members: seq<Member>)

  datatype Member = Member(key: string, value: Json)

  /** A converted value: a copied non-container value, an ArrayList, or a
      LinkedHashMap given by its entries in insertion order. */
  datatype Value =
    | Leaf(json: Json)
    | ListValue(items: seq<Value>)
    | MapValue(entries: seq<MapEntry>)

  datatype MapEntry = MapEntry(key: string, value: Value)

  /** The keys of a map's entries, in insertion order. */
  function Keys(entries: seq<MapEntry>): (r: seq<string>)
    ensures |r| == |entries| && forall i | 0 <= i < |entries| :: r[i] == entries[i].key
  {
    seq(|entries|, i requires 0 <= i < |entries| => entries[i].key)
  }

  /** The first entry holding `key`. */
  function IndexOfKey(entries: seq<MapEntry>, key: string): (r: Option<nat>)
    ensures r.None? <==> key !in Keys(entries)
    ensures r.Some? ==> r.value < |entries| && entries[r.value].key == key
  {
    if entries == [] then None
    else if entries[0].key == key then Some(0)
    else
      match IndexOfKey(entries[1..], key)
      case None => None
      case Some(i) => Some(i + 1)
  }

  /** LinkedHashMap `put`: a new key is appended, an existing key keeps its
      place and takes the new value. */
  function Put(entries: seq<MapEntry>, key: string, value: Value): (r: seq<MapEntry>)
    ensures key !in Keys(entries) ==> r == entries + [MapEntry(key, value)]
  {
    match IndexOfKey(entries, key)
    case None => entries + [MapEntry(key, value)]
    case Some(i) => entries[i := MapEntry(key, value)]
  }

  /** What processMap / processList make of one value. */
  function Convert(j: Json): Value
    decreases j
  {
    match j
    case JArray(items) => ListValue(ConvertList(items))
    case JObject(members) => MapValue(ConvertMembers(members))
    case _ => Leaf(j)
  }

  /** The list processList builds. */
  function ConvertList(items: seq<Json>): (r: seq<Value>)
    decreases items
    ensures |r| == |items|
    ensures forall i | 0 <= i < |items| :: r[i] == Convert(items[i])
  {
    if items == [] then []
    else ConvertList(items[..|items| - 1]) + [Convert(items[|items| - 1])]
  }

  /** The map processMap builds: one `put` per member, in order. */
  function ConvertMembers(members: seq<Member>): seq<MapEntry>
    decreases members
  {
    if members == [] then []
    else
      var last := members[|members| - 1];
      assert last in members;
      Put(ConvertMembers(members[..|members| - 1]), last.key, Convert(last.value))
  }

  /** The `instanceof` dispatch both loops apply to a value: arrays and
      objects are converted, anything else is kept. */
  method ProcessValue(value: Json) returns (converted: Value)
    decreases value
    ensures converted == Convert(value)
  {
    match value {
      case JArray(items) =>
        var l := ProcessList(items);
        converted := ListValue(l);
      case JObject(members) =>
        var m := ProcessMap(members);
        converted := MapValue(m);
      case _ =>
        converted := Leaf(value);
    }
  }

  /** `processList(jsonArray)`. */
  method ProcessList(jsonArray: seq<Json>) returns (list: seq<Value>)
    decreases jsonArray
    ensures list == ConvertList(jsonArray)
  {
    list := [];
    for i := 0 to |jsonArray|
      invariant list == ConvertList(jsonArray[..i])
    {
      var converted := ProcessValue(jsonArray[i]);
      assert jsonArray[..i + 1][..i] == jsonArray[..i];
      list := list + [converted];
    }
    assert jsonArray[..|jsonArray|] == jsonArray;
  }

  /** `processMap(jsonObject)`. */
  method ProcessMap(jsonObject: seq<Member>) returns (map_: seq<MapEntry>)
    decreases jsonObject
    ensures map_ == ConvertMembers(jsonObject)
  {
    map_ := [];
    var k := 0;
    while k < |jsonObject|
      invariant 0 <= k <= |jsonObject|
      invariant map_ == ConvertMembers(jsonObject[..k])
      decreases |jsonObject| - k
    {
      var key, value := jsonObject[k].key, jsonObject[k].value;
      assert jsonObject[k] in jsonObject;
      var converted := ProcessValue(value);
      assert jsonObject[..k + 1][..k] == jsonObject[..k];
      map_ := Put(map_, key, converted);
      k := k + 1;
    }
    assert jsonObject[..k] == jsonObject;
  }

  /** `jsonToMap(jsonObject)`: an empty map for null. */
  method JsonToMap(jsonObject: Option<seq<Member>>) returns (map_: seq<MapEntry>)
    ensures jsonObject.None? ==> map_ == []
    ensures jsonObject.Some? ==> map_ == ConvertMembers(jsonObject.value)
  {
    map_ := [];
    if jsonObject.None? {
      return;
    }
    map_ := ProcessMap(jsonObject.value);
  }

  // ---------------------------------------------------------------------------
  // Properties

  /** A JSONObject holds each key once. */
  predicate DistinctKeys(members: seq<Member>) {
    forall i, j | 0 <= i < j < |members| :: members[i].key != members[j].key
  }

  /** Every object in the tree holds each key once, as a JSONObject does. */
  predicate WellFormed(j: Json)
    decreases j
  {
    match j
    case JArray(items) => forall i | 0 <= i < |items| :: WellFormed(items[i])
    case JObject(members) => DistinctKeys(members) && forall i | 0 <= i < |members| :: WellFormed(members[i].value)
    case _ => true
  }

  /** For an object, processMap keeps exactly its keys, in the order `keys()`
      yields them, and the value under key i is member i's value converted. */
  lemma {:induction false} ConvertMembersInOrder(members: seq<Member>)
    requires DistinctKeys(members)
    ensures var r := ConvertMembers(members);
      && |r| == |members|
      && forall i | 0 <= i < |members| :: r[i].key == members[i].key && r[i].value == Convert(members[i].value)
  {
    if members != [] {
      var n := |members| - 1;
      var init, last := members[..n], members[n];
      InitDistinct(members);
      ConvertMembersInOrder(init);
      var prev := ConvertMembers(init);
      FreshKey(members);
      ConvertMembersSnoc(members);
      var r := ConvertMembers(members);
      forall i | 0 <= i < n
        ensures r[i].key == members[i].key && r[i].value == Convert(members[i].value)
      {
        assert r[i] == prev[i] && init[i] == members[i];
      }
    }
  }

  /** A member whose key is new is appended at the end. */
  lemma ConvertMembersSnoc(members: seq<Member>)
    requires members != []
    requires members[|members| - 1].key !in Keys(ConvertMembers(members[..|members| - 1]))
    ensures var last := members[|members| - 1];
      ConvertMembers(members) == ConvertMembers(members[..|members| - 1]) + [MapEntry(last.key, Convert(last.value))]
  {
  }

  lemma InitDistinct(members: seq<Member>)
    requires members != [] && DistinctKeys(members)
    ensures DistinctKeys(members[..|members| - 1])
  {
    var init := members[..|members| - 1];
    forall i, j | 0 <= i < j < |init| ensures init[i].key != init[j].key {
      assert init[i] == members[i] && init[j] == members[j];
    }
  }

  /** The last member's key is not among those converted before it. */
  lemma FreshKey(members: seq<Member>)
    requires members != [] && DistinctKeys(members)
    requires var prev := ConvertMembers(members[..|members| - 1]);
      |prev| == |members| - 1 && forall i | 0 <= i < |prev| :: prev[i].key == members[i].key
    ensures members[|members| - 1].key !in Keys(ConvertMembers(members[..|members| - 1]))
  {
  }

  /** No JSONObject or JSONArray is left at any depth. */
  predicate Flat(v: Value)
    decreases v
  {
    match v
    case Leaf(j) => !j.JArray? && !j.JObject?
    case ListValue(items) => forall i | 0 <= i < |items| :: Flat(items[i])
    case MapValue(entries) => forall i | 0 <= i < |entries| :: Flat(entries[i].value)
  }

  /** Every value processMap or processList produces is flat. */
  lemma {:induction false} ConvertFlat(j: Json)
    decreases j
    ensures Flat(Convert(j))
  {
    match j
    case JArray(items) =>
      forall i | 0 <= i < |items| ensures Flat(ConvertList(items)[i]) {
        ConvertFlat(items[i]);
      }
    case JObject(members) => ConvertMembersFlat(members);
    case _ =>
  }

  lemma {:induction false} ConvertMembersFlat(members: seq<Member>)
    decreases members
    ensures forall i | 0 <= i < |ConvertMembers(members)| :: Flat(ConvertMembers(members)[i].value)
  {
    if members != [] {
      var n := |members| - 1;
      var last := members[n];
      assert last in members;
      ConvertMembersFlat(members[..n]);
      ConvertFlat(last.value);
      var prev := ConvertMembers(members[..n]);
      var r := ConvertMembers(members);
      assert r == Put(prev, last.key, Convert(last.value));
      forall i | 0 <= i < |r| ensures Flat(r[i].value) {
        match IndexOfKey(prev, last.key)
        case None =>
          if i < |prev| { assert r[i] == prev[i]; }
        case Some(k) =>
          if i != k { assert r[i] == prev[i]; }
      }
    }
  }

  /** Turning the converted maps and lists back into JSON. */
  function Back(v: Value): Json
    decreases v
  {
    match v
    case Leaf(j) => j
    case ListValue(items) => JArray(seq(|items|, i requires 0 <= i < |items| => Back(items[i])))
    case MapValue(entries) =>
      JObject(seq(|entries|, i requires 0 <= i < |entries| => Member(entries[i].key, Back(entries[i].value))))
  }

  /** The conversion loses nothing: turning the result back gives the tree. */
  lemma {:induction false} ConvertBack(j: Json)
    decreases j
    requires WellFormed(j)
    ensures Back(Convert(j)) == j
  {
    match j
    case JArray(items) =>
      var vs := ConvertList(items);
      forall i | 0 <= i < |items| ensures Back(vs[i]) == items[i] {
        ConvertBack(items[i]);
      }
    case JObject(members) =>
      var es := ConvertMembers(members);
      ConvertMembersInOrder(members);
      forall i | 0 <= i < |members| ensures Member(es[i].key, Back(es[i].value)) == members[i] {
        assert members[i] in members;
        ConvertBack(members[i].value);
      }
    case _ =>
  }
}
