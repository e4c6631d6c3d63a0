/**
 * `JsonUtils` (utils/JsonUtils.kt): the format guards around org.json's
 * reader and printers, and the conversions between org.json's tree and the
 * plain Kotlin values the editors produce and the viewer navigates.
 */
module JsonUtils {
  import opened Wrappers
  import opened Text
  import opened JsonModel

  // ---------------------------------------------------------------------------
  // Reading text with org.json

  /** `JSONObject(text)`: the members of the object read, or `None` where it throws. */
  function ReadObject(lib: Library, s: string): (r: Option<seq<(string, Json)>>)
    ensures r.Some? <==> lib.parse(s).Some? && lib.parse(s).value.JObj?
    ensures r.Some? ==> lib.parse(s) == Some(JObj(r.value))
  {
    match lib.parse(s)
    case Some(JObj(ms)) => Some(ms)
    case _ => None
  }

  /** `JSONArray(text)`: the elements of the array read, or `None` where it throws. */
  function ReadArray(lib: Library, s: string): (r: Option<seq<Json>>)
    ensures r.Some? <==> lib.parse(s).Some? && lib.parse(s).value.JArr?
    ensures r.Some? ==> lib.parse(s) == Some(JArr(r.value))
  {
    match lib.parse(s)
    case Some(JArr(es)) => Some(es)
    case _ => None
  }

  /** The trimmed text opens an object. */
  predicate OpensObject(s: string) {
    StartsWithChar(Trim(s), '{')
  }

  /** The trimmed text opens an array. */
  predicate OpensArray(s: string) {
    StartsWithChar(Trim(s), '[')
  }

  /**
   * The document a text holds when the app treats it as JSON: an object when
   * the trimmed text opens with `{`, an array when it opens with `[`, and
   * nothing otherwise or when org.json rejects it.
   */
  function ReadDocument(lib: Library, s: string): (r: Option<Json>)
    ensures r.Some? ==> r.value.JObj? || r.value.JArr?
    ensures r.Some? ==> lib.parse(s) == r
    ensures r.Some? && r.value.JObj? <==> OpensObject(s) && ReadObject(lib, s).Some?
    ensures r.Some? && r.value.JArr? <==> OpensArray(s) && ReadArray(lib, s).Some?
  {
    if OpensObject(s) then
      match ReadObject(lib, s)
      case Some(ms) => Some(JObj(ms))
      case None => None
    else if OpensArray(s) then
      match ReadArray(lib, s)
      case Some(es) => Some(JArr(es))
      case None => None
    else None
  }

  /** `prettifyJson`: the indented print of the document, or the text itself. */
  function PrettifyJson(lib: Library, s: string): (r: string)
    ensures ReadDocument(lib, s).None? ==> r == s
    ensures !OpensObject(s) && !OpensArray(s) ==> r == s
    ensures ReadDocument(lib, s).Some? ==> r == lib.indent(ReadDocument(lib, s).value)
  {
    match ReadDocument(lib, s)
    case Some(doc) => lib.indent(doc)
    case None => s
  }

  /** `minifyJson`: the compact print of the document, or the text itself. */
  function MinifyJson(lib: Library, s: string): (r: string)
    ensures ReadDocument(lib, s).None? ==> r == s
    ensures !OpensObject(s) && !OpensArray(s) ==> r == s
    ensures ReadDocument(lib, s).Some? ==> r == lib.compact(ReadDocument(lib, s).value)
  {
    match ReadDocument(lib, s)
    case Some(doc) => lib.compact(doc)
    case None => s
  }

  /** `isValidJson`: the text is a JSON object or array. */
  function IsValidJson(lib: Library, s: string): (r: bool)
    ensures IsBlank(s) ==> !r
    ensures !OpensObject(s) && !OpensArray(s) ==> !r
    ensures r <==> ReadDocument(lib, s).Some?
  {
    if Trim(s) == [] then false
    else ReadDocument(lib, s).Some?
  }

  // ---------------------------------------------------------------------------
  // convertToJsonValue: Kotlin value to org.json tree

  /**
   * `convertToJsonValue`: null becomes JSON null, a map an object built by
   * `put` in the map's order, a list an array in the same order, and any
   * other value passes through.
   */
  function ToJson(v: Value): (r: Json)
    decreases v, 1
    ensures r.JNull? <==> v.Null?
    ensures r.JObj? <==> v.MapV?
    ensures r.JArr? <==> v.ListV?
    ensures v.ListV? ==> |r.elems| == |v.items|
  {
    match v
    case Null => JNull
    case Bool(b) => JBool(b)
    case Num(n) => JNum(n)
    case Str(s) => JStr(s)
    case MapV(es) => JObj(PutAll(ToJsonEntries(v, |es|), |es|))
    case ListV(items) => JArr(ToJsonElems(v, |items|))
  }

  /** The first `n` entries of map `m`, each value converted. */
  function ToJsonEntries(m: Value, n: nat): (r: seq<(string, Json)>)
    requires m.MapV? && n <= |m.entries|
    decreases m, 0, n
    ensures |r| == n
    ensures forall i :: 0 <= i < n ==> r[i] == (m.entries[i].0, ToJson(m.entries[i].1))
  {
    if n == 0 then [] else ToJsonEntries(m, n - 1) + [(m.entries[n - 1].0, ToJson(m.entries[n - 1].1))]
  }

  /** The first `n` items of list `l`, each converted. */
  function ToJsonElems(l: Value, n: nat): (r: seq<Json>)
    requires l.ListV? && n <= |l.items|
    decreases l, 0, n
    ensures |r| == n
    ensures forall i :: 0 <= i < n ==> r[i] == ToJson(l.items[i])
  {
    if n == 0 then [] else ToJsonElems(l, n - 1) + [ToJson(l.items[n - 1])]
  }

  /** `convertToJsonValue`, building objects and arrays by `put` in loops. */
  method ConvertToJsonValue(v: Value) returns (j: Json)
    decreases v, 1
    ensures j == ToJson(v)
  {
    match v {
      case Null => j := JNull;
      case MapV(es) =>
        var members := ConvertEntries(v);
        j := JObj(members);
      case ListV(items) =>
        var elems := ConvertItems(v);
        j := JArr(elems);
      case Bool(b) => j := JBool(b);
      case Num(n) => j := JNum(n);
      case Str(s) => j := JStr(s);
    }
  }

  /** The loop over a map's entries, putting each converted value into a new object. */
  method ConvertEntries(v: Value) returns (members: seq<(string, Json)>)
    requires v.MapV?
    decreases v, 0
    ensures members == PutAll(ToJsonEntries(v, |v.entries|), |v.entries|)
  {
    ghost var entries := ToJsonEntries(v, |v.entries|);
    members := [];
    for i := 0 to |v.entries|
      invariant members == PutAll(entries, i)
    {
      var c := ConvertToJsonValue(v.entries[i].1);
      assert entries[i] == (v.entries[i].0, c);
      members := Put(members, v.entries[i].0, c);
    }
  }

  /** The loop over a list's items, appending each converted item to a new array. */
  method ConvertItems(v: Value) returns (elems: seq<Json>)
    requires v.ListV?
    decreases v, 0
    ensures elems == ToJsonElems(v, |v.items|)
  {
    elems := [];
    for i := 0 to |v.items|
      invariant elems == ToJsonElems(v, i)
    {
      var c := ConvertToJsonValue(v.items[i]);
      elems := elems + [c];
    }
  }

  // ---------------------------------------------------------------------------
  // jsonObjectToMap / jsonArrayToList: org.json tree to Kotlin value

  /** One element as the conversions store it: JSON null becomes null, containers are converted. */
  function ToValue(j: Json): (r: Value)
    decreases j, 1
    ensures r.Null? <==> j.JNull?
    ensures r.MapV? <==> j.JObj?
    ensures r.ListV? <==> j.JArr?
    ensures j.JArr? ==> |r.items| == |j.elems|
  {
    match j
    case JNull => Null
    case JBool(b) => Bool(b)
    case JNum(n) => Num(n)
    case JStr(s) => Str(s)
    case JObj(ms) => MapV(PutAll(ToValueEntries(j, |ms|), |ms|))
    case JArr(es) => ListV(ToValueItems(j, |es|))
  }

  /** The first `n` members of object `o`, each value converted. */
  function ToValueEntries(o: Json, n: nat): (r: seq<(string, Value)>)
    requires o.JObj? && n <= |o.members|
    decreases o, 0, n
    ensures |r| == n
    ensures forall i :: 0 <= i < n ==> r[i] == (o.members[i].0, ToValue(o.members[i].1))
  {
    if n == 0 then [] else ToValueEntries(o, n - 1) + [(o.members[n - 1].0, ToValue(o.members[n - 1].1))]
  }

  /** The list filled by `add` from the first `n` elements of array `a`. */
  function ToValueItems(a: Json, n: nat): (r: seq<Value>)
    requires a.JArr? && n <= |a.elems|
    decreases a, 0, n
    ensures |r| == n
    ensures forall i :: 0 <= i < n ==> r[i] == ToValue(a.elems[i])
  {
    if n == 0 then [] else ToValueItems(a, n - 1) + [ToValue(a.elems[n - 1])]
  }

  /** `jsonObjectToMap`: walks the keys and stores each converted value. */
  method JsonObjectToMap(o: Json) returns (m: seq<(string, Value)>)
    requires o.JObj?
    decreases o, 0
    ensures MapV(m) == ToValue(o)
  {
    ghost var entries := ToValueEntries(o, |o.members|);
    m := [];
    for i := 0 to |o.members|
      invariant m == PutAll(entries, i)
    {
      var converted := ConvertJson(o.members[i].1);
      assert entries[i] == (o.members[i].0, converted);
      m := Put(m, o.members[i].0, converted);
    }
  }

  /** `jsonArrayToList`: walks the indices and adds each converted value. */
  method JsonArrayToList(a: Json) returns (l: seq<Value>)
    requires a.JArr?
    decreases a, 0
    ensures ListV(l) == ToValue(a)
  {
    l := [];
    for i := 0 to |a.elems|
      invariant l == ToValueItems(a, i)
    {
      var converted := ConvertJson(a.elems[i]);
      l := l + [converted];
    }
  }

  /** The `when` over one value inside both loops: nested objects and arrays are converted in turn. */
  method ConvertJson(value: Json) returns (converted: Value)
    decreases value, 1
    ensures converted == ToValue(value)
  {
    match value {
      case JObj(_) =>
        var inner := JsonObjectToMap(value);
        converted := MapV(inner);
      case JArr(_) =>
        var inner := JsonArrayToList(value);
        converted := ListV(inner);
      case JNull => converted := Null;
      case JBool(b) => converted := Bool(b);
      case JNum(n) => converted := Num(n);
      case JStr(s) => converted := Str(s);
    }
  }

  /** `parseJsonObject`: the converted object, or the empty map where org.json throws. */
  function ParseJsonObject(lib: Library, s: string): (r: seq<(string, Value)>)
    ensures ReadObject(lib, s).None? ==> r == []
    ensures ReadObject(lib, s).Some? ==> MapV(r) == ToValue(JObj(ReadObject(lib, s).value))
  {
    match ReadObject(lib, s)
    case Some(ms) => ToValue(JObj(ms)).entries
    case None => []
  }

  /** `parseJsonArray`: the converted array, or the empty list where org.json throws. */
  function ParseJsonArray(lib: Library, s: string): (r: seq<Value>)
    ensures ReadArray(lib, s).None? ==> r == []
    ensures ReadArray(lib, s).Some? ==> ListV(r) == ToValue(JArr(ReadArray(lib, s).value))
  {
    match ReadArray(lib, s)
    case Some(es) => ToValue(JArr(es)).items
    case None => []
  }

  // ---------------------------------------------------------------------------
  // The two conversions are inverse to each other

  /**
   * `jsonObjectToMap`/`jsonArrayToList` undo `convertToJsonValue`: a value
   * whose maps repeat no key comes back unchanged, null included.
   */
  lemma {:induction false} ValueRoundTrip(v: Value)
    requires WellFormedValue(v)
    ensures ToValue(ToJson(v)) == v
    decreases v
  {
    match v
    case MapV(es) =>
      var conv := ToJsonEntries(v, |es|);
      SameKeysUnique(es, conv);
      PutAllWhole(conv);
      var o := JObj(conv);
      var back := ToValueEntries(o, |conv|);
      forall i | 0 <= i < |es|
        ensures back[i] == es[i]
      {
        ValueRoundTrip(es[i].1);
      }
      assert back == es;
      PutAllWhole(back);
    case ListV(items) =>
      var back := ToValue(ToJson(v)).items;
      forall i | 0 <= i < |items|
        ensures back[i] == items[i]
      {
        ValueRoundTrip(items[i]);
      }
      assert back == items;
    case _ =>
  }

  /**
   * `convertToJsonValue` undoes `jsonObjectToMap`/`jsonArrayToList`: an
   * org.json tree (whose objects never repeat a key) comes back unchanged.
   */
  lemma {:induction false} JsonRoundTrip(j: Json)
    requires WellFormed(j)
    ensures ToJson(ToValue(j)) == j
    decreases j
  {
    match j
    case JObj(ms) =>
      var conv := ToValueEntries(j, |ms|);
      SameKeysUnique(ms, conv);
      PutAllWhole(conv);
      var m := MapV(conv);
      var back := ToJsonEntries(m, |conv|);
      forall i | 0 <= i < |ms|
        ensures back[i] == ms[i]
      {
        JsonRoundTrip(ms[i].1);
      }
      assert back == ms;
      PutAllWhole(back);
    case JArr(elems) =>
      var back := ToJson(ToValue(j)).elems;
      forall i | 0 <= i < |elems|
        ensures back[i] == elems[i]
      {
        JsonRoundTrip(elems[i]);
      }
      assert back == elems;
    case _ =>
  }
}
