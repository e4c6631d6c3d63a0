/**
 * `JsonParser` (data/JsonParser.kt) and the `JsonNavigationItem` record
 * (data/Models.kt): reading a document whose root must be an object, and
 * listing the children of a node as rows of the viewer.
 */
module JsonParser {
  import opened Wrappers
  import opened Text
  import opened JsonModel
  import opened JsonUtils

  /** `JsonNavigationItem`: one row of the viewer's list. */
  datatype NavItem = NavItem(
    key: string,
    node: Value,
    isArray: bool,
    isObject: bool,
    objectKeys: seq<string>,
    arraySize: int,
    arrayItemType: string)

  /**
   * A row as the parser builds it: the kind flags follow the node, and the
   * summary fields keep their declared defaults.
   */
  predicate Classified(it: NavItem) {
    && (it.isArray <==> it.node.ListV?)
    && (it.isObject <==> it.node.MapV?)
    && it.objectKeys == []
    && it.arraySize == 0
    && it.arrayItemType == ""
  }

  function Item(key: string, node: Value): NavItem {
    NavItem(key, node, node.ListV?, node.MapV?, [], 0, "")
  }

  /** `getObjectEntries`: one row per entry, in the map's order. */
  function ObjectEntries(m: seq<(string, Value)>): (r: seq<NavItem>)
    ensures |r| == |m|
    ensures forall i :: 0 <= i < |m| ==> r[i].key == m[i].0 && r[i].node == m[i].1
    ensures forall i :: 0 <= i < |m| ==> Classified(r[i]) && !(r[i].isArray && r[i].isObject)
  {
    if m == [] then [] else ObjectEntries(m[..|m| - 1]) + [Item(m[|m| - 1].0, m[|m| - 1].1)]
  }

  /** `getArrayEntries`: one row per element, in order, keyed by the decimal index. */
  function ArrayEntries(l: seq<Value>): (r: seq<NavItem>)
    ensures |r| == |l|
    ensures forall i :: 0 <= i < |l| ==> r[i].key == NatToString(i) && r[i].node == l[i]
    ensures forall i :: 0 <= i < |l| ==> Classified(r[i]) && !(r[i].isArray && r[i].isObject)
  {
    if l == [] then [] else ArrayEntries(l[..|l| - 1]) + [Item(NatToString(|l| - 1), l[|l| - 1])]
  }

  /**
   * `parseJson`: the text must hold an object; an array root (or anything
   * org.json rejects) throws, here `None`.
   */
  method ParseJson(lib: Library, jsonString: string) returns (r: Option<seq<(string, Value)>>)
    ensures r.None? <==> ReadObject(lib, jsonString).None?
    ensures lib.parse(jsonString).Some? && lib.parse(jsonString).value.JArr? ==> r.None?
    ensures r.Some? ==> MapV(r.value) == ToValue(JObj(ReadObject(lib, jsonString).value))
  {
    var o := ReadObject(lib, jsonString);
    if o.None? {
      return None;
    }
    var m := JsonObjectToMap(JObj(o.value));
    return Some(m);
  }

  /** Every object row is found again by its key, when the map repeats no key. */
  lemma ObjectRowsFound(m: seq<(string, Value)>, i: nat)
    requires UniqueKeys(m) && i < |m|
    ensures Get(m, ObjectEntries(m)[i].key) == Some(ObjectEntries(m)[i].node)
  {
    GetUnique(m, i);
  }

  /** Every array row's key reads back as its index. */
  lemma ArrayRowsIndexed(l: seq<Value>, i: nat)
    requires i < |l| <= INT_MAX + 1
    ensures ToIntOrNull(ArrayEntries(l)[i].key) == Some(i)
  {
    IndexTextRoundTrip(i);
  }
}
