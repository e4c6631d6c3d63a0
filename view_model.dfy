/**
 * `JsonViewModel` (ui/JsonViewModel.kt): the viewer's state. It holds the
 * parsed document, a path of keys into it and the rows shown for the node at
 * the end of that path, plus the raw text and its display format.
 */
module ViewModel {
  import opened Wrappers
  import opened Text
  import opened JsonModel
  import opened JsonUtils
  import opened JsonParser

  /** `JsonViewState`; the error message text is not modelled. */
  datatype ViewState = Initial | Loading | Error | Success

  /** What `navigateBack` does: returns a Boolean, or throws from its walk. */
  datatype BackResult = Returned(b: bool) | Threw

  /**
   * One step of the walk in `navigateBack`: a map is looked up (a missing
   * key gives null), a list is indexed by `toInt()` (a bad index throws,
   * here `None`), anything else gives null.
   */
  function NavStep(cur: Value, seg: string): (r: Option<Value>)
    ensures r.None? <==> cur.ListV? && !(ToIntOrNull(seg).Some? && 0 <= ToIntOrNull(seg).value < |cur.items|)
    ensures cur.MapV? ==> (r == Some(Null) <==> Get(cur.entries, seg).None? || Get(cur.entries, seg) == Some(Null))
    ensures cur.MapV? && r.Some? && r.value != Null ==> Get(cur.entries, seg) == r
    ensures cur.ListV? && r.Some? ==> r.value == cur.items[ToIntOrNull(seg).value]
    ensures !cur.MapV? && !cur.ListV? ==> r == Some(Null)
  {
    match cur
    case MapV(es) => Some(Get(es, seg).GetOr(Null))
    case ListV(items) =>
      var index := ToIntOrNull(seg);
      if index.Some? && 0 <= index.value < |items| then Some(items[index.value]) else None
    case _ => Some(Null)
  }

  /** The node a path leads to from the root, or `None` where a step throws. */
  function NavWalk(root: Value, path: seq<string>): Option<Value>
    decreases |path|
  {
    if path == [] then Some(root)
    else
      var parent := NavWalk(root, path[..|path| - 1]);
      if parent.None? then None else NavStep(parent.value, path[|path| - 1])
  }

  /** The loop of `navigateBack` that walks the document along the path, stopping where a step throws. */
  method WalkTo(root: Value, path: seq<string>) returns (r: Option<Value>)
    ensures r == NavWalk(root, path)
  {
    var current := root;
    for i := 0 to |path|
      invariant NavWalk(root, path[..i]) == Some(current)
    {
      var next := NavStep(current, path[i]);
      assert path[..i + 1][..i] == path[..i];
      if next.None? {
        WalkStuck(root, path, i + 1);
        assert path[..|path|] == path;
        return None;
      }
      current := next.value;
    }
    assert path[..|path|] == path;
    return Some(current);
  }

  /** A walk that gets through a path also gets through each of its prefixes. */
  lemma {:induction false} NavWalkPrefix(root: Value, path: seq<string>, n: nat)
    requires n <= |path| && NavWalk(root, path).Some?
    ensures NavWalk(root, path[..n]).Some?
    decreases |path|
  {
    if n < |path| {
      var shorter := path[..|path| - 1];
      NavWalkPrefix(root, shorter, n);
      assert shorter[..n] == path[..n];
    } else {
      assert path[..n] == path;
    }
  }

  /** The rows shown for a node: its entries for a map or list, none for a primitive. */
  function Rows(v: Value): (r: seq<NavItem>)
    ensures v.MapV? ==> |r| == |v.entries| && forall i :: 0 <= i < |r| ==> r[i].key == v.entries[i].0
    ensures v.ListV? ==> |r| == |v.items| && forall i :: 0 <= i < |r| ==> r[i].node == v.items[i]
    ensures !v.MapV? && !v.ListV? ==> r == []
  {
    match v
    case MapV(es) => ObjectEntries(es)
    case ListV(items) => ArrayEntries(items)
    case _ => []
  }

  /**
   * Selecting a row of a node whose maps repeat no key and whose lists fit
   * an `Int` index leads the walk to that row's node.
   */
  lemma RowLeadsToNode(v: Value, i: nat)
    requires i < |Rows(v)|
    requires v.MapV? ==> UniqueKeys(v.entries)
    requires v.ListV? ==> |v.items| <= INT_MAX + 1
    ensures NavStep(v, Rows(v)[i].key) == Some(Rows(v)[i].node)
  {
    match v
    case MapV(es) =>
      ObjectRowsFound(es, i);
    case ListV(items) =>
      ArrayRowsIndexed(items, i);
  }

  /** The formatted text for a raw text and a format choice (`updateFormattedJson`). */
  function Formatted(lib: Library, raw: string, prettified: bool): (r: string)
    ensures ReadDocument(lib, raw).None? ==> r == raw
    ensures ReadDocument(lib, raw).Some? && prettified ==> r == lib.indent(ReadDocument(lib, raw).value)
    ensures ReadDocument(lib, raw).Some? && !prettified ==> r == lib.compact(ReadDocument(lib, raw).value)
  {
    if prettified then PrettifyJson(lib, raw) else MinifyJson(lib, raw)
  }

  class JsonViewModel {
    const lib: Library
    var rawJsonString: string
    var formattedJsonString: string
    var isPrettified: bool
    var jsonData: seq<(string, Value)>
    var currentItems: seq<NavItem>
    var navigationPath: seq<string>
    var viewState: ViewState
    var isViewingRawJson: bool

    /** The navigation part of the state. */
    ghost function Navigation(): (seq<(string, Value)>, seq<NavItem>, seq<string>)
      reads this
    {
      (jsonData, currentItems, navigationPath)
    }

    /** The text part of the state. */
    ghost function Display(): (string, string, bool)
      reads this
    {
      (rawJsonString, formattedJsonString, isPrettified)
    }

    /** The rows on screen are those of the node the path leads to. */
    ghost predicate Synced()
      reads this
    {
      NavWalk(MapV(jsonData), navigationPath).Some? &&
      currentItems == Rows(NavWalk(MapV(jsonData), navigationPath).value)
    }

    constructor(lib: Library)
      ensures this.lib == lib
      ensures Display() == ("", "", true)
      ensures Navigation() == ([], [], [])
      ensures viewState == Initial && !isViewingRawJson
      ensures Synced()
    {
      this.lib := lib;
      rawJsonString := "";
      formattedJsonString := "";
      isPrettified := true;
      jsonData := [];
      currentItems := [];
      navigationPath := [];
      viewState := Initial;
      isViewingRawJson := false;
    }

    /** `toggleRawJsonView`. */
    method ToggleRawJsonView()
      modifies this
      ensures isViewingRawJson == !old(isViewingRawJson)
      ensures Display() == old(Display()) && Navigation() == old(Navigation()) && viewState == old(viewState)
    {
      isViewingRawJson := !isViewingRawJson;
    }

    /** `updateFormattedJson`: the formatted text follows the raw text and the format choice. */
    method UpdateFormattedJson()
      modifies this
      ensures formattedJsonString == Formatted(lib, rawJsonString, isPrettified)
      ensures rawJsonString == old(rawJsonString) && isPrettified == old(isPrettified)
      ensures Navigation() == old(Navigation()) && viewState == old(viewState) && isViewingRawJson == old(isViewingRawJson)
    {
      if isPrettified {
        formattedJsonString := PrettifyJson(lib, rawJsonString);
      } else {
        formattedJsonString := MinifyJson(lib, rawJsonString);
      }
    }

    /** `toggleJsonFormat`: flips the format and reformats the raw text. */
    method ToggleJsonFormat()
      modifies this
      ensures isPrettified == !old(isPrettified)
      ensures formattedJsonString == Formatted(lib, rawJsonString, isPrettified)
      ensures rawJsonString == old(rawJsonString)
      ensures Navigation() == old(Navigation()) && viewState == old(viewState) && isViewingRawJson == old(isViewingRawJson)
    {
      isPrettified := !isPrettified;
      UpdateFormattedJson();
    }

    /** Toggling the format twice gives back the format and, when it was current, the formatted text. */
    method ToggleJsonFormatTwice()
      requires formattedJsonString == Formatted(lib, rawJsonString, isPrettified)
      modifies this
      ensures Display() == old(Display())
      ensures Navigation() == old(Navigation())
    {
      ToggleJsonFormat();
      ToggleJsonFormat();
    }

    /** `resetToInitial`: back to the input screen, forgetting the raw text. */
    method ResetToInitial()
      modifies this
      ensures viewState == Initial && !isViewingRawJson && rawJsonString == ""
      ensures formattedJsonString == old(formattedJsonString) && isPrettified == old(isPrettified)
      ensures Navigation() == old(Navigation())
    {
      viewState := Initial;
      isViewingRawJson := false;
      rawJsonString := "";
    }

    /**
     * `parseJsonString`, run to completion: on success the document is
     * shown from its root; on failure the view is emptied and the text kept.
     */
    method ParseJsonString(jsonString: string)
      modifies this
      ensures ReadObject(lib, jsonString).Some? ==>
        && MapV(jsonData) == ToValue(JObj(ReadObject(lib, jsonString).value))
        && navigationPath == []
        && currentItems == ObjectEntries(jsonData)
        && rawJsonString == jsonString
        && formattedJsonString == Formatted(lib, jsonString, isPrettified)
        && viewState == Success
      ensures ReadObject(lib, jsonString).None? ==>
        && jsonData == [] && navigationPath == [] && currentItems == []
        && rawJsonString == jsonString
        && formattedJsonString == old(formattedJsonString)
        && viewState == Error
      ensures isPrettified == old(isPrettified) && isViewingRawJson == old(isViewingRawJson)
      ensures Synced()
    {
      viewState := Loading;
      var parsed := ParseJson(lib, jsonString);
      if parsed.Some? {
        jsonData := parsed.value;
        navigationPath := [];
        currentItems := ObjectEntries(jsonData);
        rawJsonString := jsonString;
        UpdateFormattedJson();
        viewState := Success;
        assert Rows(MapV(jsonData)) == currentItems;
      } else {
        viewState := Error;
        jsonData := [];
        navigationPath := [];
        currentItems := [];
        rawJsonString := jsonString;
      }
    }

    /**
     * `navigateTo`: appends the key and shows the rows of the given node.
     * When that node is the child the key selects, the rows stay in step
     * with the path.
     */
    method NavigateTo(key: string, node: Value)
      modifies this
      ensures navigationPath == old(navigationPath) + [key]
      ensures currentItems == Rows(node)
      ensures jsonData == old(jsonData)
      ensures Display() == old(Display()) && viewState == old(viewState) && isViewingRawJson == old(isViewingRawJson)
      ensures (old(NavWalk(MapV(jsonData), navigationPath)).Some? &&
               NavStep(old(NavWalk(MapV(jsonData), navigationPath)).value, key) == Some(node)) ==> Synced()
    {
      var oldPath := navigationPath;
      navigationPath := navigationPath + [key];
      currentItems := Rows(node);
      assert navigationPath[..|navigationPath| - 1] == oldPath;
    }

    /**
     * `navigateBack`: leaves the raw view first; otherwise drops the last
     * key, walks the document along the rest and shows that node's rows.
     */
    method NavigateBack() returns (r: BackResult)
      modifies this
      ensures old(isViewingRawJson) ==>
        r == Returned(true) && !isViewingRawJson && Navigation() == old(Navigation())
      ensures !old(isViewingRawJson) && old(navigationPath) == [] ==>
        r == Returned(false) && !isViewingRawJson && Navigation() == old(Navigation())
      ensures !old(isViewingRawJson) && old(navigationPath) != [] ==>
        && navigationPath == old(navigationPath)[..|old(navigationPath)| - 1]
        && !isViewingRawJson
        && (NavWalk(MapV(jsonData), navigationPath).None? ==> r == Threw && currentItems == old(currentItems))
        && (NavWalk(MapV(jsonData), navigationPath).Some? ==>
              r == Returned(true) && currentItems == Rows(NavWalk(MapV(jsonData), navigationPath).value))
      ensures jsonData == old(jsonData)
      ensures Display() == old(Display()) && viewState == old(viewState)
      ensures old(Synced()) ==> Synced() && r != Threw
    {
      if isViewingRawJson {
        isViewingRawJson := false;
        return Returned(true);
      }
      if navigationPath == [] {
        return Returned(false);
      }
      ghost var fullPath := navigationPath;
      var newPath := navigationPath[..|navigationPath| - 1];
      navigationPath := newPath;
      if NavWalk(MapV(jsonData), fullPath).Some? {
        NavWalkPrefix(MapV(jsonData), fullPath, |newPath|);
      }
      var node := WalkTo(MapV(jsonData), newPath);
      if node.None? {
        return Threw;
      }
      currentItems := Rows(node.value);
      return Returned(true);
    }

    /** `resetToRoot`: back to the root rows, leaving the raw view. */
    method ResetToRoot()
      modifies this
      ensures navigationPath == [] && currentItems == ObjectEntries(jsonData) && !isViewingRawJson
      ensures jsonData == old(jsonData)
      ensures Display() == old(Display()) && viewState == old(viewState)
      ensures Synced()
    {
      navigationPath := [];
      currentItems := ObjectEntries(jsonData);
      isViewingRawJson := false;
    }

    /** Opening a row and going back restores the path and the rows. */
    method OpenRowThenBack(i: nat)
      requires Synced() && !isViewingRawJson
      requires i < |currentItems|
      requires NavStep(NavWalk(MapV(jsonData), navigationPath).value, currentItems[i].key) == Some(currentItems[i].node)
      modifies this
      ensures Navigation() == old(Navigation())
      ensures Synced()
    {
      var row := currentItems[i];
      NavigateTo(row.key, row.node);
      var r := NavigateBack();
    }
  }

  /** A walk stuck at step `n` stays stuck on every longer prefix. */
  lemma {:induction false} WalkStuck(root: Value, path: seq<string>, n: nat)
    requires 0 < n <= |path| && NavWalk(root, path[..n]).None?
    ensures NavWalk(root, path).None?
    decreases |path| - n
  {
    if n < |path| {
      assert path[..n + 1][..n] == path[..n];
      WalkStuck(root, path, n + 1);
    } else {
      assert path[..n] == path;
    }
  }
}
