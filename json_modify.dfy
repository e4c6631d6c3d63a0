/**
 * `JsonUtils.modifyJsonObject` (utils/JsonUtils.kt): adds, replaces or
 * removes one entry of the object or array that a path of keys and indices
 * leads to, and prints the document again. Any exception along the way
 * makes it hand back the text it was given.
 *
 * The specification is the function `Modify`, stated on documents; the
 * method `ModifyJsonObject` follows the source's three loops and is proved
 * to agree with it.
 */
module JsonModify {
  import opened Wrappers
  import opened Text
  import opened JsonModel
  import opened JsonUtils

  /** What the operation does to the document: nothing (an exception was caught), or a new tree to print. */
  datatype Outcome = Unchanged | Rewritten(doc: Json)

  // ---------------------------------------------------------------------------
  // Walking a path

  /**
   * One step of the walk: an object is indexed by key, but a key that reads
   * as an `Int` is refused; an array is indexed by `toInt()`, which must
   * parse and be in range; anything else has no children.
   */
  function Step(node: Json, seg: string): (r: Option<Json>)
    ensures node.JObj? && ToIntOrNull(seg).Some? ==> r.None?
    ensures node.JObj? && ToIntOrNull(seg).None? ==> r == Get(node.members, seg)
    ensures node.JArr? ==> (r.Some? <==> ToIntOrNull(seg).Some? && 0 <= ToIntOrNull(seg).value < |node.elems|)
    ensures r.Some? ==> node.JObj? || node.JArr?
  {
    match node
    case JObj(ms) => if ToIntOrNull(seg).Some? then None else Get(ms, seg)
    case JArr(es) =>
      (match ToIntOrNull(seg)
       case Some(i) => if 0 <= i < |es| then Some(es[i]) else None
       case None => None)
    case _ => None
  }

  /** The node a path leads to from `node`, or `None` where a step fails. */
  function Walk(node: Json, path: seq<string>): (r: Option<Json>)
    ensures path == [] ==> r == Some(node)
    decreases |path|
  {
    if path == [] then Some(node)
    else
      match Step(node, path[0])
      case None => None
      case Some(child) => Walk(child, path[1..])
  }

  /**
   * A segment that reaches a different child of `node` than `seg` does: another
   * key of an object, or another index of an array.
   */
  predicate OtherChild(node: Json, s: string, seg: string) {
    (node.JObj? ==> s != seg) && (node.JArr? ==> ToIntOrNull(s) != ToIntOrNull(seg))
  }

  /** `put` on an object's members changes the key put and no other. */
  lemma PutKeepsOthers(ms: seq<(string, Json)>, seg: string, child: Json)
    ensures forall s :: Get(Put(ms, seg, child), s) == if s == seg then Some(child) else Get(ms, s)
  {
    forall s
      ensures Get(Put(ms, seg, child), s) == if s == seg then Some(child) else Get(ms, s)
    {
      PutGet(ms, seg, child, s);
    }
  }

  /** The child `seg` of `node` replaced by `child`, every other member or element kept. */
  function SetChild(node: Json, seg: string, child: Json): (r: Json)
    requires Step(node, seg).Some?
    ensures Step(r, seg) == Some(child)
    ensures forall s :: OtherChild(node, s, seg) ==> Step(r, s) == Step(node, s)
    ensures r.JObj? <==> node.JObj?
    ensures r.JArr? <==> node.JArr?
  {
    match node
    case JObj(ms) =>
      PutKeepsOthers(ms, seg, child);
      JObj(Put(ms, seg, child))
    case JArr(es) => JArr(es[ToIntOrNull(seg).value := child])
  }

  /** The tree with the node at `path` replaced by `t`: the effect of changing that node in place. */
  function Replace(node: Json, path: seq<string>, t: Json): (r: Json)
    requires Walk(node, path).Some?
    ensures Walk(r, path) == Some(t)
    ensures path != [] ==> (r.JObj? <==> node.JObj?) && (r.JArr? <==> node.JArr?)
    decreases |path|
  {
    if path == [] then t
    else
      var child := Step(node, path[0]).value;
      var r := SetChild(node, path[0], Replace(child, path[1..], t));
      assert Walk(r, path) == Walk(Replace(child, path[1..], t), path[1..]);
      r
  }

  /**
   * The path `q` leaves `path` at index `i`: they agree before it, and at it
   * `q` steps to a different child of the node both have reached.
   */
  predicate LeavesAt(node: Json, path: seq<string>, q: seq<string>, i: nat) {
    && i < |path| && i < |q| && q[..i] == path[..i]
    && Walk(node, path[..i]).Some?
    && OtherChild(Walk(node, path[..i]).value, q[i], path[i])
  }

  /** Replacing the node at `path` leaves every path that branches off it leading where it did. */
  lemma {:induction false} ReplaceKeepsOffPath(node: Json, path: seq<string>, t: Json, q: seq<string>, i: nat)
    requires Walk(node, path).Some?
    requires LeavesAt(node, path, q, i)
    ensures Walk(Replace(node, path, t), q) == Walk(node, q)
    decreases i
  {
    var child := Step(node, path[0]).value;
    var inner := Replace(child, path[1..], t);
    if i == 0 {
      assert Step(Replace(node, path, t), q[0]) == Step(node, q[0]);
    } else {
      assert q[0] == path[0] by { assert q[..i][0] == path[..i][0]; }
      assert path[..i][1..] == path[1..][..i - 1];
      assert q[1..][..i - 1] == q[..i][1..];
      ReplaceKeepsOffPath(child, path[1..], t, q[1..], i - 1);
    }
  }

  // ---------------------------------------------------------------------------
  // Editing the target

  /**
   * `put` of a converted value on the target array: an index in range
   * replaces that element, the index equal to the length or a key that is
   * not an `Int` appends, and any other index changes nothing.
   */
  function ArrayPut(es: seq<Json>, key: string, x: Json): (r: seq<Json>)
    ensures |r| == |es| + 1 <==> ToIntOrNull(key).None? || ToIntOrNull(key) == Some(|es|)
    ensures |r| == |es| + 1 ==> r == es + [x]
    ensures |r| != |es| + 1 ==> |r| == |es|
    ensures |r| == |es| ==> forall i :: 0 <= i < |es| ==> r[i] == (if ToIntOrNull(key) == Some(i) then x else es[i])
  {
    match ToIntOrNull(key)
    case Some(index) =>
      if 0 <= index < |es| then es[index := x]
      else if index == |es| then es + [x]
      else es
    case None => es + [x]
  }

  /** The array rebuilt without the element at `index`; an index out of range keeps every element. */
  function Without(es: seq<Json>, index: int): (r: seq<Json>)
    ensures 0 <= index < |es| ==> |r| == |es| - 1
    ensures 0 <= index < |es| ==> forall i :: 0 <= i < |r| ==> r[i] == es[if i < index then i else i + 1]
    ensures !(0 <= index < |es|) ==> r == es
  {
    if 0 <= index < |es| then es[..index] + es[index + 1..] else es
  }

  /** The filter loop that copies every element but the one at `index` into a new array. */
  method RemoveIndex(es: seq<Json>, index: int) returns (newArray: seq<Json>)
    ensures newArray == Without(es, index)
  {
    newArray := [];
    for i := 0 to |es|
      invariant newArray == if 0 <= index < i then es[..index] + es[index + 1..i] else es[..i]
    {
      if i != index {
        newArray := newArray + [es[i]];
      }
    }
  }

  /**
   * org.json's `JSONArray.put(index, value)`: a negative index throws, an
   * index in range replaces, the index equal to the length appends. A larger
   * index pads with Java `null`, on which a later `get` throws; the padding
   * here is `JNull` instead, which no caller reaches: the write-back puts at
   * an index the walk has just read, so it is always in range.
   */
  function JsonArrayPut(es: seq<Json>, index: int, x: Json): (r: Option<seq<Json>>)
    ensures r.Some? <==> index >= 0
    ensures r.Some? ==> |r.value| == (if index < |es| then |es| else index + 1)
    ensures r.Some? ==> r.value[index] == x
    ensures r.Some? ==> forall i :: 0 <= i < |r.value| && i != index ==>
      r.value[i] == (if i < |es| then es[i] else JNull)
  {
    if index < 0 then None
    else if index < |es| then Some(es[index := x])
    else Some(es + seq(index - |es|, _ => JNull) + [x])
  }

  /** `getJSONArray(key)`: the value under `key` if it is an array; anything else throws. */
  function GetJsonArray(node: Json, key: string): (r: Option<Json>)
    ensures r.Some? ==> r.value.JArr? && node.JObj? && Get(node.members, key) == r
  {
    match node
    case JObj(ms) =>
      var v := Get(ms, key);
      if v.Some? && v.value.JArr? then v else None
    case _ => None
  }

  /** `getJSONObject(key)`: the value under `key` if it is an object; anything else throws. */
  function GetJsonObject(node: Json, key: string): (r: Option<Json>)
    ensures r.Some? ==> r.value.JObj? && node.JObj? && Get(node.members, key) == r
  {
    match node
    case JObj(ms) =>
      var v := Get(ms, key);
      if v.Some? && v.value.JObj? then v else None
    case _ => None
  }

  // ---------------------------------------------------------------------------
  // The specification

  /**
   * Editing the node `path` leads to from `root`: an object loses `key` or
   * maps it to `x`; an array loses the element at `key.toInt()` (a key that
   * is not an `Int` throws) or has `x` put by `ArrayPut`; a primitive is left
   * alone and the document printed again as it was.
   */
  function EditAt(root: Json, path: seq<string>, key: string, x: Json, isDeleting: bool): (r: Outcome)
    ensures r.Unchanged? <==>
      Walk(root, path).None? || (isDeleting && Walk(root, path).value.JArr? && ToIntOrNull(key).None?)
    ensures Walk(root, path).Some? && Walk(root, path).value.JObj? ==>
      Walk(r.doc, path) == Some(JObj(if isDeleting then Remove(Walk(root, path).value.members, key)
                                     else Put(Walk(root, path).value.members, key, x)))
    ensures Walk(root, path).Some? && Walk(root, path).value.JArr? && isDeleting && ToIntOrNull(key).Some? ==>
      Walk(r.doc, path) == Some(JArr(Without(Walk(root, path).value.elems, ToIntOrNull(key).value)))
    ensures Walk(root, path).Some? && Walk(root, path).value.JArr? && !isDeleting ==>
      Walk(r.doc, path) == Some(JArr(ArrayPut(Walk(root, path).value.elems, key, x)))
    ensures Walk(root, path).Some? && !Walk(root, path).value.JObj? && !Walk(root, path).value.JArr? ==>
      r == Rewritten(root)
  {
    match Walk(root, path)
    case None => Unchanged
    case Some(JObj(ms)) =>
      Rewritten(Replace(root, path, JObj(if isDeleting then Remove(ms, key) else Put(ms, key, x))))
    case Some(JArr(es)) =>
      if isDeleting then
        match ToIntOrNull(key)
        case None => Unchanged
        case Some(index) => Rewritten(Replace(root, path, JArr(Without(es, index))))
      else Rewritten(Replace(root, path, JArr(ArrayPut(es, key, x))))
    case Some(_) => Rewritten(root)
  }

  /**
   * A root array with a non-empty path: the array is wrapped as
   * `{"root": array}` and the first segment only selects it, so the walk runs
   * over `path[1..]` from the array. Deleting from an array target is the
   * exception: re-walking to the parent asks the wrapped array for an
   * object, which throws once the path has two segments; with one segment
   * the filtered array is stored in the wrapper under that segment, so only
   * the segment `"root"` changes what is printed.
   */
  function EditUnderRootArray(es: seq<Json>, path: seq<string>, key: string, x: Json, isDeleting: bool): (r: Outcome)
    requires path != []
    ensures r.Unchanged? <==>
      Walk(JArr(es), path[1..]).None? ||
      (isDeleting && Walk(JArr(es), path[1..]).value.JArr? && (ToIntOrNull(key).None? || |path| >= 2))
    ensures isDeleting && Walk(JArr(es), path[1..]).Some? && Walk(JArr(es), path[1..]).value.JArr? && r.Rewritten? ==>
      r.doc == JArr(if path[0] == "root" then Without(es, ToIntOrNull(key).value) else es)
  {
    match Walk(JArr(es), path[1..])
    case Some(JArr(_)) =>
      if isDeleting then
        match ToIntOrNull(key)
        case None => Unchanged
        case Some(index) =>
          if |path| >= 2 then Unchanged
          else if path[0] == "root" then Rewritten(JArr(Without(es, index)))
          else Rewritten(JArr(es))
      else EditAt(JArr(es), path[1..], key, x, false)
    case _ => EditAt(JArr(es), path[1..], key, x, isDeleting)
  }

  /** `modifyJsonObject` on documents: the text is read as an object or an array, then edited. */
  function Modify(lib: Library, s: string, path: seq<string>, key: string, value: Value, isDeleting: bool): (r: Outcome)
    ensures !OpensObject(s) && !OpensArray(s) ==> r == Unchanged
    ensures ReadDocument(lib, s).None? ==> r == Unchanged
  {
    if OpensObject(s) then
      match ReadObject(lib, s)
      case None => Unchanged
      case Some(ms) => EditAt(JObj(ms), path, key, ToJson(value), isDeleting)
    else if OpensArray(s) then
      match ReadArray(lib, s)
      case None => Unchanged
      case Some(es) =>
        if path == [] then EditAt(JArr(es), [], key, ToJson(value), isDeleting)
        else EditUnderRootArray(es, path, key, ToJson(value), isDeleting)
    else Unchanged
  }

  /** The text `modifyJsonObject` returns: the input where it failed, else the compact print of the new document. */
  function ModifiedText(lib: Library, s: string, path: seq<string>, key: string, value: Value, isDeleting: bool): (r: string)
    ensures Modify(lib, s, path, key, value, isDeleting).Unchanged? ==> r == s
    ensures Modify(lib, s, path, key, value, isDeleting).Rewritten? ==>
      r == lib.compact(Modify(lib, s, path, key, value, isDeleting).doc)
  {
    match Modify(lib, s, path, key, value, isDeleting)
    case Unchanged => s
    case Rewritten(doc) => lib.compact(doc)
  }

  // ---------------------------------------------------------------------------
  // What the edit promises

  /** Under a root array and an empty path, deleting by an `Int` key removes exactly that element. */
  lemma RootArrayDelete(lib: Library, s: string, key: string, value: Value, es: seq<Json>, index: int)
    requires OpensArray(s) && ReadArray(lib, s) == Some(es) && ToIntOrNull(key) == Some(index)
    ensures Modify(lib, s, [], key, value, true) == Rewritten(JArr(Without(es, index)))
    ensures 0 <= index < |es| ==> |Without(es, index)| == |es| - 1
    ensures !(0 <= index < |es|) ==> Modify(lib, s, [], key, value, true) == Rewritten(JArr(es))
  {
    assert !OpensObject(s);
  }

  /**
   * An object target: deleting leaves `key` absent, putting maps it to the
   * converted value, and every other key of the target keeps its value.
   */
  lemma ObjectTarget(root: Json, path: seq<string>, key: string, x: Json, isDeleting: bool, ms: seq<(string, Json)>)
    requires Walk(root, path) == Some(JObj(ms))
    ensures EditAt(root, path, key, x, isDeleting).Rewritten?
    ensures Walk(EditAt(root, path, key, x, isDeleting).doc, path).Some?
    ensures Walk(EditAt(root, path, key, x, isDeleting).doc, path).value.JObj?
    ensures Get(Walk(EditAt(root, path, key, x, isDeleting).doc, path).value.members, key)
      == (if isDeleting then None else Some(x))
    ensures forall k :: k != key ==> Get(Walk(EditAt(root, path, key, x, isDeleting).doc, path).value.members, k) == Get(ms, k)
  {
    var target := if isDeleting then Remove(ms, key) else Put(ms, key, x);
    assert Walk(EditAt(root, path, key, x, isDeleting).doc, path) == Some(JObj(target));
    forall k
      ensures Get(target, k) == if k == key then (if isDeleting then None else Some(x)) else Get(ms, k)
    {
      if isDeleting {
        RemoveGet(ms, key, k);
      } else {
        PutGet(ms, key, x, k);
      }
    }
  }

  /**
   * An array target: deleting by an `Int` key leaves the filtered array at
   * the path (written back into the parent), and putting leaves the array
   * `ArrayPut` gives, never shorter than before.
   */
  lemma ArrayTarget(root: Json, path: seq<string>, key: string, x: Json, isDeleting: bool, es: seq<Json>)
    requires Walk(root, path) == Some(JArr(es))
    ensures isDeleting && ToIntOrNull(key).None? ==> EditAt(root, path, key, x, isDeleting) == Unchanged
    ensures isDeleting && ToIntOrNull(key).Some? ==>
      EditAt(root, path, key, x, isDeleting).Rewritten? &&
      Walk(EditAt(root, path, key, x, isDeleting).doc, path) == Some(JArr(Without(es, ToIntOrNull(key).value)))
    ensures !isDeleting ==>
      EditAt(root, path, key, x, isDeleting).Rewritten? &&
      Walk(EditAt(root, path, key, x, isDeleting).doc, path) == Some(JArr(ArrayPut(es, key, x))) &&
      |ArrayPut(es, key, x)| >= |es|
  {
  }

  /** A path that ends at a primitive edits nothing: the same document is printed again. */
  lemma PrimitiveTarget(lib: Library, s: string, path: seq<string>, key: string, value: Value, isDeleting: bool,
                        ms: seq<(string, Json)>, t: Json)
    requires OpensObject(s) && ReadObject(lib, s) == Some(ms)
    requires Walk(JObj(ms), path) == Some(t) && !t.JObj? && !t.JArr?
    ensures ModifiedText(lib, s, path, key, value, isDeleting) == lib.compact(JObj(ms))
  {
  }

  /**
   * The edit changes the target and nothing beside it: every path that
   * branches off the edited path leads where it did before.
   */
  lemma EditKeepsOffPath(root: Json, path: seq<string>, key: string, x: Json, isDeleting: bool,
                         q: seq<string>, i: nat)
    requires EditAt(root, path, key, x, isDeleting).Rewritten?
    requires LeavesAt(root, path, q, i)
    ensures Walk(EditAt(root, path, key, x, isDeleting).doc, q) == Walk(root, q)
  {
    match Walk(root, path).value
    case JObj(ms) =>
      ReplaceKeepsOffPath(root, path, JObj(if isDeleting then Remove(ms, key) else Put(ms, key, x)), q, i);
    case JArr(es) =>
      if isDeleting {
        ReplaceKeepsOffPath(root, path, JArr(Without(es, ToIntOrNull(key).value)), q, i);
      } else {
        ReplaceKeepsOffPath(root, path, JArr(ArrayPut(es, key, x)), q, i);
      }
    case _ =>
  }

  /** A segment that reads as an `Int`, met at an object, makes the whole edit fail. */
  lemma NumericSegmentOnObject(root: Json, path: seq<string>, i: nat, key: string, x: Json, isDeleting: bool)
    requires i < |path| && Walk(root, path[..i]).Some? && Walk(root, path[..i]).value.JObj?
    requires ToIntOrNull(path[i]).Some?
    ensures EditAt(root, path, key, x, isDeleting) == Unchanged
  {
    WalkSnoc(root, path[..i], path[i]);
    TakeSnoc(path, i + 1);
    SplitAt(path, i + 1);
    WalkNone(root, path[..i + 1], path[i + 1..]);
  }

  /**
   * Under a root array the first segment is never used as an index: apart
   * from deletions, any first segment gives the same result.
   */
  lemma RootArrayFirstSegment(lib: Library, s: string, a: string, b: string, p: seq<string>, key: string, value: Value)
    requires OpensArray(s)
    ensures Modify(lib, s, [a] + p, key, value, false) == Modify(lib, s, [b] + p, key, value, false)
  {
    ModifyRootArray(lib, s, [a] + p, key, value, false);
    ModifyRootArray(lib, s, [b] + p, key, value, false);
    if ReadArray(lib, s).Some? {
      var es := ReadArray(lib, s).value;
      assert ([a] + p)[1..] == p;
      assert ([b] + p)[1..] == p;
      PutUnderRootArray(es, [a] + p, key, ToJson(value));
      PutUnderRootArray(es, [b] + p, key, ToJson(value));
    }
  }

  /** A text that opens an array, edited along a non-empty path, is edited under the wrapper. */
  lemma ModifyRootArray(lib: Library, s: string, path: seq<string>, key: string, value: Value, isDeleting: bool)
    requires OpensArray(s) && path != []
    ensures ReadArray(lib, s).None? ==> Modify(lib, s, path, key, value, isDeleting) == Unchanged
    ensures ReadArray(lib, s).Some? ==>
      Modify(lib, s, path, key, value, isDeleting) == EditUnderRootArray(ReadArray(lib, s).value, path, key, ToJson(value), isDeleting)
  {
    assert !OpensObject(s);
  }

  /** Under a root array, a put is the same edit on the array along the path without its first segment. */
  lemma PutUnderRootArray(es: seq<Json>, path: seq<string>, key: string, x: Json)
    requires path != []
    ensures EditUnderRootArray(es, path, key, x, false) == EditAt(JArr(es), path[1..], key, x, false)
  {
  }

  /**
   * Deleting from an array target under a root array: with two or more
   * segments the re-walk throws and the text comes back unchanged; with one,
   * the printed array loses the element only when that segment is `"root"`.
   */
  lemma RootArrayNestedDelete(lib: Library, s: string, path: seq<string>, key: string, value: Value,
                              es: seq<Json>, t: seq<Json>, index: int)
    requires OpensArray(s) && ReadArray(lib, s) == Some(es) && path != []
    requires Walk(JArr(es), path[1..]) == Some(JArr(t)) && ToIntOrNull(key) == Some(index)
    ensures |path| >= 2 ==> ModifiedText(lib, s, path, key, value, true) == s
    ensures |path| == 1 && path[0] == "root" ==> Modify(lib, s, path, key, value, true) == Rewritten(JArr(Without(es, index)))
    ensures |path| == 1 && path[0] != "root" ==> Modify(lib, s, path, key, value, true) == Rewritten(JArr(es))
  {
    ModifyRootArray(lib, s, path, key, value, true);
  }

  // ---------------------------------------------------------------------------
  // Walks and replacements, one segment at a time

  /** Walking one more segment is one more `Step` from where the walk got to. */
  lemma {:induction false} WalkSnoc(node: Json, p: seq<string>, seg: string)
    ensures Walk(node, p + [seg]) == (match Walk(node, p) case None => None case Some(c) => Step(c, seg))
    decreases |p|
  {
    if p == [] {
      assert p + [seg] == [seg];
    } else {
      assert (p + [seg])[1..] == p[1..] + [seg];
      match Step(node, p[0])
      case None =>
      case Some(child) => WalkSnoc(child, p[1..], seg);
    }
  }

  /** Replacing at `p + [seg]` is replacing at `p` the parent with its child `seg` set. */
  lemma {:induction false} ReplaceSnoc(node: Json, p: seq<string>, seg: string, x: Json)
    requires Walk(node, p + [seg]).Some?
    ensures Walk(node, p).Some? && Step(Walk(node, p).value, seg).Some?
    ensures Replace(node, p + [seg], x) == Replace(node, p, SetChild(Walk(node, p).value, seg, x))
    decreases |p|
  {
    WalkSnoc(node, p, seg);
    if p == [] {
      assert p + [seg] == [seg];
    } else {
      assert (p + [seg])[1..] == p[1..] + [seg];
      var child := Step(node, p[0]).value;
      ReplaceSnoc(child, p[1..], seg, x);
    }
  }

  /** The wrapper `{"root": array}` built for a root array. */
  function Wrap(es: seq<Json>): Json {
    JObj([("root", JArr(es))])
  }

  /** Walking the wrapper through `"root"` is walking the array. */
  lemma WrapWalk(es: seq<Json>, q: seq<string>)
    ensures Walk(Wrap(es), ["root"] + q) == Walk(JArr(es), q)
  {
    assert ToIntOrNull("root").None?;
    assert (["root"] + q)[1..] == q;
  }

  /** Replacing inside the wrapper through `"root"` replaces inside the array. */
  lemma WrapReplace(es: seq<Json>, q: seq<string>, t: Json)
    requires Walk(JArr(es), q).Some?
    requires q == [] ==> t.JArr?
    ensures Walk(Wrap(es), ["root"] + q).Some?
    ensures GetJsonArray(Replace(Wrap(es), ["root"] + q, t), "root") == Some(Replace(JArr(es), q, t))
  {
    WrapWalk(es, q);
    assert ToIntOrNull("root").None?;
    assert (["root"] + q)[1..] == q;
  }

  /** The segments the walk follows in fact: `"root"` in place of the first one under a root array. */
  function Walked(path: seq<string>, isRootArray: bool): (r: seq<string>)
    ensures |r| == |path|
    ensures forall i :: 0 < i < |path| ==> r[i] == path[i]
    ensures !isRootArray ==> r == path
  {
    if isRootArray && path != [] then ["root"] + path[1..] else path
  }

  /** Under the wrapper, the filtered array stored under the only segment is printed only if that segment is `"root"`. */
  lemma WrapPutRoot(es: seq<Json>, seg: string, newArray: seq<Json>)
    ensures GetJsonArray(JObj(Put(Wrap(es).members, seg, JArr(newArray))), "root")
      == Some(JArr(if seg == "root" then newArray else es))
  {
    PutGet(Wrap(es).members, seg, JArr(newArray), "root");
  }

  // ---------------------------------------------------------------------------
  // The source's loops

  /**
   * `modifyJsonObject`: parse, handle a root array with an empty path
   * directly, otherwise walk the path (through the `"root"` wrapper for a
   * root array), edit the target in place, and print the document.
   */
  method ModifyJsonObject(lib: Library, jsonString: string, path: seq<string>, key: string, value: Value, isDeleting: bool)
    returns (result: string)
    ensures result == ModifiedText(lib, jsonString, path, key, value, isDeleting)
  {
    var jsonObject: Json;
    var rootArray: seq<Json> := [];
    if OpensObject(jsonString) {
      var parsed := ReadObject(lib, jsonString);
      if parsed.None? {
        return jsonString;
      }
      jsonObject := JObj(parsed.value);
    } else if OpensArray(jsonString) {
      var parsed := ReadArray(lib, jsonString);
      if parsed.None? {
        return jsonString;
      }
      rootArray := parsed.value;
      if path == [] {
        result := EditRootArray(lib, jsonString, rootArray, key, value, isDeleting);
        return;
      }
      jsonObject := Wrap(rootArray);
    } else {
      return jsonString;
    }
    var isRootArray := OpensArray(jsonString) && path != [];
    var edited := EditWrapped(jsonObject, path, isRootArray, rootArray, key, value, isDeleting);
    if edited.None? {
      return jsonString;
    }
    jsonObject := edited.value;
    if isRootArray {
      var arr := GetJsonArray(jsonObject, "root");
      if arr.None? {
        return jsonString;
      }
      result := lib.compact(arr.value);
    } else {
      result := lib.compact(jsonObject);
    }
  }

  /**
   * What an edit of the parsed document must give: `EditAt` of the object,
   * or, under a root array, the array `EditUnderRootArray` describes read
   * back from the wrapper; `None` where an exception is thrown.
   */
  ghost predicate Agrees(jsonObject: Json, path: seq<string>, isRootArray: bool, rootArray: seq<Json>,
                         key: string, x: Json, isDeleting: bool, edited: Option<Json>)
    requires isRootArray ==> path != []
  {
    && (!isRootArray ==> edited == OutcomeDoc(EditAt(jsonObject, path, key, x, isDeleting)))
    && (isRootArray ==> (edited.None? <==> EditUnderRootArray(rootArray, path, key, x, isDeleting).Unchanged?))
    && (isRootArray && edited.Some? ==>
          GetJsonArray(edited.value, "root") == Some(EditUnderRootArray(rootArray, path, key, x, isDeleting).doc))
  }

  /**
   * The document after the walk and the edit of the target, or `None` where
   * an exception is thrown. Under a root array the document is the wrapper,
   * and the array printed is the one under `"root"`.
   */
  method EditWrapped(jsonObject: Json, path: seq<string>, isRootArray: bool, rootArray: seq<Json>,
                     key: string, value: Value, isDeleting: bool)
    returns (edited: Option<Json>)
    requires isRootArray ==> path != [] && jsonObject == Wrap(rootArray)
    requires !isRootArray ==> jsonObject.JObj?
    ensures Agrees(jsonObject, path, isRootArray, rootArray, key, ToJson(value), isDeleting, edited)
  {
    if isRootArray {
      WrapWalk(rootArray, path[1..]);
    }
    var found := WalkPath(jsonObject, path, isRootArray, rootArray);
    if found.None? {
      return None;
    }
    match found.value {
      case JObj(ms) =>
        edited := EditObjectTarget(jsonObject, path, isRootArray, rootArray, ms, key, value, isDeleting);
      case JArr(es) =>
        edited := EditArrayTarget(jsonObject, path, isRootArray, rootArray, es, key, value, isDeleting);
      case _ =>
        if isRootArray {
          assert Wrap(rootArray).members[0] == ("root", JArr(rootArray));
        }
        return Some(jsonObject);
    }
  }

  /** An object target: `remove(key)` or `put(key, value)` on it, in place. */
  method EditObjectTarget(jsonObject: Json, path: seq<string>, isRootArray: bool, rootArray: seq<Json>,
                          ms: seq<(string, Json)>, key: string, value: Value, isDeleting: bool)
    returns (edited: Option<Json>)
    requires isRootArray ==> path != [] && jsonObject == Wrap(rootArray)
    requires Walk(jsonObject, Walked(path, isRootArray)) == Some(JObj(ms))
    ensures Agrees(jsonObject, path, isRootArray, rootArray, key, ToJson(value), isDeleting, edited)
  {
    var target: seq<(string, Json)>;
    if isDeleting {
      target := Remove(ms, key);
    } else {
      var converted := ConvertToJsonValue(value);
      target := Put(ms, key, converted);
    }
    ghost var x := ToJson(value);
    if isRootArray {
      WrapWalk(rootArray, path[1..]);
      WrapReplace(rootArray, path[1..], JObj(target));
      assert EditUnderRootArray(rootArray, path, key, x, isDeleting)
          == Rewritten(Replace(JArr(rootArray), path[1..], JObj(target)));
    } else {
      assert EditAt(jsonObject, path, key, x, isDeleting) == Rewritten(Replace(jsonObject, path, JObj(target)));
    }
    return Some(Replace(jsonObject, Walked(path, isRootArray), JObj(target)));
  }

  /**
   * An array target: a delete by `key.toInt()` builds the filtered array and
   * writes it back into the parent; a put goes through `PutIntoArray`.
   */
  method EditArrayTarget(jsonObject: Json, path: seq<string>, isRootArray: bool, rootArray: seq<Json>,
                         es: seq<Json>, key: string, value: Value, isDeleting: bool)
    returns (edited: Option<Json>)
    requires isRootArray ==> path != [] && jsonObject == Wrap(rootArray)
    requires !isRootArray ==> jsonObject.JObj?
    requires Walk(jsonObject, Walked(path, isRootArray)) == Some(JArr(es))
    ensures Agrees(jsonObject, path, isRootArray, rootArray, key, ToJson(value), isDeleting, edited)
  {
    if isDeleting {
      edited := DeleteFromArray(jsonObject, path, isRootArray, rootArray, es, key, ToJson(value));
    } else {
      var converted := ConvertToJsonValue(value);
      var targetArray := PutIntoArray(es, key, converted);
      if isRootArray {
        WrapWalk(rootArray, path[1..]);
        WrapReplace(rootArray, path[1..], JArr(targetArray));
      }
      return Some(Replace(jsonObject, Walked(path, isRootArray), JArr(targetArray)));
    }
  }

  /** The delete from an array target: the element at `key.toInt()` left out, written back into the parent. */
  method DeleteFromArray(jsonObject: Json, path: seq<string>, isRootArray: bool, rootArray: seq<Json>,
                         es: seq<Json>, key: string, ghost x: Json)
    returns (edited: Option<Json>)
    requires isRootArray ==> path != [] && jsonObject == Wrap(rootArray)
    requires !isRootArray ==> jsonObject.JObj?
    requires Walk(jsonObject, Walked(path, isRootArray)) == Some(JArr(es))
    ensures Agrees(jsonObject, path, isRootArray, rootArray, key, x, true, edited)
  {
    if isRootArray {
      WrapWalk(rootArray, path[1..]);
    }
    var index := ToIntOrNull(key);
    if index.None? {
      return None;
    }
    var newArray := RemoveIndex(es, index.value);
    if !isRootArray {
      assert path != [];
    }
    edited := WriteBack(jsonObject, path, isRootArray, rootArray, newArray);
    if isRootArray {
      assert Walk(JArr(rootArray), path[1..]) == Some(JArr(es));
      if edited.Some? {
        WrapPutRoot(rootArray, path[0], newArray);
        assert EditUnderRootArray(rootArray, path, key, x, true)
            == Rewritten(JArr(if path[0] == "root" then newArray else rootArray));
      } else {
        assert EditUnderRootArray(rootArray, path, key, x, true) == Unchanged;
      }
    } else {
      assert EditAt(jsonObject, path, key, x, true) == Rewritten(Replace(jsonObject, path, JArr(newArray)));
    }
  }

  /** The put into an array target: by index when the key is an `Int`, else at the end. */
  method PutIntoArray(es: seq<Json>, key: string, converted: Json) returns (targetArray: seq<Json>)
    ensures targetArray == ArrayPut(es, key, converted)
  {
    targetArray := es;
    match ToIntOrNull(key) {
      case Some(index) =>
        if 0 <= index < |targetArray| {
          targetArray := targetArray[index := converted];
        } else if index == |targetArray| {
          targetArray := targetArray + [converted];
        }
      case None =>
        targetArray := targetArray + [converted];
    }
  }

  /** The document an outcome prints, `None` for an exception. */
  function OutcomeDoc(o: Outcome): (r: Option<Json>)
    ensures r.Some? <==> o.Rewritten?
    ensures r.Some? ==> r.value == o.doc
  {
    match o
    case Unchanged => None
    case Rewritten(doc) => Some(doc)
  }

  /** The first loop: follows the path from the document, `getJSONArray("root")` first under a root array. */
  method WalkPath(jsonObject: Json, path: seq<string>, isRootArray: bool, rootArray: seq<Json>)
    returns (current: Option<Json>)
    requires isRootArray ==> path != [] && jsonObject == Wrap(rootArray)
    ensures current == Walk(jsonObject, Walked(path, isRootArray))
  {
    var walked := Walked(path, isRootArray);
    var node := jsonObject;
    for i := 0 to |path|
      invariant Walk(jsonObject, walked[..i]) == Some(node)
    {
      var next: Option<Json>;
      if isRootArray && i == 0 {
        assert ToIntOrNull("root").None?;
        assert Wrap(rootArray).members[0] == ("root", JArr(rootArray));
        next := GetJsonArray(node, "root");
      } else {
        next := Step(node, path[i]);
      }
      WalkSnoc(jsonObject, walked[..i], walked[i]);
      TakeSnoc(walked, i + 1);
      if next.None? {
        SplitAt(walked, i + 1);
        WalkNone(jsonObject, walked[..i + 1], walked[i + 1..]);
        return None;
      }
      node := next.value;
    }
    assert walked[..|path|] == walked;
    return Some(node);
  }

  /** A walk that fails on a prefix fails on the whole path. */
  lemma {:induction false} WalkNone(node: Json, p: seq<string>, q: seq<string>)
    requires Walk(node, p).None?
    ensures Walk(node, p + q).None?
    decreases |p|
  {
    assert p != [];
    assert (p + q)[1..] == p[1..] + q;
    match Step(node, p[0])
    case None =>
    case Some(child) => WalkNone(child, p[1..], q);
  }

  /**
   * Deleting from a target array: walk again to the parent (asking for
   * `getJSONObject("root")` first under a root array) and store the filtered
   * array there under the last segment.
   */
  method WriteBack(jsonObject: Json, path: seq<string>, isRootArray: bool, rootArray: seq<Json>, newArray: seq<Json>)
    returns (edited: Option<Json>)
    requires path != []
    requires isRootArray ==> jsonObject == Wrap(rootArray)
    requires Walk(jsonObject, Walked(path, isRootArray)).Some?
    ensures isRootArray && |path| >= 2 ==> edited.None?
    ensures isRootArray && |path| == 1 ==> edited == Some(JObj(Put(Wrap(rootArray).members, path[0], JArr(newArray))))
    ensures !isRootArray ==> edited == Some(Replace(jsonObject, path, JArr(newArray)))
  {
    var walked := Walked(path, isRootArray);
    var n := |path| - 1;
    TakeSnoc(walked, n + 1);
    assert walked[..n + 1] == walked;
    ReplaceSnoc(jsonObject, walked[..n], walked[n], JArr(newArray));
    var parentObject := jsonObject;
    for i := 0 to n
      invariant Walk(jsonObject, walked[..i]) == Some(parentObject)
      invariant isRootArray ==> i == 0
    {
      var next: Option<Json>;
      if isRootArray && i == 0 {
        assert Wrap(rootArray).members[0] == ("root", JArr(rootArray));
        next := GetJsonObject(parentObject, "root");
      } else {
        next := Step(parentObject, path[i]);
      }
      if next.None? {
        if !isRootArray {
          WalkSnoc(jsonObject, walked[..i], walked[i]);
          TakeSnoc(walked, i + 1);
          SplitAt(walked, i + 1);
          WalkNone(jsonObject, walked[..i + 1], walked[i + 1..]);
        }
        return None;
      }
      WalkSnoc(jsonObject, walked[..i], walked[i]);
      TakeSnoc(walked, i + 1);
      parentObject := next.value;
    }
    var lastSegment := path[n];
    match parentObject {
      case JArr(pes) =>
        var lastIndex := ToIntOrNull(lastSegment).value;
        var put := JsonArrayPut(pes, lastIndex, JArr(newArray));
        assert put == Some(pes[lastIndex := JArr(newArray)]);
        edited := Some(Replace(jsonObject, walked[..n], JArr(put.value)));
      case JObj(pms) =>
        edited := Some(Replace(jsonObject, walked[..n], JObj(Put(pms, lastSegment, JArr(newArray)))));
    }
  }

  /** The root-array branch for an empty path: delete by index, or put by `ArrayPut`. */
  method EditRootArray(lib: Library, jsonString: string, rootArray: seq<Json>, key: string, value: Value, isDeleting: bool)
    returns (result: string)
    ensures result == match EditAt(JArr(rootArray), [], key, ToJson(value), isDeleting)
      case Unchanged => jsonString
      case Rewritten(doc) => lib.compact(doc)
  {
    if isDeleting {
      var index := ToIntOrNull(key);
      if index.None? {
        return jsonString;
      }
      var newArray := RemoveIndex(rootArray, index.value);
      return lib.compact(JArr(newArray));
    } else if ToIntOrNull(key).Some? {
      var index := ToIntOrNull(key).value;
      var arr := rootArray;
      if 0 <= index < |arr| {
        var converted := ConvertToJsonValue(value);
        arr := arr[index := converted];
      } else if index == |arr| {
        var converted := ConvertToJsonValue(value);
        arr := arr + [converted];
      }
      return lib.compact(JArr(arr));
    } else {
      var converted := ConvertToJsonValue(value);
      return lib.compact(JArr(rootArray + [converted]));
    }
  }
}
