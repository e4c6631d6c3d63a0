/**
 * The two shapes a JSON document takes in the app: org.json's tree
 * (`JSONObject`, `JSONArray`, `JSONObject.NULL` and boxed primitives) and the
 * plain Kotlin value the viewer navigates (`Map<String, Any?>`, `List<Any?>`,
 * `null` and the same primitives). Objects and maps are association lists in
 * insertion order; numbers are kept as their printed text.
 */
module JsonModel {
  import opened Wrappers
  import opened Text

  /** A node of org.json's tree. */
  datatype Json =
    | JNull
    | JBool(b: bool)
    | JNum(num: string)
    | JStr(str: string)
    | JObj(members: seq<(string, Json)>)
    | JArr(elems: seq<Json>)

  /** A Kotlin value of type `Any?` as produced and consumed by the app. */
  datatype Value =
    | Null
    | Bool(b: bool)
    | Num(num: string)
    | Str(str: string)
    | MapV(entries: seq<(string, Value)>)
    | ListV(items: seq<Value>)

  /**
   * The JSON library and number parser the app calls, which this model does not
   * implement: org.json's reader (`None` where it throws `JSONException`), its
   * two printers (`toString(2)` and `toString()`), and Kotlin's
   * `String.toDoubleOrNull()` (giving the `Double`'s own text).
   */
  datatype Library = Library(
    parse: string -> Option<Json>,
    indent: Json -> string,
    compact: Json -> string,
    toDouble: string -> Option<string>)

  // ---------------------------------------------------------------------------
  // Association lists: JSONObject and LinkedHashMap

  function Keys<V>(m: seq<(string, V)>): (r: seq<string>)
    ensures |r| == |m|
    ensures forall i :: 0 <= i < |m| ==> r[i] == m[i].0
  {
    if m == [] then [] else [m[0].0] + Keys(m[1..])
  }

  /** No key occurs twice. */
  predicate UniqueKeys<V>(m: seq<(string, V)>) {
    m == [] || (m[0].0 !in Keys(m[1..]) && UniqueKeys(m[1..]))
  }

  /** `get(key)`: the value of the first entry with that key. */
  function Get<V>(m: seq<(string, V)>, k: string): (r: Option<V>)
    ensures r.Some? <==> k in Keys(m)
  {
    if m == [] then None
    else if m[0].0 == k then Some(m[0].1)
    else Get(m[1..], k)
  }

  /** In a map without repeated keys, two different positions hold different keys. */
  lemma {:induction false} UniqueKeysAt<V>(m: seq<(string, V)>, i: nat, j: nat)
    requires UniqueKeys(m) && i < j < |m|
    ensures m[i].0 != m[j].0
  {
    assert m[1..][j - 1] == m[j];
    if i == 0 {
      assert m[j].0 in Keys(m[1..]);
    } else {
      assert m[1..][i - 1] == m[i];
      UniqueKeysAt(m[1..], i - 1, j - 1);
    }
  }

  /**
   * A map whose keys are, position by position, the first `n - 1` keys of a
   * map without repeated keys does not hold that map's `n`-th key.
   */
  lemma FreshKey<V, W>(m: seq<(string, V)>, prefix: seq<(string, W)>, n: nat)
    requires UniqueKeys(m) && 0 < n <= |m| && |prefix| == n - 1
    requires forall i :: 0 <= i < n - 1 ==> prefix[i].0 == m[i].0
    ensures m[n - 1].0 !in Keys(prefix)
  {
    forall i | 0 <= i < n - 1
      ensures Keys(prefix)[i] != m[n - 1].0
    {
      UniqueKeysAt(m, i, n - 1);
    }
  }

  /** Keys that differ pairwise repeat nowhere. */
  lemma {:induction false} DistinctUnique<V>(m: seq<(string, V)>)
    requires forall i, j :: 0 <= i < j < |m| ==> m[i].0 != m[j].0
    ensures UniqueKeys(m)
  {
    if m != [] {
      DistinctUnique(m[1..]);
      forall i | 0 <= i < |m| - 1
        ensures Keys(m[1..])[i] != m[0].0
      {
        assert m[1..][i] == m[i + 1];
      }
    }
  }

  /** Whether keys repeat depends on the keys alone. */
  lemma {:induction false} UniqueKeysSameKeys<V, W>(a: seq<(string, V)>, b: seq<(string, W)>)
    requires Keys(a) == Keys(b)
    ensures UniqueKeys(a) == UniqueKeys(b)
  {
    if a != [] {
      assert Keys(a[1..]) == Keys(a)[1..] == Keys(b)[1..] == Keys(b[1..]);
      UniqueKeysSameKeys(a[1..], b[1..]);
    }
  }

  /** In a map without repeated keys, every entry is what `get` finds. */
  lemma {:induction false} GetUnique<V>(m: seq<(string, V)>, i: nat)
    requires UniqueKeys(m) && i < |m|
    ensures Get(m, m[i].0) == Some(m[i].1)
  {
    if i > 0 {
      assert m[1..][i - 1] == m[i];
      GetUnique(m[1..], i - 1);
      assert m[i].0 in Keys(m[1..]);
    }
  }

  /**
   * `put(key, value)`: an existing entry is overwritten where it stands, a new
   * one goes at the end.
   */
  function Put<V>(m: seq<(string, V)>, k: string, v: V): (r: seq<(string, V)>)
    ensures k in Keys(m) ==> Keys(r) == Keys(m)
    ensures k !in Keys(m) ==> r == m + [(k, v)]
  {
    if m == [] then [(k, v)]
    else if m[0].0 == k then
      var r := [(k, v)] + m[1..];
      assert r[1..] == m[1..];
      r
    else
      var rest := Put(m[1..], k, v);
      var r := [m[0]] + rest;
      assert r[1..] == rest;
      r
  }

  /** After `put`, the key maps to the value and every other key keeps its value. */
  lemma {:induction false} PutGet<V>(m: seq<(string, V)>, k: string, v: V, k': string)
    ensures Get(Put(m, k, v), k') == if k' == k then Some(v) else Get(m, k')
  {
    if m != [] && m[0].0 != k {
      PutGet(m[1..], k, v, k');
      assert Put(m, k, v)[1..] == Put(m[1..], k, v);
    } else if m != [] {
      assert Put(m, k, v)[1..] == m[1..];
    }
  }

  /** `put` never makes a key repeat. */
  lemma {:induction false} PutUnique<V>(m: seq<(string, V)>, k: string, v: V)
    requires UniqueKeys(m)
    ensures UniqueKeys(Put(m, k, v))
  {
    if m != [] && m[0].0 != k {
      PutUnique(m[1..], k, v);
      assert Put(m, k, v)[1..] == Put(m[1..], k, v);
    } else if m != [] {
      assert Put(m, k, v)[1..] == m[1..];
    }
  }

  /** The map filled by putting the first `n` entries of `es` in order. */
  function PutAll<V>(es: seq<(string, V)>, n: nat): seq<(string, V)>
    requires n <= |es|
  {
    if n == 0 then [] else Put(PutAll(es, n - 1), es[n - 1].0, es[n - 1].1)
  }

  /** Filling a map from entries without repeated keys reproduces them in order. */
  lemma {:induction false} PutAllUnique<V>(es: seq<(string, V)>, n: nat)
    requires n <= |es| && UniqueKeys(es)
    ensures PutAll(es, n) == es[..n]
  {
    if n > 0 {
      PutAllUnique(es, n - 1);
      FreshKey(es, es[..n - 1], n);
      TakeSnoc(es, n);
    }
  }

  /** Filling a map from all of a map's entries, none repeated, gives that map. */
  lemma PutAllWhole<V>(es: seq<(string, V)>)
    requires UniqueKeys(es)
    ensures PutAll(es, |es|) == es
  {
    PutAllUnique(es, |es|);
    assert es[..|es|] == es;
  }

  /** Entries with the same keys in the same positions repeat keys alike. */
  lemma SameKeysUnique<V, W>(a: seq<(string, V)>, b: seq<(string, W)>)
    requires |a| == |b| && forall i :: 0 <= i < |a| ==> b[i].0 == a[i].0
    ensures UniqueKeys(a) == UniqueKeys(b)
  {
    assert Keys(a) == Keys(b);
    UniqueKeysSameKeys(a, b);
  }

  lemma SplitAt<T>(s: seq<T>, n: nat)
    requires n <= |s|
    ensures s == s[..n] + s[n..]
  {
  }

  lemma TakeSnoc<T>(s: seq<T>, n: nat)
    requires 0 < n <= |s|
    ensures s[..n] == s[..n - 1] + [s[n - 1]]
  {
  }

  /** `remove(key)`: drops the key's entry and keeps the others in order. */
  function Remove<V>(m: seq<(string, V)>, k: string): (r: seq<(string, V)>)
    ensures |r| <= |m|
    ensures k !in Keys(m) ==> r == m
  {
    if m == [] then []
    else if m[0].0 == k then Remove(m[1..], k)
    else [m[0]] + Remove(m[1..], k)
  }

  /** After `remove`, the key is absent and every other key keeps its value. */
  lemma {:induction false} RemoveGet<V>(m: seq<(string, V)>, k: string, k': string)
    ensures Get(Remove(m, k), k') == if k' == k then None else Get(m, k')
  {
    if m != [] {
      RemoveGet(m[1..], k, k');
      if m[0].0 != k {
        assert Remove(m, k)[1..] == Remove(m[1..], k);
      }
    }
  }

  /** `remove` never makes a key repeat. */
  lemma {:induction false} RemoveUnique<V>(m: seq<(string, V)>, k: string)
    requires UniqueKeys(m)
    ensures UniqueKeys(Remove(m, k))
  {
    if m != [] {
      RemoveUnique(m[1..], k);
      if m[0].0 != k {
        var r := Remove(m, k);
        assert r[1..] == Remove(m[1..], k);
        RemoveKeys(m[1..], k, m[0].0);
      }
    }
  }

  /** The keys after `remove` are the keys before, less the removed one. */
  lemma {:induction false} RemoveKeys<V>(m: seq<(string, V)>, k: string, k': string)
    ensures k' in Keys(Remove(m, k)) <==> k' in Keys(m) && k' != k
  {
    RemoveGet(m, k, k');
  }

  // ---------------------------------------------------------------------------
  // Well-formedness: no object or map repeats a key, at any depth

  predicate WellFormed(j: Json)
    decreases j
  {
    match j
    case JObj(ms) => UniqueKeys(ms) && forall i :: 0 <= i < |ms| ==> WellFormed(ms[i].1)
    case JArr(es) => forall i :: 0 <= i < |es| ==> WellFormed(es[i])
    case _ => true
  }

  predicate WellFormedValue(v: Value)
    decreases v
  {
    match v
    case MapV(es) => UniqueKeys(es) && forall i :: 0 <= i < |es| ==> WellFormedValue(es[i].1)
    case ListV(items) => forall i :: 0 <= i < |items| ==> WellFormedValue(items[i])
    case _ => true
  }

  // ---------------------------------------------------------------------------
  // Kotlin's toString() of a value

  function Join(parts: seq<string>): string {
    if parts == [] then ""
    else if |parts| == 1 then parts[0]
    else parts[0] + ", " + Join(parts[1..])
  }

  /**
   * `Any?.toString()`: "null", "true"/"false", the number's text, the string
   * itself, `{k=v, ...}` for a map and `[a, b, ...]` for a list.
   */
  function Show(v: Value): string
    decreases v, 1
  {
    match v
    case Null => "null"
    case Bool(b) => if b then "true" else "false"
    case Num(n) => n
    case Str(s) => s
    case MapV(es) => "{" + Join(ShowEntries(v, |es|)) + "}"
    case ListV(items) => "[" + Join(ShowItems(v, |items|)) + "]"
  }

  function ShowEntries(m: Value, n: nat): seq<string>
    requires m.MapV? && n <= |m.entries|
    decreases m, 0, n
  {
    if n == 0 then [] else ShowEntries(m, n - 1) + [m.entries[n - 1].0 + "=" + Show(m.entries[n - 1].1)]
  }

  function ShowItems(l: Value, n: nat): seq<string>
    requires l.ListV? && n <= |l.items|
    decreases l, 0, n
  {
    if n == 0 then [] else ShowItems(l, n - 1) + [Show(l.items[n - 1])]
  }
}
