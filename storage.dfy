/**
 * `LocalStorageService` (data/storage/LocalStorageService.kt): the in-memory
 * lists behind the recent-files menu and the saved documents. Writing them
 * to shared preferences, the clock and the random ids are outside the model:
 * times and ids arrive as parameters.
 */
module Storage {
  import opened Wrappers

  /** `MAX_RECENT_FILES` */
  const MAX_RECENT_FILES := 10

  datatype RecentFile = RecentFile(name: string, content: string, timestamp: int)

  datatype SavedJson = SavedJson(id: string, name: string, content: string, lastModified: int)

  // ---------------------------------------------------------------------------
  // List helpers

  /** `a` is `b` with some elements left out, the rest in their order. */
  predicate SubSeq<T(==)>(a: seq<T>, b: seq<T>)
    decreases |b|
  {
    a == [] || (b != [] && ((a[0] == b[0] && SubSeq(a[1..], b[1..])) || SubSeq(a, b[1..])))
  }

  /** Kotlin's `removeAll { drop(it) }` on a mutable list. */
  function RemoveAll<T(==)>(s: seq<T>, drop: T -> bool): (r: seq<T>)
    ensures |r| <= |s|
    ensures forall x :: x in r ==> x in s && !drop(x)
    ensures forall x :: x in s && !drop(x) ==> x in r
    ensures SubSeq(r, s)
    ensures forall x :: x in s ==> multiset(r)[x] == if drop(x) then 0 else multiset(s)[x]
  {
    if s == [] then []
    else
      assert s == [s[0]] + s[1..];
      if drop(s[0]) then RemoveAll(s[1..], drop)
      else [s[0]] + RemoveAll(s[1..], drop)
  }

  /** Kotlin's `indexOfFirst { it.id == id }`: the first matching index, or -1. */
  function IndexOfId(s: seq<SavedJson>, id: string): (r: int)
    ensures -1 <= r < |s|
    ensures r >= 0 ==> s[r].id == id
    ensures forall j :: 0 <= j < |s| && (r < 0 || j < r) ==> s[j].id != id
  {
    if s == [] then -1
    else if s[0].id == id then 0
    else
      var rest := IndexOfId(s[1..], id);
      if rest < 0 then -1 else rest + 1
  }

  /** Index `i` holds the first document with the id. */
  predicate FirstWithId(s: seq<SavedJson>, id: string, i: int) {
    0 <= i < |s| && s[i].id == id && forall j :: 0 <= j < i ==> s[j].id != id
  }

  /** `getSavedJson`, Kotlin's `find { it.id == id }`: the first document with the id, or null. */
  function FindById(s: seq<SavedJson>, id: string): (r: Option<SavedJson>)
    ensures r.None? <==> forall x :: x in s ==> x.id != id
    ensures r.Some? ==> exists i :: FirstWithId(s, id, i) && s[i] == r.value
  {
    if s == [] then None
    else if s[0].id == id then (assert FirstWithId(s, id, 0); Some(s[0]))
    else
      var rest := FindById(s[1..], id);
      if rest.None? then None
      else
        var i :| FirstWithId(s[1..], id, i) && s[1..][i] == rest.value;
        assert FirstWithId(s, id, i + 1) by {
          assert forall j :: 0 < j < i + 1 ==> s[j] == s[1..][j - 1];
        }
        rest
  }

  // ---------------------------------------------------------------------------
  // The state changes, as functions of the old lists

  /** The files other than those called `name`, as `addRecentFile` keeps them. */
  function OtherFiles(fs: seq<RecentFile>, name: string): seq<RecentFile> {
    RemoveAll(fs, (f: RecentFile) => f.name == name)
  }

  /**
   * The recent files after `addRecentFile(name, content)` at time `now`:
   * the new file first, no other file of that name, the others in their old
   * order, and only the oldest dropped when the list overflows.
   */
  function RecentAfter(fs: seq<RecentFile>, name: string, content: string, now: int): (r: seq<RecentFile>)
    ensures r != [] && r[0] == RecentFile(name, content, now)
    ensures forall i :: 0 < i < |r| ==> r[i].name != name
    ensures |fs| <= MAX_RECENT_FILES ==> |r| <= MAX_RECENT_FILES
    ensures |r| - 1 == if |OtherFiles(fs, name)| < MAX_RECENT_FILES then |OtherFiles(fs, name)|
                       else |OtherFiles(fs, name)| - 1
    ensures r[1..] == OtherFiles(fs, name)[..|r| - 1]
    ensures SubSeq(r[1..], fs)
  {
    var kept := OtherFiles(fs, name);
    var r := Capped([RecentFile(name, content, now)] + kept);
    CappedTail(RecentFile(name, content, now), kept, fs);
    r
  }

  /** The list with its last element dropped once it holds more than `MAX_RECENT_FILES`. */
  function Capped(pushed: seq<RecentFile>): (r: seq<RecentFile>)
    ensures |r| == if |pushed| > MAX_RECENT_FILES then |pushed| - 1 else |pushed|
    ensures r == pushed[..|r|]
  {
    if |pushed| > MAX_RECENT_FILES then pushed[..|pushed| - 1] else pushed
  }

  /** After pushing `f` in front of `kept`, the capped list's tail is a prefix of `kept`. */
  lemma CappedTail(f: RecentFile, kept: seq<RecentFile>, fs: seq<RecentFile>)
    requires SubSeq(kept, fs)
    ensures var r := Capped([f] + kept); r != [] && r[0] == f && r[1..] == kept[..|r| - 1] && SubSeq(r[1..], fs)
    ensures var r := Capped([f] + kept); forall i :: 0 < i < |r| ==> r[i] in kept
  {
    var r := Capped([f] + kept);
    assert r[1..] == kept[..|r| - 1];
    assert forall i :: 0 < i < |r| ==> r[i] == kept[i - 1];
    SubSeqPrefix(kept, |r| - 1, fs);
  }

  /** A prefix of a subsequence is a subsequence. */
  lemma {:induction false} SubSeqPrefix<T>(a: seq<T>, n: nat, b: seq<T>)
    requires n <= |a| && SubSeq(a, b)
    ensures SubSeq(a[..n], b)
    decreases |b|
  {
    if n == 0 || a == [] {
    } else if a[0] == b[0] && SubSeq(a[1..], b[1..]) {
      SubSeqPrefix(a[1..], n - 1, b[1..]);
      assert a[..n][1..] == a[1..][..n - 1];
    } else {
      SubSeqPrefix(a, n, b[1..]);
    }
  }

  /** The document `saveJson` stores. */
  function Saved(id: string, name: string, content: string, now: int): SavedJson {
    SavedJson(id, name, content, now)
  }

  /**
   * The saved documents after `saveJson`: the first document with the id
   * is replaced where it stood, or the new one is appended.
   */
  function SavedAfter(s: seq<SavedJson>, id: string, name: string, content: string, now: int): (r: seq<SavedJson>)
    ensures IndexOfId(s, id) >= 0 ==>
      |r| == |s| && r[IndexOfId(s, id)] == Saved(id, name, content, now) &&
      forall j :: 0 <= j < |s| && j != IndexOfId(s, id) ==> r[j] == s[j]
    ensures IndexOfId(s, id) < 0 ==> r == s + [Saved(id, name, content, now)]
  {
    var existingIndex := IndexOfId(s, id);
    if existingIndex >= 0 then s[existingIndex := Saved(id, name, content, now)]
    else s + [Saved(id, name, content, now)]
  }

  /** The saved documents after `deleteJson(id)`. */
  function Deleted(s: seq<SavedJson>, id: string): seq<SavedJson> {
    RemoveAll(s, (x: SavedJson) => x.id == id)
  }

  // ---------------------------------------------------------------------------
  // Saving, finding and deleting agree

  /** After saving under an id, looking the id up finds the document just saved. */
  lemma SaveThenFind(s: seq<SavedJson>, id: string, name: string, content: string, now: int)
    ensures FindById(SavedAfter(s, id, name, content, now), id) == Some(Saved(id, name, content, now))
  {
    var r := SavedAfter(s, id, name, content, now);
    var i := if IndexOfId(s, id) >= 0 then IndexOfId(s, id) else |s|;
    assert r[i] == Saved(id, name, content, now);
    FirstFound(r, id, i);
  }

  /** Saving under one id leaves the lookup of every other id as it was. */
  lemma SaveKeepsOthers(s: seq<SavedJson>, id: string, name: string, content: string, now: int, other: string)
    requires other != id
    ensures FindById(SavedAfter(s, id, name, content, now), other) == FindById(s, other)
  {
    var r := SavedAfter(s, id, name, content, now);
    var f := FindById(s, other);
    if f.Some? {
      var i :| FirstWithId(s, other, i) && s[i] == f.value;
      assert r[i] == s[i];
      FirstFound(r, other, i);
    } else {
      assert forall x :: x in r ==> x.id != other by {
        forall x | x in r ensures x.id != other {
          var k :| 0 <= k < |r| && r[k] == x;
          if k < |s| && r[k] == s[k] {
            assert s[k] in s;
          }
        }
      }
    }
  }

  /** `find` returns the entry at the first index holding the id. */
  lemma FirstFound(s: seq<SavedJson>, id: string, i: nat)
    requires FirstWithId(s, id, i)
    ensures FindById(s, id) == Some(s[i])
  {
    var f := FindById(s, id);
    assert s[i] in s;
    var k :| FirstWithId(s, id, k) && s[k] == f.value;
    assert k == i;
  }

  /** After deleting an id, no document has it, and every other id is found as before. */
  lemma {:induction false} DeleteThenFind(s: seq<SavedJson>, id: string, other: string)
    ensures FindById(Deleted(s, id), id).None?
    ensures other != id ==> FindById(Deleted(s, id), other) == FindById(s, other)
  {
    if s != [] && other != id {
      DeleteThenFind(s[1..], id, other);
      if s[0].id != id {
        assert Deleted(s, id) == [s[0]] + Deleted(s[1..], id);
        assert ([s[0]] + Deleted(s[1..], id))[1..] == Deleted(s[1..], id);
      }
    }
  }

  // ---------------------------------------------------------------------------
  // The service

  class LocalStorageService {
    var recentFiles: seq<RecentFile>
    var savedJsons: seq<SavedJson>

    /** `init`: the lists as loaded from storage. */
    constructor(loadedRecent: seq<RecentFile>, loadedSaved: seq<SavedJson>)
      ensures recentFiles == loadedRecent && savedJsons == loadedSaved
    {
      recentFiles := loadedRecent;
      savedJsons := loadedSaved;
    }

    /** `addRecentFile`, with `now` standing for the clock reading. */
    method AddRecentFile(name: string, content: string, now: int)
      modifies this
      ensures recentFiles == RecentAfter(old(recentFiles), name, content, now)
      ensures savedJsons == old(savedJsons)
    {
      var currentFiles := recentFiles;
      currentFiles := RemoveAll(currentFiles, (f: RecentFile) => f.name == name);
      currentFiles := [RecentFile(name, content, now)] + currentFiles;
      if |currentFiles| > MAX_RECENT_FILES {
        currentFiles := currentFiles[..|currentFiles| - 1];
      }
      recentFiles := currentFiles;
    }

    /** `clearRecentFiles` */
    method ClearRecentFiles()
      modifies this
      ensures recentFiles == [] && savedJsons == old(savedJsons)
    {
      recentFiles := [];
    }

    /**
     * `saveJson`: upserts the document by id and records it as a recent
     * file; `savedAt` and `recentAt` stand for the two clock readings.
     */
    method SaveJson(name: string, content: string, id: string, savedAt: int, recentAt: int) returns (r: string)
      modifies this
      ensures r == id
      ensures savedJsons == SavedAfter(old(savedJsons), id, name, content, savedAt)
      ensures recentFiles == RecentAfter(old(recentFiles), name, content, recentAt)
    {
      var currentSavedJsons := savedJsons;
      var existingIndex := IndexOfId(currentSavedJsons, id);
      if existingIndex >= 0 {
        currentSavedJsons := currentSavedJsons[existingIndex := SavedJson(id, name, content, savedAt)];
      } else {
        currentSavedJsons := currentSavedJsons + [SavedJson(id, name, content, savedAt)];
      }
      savedJsons := currentSavedJsons;
      AddRecentFile(name, content, recentAt);
      return id;
    }

    /** `deleteJson` */
    method DeleteJson(id: string)
      modifies this
      ensures savedJsons == Deleted(old(savedJsons), id)
      ensures recentFiles == old(recentFiles)
    {
      var currentSavedJsons := savedJsons;
      currentSavedJsons := RemoveAll(currentSavedJsons, (x: SavedJson) => x.id == id);
      savedJsons := currentSavedJsons;
    }

    /** `getSavedJson` */
    function GetSavedJson(id: string): (r: Option<SavedJson>)
      reads this
      ensures r.None? <==> forall x :: x in savedJsons ==> x.id != id
      ensures r.Some? ==> r.value in savedJsons && r.value.id == id
      ensures r.Some? ==> exists i :: FirstWithId(savedJsons, id, i) && r.value == savedJsons[i]
    {
      FindById(savedJsons, id)
    }
  }
}
