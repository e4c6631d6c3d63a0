# JSON viewer — a Dafny model of its core

The app is an Android JSON viewer and editor. A document arrives as text: typed, pasted, picked from a sample or read from a file. It is checked on the input screen and parsed into a map. The user then browses it as a list of rows, one per object entry or array element. Opening a row goes one level down, and Back goes one level up. The raw text can be shown prettified or minified and with syntax colours. Entries can be edited, added or deleted by a path through the tree. The text can be saved under an id, and the app keeps a list of recently opened files.

This project models that core in Dafny. Each Kotlin class is modelled in the form it has in the app.
- Pure helpers become functions. Examples are the text conversions in `JsonUtils`, the row lists in `JsonParser` and the per-field value rules of the dialogs.
- Loops become methods with invariants, each proved against a function that specifies it. Examples are the path walk and array rebuild in `modifyJsonObject`, the map and list conversions, `buildResult`, `validate`, the highlighter's character loop and the file reader.
- Objects whose state changes become classes with `modifies` clauses. These are the view model, the storage service, the highlighter's flag object, and the state of each dialog and screen.

| module | file | models |
|---|---|---|
| `Wrappers` | wrappers.dfy | `Option` |
| `Text` | text.dfy | Kotlin's `trim` and `isBlank` over the JVM's full whitespace set; `startsWith`, `toBoolean`; `toIntOrNull`, `isDigit` and `isLetter` on ASCII digits and letters |
| `JsonModel` | json.dfy | org.json trees (`Json`) and the Kotlin values made from them (`Value`); insertion-ordered maps with `put` and `remove`; the `Library` of parser and printers the app calls |
| `JsonUtils` | json_utils.dfy | `utils/JsonUtils.kt`: prettify, minify, validity, the value/tree conversions |
| `JsonModify` | json_modify.dfy | `JsonUtils.modifyJsonObject`: edits and deletes by path, including the root-array special case |
| `JsonParser` | json_parser.dfy | `data/JsonParser.kt`: parsing to a map, rows for objects and arrays |
| `ViewModel` | view_model.dfy | `ui/JsonViewModel.kt`: view state, formatting, navigation down and back |
| `Storage` | storage.dfy | `data/storage/LocalStorageService.kt`: recent files and saved documents |
| `SyntaxHighlight` | syntax_highlight.dfy | `ui/components/raw/SyntaxHighlightedText.kt`: the state machine that colours each character |
| `ObjectFields` | object_fields.dfy | `ui/components/viewer/ObjectFieldEditor.kt`: the field list, type switch, validation and result map |
| `NewObjectDialog` | new_object_dialog.dfy | `ui/components/viewer/NewObjectDialog.kt` |
| `JsonItemEditor` | json_item_editor.dfy | `ui/components/viewer/JsonItemEditor.kt`: the single-item dialog |
| `EditorJsonItem` | editor_json_item.dfy | `ui/components/editor/EditorJsonItem.kt`: the editor-screen variant of the item dialog |
| `JsonInput` | json_input.dfy | `ui/components/input/JsonInputScreen.kt`: text box, file load, Parse button |

The model follows the code in several places where it differs from what the app's description suggests.
- **Deleting inside a root array.** `modifyJsonObject` fetches the wrapped root array with `getJSONObject("root")` when it re-walks to the parent. That call throws, so a delete two or more levels below a top-level array leaves the text unchanged (`JsonModify.RootArrayNestedDelete`).
- **Paths into a top-level array.** For a put, the first path segment is ignored when the document is an array (`JsonModify.RootArrayFirstSegment`). A one-level delete writes the filtered array back under that segment, so it takes effect only when the segment is `root` (`JsonModify.RootArrayNestedDelete`).
- **Stale validity flags.** `JsonItemEditor` and `EditorJsonItem` never reset their validity flags when the type changes. A value rejected once can therefore block Save after a type switch that makes it acceptable (`JsonItemEditor.StaleValueFlagBlocksSave`).
- **New objects keep text.** In `NewObjectDialog`, fields typed Object or Array keep their text: the dialog never makes a nested container.

Paths in the table below are relative to the repository root. Lines refer to the Kotlin sources.

## Model

| member | source | states |
|---|---|---|
| JsonUtils.ReadObject | app/src/main/java/com/example/jsonviewer/utils/JsonUtils.kt:94-101 | `JSONObject(s)` succeeds exactly when the library parses `s` to an object, and yields that object's members |
| JsonUtils.ReadArray | app/src/main/java/com/example/jsonviewer/utils/JsonUtils.kt:106-113 | `JSONArray(s)` succeeds exactly when the library parses `s` to an array, and yields its elements |
| JsonUtils.ReadDocument | app/src/main/java/com/example/jsonviewer/utils/JsonUtils.kt:19-37 | a document is read only as an object when the trimmed text opens with `{` and only as an array when it opens with `[`, and it is what the library parsed |
| JsonUtils.PrettifyJson | app/src/main/java/com/example/jsonviewer/utils/JsonUtils.kt:19-37 | unreadable or non-JSON-looking text comes back unchanged; otherwise it is the indented print of the parsed document |
| JsonUtils.MinifyJson | app/src/main/java/com/example/jsonviewer/utils/JsonUtils.kt:45-63 | unreadable text comes back unchanged; otherwise it is the compact print of the parsed document |
| JsonUtils.IsValidJson | app/src/main/java/com/example/jsonviewer/utils/JsonUtils.kt:71-89 | true exactly when the text reads as an object or an array; blank text and text opening with neither bracket are invalid |
| JsonUtils.ToJson | app/src/main/java/com/example/jsonviewer/utils/JsonUtils.kt:317-337 | maps become objects, lists arrays and null JSON null, each in both directions; lists keep their length |
| JsonUtils.ConvertToJsonValue | app/src/main/java/com/example/jsonviewer/utils/JsonUtils.kt:317-337 | the loops over entries and items build exactly `ToJson(v)` |
| JsonUtils.ConvertEntries | app/src/main/java/com/example/jsonviewer/utils/JsonUtils.kt:320-327 | the loop over a map puts every converted value under its key, giving the members `ToJson` builds for the map |
| JsonUtils.ConvertItems | app/src/main/java/com/example/jsonviewer/utils/JsonUtils.kt:328-334 | the loop over a list appends every converted item, giving the elements `ToJson` builds for the list |
| JsonUtils.ToValue | app/src/main/java/com/example/jsonviewer/utils/JsonUtils.kt:118-155 | objects become maps, arrays lists and JSON null null, in both directions; arrays keep their length |
| JsonUtils.JsonObjectToMap | app/src/main/java/com/example/jsonviewer/utils/JsonUtils.kt:118-135 | the loop over keys yields the map `ToValue` gives for the object |
| JsonUtils.JsonArrayToList | app/src/main/java/com/example/jsonviewer/utils/JsonUtils.kt:140-155 | the loop over indices yields the list `ToValue` gives for the array |
| JsonUtils.ConvertJson | app/src/main/java/com/example/jsonviewer/utils/JsonUtils.kt:126-131 | one value converted as `ToValue` converts it: nested objects and arrays recursively, null to null, scalars kept |
| JsonUtils.ParseJsonObject | app/src/main/java/com/example/jsonviewer/utils/JsonUtils.kt:94-101 | the converted map of the parsed object, or empty when the text is not an object |
| JsonUtils.ParseJsonArray | app/src/main/java/com/example/jsonviewer/utils/JsonUtils.kt:106-113 | the converted list of the parsed array, or empty when the text is not an array |
| JsonUtils.ValueRoundTrip | app/src/main/java/com/example/jsonviewer/utils/JsonUtils.kt:317-337 | converting a well-formed value to a tree and back gives the same value |
| JsonUtils.JsonRoundTrip | app/src/main/java/com/example/jsonviewer/utils/JsonUtils.kt:118-155 | converting a well-formed tree to a value and back gives the same tree |
| JsonModify.Step | app/src/main/java/com/example/jsonviewer/utils/JsonUtils.kt:225-237 | one path step: a numeric segment on an object fails, a name on an object is a lookup, and an array step succeeds exactly for an in-range index |
| JsonModify.Walk | app/src/main/java/com/example/jsonviewer/utils/JsonUtils.kt:222-238 | the empty path stays at the node |
| JsonModify.WalkSnoc | app/src/main/java/com/example/jsonviewer/utils/JsonUtils.kt:222-238 | walking one more segment is one `Step` from where the shorter path led |
| JsonModify.WalkNone | app/src/main/java/com/example/jsonviewer/utils/JsonUtils.kt:222-238 | once a walk fails, every longer path fails |
| JsonModify.SetChild | app/src/main/java/com/example/jsonviewer/utils/JsonUtils.kt:241-247 | after the write, stepping to the segment gives the new child, every other key or index steps where it did, and the node keeps its kind |
| JsonModify.Replace | app/src/main/java/com/example/jsonviewer/utils/JsonUtils.kt:241-247 | an in-place change at the end of a path: walking the path in the result finds the new node, and the root keeps its kind; `ReplaceKeepsOffPath` states that nothing off the path changes |
| JsonModify.ReplaceKeepsOffPath | app/src/main/java/com/example/jsonviewer/utils/JsonUtils.kt:241-247 | a path that branches off the replaced path, to another key or index of a node on it, leads to the same node as before |
| JsonModify.ReplaceSnoc | app/src/main/java/com/example/jsonviewer/utils/JsonUtils.kt:278-287 | replacing at `p + [seg]` is replacing the parent at `p` with its child set |
| JsonModify.ArrayPut | app/src/main/java/com/example/jsonviewer/utils/JsonUtils.kt:288-300 | a non-numeric key or the index equal to the length appends; an in-range index overwrites that element only; any other index changes nothing |
| JsonModify.Without | app/src/main/java/com/example/jsonviewer/utils/JsonUtils.kt:250-258 | an in-range index drops that element and shifts the rest; any other index keeps the array |
| JsonModify.RemoveIndex | app/src/main/java/com/example/jsonviewer/utils/JsonUtils.kt:252-258 | the copying loop builds exactly `Without(es, index)` |
| JsonModify.JsonArrayPut | app/src/main/java/com/example/jsonviewer/utils/JsonUtils.kt:282 | org.json's `put(index, v)`: fails on a negative index and sets that element; the write-back only uses indices already in range, so the padding past the end (Java `null` in org.json, `JNull` here) is never reached |
| JsonModify.GetJsonArray | app/src/main/java/com/example/jsonviewer/utils/JsonUtils.kt:227 | succeeds only on an object whose entry under the key is an array, and returns that entry |
| JsonModify.GetJsonObject | app/src/main/java/com/example/jsonviewer/utils/JsonUtils.kt:265 | succeeds only on an object whose entry under the key is an object, and returns that entry |
| JsonModify.Modify | app/src/main/java/com/example/jsonviewer/utils/JsonUtils.kt:174-216 | text that opens with neither bracket, or that does not parse, is left unchanged |
| JsonModify.EditAt | app/src/main/java/com/example/jsonviewer/utils/JsonUtils.kt:240-300 | the edit is dropped exactly when the walk throws or a delete from an array has a non-integer key; otherwise the walk of the new document finds the object with the key removed or put, the array without the index or with `ArrayPut`, and a primitive target leaves the document as it was |
| JsonModify.EditKeepsOffPath | app/src/main/java/com/example/jsonviewer/utils/JsonUtils.kt:240-300 | an edit that goes through changes nothing beside its target: every path branching off the edited path leads where it did |
| JsonModify.EditUnderRootArray | app/src/main/java/com/example/jsonviewer/utils/JsonUtils.kt:176-287 | under a top-level array the edit is dropped exactly when the walk from the array throws, or a delete from an array has a non-integer key or lies two or more levels deep; a one-level delete changes the array only under the segment `root` |
| JsonModify.ModifiedText | app/src/main/java/com/example/jsonviewer/utils/JsonUtils.kt:304-311 | an unchanged outcome returns the original text; otherwise the compact print of the edited document |
| JsonModify.RootArrayDelete | app/src/main/java/com/example/jsonviewer/utils/JsonUtils.kt:183-192 | deleting by index from a top-level array drops exactly that element, and an out-of-range index keeps all of them |
| JsonModify.EditRootArray | app/src/main/java/com/example/jsonviewer/utils/JsonUtils.kt:181-207 | the empty-path edit of a top-level array returns the compact print of `EditAt` on that array, or the original text |
| JsonModify.ObjectTarget | app/src/main/java/com/example/jsonviewer/utils/JsonUtils.kt:241-247 | on an object target, the key is removed or set to the new value and every other key keeps its value |
| JsonModify.ArrayTarget | app/src/main/java/com/example/jsonviewer/utils/JsonUtils.kt:248-300 | on an array target, a delete with a non-numeric key fails; a delete by index drops that element; a put is `ArrayPut` and never shrinks the array |
| JsonModify.PrimitiveTarget | app/src/main/java/com/example/jsonviewer/utils/JsonUtils.kt:240-308 | when the path ends on a primitive, nothing changes and the text is reprinted compactly |
| JsonModify.NumericSegmentOnObject | app/src/main/java/com/example/jsonviewer/utils/JsonUtils.kt:228-231 | a numeric segment that meets an object makes the whole edit fail |
| JsonModify.RootArrayFirstSegment | app/src/main/java/com/example/jsonviewer/utils/JsonUtils.kt:225-227 | under a top-level array, the first path segment does not affect a put |
| JsonModify.ModifyRootArray | app/src/main/java/com/example/jsonviewer/utils/JsonUtils.kt:176-238 | text opening an array, edited along a non-empty path, is left unchanged when it does not parse and otherwise edited as `EditUnderRootArray` describes |
| JsonModify.PutUnderRootArray | app/src/main/java/com/example/jsonviewer/utils/JsonUtils.kt:209-238 | under a top-level array a put is the same put on the array along the path without its first segment |
| JsonModify.RootArrayNestedDelete | app/src/main/java/com/example/jsonviewer/utils/JsonUtils.kt:261-287 | under a top-level array, a delete two or more levels deep leaves the text unchanged; one level deep, it takes effect only when the segment is `root` |
| JsonModify.Walked | app/src/main/java/com/example/jsonviewer/utils/JsonUtils.kt:225-227 | the path the loop actually follows: the same length, and equal to the path except possibly its first segment under a top-level array |
| JsonModify.WrapWalk | app/src/main/java/com/example/jsonviewer/utils/JsonUtils.kt:209-227 | walking the `root` wrapper and then a path is walking the array by that path |
| JsonModify.WrapReplace | app/src/main/java/com/example/jsonviewer/utils/JsonUtils.kt:304-305 | reading `root` back out of the edited wrapper gives the edited array |
| JsonModify.WrapPutRoot | app/src/main/java/com/example/jsonviewer/utils/JsonUtils.kt:283-285 | writing into the wrapper under a segment changes the read-back array only when the segment is `root` |
| JsonModify.WalkPath | app/src/main/java/com/example/jsonviewer/utils/JsonUtils.kt:218-238 | the walking loop ends where `Walk` along the followed path ends, or fails where it fails |
| JsonModify.WriteBack | app/src/main/java/com/example/jsonviewer/utils/JsonUtils.kt:260-287 | the parent re-walk fails two or more levels under a top-level array, writes into the wrapper one level under it, and otherwise replaces the array in place |
| JsonModify.EditWrapped | app/src/main/java/com/example/jsonviewer/utils/JsonUtils.kt:218-301 | walking and editing the parsed object gives `EditAt` (`Agrees`); under a top-level array, the array read back is the one `EditUnderRootArray` describes, and an exception is thrown exactly where that edit is `Unchanged` |
| JsonModify.EditObjectTarget | app/src/main/java/com/example/jsonviewer/utils/JsonUtils.kt:241-247 | removing or putting the key in an object target gives the whole document `Agrees` asks for |
| JsonModify.EditArrayTarget | app/src/main/java/com/example/jsonviewer/utils/JsonUtils.kt:248-300 | a delete or a put on an array target gives the whole document `Agrees` asks for |
| JsonModify.DeleteFromArray | app/src/main/java/com/example/jsonviewer/utils/JsonUtils.kt:249-287 | the delete by index, written back into the parent, gives the document `Agrees` asks for, throwing on a non-integer key and on a re-walk two levels under a top-level array |
| JsonModify.PutIntoArray | app/src/main/java/com/example/jsonviewer/utils/JsonUtils.kt:288-300 | the put into an array target is `ArrayPut`: replace in range, append at the length or for a non-integer key, otherwise no change |
| JsonModify.ModifyJsonObject | app/src/main/java/com/example/jsonviewer/utils/JsonUtils.kt:167-312 | the imperative edit returns exactly `ModifiedText`, including the error paths that return the input |
| JsonParser.ParseJson | app/src/main/java/com/example/jsonviewer/data/JsonParser.kt:19-22 | fails exactly when the text is not an object, including a top-level array; otherwise the converted map |
| JsonParser.ObjectEntries | app/src/main/java/com/example/jsonviewer/data/JsonParser.kt:69-78 | one row per entry in order, carrying its key and node and classified as object or array by the node alone |
| JsonParser.ArrayEntries | app/src/main/java/com/example/jsonviewer/data/JsonParser.kt:83-92 | one row per element in order, keyed by its index as text |
| JsonParser.ObjectRowsFound | app/src/main/java/com/example/jsonviewer/data/JsonParser.kt:69-78 | looking up a row's key in the map finds that row's node |
| JsonParser.ArrayRowsIndexed | app/src/main/java/com/example/jsonviewer/data/JsonParser.kt:83-92 | an element row's key reads back as its index |
| ViewModel.NavStep | app/src/main/java/com/example/jsonviewer/ui/JsonViewModel.kt:159-170 | one step of Back's re-walk: a missing key or a primitive gives null, and only a bad array index fails |
| ViewModel.NavWalk | app/src/main/java/com/example/jsonviewer/ui/JsonViewModel.kt:163-170 | the re-walk of Back: one `NavStep` per segment from the root; its prefix and failure behaviour are stated by `NavWalkPrefix` and `WalkStuck` |
| ViewModel.NavWalkPrefix | app/src/main/java/com/example/jsonviewer/ui/JsonViewModel.kt:159-170 | if a path can be walked, so can each of its prefixes |
| ViewModel.WalkStuck | app/src/main/java/com/example/jsonviewer/ui/JsonViewModel.kt:159-170 | if a prefix cannot be walked, neither can the whole path |
| ViewModel.Rows | app/src/main/java/com/example/jsonviewer/ui/JsonViewModel.kt:173-186 | a map shows one row per key, a list one per element, and anything else no rows |
| ViewModel.RowLeadsToNode | app/src/main/java/com/example/jsonviewer/ui/JsonViewModel.kt:173-186 | stepping from a node by a row's key reaches that row's node |
| ViewModel.Formatted | app/src/main/java/com/example/jsonviewer/ui/JsonViewModel.kt:74-80 | the prettified or the compact print, as selected, or the raw text when it does not read |
| ViewModel.JsonViewModel.constructor | app/src/main/java/com/example/jsonviewer/ui/JsonViewModel.kt:28-54 | empty texts, prettified on, no data, no path, Initial state |
| ViewModel.JsonViewModel.ToggleRawJsonView | app/src/main/java/com/example/jsonviewer/ui/JsonViewModel.kt:59-61 | flips the raw view and nothing else |
| ViewModel.JsonViewModel.UpdateFormattedJson | app/src/main/java/com/example/jsonviewer/ui/JsonViewModel.kt:74-80 | the formatted text becomes `Formatted` of the raw text and mode; nothing else changes |
| ViewModel.JsonViewModel.ToggleJsonFormat | app/src/main/java/com/example/jsonviewer/ui/JsonViewModel.kt:66-69 | flips the mode and reformats; the raw text and navigation stay |
| ViewModel.JsonViewModel.ToggleJsonFormatTwice | app/src/main/java/com/example/jsonviewer/ui/JsonViewModel.kt:66-69 | toggling twice restores the display |
| ViewModel.JsonViewModel.ResetToInitial | app/src/main/java/com/example/jsonviewer/ui/JsonViewModel.kt:85-89 | Initial state, raw text cleared, raw view off; the formatted text and navigation are kept |
| ViewModel.JsonViewModel.ParseJsonString | app/src/main/java/com/example/jsonviewer/ui/JsonViewModel.kt:94-118 | an object text gives the data, root rows, formatted text and Success; anything else clears the data and gives Error; navigation stays consistent |
| ViewModel.JsonViewModel.NavigateTo | app/src/main/java/com/example/jsonviewer/ui/JsonViewModel.kt:123-143 | pushes the key and shows the node's rows; consistency holds when the node is the child the key names |
| ViewModel.JsonViewModel.NavigateBack | app/src/main/java/com/example/jsonviewer/ui/JsonViewModel.kt:148-189 | closes the raw view first, reports false at the root, and otherwise pops the path and shows the rows of the node it leads to; from a consistent state it never throws |
| ViewModel.WalkTo | app/src/main/java/com/example/jsonviewer/ui/JsonViewModel.kt:163-170 | the loop over the popped path ends at the node `NavWalk` reaches, and fails exactly where that walk fails |
| ViewModel.JsonViewModel.ResetToRoot | app/src/main/java/com/example/jsonviewer/ui/JsonViewModel.kt:194-198 | empty path, root rows, raw view off |
| ViewModel.JsonViewModel.OpenRowThenBack | app/src/main/java/com/example/jsonviewer/ui/JsonViewModel.kt:123-189 | opening a shown row and pressing Back restores the path and rows |
| Storage.RemoveAll | app/src/main/java/com/example/jsonviewer/data/storage/LocalStorageService.kt:141-151 | keeps exactly the elements not dropped, each as many times as it occurs, in their order |
| Storage.IndexOfId | app/src/main/java/com/example/jsonviewer/data/storage/LocalStorageService.kt:102-139 | the first index holding the id, or -1 when none does |
| Storage.FindById | app/src/main/java/com/example/jsonviewer/data/storage/LocalStorageService.kt:153-155 | none exactly when no document has the id; otherwise the first one that has it |
| Storage.LocalStorageService.GetSavedJson | app/src/main/java/com/example/jsonviewer/data/storage/LocalStorageService.kt:153-155 | none exactly when no saved document has the id; otherwise the first saved document with that id |
| Storage.RecentAfter | app/src/main/java/com/example/jsonviewer/data/storage/LocalStorageService.kt:66-86 | the new file first, no other file of that name, the others in their old order, at most ten when there were at most ten, and only the oldest dropped |
| Storage.Capped | app/src/main/java/com/example/jsonviewer/data/storage/LocalStorageService.kt:76-78 | drops exactly the last file when the list holds more than ten, keeping a prefix |
| Storage.CappedTail | app/src/main/java/com/example/jsonviewer/data/storage/LocalStorageService.kt:70-78 | after pushing a file in front, the capped list starts with it and its tail is a prefix of the kept files and a subsequence of the old list |
| Storage.SavedAfter | app/src/main/java/com/example/jsonviewer/data/storage/LocalStorageService.kt:102-139 | an existing id is replaced where it stood and nothing else moves; a new id is appended |
| Storage.SaveThenFind | app/src/main/java/com/example/jsonviewer/data/storage/LocalStorageService.kt:102-155 | after saving, looking up the id finds the document just saved |
| Storage.SaveKeepsOthers | app/src/main/java/com/example/jsonviewer/data/storage/LocalStorageService.kt:102-155 | saving under one id leaves the lookup of every other id unchanged |
| Storage.FirstFound | app/src/main/java/com/example/jsonviewer/data/storage/LocalStorageService.kt:153-155 | the lookup finds the first document carrying the id |
| Storage.DeleteThenFind | app/src/main/java/com/example/jsonviewer/data/storage/LocalStorageService.kt:141-155 | after a delete the id is gone and every other id is found as before |
| Storage.LocalStorageService.constructor | app/src/main/java/com/example/jsonviewer/data/storage/LocalStorageService.kt:38-44 | the lists are the loaded ones |
| Storage.LocalStorageService.AddRecentFile | app/src/main/java/com/example/jsonviewer/data/storage/LocalStorageService.kt:66-86 | the recent list becomes `RecentAfter`; the saved documents stay |
| Storage.LocalStorageService.ClearRecentFiles | app/src/main/java/com/example/jsonviewer/data/storage/LocalStorageService.kt:88-93 | the recent list is emptied; the saved documents stay |
| Storage.LocalStorageService.SaveJson | app/src/main/java/com/example/jsonviewer/data/storage/LocalStorageService.kt:102-139 | returns the id; the saved list becomes `SavedAfter` and the recent list `RecentAfter` |
| Storage.LocalStorageService.DeleteJson | app/src/main/java/com/example/jsonviewer/data/storage/LocalStorageService.kt:141-151 | every document with the id is removed; the recent list stays |
| SyntaxHighlight.SyntaxHighlightState.constructor | app/src/main/java/com/example/jsonviewer/ui/components/raw/SyntaxHighlightedText.kt:88-94 | all flags start false |
| SyntaxHighlight.SyntaxHighlightState.SetStringStart | app/src/main/java/com/example/jsonviewer/ui/components/raw/SyntaxHighlightedText.kt:95-98 | inside a string, which is a property name unless a value is expected |
| SyntaxHighlight.SyntaxHighlightState.SetStringEnd | app/src/main/java/com/example/jsonviewer/ui/components/raw/SyntaxHighlightedText.kt:100-108 | out of the string; a value is expected exactly when a property name just ended |
| SyntaxHighlight.SyntaxHighlightState.SetPropEnd | app/src/main/java/com/example/jsonviewer/ui/components/raw/SyntaxHighlightedText.kt:110-113 | out of the property name and expecting a value |
| SyntaxHighlight.SyntaxHighlightState.SetNumberStart | app/src/main/java/com/example/jsonviewer/ui/components/raw/SyntaxHighlightedText.kt:115-118 | in a number and in a value |
| SyntaxHighlight.SyntaxHighlightState.SetNumberEnd | app/src/main/java/com/example/jsonviewer/ui/components/raw/SyntaxHighlightedText.kt:120-123 | out of the number and the value |
| SyntaxHighlight.SyntaxHighlightState.SetSpecialValueStart | app/src/main/java/com/example/jsonviewer/ui/components/raw/SyntaxHighlightedText.kt:125-128 | in a literal and in a value |
| SyntaxHighlight.SyntaxHighlightState.SetSpecialValueEnd | app/src/main/java/com/example/jsonviewer/ui/components/raw/SyntaxHighlightedText.kt:130-133 | out of the literal and the value |
| SyntaxHighlight.StyleOf | app/src/main/java/com/example/jsonviewer/ui/components/raw/SyntaxHighlightedText.kt:58-66 | each style holds exactly under its condition: property or string text inside quotes, then number, literal, punctuation |
| SyntaxHighlight.Transition | app/src/main/java/com/example/jsonviewer/ui/components/raw/SyntaxHighlightedText.kt:31-55 | the branch taken for one character changes the flags as the step function does |
| SyntaxHighlight.EventAt | app/src/main/java/com/example/jsonviewer/ui/components/raw/SyntaxHighlightedText.kt:31-55 | the branch a character takes: a quote event exactly at an unescaped quote, opening outside a string and closing inside one; inside a string nothing else fires |
| SyntaxHighlight.Step | app/src/main/java/com/example/jsonviewer/ui/components/raw/SyntaxHighlightedText.kt:31-55 | reading one character toggles `insideString` exactly at an unescaped quote; inside a string any other character leaves the state as it was |
| SyntaxHighlight.ScanTo | app/src/main/java/com/example/jsonviewer/ui/components/raw/SyntaxHighlightedText.kt:30-55 | the state after the first `n` characters, one `Step` each from all flags false; its meaning is stated by `InsideByQuotes` and the lemmas after it |
| SyntaxHighlight.Highlight | app/src/main/java/com/example/jsonviewer/ui/components/raw/SyntaxHighlightedText.kt:30-71 | one span per character, holding that character, styled by the state after reading it |
| SyntaxHighlight.Spans | app/src/main/java/com/example/jsonviewer/ui/components/raw/SyntaxHighlightedText.kt:30-71 | `n` spans, the `i`-th holding character `i` styled by the state after the first `i + 1` characters |
| SyntaxHighlight.InsideByQuotes | app/src/main/java/com/example/jsonviewer/ui/components/raw/SyntaxHighlightedText.kt:32-39 | being inside a string means an odd number of unescaped quotes so far, and the string flag agrees |
| SyntaxHighlight.ColonEntersValue | app/src/main/java/com/example/jsonviewer/ui/components/raw/SyntaxHighlightedText.kt:40-42 | a colon outside a string ends the property name and expects a value |
| SyntaxHighlight.NumberStartsOnDigit | app/src/main/java/com/example/jsonviewer/ui/components/raw/SyntaxHighlightedText.kt:43-45 | a number starts only on a digit outside strings and outside a value |
| SyntaxHighlight.NumberEndsOnNonDigit | app/src/main/java/com/example/jsonviewer/ui/components/raw/SyntaxHighlightedText.kt:46-48 | a number ends on the first non-digit that is neither a quote nor a colon |
| SyntaxHighlight.SpecialValueStartsOnLetter | app/src/main/java/com/example/jsonviewer/ui/components/raw/SyntaxHighlightedText.kt:49-51 | a literal starts only on `t`, `f` or `n` outside strings and outside a value |
| SyntaxHighlight.SpecialValueEndsOnNonLetter | app/src/main/java/com/example/jsonviewer/ui/components/raw/SyntaxHighlightedText.kt:52-54 | a literal ends on the first non-letter the earlier branches do not take |
| ObjectFields.InitialFields | app/src/main/java/com/example/jsonviewer/ui/components/viewer/ObjectFieldEditor.kt:74-92 | one field per entry, in order, with its key, value and the type of its value |
| ObjectFields.Removed | app/src/main/java/com/example/jsonviewer/ui/components/viewer/ObjectFieldEditor.kt:100-104 | an in-range index drops that field only; any other index changes nothing |
| ObjectFields.FirstBlankKey | app/src/main/java/com/example/jsonviewer/ui/components/viewer/ObjectFieldEditor.kt:109-114 | the first field with a blank key, or none when every key is filled |
| ObjectFields.ValueProblemAsWritten | app/src/main/java/com/example/jsonviewer/ui/components/viewer/ObjectFieldEditor.kt:124-156 | the per-type check as written: String and null always pass; a Number passes when it is not text or `toDouble` reads it; a Boolean only as the text `true` or `false`; an Object or Array when blank or valid JSON opening with its bracket; a failure reports the type's error |
| ObjectFields.FirstValueProblem | app/src/main/java/com/example/jsonviewer/ui/components/viewer/ObjectFieldEditor.kt:124-156 | none exactly when every value passes its type's check as written; otherwise the first failing field's error |
| ObjectFields.FirstProblem | app/src/main/java/com/example/jsonviewer/ui/components/viewer/ObjectFieldEditor.kt:124-156 | none exactly when every check passes; otherwise the first check that fails |
| ObjectFields.FindBlankKey | app/src/main/java/com/example/jsonviewer/ui/components/viewer/ObjectFieldEditor.kt:109-114 | the loop over the keys yields the index of the first blank key, `FirstBlankKey` |
| ObjectFields.FindProblem | app/src/main/java/com/example/jsonviewer/ui/components/viewer/ObjectFieldEditor.kt:124-156 | the loop over the fields' checks stops at the first that fails, `FirstProblem` |
| ObjectFields.KindAccepted | app/src/main/java/com/example/jsonviewer/ui/components/viewer/ObjectFieldEditor.kt:124-156 | with the corrected check (`ValueProblemIntended`), a field whose type matches the kind of its value passes |
| ObjectFields.Validation | app/src/main/java/com/example/jsonviewer/ui/components/viewer/ObjectFieldEditor.kt:107-160 | `validate` as written: a blank key reports its 1-based position first, then repeated keys; none exactly when keys are filled and distinct and every value passes its check as written |
| ObjectFields.ValidationIntended | app/src/main/java/com/example/jsonviewer/ui/components/viewer/ObjectFieldEditor.kt:107-160 | the corrected `validate`: the same answer whenever a key is blank or repeated; none exactly when keys are filled and distinct and every value passes the corrected check |
| ObjectFields.FieldEntries | app/src/main/java/com/example/jsonviewer/ui/components/viewer/ObjectFieldEditor.kt:163-203 | the entries `buildResult` puts as written: one per field, in order, keyed by the field's key, valued by `BuildValueAsWritten` |
| ObjectFields.BuildValueAsWritten | app/src/main/java/com/example/jsonviewer/ui/components/viewer/ObjectFieldEditor.kt:166-197 | the per-type value as written: String text; a Number read by `toDouble`, or 0.0 when it is not text or does not read; a Boolean true only for the text `true`; an Object or Array is empty when its text is blank or does not read as one, otherwise the converted parse of the text; null |
| ObjectFields.FieldEntriesIntended | app/src/main/java/com/example/jsonviewer/ui/components/viewer/ObjectFieldEditor.kt:163-203 | the corrected entries: one per field, in order, an untouched value of the field's own kind kept |
| ObjectFields.TextFieldsAgree | app/src/main/java/com/example/jsonviewer/ui/components/viewer/ObjectFieldEditor.kt:107-203 | once every field holds text, validation and the built entries as written equal the corrected ones |
| ObjectFields.BuiltOnePerField | app/src/main/java/com/example/jsonviewer/ui/components/viewer/ObjectFieldEditor.kt:163-203 | with distinct keys, putting the entries one by one leaves every entry in place |
| ObjectFields.TypeSwitch | app/src/main/java/com/example/jsonviewer/ui/components/viewer/ObjectFieldEditor.kt:409-418 | the key stays, the type is the one picked, and the value becomes the text each type starts from |
| ObjectFields.SwitchToBooleanAccepted | app/src/main/java/com/example/jsonviewer/ui/components/viewer/ObjectFieldEditor.kt:409-418 | as written, a field switched to Boolean passes its check and builds its old truth value |
| ObjectFields.UntouchedNumberZeroedAsWritten | app/src/main/java/com/example/jsonviewer/ui/components/viewer/ObjectFieldEditor.kt:169 | as written, an untouched number field is saved as 0.0 |
| ObjectFields.UntouchedObjectEmptiedAsWritten | app/src/main/java/com/example/jsonviewer/ui/components/viewer/ObjectFieldEditor.kt:171-182 | as written, an untouched nested object is saved empty |
| ObjectFields.UntouchedBooleanRejectedAsWritten | app/src/main/java/com/example/jsonviewer/ui/components/viewer/ObjectFieldEditor.kt:134-140 | as written, an untouched Boolean field fails validation |
| ObjectFields.UntouchedRoundTrip | app/src/main/java/com/example/jsonviewer/ui/components/viewer/ObjectFieldEditor.kt:163-203 | with the corrected build (`FieldEntriesIntended`), saving an untouched object with distinct keys gives back the same map |
| ObjectFields.UntouchedAccepted | app/src/main/java/com/example/jsonviewer/ui/components/viewer/ObjectFieldEditor.kt:107-160 | with the corrected check (`ValidationIntended`), an untouched object with filled, distinct keys passes validation |
| ObjectFields.UntouchedTextSaved | app/src/main/java/com/example/jsonviewer/ui/components/viewer/ObjectFieldEditor.kt:107-203 | as written, an untouched object whose values are all strings, with filled, distinct keys, passes validation and is saved as it was |
| ObjectFields.ObjectFieldEditor.constructor | app/src/main/java/com/example/jsonviewer/ui/components/viewer/ObjectFieldEditor.kt:66-92 | the map is the node's entries, or empty for a non-object, and the fields are filled from it |
| ObjectFields.ObjectFieldEditor.FillIfEmpty | app/src/main/java/com/example/jsonviewer/ui/components/viewer/ObjectFieldEditor.kt:74-92 | the `isEmpty` check run on every composition: an empty field list becomes `InitialFields` of the map; a non-empty one stays |
| ObjectFields.ObjectFieldEditor.AddField | app/src/main/java/com/example/jsonviewer/ui/components/viewer/ObjectFieldEditor.kt:95-97 | appends one blank String field |
| ObjectFields.ObjectFieldEditor.RemoveField | app/src/main/java/com/example/jsonviewer/ui/components/viewer/ObjectFieldEditor.kt:100-104 | the fields become `Removed` at the index; a list left empty is refilled from the map by the next composition |
| ObjectFields.ObjectFieldEditor.EditKey | app/src/main/java/com/example/jsonviewer/ui/components/viewer/ObjectFieldEditor.kt:377-379 | only that field's key changes |
| ObjectFields.ObjectFieldEditor.EditValue | app/src/main/java/com/example/jsonviewer/ui/components/viewer/ObjectFieldEditor.kt:436-438 | only that field's value changes, to the typed text |
| ObjectFields.ObjectFieldEditor.SelectType | app/src/main/java/com/example/jsonviewer/ui/components/viewer/ObjectFieldEditor.kt:409-418 | only that field changes, to its `TypeSwitch` |
| ObjectFields.ObjectFieldEditor.Validate | app/src/main/java/com/example/jsonviewer/ui/components/viewer/ObjectFieldEditor.kt:107-160 | stores exactly `Validation` (as written) of the fields, through `FindBlankKey` and `FindProblem`, and reports whether it is none |
| ObjectFields.ObjectFieldEditor.BuildResult | app/src/main/java/com/example/jsonviewer/ui/components/viewer/ObjectFieldEditor.kt:163-203 | the loop puts every field's entry as written (`FieldEntries`) into the result map in order |
| ObjectFields.ObjectFieldEditor.Save | app/src/main/java/com/example/jsonviewer/ui/components/viewer/ObjectFieldEditor.kt:285-289 | a result exactly when validation as written passes, holding one entry per field in order, valued as written |
| NewObjectDialog.TemplateFields | app/src/main/java/com/example/jsonviewer/ui/components/viewer/NewObjectDialog.kt:57-66 | one blank String field per template key, or a single blank field; all hold text |
| NewObjectDialog.DialogValidation | app/src/main/java/com/example/jsonviewer/ui/components/viewer/NewObjectDialog.kt:81-105 | outside an array a blank object key comes first, then the first blank field key by position, then repeated keys; none exactly when all are fine |
| NewObjectDialog.NewValue | app/src/main/java/com/example/jsonviewer/ui/components/viewer/NewObjectDialog.kt:108-124 | text, truth value or null by type; a Number is read by `toDouble`, or 0.0 when it is not readable text, since the dialog never checks values; Object and Array fields keep their text, so no container is made from text |
| NewObjectDialog.NewEntries | app/src/main/java/com/example/jsonviewer/ui/components/viewer/NewObjectDialog.kt:108-124 | one entry per field, in order |
| NewObjectDialog.NewEntriesWhole | app/src/main/java/com/example/jsonviewer/ui/components/viewer/NewObjectDialog.kt:108-124 | with distinct keys, the built map holds every entry in place |
| NewObjectDialog.TemplatesSavedEmpty | app/src/main/java/com/example/jsonviewer/ui/components/viewer/NewObjectDialog.kt:57-124 | distinct filled template keys saved untouched inside an array pass and give each key an empty string |
| NewObjectDialog.NewObjectDialog.constructor | app/src/main/java/com/example/jsonviewer/ui/components/viewer/NewObjectDialog.kt:43-66 | empty object key, fields from the templates, no error |
| NewObjectDialog.NewObjectDialog.FillIfEmpty | app/src/main/java/com/example/jsonviewer/ui/components/viewer/NewObjectDialog.kt:57-66 | the `isEmpty` check run on every composition: an empty field list becomes `TemplateFields`; a non-empty one stays |
| NewObjectDialog.NewObjectDialog.AddField | app/src/main/java/com/example/jsonviewer/ui/components/viewer/NewObjectDialog.kt:69-71 | appends one blank field |
| NewObjectDialog.NewObjectDialog.RemoveField | app/src/main/java/com/example/jsonviewer/ui/components/viewer/NewObjectDialog.kt:74-78 | the fields become `Removed` at the index; a list left empty is refilled with the templates or one blank field, so it is never empty |
| NewObjectDialog.NewObjectDialog.EditObjectKey | app/src/main/java/com/example/jsonviewer/ui/components/viewer/NewObjectDialog.kt:148-149 | only the object key changes |
| NewObjectDialog.NewObjectDialog.EditKey | app/src/main/java/com/example/jsonviewer/ui/components/viewer/NewObjectDialog.kt:172 | only that field's key changes |
| NewObjectDialog.NewObjectDialog.EditValue | app/src/main/java/com/example/jsonviewer/ui/components/viewer/NewObjectDialog.kt:172 | only that field's value changes, to the typed text |
| NewObjectDialog.NewObjectDialog.SelectType | app/src/main/java/com/example/jsonviewer/ui/components/viewer/ObjectFieldEditor.kt:409-418 | only that field changes, to its `TypeSwitch` |
| NewObjectDialog.NewObjectDialog.Validate | app/src/main/java/com/example/jsonviewer/ui/components/viewer/NewObjectDialog.kt:81-105 | stores exactly `DialogValidation` and reports whether it is none |
| NewObjectDialog.NewObjectDialog.BuildResult | app/src/main/java/com/example/jsonviewer/ui/components/viewer/NewObjectDialog.kt:108-124 | the loop puts every field's entry into the result map in order |
| NewObjectDialog.NewObjectDialog.Save | app/src/main/java/com/example/jsonviewer/ui/components/viewer/NewObjectDialog.kt:222-226 | the object key and entries exactly when validation passes; no saved value is a map or list |
| JsonItemEditor.InitialKey | app/src/main/java/com/example/jsonviewer/ui/components/viewer/JsonItemEditor.kt:59 | the given key inside an array, else the item's key, or empty when adding |
| JsonItemEditor.InitialText | app/src/main/java/com/example/jsonviewer/ui/components/viewer/JsonItemEditor.kt:60-69 | empty when adding, `null` for null, else the printed node |
| JsonItemEditor.InitialType | app/src/main/java/com/example/jsonviewer/ui/components/viewer/JsonItemEditor.kt:74-87 | the type of the item's node, or String when adding |
| JsonItemEditor.ItemCheck | app/src/main/java/com/example/jsonviewer/ui/components/viewer/JsonItemEditor.kt:95-146 | passes exactly when the key is needed-and-filled, the value is accepted for its type, and the stale flags allow it; a blank key and a bad value report their errors |
| JsonItemEditor.ValueAccepted | app/src/main/java/com/example/jsonviewer/ui/components/viewer/JsonItemEditor.kt:104-142 | the per-type check of the text: a Number must read with `toDouble`, a Boolean must be `true` or `false`, an Object or Array blank or valid JSON opening with its bracket; String and null always pass |
| JsonItemEditor.TypeReset | app/src/main/java/com/example/jsonviewer/ui/components/viewer/JsonItemEditor.kt:246-252 | the text a type switch leaves: `false`, `{}`, `[]` or empty for Boolean, Object, Array and null; String and Number keep the text |
| JsonItemEditor.ParsedValue | app/src/main/java/com/example/jsonviewer/ui/components/viewer/JsonItemEditor.kt:149-179 | String as is; Number read by `toDouble`, or 0.0 when it does not read; Boolean by `toBoolean`; blank or unreadable container text gives an empty container; null |
| JsonItemEditor.AcceptedParsesExactly | app/src/main/java/com/example/jsonviewer/ui/components/viewer/JsonItemEditor.kt:95-179 | text that passes the check is saved as exactly what it parses to |
| JsonItemEditor.UntouchedPrimitiveSaved | app/src/main/java/com/example/jsonviewer/ui/components/viewer/JsonItemEditor.kt:60-179 | an untouched string, Boolean or null item passes and is saved unchanged |
| JsonItemEditor.StaleValueFlagBlocksSave | app/src/main/java/com/example/jsonviewer/ui/components/viewer/JsonItemEditor.kt:90-146 | a bad number, then a switch to String, still fails because the value flag is never reset |
| JsonItemEditor.JsonItemEditor.constructor | app/src/main/java/com/example/jsonviewer/ui/components/viewer/JsonItemEditor.kt:49-92 | key, text and type as opened; both flags valid; no message |
| JsonItemEditor.JsonItemEditor.EditKey | app/src/main/java/com/example/jsonviewer/ui/components/viewer/JsonItemEditor.kt:206-209 | the key changes and its flag is whether it is filled |
| JsonItemEditor.JsonItemEditor.EditValue | app/src/main/java/com/example/jsonviewer/ui/components/viewer/JsonItemEditor.kt:263-266 | the text changes and the value flag is set |
| JsonItemEditor.JsonItemEditor.SelectType | app/src/main/java/com/example/jsonviewer/ui/components/viewer/JsonItemEditor.kt:241-252 | the type changes and the text resets for it; the flags stay |
| JsonItemEditor.JsonItemEditor.Validate | app/src/main/java/com/example/jsonviewer/ui/components/viewer/JsonItemEditor.kt:95-146 | the result, flags and message are `ItemCheck` of the state |
| JsonItemEditor.JsonItemEditor.Save | app/src/main/java/com/example/jsonviewer/ui/components/viewer/JsonItemEditor.kt:327-331 | a key and parsed value exactly when the check passes; the original key for an existing array element |
| EditorJsonItem.InitialValue | app/src/main/java/com/example/jsonviewer/ui/components/editor/EditorJsonItem.kt:55-63 | the item's node, or empty text when adding |
| EditorJsonItem.EditorCheck | app/src/main/java/com/example/jsonviewer/ui/components/editor/EditorJsonItem.kt:87-132 | passes exactly when the key, the value for its type and the stale flags allow it; blank key and bad value report their errors |
| EditorJsonItem.EditorAccepted | app/src/main/java/com/example/jsonviewer/ui/components/editor/EditorJsonItem.kt:96-128 | only text is checked: a Number must read with `toDouble`, an Object or Array be blank or valid JSON opening with its bracket; Booleans and non-text values always pass |
| EditorJsonItem.SaveValue | app/src/main/java/com/example/jsonviewer/ui/components/editor/EditorJsonItem.kt:135-165 | String as is; Number text read by `toDouble` or 0.0, other Numbers kept; Boolean kept, anything else false; Object or Array text that is not blank gives the converted parse, or an empty container when it does not read; a non-text or blank value gives an empty container; null |
| EditorJsonItem.Converted | app/src/main/java/com/example/jsonviewer/ui/components/editor/EditorJsonItem.kt:168-192 | the value a type switch starts from: String shows a number or truth value, else empty; Number gives a number's text, or readable text as the printed double, else `"0"`; Boolean keeps a truth value, reads text with `toBoolean`, else false; Object `{}`, Array `[]`, null |
| EditorJsonItem.SwitchThenSave | app/src/main/java/com/example/jsonviewer/ui/components/editor/EditorJsonItem.kt:168-192 | after a switch to Boolean or null, the value passes and is saved with that type |
| EditorJsonItem.SwitchToObjectThenSave | app/src/main/java/com/example/jsonviewer/ui/components/editor/EditorJsonItem.kt:168-192 | after a switch to Object, the value passes and is saved as an empty object |
| EditorJsonItem.UntouchedPrimitiveKept | app/src/main/java/com/example/jsonviewer/ui/components/editor/EditorJsonItem.kt:55-165 | an untouched primitive item passes and is saved unchanged |
| EditorJsonItem.UntouchedContainerEmptied | app/src/main/java/com/example/jsonviewer/ui/components/editor/EditorJsonItem.kt:135-165 | an untouched object or array item is saved empty |
| EditorJsonItem.EditorJsonItem.constructor | app/src/main/java/com/example/jsonviewer/ui/components/editor/EditorJsonItem.kt:54-79 | key, value and type as opened; both flags valid; no message |
| EditorJsonItem.EditorJsonItem.EditKey | app/src/main/java/com/example/jsonviewer/ui/components/editor/EditorJsonItem.kt:219-221 | the key changes and its flag is whether it is filled |
| EditorJsonItem.EditorJsonItem.ChangeValue | app/src/main/java/com/example/jsonviewer/ui/components/editor/EditorJsonItem.kt:242 | only the value changes |
| EditorJsonItem.EditorJsonItem.ChangeType | app/src/main/java/com/example/jsonviewer/ui/components/editor/EditorJsonItem.kt:168-192 | the type changes and the value becomes `Converted`; the flags stay |
| EditorJsonItem.EditorJsonItem.Validate | app/src/main/java/com/example/jsonviewer/ui/components/editor/EditorJsonItem.kt:87-132 | the result, flags and message are `EditorCheck` of the state |
| EditorJsonItem.EditorJsonItem.Save | app/src/main/java/com/example/jsonviewer/ui/components/editor/EditorJsonItem.kt:281-283 | a key and saved value exactly when the check passes |
| JsonInput.LooksLikeJsonOpens | app/src/main/java/com/example/jsonviewer/ui/components/input/JsonInputScreen.kt:317-332 | text the Parse button accepts is not blank and opens an object or array as the viewer reads it |
| JsonInput.LinesText | app/src/main/java/com/example/jsonviewer/ui/components/input/JsonInputScreen.kt:83-104 | empty exactly for no lines, and otherwise ends with a line feed |
| JsonInput.LinesTextPrefix | app/src/main/java/com/example/jsonviewer/ui/components/input/JsonInputScreen.kt:83-104 | the text of the first lines is a prefix of the whole file's text |
| JsonInput.JsonInputScreen.constructor | app/src/main/java/com/example/jsonviewer/ui/components/input/JsonInputScreen.kt:73-75 | empty text, no error |
| JsonInput.JsonInputScreen.EditText | app/src/main/java/com/example/jsonviewer/ui/components/input/JsonInputScreen.kt:187-190 | typing replaces the text and clears the error |
| JsonInput.JsonInputScreen.ReplaceText | app/src/main/java/com/example/jsonviewer/ui/components/input/JsonInputScreen.kt:210-212 | a paste, clear or sample replaces the text and keeps the error flag |
| JsonInput.JsonInputScreen.LoadFile | app/src/main/java/com/example/jsonviewer/ui/components/input/JsonInputScreen.kt:83-104 | the reading loop gives `LinesText` of the file's lines; a failed read shows the error text and the error |
| JsonInput.JsonInputScreen.ParseClick | app/src/main/java/com/example/jsonviewer/ui/components/input/JsonInputScreen.kt:317-335 | the untouched text is handed on exactly when it looks like JSON; otherwise the error shows |

## Left out

- org.json's parser and printers are abstract. They are the `Library` parameter: `parse`, `indent` and `compact` are functions the model does not define. The model also does not decide `HashMap` iteration order: maps keep insertion order.
- Kotlin's `toDouble` is the `toDouble` parameter of `Library`. Numbers are kept as their text.
- Unicode: `isWhitespace`, and with it `trim` and `isBlank`, follows the JVM's full whitespace set. `toIntOrNull`, `isDigit` and `isLetter` accept ASCII digits and letters only. Kotlin also accepts other Unicode decimal digits (`"٣"` reads as 3) and letters. A path segment or key written with such digits is a name here, not an index, in `Step`, `ArrayPut` and `NumericSegmentOnObject`. The highlighter colours such characters as it colours other text.
- Persistence is not modelled. SharedPreferences, the JSON encoding of the stored lists and the theme preference are left out. The clock and `UUID.randomUUID()` become parameters of `SaveJson` and `AddRecentFile`.
- Coroutines and `StateFlow` plumbing are left out, and so is the transient `Loading` state that `parseJsonString` passes through.
- Messages: validation message texts are represented by their kind (`ValidationError`, `ItemError`). The exact English wording is not modelled.
- In-place mutation: the in-place mutation of the org.json tree in `modifyJsonObject` is modelled by `Replace` on values. Aliasing between the tree's nodes is not modelled.
- Compose layout, colours, themes, `AnnotatedString` spans and recomposition are not modelled. A dialog's state is a class whose methods are its event handlers. The `if (fields.isEmpty())` blocks run on every composition. They are `FillIfEmpty`, called by the constructor and at the end of `RemoveField`, the only handler that can empty the list.
- The clipboard, the sample texts and the file reader are parameters of `ReplaceText` and `LoadFile`.
- The internals of the `EditorField` and `EditorBooleanField` widgets are not modelled. Their results arrive as the `Value` given to `EditorJsonItem.EditorJsonItem.ChangeValue`.
- The `onDelete` and `onDismiss` callbacks are not modelled. They hand control back to the caller with no state of the dialog involved.
- The `try`/`catch` around `onJsonLoaded` in the input screen is not modelled. The callback is outside the model.
- JsonModify.Walk: the contract states only the empty path. The rest of its meaning is stated through `Step`, `WalkSnoc` and `WalkNone`.
- JsonModify.Modify: the contract states only the unchanged outcomes. Each edit outcome is stated by the target lemmas (`ObjectTarget`, `ArrayTarget`, `PrimitiveTarget`, `RootArrayDelete`, `RootArrayNestedDelete`).
- JsonUtils.ToJson: a number whose text is NaN or infinite is converted like any other. Android's `JSONObject.put` and `JSONArray.put` throw on such a number, so converting a map that holds one fails in the app. Numbers are text here and the model has no notion of a finite double.
- JsonModify.EditAt: for a NaN or infinite value the app's `put` throws and the text comes back unchanged. The model sets the key or element.
- JsonModify.EditRootArray: the same holds for the `put` on a top-level array with an empty path.
- JsonModify.ObjectTarget: states that the key is set even for a NaN or infinite value, where the app's `put` throws.
- JsonModify.ArrayTarget: states the `ArrayPut` result even for a NaN or infinite value, where the app's `put(index, v)` throws.
- JsonModify.ModifyJsonObject: follows `EditAt`, so a NaN or infinite value is written instead of leaving the text unchanged.

## Findings

The `ObjectFields.ObjectFieldEditor` class models the code as written. `Validation`, `FieldEntries` and the class use `ValueProblemAsWritten` and `BuildValueAsWritten`. The corrected definitions are `ValueProblemIntended`, `BuildValueIntended`, `ValidationIntended` and `FieldEntriesIntended`. `TextFieldsAgree` proves that the two agree whenever every field holds text, as after each field has been edited or switched. `UntouchedTextSaved` is the round trip as written for objects of strings.

| source | as written | input that shows it | evidently intended | confidence | as-written member | corrected member |
|---|---|---|---|---|---|---|
| app/src/main/java/com/example/jsonviewer/ui/components/viewer/ObjectFieldEditor.kt:169 | `buildResult` reads a Number field's value as text, so a field still holding the original number is saved as 0.0 | an object `{"n": 5}` opened and saved without edits | an untouched field keeps its value | not executed | ObjectFields.UntouchedNumberZeroedAsWritten | ObjectFields.UntouchedRoundTrip |
| app/src/main/java/com/example/jsonviewer/ui/components/viewer/ObjectFieldEditor.kt:171-182 | an Object (or Array) field still holding the original map or list is not text, so it is saved empty | an object `{"o": {"a": null}}` opened and saved without edits | the nested object is kept | not executed | ObjectFields.UntouchedObjectEmptiedAsWritten | ObjectFields.UntouchedRoundTrip |
| app/src/main/java/com/example/jsonviewer/ui/components/viewer/ObjectFieldEditor.kt:134-140 | `validate` reads a Boolean field's value as text, so a field still holding the original truth value is rejected | an object `{"b": true}` opened and saved without edits | an untouched Boolean field passes | not executed | ObjectFields.UntouchedBooleanRejectedAsWritten | ObjectFields.UntouchedAccepted |
