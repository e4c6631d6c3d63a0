/**
 * The second item editor (ui/components/editor/EditorJsonItem.kt): like
 * the item editor it edits a key, a value and a type, but it holds the
 * value itself rather than its text, converts the value when the type
 * changes and checks only values that are still text. The value box
 * (EditorField.kt) is not part of this model: what it delivers arrives as
 * a parameter.
 */
module EditorJsonItem {
  import opened Wrappers
  import opened Text
  import opened JsonModel
  import opened JsonUtils
  import opened JsonParser
  import opened ObjectFields
  import opened JsonItemEditor

  /** The value the editor opens with: "" for a new item, else the row's node. */
  function InitialValue(item: Option<NavItem>): (r: Value)
    ensures item.None? ==> r == Str("")
    ensures item.Some? ==> r == item.value.node
  {
    if item.None? then Str("") else item.value.node
  }

  /** The value is acceptable for the type; only text is checked, and Booleans never are. */
  predicate EditorAccepted(lib: Library, t: FieldType, v: Value) {
    match t
    case TNumber => !v.Str? || lib.toDouble(v.str).Some?
    case TObject => !v.Str? || IsBlank(v.str) || (IsValidJson(lib, v.str) && OpensObject(v.str))
    case TArray => !v.Str? || IsBlank(v.str) || (IsValidJson(lib, v.str) && OpensArray(v.str))
    case _ => true
  }

  /** `validate` looks at the value and so rewrites the value flag. */
  predicate Rechecked(t: FieldType, v: Value) {
    || (t == TNumber && v.Str?)
    || ((t == TObject || t == TArray) && v.Str? && !IsBlank(v.str))
  }

  /**
   * `validate`, given the state it reads: a blank key outside an array
   * first, then the value when it is text; a flag left false earlier still
   * blocks saving.
   */
  function EditorCheck(lib: Library, parentIsArray: bool, key: string, v: Value, t: FieldType,
                       keyValid: bool, valueValid: bool, message: Option<ItemError>): (r: Check)
    ensures r.ok <==> (parentIsArray || !IsBlank(key)) && EditorAccepted(lib, t, v) &&
                      keyValid && (valueValid || Rechecked(t, v))
    ensures r.ok ==> r.keyValid && r.valueValid
    ensures !parentIsArray && IsBlank(key) ==> r.message == Some(KeyEmpty) && !r.keyValid
    ensures (parentIsArray || !IsBlank(key)) && !EditorAccepted(lib, t, v) ==>
              r.message == Some(ValueError(t)) && !r.valueValid
    ensures t == TBoolean || t == TString || t == TNull ==> r.valueValid == valueValid
  {
    if !parentIsArray && IsBlank(key) then Check(false, false, valueValid, Some(KeyEmpty))
    else if Rechecked(t, v) && !EditorAccepted(lib, t, v) then Check(false, keyValid, false, Some(ValueError(t)))
    else if Rechecked(t, v) then Check(keyValid, keyValid, true, message)
    else Check(keyValid && valueValid, keyValid, valueValid, message)
  }

  /** `parseValueForSave`: the value stored for the type. */
  function SaveValue(lib: Library, t: FieldType, v: Value): (r: Value)
    ensures t == TString ==> r == v
    ensures t == TNumber && !v.Str? ==> r == v
    ensures t == TNumber && v.Str? ==> r.Num?
    ensures t == TNumber && v.Str? && lib.toDouble(v.str).Some? ==> r == Num(lib.toDouble(v.str).value)
    ensures t == TNumber && v.Str? && lib.toDouble(v.str).None? ==> r == Num("0.0")
    ensures t == TBoolean ==> r == if v.Bool? then v else Bool(false)
    ensures t == TObject ==> r.MapV? && (!v.Str? || IsBlank(v.str) ==> r == MapV([]))
    ensures t == TObject && v.Str? && !IsBlank(v.str) ==>
      r == if ReadObject(lib, v.str).Some? then ToValue(JObj(ReadObject(lib, v.str).value)) else MapV([])
    ensures t == TArray ==> r.ListV? && (!v.Str? || IsBlank(v.str) ==> r == ListV([]))
    ensures t == TArray && v.Str? && !IsBlank(v.str) ==>
      r == if ReadArray(lib, v.str).Some? then ToValue(JArr(ReadArray(lib, v.str).value)) else ListV([])
    ensures t == TNull ==> r == Null
  {
    match t
    case TString => v
    case TNumber =>
      if !v.Str? then v
      else if lib.toDouble(v.str).Some? then Num(lib.toDouble(v.str).value) else Num("0.0")
    case TBoolean => if v.Bool? then v else Bool(false)
    case TObject => if v.Str? && !IsBlank(v.str) then MapV(ParseJsonObject(lib, v.str)) else MapV([])
    case TArray => if v.Str? && !IsBlank(v.str) then ListV(ParseJsonArray(lib, v.str)) else ListV([])
    case TNull => Null
  }

  /** `onTypeChanged`: the value converted for the new type. */
  function Converted(lib: Library, t: FieldType, v: Value): (r: Value)
    ensures t == TString ==> r == if v.Bool? || v.Num? then Str(Show(v)) else Str("")
    ensures t == TNumber ==> r.Str? && (v.Num? ==> r == Str(v.num))
    ensures t == TNumber && v.Str? && lib.toDouble(v.str).Some? ==> r == Str(lib.toDouble(v.str).value)
    ensures t == TNumber && !v.Num? && !(v.Str? && lib.toDouble(v.str).Some?) ==> r == Str("0")
    ensures t == TBoolean ==> r.Bool? && (v.Bool? ==> r == v) && (v.Str? ==> r == Bool(ToBoolean(v.str)))
    ensures t == TBoolean && !v.Bool? && !v.Str? ==> r == Bool(false)
    ensures t == TObject ==> r == Str("{}")
    ensures t == TArray ==> r == Str("[]")
    ensures t == TNull ==> r == Null
  {
    match t
    case TString => if v.Bool? || v.Num? then Str(Show(v)) else Str("")
    case TNumber =>
      (match v
       case Str(s) => if lib.toDouble(s).Some? then Str(lib.toDouble(s).value) else Str("0")
       case Num(n) => Str(n)
       case _ => Str("0"))
    case TBoolean =>
      (match v
       case Bool(_) => v
       case Str(s) => Bool(ToBoolean(s))
       case _ => Bool(false))
    case TObject => Str("{}")
    case TArray => Str("[]")
    case TNull => Null
  }

  /** Switching to Boolean or null and saving at once stores a value of that kind as converted. */
  lemma SwitchThenSave(lib: Library, t: FieldType, v: Value)
    requires t == TBoolean || t == TNull
    ensures EditorAccepted(lib, t, Converted(lib, t, v))
    ensures SaveValue(lib, t, Converted(lib, t, v)) == Converted(lib, t, v)
    ensures KindOf(SaveValue(lib, t, Converted(lib, t, v))) == t
  {
  }

  /**
   * Switching to Object and saving at once stores the empty object, when
   * the library reads "{}" as the empty object.
   */
  lemma SwitchToObjectThenSave(lib: Library, v: Value)
    requires lib.parse("{}") == Some(JObj([]))
    ensures EditorAccepted(lib, TObject, Converted(lib, TObject, v))
    ensures SaveValue(lib, TObject, Converted(lib, TObject, v)) == MapV([])
  {
    var text := "{}";
    assert !IsWhitespace(text[0]) && !IsWhitespace(text[1]);
    assert TrimStart(text) == text;
    assert TrimEnd(text) == text;
    assert OpensObject(text) && !IsBlank(text);
    assert ReadObject(lib, text) == Some([]);
    assert ReadDocument(lib, text) == Some(JObj([]));
  }

  /** Opening a row with a primitive value and saving it unchanged stores the same value. */
  lemma UntouchedPrimitiveKept(lib: Library, item: NavItem)
    requires Classified(item) && (item.node.Str? || item.node.Bool? || item.node.Null? || item.node.Num?)
    ensures EditorAccepted(lib, InitialType(Some(item)), InitialValue(Some(item)))
    ensures SaveValue(lib, InitialType(Some(item)), InitialValue(Some(item))) == item.node
  {
  }

  /** Opening an object or array row and saving it unchanged stores an empty one. */
  lemma UntouchedContainerEmptied(lib: Library, item: NavItem)
    requires Classified(item) && (item.node.MapV? || item.node.ListV?)
    ensures item.node.MapV? ==> SaveValue(lib, InitialType(Some(item)), InitialValue(Some(item))) == MapV([])
    ensures item.node.ListV? ==> SaveValue(lib, InitialType(Some(item)), InitialValue(Some(item))) == ListV([])
  {
  }

  class EditorJsonItem {
    const lib: Library
    const item: Option<NavItem>
    const isAdding: bool
    const parentIsArray: bool
    const currentKey: string
    var key: string
    var currentValue: Value
    var selectedType: FieldType
    var isKeyValid: bool
    var isValueValid: bool
    var validationMessage: Option<ItemError>

    /** The key flag is false only for a blank key. */
    ghost predicate Valid()
      reads this
    {
      !isKeyValid ==> IsBlank(key)
    }

    constructor(lib: Library, item: Option<NavItem>, isAdding: bool, parentIsArray: bool, currentKey: string)
      ensures this.lib == lib && this.item == item && this.isAdding == isAdding
      ensures this.parentIsArray == parentIsArray && this.currentKey == currentKey
      ensures key == InitialKey(item, parentIsArray, currentKey)
      ensures currentValue == InitialValue(item) && selectedType == InitialType(item)
      ensures isKeyValid && isValueValid && validationMessage.None?
      ensures Valid()
    {
      this.lib := lib;
      this.item := item;
      this.isAdding := isAdding;
      this.parentIsArray := parentIsArray;
      this.currentKey := currentKey;
      key := InitialKey(item, parentIsArray, currentKey);
      currentValue := InitialValue(item);
      selectedType := InitialType(item);
      isKeyValid := true;
      isValueValid := true;
      validationMessage := None;
    }

    /** The key box, shown outside an array and when adding. */
    method EditKey(k: string)
      requires Valid() && (!parentIsArray || isAdding)
      modifies this
      ensures key == k && isKeyValid == !IsBlank(k)
      ensures currentValue == old(currentValue) && selectedType == old(selectedType)
      ensures isValueValid == old(isValueValid) && validationMessage == old(validationMessage)
      ensures Valid()
    {
      key := k;
      isKeyValid := !IsBlank(k);
    }

    /** The value box, not shown for null, delivers a new value. */
    method ChangeValue(v: Value)
      requires Valid() && selectedType != TNull
      modifies this
      ensures currentValue == v
      ensures key == old(key) && selectedType == old(selectedType) && isKeyValid == old(isKeyValid)
      ensures isValueValid == old(isValueValid) && validationMessage == old(validationMessage)
      ensures Valid()
    {
      currentValue := v;
    }

    /** `onTypeChanged` */
    method ChangeType(t: FieldType)
      requires Valid()
      modifies this
      ensures selectedType == t && currentValue == Converted(lib, t, old(currentValue))
      ensures key == old(key) && isKeyValid == old(isKeyValid)
      ensures isValueValid == old(isValueValid) && validationMessage == old(validationMessage)
      ensures Valid()
    {
      var convertedValue := Converted(lib, t, currentValue);
      selectedType := t;
      currentValue := convertedValue;
    }

    /** `validate` */
    method Validate() returns (ok: bool)
      requires Valid()
      modifies this
      ensures Check(ok, isKeyValid, isValueValid, validationMessage) ==
        EditorCheck(lib, parentIsArray, key, currentValue, selectedType,
                    old(isKeyValid), old(isValueValid), old(validationMessage))
      ensures key == old(key) && currentValue == old(currentValue) && selectedType == old(selectedType)
      ensures Valid()
    {
      if !parentIsArray && IsBlank(key) {
        isKeyValid := false;
        validationMessage := Some(KeyEmpty);
        return false;
      }
      if Rechecked(selectedType, currentValue) {
        var accepted := EditorAccepted(lib, selectedType, currentValue);
        if !accepted {
          isValueValid := false;
          validationMessage := Some(ValueError(selectedType));
          return false;
        }
        isValueValid := true;
      }
      return isKeyValid && isValueValid;
    }

    /**
     * The Save button: when validation passes, `onSave` receives the key
     * (an edited array item keeps its index) and the value for the type.
     */
    method Save() returns (saved: Option<(string, Value)>)
      requires Valid()
      modifies this
      ensures saved.Some? <==> EditorCheck(lib, parentIsArray, key, currentValue, selectedType,
                                           old(isKeyValid), old(isValueValid), old(validationMessage)).ok
      ensures saved.Some? ==> EditorAccepted(lib, selectedType, currentValue)
      ensures saved.Some? ==> saved.value == (if parentIsArray && !isAdding then currentKey else key,
                                              SaveValue(lib, selectedType, currentValue))
      ensures saved.Some? && !parentIsArray ==> !IsBlank(saved.value.0)
      ensures key == old(key) && currentValue == old(currentValue) && selectedType == old(selectedType)
      ensures Valid()
    {
      var ok := Validate();
      if !ok {
        return None;
      }
      var finalKey := if parentIsArray && !isAdding then currentKey else key;
      return Some((finalKey, SaveValue(lib, selectedType, currentValue)));
    }
  }
}
