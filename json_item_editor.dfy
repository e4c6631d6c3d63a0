/**
 * The dialog that edits, adds or deletes one item (ui/components/JsonItemEditor.kt):
 * a key, the value as text and a type, validated on Save and turned into
 * a value by the chosen type.
 */
module JsonItemEditor {
  import opened Wrappers
  import opened Text
  import opened JsonModel
  import opened JsonUtils
  import opened JsonParser
  import opened ObjectFields

  /** The messages the editor shows, by kind. */
  datatype ItemError = KeyEmpty | BadNumber | BadBoolean | BadObject | BadArray

  /** The outcome of `validate`: its result and the three pieces of state it writes. */
  datatype Check = Check(ok: bool, keyValid: bool, valueValid: bool, message: Option<ItemError>)

  // ---------------------------------------------------------------------------
  // Opening the dialog

  /** The key the dialog opens with: the item's key, or `currentKey` inside an array. */
  function InitialKey(item: Option<NavItem>, parentIsArray: bool, currentKey: string): (r: string)
    ensures parentIsArray ==> r == currentKey
    ensures !parentIsArray ==> r == if item.Some? then item.value.key else ""
  {
    if !parentIsArray then (if item.Some? then item.value.key else "") else currentKey
  }

  /** The text the value box opens with. */
  function InitialText(item: Option<NavItem>): (r: string)
    ensures item.None? ==> r == ""
    ensures item.Some? && item.value.node.Null? ==> r == "null"
    ensures item.Some? && !item.value.node.Null? ==> r == Show(item.value.node)
  {
    if item.None? then ""
    else match item.value.node
      case Null => "null"
      case Str(s) => s
      case _ => Show(item.value.node)
  }

  /** The type the menu opens with: the row's kind flags first, then the node's kind. */
  function InitialType(item: Option<NavItem>): (r: FieldType)
    ensures item.Some? && Classified(item.value) ==> r == KindOf(item.value.node)
    ensures item.None? ==> r == TString
  {
    if item.None? then TString
    else if item.value.isObject then TObject
    else if item.value.isArray then TArray
    else match item.value.node
      case Null => TNull
      case Str(_) => TString
      case Num(_) => TNumber
      case Bool(_) => TBoolean
      case _ => TString
  }

  /** Picking a type resets the text for Boolean, Object, Array and null and keeps it otherwise. */
  function TypeReset(t: FieldType, text: string): string {
    match t
    case TBoolean => "false"
    case TObject => "{}"
    case TArray => "[]"
    case TNull => ""
    case _ => text
  }

  // ---------------------------------------------------------------------------
  // Validating and parsing

  /** The types whose value `validate` checks, and so whose validity flag it rewrites. */
  predicate Checked(t: FieldType) {
    t == TNumber || t == TBoolean || t == TObject || t == TArray
  }

  /** The text is acceptable for the type. */
  predicate ValueAccepted(lib: Library, t: FieldType, text: string) {
    match t
    case TNumber => lib.toDouble(text).Some?
    case TBoolean => text == "true" || text == "false"
    case TObject => IsBlank(text) || (IsValidJson(lib, text) && OpensObject(text))
    case TArray => IsBlank(text) || (IsValidJson(lib, text) && OpensArray(text))
    case _ => true
  }

  /** The message for a value the type rejects. */
  function ValueError(t: FieldType): ItemError {
    match t
    case TNumber => BadNumber
    case TBoolean => BadBoolean
    case TObject => BadObject
    case _ => BadArray
  }

  /**
   * `validate`, given the state it reads. A String or null value is not
   * checked, so a validity flag left false by an earlier failure still
   * blocks saving.
   */
  function ItemCheck(lib: Library, parentIsArray: bool, key: string, text: string, t: FieldType,
                     keyValid: bool, valueValid: bool, message: Option<ItemError>): (r: Check)
    ensures r.ok ==> (parentIsArray || !IsBlank(key)) && ValueAccepted(lib, t, text)
    ensures r.ok <==> (parentIsArray || !IsBlank(key)) && ValueAccepted(lib, t, text) &&
                      keyValid && (valueValid || Checked(t))
    ensures r.ok ==> r.keyValid && r.valueValid
    ensures !parentIsArray && IsBlank(key) ==> r.message == Some(KeyEmpty) && !r.keyValid
    ensures (parentIsArray || !IsBlank(key)) && !ValueAccepted(lib, t, text) ==>
              r.message == Some(ValueError(t)) && !r.valueValid
  {
    if !parentIsArray && IsBlank(key) then Check(false, false, valueValid, Some(KeyEmpty))
    else if Checked(t) && !ValueAccepted(lib, t, text) then Check(false, keyValid, false, Some(ValueError(t)))
    else if Checked(t) then Check(keyValid, keyValid, true, message)
    else Check(keyValid && valueValid, keyValid, valueValid, message)
  }

  /** `parseValue`: the value the text stands for under the type. */
  function ParsedValue(lib: Library, t: FieldType, text: string): (r: Value)
    ensures t == TString ==> r == Str(text)
    ensures t == TNumber ==> r == if lib.toDouble(text).Some? then Num(lib.toDouble(text).value) else Num("0.0")
    ensures t == TBoolean ==> r == Bool(ToBoolean(text))
    ensures t == TObject ==> r.MapV? && (IsBlank(text) || ReadObject(lib, text).None? ==> r == MapV([]))
    ensures t == TArray ==> r.ListV? && (IsBlank(text) || ReadArray(lib, text).None? ==> r == ListV([]))
    ensures t == TNull ==> r == Null
  {
    match t
    case TString => Str(text)
    case TNumber => if lib.toDouble(text).Some? then Num(lib.toDouble(text).value) else Num("0.0")
    case TBoolean => Bool(ToBoolean(text))
    case TObject => if IsBlank(text) then MapV([]) else MapV(ParseJsonObject(lib, text))
    case TArray => if IsBlank(text) then ListV([]) else ListV(ParseJsonArray(lib, text))
    case TNull => Null
  }

  /** Text that validation accepts is parsed as written, never by a fallback. */
  lemma AcceptedParsesExactly(lib: Library, t: FieldType, text: string)
    requires ValueAccepted(lib, t, text)
    ensures t == TNumber ==> ParsedValue(lib, t, text) == Num(lib.toDouble(text).value)
    ensures t == TBoolean ==> ParsedValue(lib, t, text) == Bool(text == "true")
    ensures t == TObject && !IsBlank(text) ==>
      ReadObject(lib, text).Some? && ParsedValue(lib, t, text) == ToValue(JObj(ReadObject(lib, text).value))
    ensures t == TArray && !IsBlank(text) ==>
      ReadArray(lib, text).Some? && ParsedValue(lib, t, text) == ToValue(JArr(ReadArray(lib, text).value))
  {
    if t == TObject && !IsBlank(text) {
      OpensOne(text);
    } else if t == TArray && !IsBlank(text) {
      OpensOne(text);
    }
  }

  /** A text cannot open both an object and an array. */
  lemma OpensOne(text: string)
    ensures !(OpensObject(text) && OpensArray(text))
  {
  }

  /**
   * Opening a string, boolean or null row and saving it unchanged stores
   * the same value back.
   */
  lemma UntouchedPrimitiveSaved(lib: Library, item: NavItem)
    requires Classified(item) && (item.node.Str? || item.node.Bool? || item.node.Null?)
    ensures ValueAccepted(lib, InitialType(Some(item)), InitialText(Some(item)))
    ensures ParsedValue(lib, InitialType(Some(item)), InitialText(Some(item))) == item.node
  {
  }

  /** After a failed Number check, switching to String leaves the editor unable to save. */
  lemma StaleValueFlagBlocksSave(lib: Library, key: string, text: string)
    requires !IsBlank(key) && lib.toDouble(text).None?
    ensures !ItemCheck(lib, false, key, text, TNumber, true, true, None).ok
    ensures !ItemCheck(lib, false, key, TypeReset(TString, text), TString, true,
                       ItemCheck(lib, false, key, text, TNumber, true, true, None).valueValid, Some(BadNumber)).ok
  {
  }

  // ---------------------------------------------------------------------------
  // The dialog

  class JsonItemEditor {
    const lib: Library
    const item: Option<NavItem>
    const isAdding: bool
    const parentIsArray: bool
    const currentKey: string
    var key: string
    var valueText: string
    var selectedType: FieldType
    var isKeyValid: bool
    var isValueValid: bool
    var validationMessage: Option<ItemError>

    /** The key flag is false only for a blank key. */
    ghost predicate Valid()
      reads this
    {
      !isKeyValid ==> IsBlank(key)
    }

    constructor(lib: Library, item: Option<NavItem>, isAdding: bool, parentIsArray: bool, currentKey: string)
      ensures this.lib == lib && this.item == item && this.isAdding == isAdding
      ensures this.parentIsArray == parentIsArray && this.currentKey == currentKey
      ensures key == InitialKey(item, parentIsArray, currentKey)
      ensures valueText == InitialText(item) && selectedType == InitialType(item)
      ensures isKeyValid && isValueValid && validationMessage.None?
      ensures Valid()
    {
      this.lib := lib;
      this.item := item;
      this.isAdding := isAdding;
      this.parentIsArray := parentIsArray;
      this.currentKey := currentKey;
      key := InitialKey(item, parentIsArray, currentKey);
      valueText := InitialText(item);
      selectedType := InitialType(item);
      isKeyValid := true;
      isValueValid := true;
      validationMessage := None;
    }

    /** The key box, shown outside an array and when adding. */
    method EditKey(k: string)
      requires Valid() && (!parentIsArray || isAdding)
      modifies this
      ensures key == k && isKeyValid == !IsBlank(k)
      ensures valueText == old(valueText) && selectedType == old(selectedType)
      ensures isValueValid == old(isValueValid) && validationMessage == old(validationMessage)
      ensures Valid()
    {
      key := k;
      isKeyValid := !IsBlank(k);
    }

    /** The value box, not shown for null; a new value counts as valid until Save. */
    method EditValue(text: string)
      requires Valid() && selectedType != TNull
      modifies this
      ensures valueText == text && isValueValid
      ensures key == old(key) && selectedType == old(selectedType)
      ensures isKeyValid == old(isKeyValid) && validationMessage == old(validationMessage)
      ensures Valid()
    {
      valueText := text;
      isValueValid := true;
    }

    /** A type picked in the menu. */
    method SelectType(t: FieldType)
      requires Valid()
      modifies this
      ensures selectedType == t && valueText == TypeReset(t, old(valueText))
      ensures key == old(key) && isKeyValid == old(isKeyValid)
      ensures isValueValid == old(isValueValid) && validationMessage == old(validationMessage)
      ensures Valid()
    {
      selectedType := t;
      valueText := TypeReset(t, valueText);
    }

    /** `validate` */
    method Validate() returns (ok: bool)
      requires Valid()
      modifies this
      ensures Check(ok, isKeyValid, isValueValid, validationMessage) ==
        ItemCheck(lib, parentIsArray, key, valueText, selectedType,
                  old(isKeyValid), old(isValueValid), old(validationMessage))
      ensures key == old(key) && valueText == old(valueText) && selectedType == old(selectedType)
      ensures Valid()
    {
      if !parentIsArray && IsBlank(key) {
        isKeyValid := false;
        validationMessage := Some(KeyEmpty);
        return false;
      }
      if Checked(selectedType) {
        var accepted := ValueAccepted(lib, selectedType, valueText);
        if !accepted {
          isValueValid := false;
          validationMessage := Some(ValueError(selectedType));
          return false;
        }
        isValueValid := true;
      }
      return isKeyValid && isValueValid;
    }

    /**
     * The Save button: when validation passes, `onSave` receives the key
     * (an edited array item keeps its index) and the parsed value.
     */
    method Save() returns (saved: Option<(string, Value)>)
      requires Valid()
      modifies this
      ensures saved.Some? <==> ItemCheck(lib, parentIsArray, key, valueText, selectedType,
                                         old(isKeyValid), old(isValueValid), old(validationMessage)).ok
      ensures saved.Some? ==> ValueAccepted(lib, selectedType, valueText)
      ensures saved.Some? ==> saved.value == (if parentIsArray && !isAdding then currentKey else key,
                                              ParsedValue(lib, selectedType, valueText))
      ensures saved.Some? && !parentIsArray ==> !IsBlank(saved.value.0)
      ensures key == old(key) && valueText == old(valueText) && selectedType == old(selectedType)
      ensures Valid()
    {
      var ok := Validate();
      if !ok {
        return None;
      }
      var finalKey := if parentIsArray && !isAdding then currentKey else key;
      return Some((finalKey, ParsedValue(lib, selectedType, valueText)));
    }
  }
}
