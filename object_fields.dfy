/**
 * The object editor dialog (ui/components/viewer/ObjectFieldEditor.kt): a
 * list of key/value/type fields built from an object, edited in place,
 * validated with early returns and turned back into a map. `ObjectField`
 * and the type menu of `ObjectFieldInput` are shared with the new-object
 * dialog.
 */
module ObjectFields {
  import opened Wrappers
  import opened Text
  import opened JsonModel
  import opened JsonUtils
  import opened JsonParser

  /** The type menu: "String", "Number", "Boolean", "Object", "Array", "null". */
  datatype FieldType = TString | TNumber | TBoolean | TObject | TArray | TNull

  /**
   * `ObjectField`: a field holds the original value until it is edited; an
   * edit or a type switch replaces it by text.
   */
  datatype ObjectField = ObjectField(key: string, value: Value, fieldType: FieldType)

  /** The messages the dialogs report, by kind. */
  datatype ValidationError =
    | EmptyObjectKey
    | EmptyKey(position: nat)
    | DuplicateKeys
    | InvalidNumber(key: string)
    | NotBoolean(key: string)
    | InvalidObject(key: string)
    | InvalidArray(key: string)

  /** The field `addField` appends. */
  const BlankField := ObjectField("", Str(""), TString)

  /** `value as? String ?: ""` */
  function AsString(v: Value): string {
    if v.Str? then v.str else ""
  }

  /** The type the editor gives an existing value. */
  function KindOf(v: Value): FieldType {
    match v
    case MapV(_) => TObject
    case ListV(_) => TArray
    case Str(_) => TString
    case Num(_) => TNumber
    case Bool(_) => TBoolean
    case Null => TNull
  }

  /** The fields the editor starts from: one per entry of the object, in order. */
  function InitialFields(m: seq<(string, Value)>): (r: seq<ObjectField>)
    ensures |r| == |m|
    ensures forall i :: 0 <= i < |m| ==> r[i].key == m[i].0 && r[i].value == m[i].1
    ensures forall i :: 0 <= i < |m| ==> r[i].fieldType == KindOf(m[i].1)
  {
    if m == [] then []
    else InitialFields(m[..|m| - 1]) + [ObjectField(m[|m| - 1].0, m[|m| - 1].1, KindOf(m[|m| - 1].1))]
  }

  /** `removeField(index)`: an index out of range changes nothing. */
  function Removed(fs: seq<ObjectField>, index: int): (r: seq<ObjectField>)
    ensures 0 <= index < |fs| ==>
      |r| == |fs| - 1 && forall j :: 0 <= j < |r| ==> r[j] == if j < index then fs[j] else fs[j + 1]
    ensures !(0 <= index < |fs|) ==> r == fs
  {
    if 0 <= index < |fs| then fs[..index] + fs[index + 1..] else fs
  }

  // ---------------------------------------------------------------------------
  // Validation

  /** The first field whose key is blank. */
  function FirstBlankKey(fs: seq<ObjectField>): (r: Option<nat>)
    ensures r.Some? ==> r.value < |fs| && IsBlank(fs[r.value].key)
    ensures forall j :: 0 <= j < |fs| && (r.None? || j < r.value) ==> !IsBlank(fs[j].key)
  {
    if fs == [] then None
    else if IsBlank(fs[0].key) then Some(0)
    else
      var rest := FirstBlankKey(fs[1..]);
      if rest.None? then None else Some(rest.value + 1)
  }

  /** `keys.distinct().size == keys.size` */
  predicate DistinctKeys(fs: seq<ObjectField>) {
    forall i, j :: 0 <= i < j < |fs| ==> fs[i].key != fs[j].key
  }

  /** The field list never holds anything but what the editor puts in it as text. */
  predicate AllText(fs: seq<ObjectField>) {
    forall i :: 0 <= i < |fs| ==> fs[i].value.Str?
  }

  /**
   * The per-type check of `validate` on one field, as written (`None`:
   * accepted). The value is read `as? String`, so a value that is not text
   * counts as the empty string for Boolean, Object and Array fields.
   */
  function ValueProblemAsWritten(lib: Library, f: ObjectField): (r: Option<ValidationError>)
    ensures (f.fieldType == TString || f.fieldType == TNull) ==> r.None?
    ensures f.fieldType == TNumber ==> (r.None? <==> !f.value.Str? || lib.toDouble(f.value.str).Some?)
    ensures f.fieldType == TBoolean ==> (r.None? <==> AsString(f.value) == "true" || AsString(f.value) == "false")
    ensures f.fieldType == TObject ==>
      (r.None? <==> IsBlank(AsString(f.value)) || (IsValidJson(lib, AsString(f.value)) && OpensObject(AsString(f.value))))
    ensures f.fieldType == TArray ==>
      (r.None? <==> IsBlank(AsString(f.value)) || (IsValidJson(lib, AsString(f.value)) && OpensArray(AsString(f.value))))
    ensures r.Some? ==> r.value == FieldValueError(f)
  {
    var s := AsString(f.value);
    match f.fieldType
    case TNumber => if f.value.Str? && lib.toDouble(f.value.str).None? then Some(InvalidNumber(f.key)) else None
    case TBoolean => if s != "true" && s != "false" then Some(NotBoolean(f.key)) else None
    case TObject =>
      if !IsBlank(s) && (!IsValidJson(lib, s) || !StartsWithChar(Trim(s), '{')) then Some(InvalidObject(f.key)) else None
    case TArray =>
      if !IsBlank(s) && (!IsValidJson(lib, s) || !StartsWithChar(Trim(s), '[')) then Some(InvalidArray(f.key)) else None
    case _ => None
  }

  /** The error `validate` reports for a field that fails its type's check. */
  function FieldValueError(f: ObjectField): ValidationError {
    match f.fieldType
    case TBoolean => NotBoolean(f.key)
    case TObject => InvalidObject(f.key)
    case TArray => InvalidArray(f.key)
    case _ => InvalidNumber(f.key)
  }

  /** The per-type check with an untouched Boolean field accepted. */
  function ValueProblemIntended(lib: Library, f: ObjectField): Option<ValidationError> {
    if f.fieldType == TBoolean && f.value.Bool? then None else ValueProblemAsWritten(lib, f)
  }

  /** The first problem found in a list of per-field results. */
  function FirstProblem(ps: seq<Option<ValidationError>>): (r: Option<ValidationError>)
    ensures r.None? <==> forall i :: 0 <= i < |ps| ==> ps[i].None?
    ensures forall i :: (0 <= i < |ps| && ps[i].Some? && forall j :: 0 <= j < i ==> ps[j].None?) ==> r == ps[i]
  {
    if ps == [] then None
    else if ps[0].Some? then ps[0]
    else
      var rest := FirstProblem(ps[1..]);
      assert forall i :: 1 <= i < |ps| ==> ps[1..][i - 1] == ps[i];
      rest
  }

  /** The per-type check of every field, in order. */
  function ValueProblems(lib: Library, fs: seq<ObjectField>): (r: seq<Option<ValidationError>>)
    ensures |r| == |fs|
    ensures forall i :: 0 <= i < |fs| ==> r[i] == ValueProblemAsWritten(lib, fs[i])
  {
    seq(|fs|, i requires 0 <= i < |fs| => ValueProblemAsWritten(lib, fs[i]))
  }

  /** The check of the first field that fails its per-type check. */
  function FirstValueProblem(lib: Library, fs: seq<ObjectField>): (r: Option<ValidationError>)
    ensures r.None? <==> forall i :: 0 <= i < |fs| ==> ValueProblemAsWritten(lib, fs[i]).None?
    ensures forall i :: (0 <= i < |fs| && ValueProblemAsWritten(lib, fs[i]).Some? &&
                         forall j :: 0 <= j < i ==> ValueProblemAsWritten(lib, fs[j]).None?) ==>
      r == ValueProblemAsWritten(lib, fs[i])
  {
    FirstProblem(ValueProblems(lib, fs))
  }

  /** The loop over the keys in `validate`: the index of the first blank key. */
  method FindBlankKey(fs: seq<ObjectField>) returns (r: Option<nat>)
    ensures r == FirstBlankKey(fs)
  {
    for index := 0 to |fs|
      invariant forall j :: 0 <= j < index ==> !IsBlank(fs[j].key)
    {
      if IsBlank(fs[index].key) {
        return Some(index);
      }
    }
    return None;
  }

  /** The loop over the fields' checks in `validate`: the first check that fails. */
  method FindProblem(problems: seq<Option<ValidationError>>) returns (r: Option<ValidationError>)
    ensures r == FirstProblem(problems)
  {
    for index := 0 to |problems|
      invariant forall j :: 0 <= j < index ==> problems[j].None?
    {
      var problem := problems[index];
      if problem.Some? {
        return problem;
      }
    }
    return None;
  }

  /**
   * `validate`: a blank key is reported first, by its 1-based position;
   * then repeated keys; then the first field whose value fails its type.
   */
  function Validation(lib: Library, fs: seq<ObjectField>): (r: Option<ValidationError>)
    ensures FirstBlankKey(fs).Some? ==> r == Some(EmptyKey(FirstBlankKey(fs).value + 1))
    ensures FirstBlankKey(fs).None? && !DistinctKeys(fs) ==> r == Some(DuplicateKeys)
    ensures r.None? <==>
      DistinctKeys(fs) && forall i :: 0 <= i < |fs| ==> !IsBlank(fs[i].key) && ValueProblemAsWritten(lib, fs[i]).None?
  {
    var blank := FirstBlankKey(fs);
    if blank.Some? then Some(EmptyKey(blank.value + 1))
    else if !DistinctKeys(fs) then Some(DuplicateKeys)
    else FirstValueProblem(lib, fs)
  }

  /** `validate` with an untouched Boolean field accepted: the same checks in the same order. */
  function ValidationIntended(lib: Library, fs: seq<ObjectField>): (r: Option<ValidationError>)
    ensures FirstBlankKey(fs).Some? || !DistinctKeys(fs) ==> r == Validation(lib, fs)
    ensures r.None? <==>
      DistinctKeys(fs) && forall i :: 0 <= i < |fs| ==> !IsBlank(fs[i].key) && ValueProblemIntended(lib, fs[i]).None?
  {
    if FirstBlankKey(fs).Some? || !DistinctKeys(fs) then Validation(lib, fs)
    else FirstProblem(ValueProblemsIntended(lib, fs))
  }

  /** The corrected per-type check of every field, in order. */
  function ValueProblemsIntended(lib: Library, fs: seq<ObjectField>): (r: seq<Option<ValidationError>>)
    ensures |r| == |fs|
    ensures forall i :: 0 <= i < |fs| ==> r[i] == ValueProblemIntended(lib, fs[i])
  {
    seq(|fs|, i requires 0 <= i < |fs| => ValueProblemIntended(lib, fs[i]))
  }

  // ---------------------------------------------------------------------------
  // Building the result

  /**
   * The value `buildResult` makes of one field, as written: the value is
   * read `as? String`, so only text is converted.
   */
  function BuildValueAsWritten(lib: Library, f: ObjectField): (r: Value)
    ensures f.fieldType == TString ==> r == Str(AsString(f.value))
    ensures f.fieldType == TNumber ==> r == if f.value.Str? && lib.toDouble(f.value.str).Some?
                                           then Num(lib.toDouble(f.value.str).value) else Num("0.0")
    ensures f.fieldType == TBoolean ==> r == Bool(f.value.Str? && ToBoolean(f.value.str))
    ensures f.fieldType == TObject ==> r.MapV? && (IsBlank(AsString(f.value)) ==> r == MapV([]))
    ensures f.fieldType == TObject && !IsBlank(AsString(f.value)) ==>
      r == if ReadObject(lib, AsString(f.value)).Some? then ToValue(JObj(ReadObject(lib, AsString(f.value)).value))
           else MapV([])
    ensures f.fieldType == TArray ==> r.ListV? && (IsBlank(AsString(f.value)) ==> r == ListV([]))
    ensures f.fieldType == TArray && !IsBlank(AsString(f.value)) ==>
      r == if ReadArray(lib, AsString(f.value)).Some? then ToValue(JArr(ReadArray(lib, AsString(f.value)).value))
           else ListV([])
    ensures f.fieldType == TNull ==> r == Null
  {
    var s := AsString(f.value);
    match f.fieldType
    case TString => Str(s)
    case TNumber =>
      if f.value.Str? && lib.toDouble(f.value.str).Some? then Num(lib.toDouble(f.value.str).value) else Num("0.0")
    case TBoolean => if f.value.Str? then Bool(ToBoolean(f.value.str)) else Bool(false)
    case TObject => if IsBlank(s) then MapV([]) else MapV(ParseJsonObject(lib, s))
    case TArray => if IsBlank(s) then ListV([]) else ListV(ParseJsonArray(lib, s))
    case TNull => Null
  }

  /** The value of one field, an untouched original value of the field's own kind kept as it is. */
  function BuildValueIntended(lib: Library, f: ObjectField): Value {
    if KindOf(f.value) == f.fieldType && !f.value.Str? then f.value else BuildValueAsWritten(lib, f)
  }

  /** The entries `buildResult` puts, one per field, in order. */
  function FieldEntries(lib: Library, fs: seq<ObjectField>): (r: seq<(string, Value)>)
    ensures |r| == |fs|
    ensures forall i :: 0 <= i < |fs| ==> r[i] == (fs[i].key, BuildValueAsWritten(lib, fs[i]))
  {
    if fs == [] then []
    else FieldEntries(lib, fs[..|fs| - 1]) + [(fs[|fs| - 1].key, BuildValueAsWritten(lib, fs[|fs| - 1]))]
  }

  /** The entries with untouched values kept, one per field, in order. */
  function FieldEntriesIntended(lib: Library, fs: seq<ObjectField>): (r: seq<(string, Value)>)
    ensures |r| == |fs|
    ensures forall i :: 0 <= i < |fs| ==> r[i] == (fs[i].key, BuildValueIntended(lib, fs[i]))
  {
    seq(|fs|, i requires 0 <= i < |fs| => (fs[i].key, BuildValueIntended(lib, fs[i])))
  }

  /**
   * Once every field holds text, as after editing each of them, the dialog
   * as written validates and builds exactly as intended.
   */
  lemma TextFieldsAgree(lib: Library, fs: seq<ObjectField>)
    requires AllText(fs)
    ensures Validation(lib, fs) == ValidationIntended(lib, fs)
    ensures FieldEntries(lib, fs) == FieldEntriesIntended(lib, fs)
  {
    assert ValueProblems(lib, fs) == ValueProblemsIntended(lib, fs);
  }

  /** With keys validated as distinct, the result holds exactly one entry per field, in order. */
  lemma BuiltOnePerField(lib: Library, fs: seq<ObjectField>)
    requires DistinctKeys(fs)
    ensures PutAll(FieldEntries(lib, fs), |fs|) == FieldEntries(lib, fs)
  {
    DistinctUnique(FieldEntries(lib, fs));
    PutAllWhole(FieldEntries(lib, fs));
  }

  // ---------------------------------------------------------------------------
  // The type menu of `ObjectFieldInput`

  /** Picking a type replaces the value by text suited to that type. */
  function TypeSwitch(f: ObjectField, t: FieldType): (r: ObjectField)
    ensures r.key == f.key && r.fieldType == t && r.value.Str?
    ensures t == TString ==> r.value == Str(AsString(f.value))
    ensures t == TNumber ==> r.value == if f.value.Num? then Str(f.value.num) else Str("0")
    ensures t == TBoolean ==> r.value == if f.value.Bool? then Str(Show(f.value)) else Str("false")
    ensures t == TObject ==> r.value == Str("{}")
    ensures t == TArray ==> r.value == Str("[]")
    ensures t == TNull ==> r.value == Str("")
  {
    var newValue :=
      match t
      case TString => AsString(f.value)
      case TNumber => if f.value.Num? then Show(f.value) else "0"
      case TBoolean => if f.value.Bool? then Show(f.value) else "false"
      case TObject => "{}"
      case TArray => "[]"
      case TNull => "";
    f.(fieldType := t, value := Str(newValue))
  }

  /** Switching a field to Boolean always leaves a value validation accepts. */
  lemma SwitchToBooleanAccepted(lib: Library, f: ObjectField)
    ensures ValueProblemAsWritten(lib, TypeSwitch(f, TBoolean)).None?
    ensures BuildValueAsWritten(lib, TypeSwitch(f, TBoolean)) == Bool(f.value.Bool? && f.value.b)
  {
  }

  // ---------------------------------------------------------------------------
  // Opening an object and saving it untouched

  /** As written: an untouched Number field is saved as 0.0. */
  lemma UntouchedNumberZeroedAsWritten(lib: Library)
    ensures InitialFields([("n", Num("5"))]) == [ObjectField("n", Num("5"), TNumber)]
    ensures BuildValueAsWritten(lib, ObjectField("n", Num("5"), TNumber)) == Num("0.0")
  {
  }

  /** As written: an untouched Object field is saved as an empty object. */
  lemma UntouchedObjectEmptiedAsWritten(lib: Library)
    ensures InitialFields([("o", MapV([("a", Null)]))]) == [ObjectField("o", MapV([("a", Null)]), TObject)]
    ensures BuildValueAsWritten(lib, ObjectField("o", MapV([("a", Null)]), TObject)) == MapV([])
  {
  }

  /** As written: an untouched Boolean field fails validation. */
  lemma UntouchedBooleanRejectedAsWritten(lib: Library)
    ensures InitialFields([("b", Bool(true))]) == [ObjectField("b", Bool(true), TBoolean)]
    ensures ValueProblemAsWritten(lib, ObjectField("b", Bool(true), TBoolean)) == Some(NotBoolean("b"))
  {
  }

  /** Opening an object whose keys are distinct and saving it untouched gives the same object back. */
  lemma {:induction false} UntouchedRoundTrip(lib: Library, m: seq<(string, Value)>)
    requires UniqueKeys(m)
    ensures PutAll(FieldEntriesIntended(lib, InitialFields(m)), |m|) == m
  {
    var es := FieldEntriesIntended(lib, InitialFields(m));
    forall i | 0 <= i < |m|
      ensures es[i] == m[i]
    {
      var v := m[i].1;
      assert BuildValueIntended(lib, ObjectField(m[i].0, v, KindOf(v))) == v;
    }
    assert es == m;
    PutAllWhole(m);
  }

  /** Opening an object with distinct, non-blank keys and saving it untouched passes validation. */
  lemma {:induction false} UntouchedAccepted(lib: Library, m: seq<(string, Value)>)
    requires UniqueKeys(m) && forall i :: 0 <= i < |m| ==> !IsBlank(m[i].0)
    ensures ValidationIntended(lib, InitialFields(m)).None?
  {
    var fs := InitialFields(m);
    forall i, j | 0 <= i < j < |fs|
      ensures fs[i].key != fs[j].key
    {
      UniqueKeysAt(m, i, j);
    }
    assert DistinctKeys(fs);
    forall i | 0 <= i < |fs|
      ensures ValueProblemIntended(lib, fs[i]).None?
    {
      KindAccepted(lib, fs[i]);
    }
  }

  /**
   * As written, an object whose values are all strings, with distinct,
   * non-blank keys, opened and saved untouched passes validation and is
   * saved as it was.
   */
  lemma UntouchedTextSaved(lib: Library, m: seq<(string, Value)>)
    requires UniqueKeys(m) && forall i :: 0 <= i < |m| ==> !IsBlank(m[i].0) && m[i].1.Str?
    ensures Validation(lib, InitialFields(m)).None?
    ensures PutAll(FieldEntries(lib, InitialFields(m)), |m|) == m
  {
    TextFieldsAgree(lib, InitialFields(m));
    UntouchedAccepted(lib, m);
    UntouchedRoundTrip(lib, m);
  }

  /** A field holding a value of its own type passes its per-type check. */
  lemma KindAccepted(lib: Library, f: ObjectField)
    requires f.fieldType == KindOf(f.value)
    ensures ValueProblemIntended(lib, f).None?
  {
    assert IsBlank("");
  }

  // ---------------------------------------------------------------------------
  // The dialog

  class ObjectFieldEditor {
    const lib: Library
    /** `item.node as? Map ?: emptyMap()` */
    const objectMap: seq<(string, Value)>
    var fields: seq<ObjectField>
    var validationError: Option<ValidationError>

    constructor(lib: Library, item: NavItem)
      ensures this.lib == lib
      ensures objectMap == if item.node.MapV? then item.node.entries else []
      ensures fields == InitialFields(objectMap) && validationError.None?
    {
      this.lib := lib;
      objectMap := if item.node.MapV? then item.node.entries else [];
      fields := [];
      validationError := None;
      new;
      FillIfEmpty();
    }

    /** `if (fields.isEmpty())`, run on every composition: an empty field list is filled from the object. */
    method FillIfEmpty()
      modifies this
      ensures old(fields) == [] ==> fields == InitialFields(objectMap)
      ensures old(fields) != [] ==> fields == old(fields)
      ensures validationError == old(validationError)
    {
      if fields == [] {
        for i := 0 to |objectMap|
          invariant fields == InitialFields(objectMap[..i])
          invariant validationError == old(validationError)
        {
          assert objectMap[..i + 1][..i] == objectMap[..i];
          fields := fields + [ObjectField(objectMap[i].0, objectMap[i].1, KindOf(objectMap[i].1))];
        }
        assert objectMap[..|objectMap|] == objectMap;
      }
    }

    /** `addField` */
    method AddField()
      modifies this
      ensures fields == old(fields) + [BlankField] && validationError == old(validationError)
    {
      fields := fields + [BlankField];
    }

    /** `removeField`; the next composition refills a list left empty. */
    method RemoveField(index: int)
      modifies this
      ensures Removed(old(fields), index) != [] ==> fields == Removed(old(fields), index)
      ensures Removed(old(fields), index) == [] ==> fields == InitialFields(objectMap)
      ensures validationError == old(validationError)
    {
      if index >= 0 && index < |fields| {
        fields := fields[..index] + fields[index + 1..];
      }
      FillIfEmpty();
    }

    /** The key of the field at `index` edited to `key`. */
    method EditKey(index: nat, key: string)
      requires index < |fields|
      modifies this
      ensures fields == old(fields)[index := old(fields)[index].(key := key)]
      ensures validationError == old(validationError)
    {
      fields := fields[index := fields[index].(key := key)];
    }

    /** The value of the field at `index` edited to `text`; a null field shows no value box. */
    method EditValue(index: nat, text: string)
      requires index < |fields| && fields[index].fieldType != TNull
      modifies this
      ensures fields == old(fields)[index := old(fields)[index].(value := Str(text))]
      ensures validationError == old(validationError)
    {
      fields := fields[index := fields[index].(value := Str(text))];
    }

    /** A type picked in the menu of the field at `index`. */
    method SelectType(index: nat, t: FieldType)
      requires index < |fields|
      modifies this
      ensures fields == old(fields)[index := TypeSwitch(old(fields)[index], t)]
      ensures validationError == old(validationError)
    {
      fields := fields[index := TypeSwitch(fields[index], t)];
    }

    /** `validate` */
    method Validate() returns (ok: bool)
      modifies this
      ensures validationError == Validation(lib, fields)
      ensures ok <==> validationError.None?
      ensures fields == old(fields)
    {
      var blank := FindBlankKey(fields);
      if blank.Some? {
        validationError := Some(EmptyKey(blank.value + 1));
        return false;
      }
      if !DistinctKeys(fields) {
        validationError := Some(DuplicateKeys);
        return false;
      }
      validationError := FindProblem(ValueProblems(lib, fields));
      return validationError.None?;
    }

    /** `buildResult` */
    method BuildResult() returns (result: seq<(string, Value)>)
      ensures result == PutAll(FieldEntries(lib, fields), |fields|)
    {
      var entries := FieldEntries(lib, fields);
      result := [];
      for i := 0 to |entries|
        invariant result == PutAll(entries, i)
      {
        result := Put(result, entries[i].0, entries[i].1);
      }
    }

    /** The Save button: the result goes to `onSave` only when validation passes. */
    method Save() returns (saved: Option<seq<(string, Value)>>)
      modifies this
      ensures saved.Some? <==> Validation(lib, old(fields)).None?
      ensures saved.Some? ==> saved.value == FieldEntries(lib, fields)
      ensures fields == old(fields) && validationError == Validation(lib, fields)
    {
      var ok := Validate();
      if !ok {
        return None;
      }
      var result := BuildResult();
      BuiltOnePerField(lib, fields);
      return Some(result);
    }
  }
}
