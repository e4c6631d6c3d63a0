/**
 * The dialog that creates a new object (ui/components/viewer/NewObjectDialog.kt):
 * fields pre-filled from the keys of a sibling object, an object key unless
 * the object goes into an array, key checks only, and a result map built
 * from the fields' text.
 */
module NewObjectDialog {
  import opened Wrappers
  import opened Text
  import opened JsonModel
  import opened ObjectFields

  /** The fields the dialog opens with: one blank String field per template, or a single blank field. */
  function TemplateFields(templates: seq<string>): (r: seq<ObjectField>)
    ensures templates == [] ==> r == [BlankField]
    ensures templates != [] ==> |r| == |templates|
    ensures templates != [] ==> forall i :: 0 <= i < |r| ==> r[i] == ObjectField(templates[i], Str(""), TString)
    ensures AllText(r)
  {
    if templates == [] then [BlankField] else TemplateRow(templates)
  }

  function TemplateRow(templates: seq<string>): (r: seq<ObjectField>)
    ensures |r| == |templates|
    ensures forall i :: 0 <= i < |r| ==> r[i] == ObjectField(templates[i], Str(""), TString)
  {
    if templates == [] then []
    else TemplateRow(templates[..|templates| - 1]) + [ObjectField(templates[|templates| - 1], Str(""), TString)]
  }

  /**
   * `validate`: outside an array a blank object key comes first, then a
   * blank field key by its 1-based position, then repeated keys. Values
   * are not checked.
   */
  function DialogValidation(isInArray: bool, objectKey: string, fs: seq<ObjectField>): (r: Option<ValidationError>)
    ensures !isInArray && IsBlank(objectKey) ==> r == Some(EmptyObjectKey)
    ensures (isInArray || !IsBlank(objectKey)) && FirstBlankKey(fs).Some? ==>
      r == Some(EmptyKey(FirstBlankKey(fs).value + 1))
    ensures r.None? <==>
      (isInArray || !IsBlank(objectKey)) && DistinctKeys(fs) && forall i :: 0 <= i < |fs| ==> !IsBlank(fs[i].key)
  {
    if !isInArray && IsBlank(objectKey) then Some(EmptyObjectKey)
    else if FirstBlankKey(fs).Some? then Some(EmptyKey(FirstBlankKey(fs).value + 1))
    else if !DistinctKeys(fs) then Some(DuplicateKeys)
    else None
  }

  /**
   * The value `buildResult` makes of one field. A field typed Object or
   * Array keeps its text: the dialog never makes a nested object or array.
   */
  function NewValue(lib: Library, f: ObjectField): (r: Value)
    ensures f.fieldType == TString ==> r == Str(AsString(f.value))
    ensures f.fieldType == TNumber ==> r.Num?
    ensures f.fieldType == TNumber && f.value.Str? && lib.toDouble(f.value.str).Some? ==>
      r == Num(lib.toDouble(f.value.str).value)
    ensures f.fieldType == TNumber && !(f.value.Str? && lib.toDouble(f.value.str).Some?) ==> r == Num("0.0")
    ensures f.fieldType == TBoolean ==> r == Bool(f.value.Str? && ToBoolean(f.value.str))
    ensures f.fieldType == TNull ==> r == Null
    ensures (f.fieldType == TObject || f.fieldType == TArray) ==> r == f.value
    ensures f.value.Str? ==> !r.MapV? && !r.ListV?
  {
    match f.fieldType
    case TString => Str(AsString(f.value))
    case TNumber =>
      if f.value.Str? && lib.toDouble(f.value.str).Some? then Num(lib.toDouble(f.value.str).value) else Num("0.0")
    case TBoolean => if f.value.Str? then Bool(ToBoolean(f.value.str)) else Bool(false)
    case TNull => Null
    case _ => f.value
  }

  /** The entries `buildResult` puts, one per field, in order. */
  function NewEntries(lib: Library, fs: seq<ObjectField>): (r: seq<(string, Value)>)
    ensures |r| == |fs|
    ensures forall i :: 0 <= i < |fs| ==> r[i] == (fs[i].key, NewValue(lib, fs[i]))
  {
    if fs == [] then [] else NewEntries(lib, fs[..|fs| - 1]) + [(fs[|fs| - 1].key, NewValue(lib, fs[|fs| - 1]))]
  }

  /** With keys validated as distinct, the result holds exactly one entry per field, in order. */
  lemma NewEntriesWhole(lib: Library, fs: seq<ObjectField>)
    requires DistinctKeys(fs)
    ensures PutAll(NewEntries(lib, fs), |fs|) == NewEntries(lib, fs)
  {
    DistinctUnique(NewEntries(lib, fs));
    PutAllWhole(NewEntries(lib, fs));
  }

  /**
   * Saving the template fields untouched, inside an array, is accepted and
   * gives each template key an empty string, in the templates' order.
   */
  lemma TemplatesSavedEmpty(lib: Library, templates: seq<string>)
    requires templates != []
    requires forall i :: 0 <= i < |templates| ==> !IsBlank(templates[i])
    requires forall i, j :: 0 <= i < j < |templates| ==> templates[i] != templates[j]
    ensures DialogValidation(true, "", TemplateFields(templates)).None?
    ensures forall i :: 0 <= i < |templates| ==> NewEntries(lib, TemplateFields(templates))[i] == (templates[i], Str(""))
  {
  }

  class NewObjectDialog {
    const lib: Library
    const isInArray: bool
    const fieldTemplates: seq<string>
    var objectKey: string
    var fields: seq<ObjectField>
    var validationError: Option<ValidationError>

    /** The dialog's state holds only text. */
    ghost predicate Valid()
      reads this
    {
      AllText(fields)
    }

    constructor(lib: Library, isInArray: bool, fieldTemplates: seq<string>)
      ensures this.lib == lib && this.isInArray == isInArray && this.fieldTemplates == fieldTemplates
      ensures objectKey == "" && fields == TemplateFields(fieldTemplates) && validationError.None?
      ensures Valid()
    {
      this.lib := lib;
      this.isInArray := isInArray;
      this.fieldTemplates := fieldTemplates;
      objectKey := "";
      fields := [];
      validationError := None;
      new;
      FillIfEmpty();
    }

    /** `if (fields.isEmpty())`, run on every composition: an empty field list is filled from the templates. */
    method FillIfEmpty()
      requires Valid()
      modifies this
      ensures old(fields) == [] ==> fields == TemplateFields(fieldTemplates)
      ensures old(fields) != [] ==> fields == old(fields)
      ensures objectKey == old(objectKey) && validationError == old(validationError)
      ensures Valid()
    {
      if fields == [] {
        if fieldTemplates != [] {
          for i := 0 to |fieldTemplates|
            invariant fields == TemplateRow(fieldTemplates[..i])
            invariant objectKey == old(objectKey) && validationError == old(validationError)
          {
            assert fieldTemplates[..i + 1][..i] == fieldTemplates[..i];
            fields := fields + [ObjectField(fieldTemplates[i], Str(""), TString)];
          }
          assert fieldTemplates[..|fieldTemplates|] == fieldTemplates;
        } else {
          fields := fields + [BlankField];
        }
      }
    }

    /** `addField` */
    method AddField()
      requires Valid()
      modifies this
      ensures fields == old(fields) + [BlankField]
      ensures objectKey == old(objectKey) && validationError == old(validationError)
      ensures Valid()
    {
      fields := fields + [BlankField];
    }

    /** `removeField`; the next composition refills a list left empty. */
    method RemoveField(index: int)
      requires Valid()
      modifies this
      ensures Removed(old(fields), index) != [] ==> fields == Removed(old(fields), index)
      ensures Removed(old(fields), index) == [] ==> fields == TemplateFields(fieldTemplates)
      ensures fields != []
      ensures objectKey == old(objectKey) && validationError == old(validationError)
      ensures Valid()
    {
      if index >= 0 && index < |fields| {
        fields := fields[..index] + fields[index + 1..];
      }
      FillIfEmpty();
    }

    /** The object key box, shown outside an array. */
    method EditObjectKey(key: string)
      requires !isInArray
      modifies this
      ensures objectKey == key && fields == old(fields) && validationError == old(validationError)
    {
      objectKey := key;
    }

    /** The key of the field at `index` edited to `key`. */
    method EditKey(index: nat, key: string)
      requires Valid() && index < |fields|
      modifies this
      ensures fields == old(fields)[index := old(fields)[index].(key := key)]
      ensures objectKey == old(objectKey) && validationError == old(validationError)
      ensures Valid()
    {
      fields := fields[index := fields[index].(key := key)];
    }

    /** The value of the field at `index` edited to `text`; a null field shows no value box. */
    method EditValue(index: nat, text: string)
      requires Valid() && index < |fields| && fields[index].fieldType != TNull
      modifies this
      ensures fields == old(fields)[index := old(fields)[index].(value := Str(text))]
      ensures objectKey == old(objectKey) && validationError == old(validationError)
      ensures Valid()
    {
      fields := fields[index := fields[index].(value := Str(text))];
    }

    /** A type picked in the menu of the field at `index`. */
    method SelectType(index: nat, t: FieldType)
      requires Valid() && index < |fields|
      modifies this
      ensures fields == old(fields)[index := TypeSwitch(old(fields)[index], t)]
      ensures objectKey == old(objectKey) && validationError == old(validationError)
      ensures Valid()
    {
      fields := fields[index := TypeSwitch(fields[index], t)];
    }

    /** `validate` */
    method Validate() returns (ok: bool)
      modifies this
      ensures validationError == DialogValidation(isInArray, objectKey, fields)
      ensures ok <==> validationError.None?
      ensures fields == old(fields) && objectKey == old(objectKey)
    {
      if !isInArray && IsBlank(objectKey) {
        validationError := Some(EmptyObjectKey);
        return false;
      }
      var blank := FindBlankKey(fields);
      if blank.Some? {
        validationError := Some(EmptyKey(blank.value + 1));
        return false;
      }
      if !DistinctKeys(fields) {
        validationError := Some(DuplicateKeys);
        return false;
      }
      validationError := None;
      return true;
    }

    /** `buildResult` */
    method BuildResult() returns (result: seq<(string, Value)>)
      ensures result == PutAll(NewEntries(lib, fields), |fields|)
    {
      var entries := NewEntries(lib, fields);
      result := [];
      for i := 0 to |entries|
        invariant result == PutAll(entries, i)
      {
        result := Put(result, entries[i].0, entries[i].1);
      }
    }

    /**
     * The Save button: when validation passes, `onSave` receives the object
     * key and the result, and the dialog is dismissed.
     */
    method Save() returns (saved: Option<(string, seq<(string, Value)>)>)
      requires Valid()
      modifies this
      ensures saved.Some? <==> DialogValidation(isInArray, old(objectKey), old(fields)).None?
      ensures saved.Some? ==> saved.value == (objectKey, NewEntries(lib, fields))
      ensures saved.Some? ==> forall i :: 0 <= i < |saved.value.1| ==> !saved.value.1[i].1.MapV? && !saved.value.1[i].1.ListV?
      ensures fields == old(fields) && objectKey == old(objectKey)
      ensures validationError == DialogValidation(isInArray, objectKey, fields)
    {
      var ok := Validate();
      if !ok {
        return None;
      }
      var result := BuildResult();
      NewEntriesWhole(lib, fields);
      return Some((objectKey, result));
    }
  }
}
