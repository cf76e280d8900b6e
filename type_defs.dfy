/**
 * GoTypeDef as the generator runs it: a recursive method that collects the
 * field names of an object into a slice, sorts them and writes one entry per
 * field into a buffer. It computes exactly the definition that TypeDef
 * specifies.
 */
module TypeDefs {
  import opened Design
  import opened StringOrder
  import opened Writer
  import opened Identifiers
  import opened TypeNames

  /** GoTypeDef: the Go code that defines a Go type matching def. */
  method GoTypeDef(def: Attribute, versioned: bool, defPkg: string, tabs: int, jsonTags: bool) returns (s: string)
    requires AsciiType(def.typ)
    ensures s == TypeDef(def, versioned, defPkg, tabs, jsonTags)
    decreases def.typ, 3
  {
    match def.typ {
      case Primitive(_) =>
        s := GoTypeName(def.typ, [], tabs);
      case Array(elem) =>
        var d := ElementDef(elem, versioned, defPkg, tabs, jsonTags);
        s := "[]" + d;
      case Hash(key, elem) =>
        var keyDef := ElementDef(key, versioned, defPkg, tabs, jsonTags);
        var elemDef := ElementDef(elem, versioned, defPkg, tabs, jsonTags);
        s := "map[" + keyDef + "]" + elemDef;
      case Object(_) =>
        s := WriteStruct(def, versioned, defPkg, tabs, jsonTags);
      case UserType(ut) =>
        s := GoPackageTypeName(def.typ, AllRequired(ut.def), versioned, defPkg, tabs);
      case MediaType(ut) =>
        s := GoPackageTypeName(def.typ, AllRequired(ut.def), versioned, defPkg, tabs);
    }
  }

  /** The definition of an array element or map key or value: objects are referenced through a pointer. */
  method ElementDef(elem: Attribute, versioned: bool, defPkg: string, tabs: int, jsonTags: bool) returns (d: string)
    requires AsciiType(elem.typ)
    ensures d == PointerIf(IsObject(elem.typ)) + TypeDef(elem, versioned, defPkg, tabs, jsonTags)
    decreases elem.typ, 4
  {
    d := GoTypeDef(elem, versioned, defPkg, tabs, jsonTags);
    if IsObject(elem.typ) {
      d := "*" + d;
    }
  }

  /** The keys of an object gathered into a new slice, in no particular order. */
  method CollectKeys(fields: map<string, Attribute>) returns (keys: array<string>)
    ensures fresh(keys)
    ensures multiset(keys[..]) == multiset(fields.Keys)
  {
    keys := new string[|fields|];
    var i := 0;
    var rest := fields.Keys;
    while rest != {}
      invariant 0 <= i <= keys.Length && |rest| == keys.Length - i
      invariant multiset(keys[..i]) + multiset(rest) == multiset(fields.Keys)
      decreases rest
    {
      var n :| n in rest;
      ghost var done := keys[..i];
      TakeOne(rest, n);
      keys[i] := n;
      assert keys[..i + 1] == done + [n];
      i := i + 1;
      rest := rest - {n};
    }
    assert keys[..] == keys[..i];
  }

  /** Taking one name out of the names still to collect. */
  lemma TakeOne(rest: set<string>, n: string)
    requires n in rest
    ensures multiset(rest - {n}) + multiset{n} == multiset(rest)
    ensures |rest - {n}| == |rest| - 1
  {
    assert rest == (rest - {n}) + {n};
  }

  /** The Object case of GoTypeDef: "struct {", the sorted field entries, the closing brace. */
  method WriteStruct(def: Attribute, versioned: bool, defPkg: string, tabs: int, jsonTags: bool) returns (s: string)
    requires AsciiType(def.typ) && def.typ.Object?
    ensures s == TypeDef(def, versioned, defPkg, tabs, jsonTags)
    decreases def.typ, 2
  {
    var buffer := new Buffer();
    buffer.WriteString("struct {\n");
    var keys := SortedFieldNames(def.typ.fields);
    ghost var header := buffer.contents;
    ghost var fields := Fields(def, keys, versioned, defPkg, tabs, jsonTags);
    WriteFields(buffer, def, keys, versioned, defPkg, tabs, jsonTags);
    assert buffer.contents == header + fields;
    WriteTabs(buffer, tabs);
    buffer.WriteString("}");
    s := buffer.contents;
    assert s == header + fields + Tabs(tabs) + "}";
    StructDef(def, versioned, defPkg, tabs, jsonTags);
    assert header == "struct {\n";
    assert keys == SortedKeys(def.typ.fields.Keys);
    assert TypeDef(def, versioned, defPkg, tabs, jsonTags) == header + fields + Tabs(tabs) + "}";
  }

  /** The field names of an object collected into a slice and sorted: the order SortedKeys specifies. */
  method SortedFieldNames(fields: map<string, Attribute>) returns (keys: seq<string>)
    ensures keys == SortedKeys(fields.Keys)
  {
    var a := CollectKeys(fields);
    SortStrings(a);
    SortedUnique(a[..], SortedKeys(fields.Keys));
    keys := a[..];
  }

  /** The field loop of GoTypeDef: writes the entries of the fields named in keys, in order. */
  method WriteFields(buffer: Buffer, def: Attribute, keys: seq<string>, versioned: bool, defPkg: string, tabs: int, jsonTags: bool)
    requires AsciiType(def.typ) && def.typ.Object?
    requires forall n :: n in keys ==> n in def.typ.fields
    modifies buffer
    ensures buffer.contents == old(buffer.contents) + Fields(def, keys, versioned, defPkg, tabs, jsonTags)
    decreases def.typ, 1
  {
    var j := 0;
    while j < |keys|
      invariant 0 <= j <= |keys|
      invariant buffer.contents == old(buffer.contents) + Fields(def, keys[..j], versioned, defPkg, tabs, jsonTags)
    {
      AppendEntry(old(buffer.contents), def, keys, j, versioned, defPkg, tabs, jsonTags);
      WriteField(buffer, def, keys[j], versioned, defPkg, tabs, jsonTags);
      j := j + 1;
    }
    assert keys[..j] == keys;
  }

  /** Text followed by the entries of keys[..j], then by the entry of keys[j]. */
  lemma AppendEntry(text: string, def: Attribute, keys: seq<string>, j: int, versioned: bool, defPkg: string, tabs: int, jsonTags: bool)
    requires AsciiType(def.typ) && def.typ.Object?
    requires forall n :: n in keys ==> n in def.typ.fields
    requires 0 <= j < |keys|
    ensures text + Fields(def, keys[..j + 1], versioned, defPkg, tabs, jsonTags)
      == text + Fields(def, keys[..j], versioned, defPkg, tabs, jsonTags) + FieldEntry(def, keys[j], versioned, defPkg, tabs, jsonTags)
  {
    FieldsPrefixStep(def, keys, j, versioned, defPkg, tabs, jsonTags);
    AppendAssoc(text, Fields(def, keys[..j], versioned, defPkg, tabs, jsonTags), FieldEntry(def, keys[j], versioned, defPkg, tabs, jsonTags));
  }

  /** One iteration of the field loop of GoTypeDef: writes the entry of field name. */
  method WriteField(buffer: Buffer, def: Attribute, name: string, versioned: bool, defPkg: string, tabs: int, jsonTags: bool)
    requires AsciiType(def.typ) && def.typ.Object? && name in def.typ.fields
    modifies buffer
    ensures buffer.contents == old(buffer.contents) + FieldEntry(def, name, versioned, defPkg, tabs, jsonTags)
    decreases def.typ, 0
  {
    ghost var before := buffer.contents;
    WriteTabs(buffer, tabs + 1);
    var field := def.typ.fields[name];
    var typedef := GoTypeDef(field, versioned, defPkg, tabs + 1, jsonTags);
    if IsObject(field.typ) || IsPrimitivePointer(def, name) {
      typedef := "*" + typedef;
    }
    var fname := Goify(name, true);
    var tags := "";
    if jsonTags {
      var omit := "";
      if !IsRequired(def, name) {
        omit := ",omitempty";
      }
      tags := " `json:\"" + name + omit + "\" xml:\"" + name + omit + "\"`";
    }
    var desc := field.description;
    if desc != "" {
      desc := "// " + desc + "\n";
    }
    assert typedef == FieldType(def, name, versioned, defPkg, tabs, jsonTags);
    assert tags == FieldTags(name, IsRequired(def, name), jsonTags);
    assert desc == DescriptionLine(field.description);
    var line := desc + fname + " " + typedef + tags + "\n";
    assert line == FieldLine(def, name, versioned, defPkg, tabs, jsonTags);
    buffer.WriteString(line);
    AppendAssoc(before, Tabs(tabs + 1), line);
  }
}
