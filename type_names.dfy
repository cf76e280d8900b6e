/**
 * The pure renderers of codegen/types.go: the native Go type of a design type,
 * the package qualifier of a user type, the Go type name and type reference of
 * any node, and the Go type definition (the text after `type Foo`).
 */
module TypeNames {
  import opened Design
  import opened StringOrder
  import opened Writer
  import opened Identifiers

  /** The Go built-in type of a primitive kind. */
  function NativeKind(k: Kind): string
  {
    match k
    case BooleanKind => "bool"
    case IntegerKind => "int"
    case NumberKind => "float64"
    case StringKind => "string"
    case DateTimeKind => "time.Time"
    case AnyKind => "interface{}"
  }

  /**
   * GoNativeType: the Go built-in type from which instances of t can be
   * initialized. It never adds indirection.
   */
  function GoNativeType(t: DataType): (r: string)
    ensures |r| > 0
    ensures '*' !in r
  {
    match t
    case Primitive(k) => NativeKind(k)
    case Array(e) => "[]" + GoNativeType(e.typ)
    case Object(_) => "map[string]interface{}"
    case Hash(k, e) => "map[" + GoNativeType(k.typ) + "]" + GoNativeType(e.typ)
    case MediaType(ut) => GoNativeType(ut.def.typ)
    case UserType(ut) => GoNativeType(ut.def.typ)
  }

  /**
   * PackagePrefix: the qualifier needed to reach user type ut, living in
   * package pkg, from a versioned or unversioned package.
   */
  function PackagePrefix(ut: UserTypeDef, versioned: bool, pkg: string): (r: string)
    ensures r == "" || r == pkg + "."
    ensures r != "" <==> versioned && |ut.apiVersions| == 0
  {
    if !versioned then ""
    else if |ut.apiVersions| == 0 then pkg + "."
    else ""
  }

  /** The "*" that makes a nested definition a pointer when its type is an object. */
  function PointerIf(b: bool): string
  {
    if b then "*" else ""
  }

  /** The comment line written before a field that has a description. */
  function DescriptionLine(desc: string): string
  {
    if desc == "" then "" else "// " + desc + "\n"
  }

  /** The json and xml tags of a field; ",omitempty" marks a field that is not required. */
  function FieldTags(name: string, required: bool, jsonTags: bool): string
  {
    if !jsonTags then ""
    else
      var omit := if required then "" else ",omitempty";
      " `json:\"" + name + omit + "\" xml:\"" + name + omit + "\"`"
  }

  /** GoPackageTypeName: the Go type name of t. */
  function GoPackageTypeName(t: DataType, required: seq<string>, versioned: bool, defPkg: string, tabs: int): (r: string)
    requires AsciiType(t)
    ensures |r| > 0
    decreases t, 3, 0
  {
    match t
    case Primitive(_) => GoNativeType(t)
    case Array(e) => "[]" + GoPackageTypeRef(e.typ, AllRequired(e), versioned, defPkg, tabs + 1)
    case Object(_) => TypeDef(InlineAttribute(t, required), versioned, defPkg, tabs, false)
    case Hash(k, e) =>
      "map[" + GoPackageTypeRef(k.typ, AllRequired(k), versioned, defPkg, tabs + 1) + "]"
      + GoPackageTypeRef(e.typ, AllRequired(e), versioned, defPkg, tabs + 1)
    case UserType(ut) => PackagePrefix(ut, versioned, defPkg) + Goified(ut.typeName, true)
    case MediaType(ut) => PackagePrefix(ut, versioned, defPkg) + Goified(ut.typeName, true)
  }

  /**
   * The attribute GoPackageTypeName wraps around an inline object: no
   * description, the required names the caller passes, and the primitive
   * pointers those names leave.
   */
  function InlineAttribute(t: DataType, required: seq<string>): Attribute
    requires t.Object?
  {
    Attribute(t, "", required, InlinePointers(t.fields, required))
  }

  /** GoTypeName: the type name seen from the package that defines the type. */
  function GoTypeName(t: DataType, required: seq<string>, tabs: int): (r: string)
    requires AsciiType(t)
    ensures |r| > 0
    decreases t, 3, 1
  {
    GoPackageTypeName(t, required, false, "", tabs)
  }

  /**
   * GoPackageTypeRef: the Go code that refers to a value of type t. The
   * indirection rule: it is the type name, preceded by "*" exactly when the
   * type is an object (inline, or a user or media type whose definition is an
   * object).
   */
  function GoPackageTypeRef(t: DataType, required: seq<string>, versioned: bool, defPkg: string, tabs: int): (r: string)
    requires AsciiType(t)
    ensures r == (if IsObject(t) then "*" else "") + GoPackageTypeName(t, required, versioned, defPkg, tabs)
    ensures |r| > 0
    decreases t, 4, 0
  {
    match t
    case UserType(_) => PointerIf(IsObject(t)) + GoPackageTypeName(t, required, versioned, defPkg, tabs)
    case MediaType(_) => PointerIf(IsObject(t)) + GoPackageTypeName(t, required, versioned, defPkg, tabs)
    case Object(_) => "*" + GoPackageTypeName(t, required, versioned, defPkg, tabs)
    case _ => GoPackageTypeName(t, required, versioned, defPkg, tabs)
  }

  /** GoTypeRef: the reference seen from the package that defines the type. */
  function GoTypeRef(t: DataType, required: seq<string>, tabs: int): (r: string)
    requires AsciiType(t)
    ensures r == (if IsObject(t) then "*" else "") + GoTypeName(t, required, tabs)
  {
    GoPackageTypeRef(t, required, false, "", tabs)
  }

  /** GoTypeDef: the Go definition of the data structure whose definition is def. */
  function TypeDef(def: Attribute, versioned: bool, defPkg: string, tabs: int, jsonTags: bool): (r: string)
    requires AsciiType(def.typ)
    ensures |r| > 0
    decreases def.typ, if def.typ.Object? then 2 else 4, 0
  {
    match def.typ
    case Primitive(_) => GoTypeName(def.typ, [], tabs)
    case Array(e) => "[]" + (PointerIf(IsObject(e.typ)) + TypeDef(e, versioned, defPkg, tabs, jsonTags))
    case Hash(k, e) =>
      "map[" + (PointerIf(IsObject(k.typ)) + TypeDef(k, versioned, defPkg, tabs, jsonTags)) + "]"
      + (PointerIf(IsObject(e.typ)) + TypeDef(e, versioned, defPkg, tabs, jsonTags))
    case Object(fields) =>
      "struct {\n" + Fields(def, SortedKeys(fields.Keys), versioned, defPkg, tabs, jsonTags) + Tabs(tabs) + "}"
    case UserType(ut) => GoPackageTypeName(def.typ, AllRequired(ut.def), versioned, defPkg, tabs)
    case MediaType(ut) => GoPackageTypeName(def.typ, AllRequired(ut.def), versioned, defPkg, tabs)
  }

  /** The entries of the object def for the field names in keys, in that order. */
  function Fields(def: Attribute, keys: seq<string>, versioned: bool, defPkg: string, tabs: int, jsonTags: bool): string
    requires AsciiType(def.typ) && def.typ.Object?
    requires forall n :: n in keys ==> n in def.typ.fields
    decreases def.typ, 1, |keys|
  {
    if keys == [] then ""
    else
      Fields(def, keys[..|keys| - 1], versioned, defPkg, tabs, jsonTags)
      + FieldEntry(def, keys[|keys| - 1], versioned, defPkg, tabs, jsonTags)
  }

  /** The entry of field name in the object def: its indentation, then its line. */
  function FieldEntry(def: Attribute, name: string, versioned: bool, defPkg: string, tabs: int, jsonTags: bool): string
    requires AsciiType(def.typ) && def.typ.Object? && name in def.typ.fields
    decreases def.typ, 0, 2
  {
    Tabs(tabs + 1) + FieldLine(def, name, versioned, defPkg, tabs, jsonTags)
  }

  /** The text after the indentation: optional comment line, Go field name, type, tags. */
  function FieldLine(def: Attribute, name: string, versioned: bool, defPkg: string, tabs: int, jsonTags: bool): string
    requires AsciiType(def.typ) && def.typ.Object? && name in def.typ.fields
    decreases def.typ, 0, 1
  {
    DescriptionLine(def.typ.fields[name].description) + Goified(name, true) + " "
    + FieldType(def, name, versioned, defPkg, tabs, jsonTags)
    + FieldTags(name, IsRequired(def, name), jsonTags) + "\n"
  }

  /** The type written for field name of the object def, one level deeper than the object. */
  function FieldType(def: Attribute, name: string, versioned: bool, defPkg: string, tabs: int, jsonTags: bool): string
    requires AsciiType(def.typ) && def.typ.Object? && name in def.typ.fields
    decreases def.typ, 0, 0
  {
    var field := def.typ.fields[name];
    PointerIf(IsObject(field.typ) || IsPrimitivePointer(def, name)) + TypeDef(field, versioned, defPkg, tabs + 1, jsonTags)
  }

  /**
   * The default package named by a qualifier cannot itself start with '*'
   * (it is a Go package name); unversioned references use no qualifier at all.
   */
  predicate QualifierNotPointer(versioned: bool, defPkg: string)
  {
    !versioned || |defPkg| == 0 || defPkg[0] != '*'
  }

  /**
   * A user or media type is named by its Goified name, qualified with the
   * default package exactly when it is referenced from a versioned package and
   * carries no API versions of its own.
   */
  lemma NamedTypeName(t: DataType, required: seq<string>, versioned: bool, defPkg: string, tabs: int)
    requires (t.UserType? || t.MediaType?) && AsciiType(t)
    ensures versioned && |t.ut.apiVersions| == 0 ==>
      GoPackageTypeName(t, required, versioned, defPkg, tabs) == defPkg + "." + Goified(t.ut.typeName, true)
    ensures !(versioned && |t.ut.apiVersions| == 0) ==>
      GoPackageTypeName(t, required, versioned, defPkg, tabs) == Goified(t.ut.typeName, true)
  {
  }

  /** Seen from its own package, a user or media type is named by its Goified name alone. */
  lemma TypeNameUnqualified(t: DataType, required: seq<string>, tabs: int)
    requires (t.UserType? || t.MediaType?) && AsciiType(t)
    ensures GoTypeName(t, required, tabs) == Goified(t.ut.typeName, true)
  {
    NamedTypeName(t, required, false, "", tabs);
  }

  /** A type name is never empty and never starts with the pointer marker. */
  lemma NameNotPointer(t: DataType, required: seq<string>, versioned: bool, defPkg: string, tabs: int)
    requires AsciiType(t) && QualifierNotPointer(versioned, defPkg)
    ensures |GoPackageTypeName(t, required, versioned, defPkg, tabs)| > 0
    ensures GoPackageTypeName(t, required, versioned, defPkg, tabs)[0] != '*'
  {
    var r := GoPackageTypeName(t, required, versioned, defPkg, tabs);
    match t
    case Primitive(_) =>
      assert r == GoNativeType(t);
      assert r[0] in r;
    case Array(_) =>
    case Hash(_, _) =>
    case Object(_) =>
    case UserType(ut) =>
      var g := Goified(ut.typeName, true);
      assert IsIdentChar(g[0]);
    case MediaType(ut) =>
      var g := Goified(ut.typeName, true);
      assert IsIdentChar(g[0]);
  }

  /** A type definition is never empty and never starts with the pointer marker. */
  lemma TypeDefNotPointer(def: Attribute, versioned: bool, defPkg: string, tabs: int, jsonTags: bool)
    requires AsciiType(def.typ) && QualifierNotPointer(versioned, defPkg)
    ensures |TypeDef(def, versioned, defPkg, tabs, jsonTags)| > 0
    ensures TypeDef(def, versioned, defPkg, tabs, jsonTags)[0] != '*'
  {
    match def.typ
    case Primitive(_) => NameNotPointer(def.typ, [], false, "", tabs);
    case Array(_) =>
    case Hash(_, _) =>
    case Object(_) =>
    case UserType(ut) => NameNotPointer(def.typ, AllRequired(ut.def), versioned, defPkg, tabs);
    case MediaType(ut) => NameNotPointer(def.typ, AllRequired(ut.def), versioned, defPkg, tabs);
  }

  /**
   * A reference starts with "*" exactly when the type is an object: the name
   * after the optional "*" never starts with one.
   */
  lemma TypeRefIndirection(t: DataType, required: seq<string>, versioned: bool, defPkg: string, tabs: int)
    requires AsciiType(t) && QualifierNotPointer(versioned, defPkg)
    ensures GoPackageTypeRef(t, required, versioned, defPkg, tabs)[0] == '*' <==> IsObject(t)
  {
    NameNotPointer(t, required, versioned, defPkg, tabs);
  }

  /** Seen from its own package, a reference starts with "*" exactly for object types. */
  lemma TypeRefUnqualified(t: DataType, required: seq<string>, tabs: int)
    requires AsciiType(t)
    ensures |GoTypeRef(t, required, tabs)| > 0
    ensures GoTypeRef(t, required, tabs)[0] == '*' <==> IsObject(t)
  {
    TypeRefIndirection(t, required, false, "", tabs);
  }

  /** The fields of an object, listed in sort.Strings order, each exactly once. */
  lemma StructFieldOrder(def: Attribute, versioned: bool, defPkg: string, tabs: int, jsonTags: bool)
    requires AsciiType(def.typ) && def.typ.Object?
    ensures exists keys: seq<string> ::
      && Sorted(keys)
      && multiset(keys) == multiset(def.typ.fields.Keys)
      && (forall n :: n in keys ==> n in def.typ.fields)
      && TypeDef(def, versioned, defPkg, tabs, jsonTags)
         == "struct {\n" + Fields(def, keys, versioned, defPkg, tabs, jsonTags) + Tabs(tabs) + "}"
  {
    var keys := SortedKeys(def.typ.fields.Keys);
    assert TypeDef(def, versioned, defPkg, tabs, jsonTags)
      == "struct {\n" + Fields(def, keys, versioned, defPkg, tabs, jsonTags) + Tabs(tabs) + "}";
  }

  /** The Object case of TypeDef, unfolded. */
  lemma StructDef(def: Attribute, versioned: bool, defPkg: string, tabs: int, jsonTags: bool)
    requires AsciiType(def.typ) && def.typ.Object?
    ensures TypeDef(def, versioned, defPkg, tabs, jsonTags)
      == "struct {\n" + Fields(def, SortedKeys(def.typ.fields.Keys), versioned, defPkg, tabs, jsonTags) + Tabs(tabs) + "}"
  {
  }

  /** The entries for keys followed by one more name. */
  lemma FieldsSnoc(def: Attribute, keys: seq<string>, name: string, versioned: bool, defPkg: string, tabs: int, jsonTags: bool)
    requires AsciiType(def.typ) && def.typ.Object?
    requires forall n :: n in keys ==> n in def.typ.fields
    requires name in def.typ.fields
    ensures Fields(def, keys + [name], versioned, defPkg, tabs, jsonTags)
      == Fields(def, keys, versioned, defPkg, tabs, jsonTags) + FieldEntry(def, name, versioned, defPkg, tabs, jsonTags)
  {
    assert (keys + [name])[..|keys|] == keys;
  }

  /** The entries for one more key of keys. */
  lemma FieldsPrefixStep(def: Attribute, keys: seq<string>, j: int, versioned: bool, defPkg: string, tabs: int, jsonTags: bool)
    requires AsciiType(def.typ) && def.typ.Object?
    requires forall n :: n in keys ==> n in def.typ.fields
    requires 0 <= j < |keys|
    ensures Fields(def, keys[..j + 1], versioned, defPkg, tabs, jsonTags)
      == Fields(def, keys[..j], versioned, defPkg, tabs, jsonTags) + FieldEntry(def, keys[j], versioned, defPkg, tabs, jsonTags)
  {
    assert keys[..j + 1][..j] == keys[..j];
  }

  /** Every field entry ends its line. */
  lemma FieldsEndLine(def: Attribute, keys: seq<string>, versioned: bool, defPkg: string, tabs: int, jsonTags: bool)
    requires AsciiType(def.typ) && def.typ.Object?
    requires forall n :: n in keys ==> n in def.typ.fields
    requires keys != []
    ensures var f := Fields(def, keys, versioned, defPkg, tabs, jsonTags); |f| > 0 && f[|f| - 1] == '\n'
  {
    var last := keys[|keys| - 1];
    var l := FieldLine(def, last, versioned, defPkg, tabs, jsonTags);
    var e := FieldEntry(def, last, versioned, defPkg, tabs, jsonTags);
    var f := Fields(def, keys, versioned, defPkg, tabs, jsonTags);
    var body := DescriptionLine(def.typ.fields[last].description) + Goified(last, true) + " "
      + FieldType(def, last, versioned, defPkg, tabs, jsonTags)
      + FieldTags(last, IsRequired(def, last), jsonTags);
    assert l == body + "\n";
    assert e == Tabs(tabs + 1) + l;
    assert f == Fields(def, keys[..|keys| - 1], versioned, defPkg, tabs, jsonTags) + e;
    assert f[|f| - 1] == e[|e| - 1] == l[|l| - 1];
  }

  /**
   * The definition of an object opens with an unindented "struct {" line and
   * closes with exactly tabs tab characters and "}": the character before them
   * is the end of the "struct {" line or of the last field entry.
   */
  lemma StructBrackets(def: Attribute, versioned: bool, defPkg: string, tabs: int, jsonTags: bool)
    requires AsciiType(def.typ) && def.typ.Object? && tabs >= 0
    ensures var r := TypeDef(def, versioned, defPkg, tabs, jsonTags);
      && |r| >= 10 + tabs
      && r[..9] == "struct {\n"
      && r[|r| - tabs - 1..] == Tabs(tabs) + "}"
      && r[|r| - tabs - 2] == '\n'
  {
    var keys := SortedKeys(def.typ.fields.Keys);
    var f := Fields(def, keys, versioned, defPkg, tabs, jsonTags);
    StructDef(def, versioned, defPkg, tabs, jsonTags);
    BracketLayout(f, Tabs(tabs));
    if keys != [] {
      FieldsEndLine(def, keys, versioned, defPkg, tabs, jsonTags);
    }
  }

  /** Where the brackets and the last field character sit in "struct {\n" + f + t + "}". */
  lemma BracketLayout(f: string, t: string)
    ensures var r := "struct {\n" + f + t + "}";
      && |r| == 10 + |f| + |t|
      && r[..9] == "struct {\n"
      && r[|r| - |t| - 1..] == t + "}"
      && r[|r| - |t| - 2] == (if f == [] then '\n' else f[|f| - 1])
  {
    var head := "struct {\n" + f;
    var r := head + t + "}";
    assert r[..9] == head[..9];
    assert r[|r| - |t| - 2] == head[|head| - 1];
  }

  /**
   * Each field entry is indented by exactly tabs + 1 tab characters, which
   * precede the description comment when there is one and the field name
   * otherwise.
   */
  lemma FieldIndent(def: Attribute, name: string, versioned: bool, defPkg: string, tabs: int, jsonTags: bool)
    requires AsciiType(def.typ) && def.typ.Object? && name in def.typ.fields && tabs >= 0
    ensures var e := FieldEntry(def, name, versioned, defPkg, tabs, jsonTags);
      && |e| > tabs + 1
      && e[..tabs + 1] == Tabs(tabs + 1)
      && e[tabs + 1] != '\t'
      && (def.typ.fields[name].description != "" ==> |e| >= tabs + 4 && e[tabs + 1..tabs + 4] == "// ")
      && (def.typ.fields[name].description == "" ==> e[tabs + 1] == Goified(name, true)[0])
  {
    var l := FieldLine(def, name, versioned, defPkg, tabs, jsonTags);
    var e := FieldEntry(def, name, versioned, defPkg, tabs, jsonTags);
    LineStart(def, name, versioned, defPkg, tabs, jsonTags);
    assert e == Tabs(tabs + 1) + l;
    assert e[..tabs + 1] == Tabs(tabs + 1);
    assert e[tabs + 1..] == l;
  }

  /** A field line starts with its description comment, or else with its Go field name. */
  lemma LineStart(def: Attribute, name: string, versioned: bool, defPkg: string, tabs: int, jsonTags: bool)
    requires AsciiType(def.typ) && def.typ.Object? && name in def.typ.fields
    ensures var l := FieldLine(def, name, versioned, defPkg, tabs, jsonTags);
      && |l| > 0 && l[0] != '\t'
      && (def.typ.fields[name].description != "" ==> |l| >= 3 && l[..3] == "// ")
      && (def.typ.fields[name].description == "" ==> l[0] == Goified(name, true)[0])
  {
    var desc := def.typ.fields[name].description;
    var g := Goified(name, true);
    var head := DescriptionLine(desc) + g;
    var l := FieldLine(def, name, versioned, defPkg, tabs, jsonTags);
    assert l == head + " " + FieldType(def, name, versioned, defPkg, tabs, jsonTags)
      + FieldTags(name, IsRequired(def, name), jsonTags) + "\n";
    assert IsIdentChar(g[0]);
    assert l[0] == head[0];
    if desc != "" {
      assert l[1] == head[1] && l[2] == head[2];
    }
  }

  /**
   * Without jsonTags a field has no tag. With them, the json and the xml tag
   * both carry the field's original name, each followed by ",omitempty"
   * exactly when the field is not required: the character after each copy of
   * the name is ',' for an optional field and the closing quote otherwise.
   */
  lemma TagLayout(name: string, required: bool, jsonTags: bool)
    ensures !jsonTags ==> FieldTags(name, required, jsonTags) == ""
    ensures jsonTags ==>
      var r := FieldTags(name, required, jsonTags);
      var n := |name|;
      var o := if required then 0 else 10;
      && |r| == 17 + 2 * n + 2 * o
      && r[..8] == " `json:\""
      && r[8..8 + n] == name
      && (r[8 + n] == ',' <==> !required)
      && r[8 + n + o..15 + n + o] == "\" xml:\""
      && r[15 + n + o..15 + 2 * n + o] == name
      && (r[15 + 2 * n + o] == ',' <==> !required)
      && r[15 + 2 * n + 2 * o..] == "\"`"
  {
    if jsonTags {
      var omit := if required then "" else ",omitempty";
      var r := FieldTags(name, required, jsonTags);
      var n := |name|;
      var o := |omit|;
      var a := " `json:\"" + name;
      var b := a + omit + "\" xml:\"";
      var c := b + name;
      var d := c + omit;
      assert r == d + "\"`";
      assert r[..8] == a[..8];
      assert r[8..8 + n] == a[8..];
      assert r[8 + n] == (omit + "\" xml:\"")[0];
      assert r[8 + n + o..15 + n + o] == b[8 + n + o..];
      assert r[15 + n + o..15 + 2 * n + o] == c[15 + n + o..];
      assert r[15 + 2 * n + o] == (omit + "\"`")[0];
    }
  }

  /**
   * A field's type is written with "*" exactly when the field type is an
   * object or the field is a primitive pointer.
   */
  lemma FieldPointer(def: Attribute, name: string, versioned: bool, defPkg: string, tabs: int, jsonTags: bool)
    requires AsciiType(def.typ) && def.typ.Object? && name in def.typ.fields
    requires QualifierNotPointer(versioned, defPkg)
    ensures var ft := FieldType(def, name, versioned, defPkg, tabs, jsonTags);
      |ft| > 0 && (ft[0] == '*' <==> IsObject(def.typ.fields[name].typ) || IsPrimitivePointer(def, name))
  {
    TypeDefNotPointer(def.typ.fields[name], versioned, defPkg, tabs + 1, jsonTags);
  }

  /**
   * The elements of an array are defined at the same indentation as the array,
   * as pointers exactly when they are objects.
   */
  lemma ArrayPointer(def: Attribute, versioned: bool, defPkg: string, tabs: int, jsonTags: bool)
    requires AsciiType(def.typ) && def.typ.Array? && QualifierNotPointer(versioned, defPkg)
    ensures TypeDef(def, versioned, defPkg, tabs, jsonTags)
      == "[]" + (if IsObject(def.typ.elem.typ) then "*" else "") + TypeDef(def.typ.elem, versioned, defPkg, tabs, jsonTags)
    ensures var r := TypeDef(def, versioned, defPkg, tabs, jsonTags);
      |r| > 2 && (r[2] == '*' <==> IsObject(def.typ.elem.typ))
  {
    var e := def.typ.elem;
    var d := PointerIf(IsObject(e.typ)) + TypeDef(e, versioned, defPkg, tabs, jsonTags);
    PointedDef(e, versioned, defPkg, tabs, jsonTags);
    assert ("[]" + d)[2] == d[0];
    AppendAssoc("[]", PointerIf(IsObject(e.typ)), TypeDef(e, versioned, defPkg, tabs, jsonTags));
  }

  /**
   * An element, key or field type written after its pointer marker: it starts
   * with '*' exactly when it is an object.
   */
  lemma PointedDef(e: Attribute, versioned: bool, defPkg: string, tabs: int, jsonTags: bool)
    requires AsciiType(e.typ) && QualifierNotPointer(versioned, defPkg)
    ensures var d := PointerIf(IsObject(e.typ)) + TypeDef(e, versioned, defPkg, tabs, jsonTags);
      |d| > 0 && (d[0] == '*' <==> IsObject(e.typ))
  {
    TypeDefNotPointer(e, versioned, defPkg, tabs, jsonTags);
  }

  lemma AppendAssoc(a: string, b: string, c: string)
    ensures (a + b) + c == a + (b + c)
  {
  }

  /**
   * The keys and the elements of a hash are defined at the same indentation
   * as the hash, each as a pointer exactly when it is an object.
   */
  lemma HashPointers(def: Attribute, versioned: bool, defPkg: string, tabs: int, jsonTags: bool)
    requires AsciiType(def.typ) && def.typ.Hash? && QualifierNotPointer(versioned, defPkg)
    ensures var k := PointerIf(IsObject(def.typ.key.typ)) + TypeDef(def.typ.key, versioned, defPkg, tabs, jsonTags);
      var e := PointerIf(IsObject(def.typ.elem.typ)) + TypeDef(def.typ.elem, versioned, defPkg, tabs, jsonTags);
      && TypeDef(def, versioned, defPkg, tabs, jsonTags) == "map[" + k + "]" + e
      && |k| > 0 && (k[0] == '*' <==> IsObject(def.typ.key.typ))
      && |e| > 0 && (e[0] == '*' <==> IsObject(def.typ.elem.typ))
  {
    PointedDef(def.typ.key, versioned, defPkg, tabs, jsonTags);
    PointedDef(def.typ.elem, versioned, defPkg, tabs, jsonTags);
  }

  /** Where the key and the element sit in "map[K]V". */
  lemma MapLayout(kd: string, ed: string)
    requires |kd| > 0 && |ed| > 0
    ensures var r := "map[" + kd + "]" + ed;
      && |r| > 5 + |kd|
      && r[..4] == "map[" && r[4..4 + |kd|] == kd && r[4 + |kd|] == ']'
      && r[4] == kd[0] && r[5 + |kd|] == ed[0]
  {
    var head := "map[" + kd;
    var r := head + "]" + ed;
    assert r[..4] == head[..4];
    assert r[4..4 + |kd|] == head[4..];
  }

  /**
   * In a hash definition "map[K]V", the character right after "map[" is "*"
   * exactly when the key is an object, and the character right after the "]"
   * closing the key is "*" exactly when the element is an object.
   */
  lemma HashStars(def: Attribute, versioned: bool, defPkg: string, tabs: int, jsonTags: bool)
    requires AsciiType(def.typ) && def.typ.Hash? && QualifierNotPointer(versioned, defPkg)
    ensures var r := TypeDef(def, versioned, defPkg, tabs, jsonTags);
      var k := PointerIf(IsObject(def.typ.key.typ)) + TypeDef(def.typ.key, versioned, defPkg, tabs, jsonTags);
      && |r| > 5 + |k| && r[..4] == "map[" && r[4 + |k|] == ']'
      && (r[4] == '*' <==> IsObject(def.typ.key.typ))
      && (r[5 + |k|] == '*' <==> IsObject(def.typ.elem.typ))
  {
    var k := PointerIf(IsObject(def.typ.key.typ)) + TypeDef(def.typ.key, versioned, defPkg, tabs, jsonTags);
    var e := PointerIf(IsObject(def.typ.elem.typ)) + TypeDef(def.typ.elem, versioned, defPkg, tabs, jsonTags);
    HashPointers(def, versioned, defPkg, tabs, jsonTags);
    MapLayout(k, e);
  }

  /**
   * The name of an inline object is its definition without tags, and the
   * required names passed along decide which of its fields are pointers: a
   * field is written as a pointer exactly when it is an object, or a primitive
   * other than Any that the required names do not list.
   */
  lemma InlineFieldPointer(t: DataType, required: seq<string>, n: string, versioned: bool, defPkg: string, tabs: int)
    requires AsciiType(t) && t.Object? && n in t.fields && QualifierNotPointer(versioned, defPkg)
    ensures GoPackageTypeName(t, required, versioned, defPkg, tabs)
      == TypeDef(InlineAttribute(t, required), versioned, defPkg, tabs, false)
    ensures var ft := FieldType(InlineAttribute(t, required), n, versioned, defPkg, tabs, false);
      var f := t.fields[n].typ;
      |ft| > 0 && (ft[0] == '*' <==> IsObject(f) || (f.Primitive? && f.kind != AnyKind && n !in required))
  {
    FieldPointer(InlineAttribute(t, required), n, versioned, defPkg, tabs, false);
  }
}
