/**
 * Worked definitions: an object with a required integer field "id" and an
 * optional boolean field "ok", rendered with json tags from the default package
 * at indentation 0; an inline object whose pointers follow the required names
 * passed in; and a field with a description, at indentation 1.
 */
module Scenario {
  import opened Design
  import opened StringOrder
  import opened Writer
  import opened Identifiers
  import opened TypeNames

  const IdField: Attribute := Attribute(Primitive(IntegerKind), "", [], {})
  const OkField: Attribute := Attribute(Primitive(BooleanKind), "", [], {})

  /**
   * The object {"id": integer, "ok": boolean} whose required
   * validation lists "id" and which has no primitive pointers; its own
   * description does not matter.
   */
  predicate IsExample(def: Attribute)
  {
    && def.typ == Object(map["id" := IdField, "ok" := OkField])
    && def.required == ["id"]
    && def.pointers == {}
  }

  /** The example's field names are ASCII, as the renderer requires. */
  lemma ExampleAscii(def: Attribute)
    requires IsExample(def)
    ensures AsciiType(def.typ)
  {
    forall n | n in def.typ.fields
      ensures IsAscii(n) && AsciiType(def.typ.fields[n].typ)
    {
      assert n == "id" || n == "ok";
    }
  }

  /** The fields are listed "id" first, then "ok". */
  lemma ExampleOrder(def: Attribute)
    requires IsExample(def)
    ensures SortedKeys(def.typ.fields.Keys) == ["id", "ok"]
  {
    assert def.typ.fields.Keys == {"id", "ok"};
    assert Le("id", "ok");
    PairOrder("id", "ok");
  }

  /** The type of the required integer field: no pointer. */
  lemma IdType(def: Attribute)
    requires IsExample(def)
    ensures FieldType(def, "id", false, "", 0, true) == "int"
  {
    ExampleAscii(def);
    assert def.typ.fields["id"] == IdField;
    assert !IsObject(IdField.typ) && !IsPrimitivePointer(def, "id");
    assert TypeDef(IdField, false, "", 1, true) == GoTypeName(Primitive(IntegerKind), [], 1);
    assert GoTypeName(Primitive(IntegerKind), [], 1) == "int";
  }

  /** The tags of the required field: no ",omitempty". */
  lemma IdTags()
    ensures FieldTags("id", true, true) == " `json:\"id\" xml:\"id\"`"
  {
  }

  /** The line of the required integer field after its indentation. */
  lemma IdLine(def: Attribute)
    requires IsExample(def)
    ensures FieldLine(def, "id", false, "", 0, true) == "ID int" + FieldTags("id", true, true) + "\n"
  {
    ExampleAscii(def);
    IdType(def);
    assert IsRequired(def, "id");
    assert def.typ.fields["id"].description == "";
    assert FieldLine(def, "id", false, "", 0, true)
      == DescriptionLine("") + Goified("id", true) + " " + FieldType(def, "id", false, "", 0, true)
        + FieldTags("id", true, true) + "\n";
    assert "" + "ID" + " " + "int" == "ID int";
  }

  /** The type of the optional boolean field: no pointer. */
  lemma OkType(def: Attribute)
    requires IsExample(def)
    ensures FieldType(def, "ok", false, "", 0, true) == "bool"
  {
    ExampleAscii(def);
    assert def.typ.fields["ok"] == OkField;
    assert !IsObject(OkField.typ) && !IsPrimitivePointer(def, "ok");
    assert TypeDef(OkField, false, "", 1, true) == GoTypeName(Primitive(BooleanKind), [], 1);
    assert GoTypeName(Primitive(BooleanKind), [], 1) == "bool";
  }

  /** The tags of the optional field: ",omitempty" in both. */
  lemma OkTags()
    ensures FieldTags("ok", false, true) == " `json:\"" + "ok,omitempty" + "\" xml:\"" + "ok,omitempty" + "\"`"
  {
  }

  /** The line of the optional boolean field after its indentation. */
  lemma OkLine(def: Attribute)
    requires IsExample(def)
    ensures FieldLine(def, "ok", false, "", 0, true) == "OK bool" + FieldTags("ok", false, true) + "\n"
  {
    ExampleAscii(def);
    OkType(def);
    assert !IsRequired(def, "ok");
    assert def.typ.fields["ok"].description == "";
    assert FieldLine(def, "ok", false, "", 0, true)
      == DescriptionLine("") + Goified("ok", true) + " " + FieldType(def, "ok", false, "", 0, true)
        + FieldTags("ok", false, true) + "\n";
    assert "" + "OK" + " " + "bool" == "OK bool";
  }

  /** The field entries in sorted order: "id", then "ok". */
  lemma ExampleFields(def: Attribute)
    requires IsExample(def)
    ensures Fields(def, ["id", "ok"], false, "", 0, true)
      == FieldEntry(def, "id", false, "", 0, true) + FieldEntry(def, "ok", false, "", 0, true)
  {
    ExampleAscii(def);
    var empty := Fields(def, [], false, "", 0, true);
    var id := FieldEntry(def, "id", false, "", 0, true);
    assert empty == "";
    FieldsSnoc(def, [], "id", false, "", 0, true);
    assert [] + ["id"] == ["id"];
    assert Fields(def, ["id"], false, "", 0, true) == empty + id;
    assert empty + id == id;
    FieldsSnoc(def, ["id"], "ok", false, "", 0, true);
    assert ["id"] + ["ok"] == ["id", "ok"];
  }

  /**
   * The whole definition: "id" before "ok", each indented by one tab, with
   * the tags IdTags and OkTags spell out.
   */
  lemma ExampleDefinition(def: Attribute)
    requires IsExample(def)
    ensures TypeDef(def, false, "", 0, true)
      == "struct {\n"
      + ("\t" + ("ID int" + FieldTags("id", true, true) + "\n")
        + ("\t" + ("OK bool" + FieldTags("ok", false, true) + "\n")))
      + "}"
  {
    ExampleAscii(def);
    ExampleOrder(def);
    StructDef(def, false, "", 0, true);
    ExampleFields(def);
    IdLine(def);
    OkLine(def);
    var fields := Fields(def, ["id", "ok"], false, "", 0, true);
    assert Tabs(0) == "" && Tabs(1) == "\t";
    assert fields
      == "\t" + FieldLine(def, "id", false, "", 0, true) + ("\t" + FieldLine(def, "ok", false, "", 0, true));
    assert "struct {\n" + fields + "" == "struct {\n" + fields;
  }

  /** A one-key map lists its only key. */
  lemma SingleKey(k: string)
    ensures SortedKeys({k}) == [k]
  {
    assert Sorted([k]);
    assert multiset([k]) == multiset{k};
    SortedUnique(SortedKeys({k}), [k]);
  }

  /** The inline object {"id": integer}, referred to by name. */
  const InlineId: DataType := Object(map["id" := IdField])

  /** The inline object's field names are ASCII. */
  lemma InlineAscii()
    ensures AsciiType(InlineId)
  {
    assert forall n :: n in InlineId.fields ==> n == "id";
  }

  /** The only entry of InlineId: one tab, then its line. */
  lemma InlineFields(required: seq<string>)
    ensures AsciiType(InlineId) && Fields(InlineAttribute(InlineId, required), SortedKeys(InlineId.fields.Keys), false, "", 0, false)
      == "\t" + FieldLine(InlineAttribute(InlineId, required), "id", false, "", 0, false)
  {
    var att := InlineAttribute(InlineId, required);
    assert InlineId.fields.Keys == {"id"};
    SingleKey("id");
    assert ["id"][..0] == [];
    assert Fields(att, ["id"], false, "", 0, false) == "" + FieldEntry(att, "id", false, "", 0, false);
    assert Tabs(1) == "\t";
  }

  /** The line of InlineId's field for a field type written as ty. */
  lemma InlineLine(required: seq<string>, ty: string)
    requires AsciiType(InlineId) && FieldType(InlineAttribute(InlineId, required), "id", false, "", 0, false) == ty
    ensures AsciiType(InlineId) && FieldLine(InlineAttribute(InlineId, required), "id", false, "", 0, false) == "ID " + ty + "\n"
  {
    var att := InlineAttribute(InlineId, required);
    assert att.typ.fields["id"].description == "";
    assert FieldLine(att, "id", false, "", 0, false) == "" + "ID" + " " + ty + "" + "\n";
  }

  /** The struct text of InlineId for a field type written as ty. */
  lemma InlineText(required: seq<string>, ty: string)
    requires AsciiType(InlineId) && FieldType(InlineAttribute(InlineId, required), "id", false, "", 0, false) == ty
    ensures AsciiType(InlineId) && GoTypeName(InlineId, required, 0) == "struct {\n" + ("\t" + ("ID " + ty + "\n")) + "}"
  {
    InlineAscii();
    var att := InlineAttribute(InlineId, required);
    InlineFields(required);
    InlineLine(required, ty);
    StructDef(att, false, "", 0, false);
    assert Tabs(0) == "";
    assert GoTypeName(InlineId, required, 0) == TypeDef(att, false, "", 0, false);
  }

  /**
   * The required names decide the pointers of an inline object: listed as
   * required, the integer field "id" is a plain int; otherwise it is *int.
   */
  lemma InlineRequiredExample()
    ensures GoTypeName(InlineId, ["id"], 0) == "struct {\n" + ("\t" + ("ID " + "int" + "\n")) + "}"
    ensures GoTypeName(InlineId, [], 0) == "struct {\n" + ("\t" + ("ID " + "*int" + "\n")) + "}"
  {
    InlineAscii();
    var req := InlineAttribute(InlineId, ["id"]);
    var opt := InlineAttribute(InlineId, []);
    assert "id" !in req.pointers && "id" in opt.pointers;
    assert TypeDef(IdField, false, "", 1, false) == "int";
    assert FieldType(req, "id", false, "", 0, false) == "" + "int";
    assert FieldType(opt, "id", false, "", 0, false) == "*" + "int";
    InlineText(["id"], "int");
    InlineText([], "*int");
  }

  /** An object nested one level deep whose only field, "ok", has the description "d". */
  const Described: Attribute :=
    Attribute(Object(map["ok" := Attribute(Primitive(BooleanKind), "d", [], {})]), "", ["ok"], {})

  lemma DescribedAscii()
    ensures AsciiType(Described.typ)
  {
    assert forall n :: n in Described.typ.fields ==> n == "ok";
  }

  /** The entry of the described field: the comment is indented, the field line after it is not. */
  lemma DescribedEntry()
    ensures AsciiType(Described.typ)
      && FieldEntry(Described, "ok", false, "", 1, false) == "\t\t" + ("// d\n" + "OK bool\n")
  {
    DescribedAscii();
    var field := Described.typ.fields["ok"];
    assert field.description == "d";
    assert !IsPrimitivePointer(Described, "ok");
    assert TypeDef(field, false, "", 2, false) == "bool";
    assert FieldType(Described, "ok", false, "", 1, false) == "" + "bool";
    assert FieldLine(Described, "ok", false, "", 1, false) == "// d\n" + "OK" + " " + "bool" + "" + "\n";
    assert Tabs(2) == "\t\t";
  }

  /**
   * GoTypeDef's documentation says every line but the first is indented by
   * tabs; after a description comment the field line is written with no
   * indentation at all.
   */
  lemma DescriptionIndentExample()
    ensures AsciiType(Described.typ)
      && TypeDef(Described, false, "", 1, false) == "struct {\n" + ("\t\t" + ("// d\n" + "OK bool\n")) + "\t" + "}"
  {
    DescribedAscii();
    DescribedEntry();
    DescribedFields();
    StructDef(Described, false, "", 1, false);
    var e := FieldEntry(Described, "ok", false, "", 1, false);
    assert TypeDef(Described, false, "", 1, false) == "struct {\n" + e + Tabs(1) + "}";
    assert Tabs(1) == "\t";
  }

  /** The entries of the described object: just the one of "ok". */
  lemma DescribedFields()
    ensures AsciiType(Described.typ)
      && Fields(Described, SortedKeys(Described.typ.fields.Keys), false, "", 1, false)
         == FieldEntry(Described, "ok", false, "", 1, false)
  {
    DescribedAscii();
    assert Described.typ.fields.Keys == {"ok"};
    SingleKey("ok");
    assert ["ok"][..0] == [];
    assert Fields(Described, ["ok"], false, "", 1, false) == "" + FieldEntry(Described, "ok", false, "", 1, false);
  }
}
