/**
 * The design type tree that the code generator renders. It is built by the
 * design DSL (not part of this model) and is immutable while types are rendered.
 */
module Design {

  /** The primitive kinds of the design language. */
  datatype Kind = BooleanKind | IntegerKind | NumberKind | StringKind | DateTimeKind | AnyKind

  /** A data type: the closed set of node kinds the renderer switches over. */
  datatype DataType =
    | Primitive(kind: Kind)
    | Array(elem: Attribute)
    | Hash(key: Attribute, elem: Attribute)
    | Object(fields: map<string, Attribute>)
    | UserType(ut: UserTypeDef)
    | MediaType(ut: UserTypeDef)

  /** A named user type; a media type embeds one. */
  datatype UserTypeDef = UserTypeDef(typeName: string, apiVersions: seq<string>, def: Attribute)

  /**
   * An attribute definition: its type, its description, the names listed by its
   * "required" validation, and the names of its object fields that the design
   * package reports as primitive pointers.
   */
  datatype Attribute = Attribute(typ: DataType, description: string, required: seq<string>, pointers: set<string>)

  /** IsObject: an inline object, or a named type whose definition is an object. */
  predicate IsObject(t: DataType)
  {
    match t
    case Object(_) => true
    case UserType(ut) => IsObject(ut.def.typ)
    case MediaType(ut) => IsObject(ut.def.typ)
    case _ => false
  }

  /** AllRequired: the names of the required validation of an attribute. */
  function AllRequired(a: Attribute): seq<string>
  {
    a.required
  }

  /** IsRequired: whether the attribute's required validation lists name. */
  predicate IsRequired(a: Attribute, name: string)
  {
    name in a.required
  }

  /** IsPrimitivePointer: whether field name of the object a is rendered as a pointer. */
  predicate IsPrimitivePointer(a: Attribute, name: string)
  {
    name in a.pointers
  }

  /**
   * The primitive-pointer fields of an attribute that wraps an inline object
   * whose required validation lists `required`: its primitive fields, other
   * than Any, that are not required.
   */
  function InlinePointers(fields: map<string, Attribute>, required: seq<string>): set<string>
  {
    set n | n in fields && fields[n].typ.Primitive? && fields[n].typ.kind != AnyKind && n !in required
  }

  /** A string whose characters are all ASCII, so that characters and bytes coincide. */
  predicate IsAscii(s: string)
  {
    forall i :: 0 <= i < |s| ==> s[i] < 128 as char
  }

  /**
   * Every name the renderer sanitizes (object field names and the names of user
   * and media types reached through arrays, hashes and objects) is ASCII.
   */
  predicate AsciiType(t: DataType)
  {
    match t
    case Primitive(_) => true
    case Array(e) => AsciiType(e.typ)
    case Hash(k, e) => AsciiType(k.typ) && AsciiType(e.typ)
    case Object(fields) => forall n :: n in fields ==> IsAscii(n) && AsciiType(fields[n].typ)
    case UserType(ut) => IsAscii(ut.typeName)
    case MediaType(ut) => IsAscii(ut.typeName)
  }
}
