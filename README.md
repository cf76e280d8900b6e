# goa code generator: Go type names and type definitions

This project models, in Dafny, the part of goa's code generator
(`goagen/codegen/types.go`) that turns a design type tree into Go source
text, and proves properties of that model:

- **Goify**, the identifier sanitizer. It keeps the letters and digits of a
  name, treats `_` as a camel-case boundary, forces the case of the first
  kept character, special-cases `"ok"` and `"id"`, falls back to `"_v"` and
  escapes the words of the `reserved` table with a trailing `_`.
- **GoNativeType**, **PackagePrefix**, **GoPackageTypeName / GoTypeName** and
  **GoPackageTypeRef / GoTypeRef**: the pure renderers of type names and
  references over the closed set of design types (primitive, array, hash,
  inline object, user type, media type).
- **GoTypeDef**: the Go definition of a type. Arrays and hashes recurse with a
  `*` before object elements. Objects collect their field names, sort them
  with `sort.Strings`, and write one indented entry per field into a buffer.
  Each entry has an optional description comment, the Goified name, the field
  type (a pointer for objects and primitive pointers), and json/xml tags.
  A tag carries `,omitempty` for a field that is not required.
- **WriteTabs**, **Tempvar** (a counter whose value names fresh temporaries
  `tmp1`, `tmp2`, ...) and **has** (linear membership).

The model follows the source's own form:

- The string and type renderers are functions: `Identifiers.Goified`,
  `TypeNames.TypeDef` and the rest.
- The parts that work step by step are methods proved equal to those
  functions:
  - the byte loop of `Goify`;
  - the key collection, sort and field loop of `GoTypeDef`, over a `Buffer`
    class that stands for `bytes.Buffer`;
  - the counted loop of `WriteTabs`;
  - the search loop of `has`.
- The package-level `TempCount` is a field of the class `TempCounter`.

The design package itself is not part of this model. Its types become the
datatypes of module `Design`, and `IsObject`, `AllRequired`, `IsRequired` and
`IsPrimitivePointer` are simple definitions over them:

- the required names are a list carried by the attribute;
- the primitive-pointer fields are a set carried by the parent object's
  attribute;
- for the attribute that GoPackageTypeName wraps around an inline object
  (goagen/codegen/types.go:151-155), that set is derived from the required
  names the caller passes: the primitive fields, other than Any, that are not
  required (`Design.InlinePointers`). So `required` decides which fields of an
  inline object are written as pointers.

Modules:

- `Design`: the design type tree.
- `StringOrder`: Go's byte-wise string order, `sort.Strings` and the sorted
  key list.
- `Writer`: the buffer and `WriteTabs`.
- `Identifiers`: `Goify`.
- `TypeNames`: the pure renderers.
- `TypeDefs`: the `GoTypeDef` method.
- `TempVars`: `Tempvar`.
- `Slices`: `has`.
- `Scenario`: worked examples: a two-field object, an inline object, and a
  described field.

Where the code and the documented intent differ, the model follows the code:

- The doc comment of Goify says the first character is made a letter or
  `_`. The code keeps a leading digit, so `Goify("1st", true)` is `"1st"`
  (`Identifiers.LeadingDigitExample`).
- The doc comment of GoTypeDef says that tabs indents the definition and that
  only the first line is unindented. After a field's description comment, the
  code writes the field line with no indentation
  (`Scenario.DescriptionIndentExample`).

## Model

| member | source | states |
|---|---|---|
| Identifiers.Goify | goagen/codegen/types.go:214-250 | The byte loop with the flags firstWritten and nextUpper returns exactly Goified(str, firstUpper); the loop invariant ties the buffer and both flags to Scan of the prefix read. |
| Identifiers.Goified | goagen/codegen/types.go:214-219 | "ok" and "id" with firstUpper give "OK" and "ID"; a name with no letter or digit gives "_v"; the result is never empty and consists of letters, digits and '_' only. |
| Identifiers.NeverReserved | goagen/codegen/types.go:245-248 | Goify never returns a word of the reserved table. |
| Identifiers.EscapesReserved | goagen/codegen/types.go:245-249 | Apart from "ok"/"id" and the fallback, the result is the camel-cased text, followed by "_" exactly when that text is a reserved word. |
| Identifiers.ReservedHaveNoUnderscore | goagen/codegen/types.go:295-338 | No reserved word contains '_', so an escaped name is never itself reserved. |
| Identifiers.KeepsLettersAndDigits | goagen/codegen/types.go:222-241 | The camel-cased text has one character per letter or digit of the input, in input order, each equal to it up to case; everything else is dropped. |
| Identifiers.FirstKeptCase | goagen/codegen/types.go:227-234 | The first kept character is upper-cased when firstUpper and lower-cased otherwise, whatever precedes it. |
| Identifiers.UnderscoreBoundary | goagen/codegen/types.go:224-225 | After some kept text, the first kept character following a '_' is upper-cased, whatever dropped characters lie between them. |
| Identifiers.NoBoundaryWithoutUnderscore | goagen/codegen/types.go:235-239 | A kept character that follows another kept character with no '_' between them is written unchanged: only '_' marks a boundary. |
| Identifiers.ScanInvariant | goagen/codegen/types.go:221-241 | What the loop maintains: the written text matches the letters and digits read so far up to case, firstWritten holds exactly when something was written, and the first written character has the requested case. |
| Identifiers.UserNameExample | goagen/codegen/types.go:224-225 | Goify("user_name", true) == "UserName". |
| Identifiers.UserHyphenNameExample | goagen/codegen/types.go:226-239 | Goify("user-name", true) == "Username": '-' is dropped but is not a boundary. |
| Identifiers.UnderscoreFirstExample | goagen/codegen/types.go:227-232 | Goify("_user", false) == "user": the first kept character takes the requested case even right after '_'. |
| Identifiers.ReservedLowerExample | goagen/codegen/types.go:246-248 | Goify("type", false) == "type_". |
| Identifiers.ReservedUpperExample | goagen/codegen/types.go:228-229 | Goify("type", true) == "Type": upper-casing already avoids the reserved word. |
| Identifiers.FallbackExample | goagen/codegen/types.go:242-244 | Goify("_-_", true) == "_v". |
| Identifiers.LeadingDigitExample | goagen/codegen/types.go:209-211 | Goify("1st", true) == "1st": a leading digit is kept, contrary to the doc comment's promise of a letter or '_' first. |
| TypeNames.GoNativeType | goagen/codegen/types.go:175-207 | The native type is never empty and never contains '*': it adds no indirection anywhere in arrays, hashes, objects, user or media types. |
| TypeNames.PackagePrefix | goagen/codegen/types.go:267-281 | The prefix is either empty or the default package followed by "."; it is non-empty exactly when the reference comes from a versioned package and the type has no API versions. |
| TypeNames.NamedTypeName | goagen/codegen/types.go:163-168 | A user or media type is named by its Goified type name, preceded by defPkg + "." exactly when versioned and the type has no API versions. |
| TypeNames.TypeNameUnqualified | goagen/codegen/types.go:133-135 | GoTypeName of a user or media type is its Goified type name alone. |
| TypeNames.NameNotPointer | goagen/codegen/types.go:144-172 | A type name is never empty and never starts with '*'. |
| TypeNames.TypeDefNotPointer | goagen/codegen/types.go:28-92 | A type definition is never empty and never starts with '*'. |
| TypeNames.GoPackageTypeName | goagen/codegen/types.go:144-172 | A type name is never empty; NamedTypeName and NameNotPointer state the named-type and no-leading-'*' cases. |
| TypeNames.GoTypeName | goagen/codegen/types.go:133-135 | A type name seen from the defining package is never empty; TypeNameUnqualified gives the named-type case. |
| TypeNames.GoPackageTypeRef | goagen/codegen/types.go:112-125 | A reference is the type name preceded by "*" exactly when the type is an inline object or a user or media type whose definition is an object, and is never empty. |
| TypeNames.GoTypeRef | goagen/codegen/types.go:101-103 | A reference from the defining package is its GoTypeName preceded by "*" exactly for object types. |
| TypeNames.TypeDef | goagen/codegen/types.go:28-92 | A definition is never empty; StructFieldOrder, StructBrackets, FieldIndent, FieldPointer, TagLayout, ArrayPointer, HashPointers and HashStars state its shape case by case. |
| TypeNames.InlineFieldPointer | goagen/codegen/types.go:150-156 | The name of an inline object is its definition without tags, and a field of it is written as a pointer exactly when it is an object, or a primitive other than Any that the required names passed in do not list. |
| TypeNames.TypeRefIndirection | goagen/codegen/types.go:112-125 | A reference starts with '*' exactly when the type is an inline object or a user or media type whose definition is an object. |
| TypeNames.TypeRefUnqualified | goagen/codegen/types.go:101-103 | GoTypeRef starts with '*' exactly for object types. |
| TypeNames.StructFieldOrder | goagen/codegen/types.go:51-60 | An object definition lists one entry per field, in an order that is sorted and a permutation of the object's keys. |
| TypeNames.StructBrackets | goagen/codegen/types.go:52-84 | An object definition starts with an unindented "struct {\n" and ends with exactly tabs tab characters and "}", preceded by a newline. |
| TypeNames.FieldIndent | goagen/codegen/types.go:61-80 | Each field entry starts with exactly tabs+1 tabs, followed by "// " when the field has a description and by the first character of the Goified field name otherwise. |
| TypeNames.FieldsEndLine | goagen/codegen/types.go:80 | Every non-empty list of field entries ends with a newline. |
| TypeNames.FieldPointer | goagen/codegen/types.go:63-66 | A field's type starts with '*' exactly when the field type is an object or the field is a primitive pointer. |
| TypeNames.TagLayout | goagen/codegen/types.go:68-75 | Without jsonTags there is no tag. With them, the json and the xml tag both carry the original field name, each followed by ",omitempty" exactly when the field is not required. |
| TypeNames.ArrayPointer | goagen/codegen/types.go:35-40 | An array definition is "[]", then "*" exactly when the element is an object, then the element's definition; its third character is '*' exactly then. |
| TypeNames.HashPointers | goagen/codegen/types.go:41-50 | A hash definition is "map[" + key + "]" + element, where key and element each start with '*' exactly when they are objects. |
| TypeNames.HashStars | goagen/codegen/types.go:41-50 | In a hash definition "map[K]V", the character after "map[" is '*' exactly when the key is an object, and the character after the "]" closing the key is '*' exactly when the element is an object. |
| TypeDefs.GoTypeDef | goagen/codegen/types.go:28-92 | The recursive method returns exactly TypeDef, whose properties are the TypeNames lemmas above. |
| TypeDefs.ElementDef | goagen/codegen/types.go:36-49 | An element, key or value definition is that of its type, with "*" in front exactly when it is an object. |
| TypeDefs.CollectKeys | goagen/codegen/types.go:53-58 | The slice filled from the map holds each key exactly once: it is a permutation of the keys. |
| TypeDefs.SortedFieldNames | goagen/codegen/types.go:53-59 | Collecting then sorting the keys yields SortedKeys, the unique sorted permutation of the keys. |
| TypeDefs.WriteFields | goagen/codegen/types.go:60-81 | The field loop appends exactly the entries of the given keys, in order, and nothing else. |
| TypeDefs.WriteField | goagen/codegen/types.go:61-80 | One iteration appends exactly the entry of its field: tabs+1 tabs, description, Goified name, type, tags and a newline. |
| TypeDefs.WriteStruct | goagen/codegen/types.go:51-84 | The object branch returns exactly TypeDef of the object. |
| StringOrder.SortStrings | goagen/codegen/types.go:59 | sort.Strings leaves the slice sorted in Go's string order and a permutation of its former contents. |
| StringOrder.SortedKeys | goagen/codegen/types.go:53-59 | The sorted key list is sorted, a permutation of the key set, and has exactly the keys as elements. |
| StringOrder.SortedUnique | goagen/codegen/types.go:59 | Two sorted permutations of the same elements are equal, so the field order does not depend on the map's iteration order. |
| StringOrder.PairOrder | goagen/codegen/types.go:59 | A two-key object lists the smaller key first. |
| StringOrder.LeTotal | goagen/codegen/types.go:59 | Go's string order is total. |
| StringOrder.LeTransitive | goagen/codegen/types.go:59 | Go's string order is transitive. |
| StringOrder.LeAntisymmetric | goagen/codegen/types.go:59 | Go's string order is antisymmetric. |
| Writer.Tabs | goagen/codegen/types.go:253-257 | count tab characters, and no character at all when count <= 0. |
| Writer.WriteTabs | goagen/codegen/types.go:253-257 | The counted loop appends exactly Tabs(count) to the buffer. |
| TempVars.TempCounter.Tempvar | goagen/codegen/types.go:260-263 | Increments the counter by one and returns "tmp" followed by its new value in decimal; the name differs from every name returned before. |
| TempVars.TempNameInjective | goagen/codegen/types.go:262 | Distinct counter values give distinct names. |
| TempVars.DecimalRoundTrip | goagen/codegen/types.go:262 | Reading back the decimal digits that %d prints for n gives n. |
| TempVars.NatToDecimal | goagen/codegen/types.go:262 | %d of a natural number is a non-empty string of digits without a leading zero. |
| TempVars.IntToDecimal | goagen/codegen/types.go:262 | %d of an int is non-empty and starts with '-' exactly for negative values. |
| TempVars.ThreeNames | goagen/codegen/types.go:260-263 | Three calls on a fresh counter return "tmp1", "tmp2", "tmp3", pairwise distinct. |
| Slices.Has | goagen/codegen/types.go:341-348 | has returns true exactly when val occurs in the slice. |
| Scenario.ExampleOrder | goagen/codegen/types.go:53-59 | The fields of {"id", "ok"} are listed "id" first. |
| Scenario.IdTags | goagen/codegen/types.go:68-75 | The required field "id" is tagged `json:"id" xml:"id"`. |
| Scenario.OkTags | goagen/codegen/types.go:68-75 | The optional field "ok" is tagged `json:"ok,omitempty" xml:"ok,omitempty"`. |
| Scenario.IdLine | goagen/codegen/types.go:63-80 | With no primitive pointers in the object, the integer field "id" is written "ID int" followed by its tags and a newline. |
| Scenario.OkLine | goagen/codegen/types.go:63-80 | With no primitive pointers in the object, the boolean field "ok" is written "OK bool" followed by its tags and a newline. |
| Scenario.InlineRequiredExample | goagen/codegen/types.go:150-156 | The inline object {"id": integer} is named "struct {\n\tID int\n}" when "id" is passed as required, and "struct {\n\tID *int\n}" when it is not. |
| Scenario.DescriptionIndentExample | goagen/codegen/types.go:24-25 | At one tab of indentation, an object whose field "ok" has the description "d" renders as "struct {\n", "\t\t// d\n", "OK bool\n", "\t}": the field line after the comment has no indentation, contrary to the doc comment. |
| Scenario.ExampleDefinition | goagen/codegen/types.go:51-84 | The object {"id": integer (required), "ok": boolean}, with no primitive pointers, renders as "struct {\n", then "\tID int" with its tags, then "\tOK bool" with its tags, then "}". |

## Left out

- RunTemplate (goagen/codegen/types.go:285-292) executes a text/template, which is a foreign library call.
- toJSON (goagen/codegen/types.go:351-357) is encoding/json marshalling of arbitrary values.
- toSlice (goagen/codegen/types.go:360-366) is %#v formatting of arbitrary values.
- The design and dslengine packages are not part of this model. How a design computes required names, primitive pointers and object-ness is replaced by the fields of `Design.Attribute` and by plain definitions.
- Recursive user types are outside the model. A `Design.UserTypeDef` holds its definition by value, so named types are embedded as finite trees. A user type that refers to itself, directly or through an array, a hash or an object field, cannot be represented. goa renders such a type by name (goagen/codegen/types.go:85-88, 163-168). GoNativeType follows user and media types into their definitions (goagen/codegen/types.go:200-203) and recurses into arrays and hashes (goagen/codegen/types.go:194-199), so on a user type that contains itself through an array or a hash it would not terminate. The model does not show that behaviour either.
- How the design package answers IsPrimitivePointer for the attribute that GoPackageTypeName wraps around an inline object (goagen/codegen/types.go:151-155) is not shown. The model takes the primitive fields, other than Any, that the required names do not list. Default values, which the design package may also consult, are not modelled.
- The `panic` defaults (goagen/codegen/types.go:89-90, 169-170, 191-192, 204-205) cannot be reached, because the model's datatypes are closed.
- Identifiers.Goify: takes ASCII names only. The code walks bytes and calls Unicode tables on each one, and for non-ASCII bytes that behaviour belongs to the library.
- Identifiers.Goified: same ASCII restriction as Goify.
- TypeNames.GoPackageTypeName, TypeNames.GoPackageTypeRef and TypeNames.TypeDef: they require every name they sanitize to be ASCII, for the same reason.
- TypeNames.TypeRefIndirection: the '*' statements assume that a default-package qualifier does not itself start with '*'. Go package names never do.
- TypeNames.NameNotPointer, TypeNames.TypeDefNotPointer, TypeNames.FieldPointer, TypeNames.ArrayPointer, TypeNames.HashPointers, TypeNames.HashStars, TypeNames.InlineFieldPointer: same assumption on the qualifier.
- TempVars.TempCounter.Tempvar: TempCount is an unbounded integer. The 64-bit wrap-around of Go's int after 2^63 - 1 calls is not modelled.
- StringOrder.SortStrings: sort.Strings is modelled as an insertion sort. Only its result matters to the generator, and the result is unique (StringOrder.SortedUnique).
- Bytes and runes are not distinguished: a Dafny `char` stands for one byte of an ASCII name.
- Concurrent use of the package-level TempCount is not modelled.
- Identifier collisions between fields whose names Goify to the same identifier are not detected. The code performs no such check.
