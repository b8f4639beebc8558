/**
 * The part of the Mono.Cecil metadata model that the rewriter reads and
 * changes: type definitions with their fields, properties, methods and custom
 * attributes. Cecil's objects become value records; a member is referred to by
 * its position in its declaring type's field or property list, which stays
 * valid because the rewriter only ever appends to those lists.
 */
module Metadata {
  import opened Wrappers
  import opened Cil

  /** A custom-attribute constructor argument: a string (possibly null) or an
      enum value. */
  datatype AttrArg = StrArg(value: Option<string>) | EnumArg(ordinal: int)

  datatype CustomAttribute = CustomAttribute(attrType: TypeId, args: seq<AttrArg>)

  datatype FieldDef = FieldDef(name: string, fieldType: TypeId, isPublic: bool, attributes: seq<CustomAttribute>)

  datatype PropertyDef = PropertyDef(
    name: string, propertyType: TypeId, getMethod: MethodRef, setMethod: MethodRef,
    attributes: seq<CustomAttribute>)

  datatype MethodDef = MethodDef(name: string, isPublic: bool, isVirtual: bool, body: seq<Instr>)

  /** A class: `id` is its full name, `name` its simple name. */
  datatype TypeDef = TypeDef(
    id: TypeId, name: string,
    fields: seq<FieldDef>, properties: seq<PropertyDef>, methods: seq<MethodDef>)

  /** A `TypeDefinition` of the module: a reference whose contents the
      rewriter edits in place. */
  class TypeDefinition {
    var def: TypeDef

    constructor(def: TypeDef)
      ensures this.def == def
    {
      this.def := def;
    }
  }

  /** The contents of the type definitions `ts`, in order. */
  function DefsOf(ts: seq<TypeDefinition>): (r: seq<TypeDef>)
    reads ts
    ensures |r| == |ts| && forall j :: 0 <= j < |ts| ==> r[j] == ts[j].def
  {
    seq(|ts|, (j: int) reads ts requires 0 <= j < |ts| => ts[j].def)
  }

  /** No type definition occurs twice. */
  predicate Distinct(ts: seq<TypeDefinition>) {
    forall j, j' :: 0 <= j < |ts| && 0 <= j' < |ts| && ts[j] == ts[j'] ==> j == j'
  }

  /** A field or property of a class, by position. */
  datatype MemberRef = FieldAt(index: nat) | PropertyAt(index: nat)

  predicate ValidMember(t: TypeDef, m: MemberRef) {
    match m
    case FieldAt(k) => k < |t.fields|
    case PropertyAt(k) => k < |t.properties|
  }

  /** The `(string)arg.Value` cast of a constructor argument. */
  function StringArg(a: CustomAttribute, k: nat): Option<string>
    requires k < |a.args| && a.args[k].StrArg?
  {
    a.args[k].value
  }

  /** The fields, then the properties, of `t`: the member list every processor builds. */
  function Members(t: TypeDef): (r: seq<MemberRef>)
    ensures |r| == |t.fields| + |t.properties|
    ensures forall k :: 0 <= k < |t.fields| ==> r[k] == FieldAt(k)
    ensures forall k :: 0 <= k < |t.properties| ==> r[|t.fields| + k] == PropertyAt(k)
    ensures forall j :: 0 <= j < |r| ==> ValidMember(t, r[j])
  {
    seq(|t.fields|, (k: nat) => FieldAt(k)) + seq(|t.properties|, (k: nat) => PropertyAt(k))
  }

  function MemberName(t: TypeDef, m: MemberRef): string
    requires ValidMember(t, m)
  {
    match m
    case FieldAt(k) => t.fields[k].name
    case PropertyAt(k) => t.properties[k].name
  }

  function MemberAttributes(t: TypeDef, m: MemberRef): seq<CustomAttribute>
    requires ValidMember(t, m)
  {
    match m
    case FieldAt(k) => t.fields[k].attributes
    case PropertyAt(k) => t.properties[k].attributes
  }

  /** `GetFieldOrPropertyType`: the declared type of a field or property. */
  function MemberType(t: TypeDef, m: MemberRef): TypeId
    requires ValidMember(t, m)
  {
    match m
    case FieldAt(k) => t.fields[k].fieldType
    case PropertyAt(k) => t.properties[k].propertyType
  }

  /** `t` with the attribute list of member `m` replaced by `attrs`. */
  function WithMemberAttributes(t: TypeDef, m: MemberRef, attrs: seq<CustomAttribute>): (r: TypeDef)
    requires ValidMember(t, m)
    ensures r.id == t.id && r.name == t.name && r.methods == t.methods
    ensures |r.fields| == |t.fields| && |r.properties| == |t.properties|
    ensures MemberAttributes(r, m) == attrs
  {
    match m
    case FieldAt(k) => t.(fields := t.fields[k := t.fields[k].(attributes := attrs)])
    case PropertyAt(k) => t.(properties := t.properties[k := t.properties[k].(attributes := attrs)])
  }

  /** Replacing the attributes of `m` leaves every other member's alone. */
  lemma WithMemberAttributesOthers(t: TypeDef, m: MemberRef, attrs: seq<CustomAttribute>, m': MemberRef)
    requires ValidMember(t, m) && ValidMember(t, m') && m' != m
    ensures ValidMember(WithMemberAttributes(t, m, attrs), m')
    ensures MemberAttributes(WithMemberAttributes(t, m, attrs), m') == MemberAttributes(t, m')
  {
  }

  /** `t` with the body of its method `k` replaced by `body`. */
  function WithBody(t: TypeDef, k: nat, body: seq<Instr>): (r: TypeDef)
    requires k < |t.methods|
    ensures r.id == t.id && r.name == t.name && r.fields == t.fields && r.properties == t.properties
    ensures |r.methods| == |t.methods| && r.methods[k].body == body
    ensures r.methods[k].name == t.methods[k].name
    ensures forall j :: 0 <= j < |t.methods| && j != k ==> r.methods[j] == t.methods[j]
  {
    t.(methods := t.methods[k := t.methods[k].(body := body)])
  }

  /** `attrs` without its element at position `k`: `List.Remove` of that element. */
  function RemoveAt(attrs: seq<CustomAttribute>, k: nat): (r: seq<CustomAttribute>)
    requires k < |attrs|
    ensures |r| == |attrs| - 1
    ensures forall j :: 0 <= j < |r| ==> r[j] == if j < k then attrs[j] else attrs[j + 1]
  {
    attrs[..k] + attrs[k + 1..]
  }
}
