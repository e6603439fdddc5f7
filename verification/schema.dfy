/** The schema shapes of the root package and `inspect` (reflect.go): how one
    field type, with its json tag, becomes a Swagger property. */
module Schema {
  import opened Wrappers
  import opened Text
  import opened GoTypes
  import opened Naming

  /** `types.ParameterType` values the engine writes. */
  const Integer: string := "integer"
  const Number: string := "number"
  const Boolean: string := "boolean"
  const StringType: string := "string"
  const ArrayType: string := "array"
  const ObjectType: string := "object"

  /** The element shape of an array. */
  datatype Items = Items(typ: string, format: string, ref: string)

  const NoItems := Items("", "", "")

  /** The shape of a map's values (`additionalProperties`). `goType` is the
      type `define` later looks at; it is nil (`None`) for interface values
      and for slices of byte slices. */
  datatype AddProps = AddProps(goType: Option<GoType>, typ: string, ref: string, items: Option<Items>)

  /** One property of an object definition. */
  datatype Property = Property(
    goType: Option<GoType>,
    typ: string,
    description: string,
    enum: seq<string>,
    format: string,
    ref: string,
    example: string,
    items: Option<Items>,
    addProps: Option<AddProps>)

  /** A property that records only its Go type. */
  function Bare(t: GoType): Property {
    Property(Some(t), "", "", [], "", "", "", None, None)
  }

  /** One object definition. `name` is the key it is stored under. */
  datatype Object = Object(
    isArray: bool,
    goType: GoType,
    name: string,
    typ: string,
    description: string,
    format: string,
    required: seq<string>,
    properties: map<string, Property>)

  /** A request or response schema. */
  datatype SchemaRef = SchemaRef(prototype: GoType, typ: string, ref: string, items: Option<Items>)

  /** The (type, format) pair the scalar switches of `inspect` give a numeric
      or string kind; ("", "") for `bool` and plain `uint`, which the shared
      part of the switches does not list. */
  function NumericFormat(s: Scalar): (r: (string, string))
    ensures r.1 != "" ==> r.0 in {Integer, Number}
    ensures r.0 == "" <==> s in {Bool, Uint}
  {
    match s
    case Int | Int8 | Int16 | Int32 | Uint8 | Uint16 | Uint32 => (Integer, "int32")
    case Int64 | Uint64 => (Integer, "int64")
    case Float64 => (Number, "double")
    case Float32 => (Number, "float")
    case String => (StringType, "")
    case Bool | Uint => ("", "")
  }

  /** The names `isPrimitiveType` accepts besides the scalar kinds: any
      non-empty substring of this text. */
  const PrimitiveNames: string := "time.Time time.Duration json.Number"

  /** `isPrimitiveType(name, t)`: a scalar kind (after one pointer), or a
      non-empty name occurring in `PrimitiveNames`. */
  predicate IsPrimitiveType(modelName: string, t: GoType) {
    KindOf(Deref(t)).ScalarKind? || (modelName != "" && Contains(PrimitiveNames, modelName))
  }

  /** `jsonSchemaType(name, t)`: three well-known type names first, then the
      kind, and otherwise the name itself. */
  function JsonSchemaType(modelName: string, t: GoType): (r: string)
    ensures modelName == "time.Time" ==> r == StringType
    ensures modelName == "time.Duration" ==> r == Integer
    ensures modelName == "json.Number" ==> r == Number
    ensures modelName !in {"time.Time", "time.Duration", "json.Number"} && !KindOf(Deref(t)).ScalarKind? ==> r == modelName
  {
    if modelName == "time.Time" then StringType
    else if modelName == "time.Duration" then Integer
    else if modelName == "json.Number" then Number
    else
      match Deref(t)
      case Basic(s, _) =>
        (match s
         case Bool => Boolean
         case Float32 | Float64 => Number
         case String => StringType
         case _ => Integer)
      case _ => modelName
  }

  /** `getGoType(t)`: one pointer stripped. */
  function GetGoType(t: GoType): GoType {
    Deref(t)
  }

  /** `makeMapRef(typeName)`: a reference to the type's printed name with
      every leading and trailing '*' removed. */
  function MakeMapRef(typeName: string): (r: string)
    ensures RefTarget(r) == Some(Trim(typeName, "*"))
  {
    RefTargetMakeRef(Trim(typeName, "*"));
    MakeRef(Trim(typeName, "*"))
  }

  /** `isSliceOrArryType(k)` */
  predicate IsSliceOrArray(k: Kind) {
    k == SliceKind || k == ArrayKind
  }

  /** `isByteArrayType(t)`: a slice or array of `uint8`. */
  predicate IsByteArray(t: GoType) {
    IsSliceOrArray(KindOf(t)) && KindOf(t.elem) == ScalarKind(Uint8)
  }

  /** The map's value type with one slice or array level removed. */
  function MapItem(v: GoType): GoType {
    if IsSliceOrArray(KindOf(v)) then v.elem else v
  }

  /** `buildMapType(m)` for a map type `m`. */
  function BuildMapType(u: Universe, m: GoType): (r: AddProps)
    requires m.Map?
    ensures KindOf(m.elem) == InterfaceKind ==> r == AddProps(None, "", "", None)
    ensures r.goType.None? <==> KindOf(m.elem) == InterfaceKind || IsByteArray(MapItem(m.elem))
    ensures r.goType.Some? ==> r.goType.value == Deref(MapItem(m.elem))
    ensures r.items.Some? <==> r.goType.Some? && IsSliceOrArray(KindOf(m.elem))
    ensures r.ref != "" ==> r.items.None? && RefTarget(r.ref) == Some(Trim(TypeString(u, m.elem), "*"))
  {
    var v := m.elem;
    if KindString(KindOf(v)) == "interface" then
      AddProps(None, "", "", None)
    else
      var isSlice := IsSliceOrArray(KindOf(v));
      var x := MapItem(v);
      var isPrimitive := IsPrimitiveType(Name(u, x), x);
      if IsByteArray(x) then
        AddProps(None, StringType, "", None)
      else if isSlice then
        if isPrimitive then
          AddProps(Some(GetGoType(x)), ArrayType, "", Some(Items(JsonSchemaType(TypeString(u, x), x), "", "")))
        else
          AddProps(Some(GetGoType(x)), ArrayType, "", Some(Items("", "", MakeMapRef(TypeString(u, x)))))
      else if isPrimitive then
        AddProps(Some(GetGoType(x)), JsonSchemaType(TypeString(u, x), x), "", None)
      else
        AddProps(Some(GetGoType(x)), "", MakeMapRef(TypeString(u, x)), None)
  }

  /** The property types `inspect` can produce. */
  const InspectTypes: set<string> := {"", StringType, Integer, Number, Boolean, ArrayType, ObjectType}

  /** The array item `inspect` builds for a slice element `e`. */
  function SliceItems(u: Universe, e: GoType): (r: Items)
    ensures r.ref != "" ==> r.typ == "" && r.format == ""
    ensures r.format != "" ==> r.typ in {Integer, Number}
  {
    match e
    case Ptr(x) =>
      if IsPrimitiveType(Name(u, x), x) then Items(JsonSchemaType(TypeString(u, x), x), "", "")
      else Items("", "", MakeRef(MakeName(u, x)))
    case Struct(_) => Items("", "", MakeRef(MakeName(u, e)))
    case Basic(s, _) => Items(NumericFormat(s).0, NumericFormat(s).1, "")
    case _ => NoItems
  }

  /** The Go type `define` sees for a slice property: the element, with one
      more pointer stripped. */
  function SliceGoType(e: GoType): GoType {
    Deref(e)
  }

  /** `inspect(t, jsonTag)`. */
  function Inspect(u: Universe, t: GoType, jsonTag: string): (r: Property)
    ensures Contains(jsonTag, ",string") ==>
      r.typ == StringType && r.goType == Some(t) && r.format == "" && r.ref == "" && r.items.None? && r.addProps.None?
    ensures !Contains(jsonTag, ",string") ==> r == InspectKind(u, t)
    ensures r.typ in InspectTypes
    ensures r.format != "" ==> r.typ in {Integer, Number}
    ensures r.typ == ArrayType <==> r.items.Some?
    ensures r.ref != "" ==> r.goType.Some? && RefTarget(r.ref) == Some(MakeName(u, r.goType.value))
    ensures r.goType.Some? ==> StructIds(r.goType.value) <= StructIds(t)
    ensures r.description == "" && r.example == "" && r.enum == []
  {
    if Contains(jsonTag, ",string") then
      Property(Some(t), StringType, "", [], "", "", "", None, None)
    else
      InspectKind(u, t)
  }

  /** The kind switch of `inspect`, after one pointer is stripped. */
  function InspectKind(u: Universe, t: GoType): (r: Property)
    ensures r.items.Some? <==> Deref(t).Slice?
    ensures r.addProps.Some? <==> Deref(t).Map?
    ensures r.typ in InspectTypes
    ensures r.format != "" ==> r.typ in {Integer, Number}
    ensures r.typ == ArrayType <==> r.items.Some?
    ensures r.ref != "" ==> r.goType.Some? && RefTarget(r.ref) == Some(MakeName(u, r.goType.value))
    ensures r.goType.Some? ==> StructIds(r.goType.value) <= StructIds(t)
    ensures r.description == "" && r.example == "" && r.enum == []
  {
    var g := Deref(t);
    match g
    case Basic(s, _) => ScalarProperty(g)
    case Struct(_) => RefProperty(u, g)
    case Ptr(_) => RefProperty(u, t.elem)
    case Map(_, _) => MapProperty(u, g)
    case Slice(e) => SliceProperty(u, e)
    case Array(_, _) => Bare(g)
    case Interface => Bare(g)
  }

  /** A scalar kind: the type and format of its table row. */
  function ScalarProperty(g: GoType): (r: Property)
    requires g.Basic?
    ensures r.goType == Some(g) && r.ref == "" && r.items.None? && r.addProps.None?
    ensures r.typ in InspectTypes && r.typ != ArrayType
    ensures r.format != "" ==> r.typ in {Integer, Number}
    ensures r.typ == "" <==> g.scalar == Uint
    ensures r.description == "" && r.example == "" && r.enum == []
  {
    if g.scalar == Bool then Property(Some(g), Boolean, "", [], "", "", "", None, None)
    else Property(Some(g), NumericFormat(g.scalar).0, "", [], NumericFormat(g.scalar).1, "", "", None, None)
  }

  /** A map: an object whose value shape is `buildMapType`'s, and whose Go
      type becomes the value shape's. */
  function MapProperty(u: Universe, g: GoType): (r: Property)
    requires g.Map?
    ensures r.typ == ObjectType && r.addProps == Some(BuildMapType(u, g))
    ensures r.goType == BuildMapType(u, g).goType
    ensures r.ref == "" && r.format == "" && r.items.None?
    ensures r.goType.Some? ==> StructIds(r.goType.value) <= StructIds(g)
    ensures r.description == "" && r.example == "" && r.enum == []
  {
    var ap := BuildMapType(u, g);
    assert ap.goType.Some? ==> StructIds(ap.goType.value) <= StructIds(g) by {
      if ap.goType.Some? {
        var v := g.elem;
        assert StructIds(v) <= StructIds(g);
        if IsSliceOrArray(KindOf(v)) {
          assert StructIds(v.elem) <= StructIds(v);
        }
      }
    }
    Property(ap.goType, ObjectType, "", [], "", "", "", None, Some(ap))
  }

  /** A slice of `e`: an array whose items describe the element. */
  function SliceProperty(u: Universe, e: GoType): (r: Property)
    ensures r.typ == ArrayType && r.items == Some(SliceItems(u, e))
    ensures r.goType == Some(Deref(e)) && StructIds(Deref(e)) <= StructIds(e)
    ensures r.ref == "" && r.format == "" && r.addProps.None?
    ensures r.description == "" && r.example == "" && r.enum == []
  {
    Property(Some(SliceGoType(e)), ArrayType, "", [], "", "", "", Some(SliceItems(u, e)), None)
  }

  /** A property that refers to the definition of `g`. */
  function RefProperty(u: Universe, g: GoType): (r: Property)
    ensures r.goType == Some(g) && RefTarget(r.ref) == Some(MakeName(u, g)) && r.ref != ""
  {
    RefTargetMakeRef(MakeName(u, g));
    Property(Some(g), "", "", [], "", MakeRef(MakeName(u, g)), "", None, None)
  }

  /** One pointer in front of a non-pointer type changes nothing `inspect`
      reports, unless the tag asks for a string. */
  lemma InspectThroughPointer(u: Universe, t: GoType, jsonTag: string)
    requires !t.Ptr? && !Contains(jsonTag, ",string")
    ensures Inspect(u, Ptr(t), jsonTag) == Inspect(u, t, jsonTag)
  {
  }

  /** For every scalar kind except plain `uint`, the type `inspect` gives a
      field agrees with the type `jsonSchemaType` gives the same kind. */
  lemma InspectScalarAgrees(u: Universe, s: Scalar, n: Option<TypeName>)
    requires s != Uint
    ensures Inspect(u, Basic(s, n), "").typ == JsonSchemaType("", Basic(s, n))
  {
  }

  /** The switch of `inspect` does not list plain `uint`: such a field gets
      no type, although `jsonSchemaType` calls it an integer. */
  lemma InspectUintUntyped(u: Universe, n: Option<TypeName>)
    ensures Inspect(u, Basic(Uint, n), "").typ == ""
    ensures JsonSchemaType("", Basic(Uint, n)) == Integer
  {
  }

  /** A struct counts as primitive in a map value exactly when its name is a
      non-empty substring of `PrimitiveNames`, so a struct called `Time` is
      described by name rather than by reference. */
  lemma PrimitiveStructByName(u: Universe, id: StructId)
    ensures IsPrimitiveType(Name(u, Struct(id)), Struct(id)) <==>
      Name(u, Struct(id)) != "" && Contains(PrimitiveNames, Name(u, Struct(id)))
  {
  }

  lemma PrimitiveNamesHoldTime()
    ensures Contains(PrimitiveNames, "Time")
  {
    var p := PrimitiveNames;
    assert p[5] == 'T' && p[6] == 'i' && p[7] == 'm' && p[8] == 'e';
    assert forall j | 0 <= j < 4 :: p[5..9][j] == p[5 + j];
    OccursContains(PrimitiveNames, "Time", 5);
  }

  lemma OccursContains(s: string, sub: string, i: int)
    requires OccursAt(s, sub, i)
    ensures Contains(s, sub)
  {
    ContainsAt(s, sub);
  }

  /** A map of byte slices has array values with integer items; only a map
      of slices of byte slices gets string values, and no Go type. */
  lemma BuildMapTypeBytes(u: Universe, k: GoType)
    ensures var r := BuildMapType(u, Map(k, Slice(Basic(Uint8, None))));
      r.typ == ArrayType && r.items == Some(Items(Integer, "", "")) && r.goType == Some(Basic(Uint8, None))
    ensures var r := BuildMapType(u, Map(k, Slice(Slice(Basic(Uint8, None)))));
      r.typ == StringType && r.goType.None? && r.items.None?
  {
  }

  /** A map whose values are neither slices, arrays nor interfaces and
      count as primitive gets the value's schema type by name, the value's
      Go type with one pointer stripped, and no reference or items. */
  lemma BuildMapTypePrimitive(u: Universe, m: GoType)
    requires m.Map? && KindOf(m.elem) != InterfaceKind && !IsSliceOrArray(KindOf(m.elem))
    requires IsPrimitiveType(Name(u, m.elem), m.elem)
    ensures BuildMapType(u, m) == AddProps(Some(Deref(m.elem)), JsonSchemaType(TypeString(u, m.elem), m.elem), "", None)
  {
  }

  /** For a scalar map value of any kind but plain `uint`, the value shape
      `buildMapType` gives and the property `inspect` gives a field of the
      same type agree on the Go type and, unless the printed type name is
      one of the three well-known names, on the schema type. */
  lemma BuildMapTypeScalarAgrees(u: Universe, k: GoType, s: Scalar, n: Option<TypeName>)
    requires s != Uint
    ensures BuildMapType(u, Map(k, Basic(s, n))).goType == Inspect(u, Basic(s, n), "").goType
    ensures TypeString(u, Basic(s, n)) !in {"time.Time", "time.Duration", "json.Number"} ==>
      BuildMapType(u, Map(k, Basic(s, n))).typ == Inspect(u, Basic(s, n), "").typ
  {
    var g := Basic(s, n);
    assert IsPrimitiveType(Name(u, g), g);
    BuildMapTypePrimitive(u, Map(k, g));
  }

  /** A map of struct pointers (`map[string]*MapOption`) refers to the
      struct through its printed type name, the pointer star trimmed, and
      records the struct for `define`. */
  lemma BuildMapTypeStructRef(u: Universe, k: GoType, id: StructId)
    ensures BuildMapType(u, Map(k, Ptr(Struct(id)))).goType == Some(Struct(id))
    ensures RefTarget(BuildMapType(u, Map(k, Ptr(Struct(id)))).ref) == Some(Trim(TypeString(u, Ptr(Struct(id))), "*"))
  {
    var v := Ptr(Struct(id));
    assert !IsPrimitiveType(Name(u, v), v);
  }
}
