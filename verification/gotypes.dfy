/** The part of Go's `reflect` package the schema engine observes: a closed
    variant of type descriptors over an arena of struct declarations, so that
    self-referential and mutually referential structs are representable. */
module GoTypes {
  import opened Wrappers
  import opened Text
  import GoPath

  /** The scalar members of `reflect.Kind`. */
  datatype Scalar =
    | Bool
    | Int | Int8 | Int16 | Int32 | Int64
    | Uint | Uint8 | Uint16 | Uint32 | Uint64
    | Float32 | Float64
    | String

  /** `reflect.Kind`, restricted to the kinds the model covers. */
  datatype Kind =
    | ScalarKind(scalar: Scalar)
    | PtrKind | SliceKind | ArrayKind | MapKind | InterfaceKind | StructKind

  /** The identity of a named type: import path, package name, type name. */
  datatype TypeName = TypeName(pkgPath: string, pkgName: string, name: string)

  type StructId = nat

  /** A Go type. Scalars may be named (`time.Duration`, `json.Number`,
      `types.ParameterType`); structs live in the arena and are referred to by
      id, which is what makes cycles such as `type T struct { Next *T }`
      expressible. */
  datatype GoType =
    | Basic(scalar: Scalar, named: Option<TypeName>)
    | Ptr(elem: GoType)
    | Slice(elem: GoType)
    | Array(length: nat, elem: GoType)
    | Map(key: GoType, elem: GoType)
    | Interface
    | Struct(id: StructId)

  /** One struct field: its Go name, type, tag (as the key/value pairs
      `StructTag.Get` and `StructTag.Lookup` read) and whether it is embedded. */
  datatype Field = Field(name: string, typ: GoType, tag: map<string, string>, embedded: bool)

  /** A struct declaration. `literal` is what `Type.String()` prints for an
      anonymous struct (`struct { ID string "json:\"id\"" }`). */
  datatype StructDecl = StructDecl(named: Option<TypeName>, literal: string, fields: seq<Field>)

  /** The program's types as reflection sees them. `addr` is the address of a
      type's runtime descriptor (`reflect2.PtrOf`); nothing is assumed of it
      beyond being a function of the type. */
  datatype Universe = Universe(decls: map<StructId, StructDecl>, addr: GoType -> nat)

  /** `Type.Kind()` */
  function KindOf(t: GoType): Kind {
    match t
    case Basic(s, _) => ScalarKind(s)
    case Ptr(_) => PtrKind
    case Slice(_) => SliceKind
    case Array(_, _) => ArrayKind
    case Map(_, _) => MapKind
    case Interface => InterfaceKind
    case Struct(_) => StructKind
  }

  function ScalarString(s: Scalar): (r: string)
    ensures |r| > 0 && '.' !in r && '-' !in r
  {
    match s
    case Bool => "bool"
    case Int => "int"
    case Int8 => "int8"
    case Int16 => "int16"
    case Int32 => "int32"
    case Int64 => "int64"
    case Uint => "uint"
    case Uint8 => "uint8"
    case Uint16 => "uint16"
    case Uint32 => "uint32"
    case Uint64 => "uint64"
    case Float32 => "float32"
    case Float64 => "float64"
    case String => "string"
  }

  /** `Kind.String()` */
  function KindString(k: Kind): (r: string)
    ensures '.' !in r
  {
    match k
    case ScalarKind(s) => ScalarString(s)
    case PtrKind => "ptr"
    case SliceKind => "slice"
    case ArrayKind => "array"
    case MapKind => "map"
    case InterfaceKind => "interface"
    case StructKind => "struct"
  }

  /** The declared name of a named type, if any. */
  function NamedOf(u: Universe, t: GoType): Option<TypeName> {
    match t
    case Basic(_, n) => n
    case Struct(id) => if id in u.decls then u.decls[id].named else None
    case _ => None
  }

  /** `Type.Name()`: the type name for defined and predeclared types, "" for
      every type literal (pointers, slices, maps, anonymous structs, ...). */
  function Name(u: Universe, t: GoType): string {
    match NamedOf(u, t)
    case Some(n) => n.name
    case None => if t.Basic? then ScalarString(t.scalar) else ""
  }

  /** A type literal: neither a defined type nor a predeclared scalar. Its
      name and package path are both empty. */
  predicate IsLiteral(u: Universe, t: GoType)
    ensures IsLiteral(u, t) ==> Name(u, t) == "" && PkgPath(u, t) == ""
  {
    NamedOf(u, t).None? && !t.Basic?
  }

  /** `Type.PkgPath()`: the import path of a defined type, "" otherwise. */
  function PkgPath(u: Universe, t: GoType): string {
    match NamedOf(u, t)
    case Some(n) => n.pkgPath
    case None => ""
  }

  /** `Type.String()` */
  function TypeString(u: Universe, t: GoType): string {
    match NamedOf(u, t)
    case Some(n) => n.pkgName + "." + n.name
    case None =>
      match t
      case Basic(s, _) => ScalarString(s)
      case Ptr(e) => "*" + TypeString(u, e)
      case Slice(e) => "[]" + TypeString(u, e)
      case Array(n, e) => "[" + Itoa(n) + "]" + TypeString(u, e)
      case Map(k, e) => "map[" + TypeString(u, k) + "]" + TypeString(u, e)
      case Interface => "interface {}"
      case Struct(id) => if id in u.decls then u.decls[id].literal else ""
  }

  /** Strips one level of pointer, as `if t.Kind() == reflect.Ptr { t = t.Elem() }`. */
  function Deref(t: GoType): (r: GoType)
    ensures t.Ptr? ==> r == t.elem
    ensures !t.Ptr? ==> r == t
  {
    if t.Ptr? then t.elem else t
  }

  /** The struct ids a type mentions, at any depth. */
  function StructIds(t: GoType): set<StructId> {
    match t
    case Basic(_, _) => {}
    case Ptr(e) => StructIds(e)
    case Slice(e) => StructIds(e)
    case Array(_, e) => StructIds(e)
    case Map(k, e) => StructIds(k) + StructIds(e)
    case Interface => {}
    case Struct(id) => {id}
  }

  /** Every struct a type mentions is declared. */
  predicate Closed(u: Universe, t: GoType) {
    StructIds(t) <= u.decls.Keys
  }

  /** The exported-field test `ToLower(Name[0:1]) != Name[0:1]`. It looks at
      the first byte only: an ASCII upper-case letter passes, and so does any
      non-ASCII first character, whose lone leading byte is not valid UTF-8
      and lower-cases to U+FFFD. */
  predicate IsExportedName(n: string) {
    |n| > 0 && (IsUpper(n[0]) || n[0] >= '\U{0080}')
  }

  /** The leading byte of a rune's UTF-8 encoding. */
  function LeadByte(c: char): (b: nat)
    ensures b < 0x80 <==> c < '\U{0080}'
  {
    var n := c as int;
    if n < 0x80 then n
    else if n < 0x800 then 0xC0 + n / 0x40
    else if n < 0x10000 then 0xE0 + n / 0x1000
    else 0xF0 + n / 0x40000
  }

  /** `strings.ToLower` of the one-byte string `[b]`, as bytes: an ASCII
      capital is lowered; a byte from 0x80 on is not valid UTF-8 on its own
      and becomes U+FFFD, encoded EF BF BD; any other byte is kept. */
  function LowerOneByte(b: nat): seq<nat> {
    if 'A' as int <= b <= 'Z' as int then [b + 32]
    else if b >= 0x80 then [0xEF, 0xBF, 0xBD]
    else [b]
  }

  /** `IsExportedName` is the byte test `ToLower(Name[0:1]) != Name[0:1]`. */
  lemma ExportedNameByByte(n: string)
    ensures IsExportedName(n) <==> |n| > 0 && LowerOneByte(LeadByte(n[0])) != [LeadByte(n[0])]
  {
  }

  /** What Go's compiler guarantees of every field: its type refers only to
      declared structs, and its name is non-empty (`field.Name[0:1]` is
      taken) and, being an identifier, holds no comma. */
  predicate FieldTyped(u: Universe, f: Field) {
    Closed(u, f.typ) && |f.name| > 0 && ',' !in f.name
  }

  /** Every field of every declared struct is typed. This is all the legacy
      package, which never looks at `Anonymous`, needs. */
  predicate Typed(u: Universe) {
    forall id | id in u.decls :: forall i | 0 <= i < |u.decls[id].fields| :: FieldTyped(u, u.decls[id].fields[i])
  }

  /** What the root package's reflection needs besides: every field is
      typed, and an exported embedded field (the only kind `buildProperty`
      recurses into, after skipping unexported ones) is a struct embedded by
      value, declared before its container. By-value embedding is acyclic,
      so the arena can list it first; an exported embedded pointer or
      non-struct makes `NumField` panic. */
  predicate WellFormed(u: Universe) {
    forall id | id in u.decls :: DeclWellFormed(u, id, u.decls[id])
  }

  predicate DeclWellFormed(u: Universe, id: StructId, d: StructDecl) {
    forall i | 0 <= i < |d.fields| :: FieldWellFormed(u, id, d.fields[i])
  }

  predicate FieldWellFormed(u: Universe, owner: StructId, f: Field) {
    && FieldTyped(u, f)
    && (f.embedded && IsExportedName(f.name) ==> f.typ.Struct? && f.typ.id < owner)
  }

  /** A well-formed universe is typed. */
  lemma WellFormedTyped(u: Universe)
    requires WellFormed(u)
    ensures Typed(u)
  {
    forall id, i | id in u.decls && 0 <= i < |u.decls[id].fields|
      ensures FieldTyped(u, u.decls[id].fields[i])
    {
      assert FieldWellFormed(u, id, u.decls[id].fields[i]);
    }
  }

  /** `filepath.Base` of a type's package path, used by both naming schemes. */
  function PkgBase(u: Universe, t: GoType): string {
    GoPath.Base(PkgPath(u, t))
  }
}
