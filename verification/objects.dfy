/** `buildProperty`, `defineObject` and `MakeSchema` of the root package
    (reflect.go): a struct becomes a named object definition. */
module Objects {
  import opened Wrappers
  import opened Text
  import opened GoTypes
  import opened Naming
  import opened Schema

  /** `StructTag.Get(key)`: the value, or "" when the key is absent. */
  function TagGet(tag: map<string, string>, key: string): string {
    if key in tag then tag[key] else ""
  }

  /** The json name of a field: the trimmed json tag up to its first comma,
      or the Go field name when the trimmed tag is empty or starts with a
      comma. */
  function JsonName(f: Field): (r: string)
    ensures ',' !in r
    ensures |f.name| > 0 ==> |r| > 0 || ',' in f.name
    ensures
      var tn := TrimSpace(TagGet(f.tag, "json"));
      if tn == "" || HasPrefix(tn, ",") then HasPrefix(f.name, r) else HasPrefix(tn, r) && r != ""
  {
    var tn := TrimSpace(TagGet(f.tag, "json"));
    var name := if tn == "" || HasPrefix(tn, ",") then f.name else Before(tn, ',');
    var r := Before(name, ',');
    assert tn != "" && !HasPrefix(tn, ",") ==> r == name by {
      if tn != "" && !HasPrefix(tn, ",") {
        BeforeIdempotent(tn, ',');
      }
    }
    assert |f.name| > 0 && ',' !in f.name ==> |r| > 0 by {
      if |f.name| > 0 && ',' !in f.name && (tn == "" || HasPrefix(tn, ",")) {
        BeforeAbsent(f.name, ',');
      }
    }
    r
  }

  lemma BeforeIdempotent(s: string, c: char)
    ensures Before(Before(s, c), c) == Before(s, c)
  {
    BeforeAbsent(Before(s, c), c);
  }

  lemma BeforeAbsent(s: string, c: char)
    requires c !in s
    ensures Before(s, c) == s
  {
    var b := Before(s, c);
    if |b| < |s| {
      assert false;
    }
  }

  /** The documentation tags of a field applied to its inspected property:
      `example`, then `description`, overridden by `desc`, and `enum` split
      on commas. An empty tag value changes nothing. */
  function Decorate(p: Property, tag: map<string, string>): (r: Property)
    ensures TagGet(tag, "example") != "" ==> r.example == TagGet(tag, "example")
    ensures TagGet(tag, "example") == "" ==> r.example == p.example
    ensures TagGet(tag, "desc") != "" ==> r.description == TagGet(tag, "desc")
    ensures TagGet(tag, "desc") == "" && TagGet(tag, "description") != "" ==> r.description == TagGet(tag, "description")
    ensures TagGet(tag, "desc") == "" && TagGet(tag, "description") == "" ==> r.description == p.description
    ensures TagGet(tag, "enum") != "" ==> |r.enum| >= 1 && Join(r.enum, ',') == TagGet(tag, "enum")
    ensures TagGet(tag, "enum") == "" ==> r.enum == p.enum
    ensures r.(example := p.example, description := p.description, enum := p.enum) == p
  {
    var example := TagGet(tag, "example");
    var description := TagGet(tag, "description");
    var desc := TagGet(tag, "desc");
    var enum := TagGet(tag, "enum");
    var p1 := if example != "" then p.(example := example) else p;
    var p2 := if description != "" then p1.(description := description) else p1;
    var p3 := if desc != "" then p2.(description := desc) else p2;
    var p4 := if enum != "" then p3.(enum := Split(enum, ',')) else p3;
    assert enum != "" ==> Join(Split(enum, ','), ',') == enum by {
      if enum != "" {
        JoinSplit(enum, ',');
      }
    }
    p4
  }

  /** A property of a field that is neither skipped nor embedded. */
  function FieldProperty(u: Universe, f: Field): Property {
    Decorate(Inspect(u, f.typ, TagGet(f.tag, "json")), f.tag)
  }

  /** The properties and required names of a struct. */
  datatype Built = Built(props: map<string, Property>, required: seq<string>)

  /** A field the fold turns into a property of its own. */
  predicate IsDirect(f: Field) {
    IsExportedName(f.name) && !f.embedded && JsonName(f) != "-"
  }

  /** The names a struct's own fields mark `required`, in field order: the
      json names of the direct fields whose tag has a `required` key,
      whatever its value. Embedded structs contribute none. */
  function RequiredNames(fields: seq<Field>): seq<string> {
    if |fields| == 0 then []
    else
      var f := fields[|fields| - 1];
      RequiredNames(fields[..|fields| - 1]) + (if IsDirect(f) && "required" in f.tag then [JsonName(f)] else [])
  }

  /** Keys a property map may have: non-empty, comma-free and never "-". */
  predicate GoodKeys(props: map<string, Property>) {
    forall k | k in props :: k != "" && k != "-" && ',' !in k
  }

  /** Every Go type a property records mentions declared structs only. */
  predicate ClosedProps(u: Universe, props: map<string, Property>) {
    forall k | k in props :: props[k].goType.Some? ==> Closed(u, props[k].goType.value)
  }

  /** `buildProperty(t)` for the declared struct `id`. */
  function BuildProperty(u: Universe, id: StructId): (r: Built)
    requires WellFormed(u) && id in u.decls
    ensures r.required == RequiredNames(u.decls[id].fields)
    ensures forall i | 0 <= i < |r.required| :: r.required[i] in r.props
    ensures GoodKeys(r.props)
    ensures ClosedProps(u, r.props)
    decreases id, 1, 0
  {
    BuildFields(u, id, |u.decls[id].fields|)
  }

  /** What the fold needs of field `i` of a declared struct. */
  lemma FieldFacts(u: Universe, id: StructId, i: nat)
    requires WellFormed(u) && id in u.decls && i < |u.decls[id].fields|
    ensures var f := u.decls[id].fields[i];
      && Closed(u, f.typ) && |f.name| > 0 && ',' !in f.name
      && (IsExportedName(f.name) && f.embedded ==> f.typ.Struct? && f.typ.id < id && f.typ.id in u.decls)
  {
    assert FieldWellFormed(u, id, u.decls[id].fields[i]);
  }

  /** The names the first `n` fields mark: those of the first `n - 1`, then
      field `n - 1`'s own. */
  lemma RequiredNamesSnoc(fields: seq<Field>, n: nat)
    requires 0 < n <= |fields|
    ensures RequiredNames(fields[..n]) == RequiredNames(fields[..n - 1]) +
      (if IsDirect(fields[n - 1]) && "required" in fields[n - 1].tag then [JsonName(fields[n - 1])] else [])
  {
    assert fields[..n][..n - 1] == fields[..n - 1];
  }

  /** The fold over the first `n` fields of struct `id`. */
  function BuildFields(u: Universe, id: StructId, n: nat): (r: Built)
    requires WellFormed(u) && id in u.decls && n <= |u.decls[id].fields|
    ensures r.required == RequiredNames(u.decls[id].fields[..n])
    ensures forall i | 0 <= i < |r.required| :: r.required[i] in r.props
    ensures GoodKeys(r.props)
    ensures ClosedProps(u, r.props)
    decreases id, 0, n
  {
    var fields := u.decls[id].fields;
    if n == 0 then Built(map[], [])
    else
      var acc := BuildFields(u, id, n - 1);
      var f := fields[n - 1];
      FieldFacts(u, id, n - 1);
      RequiredNamesSnoc(fields, n);
      var inner := if IsExportedName(f.name) && f.embedded then BuildProperty(u, f.typ.id) else Built(map[], []);
      AddField(u, acc, f, inner)
  }

  /** One step of the fold: skip an unexported or ignored field, merge the
      properties of an embedded struct (`inner`), or add the field's own
      property, later entries overwriting earlier ones. */
  function AddField(u: Universe, acc: Built, f: Field, inner: Built): (r: Built)
    requires Closed(u, f.typ) && ',' !in f.name && |f.name| > 0
    requires forall i | 0 <= i < |acc.required| :: acc.required[i] in acc.props
    requires GoodKeys(acc.props) && ClosedProps(u, acc.props)
    requires GoodKeys(inner.props) && ClosedProps(u, inner.props)
    ensures r.required == acc.required + (if IsDirect(f) && "required" in f.tag then [JsonName(f)] else [])
    ensures forall i | 0 <= i < |r.required| :: r.required[i] in r.props
    ensures GoodKeys(r.props) && ClosedProps(u, r.props)
    ensures !IsExportedName(f.name) ==> r == acc
    ensures IsExportedName(f.name) && f.embedded ==> r.props == acc.props + inner.props
    ensures IsDirect(f) ==> r.props == acc.props[JsonName(f) := FieldProperty(u, f)]
  {
    if !IsExportedName(f.name) then acc
    else if f.embedded then Built(acc.props + inner.props, acc.required)
    else
      if JsonName(f) == "-" then acc
      else AddDirect(u, acc, f)
  }

  /** The step of the fold for a direct field: its property under its json
      name, and that name appended to `required` when the tag asks. */
  function AddDirect(u: Universe, acc: Built, f: Field): (r: Built)
    requires IsDirect(f) && Closed(u, f.typ) && ',' !in f.name && |f.name| > 0
    requires forall i | 0 <= i < |acc.required| :: acc.required[i] in acc.props
    requires GoodKeys(acc.props) && ClosedProps(u, acc.props)
    ensures r.props == acc.props[JsonName(f) := FieldProperty(u, f)]
    ensures r.required == acc.required + (if "required" in f.tag then [JsonName(f)] else [])
    ensures forall i | 0 <= i < |r.required| :: r.required[i] in r.props
    ensures GoodKeys(r.props) && ClosedProps(u, r.props)
  {
    var name := JsonName(f);
    Built(acc.props[name := FieldProperty(u, f)], acc.required + (if "required" in f.tag then [name] else []))
  }

  /** Whether field `i` of struct `id` gives the property map the key `k`:
      a direct field through its json name, an exported embedded struct
      through any key of its own map. */
  predicate Provides(u: Universe, id: StructId, i: nat, k: string)
    requires WellFormed(u) && id in u.decls && i < |u.decls[id].fields|
  {
    var f := u.decls[id].fields[i];
    assert FieldWellFormed(u, id, f);
    if IsExportedName(f.name) && f.embedded then k in BuildProperty(u, f.typ.id).props
    else IsDirect(f) && JsonName(f) == k
  }

  /** The keys of the fold are exactly the keys some field provides. */
  lemma {:induction false} BuildFieldsKeys(u: Universe, id: StructId, n: nat, k: string)
    requires WellFormed(u) && id in u.decls && n <= |u.decls[id].fields|
    ensures k in BuildFields(u, id, n).props <==> exists i | 0 <= i < n :: Provides(u, id, i, k)
  {
    if n > 0 {
      BuildFieldsKeys(u, id, n - 1, k);
      BuildFieldsStepKeys(u, id, n, k);
      var before := k in BuildFields(u, id, n - 1).props;
      if exists i | 0 <= i < n :: Provides(u, id, i, k) {
        var i :| 0 <= i < n && Provides(u, id, i, k);
        if i < n - 1 {
          assert before;
        }
      }
      if before {
        var i :| 0 <= i < n - 1 && Provides(u, id, i, k);
        assert 0 <= i < n;
      }
    }
  }

  /** One step of the fold adds the keys of the new field, and keeps all
      others. */
  lemma BuildFieldsStepKeys(u: Universe, id: StructId, n: nat, k: string)
    requires WellFormed(u) && id in u.decls && 0 < n <= |u.decls[id].fields|
    ensures k in BuildFields(u, id, n).props <==> k in BuildFields(u, id, n - 1).props || Provides(u, id, n - 1, k)
  {
    var f := u.decls[id].fields[n - 1];
    assert FieldWellFormed(u, id, f);
  }

  /** The keys of a struct's property map, field by field. */
  lemma BuildPropertyKeys(u: Universe, id: StructId, k: string)
    requires WellFormed(u) && id in u.decls
    ensures k in BuildProperty(u, id).props <==> exists i | 0 <= i < |u.decls[id].fields| :: Provides(u, id, i, k)
  {
    BuildFieldsKeys(u, id, |u.decls[id].fields|, k);
  }

  /** A struct none of whose fields is exported, or whose exported fields are
      all ignored with `json:"-"`, has no properties. */
  lemma HonorJsonIgnore(u: Universe, id: StructId)
    requires WellFormed(u) && id in u.decls
    requires forall i | 0 <= i < |u.decls[id].fields| ::
      var f := u.decls[id].fields[i]; !IsExportedName(f.name) || (!f.embedded && JsonName(f) == "-")
    ensures BuildProperty(u, id).props == map[]
  {
    var props := BuildProperty(u, id).props;
    forall k | k in props
      ensures false
    {
      BuildPropertyKeys(u, id, k);
    }
  }

  /** The type `defineObject` describes: the element of a slice, with one
      pointer stripped. */
  function DefinedType(t: GoType): (r: GoType)
    ensures !r.Ptr? || (t.Ptr? && t.elem.Ptr?) || (t.Slice? && t.elem.Ptr? && t.elem.elem.Ptr?)
    ensures StructIds(r) <= StructIds(t)
  {
    Deref(if t.Slice? then t.elem else t)
  }

  /** `defineObject(t, desc)`: a struct becomes an "object" definition named
      by `makeName`, carrying its properties, required names and the given
      description; any other type becomes a definition named by its kind
      whose type and format are `inspect`'s. */
  function DefineObject(u: Universe, t: GoType, desc: string): (r: Object)
    requires WellFormed(u) && Closed(u, t)
    ensures r.isArray <==> t.Slice?
    ensures r.goType == DefinedType(t) && Closed(u, r.goType)
    ensures r.goType.Struct? ==>
      && r.name == MakeName(u, r.goType) && r.typ == ObjectType && r.format == ""
      && r.description == desc
      && r.properties == BuildProperty(u, r.goType.id).props
      && r.required == RequiredNames(u.decls[r.goType.id].fields)
    ensures !r.goType.Struct? ==>
      && r.name == KindString(KindOf(r.goType))
      && r.typ == Inspect(u, r.goType, "").typ && r.format == Inspect(u, r.goType, "").format
      && r.description == "" && r.required == [] && r.properties == map[]
    ensures forall i | 0 <= i < |r.required| :: r.required[i] in r.properties
    ensures GoodKeys(r.properties) && ClosedProps(u, r.properties)
  {
    var g := DefinedType(t);
    assert StructIds(g) <= StructIds(t);
    if !g.Struct? then
      var p := Inspect(u, g, "");
      Object(t.Slice?, g, KindString(KindOf(g)), p.typ, "", p.format, [], map[])
    else
      var b := BuildProperty(u, g.id);
      Object(t.Slice?, g, MakeName(u, g), ObjectType, desc, "", b.required, b.props)
  }

  /** Definition names of structs always hold a dot and those of other types
      never do, so the two kinds of definition cannot overwrite each other. */
  lemma DefineObjectNameDot(u: Universe, t: GoType, desc: string)
    requires WellFormed(u) && Closed(u, t)
    ensures '.' in DefineObject(u, t, desc).name <==> DefinedType(t).Struct?
  {
  }

  /** The non-struct cases of the definition unit test. */
  lemma DefineObjectScalarExamples(u: Universe)
    requires WellFormed(u)
    ensures var o := DefineObject(u, Basic(Int32, None), "");
      o.name == "int32" && !o.isArray && o.typ == "integer" && o.format == "int32"
    ensures var o := DefineObject(u, Basic(Uint64, None), "");
      o.name == "uint64" && !o.isArray && o.typ == "integer" && o.format == "int64"
    ensures var o := DefineObject(u, Basic(String, None), "");
      o.name == "string" && !o.isArray && o.typ == "string" && o.format == ""
  {
  }

  /** The byte cases of the definition unit test: a byte slice is defined
      as its element. */
  lemma DefineObjectByteExamples(u: Universe)
    requires WellFormed(u)
    ensures var o := DefineObject(u, Basic(Uint8, None), "");
      o.name == "uint8" && !o.isArray && o.typ == "integer" && o.format == "int32"
    ensures var o := DefineObject(u, Slice(Basic(Uint8, None)), "");
      o.name == "uint8" && o.isArray && o.typ == "integer" && o.format == "int32"
  {
  }

  /** `MakeSchema(prototype)`: a reference to the prototype's definition,
      wrapped in an "array" schema when the prototype is a slice. */
  function MakeSchema(u: Universe, t: GoType): (r: SchemaRef)
    requires WellFormed(u) && Closed(u, t)
    ensures r.prototype == t
    ensures r.typ == ArrayType <==> t.Slice?
    ensures t.Slice? ==>
      && r.ref == "" && r.items.Some? && r.items.value.typ == "" && r.items.value.format == ""
      && RefTarget(r.items.value.ref) == Some(DefineObject(u, t, "").name)
    ensures !t.Slice? ==> r.typ == "" && r.items.None? && RefTarget(r.ref) == Some(DefineObject(u, t, "").name)
  {
    var obj := DefineObject(u, t, "");
    RefTargetMakeRef(obj.name);
    if obj.isArray then SchemaRef(t, ArrayType, "", Some(Items("", "", MakeRef(obj.name))))
    else SchemaRef(t, "", MakeRef(obj.name), None)
  }
}
