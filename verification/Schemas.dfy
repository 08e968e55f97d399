/** Schemas, their canonical form and the compatibility report
    (internal/contract/domain/model.go). */
module Schemas {
  import opened Values
  import Text
  import Sorting

  datatype Field = Field(
    name: string, typ: string, required: bool, default: Value, enum: seq<string>, annotation: string)

  datatype Kind = JsonSchema | Protobuf | OtherKind(name: string)

  datatype Schema = Schema(kind: Kind, fields: seq<Field>, raw: string)

  /** A compatibility mode; only `Forward` is treated apart, and `Unset` becomes `Backward`. */
  datatype Mode = Unset | Backward | Forward | Full | NoMode | OtherMode(name: string)

  datatype Severity = Breaking | Warning | Safe

  /** What changed; the explanation text is determined by it. */
  datatype ChangeKind =
    | FieldAddedToOldPayload
    | FieldRemoved
    | TypeChanged(before: string, after: string)
    | RequiredStrengthened
    | EnumNarrowed
    | AnnotationChanged
    | FieldAdded

  /** A change of the field called `name`; its path is that of the field or of one attribute. */
  datatype Change = Change(name: string, kind: ChangeKind, severity: Severity) {
    function Path(): string {
      "fields." + name + Suffix(kind)
    }
  }

  function Suffix(kind: ChangeKind): string {
    match kind
    case TypeChanged(_, _) => ".type"
    case EnumNarrowed => ".enum"
    case AnnotationChanged => ".annotation"
    case _ => ""
  }

  datatype Report = Report(compatible: bool, mode: Mode, changes: seq<Change>)

  // ---------------------------------------------------------------- canonical form

  predicate FieldLt(a: Field, b: Field) {
    Text.Less(a.name, b.name)
  }

  lemma FieldOrder()
    ensures Sorting.StrictWeak(FieldLt)
  {
    Sorting.KeyOrder(FieldLt, (f: Field) => f.name);
  }

  lemma StringOrder()
    ensures Sorting.StrictWeak(Text.Less)
  {
    Sorting.KeyOrder(Text.Less, (s: string) => s);
  }

  function Normal(f: Field): Field {
    f.(name := Text.Trim(f.name), typ := Text.TypeName(f.typ), enum := Sorting.Sort(f.enum, Text.Less))
  }

  function Normals(fs: seq<Field>): (r: seq<Field>)
    ensures |r| == |fs|
  {
    seq(|fs|, i requires 0 <= i < |fs| => Normal(fs[i]))
  }

  /** Fields sorted by their raw names, then trimmed, with lower-case types and sorted enums. */
  function Canonical(s: Schema): Schema {
    Schema(s.kind, Normals(Sorting.Sort(s.fields, FieldLt)), Text.Trim(s.raw))
  }

  /** `sort.Strings`: equal strings are indistinguishable, so the result is determined. */
  method SortStrings(s: seq<string>) returns (r: seq<string>)
    ensures r == Sorting.Sort(s, Text.Less)
  {
    StringOrder();
    r := Sorting.SortSlice(s, Text.Less);
    Sorting.SortSorts(s, Text.Less);
    Sorting.SortPermutes(s, Text.Less);
    forall x, y | x in r && y in r && x != y
      ensures Text.Less(x, y) || Text.Less(y, x)
    {
      Text.LessConnected(x, y);
    }
    Sorting.SortedUnique(r, Sorting.Sort(s, Text.Less), Text.Less);
  }

  /** What `sort.Slice` by raw name may make of the fields: the order of fields that share a raw name is open. */
  predicate Ordering(fs: seq<Field>, order: seq<Field>) {
    multiset(order) == multiset(fs) && Sorting.Sorted(order, FieldLt)
  }

  /** `Canonical`: a sort in place and a loop over the sorted fields. */
  method Canonicalize(s: Schema) returns (c: Schema, ghost order: seq<Field>)
    ensures Ordering(s.fields, order) && c == Schema(s.kind, Normals(order), Text.Trim(s.raw))
    ensures Identified(s.fields) ==> c == Canonical(s)
  {
    FieldOrder();
    var sorted := Sorting.SortSlice(s.fields, FieldLt);
    var fields := sorted;
    for i := 0 to |sorted|
      invariant |fields| == |sorted|
      invariant forall j | 0 <= j < |sorted| :: fields[j] == if j < i then Normal(sorted[j]) else sorted[j]
    {
      var f := fields[i];
      var enum_ := SortStrings(f.enum);
      fields := fields[i := f.(name := Text.Trim(f.name), typ := Text.ToLower(Text.Trim(f.typ)), enum := enum_)];
    }
    c, order := Schema(s.kind, fields, Text.Trim(s.raw)), sorted;
    assert fields == Normals(order);
    if Identified(s.fields) {
      SortDetermined(s.fields, order);
    }
  }

  lemma SortIsOrdering(fs: seq<Field>)
    ensures Ordering(fs, Sorting.Sort(fs, FieldLt))
  {
    FieldOrder();
    Sorting.SortSorts(fs, FieldLt);
    Sorting.SortPermutes(fs, FieldLt);
  }

  lemma SortDetermined(fs: seq<Field>, sorted: seq<Field>)
    requires Identified(fs) && Ordering(fs, sorted)
    ensures sorted == Sorting.Sort(fs, FieldLt)
  {
    FieldOrder();
    Sorting.SortSorts(fs, FieldLt);
    Sorting.SortPermutes(fs, FieldLt);
    Sorting.SameElements(sorted, fs);
    forall f, g | f in sorted && g in sorted && f != g
      ensures FieldLt(f, g) || FieldLt(g, f)
    {
      Text.LessConnected(f.name, g.name);
    }
    Sorting.SortedUnique(sorted, Sorting.Sort(fs, FieldLt), FieldLt);
  }

  lemma NormalIdempotent(f: Field)
    ensures Normal(Normal(f)) == Normal(f)
  {
    Text.TrimIdempotent(f.name);
    Text.TypeNameIdempotent(f.typ);
    StringOrder();
    Sorting.SortSorts(f.enum, Text.Less);
    Sorting.SortFixed(Sorting.Sort(f.enum, Text.Less), Text.Less);
  }

  /** Canonicalising again only re-sorts: the raw-name order need not survive trimming. */
  lemma CanonicalTwice(s: Schema)
    ensures Canonical(Canonical(s)).fields == Sorting.Sort(Canonical(s).fields, FieldLt)
    ensures Canonical(Canonical(s)).kind == s.kind
    ensures Canonical(Canonical(s)).raw == Canonical(s).raw
  {
    var c := Canonical(s).fields;
    var d := Sorting.Sort(c, FieldLt);
    Sorting.SortPermutes(c, FieldLt);
    Sorting.SameElements(d, c);
    forall i | 0 <= i < |d|
      ensures Normal(d[i]) == d[i]
    {
      assert d[i] in c;
      var raw := Sorting.Sort(s.fields, FieldLt);
      var j :| 0 <= j < |c| && c[j] == d[i];
      NormalIdempotent(raw[j]);
    }
    assert Normals(d) == d;
    Text.TrimIdempotent(s.raw);
  }

  /** No two fields swap places when white space is removed from their names. */
  ghost predicate TrimmingKeepsOrder(fs: seq<Field>) {
    forall f, g | f in fs && g in fs && FieldLt(f, g) :: !Text.Less(Text.Trim(g.name), Text.Trim(f.name))
  }

  /** Sorted stably, the fields are a fixed point exactly when trimming keeps the order of the raw names. */
  lemma StableIdempotentIff(s: Schema)
    requires Identified(s.fields)
    ensures Canonical(Canonical(s)) == Canonical(s) <==> TrimmingKeepsOrder(s.fields)
    ensures Sorting.Sorted(Canonical(s).fields, FieldLt) <==> TrimmingKeepsOrder(s.fields)
  {
    CanonicalTwice(s);
    FieldOrder();
    Sorting.SortFixed(Canonical(s).fields, FieldLt);
    Sorting.SortSorts(s.fields, FieldLt);
    var raw := Sorting.Sort(s.fields, FieldLt);
    SortKeepsNames(s.fields);
    if TrimmingKeepsOrder(s.fields) {
      NormalsStaySorted(raw);
    } else {
      NormalsUnsorted(raw);
    }
  }

  /** Canonicalising the canonical form again changes nothing, however the sort orders equal names. */
  ghost predicate Idempotent(s: Schema) {
    forall order | Ordering(Canonical(s).fields, order) :: Normals(order) == Canonical(s).fields
  }

  /** Fields of a canonical form are in normal form, in whatever order. */
  lemma {:induction false} OrderingIsNormal(s: Schema, order: seq<Field>)
    requires Ordering(Canonical(s).fields, order)
    ensures Normals(order) == order
  {
    hide Text.Trim, Text.TypeName, Sorting.Sort, FieldLt;
    var c, raw := Canonical(s).fields, Sorting.Sort(s.fields, FieldLt);
    Sorting.SameElements(order, c);
    forall i | 0 <= i < |order|
      ensures Normal(order[i]) == order[i]
    {
      assert order[i] in c;
      var j :| 0 <= j < |c| && c[j] == order[i];
      NormalIdempotent(raw[j]);
    }
  }

  function Swapped(fs: seq<Field>, i: nat, j: nat): (r: seq<Field>)
    requires i < |fs| && j < |fs|
    ensures |r| == |fs|
  {
    fs[i := fs[j]][j := fs[i]]
  }

  /** Fields of one name can change places in a sorted list. */
  lemma SwapTied(fs: seq<Field>, i: nat, j: nat)
    requires Sorting.Sorted(fs, FieldLt) && i < |fs| && j < |fs| && fs[i].name == fs[j].name
    ensures Ordering(fs, Swapped(fs, i, j))
  {
    hide Text.Less;
    var r := Swapped(fs, i, j);
    assert forall k | 0 <= k < |fs| :: r[k].name == fs[k].name;
    forall k, l | 0 <= k < l < |r|
      ensures !FieldLt(r[l], r[k])
    {
      assert !FieldLt(fs[l], fs[k]);
    }
  }

  /** `Canonical` is idempotent exactly when trimming keeps the order of the raw names and lets no two
      different fields have one name; with a tie the sort is free to swap them. `Identified` is what
      `Validate` guarantees of raw fields. */
  lemma {:induction false} CanonicalIdempotentIff(s: Schema)
    requires Identified(s.fields)
    ensures Idempotent(s) <==> TrimmingKeepsOrder(s.fields) && TrimmedApart(s.fields)
  {
    var c := Canonical(s).fields;
    StableIdempotentIff(s);
    IdentifiedIff(s);
    hide TrimmingKeepsOrder, TrimmedApart, Canonical;
    if TrimmingKeepsOrder(s.fields) && TrimmedApart(s.fields) {
      forall order | Ordering(c, order)
        ensures Normals(order) == c
      {
        OrderingIsNormal(s, order);
        SortDetermined(c, order);
        SortDetermined(c, c);
      }
    }
    if Idempotent(s) {
      SortIsOrdering(c);
      OrderingIsNormal(s, Sorting.Sort(c, FieldLt));
      assert Sorting.Sorted(c, FieldLt);
      forall f, g | f in c && g in c && f.name == g.name
        ensures f == g
      {
        TiesEqual(s, f, g);
      }
    }
  }

  lemma {:induction false} TiesEqual(s: Schema, f: Field, g: Field)
    requires Idempotent(s) && Sorting.Sorted(Canonical(s).fields, FieldLt)
    requires f in Canonical(s).fields && g in Canonical(s).fields && f.name == g.name
    ensures f == g
  {
    hide Canonical, Ordering;
    var c := Canonical(s).fields;
    var i :| 0 <= i < |c| && c[i] == f;
    var j :| 0 <= j < |c| && c[j] == g;
    SwapTied(c, i, j);
    OrderingIsNormal(s, Swapped(c, i, j));
    assert Swapped(c, i, j)[i] == g;
  }

  lemma SortKeepsNames(fs: seq<Field>)
    requires Identified(fs)
    ensures Identified(Sorting.Sort(fs, FieldLt))
    ensures TrimmingKeepsOrder(Sorting.Sort(fs, FieldLt)) <==> TrimmingKeepsOrder(fs)
  {
    Sorting.SortPermutes(fs, FieldLt);
    Sorting.SameElements(Sorting.Sort(fs, FieldLt), fs);
  }

  lemma {:induction false} NormalsStaySorted(raw: seq<Field>)
    requires Sorting.Sorted(raw, FieldLt) && TrimmingKeepsOrder(raw) && Identified(raw)
    ensures Sorting.Sorted(Normals(raw), FieldLt)
  {
    hide Text.Trim, Text.TypeName, Sorting.Sort, Text.Less;
    var c := Normals(raw);
    forall i, j | 0 <= i < j < |c|
      ensures !FieldLt(c[j], c[i])
    {
      assert raw[i] in raw && raw[j] in raw;
      if raw[i].name == raw[j].name {
        Text.LessIrreflexive(c[i].name);
      } else {
        Text.LessConnected(raw[i].name, raw[j].name);
      }
    }
  }

  lemma NormalsUnsorted(raw: seq<Field>)
    requires Sorting.Sorted(raw, FieldLt) && !TrimmingKeepsOrder(raw)
    ensures !Sorting.Sorted(Normals(raw), FieldLt)
  {
    var f, g :| f in raw && g in raw && FieldLt(f, g) && Text.Less(Text.Trim(g.name), Text.Trim(f.name));
    var i :| 0 <= i < |raw| && raw[i] == f;
    var j :| 0 <= j < |raw| && raw[j] == g;
    Text.LessIrreflexive(f.name);
    assert !(j < i);
    assert i < j;
    assert FieldLt(Normals(raw)[j], Normals(raw)[i]);
  }

  /** Witnesses: " c" sorts before "b", but "c" does not, so no second sort finds the fields in place; and "a" and
      "a " keep their order but become a tie. */
  lemma {:induction false} CanonicalNotIdempotent()
    ensures exists s: Schema :: ValidSchema(s) && forall order | Ordering(Canonical(s).fields, order) :: Normals(order) != Canonical(s).fields
    ensures exists s: Schema :: ValidSchema(s) && TrimmingKeepsOrder(s.fields) && !Idempotent(s)
  {
    hide ValidSchema, TrimmingKeepsOrder, Idempotent, Canonical, Ordering;
    var s := MovedName();
    NothingInPlace(s);
    TieNotIdempotent();
  }

  lemma MovedName() returns (s: Schema)
    ensures ValidSchema(s) && !TrimmingKeepsOrder(s.fields)
  {
    var f, g := Field(" c", "x", false, Null, [], ""), Field("b", "x", false, Null, [], "");
    s := Schema(JsonSchema, [f, g], "");
    SpaceMovesName();
    hide Text.Trim, Text.Less;
    assert f in s.fields && g in s.fields && FieldLt(f, g);
    assert |f.name| != |g.name| && f.typ != "";
  }

  lemma {:induction false} NothingInPlace(s: Schema)
    requires ValidSchema(s) && !TrimmingKeepsOrder(s.fields)
    ensures forall order | Ordering(Canonical(s).fields, order) :: Normals(order) != Canonical(s).fields
  {
    ValidIdentified(s);
    hide Canonical, TrimmingKeepsOrder, ValidSchema, Identified, FieldLt, Normal;
    StableIdempotentIff(s);
    var c := Canonical(s).fields;
    assert !Sorting.Sorted(c, FieldLt);
    forall order | Ordering(c, order)
      ensures Normals(order) != c
    {
      OrderingIsNormal(s, order);
      assert Sorting.Sorted(order, FieldLt);
      hide Sorting.Sorted;
    }
  }

  lemma {:induction false} TieNotIdempotent()
    ensures exists s: Schema :: ValidSchema(s) && TrimmingKeepsOrder(s.fields) && !Idempotent(s)
  {
    hide Tied, TrimmingKeepsOrder, TrimmedApart, Canonical, Idempotent, Identified, ValidSchema, Text.Trim, Normal;
    var s := Tied();
    TiedCollide();
    TieKeepsOrder(s.fields);
    IdentifiedIff(s);
    CanonicalIdempotentIff(s);
  }

  lemma TieKeepsOrder(fs: seq<Field>)
    requires |fs| == 2 && Text.Trim(fs[0].name) == Text.Trim(fs[1].name)
    ensures TrimmingKeepsOrder(fs)
  {
    hide Text.Trim, Text.Less;
    Text.LessIrreflexive(Text.Trim(fs[0].name));
    assert forall x | x in fs :: x == fs[0] || x == fs[1];
  }

  /** Two fields whose names only white space keeps apart. */
  function Tied(): Schema {
    Schema(JsonSchema, [Field("a", "x", false, Null, [], ""), Field("a ", "x", true, Null, [], "")], "")
  }

  lemma {:induction false} TiedCollide()
    ensures ValidSchema(Tied()) && Identified(Tied().fields) && !Identified(Canonical(Tied()).fields) && |Tied().fields| == 2
    ensures Text.Trim(Tied().fields[0].name) == Text.Trim(Tied().fields[1].name)
  {
    var s := Tied();
    var f, g := s.fields[0], s.fields[1];
    SpaceDropped();
    assert ValidSchema(s) by {
      assert |f.name| != |g.name| && f.typ != "";
    }
    assert Normal(f).required != Normal(g).required;
    hide Text.Trim, Text.TypeName, Normal, Tied;
    ValidIdentified(s);
    assert f in s.fields && g in s.fields;
    hide ValidSchema, Canonical, Identified;
    IdentifiedIff(s);
  }

  lemma ValidIdentified(s: Schema)
    requires ValidSchema(s)
    ensures Identified(s.fields)
  {
  }

  lemma SpaceMovesName()
    ensures Text.Less(" c", "b") && Text.Less(Text.Trim("b"), Text.Trim(" c"))
  {
    assert Text.TrimLeft(" c") == "c";
  }

  // ---------------------------------------------------------------- validation

  /** Fields of the same name are the same field, so a name identifies a field. */
  ghost predicate Identified(fs: seq<Field>) {
    forall f, g | f in fs && g in fs && f.name == g.name :: f == g
  }

  predicate ValidSchema(s: Schema) {
    && (s.kind == JsonSchema || s.kind == Protobuf)
    && s.fields != []
    && (forall f | f in s.fields :: f.name != "" && f.typ != "")
    && (forall i, j | 0 <= i < j < |s.fields| :: s.fields[i].name != s.fields[j].name)
  }

  /** `Schema.Validate`: one pass with a set of names seen so far. */
  method Validate(s: Schema) returns (r: Result<()>)
    ensures r.Ok? <==> ValidSchema(s)
    ensures r.Ok? ==> Identified(s.fields)
  {
    if s.kind != JsonSchema && s.kind != Protobuf {
      return Err("schema kind must be json-schema or protobuf");
    }
    if |s.fields| == 0 {
      return Err("schema needs at least one field");
    }
    var seen: set<string> := {};
    for k := 0 to |s.fields|
      invariant forall i | 0 <= i < k :: s.fields[i].name != "" && s.fields[i].typ != ""
      invariant seen == set i | 0 <= i < k :: s.fields[i].name
      invariant forall i, j | 0 <= i < j < k :: s.fields[i].name != s.fields[j].name
    {
      var f := s.fields[k];
      if f.name == "" || f.typ == "" {
        return Err("fields require name and type");
      }
      if f.name in seen {
        return Err("duplicate field");
      }
      seen := seen + {f.name};
    }
    return Ok(());
  }

  // ---------------------------------------------------------------- fields by name

  type FieldMap = map<string, Field>

  /** The map built by assigning each field in turn: a later field wins. */
  function ByName(fs: seq<Field>): (m: FieldMap)
    ensures forall n | n in m :: m[n] in fs && m[n].name == n
    ensures forall f | f in fs :: f.name in m
  {
    if fs == [] then map[] else
      var f := fs[|fs| - 1];
      ByName(fs[..|fs| - 1])[f.name := f]
  }

  lemma ByNameLookup(fs: seq<Field>, f: Field)
    requires Identified(fs) && f in fs
    ensures f.name in ByName(fs) && ByName(fs)[f.name] == f
  {
  }

  lemma ByNameForgetsOrder(a: seq<Field>, b: seq<Field>)
    requires Identified(a) && multiset(a) == multiset(b)
    ensures Identified(b) && ByName(a) == ByName(b)
  {
    Sorting.SameElements(a, b);
    forall n | n in ByName(a)
      ensures n in ByName(b) && ByName(a)[n] == ByName(b)[n]
    {
      ByNameLookup(b, ByName(a)[n]);
    }
  }

  /** The fields of a schema by canonical name: all that `compare` looks at. */
  function Fields(s: Schema): FieldMap {
    ByName(Canonical(s).fields)
  }

  /** A stored schema is canonical already; looking it up again changes nothing. */
  lemma StoredFields(s: Schema)
    requires Identified(Canonical(s).fields)
    ensures Fields(Canonical(s)) == Fields(s)
    ensures Identified(Canonical(Canonical(s)).fields)
  {
    CanonicalTwice(s);
    Sorting.SortPermutes(Canonical(s).fields, FieldLt);
    ByNameForgetsOrder(Canonical(s).fields, Canonical(Canonical(s)).fields);
  }

  /** Fields whose names trim alike become the same field. */
  ghost predicate TrimmedApart(fs: seq<Field>) {
    forall f, g | f in fs && g in fs && Text.Trim(f.name) == Text.Trim(g.name) :: Normal(f) == Normal(g)
  }

  /** The canonical form has the normal forms of the fields, and no others. */
  lemma {:induction false} CanonicalMembers(s: Schema)
    ensures forall f | f in s.fields :: Normal(f) in Canonical(s).fields
    ensures forall x | x in Canonical(s).fields :: exists f :: f in s.fields && x == Normal(f)
  {
    hide Text.Trim, Text.TypeName, Sorting.Sort, Normal;
    var raw := Sorting.Sort(s.fields, FieldLt);
    Sorting.SortPermutes(s.fields, FieldLt);
    Sorting.SameElements(raw, s.fields);
    var c := Canonical(s).fields;
    forall f | f in s.fields
      ensures Normal(f) in c
    {
      var i :| 0 <= i < |raw| && raw[i] == f;
      assert c[i] == Normal(f);
    }
    forall x | x in c
      ensures exists f :: f in s.fields && x == Normal(f)
    {
      var i :| 0 <= i < |c| && c[i] == x;
      assert raw[i] in raw;
    }
  }

  /** Names identify the fields of the canonical form exactly when no two different fields have raw names
      that trim alike. */
  lemma {:induction false} IdentifiedIff(s: Schema)
    ensures Identified(Canonical(s).fields) <==> TrimmedApart(s.fields)
  {
    CanonicalMembers(s);
    hide Canonical, Text.Trim, Text.TypeName, Sorting.Sort;
    assert forall f :: Normal(f).name == Text.Trim(f.name);
  }

  /** A valid schema may have two names that only white space keeps apart; one of the two fields then
      shadows the other in every comparison. */
  lemma TrimmedNamesCollide()
    ensures exists s: Schema :: ValidSchema(s) && !Identified(Canonical(s).fields)
  {
    TiedCollide();
  }

  lemma SpaceDropped()
    ensures Text.Trim("a ") == Text.Trim("a")
  {
    assert "a "[..1] == "a";
  }

  // ---------------------------------------------------------------- schemas of one or two fields

  function Plain(name: string, typ: string): Field {
    Field(name, typ, false, Null, [], "")
  }

  function Fielded(fs: seq<Field>): Schema {
    Schema(JsonSchema, fs, "")
  }

  /** A field as it is stored. */
  predicate InForm(f: Field) {
    f.name != "" && Text.Trimmed(f.name) && f.typ != "" && Text.TypeName(f.typ) == f.typ && |f.enum| <= 1
  }

  lemma FormIsNormal(f: Field)
    requires InForm(f)
    ensures Normal(f) == f
  {
    Text.TrimIdempotent(f.name);
    assert Sorting.Sort(f.enum, Text.Less) == f.enum;
  }

  lemma {:induction false} OneField(f: Field)
    requires InForm(f)
    ensures var s := Fielded([f]);
            ValidSchema(s) && Canonical(s).fields == [f] && Fields(s) == map[f.name := f] && TrimmedApart(s.fields)
  {
    hide Text.TypeName, Text.Trim;
    FormIsNormal(f);
    var s := Fielded([f]);
    assert Sorting.Sort(s.fields, FieldLt) == [f];
    assert Canonical(s).fields == [f];
    assert ByName([f]) == ByName([])[f.name := f];
  }

  /** Two fields in the order of their raw names. */
  lemma {:induction false} TwoFields(f: Field, g: Field)
    requires f.name != "" && g.name != "" && f.typ != "" && g.typ != "" && FieldLt(f, g)
    ensures var s := Fielded([f, g]);
            && ValidSchema(s) && Canonical(s).fields == [Normal(f), Normal(g)]
            && Fields(s) == map[Normal(f).name := Normal(f)][Normal(g).name := Normal(g)]
  {
    hide Normal, Text.Less;
    var s := Fielded([f, g]);
    Text.LessIrreflexive(f.name);
    assert f.name != g.name;
    FieldOrder();
    hide FieldLt;
    assert Sorting.Sort([g], FieldLt) == [g];
    assert s.fields[1..] == [g];
    assert Sorting.Sort(s.fields, FieldLt) == [f, g];
    var c := Canonical(s).fields;
    assert c == [Normal(f), Normal(g)];
    assert c[..1] == [Normal(f)];
    assert ByName([Normal(f)]) == ByName([])[Normal(f).name := Normal(f)];
  }

  lemma TwoFieldsApart(f: Field, g: Field)
    requires InForm(f) && InForm(g) && FieldLt(f, g)
    ensures var s := Fielded([f, g]);
            && ValidSchema(s) && Canonical(s).fields == [f, g] && TrimmedApart(s.fields)
            && Fields(s) == map[f.name := f, g.name := g]
  {
    hide Text.Trim, Text.TypeName, Text.Less;
    FormIsNormal(f);
    FormIsNormal(g);
    Text.LessIrreflexive(f.name);
    TwoFields(f, g);
  }

  lemma {:induction false} SpaceAfter(a: string)
    requires a != "" && Text.Trimmed(a)
    ensures Text.Trim(a + [' ']) == Text.Trim(a) && Text.Less(a, a + [' '])
  {
    assert (a + [' '])[..|a|] == a;
    Text.LessLonger(a, ' ');
  }

  // ---------------------------------------------------------------- compatibility

  predicate ContainsAll(have: seq<string>, want: seq<string>) {
    forall v | v in want :: v in have
  }

  /** `containsAll`. */
  method CheckContainsAll(have: seq<string>, want: seq<string>) returns (r: bool)
    ensures r == ContainsAll(have, want)
  {
    var known: set<string> := {};
    for i := 0 to |have|
      invariant known == set j | 0 <= j < i :: have[j]
    {
      known := known + {have[i]};
    }
    for i := 0 to |want|
      invariant forall j | 0 <= j < i :: want[j] in have
    {
      if want[i] !in known {
        assert want[i] in want && want[i] !in have;
        return false;
      }
    }
    return true;
  }

  /** A field that a payload valid so far may lack although it becomes mandatory. */
  predicate Demands(f: Field) {
    f.required && f.default == Null
  }

  /** What a kept field must satisfy. */
  predicate Follows(f: Field, nf: Field) {
    && f.typ == nf.typ
    && (Demands(nf) ==> f.required)
    && (f.enum != [] ==> ContainsAll(nf.enum, f.enum))
  }

  /** The declarative meaning of a compatible report. */
  predicate CompatibleFields(o: FieldMap, w: FieldMap, mode: Mode) {
    && (forall n | n in o :: if n in w then Follows(o[n], w[n]) else mode == Forward)
    && (forall n | n in w && n !in o :: Demands(w[n]) ==> mode == Forward)
  }

  predicate Compatible(previous: Schema, next: Schema, mode: Mode) {
    CompatibleFields(Fields(previous), Fields(next), mode)
  }

  /** The change `c` belongs in the report: the declarative reading of `compare`, change by change. */
  predicate Emitted(c: Change, o: FieldMap, w: FieldMap, mode: Mode) {
    var n := c.name;
    if n in o && n in w then
      match c.kind
      case TypeChanged(before, after) =>
        c.severity == Breaking && before == o[n].typ && after == w[n].typ && before != after
      case RequiredStrengthened => c.severity == Breaking && !o[n].required && Demands(w[n])
      case EnumNarrowed => c.severity == Breaking && o[n].enum != [] && !ContainsAll(w[n].enum, o[n].enum)
      case AnnotationChanged => c.severity == Warning && o[n].annotation != w[n].annotation
      case _ => false
    else if n in o then
      if mode == Forward then c.kind == FieldAddedToOldPayload && c.severity == Warning
      else c.kind == FieldRemoved && c.severity == Breaking
    else
      && n in w && c.kind == FieldAdded
      && c.severity == if Demands(w[n]) && mode != Forward then Breaking else Safe
  }

  /** `out` lists, without repetition, exactly the changes of the given names. */
  ghost predicate Lists(out: seq<Change>, names: set<string>, o: FieldMap, w: FieldMap, mode: Mode) {
    && (forall c :: c in out <==> c.name in names && Emitted(c, o, w, mode))
    && NoRepeats(out)
  }

  ghost predicate NoRepeats(out: seq<Change>) {
    forall c :: multiset(out)[c] <= 1
  }

  lemma ListsMore(out: seq<Change>, names: set<string>, more: seq<Change>, n: string,
                  o: FieldMap, w: FieldMap, mode: Mode)
    requires Lists(out, names, o, w, mode) && n !in names
    requires Lists(more, {n}, o, w, mode)
    ensures Lists(out + more, names + {n}, o, w, mode)
  {
    forall c
      ensures multiset(out + more)[c] <= 1
    {
      assert multiset(out + more)[c] == multiset(out)[c] + multiset(more)[c];
      assert c in multiset(more) ==> c in more;
      assert c in multiset(out) ==> c in out;
    }
  }

  predicate PathLt(a: Change, b: Change) {
    Text.Less(a.Path(), b.Path())
  }

  lemma PathOrder()
    ensures Sorting.StrictWeak(PathLt)
  {
    Sorting.KeyOrder(PathLt, (c: Change) => c.Path());
  }

  /** What `compare` may return: any ordering of the changes that is sorted by path. */
  ghost predicate IsChangeList(out: seq<Change>, o: FieldMap, w: FieldMap, mode: Mode) {
    Lists(out, o.Keys + w.Keys, o, w, mode) && Sorting.Sorted(out, PathLt)
  }

  method IndexFields(fs: seq<Field>) returns (m: FieldMap)
    ensures m == ByName(fs)
  {
    m := map[];
    for i := 0 to |fs|
      invariant m == ByName(fs[..i])
    {
      assert fs[..i + 1][..i] == fs[..i];
      m := m[fs[i].name := fs[i]];
    }
    assert fs[..|fs|] == fs;
  }

  /** `compare`: two loops over maps, in whatever order the runtime picks. */
  method CompareSchemas(old_: Schema, neu: Schema, mode: Mode) returns (out: seq<Change>)
    ensures IsChangeList(out, ByName(old_.fields), ByName(neu.fields), mode)
  {
    var o := IndexFields(old_.fields);
    var w := IndexFields(neu.fields);
    var known := KnownFields(o, w, mode);
    var all := NewFields(known, o, w, mode);
    PathOrder();
    out := Sorting.SortSlice(all, PathLt);
    Sorting.SameElements(out, all);
  }

  /** The first loop of `compare`. */
  method KnownFields(o: FieldMap, w: FieldMap, mode: Mode) returns (out: seq<Change>)
    ensures Lists(out, o.Keys, o, w, mode)
  {
    out := [];
    ghost var done: set<string> := {};
    var todo := o.Keys;
    while todo != {}
      invariant todo <= o.Keys && done == o.Keys - todo
      invariant Lists(out, done, o, w, mode)
      decreases |todo|
    {
      var n :| n in todo;
      var more := KeptOrRemoved(n, o, w, mode);
      ListsMore(out, done, more, n, o, w, mode);
      out := out + more;
      todo := todo - {n};
      done := done + {n};
    }
    assert done == o.Keys;
  }

  /** The second loop of `compare`. */
  method NewFields(known: seq<Change>, o: FieldMap, w: FieldMap, mode: Mode) returns (out: seq<Change>)
    requires Lists(known, o.Keys, o, w, mode)
    ensures Lists(out, o.Keys + w.Keys, o, w, mode)
  {
    out := known;
    ghost var done := o.Keys;
    var todo := w.Keys;
    while todo != {}
      invariant forall n | n in todo :: n in w && (n in done ==> n in o)
      invariant forall n | n in o || (n in w && n !in todo) :: n in done
      invariant forall n | n in done :: n in o || n in w
      invariant Lists(out, done, o, w, mode)
      decreases |todo|
    {
      var n :| n in todo;
      todo := todo - {n};
      if n !in o {
        var severity := if w[n].required && w[n].default == Null && mode != Forward then Breaking else Safe;
        AddedLists(n, severity, o, w, mode);
        ListsMore(out, done, [Change(n, FieldAdded, severity)], n, o, w, mode);
        out := out + [Change(n, FieldAdded, severity)];
        done := done + {n};
      }
    }
    assert done == o.Keys + w.Keys;
  }

  lemma AddedLists(n: string, severity: Severity, o: FieldMap, w: FieldMap, mode: Mode)
    requires n in w && n !in o && severity == if Demands(w[n]) && mode != Forward then Breaking else Safe
    ensures Lists([Change(n, FieldAdded, severity)], {n}, o, w, mode)
  {
  }

  /** The body of the first loop of `compare`. */
  method KeptOrRemoved(n: string, o: FieldMap, w: FieldMap, mode: Mode) returns (more: seq<Change>)
    requires n in o
    ensures Lists(more, {n}, o, w, mode)
  {
    if n !in w {
      return [if mode == Forward then Change(n, FieldAddedToOldPayload, Warning)
              else Change(n, FieldRemoved, Breaking)];
    }
    var f, nf := o[n], w[n];
    var kept := CheckContainsAll(nf.enum, f.enum);
    more := When(f.typ != nf.typ, Change(n, TypeChanged(f.typ, nf.typ), Breaking));
    more := more + When(!f.required && nf.required && nf.default == Null,
                        Change(n, RequiredStrengthened, Breaking));
    more := more + When(|f.enum| > 0 && !kept, Change(n, EnumNarrowed, Breaking));
    more := more + When(f.annotation != nf.annotation, Change(n, AnnotationChanged, Warning));
    KeptLists(n, o, w, mode);
  }

  function When(b: bool, c: Change): seq<Change> {
    if b then [c] else []
  }

  lemma WhenAppends(out: seq<Change>, b: bool, c: Change)
    requires NoRepeats(out) && c !in out
    ensures NoRepeats(out + When(b, c))
  {
    forall d
      ensures multiset(out + When(b, c))[d] <= 1
    {
      assert multiset(out + When(b, c))[d] == multiset(out)[d] + multiset(When(b, c))[d];
      assert multiset(out)[c] == 0;
    }
  }

  lemma FourKinds(p: bool, a: Change, q: bool, b: Change, r: bool, c: Change, s: bool, d: Change)
    requires a != b && a != c && a != d && b != c && b != d && c != d
    ensures NoRepeats(When(p, a) + When(q, b) + When(r, c) + When(s, d))
    ensures forall x :: x in When(p, a) + When(q, b) + When(r, c) + When(s, d) <==>
                        (p && x == a) || (q && x == b) || (r && x == c) || (s && x == d)
  {
    WhenAppends(When(p, a), q, b);
    WhenAppends(When(p, a) + When(q, b), r, c);
    WhenAppends(When(p, a) + When(q, b) + When(r, c), s, d);
  }

  lemma KeptEmitted(x: Change, n: string, o: FieldMap, w: FieldMap, mode: Mode)
    requires n in o && n in w
    ensures var f, nf := o[n], w[n];
            x.name == n && Emitted(x, o, w, mode) <==>
            || (f.typ != nf.typ && x == Change(n, TypeChanged(f.typ, nf.typ), Breaking))
            || ((!f.required && Demands(nf)) && x == Change(n, RequiredStrengthened, Breaking))
            || ((f.enum != [] && !ContainsAll(nf.enum, f.enum)) && x == Change(n, EnumNarrowed, Breaking))
            || (f.annotation != nf.annotation && x == Change(n, AnnotationChanged, Warning))
  {
  }

  lemma {:induction false} KeptLists(n: string, o: FieldMap, w: FieldMap, mode: Mode)
    requires n in o && n in w
    ensures var f, nf := o[n], w[n];
            Lists(When(f.typ != nf.typ, Change(n, TypeChanged(f.typ, nf.typ), Breaking))
                  + When(!f.required && Demands(nf), Change(n, RequiredStrengthened, Breaking))
                  + When(f.enum != [] && !ContainsAll(nf.enum, f.enum), Change(n, EnumNarrowed, Breaking))
                  + When(f.annotation != nf.annotation, Change(n, AnnotationChanged, Warning)),
                  {n}, o, w, mode)
  {
    var f, nf := o[n], w[n];
    var p, a := f.typ != nf.typ, Change(n, TypeChanged(f.typ, nf.typ), Breaking);
    var q, b := !f.required && Demands(nf), Change(n, RequiredStrengthened, Breaking);
    var r, c := f.enum != [] && !ContainsAll(nf.enum, f.enum), Change(n, EnumNarrowed, Breaking);
    var s, d := f.annotation != nf.annotation, Change(n, AnnotationChanged, Warning);
    FourKinds(p, a, q, b, r, c, s, d);
    var all := When(p, a) + When(q, b) + When(r, c) + When(s, d);
    forall x
      ensures x in all <==> x.name in {n} && Emitted(x, o, w, mode)
    {
      KeptEmitted(x, n, o, w, mode);
    }
  }

  ghost predicate Breaks(out: seq<Change>) {
    exists c :: c in out && c.severity == Breaking
  }

  method HasBreaking(changes: seq<Change>) returns (bad: bool)
    ensures bad <==> Breaks(changes)
  {
    bad := false;
    for i := 0 to |changes|
      invariant bad <==> exists j :: 0 <= j < i && changes[j].severity == Breaking
    {
      if changes[i].severity == Breaking {
        bad := true;
      }
    }
  }

  /** The list has a breaking change exactly when the fields are not compatible. */
  lemma BreakingIffIncompatible(out: seq<Change>, o: FieldMap, w: FieldMap, mode: Mode)
    requires IsChangeList(out, o, w, mode)
    ensures Breaks(out) <==> !CompatibleFields(o, w, mode)
  {
    if !CompatibleFields(o, w, mode) {
      if n :| n in o && !(if n in w then Follows(o[n], w[n]) else mode == Forward) {
        if n !in w {
          assert Change(n, FieldRemoved, Breaking) in out;
        } else if o[n].typ != w[n].typ {
          assert Change(n, TypeChanged(o[n].typ, w[n].typ), Breaking) in out;
        } else if Demands(w[n]) && !o[n].required {
          assert Change(n, RequiredStrengthened, Breaking) in out;
        } else {
          assert Change(n, EnumNarrowed, Breaking) in out;
        }
      } else {
        var n :| n in w && n !in o && Demands(w[n]) && mode != Forward;
        assert Change(n, FieldAdded, Breaking) in out;
      }
    }
  }

  /** `Compare`: whatever order the maps are visited in, the verdict is the declarative one on the fields as
      the sorts happen to order them; where raw names identify fields there is only one such order. */
  method Compare(previous: Schema, next: Schema, mode: Mode)
    returns (r: Report, ghost before: seq<Field>, ghost after: seq<Field>)
    ensures Ordering(previous.fields, before) && Ordering(next.fields, after)
    ensures r.compatible == CompatibleFields(ByName(Normals(before)), ByName(Normals(after)), mode)
    ensures IsChangeList(r.changes, ByName(Normals(before)), ByName(Normals(after)), mode)
    ensures Identified(previous.fields) ==> ByName(Normals(before)) == Fields(previous)
    ensures Identified(next.fields) ==> ByName(Normals(after)) == Fields(next)
    ensures r.mode == mode
  {
    hide ByName, Ordering;
    var o, w;
    o, before := Canonicalize(previous);
    w, after := Canonicalize(next);
    var changes := CompareSchemas(o, w, mode);
    var bad := HasBreaking(changes);
    BreakingIffIncompatible(changes, ByName(o.fields), ByName(w.fields), mode);
    r := Report(!bad, mode, changes);
  }

  /** The report is empty exactly when the fields, by name, have the same types and annotations, none became
      mandatory, and no enum lost a value; it warns exactly of changed annotations and, in forward mode, of removed
      fields. */
  lemma {:induction false} ReportReads(out: seq<Change>, o: FieldMap, w: FieldMap, mode: Mode)
    requires IsChangeList(out, o, w, mode)
    ensures out == [] <==>
            && o.Keys == w.Keys
            && forall n | n in o && n in w :: Follows(o[n], w[n]) && o[n].annotation == w[n].annotation
    ensures (exists c :: c in out && c.severity == Warning) <==>
            || (exists n :: n in o && n in w && o[n].annotation != w[n].annotation)
            || (mode == Forward && exists n :: n in o && n !in w)
  {
    Warned(out, o, w, mode);
    if out == [] {
      forall n
        ensures n in o <==> n in w
        ensures n in o && n in w ==> Follows(o[n], w[n]) && o[n].annotation == w[n].annotation
      {
        if Differ(o, w, n) {
          DifferenceListed(out, o, w, mode, n);
        }
      }
    } else {
      var c := out[0];
      assert c in out;
    }
  }

  /** A name that is not in both, or a field that did not stay as it was but for its default and additions to its
      enum. */
  predicate Differ(o: FieldMap, w: FieldMap, n: string) {
    || (n in o) != (n in w)
    || (n in o && n in w && !(Follows(o[n], w[n]) && o[n].annotation == w[n].annotation))
  }

  lemma DifferenceListed(out: seq<Change>, o: FieldMap, w: FieldMap, mode: Mode, n: string)
    requires IsChangeList(out, o, w, mode) && Differ(o, w, n)
    ensures out != []
  {
    var c :=
      if n in o && n in w then
        if o[n].typ != w[n].typ then Change(n, TypeChanged(o[n].typ, w[n].typ), Breaking)
        else if !o[n].required && Demands(w[n]) then Change(n, RequiredStrengthened, Breaking)
        else if o[n].annotation != w[n].annotation then Change(n, AnnotationChanged, Warning)
        else Change(n, EnumNarrowed, Breaking)
      else if n in o then
        if mode == Forward then Change(n, FieldAddedToOldPayload, Warning) else Change(n, FieldRemoved, Breaking)
      else Change(n, FieldAdded, if Demands(w[n]) && mode != Forward then Breaking else Safe);
    assert Emitted(c, o, w, mode);
    assert c in out;
  }

  lemma Warned(out: seq<Change>, o: FieldMap, w: FieldMap, mode: Mode)
    requires IsChangeList(out, o, w, mode)
    ensures (exists c :: c in out && c.severity == Warning) <==>
            || (exists n :: n in o && n in w && o[n].annotation != w[n].annotation)
            || (mode == Forward && exists n :: n in o && n !in w)
  {
    if n :| n in o && n in w && o[n].annotation != w[n].annotation {
      assert Change(n, AnnotationChanged, Warning) in out;
    }
    if mode == Forward {
      if n :| n in o && n !in w {
        assert Change(n, FieldAddedToOldPayload, Warning) in out;
      }
    }
    if c :| c in out && c.severity == Warning {
      assert Emitted(c, o, w, mode);
      assert c.name in o;
    }
  }

  // ---------------------------------------------------------------- one report only

  ghost predicate DotFree(m: FieldMap) {
    forall n | n in m :: '.' !in n
  }

  lemma CommonPrefix(p: string, a: string, s: string, b: string, t: string)
    requires p + a + s == p + b + t
    ensures a + s == b + t
  {
    assert a + s == (p + a + s)[|p|..];
    assert b + t == (p + b + t)[|p|..];
  }

  /** Dot-free names: a path tells the field and the attribute. */
  lemma SamePath(c: Change, d: Change)
    requires '.' !in c.name && '.' !in d.name
    requires c.Path() == d.Path()
    ensures c.name == d.name && Suffix(c.kind) == Suffix(d.kind)
  {
    var x, y := c.name + Suffix(c.kind), d.name + Suffix(d.kind);
    CommonPrefix("fields.", c.name, Suffix(c.kind), d.name, Suffix(d.kind));
    Text.PrefixSplits(c.name, Suffix(c.kind), d.name, Suffix(d.kind), '.');
    Text.PrefixSplits(d.name, Suffix(d.kind), c.name, Suffix(c.kind), '.');
    assert c.name == x[..|c.name|] && d.name == y[..|c.name|];
    assert Suffix(c.kind) == x[|c.name|..] && Suffix(d.kind) == y[|c.name|..];
  }

  lemma SuffixDetermines(k: ChangeKind, l: ChangeKind)
    requires Suffix(k) == Suffix(l)
    ensures k.TypeChanged? == l.TypeChanged? && k.EnumNarrowed? == l.EnumNarrowed?
    ensures k.AnnotationChanged? == l.AnnotationChanged?
  {
    assert |Suffix(k)| == |Suffix(l)|;
    assert Suffix(k) != "" ==> Suffix(k)[1] == Suffix(l)[1];
  }

  /** With dot-free names no two listed changes share a path. */
  lemma PathsDiffer(out: seq<Change>, o: FieldMap, w: FieldMap, mode: Mode)
    requires Lists(out, o.Keys + w.Keys, o, w, mode) && DotFree(o) && DotFree(w)
    ensures Sorting.Separated(out, PathLt)
  {
    forall c, d | c in out && d in out && c != d
      ensures PathLt(c, d) || PathLt(d, c)
    {
      if c.Path() == d.Path() {
        SamePath(c, d);
        SuffixDetermines(c.kind, d.kind);
        assert false;
      }
      Text.LessConnected(c.Path(), d.Path());
    }
  }

  lemma SameMembers(a: seq<Change>, b: seq<Change>)
    requires forall c :: c in a <==> c in b
    requires NoRepeats(a) && NoRepeats(b)
    ensures multiset(a) == multiset(b)
  {
    forall c: Change
      ensures multiset(a)[c] == multiset(b)[c]
    {
      assert c in a <==> c in multiset(a);
      assert c in b <==> c in multiset(b);
    }
  }

  /** With dot-free names there is only one possible change list. */
  lemma ChangeListUnique(a: seq<Change>, b: seq<Change>, o: FieldMap, w: FieldMap, mode: Mode)
    requires IsChangeList(a, o, w, mode) && IsChangeList(b, o, w, mode)
    requires DotFree(o) && DotFree(w)
    ensures a == b
  {
    SameMembers(a, b);
    PathsDiffer(a, o, w, mode);
    Sorting.SortedUnique(a, b, PathLt);
  }

  lemma {:induction false} NormalsPermute(a: seq<Field>, b: seq<Field>)
    requires Identified(a) && multiset(a) == multiset(b)
    ensures Normals(Sorting.Sort(a, FieldLt)) == Normals(Sorting.Sort(b, FieldLt))
  {
    FieldOrder();
    forall f, g | f in a && g in a && f != g
      ensures FieldLt(f, g) || FieldLt(g, f)
    {
      Text.LessConnected(f.name, g.name);
    }
    Sorting.SortForgetsOrder(a, b, FieldLt);
  }

  /** The same schema with its fields written in another order. */
  ghost predicate Reordered(s: Schema, t: Schema) {
    s.kind == t.kind && s.raw == t.raw && multiset(s.fields) == multiset(t.fields)
  }

  /** The same schema with its enums written in another order. */
  ghost predicate EnumsReordered(s: Schema, t: Schema) {
    && s.kind == t.kind && s.raw == t.raw && |s.fields| == |t.fields|
    && forall i | 0 <= i < |s.fields| ::
         t.fields[i] == s.fields[i].(enum := t.fields[i].enum)
         && multiset(t.fields[i].enum) == multiset(s.fields[i].enum)
  }

  /** Fields whose enums are sorted; sorting the fields commutes with it. */
  function SortEnums(fs: seq<Field>): (r: seq<Field>)
    ensures |r| == |fs|
  {
    seq(|fs|, i requires 0 <= i < |fs| => fs[i].(enum := Sorting.Sort(fs[i].enum, Text.Less)))
  }

  lemma {:induction false} InsertSortEnums(f: Field, fs: seq<Field>)
    ensures var g := f.(enum := Sorting.Sort(f.enum, Text.Less));
            SortEnums(Sorting.Insert(f, fs, FieldLt)) == Sorting.Insert(g, SortEnums(fs), FieldLt)
  {
    if fs != [] && FieldLt(fs[0], f) {
      InsertSortEnums(f, fs[1..]);
      assert SortEnums(fs)[1..] == SortEnums(fs[1..]);
    }
  }

  lemma {:induction false} SortSortEnums(fs: seq<Field>)
    ensures SortEnums(Sorting.Sort(fs, FieldLt)) == Sorting.Sort(SortEnums(fs), FieldLt)
  {
    if fs != [] {
      SortSortEnums(fs[1..]);
      assert SortEnums(fs)[1..] == SortEnums(fs[1..]);
      InsertSortEnums(fs[0], Sorting.Sort(fs[1..], FieldLt));
    }
  }

  /** Writing the fields of a valid schema in another order, and then the values of each enum in
      another order, gives the same canonical form. */
  lemma CanonicalForgetsOrder(s: Schema, u: Schema, t: Schema)
    requires Identified(s.fields) && Reordered(s, u) && EnumsReordered(u, t)
    ensures Canonical(s) == Canonical(t)
  {
    NormalsPermute(s.fields, u.fields);
    StringOrder();
    forall i | 0 <= i < |u.fields|
      ensures SortEnums(u.fields)[i] == SortEnums(t.fields)[i]
    {
      var a, b := u.fields[i].enum, t.fields[i].enum;
      forall x, y | x in a && y in a && x != y
        ensures Text.Less(x, y) || Text.Less(y, x)
      {
        Text.LessConnected(x, y);
      }
      Sorting.SortForgetsOrder(a, b, Text.Less);
    }
    assert SortEnums(u.fields) == SortEnums(t.fields);
    SortSortEnums(u.fields);
    SortSortEnums(t.fields);
    var x, y := Sorting.Sort(u.fields, FieldLt), Sorting.Sort(t.fields, FieldLt);
    assert SortEnums(x) == SortEnums(y);
    forall i | 0 <= i < |x|
      ensures Normal(x[i]) == Normal(y[i])
    {
      assert SortEnums(x)[i] == SortEnums(y)[i];
    }
    assert |x| == |SortEnums(x)| == |y|;
    assert Normals(x) == Normals(y);
  }

  /** Two reports on the same pair of schemas, their fields and enums written in any order and their
      maps visited in any order, list the same changes in the same order. */
  lemma ReportUnique(s: Schema, u: Schema, s': Schema, t: Schema, v: Schema, t': Schema, mode: Mode,
                     a: seq<Change>, b: seq<Change>)
    requires Identified(s.fields) && Reordered(s, u) && EnumsReordered(u, s')
    requires Identified(t.fields) && Reordered(t, v) && EnumsReordered(v, t')
    requires DotFree(Fields(s)) && DotFree(Fields(t))
    requires IsChangeList(a, Fields(s), Fields(t), mode)
    requires IsChangeList(b, Fields(s'), Fields(t'), mode)
    ensures a == b
  {
    CanonicalForgetsOrder(s, u, s');
    CanonicalForgetsOrder(t, v, t');
    ChangeListUnique(a, b, Fields(s), Fields(t), mode);
  }
}
