/** Payload validation: what a schema means (internal/quality/domain/typecheck.go). */
module Typecheck {
  import opened Values
  import opened Schemas
  import Text

  datatype Reason = Missing | WrongType | NotInEnum

  datatype TypeIssue = TypeIssue(field: string, reason: Reason)

  /** The families of type names; a name outside them accepts everything. */
  datatype TypeClass = TextType | BoolType | IntType | UintType | NumberType | ObjectType | ArrayType | BytesType | CustomType

  function ClassOf(typ: string): TypeClass {
    var t := Text.TypeName(typ);
    if t in ["string", "text", "uuid", "date", "datetime", "timestamp"] then TextType
    else if t in ["bool", "boolean"] then BoolType
    else if t in ["int", "int8", "int16", "int32", "int64", "integer"] then IntType
    else if t in ["uint", "uint8", "uint16", "uint32", "uint64"] then UintType
    else if t in ["float", "float32", "float64", "number", "decimal"] then NumberType
    else if t in ["object", "map", "json"] then ObjectType
    else if t in ["array", "list", "repeated"] then ArrayType
    else if t in ["bytes", "binary"] then BytesType
    else CustomType
  }

  /** A decoded number is an integer when it survives the conversion to int64 and back. */
  predicate IsInteger(v: Value) {
    && v.Num?
    && v.n.Floor as real == v.n
    && -0x8000_0000_0000_0000 <= v.n.Floor < 0x8000_0000_0000_0000
  }

  predicate InClass(v: Value, c: TypeClass) {
    match c
    case TextType => v.Str?
    case BoolType => v.Bool?
    case IntType => IsInteger(v)
    case UintType => IsInteger(v) && v.n >= 0.0
    case NumberType => v.Num?
    case ObjectType => v.Obj?
    case ArrayType => v.Arr?
    case BytesType => v.Str?
    case CustomType => true
  }

  /** `matchesType`. */
  predicate MatchesType(v: Value, typ: string) {
    InClass(v, ClassOf(typ))
  }

  /** The spelling of a type name does not matter to the values it accepts. */
  lemma TypeSpelling(v: Value, typ: string)
    ensures MatchesType(v, Text.TypeName(typ)) == MatchesType(v, typ)
  {
    Text.TypeNameIdempotent(typ);
    assert ClassOf(Text.TypeName(typ)) == ClassOf(typ);
  }

  predicate Present(p: Payload, n: string) {
    n in p && p[n] != Null
  }

  /** The issue a payload has with one field, if any. */
  function IssueOf(h: Host, p: Payload, f: Field): (r: Option<TypeIssue>)
    ensures r.Some? ==> r.value.field == f.name
  {
    if !Present(p, f.name) then
      if f.required then Some(TypeIssue(f.name, Missing)) else None
    else if !MatchesType(p[f.name], f.typ) then Some(TypeIssue(f.name, WrongType))
    else if f.enum != [] && Sprint(h, p[f.name]) !in f.enum then Some(TypeIssue(f.name, NotInEnum))
    else None
  }

  /** The issues of a payload with a list of fields, in the order of the fields. */
  function Issues(h: Host, p: Payload, fs: seq<Field>): (r: seq<TypeIssue>)
    ensures r == [] <==> forall f | f in fs :: IssueOf(h, p, f).None?
    ensures forall i | i in r :: exists f :: f in fs && IssueOf(h, p, f) == Some(i)
    ensures forall f | f in fs :: IssueOf(h, p, f).Some? ==> IssueOf(h, p, f).value in r
  {
    if fs == [] then [] else
      var last := fs[|fs| - 1];
      assert forall f | f in fs :: f in fs[..|fs| - 1] || f == last;
      Issues(h, p, fs[..|fs| - 1]) + match IssueOf(h, p, last) case Some(i) => [i] case None => []
  }

  /** What a reason says of a field: missing is about required fields without a value, the wrong type about values,
      and the enum about values of the right type only. */
  ghost predicate Speaks(h: Host, p: Payload, f: Field, reason: Reason) {
    match reason
    case Missing => f.required && (f.name !in p || p[f.name] == Null)
    case WrongType => f.name in p && p[f.name] != Null && !MatchesType(p[f.name], f.typ)
    case NotInEnum =>
      f.name in p && p[f.name] != Null && MatchesType(p[f.name], f.typ) && f.enum != [] && Sprint(h, p[f.name]) !in f.enum
  }

  lemma IssueSpeaks(h: Host, p: Payload, f: Field, i: TypeIssue)
    ensures IssueOf(h, p, f) == Some(i) <==> f.name == i.field && Speaks(h, p, f, i.reason)
  {
    hide MatchesType, Sprint;
  }

  /** The issues are exactly the reasons that speak against a field. */
  lemma {:induction false} IssuesTold(h: Host, p: Payload, fs: seq<Field>, i: TypeIssue)
    ensures i in Issues(h, p, fs) <==> exists f :: f in fs && f.name == i.field && Speaks(h, p, f, i.reason)
  {
    hide IssueOf, Speaks;
    if f :| f in fs && f.name == i.field && Speaks(h, p, f, i.reason) {
      IssueSpeaks(h, p, f, i);
    }
    if i in Issues(h, p, fs) {
      var f :| f in fs && IssueOf(h, p, f) == Some(i);
      IssueSpeaks(h, p, f, i);
    }
  }

  /** The payload is valid for the fields. */
  predicate Valid(h: Host, p: Payload, fs: seq<Field>) {
    Issues(h, p, fs) == []
  }

  method EnumContains(values: seq<string>, value: string) returns (r: bool)
    ensures r == (value in values)
  {
    for i := 0 to |values|
      invariant forall j | 0 <= j < i :: values[j] != value
    {
      if values[i] == value {
        return true;
      }
    }
    return false;
  }

  lemma IssuesOfNone(h: Host, p: Payload)
    ensures Issues(h, p, []) == []
  {
  }

  lemma IssuesMore(h: Host, p: Payload, fs: seq<Field>, k: nat)
    requires k < |fs|
    ensures Issues(h, p, fs[..k + 1]) ==
            Issues(h, p, fs[..k]) + match IssueOf(h, p, fs[k]) case Some(i) => [i] case None => []
  {
    hide IssueOf;
    assert fs[..k + 1][..k] == fs[..k];
  }

  /** `ValidatePayload`. */
  method ValidatePayload(h: Host, p: Payload, fs: seq<Field>) returns (issues: seq<TypeIssue>)
    ensures issues == Issues(h, p, fs)
  {
    hide Issues, MatchesType, Sprint;
    issues := [];
    IssuesOfNone(h, p);
    for k := 0 to |fs|
      invariant issues == Issues(h, p, fs[..k])
    {
      var f := fs[k];
      IssuesMore(h, p, fs, k);
      if f.name !in p || p[f.name] == Null {
        if f.required {
          issues := issues + [TypeIssue(f.name, Missing)];
        }
        continue;
      }
      if !MatchesType(p[f.name], f.typ) {
        issues := issues + [TypeIssue(f.name, WrongType)];
        continue;
      }
      if |f.enum| > 0 {
        var listed := EnumContains(f.enum, Sprint(h, p[f.name]));
        if !listed {
          issues := issues + [TypeIssue(f.name, NotInEnum)];
        }
      }
    }
    assert fs[..|fs|] == fs;
  }
}
