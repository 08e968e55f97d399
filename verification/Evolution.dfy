/** What a compatible report guarantees for payloads, and what survives along a chain of versions
    of which only neighbours were compared. */
module Evolution {
  import opened Values
  import opened Schemas
  import opened Typecheck
  import Text
  import Sorting

  // ---------------------------------------------------------------- canonicalisation keeps the meaning

  lemma {:induction false} NormalKeepsMeaning(h: Host, p: Payload, f: Field)
    requires Text.Trimmed(f.name)
    ensures IssueOf(h, p, Normal(f)) == IssueOf(h, p, f)
  {
    hide MatchesType, Sprint, Text.TypeName;
    Text.TrimIdempotent(f.name);
    Sorting.SortPermutes(f.enum, Text.Less);
    Sorting.SameElements(Sorting.Sort(f.enum, Text.Less), f.enum);
    if Present(p, f.name) {
      TypeSpelling(p[f.name], f.typ);
    }
  }

  /** A payload is valid for a schema as it was written exactly when it is valid for the canonical form that
      is stored, if no name carries white space around it. */
  lemma {:induction false} CanonicalKeepsMeaning(h: Host, p: Payload, s: Schema)
    requires forall f | f in s.fields :: Text.Trimmed(f.name)
    ensures Valid(h, p, Canonical(s).fields) <==> Valid(h, p, s.fields)
  {
    hide IssueOf, Normal, Text.Trimmed;
    var raw := Sorting.Sort(s.fields, FieldLt);
    Sorting.SortPermutes(s.fields, FieldLt);
    Sorting.SameElements(raw, s.fields);
    assert Canonical(s).fields == Normals(raw);
    forall i | 0 <= i < |raw|
      ensures raw[i] in s.fields && IssueOf(h, p, Normals(raw)[i]) == IssueOf(h, p, raw[i])
    {
      assert raw[i] in raw;
      NormalKeepsMeaning(h, p, raw[i]);
    }
    if Valid(h, p, Canonical(s).fields) {
      forall f | f in s.fields
        ensures IssueOf(h, p, f).None?
      {
        var i :| 0 <= i < |raw| && raw[i] == f;
        assert Normals(raw)[i] in Normals(raw);
      }
    }
  }

  // ---------------------------------------------------------------- one step

  ghost predicate Closed(p: Payload, m: FieldMap) {
    forall k | k in p :: k in m
  }

  /** Validity, field name by field name. */
  ghost predicate ValidFor(h: Host, p: Payload, m: FieldMap) {
    forall n | n in m :: IssueOf(h, p, m[n]).None?
  }

  ghost predicate Named(m: FieldMap) {
    forall n | n in m :: m[n].name == n
  }

  lemma {:induction false} ValidByName(h: Host, p: Payload, fs: seq<Field>)
    requires Identified(fs)
    ensures Valid(h, p, fs) <==> ValidFor(h, p, ByName(fs))
  {
    if ValidFor(h, p, ByName(fs)) {
      forall f | f in fs
        ensures IssueOf(h, p, f).None?
      {
        ByNameLookup(fs, f);
      }
    }
  }

  /** A field without enum that gets one: not reported as a change at all. */
  predicate EnumOpened(f: Field, nf: Field) {
    f.enum == [] && nf.enum != []
  }

  /** All that can go wrong with a kept field. */
  lemma KeptField(h: Host, p: Payload, f: Field, nf: Field)
    requires f.name == nf.name && Follows(f, nf) && IssueOf(h, p, f).None?
    ensures match IssueOf(h, p, nf)
            case None => true
            case Some(i) =>
              || (i.reason == Missing && nf.required && !f.required && nf.default != Null)
              || (i.reason == NotInEnum && EnumOpened(f, nf))
  {
  }

  /** Compatibility soundness. A payload valid under the old schema and carrying no other keys has,
      under a compatible new schema that puts no enum on a field that had none, only one kind of
      issue: a required field with a default is missing, because validation never applies defaults. */
  lemma {:induction false} CompatibilitySound(h: Host, previous: Schema, next: Schema, mode: Mode, p: Payload)
    requires mode != Forward && Compatible(previous, next, mode)
    requires TrimmedApart(previous.fields) && TrimmedApart(next.fields)
    requires Valid(h, p, Canonical(previous).fields) && Closed(p, Fields(previous))
    requires forall n | n in Fields(previous) && n in Fields(next) ::
               !EnumOpened(Fields(previous)[n], Fields(next)[n])
    ensures forall i | i in Issues(h, p, Canonical(next).fields) ::
              i.reason == Missing && i.field in Fields(next)
              && Fields(next)[i.field].required && Fields(next)[i.field].default != Null
    ensures (forall f | f in Canonical(next).fields :: !(f.required && f.default != Null)) ==>
              Valid(h, p, Canonical(next).fields)
  {
    var N := Canonical(next).fields;
    IdentifiedIff(previous);
    IdentifiedIff(next);
    hide TrimmedApart, Canonical;
    ValidByName(h, p, Canonical(previous).fields);
    forall i | i in Issues(h, p, N)
      ensures i.reason == Missing && i.field in Fields(next)
      ensures Fields(next)[i.field].required && Fields(next)[i.field].default != Null
    {
      SoundIssue(h, p, Fields(previous), N, mode, i);
    }
    if Issues(h, p, N) != [] {
      SoundIssue(h, p, Fields(previous), N, mode, Issues(h, p, N)[0]);
    }
  }

  lemma {:induction false} SoundIssue(h: Host, p: Payload, o: FieldMap, N: seq<Field>, mode: Mode, i: TypeIssue)
    requires Named(o) && Identified(N) && mode != Forward && CompatibleFields(o, ByName(N), mode)
    requires ValidFor(h, p, o) && Closed(p, o)
    requires forall m | m in o && m in ByName(N) :: !EnumOpened(o[m], ByName(N)[m])
    requires i in Issues(h, p, N)
    ensures i.reason == Missing && i.field in ByName(N)
    ensures ByName(N)[i.field].required && ByName(N)[i.field].default != Null
  {
    var f :| f in N && IssueOf(h, p, f) == Some(i);
    ByNameLookup(N, f);
    OnlyDefaulted(h, p, o, ByName(N), mode, f.name);
  }

  lemma OnlyDefaulted(h: Host, p: Payload, o: FieldMap, w: FieldMap, mode: Mode, n: string)
    requires Named(o) && Named(w) && mode != Forward && CompatibleFields(o, w, mode)
    requires ValidFor(h, p, o) && Closed(p, o)
    requires forall m | m in o && m in w :: !EnumOpened(o[m], w[m])
    requires n in w && IssueOf(h, p, w[n]).Some?
    ensures IssueOf(h, p, w[n]).value.reason == Missing && w[n].required && w[n].default != Null
  {
    if n in o {
      KeptField(h, p, o[n], w[n]);
    }
  }

  // ---------------------------------------------------------------- exactly when it is a guarantee

  /** Every payload the stored old schema accepts, and that keeps to its keys, is accepted by the stored new
      one. */
  ghost predicate Guaranteed(h: Host, previous: Schema, next: Schema) {
    forall p: Payload | Valid(h, p, Canonical(previous).fields) && Closed(p, Fields(previous)) ::
      Valid(h, p, Canonical(next).fields)
  }

  /** The same, field name by field name. */
  ghost predicate GuaranteedFor(h: Host, o: FieldMap, w: FieldMap) {
    forall p: Payload | ValidFor(h, p, o) && Closed(p, o) :: ValidFor(h, p, w)
  }

  lemma {:induction false} GuaranteedByName(h: Host, previous: Schema, next: Schema)
    requires Identified(Canonical(previous).fields) && Identified(Canonical(next).fields)
    ensures Guaranteed(h, previous, next) <==> GuaranteedFor(h, Fields(previous), Fields(next))
  {
    hide Valid, ValidFor, Identified, Canonical, ByName, Closed;
    forall p: Payload
      ensures Valid(h, p, Canonical(previous).fields) <==> ValidFor(h, p, Fields(previous))
      ensures Valid(h, p, Canonical(next).fields) <==> ValidFor(h, p, Fields(next))
    {
      ValidByName(h, p, Canonical(previous).fields);
      ValidByName(h, p, Canonical(next).fields);
    }
  }

  ghost predicate Accepts(h: Host, f: Field, v: Value) {
    v != Null && MatchesType(v, f.typ) && (f.enum != [] ==> Sprint(h, v) in f.enum)
  }

  /** Some payload is valid at all: every required field has an acceptable value. */
  ghost predicate Satisfiable(h: Host, m: FieldMap) {
    forall n | n in m && m[n].required :: exists v :: Accepts(h, m[n], v)
  }

  /** The enum admits every value of the field's type. */
  ghost predicate Covers(h: Host, f: Field) {
    forall v | v != Null && MatchesType(v, f.typ) :: Sprint(h, v) in f.enum
  }

  /** Nothing is required that was not required before. */
  predicate NothingNewRequired(o: FieldMap, w: FieldMap) {
    forall n | n in w && w[n].required :: n in o && o[n].required
  }

  ghost predicate OpenedEnumsCover(h: Host, o: FieldMap, w: FieldMap) {
    forall n | n in w && n in o && EnumOpened(o[n], w[n]) :: Covers(h, w[n])
  }

  /** A smallest valid payload: one acceptable value for each required field. */
  ghost function Smallest(h: Host, m: FieldMap): (p: Payload)
    requires Satisfiable(h, m)
    ensures forall k :: k in p <==> k in m && m[k].required
    ensures forall k | k in p :: Accepts(h, m[k], p[k])
  {
    map n | n in m && m[n].required :: var v :| Accepts(h, m[n], v); v
  }

  lemma SmallestValid(h: Host, m: FieldMap)
    requires Satisfiable(h, m) && Named(m)
    ensures ValidFor(h, Smallest(h, m), m) && Closed(Smallest(h, m), m)
  {
  }

  lemma GuaranteeNeedsOldRequirements(h: Host, o: FieldMap, w: FieldMap)
    requires Named(o) && Named(w) && Satisfiable(h, o) && GuaranteedFor(h, o, w)
    ensures NothingNewRequired(o, w)
  {
    SmallestValid(h, o);
    assert ValidFor(h, Smallest(h, o), w);
  }

  lemma {:induction false} GuaranteeNeedsCoveringEnums(h: Host, o: FieldMap, w: FieldMap, mode: Mode)
    requires Named(o) && Named(w) && Satisfiable(h, o) && GuaranteedFor(h, o, w)
    requires CompatibleFields(o, w, mode)
    ensures OpenedEnumsCover(h, o, w)
  {
    hide MatchesType, Sprint, Smallest;
    SmallestValid(h, o);
    forall n, v | n in w && n in o && EnumOpened(o[n], w[n]) && v != Null && MatchesType(v, w[n].typ)
      ensures Sprint(h, v) in w[n].enum
    {
      assert Follows(o[n], w[n]);
      var p := Smallest(h, o)[n := v];
      forall m | m in o
        ensures IssueOf(h, p, o[m]).None?
      {
        assert IssueOf(h, Smallest(h, o), o[m]).None?;
      }
      assert ValidFor(h, p, w);
      assert IssueOf(h, p, w[n]).None?;
    }
  }

  lemma GuaranteeSuffices(h: Host, o: FieldMap, w: FieldMap, mode: Mode)
    requires Named(o) && Named(w) && CompatibleFields(o, w, mode)
    requires NothingNewRequired(o, w) && OpenedEnumsCover(h, o, w)
    ensures GuaranteedFor(h, o, w)
  {
    forall p: Payload, n | ValidFor(h, p, o) && Closed(p, o) && n in w
      ensures IssueOf(h, p, w[n]).None?
    {
      if n in o {
        KeptField(h, p, o[n], w[n]);
      }
    }
  }

  lemma UnsatisfiableRejectsAll(h: Host, m: FieldMap, p: Payload)
    requires Named(m) && !Satisfiable(h, m)
    ensures !ValidFor(h, p, m)
  {
    var n :| n in m && m[n].required && !exists v :: Accepts(h, m[n], v);
    if IssueOf(h, p, m[n]).None? {
      assert Accepts(h, m[n], p[n]);
    }
  }

  lemma GuaranteedForIff(h: Host, o: FieldMap, w: FieldMap, mode: Mode)
    requires Named(o) && Named(w) && CompatibleFields(o, w, mode)
    ensures GuaranteedFor(h, o, w) <==>
            !Satisfiable(h, o) || (NothingNewRequired(o, w) && OpenedEnumsCover(h, o, w))
  {
    hide ValidFor, Closed, IssueOf, CompatibleFields, NothingNewRequired, OpenedEnumsCover, Satisfiable;
    if !Satisfiable(h, o) {
      forall p: Payload
        ensures !ValidFor(h, p, o)
      {
        UnsatisfiableRejectsAll(h, o, p);
      }
    } else if GuaranteedFor(h, o, w) {
      GuaranteeNeedsOldRequirements(h, o, w);
      GuaranteeNeedsCoveringEnums(h, o, w, mode);
    }
    if NothingNewRequired(o, w) && OpenedEnumsCover(h, o, w) {
      GuaranteeSuffices(h, o, w, mode);
    }
  }

  /** The report alone is no guarantee that payloads stay valid. In every mode, among schemas whose names stay
      apart when trimmed, it is one exactly when the old schema accepts nothing, or no field becomes required (with or
      without a default) and every enum put on a field that had none admits all values of its type. */
  lemma {:induction false} GuaranteedIff(h: Host, previous: Schema, next: Schema, mode: Mode)
    requires Compatible(previous, next, mode)
    requires TrimmedApart(previous.fields) && TrimmedApart(next.fields)
    ensures var o, w := Fields(previous), Fields(next);
            Guaranteed(h, previous, next) <==>
            !Satisfiable(h, o) || (NothingNewRequired(o, w) && OpenedEnumsCover(h, o, w))
  {
    IdentifiedIff(previous);
    IdentifiedIff(next);
    GuaranteedByName(h, previous, next);
    hide Satisfiable, NothingNewRequired, OpenedEnumsCover, CompatibleFields, Canonical, Guaranteed, GuaranteedFor;
    GuaranteedForIff(h, Fields(previous), Fields(next), mode);
  }

  function TotalLength(values: seq<string>): nat {
    if values == [] then 0 else |values[0]| + TotalLength(values[1..])
  }

  lemma {:induction false} LongerThanAll(values: seq<string>, s: string)
    requires |s| > TotalLength(values)
    ensures s !in values
  {
    if values != [] {
      LongerThanAll(values[1..], s);
      assert values == [values[0]] + values[1..];
    }
  }

  /** As many different texts as values are listed, at most. */
  lemma {:induction false} Pigeonhole(values: seq<string>, g: nat -> string, n: nat)
    requires forall i: nat | i < n :: g(i) in values
    requires forall i: nat, j: nat | i < j < n :: g(i) != g(j)
    ensures n <= |values|
  {
    if n > 0 {
      var k :| 0 <= k < |values| && values[k] == g(n - 1);
      var rest := values[..k] + values[k + 1..];
      forall i: nat | i < n - 1
        ensures g(i) in rest
      {
        assert g(i) != g(n - 1);
        var l :| 0 <= l < |values| && values[l] == g(i);
        assert rest[if l < k then l else l - 1] == g(i);
      }
      Pigeonhole(rest, g, n - 1);
    }
  }

  /** An enum covers no type that has more values, printed differently, than it lists. */
  lemma {:induction false} FamilyNotCovered(h: Host, f: Field, w: nat -> Value)
    requires forall i: nat | i <= |f.enum| :: w(i) != Null && MatchesType(w(i), f.typ)
    requires forall i: nat, j: nat | i < j <= |f.enum| :: Sprint(h, w(i)) != Sprint(h, w(j))
    ensures !Covers(h, f)
  {
    hide MatchesType, Sprint;
    if Covers(h, f) {
      Pigeonhole(f.enum, (i: nat) => Sprint(h, w(i)), |f.enum| + 1);
    }
  }

  /** The values print differently. */
  ghost predicate PrintApart(h: Host, w: nat -> Value) {
    forall i: nat, j: nat | i < j :: Sprint(h, w(i)) != Sprint(h, w(j))
  }

  function Number(): nat -> Value {
    (i: nat) => Num(i as real)
  }

  function Singleton(): nat -> Value {
    (i: nat) => Arr([Num(i as real)])
  }

  function Record(): nat -> Value {
    (i: nat) => Obj(map["n" := Num(i as real)])
  }

  /** No enum admits every value of a textual or custom type, so such a field must not get its first enum;
      on a boolean field the enum must list both values. No enum admits every number, array or object if different
      ones print differently, nor every integer unless it lists all of one sign. */
  lemma {:induction false} CoversDecided(h: Host, f: Field)
    ensures ClassOf(f.typ) in {TextType, BytesType, CustomType} ==> !Covers(h, f)
    ensures ClassOf(f.typ) == BoolType ==> (Covers(h, f) <==> "true" in f.enum && "false" in f.enum)
    ensures ClassOf(f.typ) == NumberType && PrintApart(h, Number()) ==> !Covers(h, f)
    ensures ClassOf(f.typ) in {IntType, UintType} && PrintApart(h, Number()) && |f.enum| < 0x8000_0000_0000_0000 ==> !Covers(h, f)
    ensures ClassOf(f.typ) == ArrayType && PrintApart(h, Singleton()) ==> !Covers(h, f)
    ensures ClassOf(f.typ) == ObjectType && PrintApart(h, Record()) ==> !Covers(h, f)
  {
    hide ClassOf;
    if ClassOf(f.typ) in {TextType, BytesType, CustomType} {
      TextNotCovered(h, f);
    } else if ClassOf(f.typ) == BoolType {
      assert MatchesType(Bool(true), f.typ) && MatchesType(Bool(false), f.typ);
      assert Sprint(h, Bool(true)) == "true" && Sprint(h, Bool(false)) == "false";
    } else {
      CountedNotCovered(h, f);
    }
  }

  lemma {:induction false} TextNotCovered(h: Host, f: Field)
    requires ClassOf(f.typ) in {TextType, BytesType, CustomType}
    ensures !Covers(h, f)
  {
    hide ClassOf;
    var s := seq(TotalLength(f.enum) + 1, _ => 'x');
    LongerThanAll(f.enum, s);
    var v := Str(s);
    assert MatchesType(v, f.typ) && Sprint(h, v) !in f.enum;
  }

  lemma {:induction false} CountedNotCovered(h: Host, f: Field)
    ensures ClassOf(f.typ) == NumberType && PrintApart(h, Number()) ==> !Covers(h, f)
    ensures ClassOf(f.typ) in {IntType, UintType} && PrintApart(h, Number()) && |f.enum| < 0x8000_0000_0000_0000 ==> !Covers(h, f)
    ensures ClassOf(f.typ) == ArrayType && PrintApart(h, Singleton()) ==> !Covers(h, f)
    ensures ClassOf(f.typ) == ObjectType && PrintApart(h, Record()) ==> !Covers(h, f)
  {
    hide ClassOf, Covers, Sprint;
    if ClassOf(f.typ) == NumberType && PrintApart(h, Number()) {
      FamilyNotCovered(h, f, Number());
    }
    if ClassOf(f.typ) in {IntType, UintType} && PrintApart(h, Number()) && |f.enum| < 0x8000_0000_0000_0000 {
      FamilyNotCovered(h, f, Number());
    }
    if ClassOf(f.typ) == ArrayType && PrintApart(h, Singleton()) {
      FamilyNotCovered(h, f, Singleton());
    }
    if ClassOf(f.typ) == ObjectType && PrintApart(h, Record()) {
      FamilyNotCovered(h, f, Record());
    }
  }

  // ---------------------------------------------------------------- a chain of versions

  /** Neighbouring versions were found compatible. */
  ghost predicate Linked(ms: seq<FieldMap>, mode: Mode) {
    forall k | 0 <= k < |ms| - 1 :: CompatibleFields(ms[k], ms[k + 1], mode)
  }

  /** Every field stays, with its type, and a non-empty enum keeps all its values. */
  ghost predicate Keeps(o: FieldMap, w: FieldMap) {
    forall n | n in o ::
      n in w && o[n].typ == w[n].typ && (o[n].enum != [] ==> ContainsAll(w[n].enum, o[n].enum))
  }

  lemma {:induction false} ChainKeeps(ms: seq<FieldMap>, mode: Mode, i: nat, j: nat)
    requires Linked(ms, mode) && mode != Forward && i <= j < |ms|
    ensures Keeps(ms[i], ms[j])
    decreases j
  {
    if i < j {
      ChainKeeps(ms, mode, i, j - 1);
      assert CompatibleFields(ms[j - 1], ms[j - 1 + 1], mode);
      forall n | n in ms[i]
        ensures n in ms[j] && ms[i][n].typ == ms[j][n].typ
        ensures ms[i][n].enum != [] ==> ContainsAll(ms[j][n].enum, ms[i][n].enum)
      {
        assert Follows(ms[j - 1][n], ms[j][n]);
        if ms[i][n].enum != [] {
          assert ms[i][n].enum[0] in ms[j - 1][n].enum;
        }
      }
    }
  }

  /** What a field demands now it demanded all along, unless its default was dropped on the way. */
  predicate OldDemands(o: FieldMap, w: FieldMap) {
    forall n | n in w && Demands(w[n]) :: n in o && o[n].required
  }

  /** Distant versions of a linked chain compare as compatible exactly when every field required
      without default in the later one was required in the earlier one. */
  lemma ChainCompatibleIff(ms: seq<FieldMap>, mode: Mode, i: nat, j: nat)
    requires Linked(ms, mode) && mode != Forward && i <= j < |ms|
    ensures CompatibleFields(ms[i], ms[j], mode) <==> OldDemands(ms[i], ms[j])
  {
    ChainKeeps(ms, mode, i, j);
  }

  /** No step drops the default of a field that stays required. */
  ghost predicate NoDefaultDropped(ms: seq<FieldMap>) {
    forall k, n | 0 <= k < |ms| - 1 && n in ms[k] && n in ms[k + 1] && ms[k][n].required && Demands(ms[k + 1][n]) ::
      ms[k][n].default == Null
  }

  lemma {:induction false} DemandsComeFromFar(ms: seq<FieldMap>, mode: Mode, i: nat, j: nat, n: string)
    requires Linked(ms, mode) && mode != Forward && NoDefaultDropped(ms) && i <= j < |ms|
    requires n in ms[j] && Demands(ms[j][n])
    ensures n in ms[i] && Demands(ms[i][n])
    decreases j
  {
    if i < j {
      assert CompatibleFields(ms[j - 1], ms[j - 1 + 1], mode);
      assert n in ms[j - 1] && Follows(ms[j - 1][n], ms[j][n]);
      DemandsComeFromFar(ms, mode, i, j - 1, n);
    }
  }

  /** Only adjacent links are checked, yet any two versions are compatible, if no default is dropped. */
  lemma ChainCompatible(ms: seq<FieldMap>, mode: Mode, i: nat, j: nat)
    requires Linked(ms, mode) && mode != Forward && NoDefaultDropped(ms) && i <= j < |ms|
    ensures CompatibleFields(ms[i], ms[j], mode)
  {
    forall n | n in ms[j] && Demands(ms[j][n])
      ensures n in ms[i] && ms[i][n].required
    {
      DemandsComeFromFar(ms, mode, i, j, n);
    }
    ChainCompatibleIff(ms, mode, i, j);
  }

  /** Along a whole chain a payload valid for an early version can only come to miss fields in a late
      one, as long as no field that had no enum has one there. */
  lemma ChainSound(h: Host, ms: seq<FieldMap>, mode: Mode, i: nat, j: nat, p: Payload, n: string)
    requires Linked(ms, mode) && mode != Forward && i <= j < |ms|
    requires Named(ms[i]) && Named(ms[j])
    requires ValidFor(h, p, ms[i]) && Closed(p, ms[i])
    requires forall m | m in ms[i] && m in ms[j] :: !EnumOpened(ms[i][m], ms[j][m])
    requires n in ms[j]
    ensures IssueOf(h, p, ms[j][n]).None? || IssueOf(h, p, ms[j][n]).value.reason == Missing
  {
    ChainKeeps(ms, mode, i, j);
    if n in ms[i] {
      assert IssueOf(h, p, ms[i][n]).None?;
    }
  }

  // ---------------------------------------------------------------- why the hypotheses are there

  /** A report that finds two valid schemas compatible, and a payload it is wrong about. */
  ghost predicate Misled(h: Host, previous: Schema, next: Schema, mode: Mode, p: Payload) {
    && ValidSchema(previous) && ValidSchema(next) && Compatible(previous, next, mode)
    && Valid(h, p, Canonical(previous).fields) && !Valid(h, p, Canonical(next).fields)
  }

  lemma ValidOne(h: Host, p: Payload, f: Field)
    ensures Valid(h, p, [f]) <==> IssueOf(h, p, f).None?
  {
    hide IssueOf;
  }

  lemma ValidTwo(h: Host, p: Payload, f: Field, g: Field)
    ensures Valid(h, p, [f, g]) <==> IssueOf(h, p, f).None? && IssueOf(h, p, g).None?
  {
    hide IssueOf;
  }

  /** The names and the type of a witness, and a value of the type. */
  ghost predicate Sample(a: string, b: string, t: string, v: Value) {
    InForm(Plain(a, t)) && InForm(Plain(b, t)) && Text.Less(a, b) && v != Null && MatchesType(v, t)
  }

  /** Defaults are never applied: a required field with a default is safe to the report only. */
  lemma {:induction false} DefaultIsNotApplied(h: Host, a: string, b: string, t: string, v: Value)
    requires Sample(a, b, t, v)
    ensures var previous := Fielded([Plain(a, t), Plain(b, t)]);
            var next := Fielded([Plain(a, t), Plain(b, t).(required := true, default := v)]);
            var p: Payload := map[a := v];
            && Misled(h, previous, next, Backward, p) && TrimmedApart(previous.fields) && TrimmedApart(next.fields)
            && Closed(p, Fields(previous)) && OpenedEnumsCover(h, Fields(previous), Fields(next))
  {
    hide MatchesType, Text.TypeName, Text.Trim, Text.Less, ValidSchema, Canonical, TrimmedApart, ByName, Covers;
    var f, g, d := Plain(a, t), Plain(b, t), Plain(b, t).(required := true, default := v);
    Text.LessIrreflexive(a);
    TwoFieldsApart(f, g);
    TwoFieldsApart(f, d);
    hide InForm;
    assert Valid(h, map[a := v], [f, g]) by { ValidTwo(h, map[a := v], f, g); }
    assert !Valid(h, map[a := v], [f, d]) by { ValidTwo(h, map[a := v], f, d); }
    hide Fields, Valid, IssueOf;
  }

  /** A payload may carry a key the old schema does not know and the new one restricts. */
  lemma {:induction false} UnknownKeysMatter(h: Host, a: string, b: string, t: string, v: Value, x: string)
    requires Sample(a, b, t, v) && Sprint(h, v) != x
    ensures var previous := Fielded([Plain(a, t)]);
            var next := Fielded([Plain(a, t), Plain(b, t).(enum := [x])]);
            var p: Payload := map[a := v, b := v];
            && Misled(h, previous, next, Backward, p) && TrimmedApart(previous.fields) && TrimmedApart(next.fields)
            && NothingNewRequired(Fields(previous), Fields(next)) && OpenedEnumsCover(h, Fields(previous), Fields(next))
  {
    hide MatchesType, Sprint, Text.TypeName, Text.Trim, Text.Less, ValidSchema, Canonical, TrimmedApart, ByName, Covers;
    var f, g := Plain(a, t), Plain(b, t).(enum := [x]);
    Text.LessIrreflexive(a);
    OneField(f);
    TwoFieldsApart(f, g);
    ValidOne(h, map[a := v, b := v], f);
    ValidTwo(h, map[a := v, b := v], f, g);
    hide Fields, Valid;
  }

  /** The first enum of a field is not reported, and rejects what it does not list. */
  lemma {:induction false} FirstEnumRejects(h: Host, a: string, t: string, v: Value, x: string)
    requires InForm(Plain(a, t)) && v != Null && MatchesType(v, t) && Sprint(h, v) != x
    ensures var previous, next := Fielded([Plain(a, t)]), Fielded([Plain(a, t).(enum := [x])]);
            var p: Payload := map[a := v];
            && Misled(h, previous, next, Backward, p) && TrimmedApart(previous.fields) && TrimmedApart(next.fields)
            && Closed(p, Fields(previous)) && NothingNewRequired(Fields(previous), Fields(next))
  {
    hide MatchesType, Sprint, Text.TypeName, Text.Trim, ValidSchema, Canonical, TrimmedApart, ByName;
    var f, g := Plain(a, t), Plain(a, t).(enum := [x]);
    OneField(f);
    OneField(g);
    ValidOne(h, map[a := v], f);
    ValidOne(h, map[a := v], g);
    hide Fields, Valid;
  }

  /** In forward mode a field demanded at once is compatible. */
  lemma {:induction false} ForwardDemands(h: Host, a: string, b: string, t: string, v: Value)
    requires Sample(a, b, t, v)
    ensures var previous := Fielded([Plain(a, t)]);
            var next := Fielded([Plain(a, t), Plain(b, t).(required := true)]);
            var p: Payload := map[a := v];
            && Misled(h, previous, next, Forward, p) && TrimmedApart(previous.fields) && TrimmedApart(next.fields)
            && Closed(p, Fields(previous)) && OpenedEnumsCover(h, Fields(previous), Fields(next))
            && (forall f | f in Canonical(next).fields :: !(f.required && f.default != Null))
  {
    hide MatchesType, Text.TypeName, Text.Trim, Text.Less, ValidSchema, Canonical, TrimmedApart, ByName, Covers;
    var f, g := Plain(a, t), Plain(b, t).(required := true);
    Text.LessIrreflexive(a);
    OneField(f);
    TwoFieldsApart(f, g);
    ValidOne(h, map[a := v], f);
    ValidTwo(h, map[a := v], f, g);
    hide Fields, Valid;
  }

  /** Names that only white space keeps apart: the comparison sees only the last of the two fields, and
      validation checks both. */
  lemma {:induction false} ShadowedFieldMatters(h: Host, a: string, t: string, v: Value, x: string)
    requires InForm(Plain(a, t)) && v != Null && MatchesType(v, t) && Sprint(h, v) != x
    ensures var previous := Fielded([Plain(a, t)]);
            var next := Fielded([Plain(a, t).(enum := [x]), Plain(a + [' '], t)]);
            var p: Payload := map[a := v];
            && Misled(h, previous, next, Backward, p) && !TrimmedApart(next.fields)
            && Closed(p, Fields(previous)) && Fields(next) == Fields(previous)
  {
    hide MatchesType, Sprint, Text.TypeName, ValidSchema, Canonical, ByName, TrimmedApart, Text.Trim;
    var f, e := Plain(a, t), Plain(a, t).(enum := [x]);
    OneField(f);
    ShadowedFields(a, t, x);
    hide InForm, Fields;
    assert Valid(h, map[a := v], [f]) by { ValidOne(h, map[a := v], f); }
    assert !Valid(h, map[a := v], [e, f]) by { ValidTwo(h, map[a := v], e, f); }
    hide Valid, IssueOf;
  }

  lemma {:induction false} ShadowedFields(a: string, t: string, x: string)
    requires InForm(Plain(a, t))
    ensures var f, e := Plain(a, t), Plain(a, t).(enum := [x]);
            var s := Fielded([e, Plain(a + [' '], t)]);
            ValidSchema(s) && Canonical(s).fields == [e, f] && Fields(s) == map[a := f] && !TrimmedApart(s.fields)
  {
    hide Text.TypeName, ValidSchema, Canonical, ByName;
    var f, g, e := Plain(a, t), Plain(a + [' '], t), Plain(a, t).(enum := [x]);
    SpaceAfter(a);
    FormIsNormal(e);
    FormIsNormal(f);
    hide Text.Trim, Text.Less;
    TwoFields(e, g);
    assert e in [e, g] && g in [e, g];
  }

  /** Dropping a default afterwards makes distant versions incompatible, though neighbours are compatible. */
  lemma {:induction false} DroppedDefaultBreaksChain(a: string, t: string, v: Value)
    requires InForm(Plain(a, t)) && v != Null
    ensures var first := Fielded([Plain(a, t)]);
            var second := Fielded([Plain(a, t).(required := true, default := v)]);
            var third := Fielded([Plain(a, t).(required := true)]);
            && ValidSchema(first) && ValidSchema(second) && ValidSchema(third)
            && Compatible(first, second, Backward) && Compatible(second, third, Backward) && !Compatible(first, third, Backward)
  {
    hide Text.TypeName, Text.Trim, ValidSchema, Canonical, ByName, TrimmedApart;
    OneField(Plain(a, t));
    OneField(Plain(a, t).(required := true, default := v));
    OneField(Plain(a, t).(required := true));
    hide Fields;
  }
}
