/** Stored versions whose names collide after trimming (internal/contract/domain/model.go): the order in which a
    sort leaves them decides which of them a comparison sees. */
module Ties {
  import opened Values
  import opened Schemas
  import opened Contracts
  import Registry
  import Sorting
  import Text

  /** The fields agree in everything that a comparison with a later field reads. */
  predicate Alike(f: Field, g: Field) {
    f.typ == g.typ && f.required == g.required && ContainsAll(f.enum, g.enum) && ContainsAll(g.enum, f.enum)
  }

  /** Fields of one name are alike. */
  ghost predicate TiesAlike(fs: seq<Field>) {
    forall f, g | f in fs && g in fs && f.name == g.name :: Alike(f, g)
  }

  lemma AlikeFollow(f: Field, g: Field, nf: Field)
    requires Alike(f, g)
    ensures Follows(f, nf) == Follows(g, nf)
  {
    assert f.enum != [] ==> f.enum[0] in g.enum;
    assert g.enum != [] ==> g.enum[0] in f.enum;
  }

  /** A field that follows `f` as closely as can be follows `g` only if `g` agrees with `f` or asks for less. */
  function Strictest(f: Field): Field {
    f.(default := Null)
  }

  lemma UnlikeSplit(f: Field, g: Field)
    requires !Alike(f, g)
    ensures !Follows(g, Strictest(f)) || !Follows(f, Strictest(g))
  {
  }

  // ---------------------------------------------------------------- alike ties settle the verdict

  lemma SameVerdict(fs: seq<Field>, a: seq<Field>, b: seq<Field>, w: FieldMap, mode: Mode)
    requires TiesAlike(fs) && multiset(a) == multiset(fs) && multiset(b) == multiset(fs)
    ensures CompatibleFields(ByName(a), w, mode) == CompatibleFields(ByName(b), w, mode)
  {
    Sorting.SameElements(a, fs);
    Sorting.SameElements(b, fs);
    var o, p := ByName(a), ByName(b);
    assert forall n :: n in o <==> n in p;
    forall n | n in o && n in w
      ensures Follows(o[n], w[n]) == Follows(p[n], w[n])
    {
      AlikeFollow(o[n], p[n], w[n]);
    }
    hide Follows, ByName, TiesAlike;
  }

  // ---------------------------------------------------------------- any tied field can win

  /** The last position of a name. */
  function LastAt(fs: seq<Field>, n: string): (r: nat)
    requires exists f :: f in fs && f.name == n
    ensures r < |fs| && fs[r].name == n && forall k | r < k < |fs| :: fs[k].name != n
  {
    var k := |fs| - 1;
    if fs[k].name == n then k
    else
      assert forall f | f in fs :: f in fs[..k] || f == fs[k];
      LastAt(fs[..k], n)
  }

  lemma LastWins(fs: seq<Field>, p: nat)
    requires p < |fs| && forall k | p < k < |fs| :: fs[k].name != fs[p].name
    ensures fs[p].name in ByName(fs) && ByName(fs)[fs[p].name] == fs[p]
  {
    hide ByName;
    var rest := fs[p + 1..];
    forall g | g in rest
      ensures g.name != fs[p].name
    {
      var k :| p < k < |fs| && fs[k] == g;
    }
    Parts(fs, p);
    WinsBefore(fs[..p], fs[p], rest);
  }

  lemma Parts(fs: seq<Field>, p: nat)
    requires p < |fs|
    ensures fs == fs[..p] + [fs[p]] + fs[p + 1..]
  {
  }

  lemma {:induction false} WinsBefore(a: seq<Field>, f: Field, b: seq<Field>)
    requires forall g | g in b :: g.name != f.name
    ensures f.name in ByName(a + [f] + b) && ByName(a + [f] + b)[f.name] == f
  {
    hide ByName;
    if b == [] {
      assert a + [f] + b == a + [f];
      ByNameMore(a, f);
    } else {
      var k := |b| - 1;
      WinsBefore(a, f, b[..k]);
      ByNameMore(a + [f] + b[..k], b[k]);
      assert a + [f] + b[..k] + [b[k]] == a + [f] + b;
    }
  }

  lemma ByNameMore(fs: seq<Field>, f: Field)
    ensures ByName(fs + [f]) == ByName(fs)[f.name := f]
  {
    assert (fs + [f])[..|fs|] == fs;
  }

  /** The two lists have the same names, and the same fields but for one name. */
  ghost predicate DifferIn(fs: seq<Field>, r: seq<Field>, n: string) {
    && |r| == |fs|
    && (forall k | 0 <= k < |fs| :: r[k].name == fs[k].name)
    && (forall k | 0 <= k < |fs| && fs[k].name != n :: r[k] == fs[k])
  }

  lemma SwappedDiffer(fs: seq<Field>, i: nat, p: nat)
    requires i < |fs| && p < |fs| && fs[i].name == fs[p].name
    ensures var r := Swapped(fs, i, p);
            DifferIn(fs, r, fs[i].name) && DifferIn(r, fs, fs[i].name) && r[p] == fs[i] && r[i] == fs[p]
  {
  }

  lemma {:induction false} OtherWinner(fs: seq<Field>, r: seq<Field>, n: string, m: string)
    requires DifferIn(fs, r, n) && m in ByName(fs) && m != n
    ensures m in ByName(r) && ByName(r)[m] == ByName(fs)[m]
  {
    var q := LastAt(fs, m);
    hide ByName, LastAt;
    LastWins(fs, q);
    assert forall k | q < k < |r| :: r[k].name == fs[k].name;
    LastWins(r, q);
  }

  /** Whichever of the fields of a name is put last wins, and nothing else changes. */
  lemma {:induction false} PutLastWins(fs: seq<Field>, i: nat, p: nat)
    requires i < |fs| && p < |fs| && fs[i].name == fs[p].name && forall k | p < k < |fs| :: fs[k].name != fs[p].name
    ensures ByName(Swapped(fs, i, p)) == ByName(fs)[fs[i].name := fs[i]]
  {
    var r, n := Swapped(fs, i, p), fs[i].name;
    SwappedDiffer(fs, i, p);
    assert forall k | p < k < |r| :: r[k].name == fs[k].name;
    hide ByName, Swapped;
    LastWins(r, p);
    hide DifferIn;
    SameButFor(fs, r, n);
  }

  lemma SameButFor(fs: seq<Field>, r: seq<Field>, n: string)
    requires DifferIn(fs, r, n) && DifferIn(r, fs, n) && n in ByName(r)
    ensures ByName(r) == ByName(fs)[n := ByName(r)[n]]
  {
    hide ByName, DifferIn;
    var o, w := ByName(fs)[n := ByName(r)[n]], ByName(r);
    forall m | m in o
      ensures m in w && w[m] == o[m]
    {
      if m != n {
        OtherWinner(fs, r, n, m);
      }
    }
    forall m | m in w
      ensures m in o
    {
      if m != n {
        OtherWinner(r, fs, n, m);
      }
    }
  }

  // ---------------------------------------------------------------- a schema for every map of stored fields

  /** A field as it may be written whose normal form is the given one: blank names and types are written as a space. */
  function Written(f: Field): Field {
    f.(name := if f.name == "" then " " else f.name, typ := if f.typ == "" then " " else f.typ)
  }

  lemma WrittenNormal(f: Field)
    requires Normal(f) == f
    ensures Normal(Written(f)) == f && Written(f).name != "" && Written(f).typ != ""
    ensures Text.Trim(Written(f).name) == f.name
  {
    assert Text.Trim(" ") == "" && Text.TypeName(" ") == "" by { BlankTrims(); }
    hide Text.Trim, Text.TypeName, Sorting.Sort;
  }

  lemma BlankTrims()
    ensures Text.Trim(" ") == "" && Text.TypeName(" ") == ""
  {
    assert Text.TrimLeft(" ") == Text.TrimLeft("");
  }

  ghost predicate NormalMap(w: FieldMap) {
    forall n | n in w :: w[n].name == n && Normal(w[n]) == w[n]
  }

  ghost function WrittenOf(w: FieldMap): seq<Field>
    decreases |w|
  {
    if w == map[] then [] else
      var n :| n in w;
      [Written(w[n])] + WrittenOf(w - {n})
  }

  ghost predicate IsWritten(w: FieldMap, f: Field) {
    exists n :: n in w && f == Written(w[n])
  }

  lemma WrittenApart(w: FieldMap, n: string, f: Field)
    requires NormalMap(w) && n in w && IsWritten(w - {n}, f)
    ensures IsWritten(w, f) && f.name != Written(w[n]).name
  {
    hide Normal, Written;
    var m :| m in w - {n} && f == Written((w - {n})[m]);
    assert f == Written(w[m]);
    WrittenNormal(w[m]);
    WrittenNormal(w[n]);
  }

  lemma {:induction false} WrittenMembers(w: FieldMap)
    requires NormalMap(w)
    ensures forall f | f in WrittenOf(w) :: IsWritten(w, f)
    ensures forall n | n in w :: Written(w[n]) in WrittenOf(w)
    ensures forall i, j | 0 <= i < j < |WrittenOf(w)| :: WrittenOf(w)[i].name != WrittenOf(w)[j].name
    decreases |w|
  {
    if w != map[] {
      var n :| n in w && WrittenOf(w) == [Written(w[n])] + WrittenOf(w - {n});
      assert NormalMap(w - {n}) && IsWritten(w, Written(w[n]));
      hide Normal, Written, WrittenOf, NormalMap, IsWritten;
      var first, rest := Written(w[n]), WrittenOf(w - {n});
      WrittenMembers(w - {n});
      forall f | f in rest
        ensures IsWritten(w, f) && f.name != first.name
      {
        WrittenApart(w, n, f);
      }
      forall m | m in w
        ensures Written(w[m]) in WrittenOf(w)
      {
        assert m != n ==> m in w - {n} && (w - {n})[m] == w[m];
      }
      ApartMore(first, rest);
    }
  }

  lemma ApartMore(f: Field, rest: seq<Field>)
    requires forall g | g in rest :: g.name != f.name
    requires forall i, j | 0 <= i < j < |rest| :: rest[i].name != rest[j].name
    ensures forall i, j | 0 <= i < j < |[f] + rest| :: ([f] + rest)[i].name != ([f] + rest)[j].name
  {
    assert forall i | 0 < i < |[f] + rest| :: ([f] + rest)[i] == rest[i - 1];
  }

  /** Every map of stored fields is what a comparison sees of some valid schema. */
  lemma {:induction false} SchemaOf(w: FieldMap) returns (s: Schema)
    requires NormalMap(w) && w != map[]
    ensures ValidSchema(s) && Fields(s) == w
  {
    hide WrittenOf, Written, Normal, NormalMap, Text.Trim, Fields, ValidSchema, HasNormal, HasSource, IsWritten;
    s := Fielded(WrittenOf(w));
    WrittenMembers(w);
    WrittenValid(w, s);
    forall f | f in s.fields
      ensures HasNormal(w, f)
    {
      WrittenIs(w, f);
    }
    forall m | m in w
      ensures HasSource(s.fields, w[m])
    {
      WrittenSource(w, s.fields, m);
    }
    FieldsAre(s, w);
  }

  lemma WrittenSource(w: FieldMap, fs: seq<Field>, m: string)
    requires NormalMap(w) && m in w && Written(w[m]) in fs
    ensures HasSource(fs, w[m])
  {
    hide Written, Normal;
    WrittenNormal(w[m]);
  }

  lemma {:induction false} WrittenValid(w: FieldMap, s: Schema)
    requires NormalMap(w) && w != map[] && s == Fielded(WrittenOf(w))
    ensures ValidSchema(s)
  {
    hide WrittenOf, Written, Normal, NormalMap, HasNormal, IsWritten;
    WrittenMembers(w);
    var n :| n in w;
    assert Written(w[n]) in s.fields;
    forall f | f in s.fields
      ensures f.name != "" && f.typ != ""
    {
      WrittenIs(w, f);
    }
  }

  ghost predicate HasNormal(w: FieldMap, f: Field) {
    exists m :: m in w && Normal(f) == w[m] && m == Text.Trim(f.name)
  }

  ghost predicate HasSource(fs: seq<Field>, x: Field) {
    exists f :: f in fs && Normal(f) == x
  }

  lemma WrittenIs(w: FieldMap, f: Field)
    requires NormalMap(w) && IsWritten(w, f)
    ensures f.name != "" && f.typ != "" && HasNormal(w, f)
  {
    hide Normal, Written, Text.Trim;
    var m :| m in w && f == Written(w[m]);
    WrittenNormal(w[m]);
  }

  lemma {:induction false} FieldsAre(s: Schema, w: FieldMap)
    requires NormalMap(w) && (forall f | f in s.fields :: HasNormal(w, f)) && (forall n | n in w :: HasSource(s.fields, w[n]))
    ensures Fields(s) == w
  {
    hide Canonical, Normal, Text.Trim, HasSource, HasNormal;
    ApartWhenMapped(s.fields, w);
    IdentifiedIff(s);
    CanonicalMembers(s);
    hide TrimmedApart, Identified;
    var c := Canonical(s).fields;
    forall n | n in w
      ensures n in Fields(s) && Fields(s)[n] == w[n]
    {
      SourceIn(s, w[n]);
      ByNameLookup(c, w[n]);
    }
    forall n | n in Fields(s)
      ensures n in w
    {
      var f :| f in s.fields && Fields(s)[n] == Normal(f);
      MappedName(w, f);
    }
  }

  lemma ApartWhenMapped(fs: seq<Field>, w: FieldMap)
    requires forall f | f in fs :: HasNormal(w, f)
    ensures TrimmedApart(fs)
  {
    hide Normal, Text.Trim;
  }

  lemma SourceIn(s: Schema, x: Field)
    requires HasSource(s.fields, x)
    ensures x in Canonical(s).fields
  {
    hide Normal, Canonical;
    CanonicalMembers(s);
  }

  lemma MappedName(w: FieldMap, f: Field)
    requires NormalMap(w) && HasNormal(w, f)
    ensures Normal(f).name in w
  {
    hide Normal, Text.Trim;
  }

  // ---------------------------------------------------------------- exactly when the order decides

  function Last(c: Data): seq<Field>
    requires c.versions != []
  {
    c.versions[|c.versions| - 1].schema.fields
  }

  /** Whatever the order in which a comparison sees the last version, the verdict is the same. */
  ghost predicate SettledFor(c: Data, schema: Schema, a: seq<Field>, b: seq<Field>) {
    Seen(c, a) && Seen(c, b) ==> CanAdd(c, schema, a) == CanAdd(c, schema, b)
  }

  ghost predicate Settled(c: Data) {
    forall schema, a, b :: SettledFor(c, schema, a, b)
  }

  lemma {:induction false} AlikeSettles(c: Data, raw: Schema)
    requires c.versions != [] && Last(c) == Canonical(raw).fields && TiesAlike(Last(c))
    ensures Settled(c)
  {
    hide CompatibleFields, Fields, ByName, Canonical, TiesAlike, ValidSchema;
    forall schema, a, b | Seen(c, a) && Seen(c, b)
      ensures CanAdd(c, schema, a) == CanAdd(c, schema, b)
    {
      OrderingIsNormal(raw, a);
      OrderingIsNormal(raw, b);
      SameVerdict(Last(c), a, b, Fields(schema), c.mode);
    }
  }

  /** The orders that put `f` last, and `g`, and a schema that may follow the one and not the other. */
  lemma {:induction false} TieUnsettles(c: Data, raw: Schema, f: Field, g: Field)
    requires c.versions != [] && Last(c) == Canonical(raw).fields
    requires f in Last(c) && g in Last(c) && f.name == g.name && !Follows(g, Strictest(f))
    ensures !Settled(c)
  {
    hide Canonical, Sorting.Sort, Follows, Normal, FieldLt, ByName, Swapped, Ordering, Normals, LastAt;
    var base := Sorting.Sort(Last(c), FieldLt);
    SortIsOrdering(Last(c));
    OrderingElements(Last(c), base);
    OrderingIsNormal(raw, base);
    var i :| 0 <= i < |base| && base[i] == f;
    var j :| 0 <= j < |base| && base[j] == g;
    var p := LastAt(base, f.name);
    var a, b := Swapped(base, i, p), Swapped(base, j, p);
    TieOrders(Last(c), base, i, j, p);
    PutLastWins(base, i, p);
    PutLastWins(base, j, p);
    OrderingIsNormal(raw, a);
    OrderingIsNormal(raw, b);
    WinnersNormal(base, f, ByName(base)[f.name := Strictest(f)]);
    assert Seen(c, a) && Seen(c, b);
    OrdersDisagree(c, a, b, ByName(base), f, g);
  }

  lemma OrdersDisagree(c: Data, a: seq<Field>, b: seq<Field>, o: FieldMap, f: Field, g: Field)
    requires c.versions != [] && Seen(c, a) && Seen(c, b) && f.name == g.name && !Follows(g, Strictest(f))
    requires ByName(Normals(a)) == o[f.name := f] && ByName(Normals(b)) == o[f.name := g]
    requires NormalMap(o[f.name := Strictest(f)])
    ensures !Settled(c)
  {
    hide ByName, Normals, Seen, Fields, ValidSchema, NormalMap, CompatibleFields, Follows;
    var w := o[f.name := Strictest(f)];
    assert f.name in w;
    var schema := SchemaOf(w);
    StrictestDecides(o, f, g, c.mode);
    assert CanAdd(c, schema, a) && !CanAdd(c, schema, b);
    assert !SettledFor(c, schema, a, b);
  }

  lemma OrderingElements(fs: seq<Field>, order: seq<Field>)
    requires Ordering(fs, order)
    ensures forall f :: f in order <==> f in fs
  {
    Sorting.SameElements(order, fs);
  }

  lemma TieOrders(fs: seq<Field>, base: seq<Field>, i: nat, j: nat, p: nat)
    requires Ordering(fs, base) && i < |base| && j < |base| && p < |base| && base[i].name == base[j].name == base[p].name
    ensures Ordering(fs, Swapped(base, i, p)) && Ordering(fs, Swapped(base, j, p))
  {
    SwapTied(base, i, p);
    SwapTied(base, j, p);
  }

  lemma WinnersNormal(base: seq<Field>, f: Field, w: FieldMap)
    requires Normals(base) == base && f in base && w == ByName(base)[f.name := Strictest(f)]
    ensures NormalMap(w)
  {
    hide Text.Trim, Text.TypeName, Sorting.Sort, ByName;
    forall x | x in base
      ensures Normal(x) == x
    {
      var i :| 0 <= i < |base| && base[i] == x;
      assert Normals(base)[i] == Normal(x);
    }
  }

  lemma StrictestDecides(o: FieldMap, f: Field, g: Field, mode: Mode)
    requires f.name == g.name && !Follows(g, Strictest(f))
    ensures CompatibleFields(o[f.name := f], o[f.name := Strictest(f)], mode)
    ensures !CompatibleFields(o[f.name := g], o[f.name := Strictest(f)], mode)
  {
    assert Follows(f, Strictest(f));
    assert forall x :: Follows(x, x);
    hide Follows;
    var p, w := o[f.name := g], o[f.name := Strictest(f)];
    assert f.name in p && f.name in w && !Follows(p[f.name], w[f.name]);
  }

  /** The order in which `sort.Slice` leaves equal names never matters to what may follow a stored version, in any
      mode and for any candidate, exactly when fields of one stored name agree in type, in being required and in
      the values of their enums. */
  lemma {:induction false} VerdictSettledIff(c: Data)
    requires c.versions != [] && Stored(c.versions[|c.versions| - 1].schema)
    ensures Settled(c) <==> TiesAlike(Last(c))
  {
    hide Settled, Canonical, Follows, Alike;
    var raw :| ValidSchema(raw) && c.versions[|c.versions| - 1].schema == Canonical(raw);
    if TiesAlike(Last(c)) {
      AlikeSettles(c, raw);
    } else {
      var f, g :| f in Last(c) && g in Last(c) && f.name == g.name && !Alike(f, g);
      UnlikeSplit(f, g);
      if !Follows(g, Strictest(f)) {
        TieUnsettles(c, raw, f, g);
      } else {
        TieUnsettles(c, raw, g, f);
      }
    }
  }

  /** Such contracts exist: whatever the name and the two types, registering a contract and adding a version whose two
      names differ in white space only leaves one for which the order decides. */
  lemma {:induction false} TiedVersionUnsettled(h: Host, org: string, id: string, name: string, a: string, t: string, u: string, now: int)
    requires id != "" && org != "" && Text.Trim(name) != ""
    requires InForm(Plain(a, t)) && InForm(Plain(a, u)) && t != u
    ensures var schema := Fielded([Plain(a, t), Plain(a + [' '], u)]);
            var values := Registry.Run(h, Registry.INITIAL, Registry.AddingActions(org, id, name, schema, now)).values;
            Registry.Key(org, id) in values && values[Registry.Key(org, id)].versions != [] && !Settled(values[Registry.Key(org, id)])
  {
    var f, g := Plain(a, t), Plain(a + [' '], u);
    var schema := Fielded([f, g]);
    SpaceAfter(a);
    FormIsNormal(f);
    FormIsNormal(Plain(a, u));
    hide Text.Trim, Text.Less, Text.TypeName, Registry.Run, Registry.AddingActions, Registry.Key;
    TwoFields(f, g);
    assert Normal(g) == Plain(a, u);
    hide ValidSchema, Canonical, Settled, Fields, InForm;
    Registry.DraftAdded(h, org, id, name, schema, now);
    var c := Registry.Drafted(h, org, id, name, schema, now);
    assert Last(c) == [f, Plain(a, u)];
    assert f in Last(c) && Plain(a, u) in Last(c) && !Alike(f, Plain(a, u));
    VerdictSettledIff(c);
  }
}
