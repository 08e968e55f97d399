/** The text a fingerprint hashes (internal/contract/domain/model.go, `Fingerprint`): it does not depend
    on the order of fields or enum values, and under stated conditions it can be read back. */
module Fingerprints {
  import opened Values
  import opened Schemas
  import Sorting
  import Text

  // ---------------------------------------------------------------- joining and splitting

  function Join(parts: seq<string>, sep: char): string {
    if parts == [] then ""
    else if |parts| == 1 then parts[0]
    else parts[0] + [sep] + Join(parts[1..], sep)
  }

  /** The text before the first `sep`, and the text after it. */
  function Before(s: string, sep: char): string {
    if s == [] || s[0] == sep then [] else [s[0]] + Before(s[1..], sep)
  }

  function After(s: string, sep: char): (r: string)
    ensures s != [] ==> |r| < |s|
  {
    if s == [] then [] else if s[0] == sep then s[1..] else After(s[1..], sep)
  }

  function Split(s: string, sep: char): (r: seq<string>)
    ensures r != []
    decreases |s|
  {
    if sep !in s then [s] else [Before(s, sep)] + Split(After(s, sep), sep)
  }

  lemma {:induction false} CutJoin(a: string, sep: char, b: string)
    requires sep !in a
    ensures Before(a + [sep] + b, sep) == a && After(a + [sep] + b, sep) == b
  {
    var s := a + [sep] + b;
    if a == [] {
      assert s == [sep] + b;
    } else {
      CutJoin(a[1..], sep, b);
      assert s[1..] == a[1..] + [sep] + b;
    }
  }

  lemma {:induction false} SplitJoin(parts: seq<string>, sep: char)
    requires parts != [] && forall p | p in parts :: sep !in p
    ensures Split(Join(parts, sep), sep) == parts
  {
    if |parts| > 1 {
      SplitJoin(parts[1..], sep);
      CutJoin(parts[0], sep, Join(parts[1..], sep));
      assert Join(parts, sep)[|parts[0]|] == sep;
    }
  }

  lemma {:induction false} JoinAvoids(parts: seq<string>, sep: char, c: char)
    requires c != sep && forall p | p in parts :: c !in p
    ensures c !in Join(parts, sep)
  {
    if |parts| > 1 {
      JoinAvoids(parts[1..], sep, c);
    }
  }

  // ---------------------------------------------------------------- encoding

  function KindText(k: Kind): string {
    match k
    case JsonSchema => "json-schema"
    case Protobuf => "protobuf"
    case OtherKind(name) => name
  }

  function BoolText(b: bool): string {
    if b then "true" else "false"
  }

  function Piece(f: Field): string {
    f.name + [':'] + (f.typ + [':'] + (BoolText(f.required) + [':'] + (Join(f.enum, ',') + [':'] + f.annotation)))
  }

  function Encode(kind: string, fs: seq<Field>): string {
    if fs == [] then kind
    else Encode(kind, fs[..|fs| - 1]) + ['|'] + Piece(fs[|fs| - 1])
  }

  function Preimage(s: Schema): string {
    Encode(KindText(s.kind), Canonical(s).fields)
  }

  /** `Fingerprint`. */
  method Fingerprint(h: Host, s: Schema) returns (r: string, ghost order: seq<Field>)
    ensures Ordering(s.fields, order) && r == h.sha(Encode(KindText(s.kind), Normals(order)))
    ensures Identified(s.fields) ==> r == h.sha(Preimage(s))
  {
    hide Ordering, Sorting.Sort;
    var c;
    c, order := Canonicalize(s);
    var b := KindText(c.kind);
    for i := 0 to |c.fields|
      invariant b == Encode(KindText(s.kind), c.fields[..i])
    {
      assert c.fields[..i + 1][..i] == c.fields[..i];
      b := b + ['|'] + Piece(c.fields[i]);
    }
    assert c.fields[..|c.fields|] == c.fields;
    r := h.sha(b);
  }

  /** Reordering the fields and the enum values of a valid schema leaves the fingerprint alone. */
  lemma FingerprintForgetsOrder(h: Host, s: Schema, u: Schema, t: Schema)
    requires Identified(s.fields) && Reordered(s, u) && EnumsReordered(u, t)
    ensures h.sha(Preimage(s)) == h.sha(Preimage(t))
  {
    CanonicalForgetsOrder(s, u, t);
  }

  // ---------------------------------------------------------------- decoding

  /** What the encoding says of a field: everything but the default. */
  datatype Digest = Digest(name: string, typ: string, required: string, enum: seq<string>, annotation: string)

  function DigestOf(f: Field): Digest {
    Digest(f.name, f.typ, BoolText(f.required), f.enum, f.annotation)
  }

  function ReadPiece(s: string): Digest {
    var s1 := After(s, ':');
    var s2 := After(s1, ':');
    var s3 := After(s2, ':');
    var e := Before(s3, ':');
    Digest(Before(s, ':'), Before(s1, ':'), Before(s2, ':'), if e == "" then [] else Split(e, ','), After(s3, ':'))
  }

  function Decode(b: string): (string, seq<Digest>) {
    var parts := Split(b, '|');
    (parts[0], ReadPieces(parts[1..]))
  }

  function ReadPieces(parts: seq<string>): (r: seq<Digest>)
    ensures |r| == |parts|
  {
    seq(|parts|, i requires 0 <= i < |parts| => ReadPiece(parts[i]))
  }

  /** Free of the separators that would make the text ambiguous; the annotation comes last, so only
      `|` can hurt it. */
  ghost predicate Clean(f: Field) {
    && ':' !in f.name && '|' !in f.name
    && ':' !in f.typ && '|' !in f.typ
    && (forall v | v in f.enum :: v != "" && ',' !in v && ':' !in v && '|' !in v)
    && '|' !in f.annotation
  }

  lemma ReadEnum(enum: seq<string>)
    requires forall v | v in enum :: v != "" && ',' !in v
    ensures (if Join(enum, ',') == "" then [] else Split(Join(enum, ','), ',')) == enum
  {
    if enum != [] {
      SplitJoin(enum, ',');
      assert enum[0] != "";
      assert Join(enum, ',') != "";
    }
  }

  lemma ReadPieceOf(f: Field)
    requires Clean(f)
    ensures ReadPiece(Piece(f)) == DigestOf(f)
  {
    var e := Join(f.enum, ',');
    JoinAvoids(f.enum, ',', ':');
    CutJoin(e, ':', f.annotation);
    var s3 := e + [':'] + f.annotation;
    CutJoin(BoolText(f.required), ':', s3);
    var s2 := BoolText(f.required) + [':'] + s3;
    CutJoin(f.typ, ':', s2);
    CutJoin(f.name, ':', f.typ + [':'] + s2);
    ReadEnum(f.enum);
  }

  lemma PieceAvoidsBar(f: Field)
    requires Clean(f)
    ensures '|' !in Piece(f)
  {
    JoinAvoids(f.enum, ',', '|');
  }

  function Pieces(fs: seq<Field>): (r: seq<string>)
    ensures |r| == |fs|
  {
    seq(|fs|, i requires 0 <= i < |fs| => Piece(fs[i]))
  }

  lemma {:induction false} JoinLast(parts: seq<string>, p: string, sep: char)
    requires parts != []
    ensures Join(parts + [p], sep) == Join(parts, sep) + [sep] + p
  {
    if |parts| > 1 {
      JoinLast(parts[1..], p, sep);
      assert (parts + [p])[1..] == parts[1..] + [p];
    } else {
      assert (parts + [p])[1..] == [p];
    }
  }

  lemma {:induction false} EncodeIsJoin(kind: string, fs: seq<Field>)
    ensures Encode(kind, fs) == Join([kind] + Pieces(fs), '|')
  {
    if fs != [] {
      var front, last := fs[..|fs| - 1], Piece(fs[|fs| - 1]);
      EncodeIsJoin(kind, front);
      JoinLast([kind] + Pieces(front), last, '|');
      assert [kind] + Pieces(fs) == [kind] + Pieces(front) + [last];
    }
  }

  lemma {:induction false} PiecesAvoidBar(fs: seq<Field>, p: string)
    requires (forall f | f in fs :: Clean(f)) && p in Pieces(fs)
    ensures '|' !in p
  {
    var i :| 0 <= i < |fs| && Pieces(fs)[i] == p;
    PieceAvoidsBar(fs[i]);
  }

  lemma {:induction false} SplitEncode(kind: string, fs: seq<Field>)
    requires '|' !in kind && forall f | f in fs :: Clean(f)
    ensures Split(Encode(kind, fs), '|') == [kind] + Pieces(fs)
  {
    EncodeIsJoin(kind, fs);
    forall p | p in [kind] + Pieces(fs)
      ensures '|' !in p
    {
      if p in Pieces(fs) {
        PiecesAvoidBar(fs, p);
      }
    }
    SplitJoin([kind] + Pieces(fs), '|');
  }

  lemma {:induction false} ReadPiecesOf(fs: seq<Field>)
    requires forall f | f in fs :: Clean(f)
    ensures ReadPieces(Pieces(fs)) == Digests(fs)
  {
    forall i | 0 <= i < |fs|
      ensures ReadPiece(Pieces(fs)[i]) == DigestOf(fs[i])
    {
      ReadPieceOf(fs[i]);
    }
  }

  /** Round trip: the hashed text of clean fields reads back as the kind and every field. */
  lemma {:induction false} DecodeEncode(kind: string, fs: seq<Field>)
    requires '|' !in kind && forall f | f in fs :: Clean(f)
    ensures Decode(Encode(kind, fs)) == (kind, Digests(fs))
  {
    SplitEncode(kind, fs);
    ReadPiecesOf(fs);
    assert ([kind] + Pieces(fs))[1..] == Pieces(fs);
  }

  function Digests(fs: seq<Field>): (r: seq<Digest>)
    ensures |r| == |fs|
  {
    seq(|fs|, i requires 0 <= i < |fs| => DigestOf(fs[i]))
  }

  /** Equal hashed texts mean the same kind and, field by field, the same name, type, requiredness,
      enum and annotation. */
  lemma FingerprintFaithful(s: Schema, t: Schema)
    requires '|' !in KindText(s.kind) && forall f | f in Canonical(s).fields :: Clean(f)
    requires '|' !in KindText(t.kind) && forall f | f in Canonical(t).fields :: Clean(f)
    requires Preimage(s) == Preimage(t)
    ensures KindText(s.kind) == KindText(t.kind) && |Canonical(s).fields| == |Canonical(t).fields|
    ensures forall i | 0 <= i < |Canonical(s).fields| ::
              Canonical(s).fields[i] == Canonical(t).fields[i].(default := Canonical(s).fields[i].default)
  {
    var a, b := Canonical(s).fields, Canonical(t).fields;
    DecodeEncode(KindText(s.kind), a);
    DecodeEncode(KindText(t.kind), b);
    assert Digests(a) == Digests(b);
    forall i | 0 <= i < |a|
      ensures a[i] == b[i].(default := a[i].default)
    {
      assert Digests(a)[i] == Digests(b)[i];
      BoolTextInjective(a[i].required, b[i].required);
    }
  }

  lemma BoolTextInjective(a: bool, b: bool)
    ensures BoolText(a) == BoolText(b) ==> a == b
  {
    assert |BoolText(true)| == 4 && |BoolText(false)| == 5;
  }

  lemma {:induction false} PreimageOne(f: Field)
    requires InForm(f)
    ensures var s := Fielded([f]);
            ValidSchema(s) && Canonical(s).fields == [f] && Preimage(s) == KindText(JsonSchema) + ['|'] + Piece(f)
  {
    hide KindText, Piece, ValidSchema, ByName, TrimmedApart;
    OneField(f);
    hide Canonical, InForm;
    assert [f][..0] == [];
    assert Encode(KindText(JsonSchema), [f]) == Encode(KindText(JsonSchema), []) + ['|'] + Piece(f);
  }

  /** Why the conditions: valid schemas with different fields and one hashed text, for every field whose enum
      could list the empty value, and for every way to move a colon from the name to the type. */
  lemma {:induction false} UncleanFieldsCollide(f: Field, a: string, b: string, t: string)
    requires InForm(f) && f.enum == []
    requires InForm(Plain(a + [':'] + b, t)) && InForm(Plain(a, b + [':'] + t))
    ensures var s, u := Fielded([f]), Fielded([f.(enum := [""])]);
            ValidSchema(s) && ValidSchema(u) && Preimage(s) == Preimage(u) && Canonical(s).fields != Canonical(u).fields
    ensures var s, u := Fielded([Plain(a + [':'] + b, t)]), Fielded([Plain(a, b + [':'] + t)]);
            ValidSchema(s) && ValidSchema(u) && Preimage(s) == Preimage(u) && Canonical(s).fields != Canonical(u).fields
  {
    EmptyValueHidden(f);
    ColonMoves(a, b, t);
    hide Piece, Preimage, Canonical, ValidSchema;
    PreimageOne(f);
    PreimageOne(f.(enum := [""]));
    PreimageOne(Plain(a + [':'] + b, t));
    PreimageOne(Plain(a, b + [':'] + t));
    hide InForm;
    assert |a + [':'] + b| > |a|;
  }

  lemma EmptyValueHidden(f: Field)
    requires f.enum == []
    ensures Piece(f) == Piece(f.(enum := [""]))
  {
    assert Join([""], ',') == Join([], ',');
  }

  lemma ColonMoves(a: string, b: string, t: string)
    ensures Piece(Plain(a + [':'] + b, t)) == Piece(Plain(a, b + [':'] + t))
  {
    hide BoolText, Join;
    Regroup(a, b, t, BoolText(false) + [':'] + (Join([], ',') + [':'] + ""));
  }

  lemma Regroup(a: string, b: string, c: string, d: string)
    ensures (a + [':'] + b) + [':'] + (c + [':'] + d) == a + [':'] + ((b + [':'] + c) + [':'] + d)
  {
    var x, y := b + [':'], [':'] + d;
    assert a + [':'] + b + [':'] + (c + y) == a + [':'] + (x + (c + y));
    assert x + (c + y) == (x + c) + y;
  }

  /** There are such fields. */
  lemma UncleanFieldsExist()
    ensures InForm(Plain("a:b", "c")) && InForm(Plain("a", "b:c")) && "a:b" == "a" + [':'] + "b" && "b:c" == "b" + [':'] + "c"
  {
    assert Text.ToLower("c") == "c" && Text.ToLower("b:c") == "b:c";
    Text.TrimIdempotent("c");
    Text.TrimIdempotent("b:c");
  }

  /** The default is not part of the fingerprint, though the verdict depends on it: valid schemas with one
      fingerprint, of which one may follow a third and the other may not. */
  lemma {:induction false} DefaultNotFingerprinted(a: string, t: string, v: Value)
    requires InForm(Plain(a, t)) && v != Null
    ensures var previous, f := Fielded([Plain(a, t)]), Plain(a, t).(required := true);
            var s, u := Fielded([f.(default := v)]), Fielded([f]);
            && ValidSchema(previous) && ValidSchema(s) && ValidSchema(u) && Preimage(s) == Preimage(u)
            && Compatible(previous, s, Backward) && !Compatible(previous, u, Backward)
  {
    var f := Plain(a, t).(required := true);
    assert Piece(f.(default := v)) == Piece(f);
    hide Piece, Preimage, Canonical, ValidSchema, Text.TypeName, Text.Trimmed;
    PreimageOne(f.(default := v));
    PreimageOne(f);
    DefaultDecides(a, t, v);
    hide InForm, Compatible;
  }

  lemma {:induction false} DefaultDecides(a: string, t: string, v: Value)
    requires InForm(Plain(a, t)) && v != Null
    ensures var previous, f := Fielded([Plain(a, t)]), Plain(a, t).(required := true);
            ValidSchema(previous) && Compatible(previous, Fielded([f.(default := v)]), Backward) && !Compatible(previous, Fielded([f]), Backward)
  {
    hide Canonical, ValidSchema, ByName, TrimmedApart, Text.TypeName, Text.Trimmed;
    OneField(Plain(a, t));
    OneField(Plain(a, t).(required := true, default := v));
    OneField(Plain(a, t).(required := true));
    hide Fields;
  }
}
