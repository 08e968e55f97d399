/** Contracts and their versions (internal/contract/domain/model.go): `AddVersion`, `Publish` and what
    they keep. */
module Contracts {
  import opened Values
  import opened Schemas
  import Text
  import Evolution
  import Sorting
  import Fingerprints
  import Typecheck

  datatype Lifecycle = Draft | Published | Deprecated | Retired

  datatype Version = Version(
    number: int, schema: Schema, fingerprint: string, lifecycle: Lifecycle,
    createdAt: int, publishedAt: Option<int>, etag: string)

  /** The value of a contract: what a repository stores and copies. */
  datatype Data = Data(
    id: string, org: string, name: string, description: string, mode: Mode,
    versions: seq<Version>, createdAt: int, updatedAt: int, revision: nat)

  function ETag(id: string, revision: nat): string {
    id + ['-'] + Text.Itoa(revision)
  }

  lemma ETagInjective(id: string, m: nat, n: nat)
    requires ETag(id, m) == ETag(id, n)
    ensures m == n
  {
    assert ETag(id, m)[|id| + 1..] == Text.Itoa(m);
    assert ETag(id, n)[|id| + 1..] == Text.Itoa(n);
    Text.ItoaInjective(m, n);
  }

  // ---------------------------------------------------------------- operations on values

  function NewContract(id: string, org: string, name: string, description: string, mode: Mode, now: int): Result<Data> {
    if id == "" || org == "" || Text.Trim(name) == "" then Err("id, organization and name are required")
    else Ok(Data(id, org, name, description, if mode == Unset then Backward else mode, [], now, now, 1))
  }

  /** An order in which a comparison may see the fields of the last version. Its names can tie after
      trimming, and then the order is open. */
  predicate Seen(c: Data, order: seq<Field>) {
    c.versions != [] ==> Ordering(c.versions[|c.versions| - 1].schema.fields, order)
  }

  predicate CanAdd(c: Data, schema: Schema, order: seq<Field>) {
    && ValidSchema(schema)
    && (c.versions != [] ==> CompatibleFields(ByName(Normals(order)), Fields(schema), c.mode))
  }

  /** Where names identify the fields of the last version, the order does not matter. */
  lemma CanAddIff(c: Data, schema: Schema, order: seq<Field>)
    requires Seen(c, order) && c.versions != [] && Identified(c.versions[|c.versions| - 1].schema.fields)
    ensures ByName(Normals(order)) == Fields(c.versions[|c.versions| - 1].schema)
    ensures CanAdd(c, schema, order) <==>
            ValidSchema(schema) && Compatible(c.versions[|c.versions| - 1].schema, schema, c.mode)
  {
    SortDetermined(c.versions[|c.versions| - 1].schema.fields, order);
  }

  lemma OrdersAgree(c: Data, schema: Schema, order: seq<Field>)
    requires Seen(c, order) && c.versions != [] && Identified(c.versions[|c.versions| - 1].schema.fields)
    ensures forall other | Seen(c, other) :: CanAdd(c, schema, order) == CanAdd(c, schema, other)
  {
    CanAddIff(c, schema, order);
    hide Seen, CanAdd, Identified;
    forall other | Seen(c, other)
      ensures CanAdd(c, schema, order) == CanAdd(c, schema, other)
    {
      CanAddIff(c, schema, other);
    }
  }

  function NewVersion(h: Host, c: Data, schema: Schema, now: int): Version {
    Version(|c.versions| + 1, Canonical(schema), h.sha(Fingerprints.Preimage(schema)), Draft, now, None,
            ETag(c.id, c.revision + 1))
  }

  function Added(h: Host, c: Data, schema: Schema, now: int): Data {
    c.(versions := c.versions + [NewVersion(h, c, schema, now)], revision := c.revision + 1, updatedAt := now)
  }

  /** The first version with the given number. */
  function Find(vs: seq<Version>, number: int): (r: Option<nat>)
    ensures r.Some? ==> r.value < |vs| && vs[r.value].number == number
    ensures r.None? ==> forall v | v in vs :: v.number != number
  {
    if vs == [] then None
    else if vs[0].number == number then Some(0)
    else match Find(vs[1..], number) case Some(i) => Some(i + 1) case None => None
  }

  predicate CanPublish(c: Data, number: int, tag: string) {
    && tag != ""
    && Find(c.versions, number).Some?
    && c.versions[Find(c.versions, number).value].etag == tag
    && c.versions[Find(c.versions, number).value].lifecycle == Draft
  }

  function PublishedVersion(c: Data, i: nat, now: int): Version
    requires i < |c.versions|
  {
    c.versions[i].(lifecycle := Published, publishedAt := Some(now), etag := ETag(c.id, c.revision + 1))
  }

  function PublishedAt(c: Data, i: nat, now: int): Data
    requires i < |c.versions|
  {
    c.(versions := c.versions[i := PublishedVersion(c, i, now)], revision := c.revision + 1, updatedAt := now)
  }

  /** The comparison of a valid schema with the last version. */
  method CompareWithLast(last: Schema, schema: Schema, mode: Mode) returns (report: Report, ghost order: seq<Field>)
    requires ValidSchema(schema)
    ensures Ordering(last.fields, order)
    ensures report.compatible == CompatibleFields(ByName(Normals(order)), Fields(schema), mode)
  {
    ValidIdentified(schema);
    hide Ordering, ByName, Fields, CompatibleFields, IsChangeList, ValidSchema, Identified, Normals;
    ghost var after;
    report, order, after := Compare(last, schema, mode);
  }

  // ---------------------------------------------------------------- the object

  /** A contract as the domain code handles it: an object whose methods update its fields. */
  class Contract {
    const id: string
    const org: string
    const name: string
    const description: string
    const mode: Mode
    const createdAt: int
    var versions: seq<Version>
    var updatedAt: int
    var revision: nat

    constructor (c: Data)
      ensures Value() == c
    {
      id, org, name, description, mode := c.id, c.org, c.name, c.description, c.mode;
      createdAt, versions, updatedAt, revision := c.createdAt, c.versions, c.updatedAt, c.revision;
    }

    function Value(): Data
      reads this
    {
      Data(id, org, name, description, mode, versions, createdAt, updatedAt, revision)
    }

    method AddVersion(h: Host, schema: Schema, now: int) returns (r: Result<Version>, ghost order: seq<Field>)
      modifies this
      ensures Seen(old(Value()), order)
      ensures r.Ok? <==> CanAdd(old(Value()), schema, order)
      ensures r.Ok? ==> Value() == Added(h, old(Value()), schema, now) && r.value == NewVersion(h, old(Value()), schema, now)
      ensures r.Err? ==> Value() == old(Value())
    {
      hide Ordering, ByName, Fields, Canonical, ValidSchema, CompatibleFields, ETag, Fingerprints.Preimage, Fingerprints.Encode,
        Identified, Normals;
      order := [];
      if |versions| > 0 {
        order := Sorting.Sort(versions[|versions| - 1].schema.fields, FieldLt);
        SortIsOrdering(versions[|versions| - 1].schema.fields);
      }
      var checked := Validate(schema);
      if checked.Err? {
        return Err(checked.message), order;
      }
      if |versions| > 0 {
        var report;
        report, order := CompareWithLast(versions[|versions| - 1].schema, schema, mode);
        if !report.compatible {
          return Err("compatibility failed"), order;
        }
      }
      var canonical, _ := Canonicalize(schema);
      var print_, _ := Fingerprints.Fingerprint(h, schema);
      var v := Version(|versions| + 1, canonical, print_, Draft, now, None, ETag(id, revision + 1));
      versions := versions + [v];
      revision := revision + 1;
      updatedAt := now;
      return Ok(v), order;
    }

    method Publish(number: int, tag: string, now: int) returns (r: Result<Version>)
      modifies this
      ensures r.Ok? <==> CanPublish(old(Value()), number, tag)
      ensures r.Ok? ==> Value() == PublishedAt(old(Value()), Find(old(versions), number).value, now)
                        && r.value == versions[Find(old(versions), number).value]
      ensures r.Err? ==> Value() == old(Value())
    {
      if tag == "" {
        return Err("If-Match is required");
      }
      var i := 0;
      while i < |versions|
        invariant i <= |versions| && Value() == old(Value())
        invariant Find(versions, number) ==
                  match Find(versions[i..], number) case Some(k) => Some(i + k) case None => None
      {
        assert versions[i..][1..] == versions[i + 1..];
        if versions[i].number == number {
          if versions[i].etag != tag {
            return Err("etag mismatch");
          }
          if versions[i].lifecycle != Draft {
            return Err("only draft versions can be published");
          }
          revision := revision + 1;
          updatedAt := now;
          versions := versions[i := versions[i].(lifecycle := Published, publishedAt := Some(now), etag := ETag(id, revision))];
          return Ok(versions[i]);
        }
        i := i + 1;
      }
      return Err("version not found");
    }
  }

  // ---------------------------------------------------------------- what every contract satisfies

  function PublishedCount(vs: seq<Version>): nat {
    if vs == [] then 0
    else PublishedCount(vs[..|vs| - 1]) + if vs[|vs| - 1].lifecycle == Published then 1 else 0
  }

  ghost predicate Tagged(c: Data, v: Version) {
    exists r: nat :: r <= c.revision && v.etag == ETag(c.id, r)
  }

  /** The bookkeeping: versions numbered from one, the revision counting every change, tags that are
      pairwise different, and drafts or published versions only, the latter with a time of publication. */
  ghost predicate Numbered(c: Data) {
    && (forall i | 0 <= i < |c.versions| :: c.versions[i].number == i + 1)
    && c.revision == 1 + |c.versions| + PublishedCount(c.versions)
    && (forall i | 0 <= i < |c.versions| :: c.versions[i].lifecycle in {Draft, Published})
    && (forall i | 0 <= i < |c.versions| :: c.versions[i].lifecycle == Published <==> c.versions[i].publishedAt.Some?)
  }

  ghost predicate DistinctTags(c: Data) {
    && (forall i | 0 <= i < |c.versions| :: Tagged(c, c.versions[i]))
    && (forall i, j | 0 <= i < j < |c.versions| :: c.versions[i].etag != c.versions[j].etag)
  }

  /** The schema was stored by `AddVersion`. */
  ghost predicate Stored(s: Schema) {
    exists raw :: ValidSchema(raw) && s == Canonical(raw)
  }

  /** Each version was found compatible with the one before it. */
  ghost predicate Chained(c: Data) {
    && (forall v | v in c.versions :: Stored(v.schema))
    && (forall i | 0 <= i < |c.versions| - 1 ::
          Identified(c.versions[i].schema.fields) && Identified(c.versions[i + 1].schema.fields) ==>
            CompatibleFields(Fields(c.versions[i].schema), Fields(c.versions[i + 1].schema), c.mode))
  }

  ghost predicate WellFormed(c: Data) {
    Numbered(c) && DistinctTags(c) && Chained(c)
  }

  lemma NewWellFormed(id: string, org: string, name: string, description: string, mode: Mode, now: int)
    ensures NewContract(id, org, name, description, mode, now).Ok? ==>
              WellFormed(NewContract(id, org, name, description, mode, now).value)
              && (NewContract(id, org, name, description, mode, now).value.mode == Forward <==> mode == Forward)
    ensures NewContract(id, org, name, description, mode, now).Ok? <==>
            id != "" && org != "" && exists c :: c in name && !Text.IsSpace(c)
  {
    Text.TrimCuts(name);
    hide Text.Trim, Text.IsSpace;
  }

  lemma AddNumbered(h: Host, c: Data, schema: Schema, now: int)
    requires Numbered(c)
    ensures Numbered(Added(h, c, schema, now))
  {
    var d := Added(h, c, schema, now);
    assert d.versions[..|c.versions|] == c.versions;
  }

  lemma OldTag(c: Data, d: Data, v: Version)
    requires Tagged(c, v) && d.id == c.id && d.revision >= c.revision
    ensures Tagged(d, v)
  {
    var r: nat :| r <= c.revision && v.etag == ETag(c.id, r);
    assert r <= d.revision && v.etag == ETag(d.id, r);
  }

  lemma NewTagDiffers(c: Data, v: Version, r: nat)
    requires Tagged(c, v) && r > c.revision
    ensures v.etag != ETag(c.id, r)
  {
    var q: nat :| q <= c.revision && v.etag == ETag(c.id, q);
    if ETag(c.id, q) == ETag(c.id, r) {
      ETagInjective(c.id, q, r);
    }
  }

  /** Replacing or appending one version under the next revision keeps tags distinct. */
  lemma RetagDistinct(c: Data, d: Data, i: nat)
    requires DistinctTags(c) && d.id == c.id && d.revision == c.revision + 1
    requires i <= |c.versions| <= |d.versions| && i < |d.versions|
    requires |d.versions| == if i < |c.versions| then |c.versions| else i + 1
    requires d.versions[i].etag == ETag(c.id, d.revision)
    requires forall j | 0 <= j < |d.versions| && j != i :: d.versions[j] == c.versions[j]
    ensures DistinctTags(d)
    ensures forall j | 0 <= j < |d.versions| && j != i :: d.versions[j].etag != d.versions[i].etag
  {
    forall j | 0 <= j < |d.versions|
      ensures Tagged(d, d.versions[j])
      ensures j != i ==> d.versions[j].etag != ETag(c.id, d.revision)
    {
      if j == i {
        assert d.versions[i].etag == ETag(d.id, d.revision);
      } else {
        OldTag(c, d, c.versions[j]);
        NewTagDiffers(c, c.versions[j], d.revision);
      }
    }
  }

  lemma {:induction false} AddChained(h: Host, c: Data, schema: Schema, order: seq<Field>, now: int)
    requires Chained(c) && Seen(c, order) && CanAdd(c, schema, order)
    ensures Chained(Added(h, c, schema, now))
  {
    hide Fields, Canonical, CompatibleFields, Identified, Ordering, ByName;
    var d := Added(h, c, schema, now);
    var n := |c.versions|;
    assert Stored(Canonical(schema));
    forall i | 0 <= i < |d.versions| - 1 && Identified(d.versions[i].schema.fields) && Identified(d.versions[i + 1].schema.fields)
      ensures CompatibleFields(Fields(d.versions[i].schema), Fields(d.versions[i + 1].schema), c.mode)
    {
      if i + 1 == n {
        StoredFields(schema);
        CanAddIff(c, schema, order);
        assert d.versions[i] == c.versions[n - 1] && d.versions[n].schema == Canonical(schema);
      } else {
        assert d.versions[i] == c.versions[i] && d.versions[i + 1] == c.versions[i + 1];
      }
    }
  }

  lemma AddWellFormed(h: Host, c: Data, schema: Schema, order: seq<Field>, now: int)
    requires WellFormed(c) && Seen(c, order) && CanAdd(c, schema, order)
    ensures WellFormed(Added(h, c, schema, now))
  {
    hide Numbered, DistinctTags, Chained, Seen, CanAdd, Canonical, Fingerprints.Preimage, ETag;
    AddNumbered(h, c, schema, now);
    RetagDistinct(c, Added(h, c, schema, now), |c.versions|);
    AddChained(h, c, schema, order, now);
  }

  lemma {:induction false} CountUpdate(vs: seq<Version>, i: nat, v: Version)
    requires i < |vs|
    ensures PublishedCount(vs[i := v]) - (if v.lifecycle == Published then 1 else 0)
            == PublishedCount(vs) - (if vs[i].lifecycle == Published then 1 else 0)
  {
    var n := |vs| - 1;
    if i == n {
      assert vs[i := v][..n] == vs[..n];
    } else {
      CountUpdate(vs[..n], i, v);
      assert vs[i := v][..n] == vs[..n][i := v];
    }
  }

  lemma PublishNumbered(c: Data, i: nat, now: int)
    requires Numbered(c) && i < |c.versions| && c.versions[i].lifecycle == Draft
    ensures Numbered(PublishedAt(c, i, now))
  {
    CountUpdate(c.versions, i, PublishedVersion(c, i, now));
  }

  lemma PublishChained(c: Data, i: nat, now: int)
    requires Chained(c) && i < |c.versions|
    ensures Chained(PublishedAt(c, i, now))
  {
    var d := PublishedAt(c, i, now);
    assert forall j | 0 <= j < |d.versions| :: d.versions[j].schema == c.versions[j].schema;
    forall v | v in d.versions
      ensures Stored(v.schema)
    {
      var j :| 0 <= j < |d.versions| && d.versions[j] == v;
      assert c.versions[j] in c.versions;
    }
  }

  lemma PublishWellFormed(c: Data, number: int, tag: string, now: int)
    requires WellFormed(c) && CanPublish(c, number, tag)
    ensures WellFormed(PublishedAt(c, Find(c.versions, number).value, now))
  {
    var i := Find(c.versions, number).value;
    PublishNumbered(c, i, now);
    RetagDistinct(c, PublishedAt(c, i, now), i);
    PublishChained(c, i, now);
  }

  // ---------------------------------------------------------------- growth

  /** `d` is `c` or what `c` became: nothing published is ever changed, no schema is ever changed. */
  ghost predicate Evolves(c: Data, d: Data) {
    && c.id == d.id && c.org == d.org && c.mode == d.mode && c.revision <= d.revision
    && |c.versions| <= |d.versions|
    && forall i | 0 <= i < |c.versions| ::
         && c.versions[i].number == d.versions[i].number
         && c.versions[i].schema == d.versions[i].schema
         && (c.versions[i].lifecycle == Published ==> d.versions[i] == c.versions[i])
  }

  lemma EvolvesTransitive(a: Data, b: Data, c: Data)
    requires Evolves(a, b) && Evolves(b, c)
    ensures Evolves(a, c)
  {
  }

  /** One change: the revision grows by one and every tag is an old one or carries the new revision. */
  ghost predicate Succeeds(c: Data, d: Data) {
    && Evolves(c, d) && d.revision == c.revision + 1
    && forall j | 0 <= j < |d.versions| ::
         || d.versions[j].etag == ETag(c.id, d.revision)
         || (j < |c.versions| && d.versions[j].etag == c.versions[j].etag)
  }

  /** A tag that publishes is gone. */
  ghost predicate Consumes(c: Data, d: Data, tag: string) {
    && (exists i :: 0 <= i < |c.versions| && c.versions[i].etag == tag)
    && (forall j | 0 <= j < |d.versions| :: d.versions[j].etag != tag)
  }

  lemma AddSucceeds(h: Host, c: Data, schema: Schema, now: int)
    ensures Succeeds(c, Added(h, c, schema, now))
  {
  }

  lemma PublishSucceeds(c: Data, number: int, tag: string, now: int)
    requires WellFormed(c) && CanPublish(c, number, tag)
    ensures var d := PublishedAt(c, Find(c.versions, number).value, now);
            Succeeds(c, d) && Consumes(c, d, tag)
  {
    var i := Find(c.versions, number).value;
    assert c.versions[i].etag == tag;
    NewTagDiffers(c, c.versions[i], c.revision + 1);
  }

  // ---------------------------------------------------------------- chains of versions

  function History(c: Data): (ms: seq<FieldMap>)
    ensures |ms| == |c.versions|
  {
    seq(|c.versions|, i requires 0 <= i < |c.versions| => Fields(c.versions[i].schema))
  }

  /** Names stay apart when trimmed, in every version. */
  ghost predicate NamesApart(c: Data) {
    forall v | v in c.versions :: Identified(v.schema.fields)
  }

  lemma HistoryLinked(c: Data)
    requires Chained(c) && NamesApart(c)
    ensures Evolution.Linked(History(c), c.mode)
  {
    forall k | 0 <= k < |History(c)| - 1
      ensures CompatibleFields(History(c)[k], History(c)[k + 1], c.mode)
    {
      assert c.versions[k + 1] in c.versions;
    }
  }

  /** In a contract built by `AddVersion` outside forward mode, a later version keeps every field of an
      earlier one with its type and its enum values; the two compare as compatible exactly when every
      field the later one demands was required by the earlier one, which holds if no default was
      dropped, although only neighbours were ever compared. */
  lemma VersionsCompatible(c: Data, i: nat, j: nat)
    requires WellFormed(c) && NamesApart(c) && c.mode != Forward && i <= j < |c.versions|
    ensures Evolution.Keeps(History(c)[i], History(c)[j])
    ensures Compatible(c.versions[i].schema, c.versions[j].schema, c.mode) <==>
            Evolution.OldDemands(History(c)[i], History(c)[j])
    ensures Evolution.NoDefaultDropped(History(c)) ==>
              Compatible(c.versions[i].schema, c.versions[j].schema, c.mode)
  {
    HistoryLinked(c);
    Evolution.ChainKeeps(History(c), c.mode, i, j);
    Evolution.ChainCompatibleIff(History(c), c.mode, i, j);
    if Evolution.NoDefaultDropped(History(c)) {
      Evolution.ChainCompatible(History(c), c.mode, i, j);
    }
  }

  lemma {:induction false} StoredByName(s: Schema)
    requires Stored(s) && Identified(s.fields)
    ensures Fields(s) == ByName(s.fields)
  {
    var raw :| ValidSchema(raw) && s == Canonical(raw);
    StoredFields(raw);
  }

  /** A payload that an early version accepts, and that keeps to its keys, can under a later version only
      miss fields, as long as no field that had no enum has one there. */
  lemma {:induction false} VersionsSound(h: Host, c: Data, i: nat, j: nat, p: Payload, issue: Typecheck.TypeIssue)
    requires WellFormed(c) && NamesApart(c) && c.mode != Forward && i <= j < |c.versions|
    requires Typecheck.Valid(h, p, c.versions[i].schema.fields) && Evolution.Closed(p, History(c)[i])
    requires forall m | m in History(c)[i] && m in History(c)[j] :: !Evolution.EnumOpened(History(c)[i][m], History(c)[j][m])
    requires issue in Typecheck.Issues(h, p, c.versions[j].schema.fields)
    ensures issue.reason == Typecheck.Missing
  {
    hide Typecheck.IssueOf, Numbered, DistinctTags, Evolution.Closed, Evolution.EnumOpened;
    var a, b := c.versions[i].schema, c.versions[j].schema;
    assert c.versions[i] in c.versions && c.versions[j] in c.versions;
    StoredByName(a);
    StoredByName(b);
    HistoryLinked(c);
    Evolution.ValidByName(h, p, a.fields);
    var f :| f in b.fields && Typecheck.IssueOf(h, p, f) == Some(issue);
    ByNameLookup(b.fields, f);
    Evolution.ChainSound(h, History(c), c.mode, i, j, p, f.name);
  }
}
