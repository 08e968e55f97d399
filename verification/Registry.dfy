/** The contract store and the read-modify-write sessions on it (internal/platform/store/memory.go,
    internal/contract/application/service.go), serial and interleaved. */
module Registry {
  import opened Values
  import opened Schemas
  import opened Contracts
  import Evolution
  import Fingerprints
  import Sorting
  import Text

  function Key(org: string, id: string): string {
    org + "/" + id
  }

  function KeyOf(c: Data): string {
    Key(c.org, c.id)
  }

  type Store = map<string, Data>

  /** A tenant without a slash finds a contract of its own exactly when that contract's organization has no slash
      either; the key joins the two. */
  lemma FindsOwnIff(c: Data, org: string, id: string)
    requires KeyOf(c) == Key(org, id) && '/' !in org
    ensures c.org == org && c.id == id <==> '/' !in c.org
  {
    if '/' !in c.org {
      Text.SlashInjective(c.org, c.id, org, id);
    }
  }

  /** Each contract is stored under its own key. */
  ghost predicate Keyed(values: Store) {
    forall k | k in values :: KeyOf(values[k]) == k
  }

  // ---------------------------------------------------------------- the objects

  class MemoryContracts {
    var values: Store

    constructor ()
      ensures values == map[]
    {
      values := map[];
    }

    method Create(c: Data) returns (r: Result<()>)
      modifies this
      ensures r.Ok? <==> KeyOf(c) !in old(values)
      ensures values == if r.Ok? then old(values)[KeyOf(c) := c] else old(values)
      ensures old(Keyed(values)) ==> Keyed(values)
    {
      if KeyOf(c) in values {
        return Err("contract already exists");
      }
      values := values[KeyOf(c) := c];
      return Ok(());
    }

    method Find(org: string, id: string) returns (r: Result<Data>)
      ensures r.Ok? <==> Key(org, id) in values
      ensures r.Ok? ==> r.value == values[Key(org, id)]
    {
      if Key(org, id) !in values {
        return Err("contract not found");
      }
      return Ok(values[Key(org, id)]);
    }

    method Save(c: Data) returns (r: Result<()>)
      modifies this
      ensures r.Ok? <==> KeyOf(c) in old(values)
      ensures values == if r.Ok? then old(values)[KeyOf(c) := c] else old(values)
      ensures old(Keyed(values)) ==> Keyed(values)
    {
      if KeyOf(c) !in values {
        return Err("contract not found");
      }
      values := values[KeyOf(c) := c];
      return Ok(());
    }
  }

  /** The application service: each call reads a copy, changes it and saves it back. */
  class ContractService {
    const repo: MemoryContracts

    constructor (repo: MemoryContracts)
      ensures this.repo == repo
    {
      this.repo := repo;
    }

    method Register(id: string, org: string, name: string, description: string, mode: Mode, now: int)
      returns (r: Result<Data>)
      modifies repo
      ensures r.Ok? <==> NewContract(id, org, name, description, mode, now).Ok? && Key(org, id) !in old(repo.values)
      ensures r.Ok? ==> WellFormed(r.value) && repo.values == old(repo.values)[Key(org, id) := r.value]
      ensures r.Err? ==> repo.values == old(repo.values)
    {
      NewWellFormed(id, org, name, description, mode, now);
      var c := NewContract(id, org, name, description, mode, now);
      if c.Err? {
        return c;
      }
      var created := repo.Create(c.value);
      if created.Err? {
        return Err(created.message);
      }
      return c;
    }

    method AddVersion(h: Host, org: string, id: string, schema: Schema, now: int) 
      returns (r: Result<Version>, ghost order: seq<Field>)
      requires Keyed(repo.values)
      modifies repo
      ensures Key(org, id) in old(repo.values) ==> Seen(old(repo.values[Key(org, id)]), order)
      ensures r.Ok? <==> Key(org, id) in old(repo.values) && CanAdd(old(repo.values[Key(org, id)]), schema, order)
      ensures r.Ok? ==> repo.values == old(repo.values)[Key(org, id) := Added(h, old(repo.values[Key(org, id)]), schema, now)]
      ensures r.Err? ==> repo.values == old(repo.values)
    {
      hide CanAdd, Seen, Added;
      order := [];
      var found := repo.Find(org, id);
      if found.Err? {
        return Err(found.message), order;
      }
      var c := new Contract(found.value);
      r, order := c.AddVersion(h, schema, now);
      if r.Ok? {
        var saved := repo.Save(c.Value());
        if saved.Err? {
          return Err("contract not found"), order;
        }
      }
    }

    method Publish(org: string, id: string, number: int, tag: string, now: int) returns (r: Result<Version>)
      requires Keyed(repo.values)
      modifies repo
      ensures r.Ok? <==> Key(org, id) in old(repo.values) && CanPublish(old(repo.values[Key(org, id)]), number, tag)
      ensures r.Ok? ==>
                var c := old(repo.values[Key(org, id)]);
                repo.values == old(repo.values)[Key(org, id) := PublishedAt(c, Contracts.Find(c.versions, number).value, now)]
      ensures r.Err? ==> repo.values == old(repo.values)
    {
      var found := repo.Find(org, id);
      if found.Err? {
        return Err(found.message);
      }
      var c := new Contract(found.value);
      r := c.Publish(number, tag, now);
      if r.Ok? {
        var saved := repo.Save(c.Value());
        if saved.Err? {
          return Err("contract not found");
        }
      }
    }

    method Check(org: string, id: string, candidate: Schema) returns (r: Result<Report>, ghost order: seq<Field>)
      ensures r.Ok? <==> Key(org, id) in repo.values && repo.values[Key(org, id)].versions != [] && ValidSchema(candidate)
      ensures r.Ok? ==>
                var c := repo.values[Key(org, id)];
                && Seen(c, order) && r.value.compatible == CanAdd(c, candidate, order)
                && (Identified(c.versions[|c.versions| - 1].schema.fields) ==>
                      forall other | Seen(c, other) :: r.value.compatible == CanAdd(c, candidate, other))
    {
      hide Ordering, ByName, Fields, ValidSchema, CompatibleFields, Key, Identified, Normals;
      order := [];
      var found := repo.Find(org, id);
      if found.Err? {
        return Err(found.message), order;
      }
      var c := found.value;
      if |c.versions| == 0 {
        return Err("contract has no versions"), order;
      }
      var valid := Validate(candidate);
      if valid.Err? {
        return Err(valid.message), order;
      }
      var report;
      report, order := CompareWithLast(c.versions[|c.versions| - 1].schema, candidate, c.mode);
      if Identified(c.versions[|c.versions| - 1].schema.fields) {
        OrdersAgree(c, candidate, order);
      }
      return Ok(report), order;
    }
  }

  // ---------------------------------------------------------------- interleaved sessions

  /** A session between its `Find` and its `Save`, with the copy it read and, once changed, its own. */
  datatype Session =
    | Found(base: Data)
    | Changed(base: Data, copy: Data, used: Option<string>)

  /** The store, the open sessions, and two histories: the tags with which a version was published and
      saved, and whether some save replaced a contract other than the one its session had read. */
  datatype State = State(values: Store, sessions: map<nat, Session>, published: seq<(string, string)>, stale: bool)

  datatype Action =
    | Register(id: string, org: string, name: string, description: string, mode: Mode, now: int)
    | Open(session: nat, org: string, id: string)
    | Add(session: nat, schema: Schema, order: seq<Field>, now: int)
    | Publish(session: nat, number: int, tag: string, now: int)
    | Save(session: nat)

  const INITIAL := State(map[], map[], [], false)

  function StepRegister(s: State, id: string, org: string, name: string, description: string, mode: Mode, now: int): State {
    var c := NewContract(id, org, name, description, mode, now);
    if c.Ok? && KeyOf(c.value) !in s.values then s.(values := s.values[KeyOf(c.value) := c.value]) else s
  }

  function StepOpen(s: State, session: nat, key: string): State {
    if session !in s.sessions && key in s.values then s.(sessions := s.sessions[session := Found(s.values[key])]) else s
  }

  /** `order` is the order in which the comparison sees the fields of the last version. */
  function StepAdd(h: Host, s: State, session: nat, schema: Schema, order: seq<Field>, now: int): State {
    if session in s.sessions && s.sessions[session].Found? && Seen(s.sessions[session].base, order) then
      var c := s.sessions[session].base;
      if CanAdd(c, schema, order) then s.(sessions := s.sessions[session := Changed(c, Added(h, c, schema, now), None)])
      else s.(sessions := s.sessions - {session})
    else s
  }

  function StepPublish(s: State, session: nat, number: int, tag: string, now: int): State {
    if session in s.sessions && s.sessions[session].Found? then
      var c := s.sessions[session].base;
      if CanPublish(c, number, tag) then
        var d := PublishedAt(c, Contracts.Find(c.versions, number).value, now);
        s.(sessions := s.sessions[session := Changed(c, d, Some(tag))])
      else s.(sessions := s.sessions - {session})
    else s
  }

  function StepSave(s: State, session: nat): State {
    if session in s.sessions && s.sessions[session].Changed? && KeyOf(s.sessions[session].copy) in s.values then
      var x := s.sessions[session];
      var k := KeyOf(x.copy);
      State(s.values[k := x.copy], s.sessions - {session},
            if x.used.Some? then s.published + [(k, x.used.value)] else s.published,
            s.stale || s.values[k] != x.base)
    else s
  }

  function Step(h: Host, s: State, a: Action): State {
    match a
    case Register(id, org, name, description, mode, now) => StepRegister(s, id, org, name, description, mode, now)
    case Open(session, org, id) => StepOpen(s, session, Key(org, id))
    case Add(session, schema, order, now) => StepAdd(h, s, session, schema, order, now)
    case Publish(session, number, tag, now) => StepPublish(s, session, number, tag, now)
    case Save(session) => StepSave(s, session)
  }

  function Run(h: Host, s: State, actions: seq<Action>): State
    decreases |actions|
  {
    if actions == [] then s else Run(h, Step(h, s, actions[0]), actions[1..])
  }

  ghost predicate GoodSession(values: Store, x: Session) {
    && WellFormed(x.base) && KeyOf(x.base) in values
    && (x.Changed? ==>
          && WellFormed(x.copy) && Succeeds(x.base, x.copy)
          && (x.used.Some? ==> Consumes(x.base, x.copy, x.used.value)))
  }

  /** What every interleaving keeps. */
  ghost predicate Inv(s: State) {
    && Keyed(s.values)
    && (forall k | k in s.values :: WellFormed(s.values[k]))
    && (forall i | i in s.sessions :: GoodSession(s.values, s.sessions[i]))
  }

  lemma RegisterInv(s: State, id: string, org: string, name: string, description: string, mode: Mode, now: int)
    requires Inv(s)
    ensures Inv(StepRegister(s, id, org, name, description, mode, now))
  {
    hide WellFormed, Succeeds, Consumes;
    NewWellFormed(id, org, name, description, mode, now);
  }

  lemma AddInv(h: Host, s: State, session: nat, schema: Schema, order: seq<Field>, now: int)
    requires Inv(s)
    ensures Inv(StepAdd(h, s, session, schema, order, now))
  {
    hide WellFormed, Succeeds, Consumes, CanAdd, Added, Seen;
    if session in s.sessions && s.sessions[session].Found? && Seen(s.sessions[session].base, order)
       && CanAdd(s.sessions[session].base, schema, order) {
      AddWellFormed(h, s.sessions[session].base, schema, order, now);
      AddSucceeds(h, s.sessions[session].base, schema, now);
    }
  }

  lemma PublishInv(s: State, session: nat, number: int, tag: string, now: int)
    requires Inv(s)
    ensures Inv(StepPublish(s, session, number, tag, now))
  {
    hide WellFormed, Succeeds, Consumes;
    if session in s.sessions && s.sessions[session].Found? && CanPublish(s.sessions[session].base, number, tag) {
      PublishWellFormed(s.sessions[session].base, number, tag, now);
      PublishSucceeds(s.sessions[session].base, number, tag, now);
    }
  }

  lemma SaveInv(s: State, session: nat)
    requires Inv(s)
    ensures Inv(StepSave(s, session))
  {
    hide WellFormed, Succeeds, Consumes;
    if session in s.sessions && s.sessions[session].Changed? {
      assert GoodSession(s.values, s.sessions[session]);
      SameKey(s.sessions[session].base, s.sessions[session].copy);
    }
  }

  lemma SameKey(c: Data, d: Data)
    requires Succeeds(c, d)
    ensures KeyOf(c) == KeyOf(d) && Evolves(c, d) && d.revision == c.revision + 1
  {
  }

  lemma StepInv(h: Host, s: State, a: Action)
    requires Inv(s)
    ensures Inv(Step(h, s, a))
  {
    match a
    case Register(id, org, name, description, mode, now) => RegisterInv(s, id, org, name, description, mode, now);
    case Open(session, org, id) =>
    case Add(session, schema, order, now) => AddInv(h, s, session, schema, order, now);
    case Publish(session, number, tag, now) => PublishInv(s, session, number, tag, now);
    case Save(session) => SaveInv(s, session);
  }

  /** In every interleaving of sessions every stored contract numbers its versions from one, counts its
      changes in the revision, has pairwise different tags, and links each version to the one before. */
  lemma {:induction false} AlwaysWellFormed(h: Host, s: State, actions: seq<Action>)
    requires Inv(s)
    ensures Inv(Run(h, s, actions))
    ensures forall k | k in Run(h, s, actions).values :: WellFormed(Run(h, s, actions).values[k])
    decreases |actions|
  {
    if actions != [] {
      StepInv(h, s, actions[0]);
      AlwaysWellFormed(h, Step(h, s, actions[0]), actions[1..]);
    }
  }

  /** However sessions interleave, any two versions of any stored contract outside forward mode keep the
      promise that only neighbours were checked for. */
  lemma StoredVersionsKeep(h: Host, actions: seq<Action>, k: string, i: nat, j: nat)
    requires k in Run(h, INITIAL, actions).values
    requires var c := Run(h, INITIAL, actions).values[k];
             NamesApart(c) && c.mode != Forward && i <= j < |c.versions|
    ensures var c := Run(h, INITIAL, actions).values[k];
            Evolution.Keeps(History(c)[i], History(c)[j])
  {
    hide Run, WellFormed, NamesApart, Evolution.Keeps;
    AlwaysWellFormed(h, INITIAL, actions);
    VersionsCompatible(Run(h, INITIAL, actions).values[k], i, j);
  }

  /** In every interleaving every stored version has a known kind and at least one field. */
  lemma {:induction false} StoredVersionsValid(h: Host, actions: seq<Action>, k: string, i: nat)
    requires k in Run(h, INITIAL, actions).values && i < |Run(h, INITIAL, actions).values[k].versions|
    ensures var s := Run(h, INITIAL, actions).values[k].versions[i].schema;
            s.fields != [] && s.kind in {JsonSchema, Protobuf}
  {
    hide Run, Numbered, DistinctTags;
    AlwaysWellFormed(h, INITIAL, actions);
    var v := Run(h, INITIAL, actions).values[k].versions[i];
    assert v in Run(h, INITIAL, actions).values[k].versions;
    StoredIsValid(v.schema);
  }

  lemma {:induction false} StoredIsValid(s: Schema)
    requires Contracts.Stored(s)
    ensures s.fields != [] && s.kind in {JsonSchema, Protobuf}
  {
    var raw :| ValidSchema(raw) && s == Canonical(raw);
    Sorting.SortPermutes(raw.fields, FieldLt);
  }

  // ---------------------------------------------------------------- runs without stale saves

  ghost predicate StoreEvolves(v: Store, w: Store) {
    forall k | k in v :: k in w && Evolves(v[k], w[k])
  }

  lemma StoreEvolvesTransitive(u: Store, v: Store, w: Store)
    requires StoreEvolves(u, v) && StoreEvolves(v, w)
    ensures StoreEvolves(u, w)
  {
    forall k | k in u
      ensures k in w && Evolves(u[k], w[k])
    {
      EvolvesTransitive(u[k], v[k], w[k]);
    }
  }

  /** A save that replaces what its session read makes the revision grow and loses nothing. */
  lemma StepEvolves(h: Host, s: State, a: Action)
    requires Inv(s) && !Step(h, s, a).stale
    ensures !s.stale && StoreEvolves(s.values, Step(h, s, a).values)
    ensures forall k | k in s.values && Step(h, s, a).values[k] != s.values[k] ::
              Step(h, s, a).values[k].revision == s.values[k].revision + 1
  {
    hide Evolves, Step, Inv;
    forall k | k in s.values
      ensures Evolves(s.values[k], s.values[k])
    {
      EvolvesItself(s.values[k]);
    }
    if a.Save? {
      StepIsSave(h, s, a);
      SaveEvolves(s, a.session);
    } else {
      OthersOnlyCreate(h, s, a);
    }
  }

  lemma SaveEvolves(s: State, session: nat)
    requires Inv(s) && !StepSave(s, session).stale
    ensures !s.stale
    ensures forall k | k in s.values :: k in StepSave(s, session).values
    ensures forall k | k in s.values && StepSave(s, session).values[k] != s.values[k] ::
              Evolves(s.values[k], StepSave(s, session).values[k])
              && StepSave(s, session).values[k].revision == s.values[k].revision + 1
  {
    hide WellFormed, Succeeds, Consumes, Evolves;
    if session in s.sessions && s.sessions[session].Changed? {
      assert GoodSession(s.values, s.sessions[session]);
      SameKey(s.sessions[session].base, s.sessions[session].copy);
    }
  }

  lemma EvolvesItself(c: Data)
    ensures Evolves(c, c)
  {
  }

  /** The tag of every publication is spent: no stored version carries it, nor will one. */
  ghost predicate Spent(values: Store, p: (string, string)) {
    && p.0 in values
    && (exists r: nat :: r <= values[p.0].revision && p.1 == ETag(values[p.0].id, r))
    && (forall j | 0 <= j < |values[p.0].versions| :: values[p.0].versions[j].etag != p.1)
  }

  ghost predicate TagsSpent(s: State) {
    && (forall p | p in s.published :: Spent(s.values, p))
    && (forall i, j | 0 <= i < j < |s.published| :: s.published[i] != s.published[j])
  }

  lemma SpentStays(values: Store, k: string, d: Data, p: (string, string))
    requires Spent(values, p) && k in values && Succeeds(values[k], d)
    ensures Spent(values[k := d], p)
  {
    var c := values[p.0];
    var r: nat :| r <= c.revision && p.1 == ETag(c.id, r);
    if p.0 == k {
      assert r <= d.revision && p.1 == ETag(d.id, r);
      assert p.1 != ETag(c.id, d.revision) by {
        if ETag(c.id, r) == ETag(c.id, d.revision) {
          ETagInjective(c.id, r, d.revision);
        }
      }
    } else {
      assert r <= c.revision && p.1 == ETag(c.id, r);
    }
  }

  lemma NewlySpent(values: Store, k: string, d: Data, tag: string)
    requires k in values && WellFormed(values[k]) && Succeeds(values[k], d) && Consumes(values[k], d, tag)
    ensures Spent(values[k := d], (k, tag)) && !Spent(values, (k, tag))
  {
    var c := values[k];
    var i :| 0 <= i < |c.versions| && c.versions[i].etag == tag;
    assert Tagged(c, c.versions[i]);
    var r: nat :| r <= c.revision && tag == ETag(c.id, r);
    assert r <= d.revision && tag == ETag(d.id, r);
  }

  lemma SaveSpends(s: State, session: nat)
    requires Inv(s) && TagsSpent(s) && !StepSave(s, session).stale
    ensures TagsSpent(StepSave(s, session))
  {
    hide WellFormed, Succeeds, Consumes, Spent;
    var t := StepSave(s, session);
    if session in s.sessions && s.sessions[session].Changed? {
      var x := s.sessions[session];
      var k := KeyOf(x.copy);
      assert GoodSession(s.values, x);
      SameKey(x.base, x.copy);
      forall p | p in s.published
        ensures Spent(t.values, p)
      {
        SpentStays(s.values, k, x.copy, p);
      }
      if x.used.Some? {
        NewlySpent(s.values, k, x.copy, x.used.value);
        assert (k, x.used.value) !in s.published;
      }
    }
  }

  lemma SpentElsewhere(v: Store, w: Store, p: (string, string))
    requires Spent(v, p) && forall k | k in v :: k in w && w[k] == v[k]
    ensures Spent(w, p)
  {
    var r: nat :| r <= v[p.0].revision && p.1 == ETag(v[p.0].id, r);
    assert r <= w[p.0].revision && p.1 == ETag(w[p.0].id, r);
  }

  lemma StepSpends(h: Host, s: State, a: Action)
    requires Inv(s) && TagsSpent(s) && !Step(h, s, a).stale
    ensures TagsSpent(Step(h, s, a))
  {
    hide Spent, Inv, Step;
    if a.Save? {
      StepIsSave(h, s, a);
      SaveSpends(s, a.session);
    } else {
      OthersOnlyCreate(h, s, a);
      forall p | p in s.published
        ensures Spent(Step(h, s, a).values, p)
      {
        SpentElsewhere(s.values, Step(h, s, a).values, p);
      }
    }
  }

  lemma StepIsSave(h: Host, s: State, a: Action)
    requires a.Save?
    ensures Step(h, s, a) == StepSave(s, a.session)
  {
  }

  /** Only a save replaces a contract. */
  lemma OthersOnlyCreate(h: Host, s: State, a: Action)
    requires !a.Save?
    ensures forall k | k in s.values :: k in Step(h, s, a).values && Step(h, s, a).values[k] == s.values[k]
    ensures Step(h, s, a).published == s.published && Step(h, s, a).stale == s.stale
  {
    hide CanAdd, CanPublish, NewContract;
  }

  lemma {:induction false} StaleStays(h: Host, s: State, actions: seq<Action>)
    requires s.stale
    ensures Run(h, s, actions).stale
    decreases |actions|
  {
    if actions != [] {
      StaleStays(h, Step(h, s, actions[0]), actions[1..]);
    }
  }

  /** In a run whose saves all replace what their session read, nothing published is lost, revisions
      never shrink, and no tag publishes twice. */
  lemma {:induction false} SerialRun(h: Host, s: State, actions: seq<Action>)
    requires Inv(s) && TagsSpent(s) && !Run(h, s, actions).stale
    ensures StoreEvolves(s.values, Run(h, s, actions).values)
    ensures TagsSpent(Run(h, s, actions))
    decreases |actions|
  {
    if actions != [] {
      var t := Step(h, s, actions[0]);
      if t.stale {
        StaleStays(h, t, actions[1..]);
      }
      StepInv(h, s, actions[0]);
      StepEvolves(h, s, actions[0]);
      StepSpends(h, s, actions[0]);
      SerialRun(h, t, actions[1..]);
      StoreEvolvesTransitive(s.values, t.values, Run(h, t, actions[1..]).values);
    }
  }

  // ---------------------------------------------------------------- why saves must not be stale

  /** The tag check does not serialise writers: from any state with a draft, two overlapping sessions
      publish the same version with the same tag. */
  lemma {:induction false} OverlapPublishesTwice(
    h: Host, s: State, org: string, id: string, number: int, tag: string, now: int, i: nat, j: nat)
    requires Inv(s) && Key(org, id) in s.values && CanPublish(s.values[Key(org, id)], number, tag)
    requires i != j && i !in s.sessions && j !in s.sessions
    ensures exists actions :: var t := Run(h, s, actions);
              t.published == s.published + [(Key(org, id), tag), (Key(org, id), tag)] && t.stale
  {
    hide CanPublish, PublishedAt, Key, Succeeds, Inv;
    var k := Key(org, id);
    var c := s.values[k];
    var d := Publishes(s, k, number, tag, now);
    var a := [Open(i, org, id), Open(j, org, id), Publish(i, number, tag, now), Publish(j, number, tag, now)];
    var s1 := Step(h, s, a[0]);
    var s2 := Step(h, s1, a[1]);
    assert s2.sessions[i] == Found(c) && s2.sessions[j] == Found(c);
    var s3 := Step(h, s2, a[2]);
    assert s3.sessions[i] == Changed(c, d, Some(tag)) && s3.sessions[j] == Found(c);
    var s4 := Step(h, s3, a[3]);
    assert s4.sessions[i] == Changed(c, d, Some(tag)) && s4.sessions[j] == Changed(c, d, Some(tag));
    Run4(h, s, a);
    SavesTwice(h, s4, i, j);
    RunTwice(h, s, a, [Save(i), Save(j)]);
    assert Run(h, s, a + [Save(i), Save(j)]).published == s.published + [(k, tag), (k, tag)];
  }

  lemma Publishes(s: State, k: string, number: int, tag: string, now: int) returns (d: Data)
    requires Inv(s) && k in s.values && CanPublish(s.values[k], number, tag)
    ensures d == PublishedAt(s.values[k], Contracts.Find(s.values[k].versions, number).value, now)
    ensures KeyOf(d) == k && d != s.values[k]
  {
    var c := s.values[k];
    d := PublishedAt(c, Contracts.Find(c.versions, number).value, now);
    PublishSucceeds(c, number, tag, now);
    assert d.revision == c.revision + 1;
  }

  /** Two sessions that hold the same change of what is stored: the second save is stale. */
  lemma SavesTwice(h: Host, s: State, i: nat, j: nat)
    requires i in s.sessions && j in s.sessions && i != j && s.sessions[i] == s.sessions[j]
    requires s.sessions[i].Changed? && s.sessions[i].used.Some? && s.sessions[i].copy != s.sessions[i].base
    requires KeyOf(s.sessions[i].copy) in s.values
    ensures var k, tag := KeyOf(s.sessions[i].copy), s.sessions[i].used.value;
            var t := Run(h, s, [Save(i), Save(j)]);
            t.published == s.published + [(k, tag), (k, tag)] && t.stale
  {
    var x := s.sessions[i];
    var t := Step(h, s, Save(i));
    assert t.values[KeyOf(x.copy)] == x.copy && t.sessions[j] == x;
    assert [Save(i), Save(j)][1..] == [Save(j)] && [Save(j)][1..] == [];
    assert Run(h, t, [Save(j)]) == Run(h, Step(h, t, Save(j)), []);
  }

  lemma Run4(h: Host, s: State, a: seq<Action>)
    requires |a| == 4
    ensures Run(h, s, a) == Step(h, Step(h, Step(h, Step(h, s, a[0]), a[1]), a[2]), a[3])
  {
    hide Step;
    var b := a[1..];
    var c := b[1..];
    var d := c[1..];
    assert d[1..] == [];
    var s1 := Step(h, s, a[0]);
    var s2 := Step(h, s1, b[0]);
    var s3 := Step(h, s2, c[0]);
    assert Run(h, s3, d) == Run(h, Step(h, s3, d[0]), []);
    assert Run(h, s2, c) == Run(h, s3, d);
    assert Run(h, s1, b) == Run(h, s2, c);
  }

  lemma {:induction false} RunTwice(h: Host, s: State, a: seq<Action>, b: seq<Action>)
    ensures Run(h, s, a + b) == Run(h, Run(h, s, a), b)
    decreases |a|
  {
    if a == [] {
      assert a + b == b;
    } else {
      RunTwice(h, Step(h, s, a[0]), a[1..], b);
      assert (a + b)[1..] == a[1..] + b;
    }
  }

  /** Version `n` is published after the actions, and a draft again once session `j` saves. */
  ghost predicate Undone(h: Host, s: State, k: string, actions: seq<Action>, n: nat, j: nat) {
    var t := Run(h, s, actions);
    var u := Run(h, t, [Save(j)]);
    && k in t.values && n < |t.values[k].versions| && t.values[k].versions[n].lifecycle == Published
    && k in u.values && n < |u.values[k].versions| && u.values[k].versions[n].lifecycle == Draft
  }

  /** A stale save also takes a published version back to a draft. */
  lemma {:induction false} OverlapUnpublishes(
    h: Host, s: State, org: string, id: string, number: int, tag: string, schema: Schema, order: seq<Field>,
    now: int, i: nat, j: nat)
    requires Inv(s) && Key(org, id) in s.values && CanPublish(s.values[Key(org, id)], number, tag)
    requires Seen(s.values[Key(org, id)], order) && CanAdd(s.values[Key(org, id)], schema, order)
    requires i != j && i !in s.sessions && j !in s.sessions
    ensures exists actions, n: nat :: Undone(h, s, Key(org, id), actions, n, j)
  {
    hide CanPublish, CanAdd, Seen, Key, Succeeds, Inv;
    var k := Key(org, id);
    var c := s.values[k];
    var d := Publishes(s, k, number, tag, now);
    var n := DraftIndex(c, number, tag);
    var e := Added(h, c, schema, now);
    assert KeyOf(c) == k && KeyOf(e) == k by { StoredUnder(s, k); }
    var a := [Open(i, org, id), Open(j, org, id), Publish(i, number, tag, now), Add(j, schema, order, now)];
    Run4(h, s, a);
    var s2 := Step(h, Step(h, s, a[0]), a[1]);
    var s4 := Step(h, Step(h, s2, a[2]), a[3]);
    BothOpen(h, s, org, id, i, j);
    BothChange(h, s2, number, tag, schema, order, now, i, j, c);
    hide Step;
    SavesOver(h, s4, i, j);
    RunTwice(h, s, a, [Save(i)]);
    assert Run(h, s, a + [Save(i)]).values[k] == d && d.versions[n].lifecycle == Published;
    assert e.versions[n] == c.versions[n];
    assert Undone(h, s, k, a + [Save(i)], n, j);
  }

  lemma BothOpen(h: Host, s: State, org: string, id: string, i: nat, j: nat)
    requires Key(org, id) in s.values && i != j && i !in s.sessions && j !in s.sessions
    ensures var t := Step(h, Step(h, s, Open(i, org, id)), Open(j, org, id));
            && t.values == s.values && i in t.sessions && j in t.sessions
            && t.sessions[i] == t.sessions[j] == Found(s.values[Key(org, id)])
  {
    hide Key;
  }

  lemma BothChange(h: Host, s: State, number: int, tag: string, schema: Schema, order: seq<Field>, now: int, i: nat, j: nat, c: Data)
    requires i != j && i in s.sessions && j in s.sessions && s.sessions[i] == s.sessions[j] == Found(c)
    requires CanPublish(c, number, tag) && Seen(c, order) && CanAdd(c, schema, order)
    ensures var t := Step(h, Step(h, s, Publish(i, number, tag, now)), Add(j, schema, order, now));
            && t.values == s.values && i in t.sessions && j in t.sessions
            && t.sessions[i] == Changed(c, PublishedAt(c, Contracts.Find(c.versions, number).value, now), Some(tag))
            && t.sessions[j] == Changed(c, Added(h, c, schema, now), None)
  {
    hide CanAdd, Seen, Added, PublishedAt;
  }

  /** Two sessions with different changes of one contract: the second save undoes the first. */
  lemma SavesOver(h: Host, s: State, i: nat, j: nat)
    requires i in s.sessions && j in s.sessions && i != j && s.sessions[i].Changed? && s.sessions[j].Changed?
    requires KeyOf(s.sessions[i].copy) == KeyOf(s.sessions[j].copy) && KeyOf(s.sessions[i].copy) in s.values
    ensures var k := KeyOf(s.sessions[i].copy);
            var t := Run(h, s, [Save(i)]);
            var u := Run(h, t, [Save(j)]);
            && k in t.values && t.values[k] == s.sessions[i].copy
            && k in u.values && u.values[k] == s.sessions[j].copy
  {
    assert [Save(i)][1..] == [] && [Save(j)][1..] == [];
    var t := Step(h, s, Save(i));
    assert Run(h, s, [Save(i)]) == Run(h, t, []) == t;
    var u := Step(h, t, Save(j));
    assert Run(h, t, [Save(j)]) == Run(h, u, []) == u;
  }

  lemma StoredUnder(s: State, k: string)
    requires Inv(s) && k in s.values
    ensures KeyOf(s.values[k]) == k
  {
  }

  lemma DraftIndex(c: Data, number: int, tag: string) returns (n: nat)
    requires CanPublish(c, number, tag)
    ensures n == Contracts.Find(c.versions, number).value && n < |c.versions| && c.versions[n].lifecycle == Draft
  {
    n := Contracts.Find(c.versions, number).value;
  }

  // ---------------------------------------------------------------- what a stale save breaks

  /** What a session read has become what is stored, and is still stored if the revision is. */
  ghost predicate Outgrown(values: Store, base: Data) {
    && KeyOf(base) in values && Evolves(base, values[KeyOf(base)])
    && (base.revision == values[KeyOf(base)].revision ==> base == values[KeyOf(base)])
  }

  ghost predicate BasesOutgrown(s: State) {
    forall i | i in s.sessions :: Outgrown(s.values, s.sessions[i].base)
  }

  lemma OutgrownMore(values: Store, base: Data, k: string, c: Data, d: Data)
    requires Outgrown(values, base) && k in values && values[k] == c && KeyOf(c) == k && Succeeds(c, d)
    ensures Outgrown(values[k := d], base)
  {
    if KeyOf(base) == k {
      hide Evolves, Key;
      SameKey(c, d);
      EvolvesTransitive(base, c, d);
      EvolvesGrows(base, c);
    }
  }

  lemma EvolvesGrows(c: Data, d: Data)
    requires Evolves(c, d)
    ensures c.revision <= d.revision
  {
  }

  lemma SaveOutgrows(s: State, session: nat)
    requires Inv(s) && BasesOutgrown(s) && !StepSave(s, session).stale
    ensures BasesOutgrown(StepSave(s, session))
  {
    hide WellFormed, Succeeds, Consumes, Outgrown, Key;
    var t := StepSave(s, session);
    if session in s.sessions && s.sessions[session].Changed? && KeyOf(s.sessions[session].copy) in s.values {
      var x := s.sessions[session];
      assert GoodSession(s.values, x);
      SameKey(x.base, x.copy);
      forall i | i in t.sessions
        ensures Outgrown(t.values, t.sessions[i].base)
      {
        assert t.sessions[i] == s.sessions[i];
        OutgrownMore(s.values, s.sessions[i].base, KeyOf(x.copy), x.base, x.copy);
      }
    }
  }

  lemma OthersOutgrow(h: Host, s: State, a: Action)
    requires Inv(s) && BasesOutgrown(s) && !a.Save?
    ensures BasesOutgrown(Step(h, s, a)) && Step(h, s, a).stale == s.stale
  {
    hide WellFormed, Succeeds, Consumes, CanAdd, CanPublish, Added, PublishedAt, Seen, Evolves, NewContract, Key;
    if a.Open? && Key(a.org, a.id) in s.values {
      EvolvesItself(s.values[Key(a.org, a.id)]);
    }
  }

  lemma StepOutgrows(h: Host, s: State, a: Action)
    requires Inv(s) && (!s.stale ==> BasesOutgrown(s))
    ensures !Step(h, s, a).stale ==> !s.stale && BasesOutgrown(Step(h, s, a))
  {
    if a.Save? {
      hide BasesOutgrown, Inv;
      SaveStaysStale(s, a.session);
      if !StepSave(s, a.session).stale {
        SaveOutgrows(s, a.session);
      }
    } else if !s.stale {
      hide Step, BasesOutgrown, Inv;
      OthersOutgrow(h, s, a);
    } else {
      hide BasesOutgrown, Inv, CanAdd, CanPublish, Added, PublishedAt, Seen, NewContract, Key;
    }
  }

  lemma SaveStaysStale(s: State, session: nat)
    ensures s.stale ==> StepSave(s, session).stale
  {
  }

  /** The save goes through and does not raise the revision by one. */
  ghost predicate Falters(s: State, a: Action) {
    && a.Save? && a.session in s.sessions && s.sessions[a.session].Changed? && KeyOf(s.sessions[a.session].copy) in s.values
    && s.sessions[a.session].copy.revision != s.values[KeyOf(s.sessions[a.session].copy)].revision + 1
  }

  /** As long as nothing was stale, a step makes the store stale exactly when it is a save that does not raise the
      revision of the stored contract by one. */
  lemma StaleStepIff(h: Host, s: State, a: Action)
    requires Inv(s) && BasesOutgrown(s) && !s.stale
    ensures Step(h, s, a).stale <==> Falters(s, a)
  {
    hide Inv, BasesOutgrown, Falters;
    if a.Save? {
      StepIsSave(h, s, a);
      SaveStaleIff(s, a);
    } else {
      hide Step;
      OthersOutgrow(h, s, a);
      OnlySavesFalter(s, a);
    }
  }

  lemma OnlySavesFalter(s: State, a: Action)
    ensures Falters(s, a) ==> a.Save?
  {
    hide Key;
  }

  lemma SaveStaleIff(s: State, a: Action)
    requires Inv(s) && BasesOutgrown(s) && !s.stale && a.Save?
    ensures StepSave(s, a.session).stale <==> Falters(s, a)
  {
    hide WellFormed, Succeeds, Consumes, Evolves, Key;
    if a.session in s.sessions && s.sessions[a.session].Changed? {
      var x := s.sessions[a.session];
      assert GoodSession(s.values, x) && Outgrown(s.values, x.base);
      SameKey(x.base, x.copy);
    }
  }

  /** After the first `n` actions. */
  ghost predicate FaltersAt(h: Host, actions: seq<Action>, n: nat) {
    n < |actions| && Falters(Run(h, INITIAL, actions[..n]), actions[n])
  }

  lemma {:induction false} StaleUpTo(h: Host, actions: seq<Action>, n: nat)
    requires n <= |actions|
    ensures var s := Run(h, INITIAL, actions[..n]);
            && Inv(s) && (!s.stale ==> BasesOutgrown(s)) && (s.stale <==> exists i: nat | i < n :: FaltersAt(h, actions, i))
  {
    hide Step, Inv, BasesOutgrown, Falters, FaltersAt, Run;
    if n == 0 {
      assert actions[..0] == [];
      NothingRun(h, INITIAL);
      NothingOutgrown();
    } else {
      StaleUpTo(h, actions, n - 1);
      StaleNext(h, actions, n - 1);
    }
  }

  lemma NothingOutgrown()
    ensures Inv(INITIAL) && BasesOutgrown(INITIAL)
  {
  }

  lemma {:induction false} StaleNext(h: Host, actions: seq<Action>, n: nat)
    requires n < |actions| && var s := Run(h, INITIAL, actions[..n]); Inv(s) && (!s.stale ==> BasesOutgrown(s))
    ensures var s, t := Run(h, INITIAL, actions[..n]), Run(h, INITIAL, actions[..n + 1]);
            && Inv(t) && (!t.stale ==> BasesOutgrown(t) && !s.stale) && (!s.stale ==> (t.stale <==> FaltersAt(h, actions, n)))
  {
    hide Step, Inv, BasesOutgrown, Falters, Run;
    assert actions[..n + 1] == actions[..n] + [actions[n]];
    RunLast(h, INITIAL, actions[..n], actions[n]);
    var s := Run(h, INITIAL, actions[..n]);
    StepInv(h, s, actions[n]);
    StepOutgrows(h, s, actions[n]);
    if !s.stale {
      StaleStepIff(h, s, actions[n]);
    }
  }

  /** In every interleaving of sessions, some save was stale exactly when some save did not raise the revision of
      what is stored by one: comparing revisions at each save would have kept every promise of `SerialRun`. */
  lemma {:induction false} StaleIffRevisionFalters(h: Host, actions: seq<Action>)
    ensures Run(h, INITIAL, actions).stale <==> exists i: nat | i < |actions| :: FaltersAt(h, actions, i)
  {
    hide Run, FaltersAt, Inv, BasesOutgrown;
    StaleUpTo(h, actions, |actions|);
    assert actions[..|actions|] == actions;
  }

  /** So a run in which every save raises the revision by one loses nothing published at any point and lets no tag
      publish twice. */
  lemma {:induction false} RevisionsSuffice(h: Host, actions: seq<Action>, n: nat)
    requires n <= |actions| && forall i: nat | i < |actions| :: !FaltersAt(h, actions, i)
    ensures StoreEvolves(Run(h, INITIAL, actions[..n]).values, Run(h, INITIAL, actions).values)
    ensures TagsSpent(Run(h, INITIAL, actions))
  {
    hide Run, FaltersAt, Inv, TagsSpent, StoreEvolves;
    StaleIffRevisionFalters(h, actions);
    assert actions == actions[..n] + actions[n..];
    RunTwice(h, INITIAL, actions[..n], actions[n..]);
    var s := Run(h, INITIAL, actions[..n]);
    if s.stale {
      StaleStays(h, s, actions[n..]);
    }
    NothingSpent();
    SerialRun(h, INITIAL, actions[..n]);
    AlwaysWellFormed(h, INITIAL, actions[..n]);
    SerialRun(h, s, actions[n..]);
  }

  lemma NothingSpent()
    ensures Inv(INITIAL) && TagsSpent(INITIAL)
  {
  }

  // ---------------------------------------------------------------- whose contract it is

  /** Only organizations without a slash are registered. */
  ghost predicate SlashFreeRun(actions: seq<Action>) {
    forall i | 0 <= i < |actions| && actions[i].Register? :: '/' !in actions[i].org
  }

  ghost predicate SlashFreeStore(s: State) {
    && (forall k | k in s.values :: '/' !in s.values[k].org)
    && (forall i | i in s.sessions :: '/' !in s.sessions[i].base.org && (s.sessions[i].Changed? ==> '/' !in s.sessions[i].copy.org))
  }

  lemma SlashFreeStep(h: Host, s: State, a: Action)
    requires SlashFreeStore(s) && (a.Register? ==> '/' !in a.org)
    ensures SlashFreeStore(Step(h, s, a))
  {
    hide Key, CanAdd, CanPublish, NewVersion, PublishedVersion, Seen, Text.Trim;
  }

  lemma {:induction false} SlashFreeStates(h: Host, s: State, actions: seq<Action>)
    requires SlashFreeStore(s) && SlashFreeRun(actions)
    ensures SlashFreeStore(Run(h, s, actions))
    decreases |actions|
  {
    if actions != [] {
      SlashFreeStep(h, s, actions[0]);
      hide Step;
      SlashFreeStates(h, Step(h, s, actions[0]), actions[1..]);
    }
  }

  /** In every interleaving in which only organizations without a slash register contracts, a tenant without a
      slash finds only contracts of its own. */
  lemma {:induction false} TenantsFindOwn(h: Host, actions: seq<Action>, org: string, id: string)
    requires SlashFreeRun(actions) && '/' !in org && Key(org, id) in Run(h, INITIAL, actions).values
    ensures var c := Run(h, INITIAL, actions).values[Key(org, id)]; c.org == org && c.id == id
  {
    hide Run, Key;
    AlwaysWellFormed(h, INITIAL, actions);
    SlashFreeStates(h, INITIAL, actions);
    FindsOwnIff(Run(h, INITIAL, actions).values[Key(org, id)], org, id);
  }

  /** With a slash in an organization's name, a tenant finds its contract under another id. */
  lemma ForeignContractFound(h: Host, org: string, rest: string, id: string, name: string, now: int)
    requires id != "" && Text.Trim(name) != ""
    ensures var values := Run(h, INITIAL, [Register(id, org + "/" + rest, name, "", Backward, now)]).values;
            Key(org, rest + "/" + id) in values && values[Key(org, rest + "/" + id)].org == org + "/" + rest
  {
    hide Run, Text.Trim;
    Registered(h, id, org + "/" + rest, name, now);
    assert Key(org + "/" + rest, id) == Key(org, rest + "/" + id);
  }

  // ---------------------------------------------------------------- a contract can be published

  ghost predicate HasPublished(values: Store, k: string, schema: Schema) {
    && k in values && |values[k].versions| == 1
    && values[k].versions[0].number == 1 && values[k].versions[0].lifecycle == Published
    && values[k].versions[0].schema == Canonical(schema)
  }

  lemma RunLast(h: Host, s: State, actions: seq<Action>, a: Action)
    ensures Run(h, s, actions + [a]) == Step(h, Run(h, s, actions), a)
  {
    hide Step;
    RunTwice(h, s, actions, [a]);
    var t := Run(h, s, actions);
    assert Run(h, t, [a]) == Run(h, Step(h, t, a), []);
  }

  function With(s: State, session: nat, x: Session): State {
    s.(sessions := s.sessions[session := x])
  }

  /** A session whose steps are not interleaved with others: opened, changed and saved. */
  lemma AloneSession(h: Host, s: State, org: string, id: string, a: Action, c: Data, d: Data, used: Option<string>)
    requires Key(org, id) in s.values && s.values[Key(org, id)] == c && 0 !in s.sessions && KeyOf(d) == Key(org, id)
    requires Step(h, With(s, 0, Found(c)), a) == With(s, 0, Changed(c, d, used))
    ensures var t := Run(h, s, [Open(0, org, id), a, Save(0)]);
            t.values == s.values[Key(org, id) := d] && t.sessions == s.sessions
  {
    hide Key, Step, Run, With;
    assert [Open(0, org, id), a, Save(0)] == [] + [Open(0, org, id)] + [a] + [Save(0)];
    RunLast(h, s, [], Open(0, org, id));
    RunLast(h, s, [] + [Open(0, org, id)], a);
    RunLast(h, s, [] + [Open(0, org, id)] + [a], Save(0));
    NothingRun(h, s);
    OpenAndSave(h, s, org, id, c, d, used);
  }

  lemma NothingRun(h: Host, s: State)
    ensures Run(h, s, []) == s
  {
  }

  lemma OpenAndSave(h: Host, s: State, org: string, id: string, c: Data, d: Data, used: Option<string>)
    requires Key(org, id) in s.values && s.values[Key(org, id)] == c && 0 !in s.sessions && KeyOf(d) == Key(org, id)
    ensures Step(h, s, Open(0, org, id)) == With(s, 0, Found(c))
    ensures var t := Step(h, With(s, 0, Changed(c, d, used)), Save(0));
            t.values == s.values[Key(org, id) := d] && t.sessions == s.sessions
  {
    hide Key;
    assert s.sessions[0 := Changed(c, d, used)] - {0} == s.sessions;
  }

  /** Registering a contract and adding a first version to it. */
  function AddingActions(org: string, id: string, name: string, schema: Schema, now: int): seq<Action> {
    [Register(id, org, name, "", Backward, now)] + [Open(0, org, id), Add(0, schema, [], now), Save(0)]
  }

  function PublishingActions(org: string, id: string, now: int): seq<Action> {
    [Open(0, org, id), Publish(0, 1, ETag(id, 2), now), Save(0)]
  }

  /** The contract with one draft. */
  function Drafted(h: Host, org: string, id: string, name: string, schema: Schema, now: int): Data {
    Added(h, Data(id, org, name, "", Backward, [], now, now, 1), schema, now)
  }

  lemma {:induction false} DraftAdded(h: Host, org: string, id: string, name: string, schema: Schema, now: int)
    requires id != "" && org != "" && Text.Trim(name) != "" && ValidSchema(schema)
    ensures var t := Run(h, INITIAL, AddingActions(org, id, name, schema, now));
            t.values == map[Key(org, id) := Drafted(h, org, id, name, schema, now)] && t.sessions == map[]
  {
    var c := Data(id, org, name, "", Backward, [], now, now, 1);
    var d := Drafted(h, org, id, name, schema, now);
    assert KeyOf(d) == Key(org, id);
    var first := [Register(id, org, name, "", Backward, now)];
    Registered(h, id, org, name, now);
    var s := Run(h, INITIAL, first);
    RunTwice(h, INITIAL, first, [Open(0, org, id), Add(0, schema, [], now), Save(0)]);
    hide Run, Key, ValidSchema, Drafted;
    AddsAlone(h, s, c, schema, now);
    AloneSession(h, s, org, id, Add(0, schema, [], now), c, d, None);
  }

  /** The version is published, whatever else is open. */
  lemma {:induction false} DraftPublished(h: Host, s: State, org: string, id: string, name: string, schema: Schema, now: int)
    requires s.values == map[Key(org, id) := Drafted(h, org, id, name, schema, now)] && 0 !in s.sessions
    ensures var t := Run(h, s, PublishingActions(org, id, now));
            HasPublished(t.values, Key(org, id), schema) && t.sessions == s.sessions
  {
    var d := Drafted(h, org, id, name, schema, now);
    assert KeyOf(d) == Key(org, id);
    hide Run, Key, ETag, Canonical, Fingerprints.Preimage;
    PublishesAlone(h, s, d, now);
    AloneSession(h, s, org, id, Publish(0, 1, ETag(id, 2), now), d, PublishedAt(d, 0, now), Some(ETag(id, 2)));
  }

  /** Every valid schema can be registered and published as the first version of a contract. */
  lemma {:induction false} Publishable(h: Host, org: string, id: string, name: string, schema: Schema, now: int)
    returns (actions: seq<Action>)
    requires id != "" && org != "" && Text.Trim(name) != "" && ValidSchema(schema)
    ensures HasPublished(Run(h, INITIAL, actions).values, Key(org, id), schema)
  {
    hide Run, Key, HasPublished, ValidSchema, Drafted;
    var first, second := AddingActions(org, id, name, schema, now), PublishingActions(org, id, now);
    actions := first + second;
    RunTwice(h, INITIAL, first, second);
    DraftAdded(h, org, id, name, schema, now);
    DraftPublished(h, Run(h, INITIAL, first), org, id, name, schema, now);
  }

  lemma Registered(h: Host, id: string, org: string, name: string, now: int)
    requires id != "" && org != "" && Text.Trim(name) != ""
    ensures Run(h, INITIAL, [Register(id, org, name, "", Backward, now)]) ==
            State(map[Key(org, id) := Data(id, org, name, "", Backward, [], now, now, 1)], map[], [], false)
  {
    hide Key, Text.Trim;
    RunLast(h, INITIAL, [], Register(id, org, name, "", Backward, now));
  }

  lemma AddsAlone(h: Host, s: State, c: Data, schema: Schema, now: int)
    requires c.versions == [] && ValidSchema(schema)
    ensures Step(h, With(s, 0, Found(c)), Add(0, schema, [], now)) == With(s, 0, Changed(c, Added(h, c, schema, now), None))
  {
    hide ValidSchema, Added;
    var x := Changed(c, Added(h, c, schema, now), None);
    assert s.sessions[0 := Found(c)][0 := x] == s.sessions[0 := x];
  }

  lemma PublishesAlone(h: Host, s: State, d: Data, now: int)
    requires |d.versions| == 1 && d.versions[0].number == 1 && d.versions[0].lifecycle == Draft
    requires d.versions[0].etag == ETag(d.id, 2)
    ensures Step(h, With(s, 0, Found(d)), Publish(0, 1, ETag(d.id, 2), now)) ==
            With(s, 0, Changed(d, PublishedAt(d, 0, now), Some(ETag(d.id, 2))))
  {
    hide PublishedAt;
    assert |ETag(d.id, 2)| > 0;
    assert CanPublish(d, 1, ETag(d.id, 2));
    var x := Changed(d, PublishedAt(d, 0, now), Some(ETag(d.id, 2)));
    assert s.sessions[0 := Found(d)][0 := x] == s.sessions[0 := x];
  }

  // ---------------------------------------------------------------- a stale save takes a publication back

  /** The first version of the stored contract is a draft. */
  ghost predicate HasDraft(values: Store, k: string) {
    k in values && |values[k].versions| > 0 && values[k].versions[0].number == 1 && values[k].versions[0].lifecycle == Draft
  }

  /** A session reads the draft before it is published, */
  function BeforeActions(org: string, id: string, name: string, schema: Schema, now: int): seq<Action> {
    AddingActions(org, id, name, schema, now) + [Open(1, org, id)] + PublishingActions(org, id, now)
  }

  /** adds a version to what it read, and saves. */
  function AfterActions(schema: Schema, now: int): seq<Action> {
    [Add(1, schema, Sorting.Sort(Canonical(schema).fields, FieldLt), now), Save(1)]
  }

  lemma SameSchemaFollows(c: Data, schema: Schema)
    requires ValidSchema(schema) && TrimmedApart(schema.fields)
    requires |c.versions| == 1 && c.versions[0].schema == Canonical(schema)
    ensures var order := Sorting.Sort(Canonical(schema).fields, FieldLt); Seen(c, order) && CanAdd(c, schema, order)
  {
    var order := Sorting.Sort(Canonical(schema).fields, FieldLt);
    SortIsOrdering(Canonical(schema).fields);
    IdentifiedIff(schema);
    StoredFields(schema);
    hide Canonical, Ordering, ByName, Identified, ValidSchema, TrimmedApart;
    CanAddIff(c, schema, order);
  }

  lemma {:induction false} StaleAddSaves(h: Host, s: State, org: string, id: string, c: Data, schema: Schema, now: int)
    requires Key(org, id) in s.values && s.sessions == map[1 := Found(c)] && KeyOf(c) == Key(org, id)
    requires ValidSchema(schema) && TrimmedApart(schema.fields) && |c.versions| == 1 && c.versions[0].schema == Canonical(schema)
    ensures Run(h, s, AfterActions(schema, now)).values == s.values[Key(org, id) := Added(h, c, schema, now)]
  {
    SameSchemaFollows(c, schema);
    hide Key, Canonical, Seen, CanAdd, Run, Step, ValidSchema, TrimmedApart, Added, With;
    var order := Sorting.Sort(Canonical(schema).fields, FieldLt);
    var a, b := Add(1, schema, order, now), Save(1);
    assert AfterActions(schema, now) == [] + [a] + [b];
    RunLast(h, s, [], a);
    RunLast(h, s, [] + [a], b);
    NothingRun(h, s);
    AddAndSave(h, s, org, id, c, schema, order, now);
  }

  lemma AddAndSave(h: Host, s: State, org: string, id: string, c: Data, schema: Schema, order: seq<Field>, now: int)
    requires Key(org, id) in s.values && s.sessions == map[1 := Found(c)] && KeyOf(c) == Key(org, id)
    requires Seen(c, order) && CanAdd(c, schema, order)
    ensures Step(h, Step(h, s, Add(1, schema, order, now)), Save(1)).values == s.values[Key(org, id) := Added(h, c, schema, now)]
  {
    hide Seen, CanAdd;
    var d := Added(h, c, schema, now);
    assert KeyOf(d) == Key(org, id);
    hide Key, Added;
    var t := Step(h, s, Add(1, schema, order, now));
    assert t.values == s.values && 1 in t.sessions && t.sessions[1] == Changed(c, d, None);
  }

  /** Whatever the schema, a stale save can take its publication back. */
  lemma {:induction false} PublicationRevoked(h: Host, org: string, id: string, name: string, schema: Schema, now: int)
    requires id != "" && org != "" && Text.Trim(name) != "" && ValidSchema(schema) && TrimmedApart(schema.fields)
    ensures var s := Run(h, INITIAL, BeforeActions(org, id, name, schema, now));
            HasPublished(s.values, Key(org, id), schema) && HasDraft(Run(h, s, AfterActions(schema, now)).values, Key(org, id))
  {
    hide Run, ValidSchema, TrimmedApart, AddingActions, PublishingActions, Canonical, Fingerprints.Preimage, Text.Trim;
    var first := AddingActions(org, id, name, schema, now);
    var d := Drafted(h, org, id, name, schema, now);
    assert KeyOf(d) == Key(org, id);
    hide Key;
    DraftAdded(h, org, id, name, schema, now);
    RunLast(h, INITIAL, first, Open(1, org, id));
    RunTwice(h, INITIAL, first + [Open(1, org, id)], PublishingActions(org, id, now));
    var s := Run(h, INITIAL, first + [Open(1, org, id)]);
    assert s.sessions == map[1 := Found(d)];
    DraftPublished(h, s, org, id, name, schema, now);
    StaleAddSaves(h, Run(h, s, PublishingActions(org, id, now)), org, id, d, schema, now);
  }
}
