/** The ingestion service as an object (internal/ingestion/application/service.go, policy.go, query.go),
    proved against the locked sections of `Ingestion`, and its serial calls as runs of the machine. */
module Services {
  import opened Values
  import opened Rules
  import opened Ingestion
  import opened Machine
  import Catalogs
  import Contracts
  import DeadLetters
  import Registry
  import Schemas
  import Sorting
  import Typecheck

  // ---------------------------------------------------------------- whole calls on values

  function Lookup(values: Registry.Store, e: Event): Option<Contracts.Data> {
    var k := Registry.Key(e.tenant, e.contract);
    if k in values then Some(values[k]) else None
  }

  /** The clock readings and fresh names a publish takes, in the order it takes them. */
  datatype Draw = Draw(freshId: string, start: int, now: int, later: int, attemptId: string, letterId: string, at: int)

  function ReasonsOf(cfg: Config, s: Service, values: Registry.Store, e: Event, d: Draw): seq<string> {
    Reasons(cfg, e, d.now, d.later, Lookup(values, e), Catalogs.Live(s.policy, e.contract))
  }

  /** What a publish that runs alone leaves behind and answers. */
  function Published(cfg: Config, s: Service, values: Registry.Store, event: Event, d: Draw): Service {
    var e := Prepared(event, d.freshId, d.start);
    match Enter(cfg, s, e)
    case Admitted(usage) => Commit(s.(usage := usage), e, ReasonsOf(cfg, s, values, e, d), d.attemptId, d.letterId, d.at)
    case _ => s
  }

  function Answer(cfg: Config, s: Service, values: Registry.Store, event: Event, d: Draw): Result<Receipt> {
    var e := Prepared(event, d.freshId, d.start);
    match Enter(cfg, s, e)
    case Refused(message) => Err(message)
    case Known(r) => Ok(r)
    case Admitted(_) => Ok(NewReceipt(e, ReasonsOf(cfg, s, values, e, d), d.attemptId))
  }

  /** What a replay that runs alone leaves behind. */
  function Replayed(cfg: Config, s: Service, values: Registry.Store, letter: string, actor: string,
                    freshKey: string, begin: int, d: Draw, end: int): Service
    requires CanReplay(s, letter)
  {
    var e := ReplayEvent(s, letter, freshKey);
    var s1 := BeginReplay(s, letter, actor, begin);
    var s2 := Published(cfg, s1, values, e, d);
    var r := Answer(cfg, s1, values, e, d);
    if letter in s2.letters then FinishReplay(s2, letter, r.Ok? && r.value.status == Accepted, actor, end) else s2
  }

  // ---------------------------------------------------------------- the object

  class IngestionService {
    const repo: Registry.MemoryContracts
    const cfg: Config
    const catalog: Catalogs.Catalog
    var seen: map<string, Receipt>
    var events: map<string, Event>
    var attempts: map<string, seq<Attempt>>
    var letters: map<string, DeadLetters.Letter>
    var lineages: map<string, Lineage>
    var rules: map<string, seq<Rule>>
    var usage: map<string, Quota>

    constructor (repo: Registry.MemoryContracts, cfg: Config)
      ensures this.repo == repo && this.cfg == cfg && fresh(catalog) && catalog.maxKeep == Catalogs.KEEP
      ensures Value() == NEW
    {
      this.repo, this.cfg := repo, cfg;
      catalog := new Catalogs.Catalog(10);
      seen, events, attempts, letters, lineages, rules, usage := map[], map[], map[], map[], map[], map[], map[];
    }

    function Value(): Service
      reads this, catalog
    {
      Service(seen, events, attempts, letters, lineages, Catalogs.Policy(catalog.Value(), rules), usage)
    }

    method SetRules(id: string, list: seq<Rule>, now: int) returns (r: Result<()>)
      requires catalog.maxKeep == Catalogs.KEEP
      modifies this`rules, catalog
      ensures r.Ok? <==> Catalogs.CanSet(cfg.host, old(Value()).policy, id, list, now)
      ensures Value() == old(Value()).(policy := Catalogs.SetRules(cfg.host, old(Value()).policy, id, list, now))
    {
      for i := 0 to |list|
        invariant forall j | 0 <= j < i :: ValidRule(cfg.host, list[j])
        invariant Value() == old(Value())
      {
        if !ValidRule(cfg.host, list[i]) {
          assert list[i] in list;
          return Err("invalid rule");
        }
      }
      var version := (if id in catalog.latest then catalog.latest[id] else 0) + 1;
      var put := catalog.Put(cfg.host, Catalogs.RuleSet(id, version, list, now, true));
      if put.Err? {
        return put;
      }
      rules := rules[id := list];
      return Ok(());
    }

    method ActivateRuleVersion(id: string, version: int) returns (r: Result<()>)
      modifies this`rules, catalog
      ensures r.Ok? <==> Catalogs.CanActivate(old(Value()).policy.catalogue, id, version)
      ensures Value() == old(Value()).(policy := Catalogs.ActivateVersion(old(Value()).policy, id, version))
    {
      var activated := catalog.Activate(id, version);
      if activated.Err? {
        return activated;
      }
      ActivatedHasActive(old(catalog.Value()), id, version);
      var set_ := catalog.Active(id);
      if set_.Err? {
        return Err("active rule set not found");
      }
      rules := rules[id := set_.value.rules];
      return Ok(());
    }

    /** The full evaluation of the live rules on a stored event; live rules of a run never panic. */
    method EvaluateEvent(id: string) returns (r: Result<Option<Summary>>)
      ensures r.Ok? <==> id in events
      ensures r.Ok? ==>
                var live := Catalogs.Live(Value().policy, events[id].contract);
                && (r.value.None? <==> Panics(cfg.host, live, events[id].payload))
                && (r.value.Some? ==> Reports(r.value.value, cfg.host, Sorting.Sort(live, RuleLt), events[id].payload))
    {
      if id !in events {
        return Err("event not found");
      }
      var e := events[id];
      var live := if e.contract in rules then rules[e.contract] else [];
      var s := Evaluate(cfg.host, live, e.payload);
      return Ok(s);
    }

    method Consume(tenant: string, now: int) returns (r: Result<()>)
      modifies this`usage
      ensures var q := ConsumeQuota(old(usage), tenant, now, cfg.maxQuota);
              (r.Ok? <==> q.Some?) && usage == if q.Some? then q.value else old(usage)
    {
      var q := if tenant in usage then usage[tenant] else Quota(now, 0);
      if tenant !in usage || now - q.start >= MINUTE {
        q := Quota(now, 0);
      }
      if q.count >= cfg.maxQuota {
        return Err("tenant quota exceeded");
      }
      usage := usage[tenant := Quota(q.start, q.count + 1)];
      return Ok(());
    }

    method Validate(e: Event, now: int, later: int) returns (reasons: seq<string>)
      ensures reasons == Reasons(cfg, e, now, later, Lookup(repo.values, e), Catalogs.Live(Value().policy, e.contract))
    {
      if e.tenant == "" {
        return [cfg.describe(TenantRequired)];
      }
      if e.contract == "" {
        return [cfg.describe(ContractRequired)];
      }
      var out := [];
      if |e.payload| == 0 {
        out := out + [PayloadRequired];
      }
      if cfg.secret != "" && !Signed(cfg, e) {
        out := out + [InvalidSignature];
      }
      if now - OccurredAt(e) > DAY || OccurredAt(e) - later > 5 * MINUTE {
        out := out + [OutsideWindow];
      }
      assert out == Preliminary(cfg, e, now, later);
      var live := if e.contract in rules then rules[e.contract] else [];
      reasons := Conclude(cfg, e, out, repo, live);
    }

    method Publish(event: Event, d: Draw) returns (r: Result<Receipt>)
      modifies this
      ensures Value() == Published(cfg, old(Value()), repo.values, event, d)
      ensures Same(r, Answer(cfg, old(Value()), repo.values, event, d))
    {
      hide KeyOf, Reasons, Commit;
      var e := event;
      if e.id == "" {
        e := e.(id := d.freshId);
      }
      if e.occurredAt.None? {
        e := e.(occurredAt := Some(d.start));
      }
      e := e.(receivedAt := d.start);
      if e.key == "" {
        return Err("Idempotency-Key is required");
      }
      if KeyOf(e) in seen {
        return Ok(seen[KeyOf(e)].(duplicate := true));
      }
      var consumed := Consume(e.tenant, d.start);
      if consumed.Err? {
        return Err(consumed.message);
      }
      var reasons := Validate(e, d.now, d.later);
      var receipt := Store(e, reasons, d.attemptId, d.letterId, d.at);
      return Ok(receipt);
    }

    /** The last locked section of `Publish`. */
    method Store(e: Event, reasons: seq<string>, attemptId: string, letterId: string, now: int) returns (receipt: Receipt)
      modifies this`seen, this`events, this`attempts, this`letters, this`lineages
      ensures Value() == Commit(old(Value()), e, reasons, attemptId, letterId, now)
      ensures receipt == NewReceipt(e, reasons, attemptId)
    {
      hide KeyOf;
      var status := if |reasons| > 0 then DeadLettered else Accepted;
      receipt := Receipt(e.id, status, false, attemptId, reasons);
      var attempt := Attempt(attemptId, e.id, 1, status, reasons, now);
      events := events[e.id := e];
      seen := seen[KeyOf(e) := receipt];
      attempts := attempts[e.id := (if e.id in attempts then attempts[e.id] else []) + [attempt]];
      var failure := None;
      if |reasons| > 0 {
        failure := Some(reasons[0]);
        var audit := [DeadLetters.Audit(now, DeadLetters.Created, "gateway")];
        letters := letters[letterId := DeadLetters.Letter(
          letterId, e.tenant, e.id, reasons[0], e.payload, DeadLetters.Pending, 0, 3, now, now, audit)];
      }
      var stage := Stage(attempt.id, status, attempt.at, failure);
      lineages := lineages[e.id := Lineage(e.id, e.contract, failure, [stage], now + 30 * DAY, now)];
    }

    method Replay(letter: string, actor: string, freshKey: string, begin: int, d: Draw, end: int) returns (r: Result<Receipt>)
      modifies this
      ensures !CanReplay(old(Value()), letter) ==> r.Err? && Value() == old(Value())
      ensures CanReplay(old(Value()), letter) ==>
                && Value() == Replayed(cfg, old(Value()), repo.values, letter, actor, freshKey, begin, d, end)
                && Same(r, Answer(cfg, BeginReplay(old(Value()), letter, actor, begin), repo.values,
                                  ReplayEvent(old(Value()), letter, freshKey), d))
    {
      hide Published, Answer;
      if letter !in letters {
        return Err("dead letter not found");
      }
      var l := new DeadLetters.DeadLetter(letters[letter]);
      var begun := l.BeginReplay(actor, begin);
      if !begun {
        return Err("dead letter cannot be replayed");
      }
      var stored := letters[letter];
      var e := (if stored.eventId in events then events[stored.eventId] else ZERO_EVENT).(key := freshKey);
      letters := letters[letter := l.Value()];
      ghost var s1 := Value();
      assert s1 == BeginReplay(old(Value()), letter, actor, begin);
      r := Publish(e, d);
      LettersStay(cfg, s1, repo.values, e, d, letter);
      var again := new DeadLetters.DeadLetter(letters[letter]);
      again.FinishReplay(r.Ok? && r.value.status == Accepted, actor, end);
      letters := letters[letter := again.Value()];
    }

    method PruneExpiredLineage(now: int) returns (removed: nat)
      modifies this`lineages
      ensures Value() == Ingestion.Prune(old(Value()), now)
      ensures removed == |old(lineages)| - |lineages|
    {
      var todo := lineages.Keys;
      removed := 0;
      ghost var before := lineages;
      while todo != {}
        invariant forall id | id in todo :: id in lineages && id in before
        invariant forall id | id in lineages :: id in before && lineages[id] == before[id]
        invariant forall id | id in before && id !in todo :: id in lineages <==> now <= before[id].retainUntil
        invariant removed == |before| - |lineages|
        decreases |todo|
      {
        var id :| id in todo;
        todo := todo - {id};
        if now > lineages[id].retainUntil {
          CardinalityOfRemoval(lineages, id);
          lineages := lineages - {id};
          removed := removed + 1;
        }
      }
      assert lineages == map id | id in before && now <= before[id].retainUntil :: before[id];
    }
  }

  lemma CardinalityOfRemoval(m: map<string, Lineage>, id: string)
    requires id in m
    ensures |m - {id}| == |m| - 1
  {
    assert (m - {id}).Keys == m.Keys - {id};
  }

  ghost predicate Same(a: Result<Receipt>, b: Result<Receipt>) {
    if b.Ok? then a == b else a.Err?
  }

  lemma ActivatedHasActive(c: Catalogs.Catalogue, id: string, version: int)
    requires Catalogs.CanActivate(c, id, version)
    ensures Catalogs.FirstActive(Catalogs.Items(Catalogs.Activated(c, id, version), id)).Some?
  {
    var items := Catalogs.Items(c, id);
    var e :| e in items && e.version == version;
    var i :| 0 <= i < |items| && items[i] == e;
    var flagged := Catalogs.Flagged(items, version);
    assert flagged[i] in flagged && flagged[i].active;
  }

  /** A publish removes no letter. */
  lemma LettersStay(cfg: Config, s: Service, values: Registry.Store, e: Event, d: Draw, letter: string)
    requires letter in s.letters
    ensures letter in Published(cfg, s, values, e, d).letters
  {
    hide Enter, Reasons, KeyOf, NewLetter, NewLineage, Prepared;
  }

  // ---------------------------------------------------------------- the rest of validation

  method Conclude(cfg: Config, e: Event, first: seq<Problem>, repo: Registry.MemoryContracts, live: seq<Rule>)
    returns (reasons: seq<string>)
    ensures reasons == Concluded(cfg, e, first, Lookup(repo.values, e), live)
  {
    var found := repo.Find(e.tenant, e.contract);
    if found.Err? {
      return Described(cfg, first + [ContractNotFound]);
    }
    var v := NamedVersion(found.value.versions, e.schemaVersion);
    if v.None? || found.value.versions[v.value].lifecycle != Contracts.Published {
      return Described(cfg, first + [NotPublished]);
    }
    var issues := Typecheck.ValidatePayload(cfg.host, e.payload, found.value.versions[v.value].schema.fields);
    var failing := RunRules(cfg.host, live, e.payload);
    reasons := Schemas.SortStrings(Described(cfg, first + FieldProblems(issues) + failing));
  }

  method NamedVersion(vs: seq<Contracts.Version>, number: int) returns (r: Option<nat>)
    ensures r == Contracts.Find(vs, number)
  {
    var i := 0;
    while i < |vs|
      invariant i <= |vs|
      invariant Contracts.Find(vs, number) ==
                match Contracts.Find(vs[i..], number) case Some(k) => Some(i + k) case None => None
    {
      assert vs[i..][1..] == vs[i + 1..];
      if vs[i].number == number {
        return Some(i);
      }
      i := i + 1;
    }
    return None;
  }

  method RunRules(h: Host, live: seq<Rule>, p: Payload) returns (out: seq<Problem>)
    ensures out == RuleProblems(h, live, p)
  {
    hide Execute;
    out := [];
    for i := 0 to |live|
      invariant out == RuleProblems(h, live[..i], p)
    {
      assert live[..i + 1][..i] == live[..i];
      if live[i].enabled && Execute(h, live[i], p) != Passed {
        out := out + [RuleProblem(live[i].id, live[i].op)];
      }
    }
    assert live[..|live|] == live;
  }

  // ---------------------------------------------------------------- serial calls are runs of the machine

  /** The sections of a publish after the first, */
  function RestActions(id: nat, d: Draw): seq<Action> {
    [LooksUp(id), Checks(id, d.now, d.later), Commits(id, d.attemptId, d.letterId, d.at)]
  }

  /** all four of a client's publish, */
  function PublishActions(id: nat, event: Event, d: Draw): seq<Action> {
    [ClientEnters(id, event, d.freshId, d.start)] + RestActions(id, d)
  }

  /** and the six of a replay. */
  function ReplayActions(id: nat, letter: string, actor: string, freshKey: string, begin: int, d: Draw, end: int): seq<Action> {
    [ReplayBegins(id, letter, actor, freshKey, begin)]
    + ([ReplayEnters(id, d.freshId, d.start)] + RestActions(id, d)) + [ReplayEnds(id, end)]
  }

  lemma RunFirst(cfg: Config, m: System, a: Action, rest: seq<Action>)
    ensures Run(cfg, m, [a] + rest) == Run(cfg, Step(cfg, m, a), rest)
  {
    hide Step;
    assert ([a] + rest)[1..] == rest;
  }

  lemma Run3(cfg: Config, m: System, a: seq<Action>)
    requires |a| == 3
    ensures Run(cfg, m, a) == Step(cfg, Step(cfg, Step(cfg, m, a[0]), a[1]), a[2])
  {
    hide Step;
    assert a == [] + [a[0]] + [a[1]] + [a[2]];
    RunMore(cfg, m, [], a[0]);
    RunMore(cfg, m, [] + [a[0]], a[1]);
    RunMore(cfg, m, [] + [a[0]] + [a[1]], a[2]);
  }

  function CallAfter(calls: map<nat, Call>, id: nat, origin: Origin, ok: bool): map<nat, Call> {
    if origin.Client? then calls - {id} else calls[id := Finishing(origin, ok)]
  }

  /** A publish in flight whose remaining sections run in a row commits what it finds now. */
  lemma RestOfPublish(cfg: Config, m: System, id: nat, origin: Origin, e: Event, d: Draw)
    requires id in m.calls && m.calls[id] == Entered(origin, e) && d.letterId !in m.service.letters
    ensures var reasons := ReasonsOf(cfg, m.service, m.registry.values, e, d);
            Run(cfg, m, RestActions(id, d)) ==
            m.(service := Commit(m.service, e, reasons, d.attemptId, d.letterId, d.at),
               calls := CallAfter(m.calls, id, origin, reasons == []), log := m.log + [Commitment(e)])
  {
    hide Reasons, KeyOf, Run, Commit, Registry.Key, Registry.Step, ClientStep, ReenterStep, BeginStep, EndStep, RulesStep, Prune;
    Run3(cfg, m, RestActions(id, d));
    var reasons := ReasonsOf(cfg, m.service, m.registry.values, e, d);
    var looked := m.calls[id := Looked(origin, e, Lookup(m.registry.values, e))];
    assert Step(cfg, m, LooksUp(id)) == m.(calls := looked);
    var checked := m.calls[id := Checked(origin, e, reasons)];
    assert looked[id := Checked(origin, e, reasons)] == checked;
    assert Step(cfg, m.(calls := looked), Checks(id, d.now, d.later)) == m.(calls := checked);
    assert checked - {id} == m.calls - {id};
    assert checked[id := Finishing(origin, reasons == [])] == m.calls[id := Finishing(origin, reasons == [])];
  }

  /** A publish whose sections run one after the other does what the method does: the machine's steps and
      the object's calls are the same protocol. */
  lemma SerialPublish(cfg: Config, m: System, id: nat, event: Event, d: Draw)
    requires id !in m.calls && d.freshId != "" && d.letterId !in m.service.letters
    ensures var n := Run(cfg, m, PublishActions(id, event, d));
            && n.service == Published(cfg, m.service, m.registry.values, event, d)
            && n.calls == m.calls && n.registry == m.registry
  {
    hide Enter, ReasonsOf, Prepared, KeyOf, Busy, Run, Commit, RestActions, ReenterStep, BeginStep, EndStep, LookStep, CheckStep,
      CommitStep, RulesStep, Registry.Step, Prune;
    var a := ClientEnters(id, event, d.freshId, d.start);
    var e := Prepared(event, d.freshId, d.start);
    RunFirst(cfg, m, a, RestActions(id, d));
    var n := Step(cfg, m, a);
    match Enter(cfg, m.service, e)
    case Admitted(usage) =>
      assert n.calls == m.calls[id := Entered(Client, e)] && n.service == m.service.(usage := usage);
      ReasonsNeedNoQuota(cfg, m.service, usage, m.registry.values, e, d);
      RestOfPublish(cfg, n, id, Client, e, d);
      assert n.calls - {id} == m.calls;
    case _ =>
      assert n == m;
      RestOfNothing(cfg, m, id, d);
  }

  lemma ReasonsNeedNoQuota(cfg: Config, s: Service, usage: map<string, Quota>, values: Registry.Store, e: Event, d: Draw)
    ensures ReasonsOf(cfg, s.(usage := usage), values, e, d) == ReasonsOf(cfg, s, values, e, d)
  {
    hide Reasons;
  }

  /** The remaining sections of a call that was not admitted do nothing. */
  lemma RestOfNothing(cfg: Config, m: System, id: nat, d: Draw)
    requires id in m.calls ==> m.calls[id].Finishing?
    ensures Run(cfg, m, RestActions(id, d)) == m
  {
    hide Reasons, Run, Commit;
    Run3(cfg, m, RestActions(id, d));
  }

  /** The sections of a replay between its first and its last. */
  lemma ReplayMiddle(cfg: Config, m: System, id: nat, letter: string, actor: string, event: Event, d: Draw)
    requires id in m.calls && m.calls[id] == Waiting(ReplayOf(letter, actor), event)
    requires d.freshId != "" && d.letterId !in m.service.letters
    ensures var n := Run(cfg, m, [ReplayEnters(id, d.freshId, d.start)] + RestActions(id, d));
            var r := Answer(cfg, m.service, m.registry.values, event, d);
            && n.service == Published(cfg, m.service, m.registry.values, event, d)
            && n.calls == m.calls[id := Finishing(ReplayOf(letter, actor), r.Ok? && r.value.status == Accepted)]
            && n.registry == m.registry
  {
    hide Enter, ReasonsOf, Prepared, KeyOf, Busy, Run, Commit, RestActions, ClientStep, BeginStep, EndStep, LookStep, CheckStep,
      CommitStep, RulesStep, Registry.Step, Prune;
    var a := ReplayEnters(id, d.freshId, d.start);
    var e := Prepared(event, d.freshId, d.start);
    RunFirst(cfg, m, a, RestActions(id, d));
    var n := Step(cfg, m, a);
    match Enter(cfg, m.service, e)
    case Admitted(usage) =>
      assert n.calls == m.calls[id := Entered(ReplayOf(letter, actor), e)] && n.service == m.service.(usage := usage);
      ReasonsNeedNoQuota(cfg, m.service, usage, m.registry.values, e, d);
      RestOfPublish(cfg, n, id, ReplayOf(letter, actor), e, d);
    case _ =>
      assert n.calls[id].Finishing?;
      RestOfNothing(cfg, n, id, d);
  }

  /** A replay whose sections run one after the other does what the method does. */
  lemma SerialReplay(cfg: Config, m: System, id: nat, letter: string, actor: string, freshKey: string, begin: int, d: Draw, end: int)
    requires id !in m.calls && CanReplay(m.service, letter) && d.freshId != "" && d.letterId !in m.service.letters
    ensures var n := Run(cfg, m, ReplayActions(id, letter, actor, freshKey, begin, d, end));
            && n.service == Replayed(cfg, m.service, m.registry.values, letter, actor, freshKey, begin, d, end)
            && n.calls == m.calls
  {
    hide Run, Published, Answer, ReplayEvent, DeadLetters.Begun, DeadLetters.Finished, DeadLetters.CanBegin, RestActions,
      ClientStep, ReenterStep, LookStep, CheckStep, CommitStep;
    var first := ReplayBegins(id, letter, actor, freshKey, begin);
    var middle := [ReplayEnters(id, d.freshId, d.start)] + RestActions(id, d);
    RunMore(cfg, m, [first] + middle, ReplayEnds(id, end));
    RunFirst(cfg, m, first, middle);
    var m1 := Step(cfg, m, first);
    var e := ReplayEvent(m.service, letter, freshKey);
    assert m1.calls[id] == Waiting(ReplayOf(letter, actor), e);
    ReplayMiddle(cfg, m1, id, letter, actor, e, d);
    LettersStay(cfg, m1.service, m.registry.values, e, d, letter);
    var m5 := Run(cfg, m1, middle);
    var m6 := Step(cfg, m5, ReplayEnds(id, end));
    assert m6.calls == m5.calls - {id};
    assert m5.calls - {id} == m.calls;
  }

  // ---------------------------------------------------------------- what a replay that runs alone achieves

  predicate AcceptedAnswer(r: Result<Receipt>) {
    r.Ok? && r.value.status == Accepted
  }

  /** The letter as a replay with the given outcome leaves it. */
  ghost predicate LeftBy(before: DeadLetters.Letter, after: DeadLetters.Letter, ok: bool, actor: string, begin: int, end: int) {
    && after.audit == before.audit + [DeadLetters.Audit(begin, DeadLetters.ReplayStarted, actor),
                                      DeadLetters.Audit(end, if ok then DeadLetters.ReplaySucceeded else DeadLetters.ReplayFailed, actor)]
    && after.attempts == before.attempts + 1
    && after.state == if ok then DeadLetters.Replayed
                      else if before.attempts + 1 < before.maxAttempts then DeadLetters.Pending else DeadLetters.Poisoned
  }

  lemma ReplayedLetter(cfg: Config, s: Service, values: Registry.Store, letter: string, actor: string,
                       freshKey: string, begin: int, d: Draw, end: int)
    requires CanReplay(s, letter) && d.letterId !in s.letters
    ensures var t := Replayed(cfg, s, values, letter, actor, freshKey, begin, d, end);
            var r := Answer(cfg, BeginReplay(s, letter, actor, begin), values, ReplayEvent(s, letter, freshKey), d);
            letter in t.letters && LeftBy(s.letters[letter], t.letters[letter], AcceptedAnswer(r), actor, begin, end)
  {
    hide ReplayEvent, Answer, Published;
    var s1 := BeginReplay(s, letter, actor, begin);
    var e := ReplayEvent(s, letter, freshKey);
    LettersStay(cfg, s1, values, e, d, letter);
    LetterUntouched(cfg, s1, values, e, d, letter);
  }

  lemma LetterUntouched(cfg: Config, s: Service, values: Registry.Store, e: Event, d: Draw, letter: string)
    requires letter in s.letters && letter != d.letterId
    ensures letter in Published(cfg, s, values, e, d).letters && Published(cfg, s, values, e, d).letters[letter] == s.letters[letter]
  {
    hide Enter, ReasonsOf, KeyOf, NewLetter, NewLineage, Prepared, NewAttempt, NewReceipt, AttemptsOf;
  }

  /** An admitted publish is accepted exactly when its event is acceptable. */
  lemma {:induction false} AnswerIff(cfg: Config, s: Service, values: Registry.Store, event: Event, d: Draw)
    requires Enter(cfg, s, Prepared(event, d.freshId, d.start)).Admitted?
    ensures var e := Prepared(event, d.freshId, d.start);
            AcceptedAnswer(Answer(cfg, s, values, event, d)) <==>
            Acceptable(cfg, e, d.now, d.later, Lookup(values, e), Catalogs.Live(s.policy, e.contract))
  {
    var e := Prepared(event, d.freshId, d.start);
    NoReasonsIff(cfg, e, d.now, d.later, Lookup(values, e), Catalogs.Live(s.policy, e.contract));
    hide Enter, Reasons, Acceptable, Prepared;
  }

  lemma SameEntry(cfg: Config, s: Service, letter: string, actor: string, begin: int, e: Event)
    requires letter in s.letters
    ensures Enter(cfg, BeginReplay(s, letter, actor, begin), e) == Enter(cfg, s, e)
  {
    hide KeyOf;
  }

  /** A replay that runs alone ends its letter as replayed exactly when its publish was answered with acceptance,
      which, once admitted, it is exactly when the event it publishes is acceptable; its audit trail gains the start
      and the outcome. */
  lemma {:induction false} SerialReplayOutcome(
    cfg: Config, m: System, id: nat, letter: string, actor: string, freshKey: string, begin: int, d: Draw, end: int)
    requires id !in m.calls && CanReplay(m.service, letter) && d.freshId != "" && d.letterId !in m.service.letters
    ensures var n := Run(cfg, m, ReplayActions(id, letter, actor, freshKey, begin, d, end));
            var event := ReplayEvent(m.service, letter, freshKey);
            var e := Prepared(event, d.freshId, d.start);
            var ok := AcceptedAnswer(Answer(cfg, BeginReplay(m.service, letter, actor, begin), m.registry.values, event, d));
            && letter in n.service.letters
            && LeftBy(m.service.letters[letter], n.service.letters[letter], ok, actor, begin, end)
            && (Enter(cfg, m.service, e).Admitted? ==>
                  (ok <==> Acceptable(cfg, e, d.now, d.later, Lookup(m.registry.values, e), Catalogs.Live(m.service.policy, e.contract))))
  {
    SerialReplay(cfg, m, id, letter, actor, freshKey, begin, d, end);
    ReplayedLetter(cfg, m.service, m.registry.values, letter, actor, freshKey, begin, d, end);
    var event := ReplayEvent(m.service, letter, freshKey);
    var e := Prepared(event, d.freshId, d.start);
    SameEntry(cfg, m.service, letter, actor, begin, e);
    if Enter(cfg, m.service, e).Admitted? {
      AnswerIff(cfg, BeginReplay(m.service, letter, actor, begin), m.registry.values, event, d);
    }
    hide Run, ReplayActions, Acceptable, Answer, ReplayEvent, Prepared, LeftBy, Enter, AcceptedAnswer, Replayed, CanReplay;
  }

  /** A signature covers the idempotency key, and a replay takes a new one. So while a secret is set, no replay of an
      event that was signed for the key it came with is ever accepted, whatever was wrong with it and was put right
      since: such a letter can only fail until it is poisoned. */
  lemma {:induction false} SignedReplayFails(
    cfg: Config, m: System, id: nat, letter: string, actor: string, freshKey: string, begin: int, d: Draw, end: int)
    requires id !in m.calls && CanReplay(m.service, letter) && d.freshId != "" && d.letterId !in m.service.letters
    requires cfg.secret != "" && CodesApart(cfg.host)
    requires m.service.letters[letter].eventId in m.service.events
    requires var stored := m.service.events[m.service.letters[letter].eventId];
             Signed(cfg, stored) && stored.id != "" && freshKey != stored.key && SeenKey(stored.tenant, freshKey) !in m.service.seen
    ensures var n := Run(cfg, m, ReplayActions(id, letter, actor, freshKey, begin, d, end));
            letter in n.service.letters && LeftBy(m.service.letters[letter], n.service.letters[letter], false, actor, begin, end)
  {
    assert letter in m.service.letters;
    hide Run, ReplayActions, Answer, ReplayEvent, Prepared, LeftBy, KeyOf, Signed, Enter, AcceptedAnswer, CanReplay, CodesApart;
    SerialReplayOutcome(cfg, m, id, letter, actor, freshKey, begin, d, end);
    var stored := m.service.events[m.service.letters[letter].eventId];
    var event := ReplayEvent(m.service, letter, freshKey);
    var e := Prepared(event, d.freshId, d.start);
    ReplayedEvent(m.service, letter, freshKey, d);
    NewKeyUnsigned(cfg, stored, e);
    SameEntry(cfg, m.service, letter, actor, begin, e);
    if !Enter(cfg, m.service, e).Admitted? {
      NotKnown(cfg, BeginReplay(m.service, letter, actor, begin), m.registry.values, event, d);
    }
  }

  lemma ReplayedEvent(s: Service, letter: string, freshKey: string, d: Draw)
    requires letter in s.letters && s.letters[letter].eventId in s.events && s.events[s.letters[letter].eventId].id != ""
    ensures var stored := s.events[s.letters[letter].eventId];
            var e := Prepared(ReplayEvent(s, letter, freshKey), d.freshId, d.start);
            && e.id == stored.id && e.contract == stored.contract && e.key == freshKey && e.signature == stored.signature
            && KeyOf(e) == SeenKey(stored.tenant, freshKey)
  {
  }

  lemma NewKeyUnsigned(cfg: Config, stored: Event, e: Event)
    requires Signed(cfg, stored) && CodesApart(cfg.host)
    requires e.id == stored.id && e.contract == stored.contract && e.signature == stored.signature && e.key != stored.key
    ensures !Signed(cfg, e)
  {
    var front := e.id + "|" + e.contract + "|";
    assert (front + e.key)[|front|..] == e.key && (front + stored.key)[|front|..] == stored.key;
  }

  lemma NotKnown(cfg: Config, s: Service, values: Registry.Store, event: Event, d: Draw)
    requires KeyOf(Prepared(event, d.freshId, d.start)) !in s.seen
    requires !Enter(cfg, s, Prepared(event, d.freshId, d.start)).Admitted?
    ensures !AcceptedAnswer(Answer(cfg, s, values, event, d))
  {
    hide KeyOf;
  }
}
