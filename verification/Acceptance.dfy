/** An accepted event is valid against the version it names, for good. */
module Acceptance {
  import opened Values
  import opened Ingestion
  import opened Machine
  import Catalogs
  import Contracts
  import Registry
  import Rules

  // ---------------------------------------------------------------- validity survives evolution

  lemma {:induction false} FindNumbered(vs: seq<Contracts.Version>, first: int, number: int)
    requires forall i | 0 <= i < |vs| :: vs[i].number == first + i
    ensures Contracts.Find(vs, number) == if first <= number < first + |vs| then Some(number - first) else None
  {
    if vs != [] {
      FindNumbered(vs[1..], first + 1, number);
    }
  }

  lemma {:induction false} StillPublished(c: Contracts.Data, d: Contracts.Data, number: int)
    requires Contracts.Numbered(c) && Contracts.Numbered(d) && Contracts.Evolves(c, d)
    requires PublishedVersion(c, number).Some?
    ensures PublishedVersion(d, number) == PublishedVersion(c, number)
  {
    FindNumbered(c.versions, 1, number);
    FindNumbered(d.versions, 1, number);
  }

  /** The store has a contract against which the event is valid. */
  ghost predicate Holds(h: Host, values: Registry.Store, e: Event) {
    var k := Registry.Key(e.tenant, e.contract);
    k in values && ValidAgainst(h, e, values[k])
  }

  ghost predicate AllNumbered(values: Registry.Store) {
    forall k | k in values :: Contracts.Numbered(values[k])
  }

  lemma RegistryNumbers(s: Registry.State)
    requires Registry.Inv(s)
    ensures AllNumbered(s.values)
  {
    forall k | k in s.values
      ensures Contracts.Numbered(s.values[k])
    {
      assert Contracts.WellFormed(s.values[k]);
    }
  }

  lemma {:induction false} HoldsStays(h: Host, v: Registry.Store, w: Registry.Store, e: Event)
    requires Holds(h, v, e) && Registry.StoreEvolves(v, w) && AllNumbered(v) && AllNumbered(w)
    ensures Holds(h, w, e)
  {
    hide Contracts.Numbered, Contracts.Evolves, PublishedVersion, Registry.Key;
    var k := Registry.Key(e.tenant, e.contract);
    StillPublished(v[k], w[k], e.schemaVersion);
  }

  // ---------------------------------------------------------------- the invariant

  /** What a call may rely on. */
  ghost predicate GoodCall(h: Host, values: Registry.Store, c: Call) {
    match c
    case Looked(_, e, found) =>
      found.Some? ==>
        var k := Registry.Key(e.tenant, e.contract);
        k in values && Contracts.Numbered(found.value) && Contracts.Evolves(found.value, values[k])
    case Checked(_, e, reasons) => reasons == [] ==> Holds(h, values, e)
    case _ => true
  }

  predicate LastAccepted(s: Service, id: string) {
    AttemptsOf(s, id) != [] && AttemptsOf(s, id)[|AttemptsOf(s, id)| - 1].status == Accepted
  }

  ghost predicate Inv(cfg: Config, m: System) {
    && Registry.Inv(m.registry)
    && Catalogs.Refines(cfg.host, m.service.policy, m.rules)
    && (!m.registry.stale ==>
          && (forall i | i in m.calls :: GoodCall(cfg.host, m.registry.values, m.calls[i]))
          && (forall id | id in m.service.events && LastAccepted(m.service, id) ::
                Holds(cfg.host, m.registry.values, m.service.events[id])))
  }

  lemma LookGood(cfg: Config, m: System, id: nat)
    requires Inv(cfg, m)
    ensures Inv(cfg, LookStep(m, id))
  {
    hide Registry.Inv, Catalogs.Refines, Holds, Registry.Key, LastAccepted, Contracts.Numbered, Contracts.Evolves;
    RegistryNumbers(m.registry);
    if id in m.calls && m.calls[id].Entered? {
      var e := m.calls[id].event;
      var k := Registry.Key(e.tenant, e.contract);
      if k in m.registry.values {
        Registry.EvolvesItself(m.registry.values[k]);
      }
    }
  }

  lemma CheckHolds(cfg: Config, values: Registry.Store, e: Event, found: Option<Contracts.Data>, rules: seq<Rules.Rule>, now: int, later: int)
    requires AllNumbered(values)
    requires GoodCall(cfg.host, values, Looked(Client, e, found))
    requires Reasons(cfg, e, now, later, found, rules) == []
    ensures Holds(cfg.host, values, e)
  {
    hide Contracts.Numbered, Contracts.Evolves, PublishedVersion, Registry.Key, Reasons;
    NoReasonsIff(cfg, e, now, later, found, rules);
    var k := Registry.Key(e.tenant, e.contract);
    StillPublished(found.value, values[k], e.schemaVersion);
  }

  lemma CheckGood(cfg: Config, m: System, id: nat, now: int, later: int)
    requires Inv(cfg, m)
    ensures Inv(cfg, CheckStep(cfg, m, id, now, later))
  {
    hide Registry.Inv, Catalogs.Refines, Holds, LastAccepted, Reasons, Contracts.Numbered, Contracts.Evolves, Registry.Key, AllNumbered;
    RegistryNumbers(m.registry);
    if id in m.calls && m.calls[id].Looked? && !m.registry.stale {
      var c := m.calls[id];
      var rules := Catalogs.Live(m.service.policy, c.event.contract);
      assert GoodCall(cfg.host, m.registry.values, c);
      if Reasons(cfg, c.event, now, later, c.found, rules) == [] {
        CheckHolds(cfg, m.registry.values, c.event, c.found, rules, now, later);
      }
    }
  }

  lemma CommitGood(cfg: Config, m: System, id: nat, attemptId: string, letterId: string, now: int)
    requires Inv(cfg, m)
    ensures Inv(cfg, CommitStep(m, id, attemptId, letterId, now))
  {
    hide Registry.Inv, Catalogs.Refines, Holds, Registry.Key, KeyOf, NewLetter, NewLineage, NewReceipt,
      Contracts.Numbered, Contracts.Evolves;
    var n := CommitStep(m, id, attemptId, letterId, now);
    if n != m && !m.registry.stale {
      var c := m.calls[id];
      assert GoodCall(cfg.host, m.registry.values, c);
      forall x | x in n.service.events && LastAccepted(n.service, x)
        ensures Holds(cfg.host, n.registry.values, n.service.events[x])
      {
        if x == c.event.id {
          var all := AttemptsOf(n.service, x);
          assert all[|all| - 1] == NewAttempt(c.event, c.reasons, attemptId, now);
        } else {
          assert AttemptsOf(n.service, x) == AttemptsOf(m.service, x);
          assert LastAccepted(m.service, x);
        }
      }
    }
  }

  /** Entering, beginning, ending and pruning look at neither contracts nor verdicts: they leave no call
      that did. */
  ghost predicate OldFindings(m: System, n: System) {
    forall i | i in n.calls && (n.calls[i].Looked? || n.calls[i].Checked?) :: i in m.calls && n.calls[i] == m.calls[i]
  }

  predicate Enters(a: Action) {
    a.ClientEnters? || a.ReplayEnters?
  }

  predicate Replays(a: Action) {
    a.ReplayBegins? || a.ReplayEnds? || a.Prunes?
  }

  lemma EntryFindings(cfg: Config, m: System, a: Action)
    requires Enters(a)
    ensures OldFindings(m, Step(cfg, m, a))
  {
    hide KeyOf, Enter, Prepared, Busy;
  }

  lemma ReplayFindings(cfg: Config, m: System, a: Action)
    requires Replays(a)
    ensures OldFindings(m, Step(cfg, m, a))
  {
    hide ReplayEvent, CanReplay, BeginReplay, FinishReplay, Prune;
  }

  lemma OtherGood(cfg: Config, m: System, a: Action)
    requires Inv(cfg, m) && (Enters(a) || Replays(a))
    ensures Inv(cfg, Step(cfg, m, a))
  {
    hide Registry.Inv, Catalogs.Refines, Holds, Registry.Key, Step, Contracts.Numbered, Contracts.Evolves;
    var n := Step(cfg, m, a);
    StepFrame(cfg, m, a);
    if Enters(a) {
      EntryFindings(cfg, m, a);
    } else {
      ReplayFindings(cfg, m, a);
    }
    forall id | LastAccepted(n.service, id)
      ensures LastAccepted(m.service, id)
    {
      assert AttemptsOf(n.service, id) == AttemptsOf(m.service, id);
    }
  }

  lemma RegistryGood(cfg: Config, m: System, move: Registry.Action)
    requires Inv(cfg, m)
    ensures Inv(cfg, Step(cfg, m, ChangesContracts(move)))
  {
    hide Registry.Step, Catalogs.Refines;
    var t := Registry.Step(cfg.host, m.registry, move);
    Registry.StepInv(cfg.host, m.registry, move);
    RegistryNumbers(m.registry);
    RegistryNumbers(t);
    if !t.stale {
      Registry.StepEvolves(cfg.host, m.registry, move);
      hide Registry.Inv, AllNumbered, Holds, LastAccepted, Contracts.Numbered, Contracts.Evolves, Registry.Key;
      forall i | i in m.calls
        ensures GoodCall(cfg.host, t.values, m.calls[i])
      {
        GoodCallStays(cfg.host, m.registry.values, t.values, m.calls[i]);
      }
      forall id | id in m.service.events && LastAccepted(m.service, id)
        ensures Holds(cfg.host, t.values, m.service.events[id])
      {
        HoldsStays(cfg.host, m.registry.values, t.values, m.service.events[id]);
      }
    }
  }

  lemma GoodCallStays(h: Host, v: Registry.Store, w: Registry.Store, c: Call)
    requires GoodCall(h, v, c) && Registry.StoreEvolves(v, w) && AllNumbered(v) && AllNumbered(w)
    ensures GoodCall(h, w, c)
  {
    hide Holds, Contracts.Numbered, Contracts.Evolves, Registry.Key, AllNumbered;
    match c
    case Looked(_, e, found) =>
      if found.Some? {
        var k := Registry.Key(e.tenant, e.contract);
        Contracts.EvolvesTransitive(found.value, v[k], w[k]);
      }
    case Checked(_, e, reasons) =>
      if reasons == [] {
        HoldsStays(h, v, w, e);
      }
    case _ =>
  }

  lemma RulesGood(cfg: Config, m: System, change: Catalogs.Action)
    requires Inv(cfg, m)
    ensures Inv(cfg, RulesStep(cfg, m, change))
  {
    hide Registry.Inv, Catalogs.Refines, GoodCall, Holds, Catalogs.Act, Catalogs.Record;
    Catalogs.ActRefines(cfg.host, m.service.policy, m.rules, change);
    var n := RulesStep(cfg, m, change);
    forall id | LastAccepted(n.service, id)
      ensures LastAccepted(m.service, id)
    {
      assert AttemptsOf(n.service, id) == AttemptsOf(m.service, id);
    }
  }

  lemma StepInv(cfg: Config, m: System, a: Action)
    requires Inv(cfg, m)
    ensures Inv(cfg, Step(cfg, m, a))
  {
    match a
    case LooksUp(id) => LookGood(cfg, m, id);
    case Checks(id, now, later) => CheckGood(cfg, m, id, now, later);
    case Commits(id, attemptId, letterId, now) => CommitGood(cfg, m, id, attemptId, letterId, now);
    case ChangesRules(change) => RulesGood(cfg, m, change);
    case ChangesContracts(move) => RegistryGood(cfg, m, move);
    case _ => OtherGood(cfg, m, a);
  }

  lemma StartInv(cfg: Config)
    ensures Inv(cfg, START)
  {
    Catalogs.EmptyRefines(cfg.host);
  }

  lemma {:induction false} RunInv(cfg: Config, m: System, actions: seq<Action>)
    requires Inv(cfg, m)
    ensures Inv(cfg, Run(cfg, m, actions))
    decreases |actions|
  {
    if actions != [] {
      StepInv(cfg, m, actions[0]);
      hide Step, Inv;
      RunInv(cfg, Step(cfg, m, actions[0]), actions[1..]);
    }
  }

  /** In every interleaving without a stale save of a contract, an event whose last attempt was accepted
      has a payload without issue against the version it names, and that version is published. */
  lemma AcceptedMeansValid(cfg: Config, actions: seq<Action>, id: string)
    requires var n := Run(cfg, START, actions);
             !n.registry.stale && id in n.service.events && LastAccepted(n.service, id)
    ensures var n := Run(cfg, START, actions);
            Holds(cfg.host, n.registry.values, n.service.events[id])
  {
    hide Run;
    StartInv(cfg);
    RunInv(cfg, START, actions);
  }

  lemma StaleStep(cfg: Config, m: System, a: Action)
    requires Inv(cfg, m) && !Step(cfg, m, a).registry.stale
    ensures !m.registry.stale && Registry.StoreEvolves(m.registry.values, Step(cfg, m, a).registry.values)
  {
    hide Step, Inv, Contracts.Evolves;
    if a.ChangesContracts? {
      ContractsStep(cfg, m, a.move);
    } else {
      RegistryKept(cfg, m, a);
      forall k | k in m.registry.values
        ensures Contracts.Evolves(m.registry.values[k], m.registry.values[k])
      {
        Registry.EvolvesItself(m.registry.values[k]);
      }
    }
  }

  lemma ContractsStep(cfg: Config, m: System, move: Registry.Action)
    requires Inv(cfg, m) && !Step(cfg, m, ChangesContracts(move)).registry.stale
    ensures !m.registry.stale
    ensures Registry.StoreEvolves(m.registry.values, Step(cfg, m, ChangesContracts(move)).registry.values)
  {
    hide Registry.Step, Registry.Inv, Registry.StoreEvolves;
    Registry.StepEvolves(cfg.host, m.registry, move);
  }

  lemma RegistryKept(cfg: Config, m: System, a: Action)
    requires !a.ChangesContracts?
    ensures Step(cfg, m, a).registry == m.registry
  {
    if a.Commits? {
      hide Commit, KeyOf;
    } else {
      StepFrame(cfg, m, a);
    }
  }

  lemma {:induction false} StoresEvolve(cfg: Config, m: System, actions: seq<Action>)
    requires Inv(cfg, m) && !Run(cfg, m, actions).registry.stale
    ensures !m.registry.stale && Registry.StoreEvolves(m.registry.values, Run(cfg, m, actions).registry.values)
    decreases |actions|
  {
    hide Contracts.Evolves;
    if actions == [] {
      forall k | k in m.registry.values
        ensures Contracts.Evolves(m.registry.values[k], m.registry.values[k])
      {
        Registry.EvolvesItself(m.registry.values[k]);
      }
    } else {
      var n := Step(cfg, m, actions[0]);
      StepInv(cfg, m, actions[0]);
      hide Step, Inv;
      StoresEvolve(cfg, n, actions[1..]);
      StaleStep(cfg, m, actions[0]);
      Registry.StoreEvolvesTransitive(m.registry.values, n.registry.values, Run(cfg, n, actions[1..]).registry.values);
    }
  }

  /** What an accepted event was valid against stays published, with the same schema, in every later
      state: the event as it was accepted is valid for good. */
  lemma AcceptedForGood(cfg: Config, m: System, actions: seq<Action>, id: string)
    requires Inv(cfg, m) && !Run(cfg, m, actions).registry.stale
    requires id in m.service.events && LastAccepted(m.service, id)
    ensures Holds(cfg.host, Run(cfg, m, actions).registry.values, m.service.events[id])
  {
    hide Run, Holds, AllNumbered;
    StoresEvolve(cfg, m, actions);
    RunInv(cfg, m, actions);
    RegistryNumbers(m.registry);
    RegistryNumbers(Run(cfg, m, actions).registry);
    HoldsStays(cfg.host, m.registry.values, Run(cfg, m, actions).registry.values, m.service.events[id]);
  }

  /** In every run the catalogue refines the history of accepted rule lists, an active set is the live one, and no
      live rule panics. */
  lemma RulesAlwaysAgree(cfg: Config, actions: seq<Action>, contract: string)
    ensures var n := Run(cfg, START, actions);
            && Catalogs.Agrees(cfg.host, n.service.policy, n.rules, contract)
            && (var active := Catalogs.FirstActive(Catalogs.Items(n.service.policy.catalogue, contract));
                active.Some? ==> active.value.rules == Catalogs.Live(n.service.policy, contract))
            && (forall r | r in Catalogs.Live(n.service.policy, contract) :: r.id != "" && r.field != "" && !r.op.OtherOp?)
            && forall r, p | r in Catalogs.Live(n.service.policy, contract) ::
                 Rules.Execute(cfg.host, r, p) != Rules.Panic
  {
    hide Run;
    StartInv(cfg);
    RunInv(cfg, START, actions);
    var n := Run(cfg, START, actions);
    assert Catalogs.Agrees(cfg.host, n.service.policy, n.rules, contract);
    if Catalogs.FirstActive(Catalogs.Items(n.service.policy.catalogue, contract)).Some? {
      Catalogs.ActiveIsLive(cfg.host, n.service.policy, n.rules, contract);
    }
    forall r, p | r in Catalogs.Live(n.service.policy, contract)
      ensures Rules.Execute(cfg.host, r, p) != Rules.Panic
    {
      Catalogs.LiveNeverPanics(cfg.host, n.service.policy, n.rules, contract, r, p);
    }
  }

  /** The number of the rule list that the calls of a run have made live for a contract. */
  function NamedAfter(cfg: Config, m: System, actions: seq<Action>, contract: string, named: nat): nat
    decreases |actions|
  {
    if actions == [] then named
    else
      var a := actions[0];
      var now := if a.ChangesRules? then Catalogs.Names(cfg.host, m.service.policy, m.rules, a.change, contract, named) else named;
      NamedAfter(cfg, Step(cfg, m, a), actions[1..], contract, now)
  }

  lemma PolicyKept(cfg: Config, m: System, a: Action)
    requires !a.ChangesRules?
    ensures Step(cfg, m, a).service.policy == m.service.policy && Step(cfg, m, a).rules == m.rules
  {
    if a.Commits? {
      hide Commit, KeyOf;
    } else {
      StepFrame(cfg, m, a);
    }
  }

  lemma {:induction false} NamedRun(cfg: Config, m: System, actions: seq<Action>, contract: string, named: nat)
    requires Inv(cfg, m) && Catalogs.LiveNamed(m.service.policy, m.rules, contract, named)
    ensures var n := Run(cfg, m, actions);
            Catalogs.LiveNamed(n.service.policy, n.rules, contract, NamedAfter(cfg, m, actions, contract, named))
    decreases |actions|
  {
    hide Inv, Step, Catalogs.LiveNamed, Catalogs.Names;
    if actions != [] {
      var a := actions[0];
      var n := Step(cfg, m, a);
      if a.ChangesRules? {
        RulesNamed(cfg, m, a.change, contract, named);
      } else {
        PolicyKept(cfg, m, a);
      }
      StepInv(cfg, m, a);
      var now := if a.ChangesRules? then Catalogs.Names(cfg.host, m.service.policy, m.rules, a.change, contract, named) else named;
      NamedRun(cfg, n, actions[1..], contract, now);
    }
  }

  lemma {:induction false} RulesNamed(cfg: Config, m: System, change: Catalogs.Action, contract: string, named: nat)
    requires Inv(cfg, m) && Catalogs.LiveNamed(m.service.policy, m.rules, contract, named)
    ensures var n := Step(cfg, m, ChangesRules(change));
            Catalogs.LiveNamed(n.service.policy, n.rules, contract,
                               Catalogs.Names(cfg.host, m.service.policy, m.rules, change, contract, named))
  {
    assert Catalogs.Agrees(cfg.host, m.service.policy, m.rules, contract);
    hide Inv, Catalogs.LiveNamed, Catalogs.Names, Catalogs.Act, Catalogs.Record, Catalogs.Agrees;
    Catalogs.NamesStep(cfg.host, m.service.policy, m.rules, change, contract, named);
  }

  /** In every interleaving the live rules of a contract are the list last set for it or, if a kept version of it was
      activated since, the list of that version; activations that fail do not move them. No other version is
      active. */
  lemma {:induction false} LiveRulesAreNamed(cfg: Config, actions: seq<Action>, contract: string)
    ensures var n := Run(cfg, START, actions);
            Catalogs.LiveNamed(n.service.policy, n.rules, contract, NamedAfter(cfg, START, actions, contract, 0))
  {
    hide Run, NamedAfter;
    StartInv(cfg);
    NamedRun(cfg, START, actions, contract, 0);
  }
}
