/** Runs from the empty gateway in which something happens that one would not expect: for each, whatever the
    events, an explicit interleaving that the code allows. */
module Scenarios {
  import opened Values
  import opened Ingestion
  import opened DeadLetters
  import opened Machine
  import opened Services
  import Acceptance
  import Catalogs
  import Idempotency
  import Pagination
  import Readers
  import Registry
  import Replays
  import Schemas
  import Summaries
  import Text
  import Typecheck

  // ---------------------------------------------------------------- what a publish that is admitted does

  /** The tenant's quota has room for `n` more events, whenever they come. */
  predicate Room(cfg: Config, usage: map<string, Quota>, tenant: string, n: nat) {
    n <= cfg.maxQuota && (tenant in usage ==> usage[tenant].count + n <= cfg.maxQuota)
  }

  lemma EnterWithRoom(cfg: Config, s: Service, e: Event, n: nat)
    requires e.key != "" && KeyOf(e) !in s.seen && n > 0 && Room(cfg, s.usage, e.tenant, n)
    ensures Enter(cfg, s, e).Admitted? && Room(cfg, Enter(cfg, s, e).usage, e.tenant, n - 1)
  {
    hide KeyOf;
  }

  /** The publish finds room, a new key, and a new name for its letter. */
  predicate Welcome(cfg: Config, s: Service, e: Event, d: Draw, n: nat) {
    e.key != "" && KeyOf(e) !in s.seen && n > 0 && Room(cfg, s.usage, e.tenant, n) && d.letterId !in s.letters
  }

  /** What the gateway has stored once the publish is done. */
  ghost predicate Stored(cfg: Config, s: Service, t: Service, e: Event, reasons: seq<string>, d: Draw, n: nat) {
    && t.events == s.events[e.id := e] && t.seen == s.seen[KeyOf(e) := NewReceipt(e, reasons, d.attemptId)] && t.policy == s.policy
    && t.attempts == s.attempts[e.id := AttemptsOf(s, e.id) + [NewAttempt(e, reasons, d.attemptId, d.at)]]
    && t.letters == (if reasons == [] then s.letters else s.letters[d.letterId := NewLetter(e, reasons[0], d.letterId, d.at)])
    && n > 0 && Room(cfg, t.usage, e.tenant, n - 1)
  }

  lemma PublishStores(cfg: Config, s: Service, values: Registry.Store, event: Event, d: Draw, n: nat)
    requires Welcome(cfg, s, Prepared(event, d.freshId, d.start), d, n)
    ensures var e := Prepared(event, d.freshId, d.start);
            var reasons := ReasonsOf(cfg, s, values, e, d);
            && Stored(cfg, s, Published(cfg, s, values, event, d), e, reasons, d, n)
            && Answer(cfg, s, values, event, d) == Ok(NewReceipt(e, reasons, d.attemptId))
  {
    hide Enter, KeyOf, ReasonsOf, Prepared, NewLetter, NewLineage, NewAttempt, Room;
    EnterWithRoom(cfg, s, Prepared(event, d.freshId, d.start), n);
  }

  /** Without a contract every event is refused. */
  lemma RefusedWithoutContract(cfg: Config, s: Service, e: Event, d: Draw)
    ensures ReasonsOf(cfg, s, map[], e, d) != []
  {
    hide Preliminary, Registry.Key;
  }

  lemma EntersFlight(cfg: Config, m: System, id: nat, event: Event, t: int, n: nat)
    requires var e := Prepared(event, event.id, t);
             id !in m.calls && event.id != "" && e.key != "" && KeyOf(e) !in m.service.seen && n > 0 && Room(cfg, m.service.usage, e.tenant, n)
    ensures var e := Prepared(event, event.id, t);
            var k := Step(cfg, m, ClientEnters(id, event, event.id, t));
            && k.calls == m.calls[id := Entered(Client, e)] && k.registry == m.registry
            && k.service == m.service.(usage := k.service.usage) && Room(cfg, k.service.usage, e.tenant, n - 1)
            && k.log == m.log + [Admission(e, Busy(m.calls, KeyOf(e)))]
  {
    hide Enter, KeyOf, Room, Busy, ReenterStep, BeginStep, LookStep, CheckStep, CommitStep, EndStep, RulesStep, Registry.Step, Prune;
    EnterWithRoom(cfg, m.service, Prepared(event, event.id, t), n);
  }

  // ---------------------------------------------------------------- one key committed twice

  /** Two publishes with one key enter before either commits. */
  function OverlapActions(e: Event, f: Event, d: Draw, g: Draw): seq<Action> {
    [ClientEnters(0, e, e.id, d.start)] + ([ClientEnters(1, f, f.id, g.start)] + (RestActions(1, g) + RestActions(0, d)))
  }

  predicate SameKey(e: Event, f: Event) {
    e.id != "" && f.id != "" && e.key != "" && e.tenant == f.tenant && e.key == f.key
  }

  lemma BothEnter(cfg: Config, e: Event, f: Event, t: int, u: int)
    requires cfg.maxQuota >= 2 && SameKey(e, f)
    ensures var m := Step(cfg, Step(cfg, START, ClientEnters(0, e, e.id, t)), ClientEnters(1, f, f.id, u));
            var e', f' := Prepared(e, e.id, t), Prepared(f, f.id, u);
            && m.calls == map[0 := Entered(Client, e'), 1 := Entered(Client, f')] && m.service == NEW.(usage := m.service.usage)
            && exists x, y :: m.log == [Admission(e', x), Admission(f', y)]
  {
    hide Step, KeyOf, Busy;
    EntersFlight(cfg, START, 0, e, t, 2);
    var m := Step(cfg, START, ClientEnters(0, e, e.id, t));
    EntersFlight(cfg, m, 1, f, u, 1);
    var e', f' := Prepared(e, e.id, t), Prepared(f, f.id, u);
    assert m.log == [Admission(e', Busy(map[], KeyOf(e')))];
    assert START.calls[0 := Entered(Client, e')] == map[0 := Entered(Client, e')];
  }

  lemma CommitStores(s: Service, e: Event, reasons: seq<string>, attemptId: string, letterId: string, now: int)
    ensures var t := Commit(s, e, reasons, attemptId, letterId, now);
            && t.events == s.events[e.id := e] && t.seen == s.seen[KeyOf(e) := NewReceipt(e, reasons, attemptId)]
            && (forall l | l in t.letters :: l in s.letters || l == letterId)
  {
    hide KeyOf, NewReceipt, NewLetter;
  }

  /** What two overlapping publishes with one key leave behind: both are committed, in the reverse order. */
  lemma OverlapOutcome(cfg: Config, e: Event, f: Event, d: Draw, g: Draw)
    requires cfg.maxQuota >= 2 && SameKey(e, f) && d.letterId != g.letterId
    ensures var n := Run(cfg, START, OverlapActions(e, f, d, g));
            var e', f' := Prepared(e, e.id, d.start), Prepared(f, f.id, g.start);
            && n.calls == map[] && n.service.events == map[f.id := f'][e.id := e']
            && (exists r: Receipt :: r.eventId == e.id && n.service.seen == map[KeyOf(e) := r])
            && (exists x, y :: n.log == [Admission(e', x), Admission(f', y), Commitment(f'), Commitment(e')])
  {
    hide Step, Run, RestActions, ReasonsOf, Commit, KeyOf;
    var e', f' := Prepared(e, e.id, d.start), Prepared(f, f.id, g.start);
    assert KeyOf(e') == KeyOf(f') == KeyOf(e) by { KeyOfPrepared(e, f, d.start, g.start); }
    var a, b := ClientEnters(0, e, e.id, d.start), ClientEnters(1, f, f.id, g.start);
    RunFirst(cfg, START, a, [b] + (RestActions(1, g) + RestActions(0, d)));
    RunFirst(cfg, Step(cfg, START, a), b, RestActions(1, g) + RestActions(0, d));
    BothEnter(cfg, e, f, d.start, g.start);
    var m := Step(cfg, Step(cfg, START, a), b);
    RunSplit(cfg, m, RestActions(1, g), RestActions(0, d));
    RestOfPublish(cfg, m, 1, Client, f', g);
    var k := Run(cfg, m, RestActions(1, g));
    CommitStores(m.service, f', ReasonsOf(cfg, m.service, m.registry.values, f', g), g.attemptId, g.letterId, g.at);
    assert k.calls == map[0 := Entered(Client, e')];
    RestOfPublish(cfg, k, 0, Client, e', d);
    var reasons := ReasonsOf(cfg, k.service, k.registry.values, e', d);
    CommitStores(k.service, e', reasons, d.attemptId, d.letterId, d.at);
    var n := Run(cfg, START, OverlapActions(e, f, d, g));
    assert n.service.seen == map[KeyOf(e) := NewReceipt(e', reasons, d.attemptId)];
    assert k.calls - {0} == map[];
  }

  lemma KeyOfPrepared(e: Event, f: Event, t: int, u: int)
    requires SameKey(e, f)
    ensures KeyOf(Prepared(e, e.id, t)) == KeyOf(e) == KeyOf(Prepared(f, f.id, u))
  {
  }

  /** Publishing is not idempotent: whatever the two events with one key, overlapping calls commit both. */
  lemma KeyCommitsTwice(cfg: Config, e: Event, f: Event, d: Draw, g: Draw)
    requires cfg.maxQuota >= 2 && SameKey(e, f) && d.letterId != g.letterId
    ensures Tally(Run(cfg, START, OverlapActions(e, f, d, g)).log, CommitmentOf(KeyOf(e))) == 2
  {
    hide Run, OverlapActions, KeyOf, Tally;
    OverlapOutcome(cfg, e, f, d, g);
    KeyOfPrepared(e, f, d.start, g.start);
    var log, key := Run(cfg, START, OverlapActions(e, f, d, g)).log, KeyOf(e);
    assert log == [] + [log[0]] + [log[1]] + [log[2]] + [log[3]];
    TallyMore([], log[0], CommitmentOf(key));
    TallyMore([] + [log[0]], log[1], CommitmentOf(key));
    TallyMore([] + [log[0]] + [log[1]], log[2], CommitmentOf(key));
    TallyMore([] + [log[0]] + [log[1]] + [log[2]], log[3], CommitmentOf(key));
    assert Tally([], CommitmentOf(key)) == 0 by { NoTally(CommitmentOf(key)); }
  }

  lemma NoTally(p: Entry -> bool)
    ensures Tally([], p) == 0
  {
  }

  /** If the two are different events, the one committed first stays stored without a receipt, so a summary no
      longer adds up. */
  lemma OverlapLosesReceipt(cfg: Config, e: Event, f: Event, d: Draw, g: Draw, s: Summaries.EventSummary)
    requires cfg.maxQuota >= 2 && SameKey(e, f) && d.letterId != g.letterId && e.id != f.id
    requires var t := Run(cfg, START, OverlapActions(e, f, d, g)).service;
             Summaries.Sums(s, Summaries.Selected(t.events, f.tenant, ""), t.events, t.seen)
    ensures var t := Run(cfg, START, OverlapActions(e, f, d, g)).service;
            && f.id in t.events && !Summaries.HasReceipt(t.seen, f.id)
            && s.accepted + s.deadLettered < s.total
  {
    hide Run, OverlapActions, KeyOf, Summaries.Counted, Summaries.Extremes;
    OverlapOutcome(cfg, e, f, d, g);
    var n := Run(cfg, START, OverlapActions(e, f, d, g));
    Summaries.RunReceiptsFinal(cfg, OverlapActions(e, f, d, g));
    assert f.id in Summaries.Selected(n.service.events, f.tenant, "");
  }

  // ---------------------------------------------------------------- a tenant answered with another's receipt

  /** Keys join tenant and idempotency key with a slash: after one tenant has published, another whose name is a
      part of the first one's is told that its own event, with a key made for it, is a duplicate of the other's, and
      nothing is stored of it. */
  lemma AnsweredWithAnothers(cfg: Config, e: Event, f: Event, rest: string, d: Draw, g: Draw)
    requires cfg.maxQuota >= 1 && e.key != "" && d.freshId != ""
    requires e.tenant == f.tenant + "/" + rest && f.key == rest + "/" + e.key
    ensures var m := Run(cfg, START, PublishActions(0, e, d));
            var r := Answer(cfg, m.service, m.registry.values, f, g);
            && e.tenant != f.tenant && r.Ok? && r.value.duplicate && r.value.eventId == Prepared(e, d.freshId, d.start).id
            && Published(cfg, m.service, m.registry.values, f, g) == m.service
  {
    assert |e.tenant| > |f.tenant| && |f.key| > 0;
    assert KeyOf(f) == KeyOf(e) by { Idempotency.SlashesCollide(f.tenant, rest, e.key); }
    KeyOfOne(e, d);
    KeyOfOne(f, g);
    hide Run, PublishActions, ReasonsOf, KeyOf;
    SerialPublish(cfg, START, 0, e, d);
    PublishStores(cfg, NEW, START.registry.values, e, d, 1);
    AnswerKnown(cfg, Run(cfg, START, PublishActions(0, e, d)).service, map[], f, g);
  }

  lemma AnswerKnown(cfg: Config, s: Service, values: Registry.Store, f: Event, g: Draw)
    requires f.key != "" && KeyOf(Prepared(f, g.freshId, g.start)) in s.seen
    ensures Answer(cfg, s, values, f, g) == Ok(s.seen[KeyOf(Prepared(f, g.freshId, g.start))].(duplicate := true))
    ensures Published(cfg, s, values, f, g) == s
  {
    hide KeyOf, ReasonsOf;
  }

  // ---------------------------------------------------------------- a letter that replays another tenant's event

  /** Two tenants publish under one event id. */
  function TakeoverActions(e: Event, f: Event, d: Draw, g: Draw): seq<Action> {
    PublishActions(0, e, d) + PublishActions(0, f, g)
  }

  /** Events are stored by id alone: after another tenant has published under the id, the letter of the first
      tenant replays the event of the second. */
  lemma ReplayTakesOver(cfg: Config, e: Event, f: Event, d: Draw, g: Draw, freshKey: string)
    requires cfg.maxQuota >= 1 && e.id != "" && e.id == f.id && e.tenant != f.tenant && KeyOf(e) != KeyOf(f)
    requires e.key != "" && f.key != "" && d.freshId != "" && g.freshId != "" && d.letterId != g.letterId
    ensures var s := Run(cfg, START, TakeoverActions(e, f, d, g)).service;
            && d.letterId in s.letters && CanReplay(s, d.letterId) && s.letters[d.letterId].tenant == e.tenant
            && ReplayEvent(s, d.letterId, freshKey) == Prepared(f, g.freshId, g.start).(key := freshKey)
            && !Replays.HoldsOwn(s, d.letterId)
  {
    hide Run, PublishActions, Published, ReasonsOf, KeyOf;
    RunSplit(cfg, START, PublishActions(0, e, d), PublishActions(0, f, g));
    SerialPublish(cfg, START, 0, e, d);
    var e', f' := Prepared(e, d.freshId, d.start), Prepared(f, g.freshId, g.start);
    assert KeyOf(e') == KeyOf(e) && KeyOf(f') == KeyOf(f) by { KeyOfOne(e, d); KeyOfOne(f, g); }
    PublishStores(cfg, NEW, map[], e, d, 1);
    RefusedWithoutContract(cfg, NEW, e', d);
    var m := Run(cfg, START, PublishActions(0, e, d));
    SerialPublish(cfg, m, 0, f, g);
    assert Room(cfg, m.service.usage, f.tenant, 1) by { OtherTenantHasRoom(cfg, e, f, d); }
    PublishStores(cfg, m.service, map[], f, g, 1);
  }

  lemma KeyOfOne(e: Event, d: Draw)
    ensures KeyOf(Prepared(e, d.freshId, d.start)) == KeyOf(e)
  {
  }

  lemma OtherTenantHasRoom(cfg: Config, e: Event, f: Event, d: Draw)
    requires cfg.maxQuota >= 1 && e.tenant != f.tenant
    ensures Room(cfg, Published(cfg, NEW, map[], e, d).usage, f.tenant, 1)
  {
    hide KeyOf, ReasonsOf, NewLetter, NewLineage, NewAttempt, NewReceipt, AttemptsOf;
  }

  // ---------------------------------------------------------------- an event that a reader never sees

  /** No filter at all. */
  const EVERYTHING := Pagination.Filter("", "", Pagination.AnyStatus, "", None, None, None, None, "")

  lemma EverythingMatches(e: Event)
    ensures Pagination.Matches(EVERYTHING, e, map[])
  {
  }

  /** One event enters first and commits last; two others are published in between, before the first page. */
  function LateParts(e: Event, f: Event, g: Event, t: int, de: Draw, df: Draw, dg: Draw): seq<seq<Action>> {
    [[ClientEnters(0, e, e.id, t)] + (PublishActions(1, f, df) + PublishActions(1, g, dg)), RestActions(0, de)]
  }

  /** Three events with ids and keys of their own, stamped one after the other. */
  predicate InOrder(e: Event, f: Event, g: Event, t: int, de: Draw, df: Draw, dg: Draw) {
    && e.id != "" && f.id != "" && g.id != "" && e.id != f.id && e.id != g.id && f.id != g.id
    && e.tenant == f.tenant == g.tenant && e.key != "" && f.key != "" && g.key != "" && KeyOf(f) != KeyOf(g)
    && df.freshId != "" && dg.freshId != "" && df.letterId != dg.letterId
    && de.letterId != df.letterId && de.letterId != dg.letterId && t < df.start < dg.start
  }

  /** The gateway when the first page is read: two events stored, one in flight. */
  lemma TwoStored(cfg: Config, e: Event, f: Event, g: Event, t: int, de: Draw, df: Draw, dg: Draw)
    requires cfg.maxQuota >= 3 && InOrder(e, f, g, t, de, df, dg)
    ensures var m := Run(cfg, START, LateParts(e, f, g, t, de, df, dg)[0]);
            && m.calls == map[0 := Entered(Client, Prepared(e, e.id, t))] && de.letterId !in m.service.letters
            && m.service.events == map[f.id := Prepared(f, df.freshId, df.start), g.id := Prepared(g, dg.freshId, dg.start)]
  {
    hide Run, Step, PublishActions, Published, ReasonsOf, KeyOf, NewLetter;
    var a := ClientEnters(0, e, e.id, t);
    RunFirst(cfg, START, a, PublishActions(1, f, df) + PublishActions(1, g, dg));
    EntersFlight(cfg, START, 0, e, t, 3);
    var m := Step(cfg, START, a);
    assert m.calls == map[0 := Entered(Client, Prepared(e, e.id, t))];
    RunSplit(cfg, m, PublishActions(1, f, df), PublishActions(1, g, dg));
    KeyOfOne(f, df);
    KeyOfOne(g, dg);
    SerialPublish(cfg, m, 1, f, df);
    PublishStores(cfg, m.service, m.registry.values, f, df, 2);
    var k := Run(cfg, m, PublishActions(1, f, df));
    SerialPublish(cfg, k, 1, g, dg);
    PublishStores(cfg, k.service, k.registry.values, g, dg, 1);
  }

  lemma TwoListed(f: Event, g: Event)
    requires f.receivedAt < g.receivedAt && f.id != g.id
    ensures Pagination.IsListing([f, g], map[f.id := f, g.id := g], EVERYTHING, map[])
  {
    forall x
      ensures Pagination.Matches(EVERYTHING, x, map[])
    {
      EverythingMatches(x);
    }
    hide Pagination.Matches;
  }

  lemma ThreeListed(e: Event, f: Event, g: Event)
    requires e.receivedAt < f.receivedAt < g.receivedAt && e.id != f.id && e.id != g.id && f.id != g.id
    ensures Pagination.IsListing([e, f, g], map[f.id := f, g.id := g][e.id := e], EVERYTHING, map[])
  {
    forall x
      ensures Pagination.Matches(EVERYTHING, x, map[])
    {
      EverythingMatches(x);
    }
    hide Pagination.Matches;
  }

  /** A reader of single-event pages that goes on from [f, g] to [e, f, g]. */
  lemma PassedBy(e: Event, f: Event, g: Event)
    requires f.id != "" && e.id != f.id && e.id != g.id && f.id != g.id
    ensures Pagination.Walk([[f, g]], 1) == ([f], f.id)
    ensures Pagination.Walk([[f, g], [e, f, g]], 1) == ([f, g], "")
  {
    hide Pagination.CursorIndex;
    FirstPage(f, g);
    SecondPage(e, f, g);
    assert [[f, g], [e, f, g]] == [] + [[f, g]] + [[e, f, g]];
    hide Pagination.PageOf, Pagination.Walk;
    assert Pagination.Walk([], 1) == ([], "") by { NothingWalked(); }
    Pagination.WalkMore([], [f, g], 1);
    Pagination.WalkMore([] + [[f, g]], [e, f, g], 1);
    assert [] + [[f, g]] == [[f, g]];
    assert [] + [f] == [f] && [f] + [g] == [f, g];
  }

  lemma NothingWalked()
    ensures Pagination.Walk([], 1) == ([], "")
  {
  }

  lemma FirstPage(f: Event, g: Event)
    ensures Pagination.PageOf([f, g], 1, "") == Pagination.Page([f], f.id, 2, 1)
  {
    assert [f, g][0..1] == [f];
  }

  lemma SecondPage(e: Event, f: Event, g: Event)
    requires f.id != "" && e.id != f.id
    ensures Pagination.PageOf([e, f, g], 1, f.id) == Pagination.Page([g], "", 3, 1)
  {
    var items := [e, f, g];
    assert Pagination.FirstAfter(items, f.id, 1) == 2;
    assert Pagination.CursorIndex(items, f.id) == 2;
    assert items[2..3] == [g];
  }

  /** An event is stamped when its call begins and stored when it commits. If a reader asks for a page in
      between, the event lands ahead of it: the reader is told that it has seen everything, and never saw it. */
  lemma LateCommitMissed(cfg: Config, e: Event, f: Event, g: Event, t: int, de: Draw, df: Draw, dg: Draw)
    requires cfg.maxQuota >= 3 && InOrder(e, f, g, t, de, df, dg)
    ensures var parts := LateParts(e, f, g, t, de, df, dg);
            var e', f', g' := Prepared(e, e.id, t), Prepared(f, df.freshId, df.start), Prepared(g, dg.freshId, dg.start);
            var listings := [[f', g'], [e', f', g']];
            && Pagination.Session(Readers.Stores(cfg, parts), listings, [map[], map[]], EVERYTHING, 1)
            && Pagination.Walk(listings, 1) == ([f', g'], "") && !Pagination.ReadingAt(listings, 1, 1)
            && !Readers.Considerate(cfg, parts, listings, EVERYTHING, 1, 1)
  {
    hide Run, PublishActions, KeyOf, Readers.Stores, Readers.Considerate, Pagination.Session, Pagination.ReadingAt, Pagination.Walk;
    var parts := LateParts(e, f, g, t, de, df, dg);
    var e', f', g' := Prepared(e, e.id, t), Prepared(f, df.freshId, df.start), Prepared(g, dg.freshId, dg.start);
    LateStores(cfg, e, f, g, t, de, df, dg);
    MissedSession(e', f', g');
    if Readers.Considerate(cfg, parts, [[f', g'], [e', f', g']], EVERYTHING, 1, 1) {
      Readers.PagesFollowRun(cfg, parts, [[f', g'], [e', f', g']], [map[], map[]], EVERYTHING, 1, 1);
    }
  }

  lemma MissedSession(e: Event, f: Event, g: Event)
    requires e.receivedAt < f.receivedAt < g.receivedAt && f.id != "" && e.id != f.id && e.id != g.id && f.id != g.id
    ensures var stores := [map[f.id := f, g.id := g], map[f.id := f, g.id := g][e.id := e]];
            var listings := [[f, g], [e, f, g]];
            && Pagination.Session(stores, listings, [map[], map[]], EVERYTHING, 1)
            && Pagination.Walk(listings, 1) == ([f, g], "") && !Pagination.ReadingAt(listings, 1, 1)
  {
    hide Pagination.IsListing, Pagination.Walk;
    var stores := [map[f.id := f, g.id := g], map[f.id := f, g.id := g][e.id := e]];
    var listings := [[f, g], [e, f, g]];
    TwoListed(f, g);
    ThreeListed(e, f, g);
    PassedBy(e, f, g);
    assert listings[..1] == [[f, g]] && listings[..1 + 1] == listings;
    assert !([f, g] <= [e, f, g]) by {
      assert [f, g][0].id != [e, f, g][0].id;
    }
  }

  lemma LateStores(cfg: Config, e: Event, f: Event, g: Event, t: int, de: Draw, df: Draw, dg: Draw)
    requires cfg.maxQuota >= 3 && InOrder(e, f, g, t, de, df, dg)
    ensures var e', f', g' := Prepared(e, e.id, t), Prepared(f, df.freshId, df.start), Prepared(g, dg.freshId, dg.start);
            Readers.Stores(cfg, LateParts(e, f, g, t, de, df, dg)) ==
            [map[f'.id := f', g'.id := g'], map[f'.id := f', g'.id := g'][e'.id := e']]
  {
    hide Run, ReasonsOf, RestActions, PublishActions, Commit, KeyOf;
    var parts := LateParts(e, f, g, t, de, df, dg);
    var e' := Prepared(e, e.id, t);
    TwoStored(cfg, e, f, g, t, de, df, dg);
    var m := Run(cfg, START, parts[0]);
    RestOfPublish(cfg, m, 0, Client, e', de);
    CommitStores(m.service, e', ReasonsOf(cfg, m.service, m.registry.values, e', de), de.attemptId, de.letterId, de.at);
    Readers.AfterNext(cfg, parts, 0);
    Readers.AfterNext(cfg, parts, 1);
    assert parts[..0] == [] && parts[..0 + 1] == parts[..1] && parts[..1 + 1] == parts;
    assert Readers.After(cfg, []) == START;
  }

  // ---------------------------------------------------------------- a poisoned letter that comes back

  /** Changes of contracts as steps of the gateway. */
  function Moves(moves: seq<Registry.Action>): (r: seq<Action>)
    ensures |r| == |moves|
  {
    seq(|moves|, i requires 0 <= i < |moves| => ChangesContracts(moves[i]))
  }

  lemma {:induction false} MovesRun(cfg: Config, m: System, moves: seq<Registry.Action>)
    ensures Run(cfg, m, Moves(moves)) == m.(registry := Registry.Run(cfg.host, m.registry, moves))
    decreases |moves|
  {
    if moves != [] {
      var a := ChangesContracts(moves[0]);
      assert Moves(moves) == [a] + Moves(moves[1..]);
      RunFirst(cfg, m, a, Moves(moves[1..]));
      assert Step(cfg, m, a).registry == Registry.Step(cfg.host, m.registry, moves[0]);
      hide Registry.Step, Step;
      MovesRun(cfg, Step(cfg, m, a), moves[1..]);
    }
  }

  /** The clock stands still, and attempt and letter get one name. */
  function Take(e: Event, t: int, name: string): Draw {
    Draw(e.id, t, t, t, name, name, t)
  }

  /** The plot: an event is dead-lettered because its contract does not exist; three replays of the letter
      begin; the first is checked before the contract is published and fails, the second after it and
      succeeds; the first ends first. */
  datatype Plot = Plot(e: Event, schema: Schemas.Schema, t: int, letters: seq<string>, keys: seq<string>)

  ghost predicate GoodPlot(cfg: Config, p: Plot) {
    && cfg.secret == "" && cfg.maxQuota >= 3
    && p.e.id != "" && p.e.tenant != "" && p.e.contract != "" && p.e.schemaVersion == 1 && p.e.occurredAt.None?
    && |p.e.payload| != 0 && Schemas.ValidSchema(p.schema)
    && Typecheck.Valid(cfg.host, p.e.payload, Schemas.Canonical(p.schema).fields)
    && |p.letters| == 3 && (forall i, j | 0 <= i < j < 3 :: p.letters[i] != p.letters[j])
    && |p.keys| == 4 && p.keys[0] == p.e.key && (forall i | 0 <= i < 4 :: p.keys[i] != "")
    && (forall i, j | 0 <= i < j < 4 :: p.keys[i] != p.keys[j])
  }

  /** The event as it is stored, and as a replay publishes it. */
  function Sent(p: Plot, i: nat): Event
    requires i < |p.keys|
  {
    p.e.(occurredAt := Some(p.t), receivedAt := p.t, key := p.keys[i])
  }

  lemma DifferentKeys(tenant: string, k: string, l: string)
    requires k != l
    ensures SeenKey(tenant, k) != SeenKey(tenant, l)
  {
    assert SeenKey(tenant, k)[|tenant| + 1..] == k && SeenKey(tenant, l)[|tenant| + 1..] == l;
  }

  lemma SentKeys(cfg: Config, p: Plot, i: nat, j: nat)
    requires GoodPlot(cfg, p) && i < 4 && j < 4
    ensures KeyOf(Sent(p, i)) == KeyOf(Sent(p, j)) <==> i == j
  {
    if i < j {
      DifferentKeys(p.e.tenant, p.keys[i], p.keys[j]);
    } else if j < i {
      DifferentKeys(p.e.tenant, p.keys[j], p.keys[i]);
    }
  }

  /** Where the plot stands after the event was sent `last` times again: what is stored, how much quota is left,
      and the letter. */
  ghost predicate Scene(cfg: Config, p: Plot, s: Service, last: nat, left: nat, l: Letter) {
    && last < |p.keys| && |p.letters| == 3 && s.events == map[p.e.id := Sent(p, last)] && s.policy == Catalogs.EMPTY
    && (forall i | 0 <= i < |p.keys| :: KeyOf(Sent(p, i)) in s.seen <==> i <= last)
    && (forall i | last < i < 3 :: p.letters[i] !in s.letters)
    && Room(cfg, s.usage, p.e.tenant, left)
    && p.letters[0] in s.letters && s.letters[p.letters[0]] == l && l.eventId == p.e.id
  }

  function Origin0(p: Plot): Origin
    requires |p.letters| == 3
  {
    ReplayOf(p.letters[0], "")
  }

  lemma {:induction false} FirstAct(cfg: Config, p: Plot)
    requires GoodPlot(cfg, p)
    ensures var m := Run(cfg, START, PublishActions(0, p.e, Take(p.e, p.t, p.letters[0])));
            && m.calls == map[] && m.registry == Registry.INITIAL
            && exists l :: Scene(cfg, p, m.service, 0, 2, l) && l.state == Pending && l.attempts == 0 && l.maxAttempts == 3
  {
    hide Run, PublishActions, Published, ReasonsOf, KeyOf, Typecheck.Valid, Schemas.ValidSchema, Schemas.Canonical, Answer;
    var d := Take(p.e, p.t, p.letters[0]);
    assert Prepared(p.e, d.freshId, d.start) == Sent(p, 0);
    SerialPublish(cfg, START, 0, p.e, d);
    PublishStores(cfg, NEW, map[], p.e, d, 3);
    RefusedWithoutContract(cfg, NEW, Sent(p, 0), d);
    var s := Published(cfg, NEW, map[], p.e, d);
    var reasons := ReasonsOf(cfg, NEW, map[], Sent(p, 0), d);
    assert s.letters == map[p.letters[0] := NewLetter(Sent(p, 0), reasons[0], p.letters[0], p.t)];
    forall i | 0 <= i < 4
      ensures KeyOf(Sent(p, i)) in s.seen <==> i <= 0
    {
      SentKeys(cfg, p, i, 0);
      assert KeyOf(Sent(p, i)) in s.seen.Keys <==> KeyOf(Sent(p, i)) == KeyOf(Sent(p, 0));
    }
    hide Stored;
    assert Scene(cfg, p, s, 0, 2, NewLetter(Sent(p, 0), reasons[0], p.letters[0], p.t));
  }

  lemma ReplayBeginsIn(cfg: Config, p: Plot, m: System, i: nat, l: Letter)
    requires GoodPlot(cfg, p) && Scene(cfg, p, m.service, 0, 2, l) && CanBegin(l) && i !in m.calls && 0 < i < 4
    ensures var n := Step(cfg, m, ReplayBegins(i, p.letters[0], "", p.keys[i], p.t));
            && Scene(cfg, p, n.service, 0, 2, Begun(l, "", p.t)) && n.registry == m.registry
            && n.calls == m.calls[i := Waiting(Origin0(p), Sent(p, i))]
  {
    assert |p.keys| == 4;
    hide GoodPlot, KeyOf, Room, ClientStep, ReenterStep, LookStep, CheckStep, CommitStep, EndStep, RulesStep, Registry.Step, Prune;
    assert ReplayEvent(m.service, p.letters[0], p.keys[i]) == Sent(p, i);
    assert CanReplay(m.service, p.letters[0]);
    var t := BeginReplay(m.service, p.letters[0], "", p.t);
    assert Scene(cfg, p, t, 0, 2, Begun(l, "", p.t)) by { SceneBegun(cfg, p, m.service, l); }
    hide Scene, ReplayEvent, BeginReplay, CanReplay, Sent;
  }

  lemma SceneBegun(cfg: Config, p: Plot, s: Service, l: Letter)
    requires Scene(cfg, p, s, 0, 2, l)
    ensures Scene(cfg, p, BeginReplay(s, p.letters[0], "", p.t), 0, 2, Begun(l, "", p.t))
  {
    hide KeyOf, Room, Sent;
  }

  /** Three replays of the letter begin, which spends its budget. */
  lemma SecondAct(cfg: Config, p: Plot, m: System, l: Letter)
    requires GoodPlot(cfg, p) && Scene(cfg, p, m.service, 0, 2, l) && m.calls == map[]
    requires l.state == Pending && l.attempts == 0 && l.maxAttempts == 3
    ensures var n := Run(cfg, m, Beginnings(p));
            && n.registry == m.registry
            && (exists k :: Scene(cfg, p, n.service, 0, 2, k) && k.attempts == k.maxAttempts == 3)
            && n.calls == map[1 := Waiting(Origin0(p), Sent(p, 1)), 2 := Waiting(Origin0(p), Sent(p, 2)), 3 := Waiting(Origin0(p), Sent(p, 3))]
  {
    hide Run, Step, Scene;
    var a := Beginnings(p);
    Run3(cfg, m, a);
    ReplayBeginsIn(cfg, p, m, 1, l);
    ReplayBeginsIn(cfg, p, Step(cfg, m, a[0]), 2, Begun(l, "", p.t));
    ReplayBeginsIn(cfg, p, Step(cfg, Step(cfg, m, a[0]), a[1]), 3, Begun(Begun(l, "", p.t), "", p.t));
  }

  function Beginnings(p: Plot): seq<Action>
    requires |p.letters| == 3 && |p.keys| == 4
  {
    [ReplayBegins(1, p.letters[0], "", p.keys[1], p.t), ReplayBegins(2, p.letters[0], "", p.keys[2], p.t),
     ReplayBegins(3, p.letters[0], "", p.keys[3], p.t)]
  }

  function Middle(p: Plot, i: nat): seq<Action>
    requires i < |p.letters|
  {
    [ReplayEnters(i, p.e.id, p.t)] + RestActions(i, Take(p.e, p.t, p.letters[i]))
  }

  lemma {:induction false} ReplayRuns(cfg: Config, p: Plot, m: System, i: nat, l: Letter)
    requires GoodPlot(cfg, p) && 0 < i < 3 && Scene(cfg, p, m.service, i - 1, 3 - i, l)
    requires i in m.calls && m.calls[i] == Waiting(Origin0(p), Sent(p, i))
    ensures var n := Run(cfg, m, Middle(p, i));
            var reasons := ReasonsOf(cfg, m.service, m.registry.values, Sent(p, i), Take(p.e, p.t, p.letters[i]));
            && n.registry == m.registry && n.calls == m.calls[i := Finishing(Origin0(p), reasons == [])]
            && Scene(cfg, p, n.service, i, 2 - i, l)
  {
    hide Run, Published, ReasonsOf, KeyOf, Typecheck.Valid, Schemas.ValidSchema, Schemas.Canonical, Answer, RestActions, Room, NewLetter;
    var d := Take(p.e, p.t, p.letters[i]);
    var e := Sent(p, i);
    assert Prepared(e, d.freshId, d.start) == e;
    ReplayMiddle(cfg, m, i, p.letters[0], "", e, d);
    PublishStores(cfg, m.service, m.registry.values, e, d, 3 - i);
    var s := Published(cfg, m.service, m.registry.values, e, d);
    forall j | 0 <= j < 4
      ensures KeyOf(Sent(p, j)) in s.seen <==> j <= i
    {
      SentKeys(cfg, p, j, i);
      assert KeyOf(Sent(p, j)) in s.seen.Keys <==> KeyOf(Sent(p, j)) in m.service.seen.Keys || KeyOf(Sent(p, j)) == KeyOf(e);
    }
  }

  /** With the contract published, nothing speaks against the event. */
  lemma {:induction false} NowAccepted(cfg: Config, p: Plot, s: Service, values: Registry.Store, i: nat)
    requires GoodPlot(cfg, p) && i < 3 && s.policy == Catalogs.EMPTY
    requires Registry.HasPublished(values, Registry.Key(p.e.tenant, p.e.contract), p.schema)
    ensures ReasonsOf(cfg, s, values, Sent(p, i), Take(p.e, p.t, p.letters[i])) == []
  {
    hide Reasons, Typecheck.Valid, Schemas.ValidSchema, Schemas.Canonical, Registry.Key;
    var e := Sent(p, i);
    var c := values[Registry.Key(p.e.tenant, p.e.contract)];
    assert PublishedVersion(c, 1) == Some(c.versions[0]);
    NoReasonsIff(cfg, e, p.t, p.t, Some(c), []);
  }

  /** With the budget spent, the failure ends first and poisons the letter; the success ends next. */
  lemma LastAct(cfg: Config, m: System, letter: string, now: int)
    requires letter in m.service.letters && m.service.letters[letter].attempts == m.service.letters[letter].maxAttempts
    requires 1 in m.calls && 2 in m.calls
    requires m.calls[1] == Finishing(ReplayOf(letter, ""), false) && m.calls[2] == Finishing(ReplayOf(letter, ""), true)
    ensures var n := Step(cfg, m, ReplayEnds(1, now));
            var k := Step(cfg, n, ReplayEnds(2, now));
            && letter in n.service.letters && n.service.letters[letter].state == Poisoned
            && letter in k.service.letters && k.service.letters[letter].state == Replayed
  {
    hide ClientStep, ReenterStep, BeginStep, LookStep, CheckStep, CommitStep, RulesStep, Registry.Step, Prune;
  }

  /** The letter is poisoned after the run, and replayed after one more section of a replay. */
  ghost predicate Revives(cfg: Config, actions: seq<Action>, a: Action, letter: string) {
    var n := Run(cfg, START, actions);
    && letter in n.service.letters && n.service.letters[letter].state == Poisoned
    && letter in Step(cfg, n, a).service.letters && Step(cfg, n, a).service.letters[letter].state == Replayed
  }

  /** Poisoned is not final while a replay is in flight: for every schema and every payload valid for it there is
      a run of three overlapping replays in which the letter is poisoned and then replayed. */
  lemma {:induction false} OverlapRevives(cfg: Config, p: Plot)
    requires GoodPlot(cfg, p)
    ensures exists actions, a :: Revives(cfg, actions, a, p.letters[0])
  {
    hide Run, Step, Scene, PublishActions, ReasonsOf, Registry.Run, Registry.HasPublished, Middle, Beginnings;
    var first, begin := PublishActions(0, p.e, Take(p.e, p.t, p.letters[0])), Beginnings(p);
    FirstAct(cfg, p);
    var m1 := Run(cfg, START, first);
    var l :| Scene(cfg, p, m1.service, 0, 2, l) && l.state == Pending && l.attempts == 0 && l.maxAttempts == 3;
    SecondAct(cfg, p, m1, l);
    RunSplit(cfg, START, first, begin);
    var m2 := Run(cfg, m1, begin);
    var k :| Scene(cfg, p, m2.service, 0, 2, k) && k.attempts == k.maxAttempts == 3;
    ThirdAct(cfg, p, m2, k, first + begin);
  }

  /** The first replay fails, the contract is published, the second replay succeeds. */
  lemma {:induction false} ThirdAct(cfg: Config, p: Plot, m: System, l: Letter, before: seq<Action>)
    requires GoodPlot(cfg, p) && Run(cfg, START, before) == m && m.registry == Registry.INITIAL
    requires Scene(cfg, p, m.service, 0, 2, l) && l.attempts == l.maxAttempts
    requires 1 in m.calls && m.calls[1] == Waiting(Origin0(p), Sent(p, 1))
    requires 2 in m.calls && m.calls[2] == Waiting(Origin0(p), Sent(p, 2))
    ensures exists actions, a :: Revives(cfg, actions, a, p.letters[0])
  {
    hide Run, Step, ReasonsOf, Registry.Run, Middle, Scene, Registry.HasPublished, Registry.Key;
    RefusedWithoutContract(cfg, m.service, Sent(p, 1), Take(p.e, p.t, p.letters[1]));
    ReplayRuns(cfg, p, m, 1, l);
    var m3 := Run(cfg, m, Middle(p, 1));
    assert m3.calls[1] == Finishing(Origin0(p), false) && m3.calls[2] == m.calls[2];
    assert Text.Trim("n") != "" by { Text.TrimIdempotent("n"); }
    var moves := Registry.Publishable(cfg.host, p.e.tenant, p.e.contract, "n", p.schema, p.t);
    MovesRun(cfg, m3, moves);
    var m4 := Run(cfg, m3, Moves(moves));
    assert m4.service == m3.service && m4.calls == m3.calls;
    ScenePolicy(cfg, p, m4.service, 1, 1, l);
    NowAccepted(cfg, p, m4.service, m4.registry.values, 2);
    ReplayRuns(cfg, p, m4, 2, l);
    var m5 := Run(cfg, m4, Middle(p, 2));
    ScenePolicy(cfg, p, m5.service, 2, 0, l);
    LastAct(cfg, m5, p.letters[0], p.t);
    var all := before + Middle(p, 1) + Moves(moves) + Middle(p, 2);
    RunSplit(cfg, START, before, Middle(p, 1));
    RunSplit(cfg, START, before + Middle(p, 1), Moves(moves));
    RunSplit(cfg, START, before + Middle(p, 1) + Moves(moves), Middle(p, 2));
    RunMore(cfg, START, all, ReplayEnds(1, p.t));
    assert Revives(cfg, all + [ReplayEnds(1, p.t)], ReplayEnds(2, p.t), p.letters[0]);
  }

  lemma ScenePolicy(cfg: Config, p: Plot, s: Service, last: nat, left: nat, l: Letter)
    requires Scene(cfg, p, s, last, left, l)
    ensures s.policy == Catalogs.EMPTY && p.letters[0] in s.letters && s.letters[p.letters[0]] == l
  {
  }

  // ---------------------------------------------------------------- an accepted event whose version is withdrawn

  /** An event is accepted against a version that a stale save then takes back to a draft. */
  function RevokingActions(p: Plot): seq<Action>
    requires |p.letters| == 3
  {
    Moves(Registry.BeforeActions(p.e.tenant, p.e.contract, "n", p.schema, p.t))
    + PublishActions(0, p.e, Take(p.e, p.t, p.letters[0])) + Moves(Registry.AfterActions(p.schema, p.t))
  }

  /** Why an accepted event is valid for good only without stale saves: with one, for every schema and payload
      valid for it, the version an accepted event names can stop being published. */
  lemma {:induction false} StaleSaveRevokes(cfg: Config, p: Plot)
    requires GoodPlot(cfg, p) && Schemas.TrimmedApart(p.schema.fields)
    ensures var n := Run(cfg, START, RevokingActions(p));
            && p.e.id in n.service.events && Acceptance.LastAccepted(n.service, p.e.id)
            && !Acceptance.Holds(cfg.host, n.registry.values, n.service.events[p.e.id])
  {
    hide Run, ReasonsOf, Registry.Run, PublishActions, Moves, Registry.BeforeActions, Registry.AfterActions, Registry.Key,
      Typecheck.Valid, Schemas.ValidSchema, Schemas.TrimmedApart, Schemas.Canonical, Registry.HasPublished, Published;
    var before := Registry.BeforeActions(p.e.tenant, p.e.contract, "n", p.schema, p.t);
    var after := Registry.AfterActions(p.schema, p.t);
    var d := Take(p.e, p.t, p.letters[0]);
    assert Text.Trim("n") != "" by { Text.TrimIdempotent("n"); }
    Registry.PublicationRevoked(cfg.host, p.e.tenant, p.e.contract, "n", p.schema, p.t);
    MovesRun(cfg, START, before);
    var m1 := Run(cfg, START, Moves(before));
    assert m1.service == NEW && m1.calls == map[];
    RunSplit(cfg, START, Moves(before), PublishActions(0, p.e, d));
    SerialPublish(cfg, m1, 0, p.e, d);
    AcceptedAlone(cfg, p, m1.registry.values);
    var m2 := Run(cfg, m1, PublishActions(0, p.e, d));
    RunSplit(cfg, START, Moves(before) + PublishActions(0, p.e, d), Moves(after));
    MovesRun(cfg, m2, after);
    var n := Run(cfg, m2, Moves(after));
    assert n.registry == Registry.Run(cfg.host, m1.registry, after) && n.service == m2.service;
    DraftHoldsNothing(cfg, n.registry.values, Sent(p, 0));
  }

  lemma AcceptedAlone(cfg: Config, p: Plot, values: Registry.Store)
    requires GoodPlot(cfg, p) && Registry.HasPublished(values, Registry.Key(p.e.tenant, p.e.contract), p.schema)
    ensures var s := Published(cfg, NEW, values, p.e, Take(p.e, p.t, p.letters[0]));
            s.events == map[p.e.id := Sent(p, 0)] && Acceptance.LastAccepted(s, p.e.id)
  {
    hide ReasonsOf, Registry.Key, Typecheck.Valid, Schemas.ValidSchema, Schemas.Canonical, Registry.HasPublished, Published, KeyOf,
      NewLetter;
    var d := Take(p.e, p.t, p.letters[0]);
    assert Prepared(p.e, d.freshId, d.start) == Sent(p, 0);
    NowAccepted(cfg, p, NEW, values, 0);
    PublishStores(cfg, NEW, values, p.e, d, 3);
  }

  lemma DraftHoldsNothing(cfg: Config, values: Registry.Store, e: Event)
    requires e.schemaVersion == 1 && Registry.HasDraft(values, Registry.Key(e.tenant, e.contract))
    ensures !Acceptance.Holds(cfg.host, values, e)
  {
    hide Registry.Key;
  }
}
