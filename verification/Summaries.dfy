/** The summary of a tenant's events (internal/ingestion/application/query.go) and when its counts add up. */
module Summaries {
  import opened Values
  import opened Ingestion
  import opened Machine
  import Conservation
  import Idempotency

  datatype EventSummary = EventSummary(
    total: nat, accepted: nat, deadLettered: nat, duplicate: nat, first: Option<int>, last: Option<int>)

  predicate Selects(tenant: string, contract: string, e: Event) {
    e.tenant == tenant && (contract != "" ==> e.contract == contract)
  }

  function Selected(events: map<string, Event>, tenant: string, contract: string): set<string> {
    set id | id in events && Selects(tenant, contract, events[id])
  }

  ghost predicate HasReceipt(seen: map<string, Receipt>, id: string) {
    exists k :: k in seen && seen[k].eventId == id
  }

  /** `receiptFor`: some receipt of the event, in whatever order receipts are visited. */
  method ReceiptFor(id: string, seen: map<string, Receipt>) returns (r: Option<Receipt>)
    ensures IsReceipt(r, seen, id)
  {
    var todo := seen.Keys;
    while todo != {}
      invariant forall k | k in seen && k !in todo :: seen[k].eventId != id
      invariant todo <= seen.Keys
      decreases |todo|
    {
      var k :| k in todo;
      if seen[k].eventId == id {
        return Some(seen[k]);
      }
      todo := todo - {k};
    }
    return None;
  }

  /** Stored receipts carry a final status and no duplicate flag. */
  ghost predicate FinalReceipts(seen: map<string, Receipt>) {
    forall k | k in seen :: seen[k].status in {Accepted, DeadLettered} && !seen[k].duplicate
  }

  /** `ids` is what has been summarised so far. */
  ghost predicate Sums(s: EventSummary, ids: set<string>, events: map<string, Event>, seen: map<string, Receipt>) {
    Totals(s, ids, seen) && Counted(s, ids, seen) && Extremes(s, ids, events)
  }

  ghost predicate Totals(s: EventSummary, ids: set<string>, seen: map<string, Receipt>) {
    && s.total == |ids|
    && (FinalReceipts(seen) ==> s.duplicate == 0)
    && (FinalReceipts(seen) && (forall id | id in ids :: HasReceipt(seen, id)) ==> s.accepted + s.deadLettered == s.total)
    && (FinalReceipts(seen) && (exists id :: id in ids && !HasReceipt(seen, id)) ==> s.accepted + s.deadLettered < s.total)
  }

  /** An event counts for a status if all its receipts have it, and only if one has. */
  ghost predicate Counted(s: EventSummary, ids: set<string>, seen: map<string, Receipt>) {
    && |Chosen(ids, Surely(seen, Accepted))| <= s.accepted <= |Chosen(ids, Possibly(seen, Accepted))|
    && |Chosen(ids, Surely(seen, DeadLettered))| <= s.deadLettered <= |Chosen(ids, Possibly(seen, DeadLettered))|
  }

  ghost predicate SomeReceipt(seen: map<string, Receipt>, id: string, status: Status) {
    exists k :: k in seen && seen[k].eventId == id && seen[k].status == status
  }

  ghost predicate EveryReceipt(seen: map<string, Receipt>, id: string, status: Status) {
    HasReceipt(seen, id) && forall k | k in seen && seen[k].eventId == id :: seen[k].status == status
  }

  ghost function Surely(seen: map<string, Receipt>, status: Status): string -> bool {
    (id: string) => EveryReceipt(seen, id, status)
  }

  ghost function Possibly(seen: map<string, Receipt>, status: Status): string -> bool {
    (id: string) => SomeReceipt(seen, id, status)
  }

  ghost function Chosen(ids: set<string>, p: string -> bool): set<string> {
    set id | id in ids && p(id)
  }

  lemma ChosenMore(ids: set<string>, id: string, p: string -> bool)
    requires id !in ids
    ensures |Chosen(ids + {id}, p)| == |Chosen(ids, p)| + One(p(id))
  {
    assert Chosen(ids + {id}, p) == if p(id) then Chosen(ids, p) + {id} else Chosen(ids, p);
  }

  /** The receipt is one of the event's, if it has any. */
  ghost predicate IsReceipt(r: Option<Receipt>, seen: map<string, Receipt>, id: string) {
    && (r.Some? <==> HasReceipt(seen, id))
    && (r.Some? ==> exists k :: k in seen && seen[k] == r.value && r.value.eventId == id)
  }

  lemma CountsFor(seen: map<string, Receipt>, id: string, status: Status, r: Option<Receipt>)
    requires IsReceipt(r, seen, id)
    ensures EveryReceipt(seen, id, status) ==> r.Some? && r.value.status == status
    ensures r.Some? && r.value.status == status ==> SomeReceipt(seen, id, status)
  {
  }

  lemma CountedExtend(s: EventSummary, ids: set<string>, id: string, e: Event, seen: map<string, Receipt>, r: Option<Receipt>)
    requires Counted(s, ids, seen) && id !in ids && IsReceipt(r, seen, id)
    ensures Counted(Extended(s, e, r), ids + {id}, seen)
  {
    hide IsReceipt, EveryReceipt, SomeReceipt, Chosen;
    CountsFor(seen, id, Accepted, r);
    CountsFor(seen, id, DeadLettered, r);
    ChosenMore(ids, id, Surely(seen, Accepted));
    ChosenMore(ids, id, Possibly(seen, Accepted));
    ChosenMore(ids, id, Surely(seen, DeadLettered));
    ChosenMore(ids, id, Possibly(seen, DeadLettered));
  }

  lemma TotalsExtend(s: EventSummary, ids: set<string>, id: string, e: Event, seen: map<string, Receipt>, r: Option<Receipt>)
    requires Totals(s, ids, seen) && id !in ids && IsReceipt(r, seen, id)
    ensures Totals(Extended(s, e, r), ids + {id}, seen)
  {
    hide HasReceipt;
    assert forall i :: i in ids + {id} <==> i in ids || i == id;
    assert |ids + {id}| == |ids| + 1;
  }

  ghost predicate Extremes(s: EventSummary, ids: set<string>, events: map<string, Event>) {
    && (s.first.None? <==> |ids| == 0) && (s.last.None? <==> |ids| == 0)
    && (forall id | id in ids :: id in events && s.first.Some? && s.last.Some?
                                 && s.first.value <= events[id].receivedAt <= s.last.value)
    && (s.first.Some? ==> exists id :: id in ids && id in events && events[id].receivedAt == s.first.value)
    && (s.last.Some? ==> exists id :: id in ids && id in events && events[id].receivedAt == s.last.value)
  }

  function Extended(s: EventSummary, e: Event, r: Option<Receipt>): EventSummary {
    var status := if r.Some? then Some(r.value.status) else None;
    EventSummary(
      s.total + 1,
      s.accepted + One(status == Some(Accepted)),
      s.deadLettered + One(status == Some(DeadLettered)),
      s.duplicate + One(r.Some? && r.value.duplicate),
      if s.first.None? || e.receivedAt < s.first.value then Some(e.receivedAt) else s.first,
      if s.last.None? || e.receivedAt > s.last.value then Some(e.receivedAt) else s.last)
  }

  lemma ExtremesExtend(s: EventSummary, ids: set<string>, id: string, events: map<string, Event>, r: Option<Receipt>)
    requires Extremes(s, ids, events) && id !in ids && id in events
    ensures Extremes(Extended(s, events[id], r), ids + {id}, events)
  {
    var t := Extended(s, events[id], r);
    assert t.first == s.first || t.first.value == events[id].receivedAt;
    assert t.last == s.last || t.last.value == events[id].receivedAt;
    if s.first.Some? {
      var i :| i in ids && i in events && events[i].receivedAt == s.first.value;
      assert i in ids + {id};
    }
    if s.last.Some? {
      var i :| i in ids && i in events && events[i].receivedAt == s.last.value;
      assert i in ids + {id};
    }
    assert id in ids + {id};
  }

  lemma SumsExtend(s: EventSummary, ids: set<string>, id: string, events: map<string, Event>, seen: map<string, Receipt>, r: Option<Receipt>)
    requires Sums(s, ids, events, seen) && id !in ids && id in events && IsReceipt(r, seen, id)
    ensures Sums(Extended(s, events[id], r), ids + {id}, events, seen)
  {
    hide Totals, Counted, Extremes, IsReceipt, Extended;
    TotalsExtend(s, ids, id, events[id], seen, r);
    CountedExtend(s, ids, id, events[id], seen, r);
    ExtremesExtend(s, ids, id, events, r);
  }

  /** `Summary`, whatever the order in which events and receipts are visited. */
  method Summarize(events: map<string, Event>, seen: map<string, Receipt>, tenant: string, contract: string)
    returns (s: EventSummary)
    ensures Sums(s, Selected(events, tenant, contract), events, seen)
  {
    hide Sums, IsReceipt;
    s := EventSummary(0, 0, 0, 0, None, None);
    StartSums(events, seen);
    var todo := events.Keys;
    ghost var done: set<string> := {};
    while todo != {}
      invariant forall id | id in todo :: id in events && id !in done
      invariant forall id :: id in done <==> id in events && id !in todo && Selects(tenant, contract, events[id])
      invariant Sums(s, done, events, seen)
      decreases |todo|
    {
      var id :| id in todo;
      todo := todo - {id};
      if Selects(tenant, contract, events[id]) {
        var r := ReceiptFor(id, seen);
        SumsExtend(s, done, id, events, seen, r);
        s := Extended(s, events[id], r);
        done := done + {id};
      }
    }
    assert done == Selected(events, tenant, contract);
  }

  lemma StartSums(events: map<string, Event>, seen: map<string, Receipt>)
    ensures Sums(EventSummary(0, 0, 0, 0, None, None), {}, events, seen)
  {
    assert Chosen({}, Surely(seen, Accepted)) == {} && Chosen({}, Surely(seen, DeadLettered)) == {};
  }

  // ---------------------------------------------------------------- every event keeps a receipt

  ghost predicate AllReceipted(s: Service) {
    forall id | id in s.events :: HasReceipt(s.seen, id)
  }

  /** No call was ever admitted while another with its key was in flight. */
  ghost predicate NoOverlap(m: System) {
    forall key :: Tally(m.log, OverlapOf(key)) == 0
  }

  ghost predicate AllKeys(m: System) {
    forall key :: Idempotency.KeyInv(m, key)
  }

  lemma CommitReceipted(s: Service, e: Event, reasons: seq<string>, attemptId: string, letterId: string, now: int)
    requires AllReceipted(s) && KeyOf(e) !in s.seen
    ensures AllReceipted(Commit(s, e, reasons, attemptId, letterId, now))
  {
    hide KeyOf, NewLetter, NewLineage, AttemptsOf;
    var t := Commit(s, e, reasons, attemptId, letterId, now);
    forall id | id in t.events
      ensures HasReceipt(t.seen, id)
    {
      if id == e.id {
        assert t.seen[KeyOf(e)].eventId == id;
      } else {
        var k :| k in s.seen && s.seen[k].eventId == id;
        assert t.seen[k] == s.seen[k];
      }
    }
  }

  lemma ReceiptedStep(cfg: Config, m: System, a: Action)
    requires AllReceipted(m.service) && AllKeys(m) && NoOverlap(m)
    ensures AllReceipted(Step(cfg, m, a).service)
  {
    hide AllReceipted, Commit, KeyOf, Idempotency.KeyInv, Tally;
    if a.Commits? {
      if a.id in m.calls && m.calls[a.id].Checked? {
        var c := m.calls[a.id];
        assert Idempotency.KeyInv(m, KeyOf(c.event));
        Idempotency.CommitMeetsNewKey(m, a.id, KeyOf(c.event));
        CommitReceipted(m.service, c.event, c.reasons, a.attemptId, a.letterId, a.now);
      }
    } else {
      StepFrame(cfg, m, a);
      SameReceipted(m.service, Step(cfg, m, a).service);
    }
  }

  lemma SameReceipted(s: Service, t: Service)
    requires AllReceipted(s) && t.seen == s.seen && t.events == s.events
    ensures AllReceipted(t)
  {
  }

  lemma {:induction false} ReceiptedRun(cfg: Config, m: System, actions: seq<Action>)
    requires AllReceipted(m.service) && AllKeys(m) && NoOverlap(Run(cfg, m, actions))
    ensures AllReceipted(Run(cfg, m, actions).service)
    decreases |actions|
  {
    if actions != [] {
      hide AllReceipted, Idempotency.KeyInv, Step, Tally;
      var n := Step(cfg, m, actions[0]);
      forall key
        ensures Tally(m.log, OverlapOf(key)) == 0 && Idempotency.KeyInv(n, key)
      {
        Idempotency.RunGrows(cfg, m, actions, OverlapOf(key));
        assert Idempotency.KeyInv(m, key);
        Idempotency.KeyInvStep(cfg, m, actions[0], key);
      }
      ReceiptedStep(cfg, m, actions[0]);
      ReceiptedRun(cfg, n, actions[1..]);
    }
  }

  lemma StoredReceiptsFinal(s: Service)
    requires Conservation.Coupled(s)
    ensures FinalReceipts(s.seen)
  {
    forall k | k in s.seen
      ensures s.seen[k].status in {Accepted, DeadLettered} && !s.seen[k].duplicate
    {
      assert Conservation.GoodReceipt(s, s.seen[k]);
    }
  }

  lemma RunReceiptsFinal(cfg: Config, actions: seq<Action>)
    ensures FinalReceipts(Run(cfg, START, actions).service.seen)
  {
    hide Run;
    Conservation.StartConserved();
    Conservation.AlwaysConserved(cfg, START, actions);
    StoredReceiptsFinal(Run(cfg, START, actions).service);
  }

  /** In every run without overlapping keys, serial ones among them, a summary's accepted and dead-lettered
      events add up to its total. In every run at all, its duplicate count is zero, because stored receipts
      never carry the flag. */
  lemma SummaryAddsUp(cfg: Config, actions: seq<Action>, s: EventSummary, tenant: string, contract: string)
    requires var t := Run(cfg, START, actions).service;
             Sums(s, Selected(t.events, tenant, contract), t.events, t.seen)
    ensures s.duplicate == 0
    ensures NoOverlap(Run(cfg, START, actions)) ==> s.accepted + s.deadLettered == s.total
  {
    hide Run, Tally, Extremes, Counted;
    var n := Run(cfg, START, actions);
    RunReceiptsFinal(cfg, actions);
    if NoOverlap(n) {
      forall key
        ensures Idempotency.KeyInv(START, key)
      {
        Idempotency.StartKeys(key);
      }
      ReceiptedRun(cfg, START, actions);
      assert forall id | id in Selected(n.service.events, tenant, contract) :: HasReceipt(n.service.seen, id);
    }
  }
}
