/** Reading pages while the gateway runs: which commits a reader of the event listing survives
    (internal/ingestion/application/query.go, service.go). */
module Readers {
  import opened Ingestion
  import opened Machine
  import opened Pagination
  import Conservation
  import Registry
  import Services
  import Text

  /** What `Pagination.FindEvents` needs of the stored events holds in every run. */
  lemma EventsNamed(cfg: Config, actions: seq<Action>)
    ensures Pagination.Named(Run(cfg, START, actions).service.events)
  {
    hide Run;
    Conservation.StartConserved();
    Conservation.AlwaysConserved(cfg, START, actions);
    var s := Run(cfg, START, actions).service;
    forall id | id in s.events
      ensures id != "" && s.events[id].id == id
    {
      assert Conservation.GoodEvent(s, id);
    }
  }

  // ---------------------------------------------------------------- one page to the next

  /** The events whose commit leaves a reader of what was delivered alone. */
  function Spares(delivered: seq<Event>, f: Filter): Event -> bool {
    (e: Event) => Harmless(delivered, f, e)
  }

  /** A step keeps what was delivered a prefix of the listing exactly when it commits no harmful event. */
  lemma DeliveredStepIff(cfg: Config, m: System, a: Action, delivered: seq<Event>, f: Filter)
    requires Delivered(delivered, m.service.events, f)
    ensures Delivered(delivered, Step(cfg, m, a).service.events, f) <==>
            CommitsOnly(Step(cfg, m, a).log, |m.log|, Spares(delivered, f))
  {
    hide Delivered, Harmless, Step;
    if a.Commits? {
      CommitStoresEvent(cfg, m, a);
      var n := Step(cfg, m, a);
      if n.log != m.log {
        StoreKeepsIff(delivered, m.service.events, m.calls[a.id].event, f);
        assert n.log[|m.log|] == Commitment(m.calls[a.id].event);
      }
    } else {
      StepFrame(cfg, m, a);
    }
  }

  /** A commit stores the event of its call, or nothing happens. */
  lemma CommitStoresEvent(cfg: Config, m: System, a: Action)
    requires a.Commits?
    ensures var n := Step(cfg, m, a);
            || (n.log == m.log && n.service.events == m.service.events)
            || (a.id in m.calls && Publishing(m.calls[a.id]) && n.log == m.log + [Commitment(m.calls[a.id].event)]
                && n.service.events == m.service.events[m.calls[a.id].event.id := m.calls[a.id].event])
  {
    hide KeyOf, NewLetter, NewLineage, NewReceipt, NewAttempt, AttemptsOf;
  }

  lemma {:induction false} DeliveredRun(cfg: Config, m: System, actions: seq<Action>, delivered: seq<Event>, f: Filter)
    requires Delivered(delivered, m.service.events, f) && CommitsOnly(Run(cfg, m, actions).log, |m.log|, Spares(delivered, f))
    ensures Delivered(delivered, Run(cfg, m, actions).service.events, f)
    decreases |actions|
  {
    hide Step, Delivered;
    if actions != [] {
      var n := Step(cfg, m, actions[0]);
      LogGrows(cfg, m, actions[0]);
      RunLogGrows(cfg, n, actions[1..]);
      assert forall k | 0 <= k < |n.log| :: n.log[k] == Run(cfg, m, actions).log[k];
      DeliveredStepIff(cfg, m, actions[0], delivered, f);
      DeliveredRun(cfg, n, actions[1..], delivered, f);
    }
  }

  /** The run, if it admits only what spares the reader, leaves what was delivered a prefix of the listing. */
  ghost predicate Undisturbed(cfg: Config, m: System, actions: seq<Action>, delivered: seq<Event>, f: Filter) {
    AdmitsOnly(Run(cfg, m, actions).log, |m.log|, Spares(delivered, f)) ==>
      Delivered(delivered, Run(cfg, m, actions).service.events, f)
  }

  /** A publish in flight can commit before anything else is admitted. */
  lemma FlightCanCommit(cfg: Config, m: System, id: nat) returns (actions: seq<Action>)
    requires id in m.calls && Publishing(m.calls[id])
    ensures var n := Run(cfg, m, actions);
            && n.log == m.log + [Commitment(m.calls[id].event)]
            && n.service.events == m.service.events[m.calls[id].event.id := m.calls[id].event]
    decreases 3 - (if m.calls[id].Checked? then 2 else if m.calls[id].Looked? then 1 else 0)
  {
    var spare := Text.FreshName(m.service.letters.Keys);
    var a :=
      if m.calls[id].Checked? then Commits(id, spare, spare, 0)
      else if m.calls[id].Looked? then Checks(id, 0, 0)
      else LooksUp(id);
    var n := Step(cfg, m, a);
    FlightMoves(cfg, m, id, a, spare);
    hide Step;
    if m.calls[id].Checked? {
      actions := [a];
      RunMore(cfg, m, [], a);
    } else {
      var rest := FlightCanCommit(cfg, n, id);
      actions := [a] + rest;
      assert actions[1..] == rest;
    }
  }

  lemma FlightMoves(cfg: Config, m: System, id: nat, a: Action, spare: string)
    requires id in m.calls && Publishing(m.calls[id]) && spare !in m.service.letters
    requires a == if m.calls[id].Checked? then Commits(id, spare, spare, 0) else if m.calls[id].Looked? then Checks(id, 0, 0) else LooksUp(id)
    ensures var n := Step(cfg, m, a);
            if m.calls[id].Checked? then
              && n.log == m.log + [Commitment(m.calls[id].event)]
              && n.service.events == m.service.events[m.calls[id].event.id := m.calls[id].event]
            else
              && n.service == m.service && n.log == m.log && id in n.calls && n.calls[id].event == m.calls[id].event
              && if m.calls[id].Looked? then n.calls[id].Checked? else n.calls[id].Looked?
  {
    hide Reasons, Registry.Key, KeyOf, NewLetter, NewLineage, NewReceipt, NewAttempt, AttemptsOf;
  }

  /** Exactly when it is safe to ask for the next page later. Events are stamped when their call begins and
      stored when it commits, so it is not enough that nothing harmful is admitted from now on: what was
      delivered stays a prefix of the listing in all such runs exactly when every publish in flight now is
      harmless. */
  lemma SafeToContinueIff(cfg: Config, m: System, delivered: seq<Event>, f: Filter)
    requires Delivered(delivered, m.service.events, f)
    ensures (forall actions :: Undisturbed(cfg, m, actions, delivered, f)) <==> Flying(m, Spares(delivered, f))
  {
    hide Run, Delivered, Harmless;
    if Flying(m, Spares(delivered, f)) {
      forall actions
        ensures Undisturbed(cfg, m, actions, delivered, f)
      {
        if AdmitsOnly(Run(cfg, m, actions).log, |m.log|, Spares(delivered, f)) {
          FlyingRun(cfg, m, actions, Spares(delivered, f));
          DeliveredRun(cfg, m, actions, delivered, f);
        }
      }
    } else {
      var id :| id in m.calls && Publishing(m.calls[id]) && !Harmless(delivered, f, m.calls[id].event);
      var actions := FlightCanCommit(cfg, m, id);
      StoreKeepsIff(delivered, m.service.events, m.calls[id].event, f);
      assert !Undisturbed(cfg, m, actions, delivered, f);
    }
  }

  // ---------------------------------------------------------------- a whole session

  /** The gateway after the given parts of a run. */
  function After(cfg: Config, parts: seq<seq<Action>>): System {
    if parts == [] then START else Run(cfg, After(cfg, parts[..|parts| - 1]), parts[|parts| - 1])
  }

  function Stores(cfg: Config, parts: seq<seq<Action>>): (r: seq<Events>)
    ensures |r| == |parts|
  {
    seq(|parts|, i requires 0 <= i < |parts| => After(cfg, parts[..i + 1]).service.events)
  }

  /** Everything committed between page `i` and the page before has a property. */
  ghost predicate Between(cfg: Config, parts: seq<seq<Action>>, i: nat, good: Event -> bool) {
    0 < i < |parts| && CommitsOnly(After(cfg, parts[..i + 1]).log, |After(cfg, parts[..i]).log|, good)
  }

  /** It spares a reader of the pages before. */
  ghost predicate Considerate(cfg: Config, parts: seq<seq<Action>>, listings: seq<seq<Event>>, f: Filter, limit: nat, i: nat) {
    i < |listings| && Between(cfg, parts, i, Spares(Walk(listings[..i], limit).0, f))
  }

  /** It is so if everything in flight at the page before and everything admitted since spares the reader. */
  lemma ConsiderateCalls(cfg: Config, parts: seq<seq<Action>>, listings: seq<seq<Event>>, f: Filter, limit: nat, i: nat)
    requires 0 < i < |parts| && i < |listings|
    requires var good := Spares(Walk(listings[..i], limit).0, f);
             var m, n := After(cfg, parts[..i]), After(cfg, parts[..i + 1]);
             Flying(m, good) && AdmitsOnly(n.log, |m.log|, good)
    ensures Considerate(cfg, parts, listings, f, limit, i)
  {
    hide Run, After, Walk, Harmless;
    AfterNext(cfg, parts, i);
    FlyingRun(cfg, After(cfg, parts[..i]), parts[i], Spares(Walk(listings[..i], limit).0, f));
  }

  lemma AfterNext(cfg: Config, parts: seq<seq<Action>>, i: nat)
    requires i < |parts|
    ensures After(cfg, parts[..i + 1]) == Run(cfg, After(cfg, parts[..i]), parts[i])
  {
    hide Run;
    assert parts[..i + 1][..i] == parts[..i];
  }

  lemma {:induction false} AfterIsRun(cfg: Config, parts: seq<seq<Action>>) returns (actions: seq<Action>)
    ensures After(cfg, parts) == Run(cfg, START, actions)
  {
    actions := [];
    if parts != [] {
      hide Run;
      var front := AfterIsRun(cfg, parts[..|parts| - 1]);
      actions := front + parts[|parts| - 1];
      RunSplit(cfg, START, front, parts[|parts| - 1]);
    }
  }

  lemma {:induction false} StoresNamed(cfg: Config, parts: seq<seq<Action>>)
    ensures AllNamed(Stores(cfg, parts))
  {
    hide Run, After;
    forall i | 0 <= i < |parts|
      ensures Named(Stores(cfg, parts)[i])
    {
      var actions := AfterIsRun(cfg, parts[..i + 1]);
      EventsNamed(cfg, actions);
    }
  }

  /** At each page the reader has a prefix of the store as it was at the page before. */
  lemma {:induction false} ReadSoFar(cfg: Config, parts: seq<seq<Action>>, listings: seq<seq<Event>>, founds: seq<Statuses>,
                                     f: Filter, limit: nat, i: nat)
    requires Session(Stores(cfg, parts), listings, founds, f, limit) && AllNamed(Stores(cfg, parts)) && 0 < i < |parts|
    requires ReadingAt(listings, limit, i - 1)
    ensures Delivered(Walk(listings[..i], limit).0, After(cfg, parts[..i]).service.events, f)
  {
    hide Run, After, Delivered, Walk, IsListing, Named;
    assert parts[..i - 1 + 1] == parts[..i] && listings[..i - 1 + 1] == listings[..i];
    assert Stores(cfg, parts)[i - 1] == After(cfg, parts[..i]).service.events;
    DeliveredIff(Walk(listings[..i], limit).0, listings[i - 1], After(cfg, parts[..i]).service.events, f, founds[i - 1]);
  }

  lemma {:induction false} NextPageKept(cfg: Config, parts: seq<seq<Action>>, listings: seq<seq<Event>>, founds: seq<Statuses>,
                                        f: Filter, limit: nat, i: nat)
    requires Session(Stores(cfg, parts), listings, founds, f, limit) && AllNamed(Stores(cfg, parts)) && 0 < i < |parts|
    requires Considerate(cfg, parts, listings, f, limit, i) && ReadingAt(listings, limit, i - 1)
    ensures KeptAt(Stores(cfg, parts), listings, f, limit, i)
  {
    ReadSoFar(cfg, parts, listings, founds, f, limit, i);
    hide Run, After, Delivered, Walk, IsListing, Named, Harmless, Session, ReadingAt;
    AfterNext(cfg, parts, i);
    DeliveredRun(cfg, After(cfg, parts[..i]), parts[i], Walk(listings[..i], limit).0, f);
  }

  /** A reader follows the cursor while the gateway runs, calls interleaving freely. If whatever is committed
      between two pages spares the reader, then page after page the events delivered are a prefix of the current
      listing, without repeat or gap, and all of it once the cursor comes back empty. */
  lemma {:induction false} PagesFollowRun(cfg: Config, parts: seq<seq<Action>>, listings: seq<seq<Event>>, founds: seq<Statuses>,
                                          f: Filter, limit: nat, n: nat)
    requires Session(Stores(cfg, parts), listings, founds, f, limit) && n < |parts|
    requires forall i: nat | 0 < i <= n :: Considerate(cfg, parts, listings, f, limit, i)
    ensures ReadingAt(listings, limit, n)
  {
    StoresNamed(cfg, parts);
    assert Named(Stores(cfg, parts)[n]) && |listings| == |parts|;
    hide Session, ReadingAt, KeptAt, Considerate, Named;
    if n > 0 {
      PagesFollowRun(cfg, parts, listings, founds, f, limit, n - 1);
      NextPageKept(cfg, parts, listings, founds, f, limit, n);
    } else {
      NothingDelivered(Stores(cfg, parts), listings, f, limit);
    }
    PageFollows(Stores(cfg, parts), listings, founds, f, limit, n);
  }

  /** The event has a new id and was received later than everything stored. */
  function Newer(events: Events): Event -> bool {
    (e: Event) => e.id !in events && forall id | id in events :: events[id].receivedAt < e.receivedAt
  }

  lemma NewerSpares(delivered: seq<Event>, events: Events, f: Filter, e: Event)
    requires Delivered(delivered, events, f) && Newer(events)(e)
    ensures Harmless(delivered, f, e)
  {
    hide Matches;
    LaterHarmless(delivered, f, e);
  }

  /** In particular it does while new events are published at later times, as many as there may be between two
      pages, for every filter without a status. */
  lemma {:induction false} PagesFollowPublishes(cfg: Config, parts: seq<seq<Action>>, listings: seq<seq<Event>>, founds: seq<Statuses>,
                                                f: Filter, limit: nat, n: nat)
    requires Session(Stores(cfg, parts), listings, founds, f, limit) && n < |parts|
    requires forall i: nat | 0 < i <= n :: Between(cfg, parts, i, Newer(After(cfg, parts[..i]).service.events))
    ensures ReadingAt(listings, limit, n)
    ensures forall i: nat | 0 < i <= n :: Considerate(cfg, parts, listings, f, limit, i)
  {
    hide ReadingAt, KeptAt, Considerate, Named, IsListing, After;
    if n > 0 {
      StoresNamed(cfg, parts);
      PagesFollowPublishes(cfg, parts, listings, founds, f, limit, n - 1);
      ReadSoFar(cfg, parts, listings, founds, f, limit, n);
      assert |listings| == |parts|;
      hide Session;
      NewerConsiderate(cfg, parts, listings, f, limit, n);
    }
    PagesFollowRun(cfg, parts, listings, founds, f, limit, n);
  }

  lemma NewerConsiderate(cfg: Config, parts: seq<seq<Action>>, listings: seq<seq<Event>>, f: Filter, limit: nat, i: nat)
    requires 0 < i < |parts| && i < |listings| && Between(cfg, parts, i, Newer(After(cfg, parts[..i]).service.events))
    requires Delivered(Walk(listings[..i], limit).0, After(cfg, parts[..i]).service.events, f)
    ensures Considerate(cfg, parts, listings, f, limit, i)
  {
    hide Run, After, Walk, Delivered, Harmless;
    var m, n := After(cfg, parts[..i]), After(cfg, parts[..i + 1]);
    forall k | |m.log| <= k < |n.log| && n.log[k].Commitment?
      ensures Harmless(Walk(listings[..i], limit).0, f, n.log[k].event)
    {
      NewerSpares(Walk(listings[..i], limit).0, m.service.events, f, n.log[k].event);
    }
  }

  lemma NothingDelivered(stores: seq<Events>, listings: seq<seq<Event>>, f: Filter, limit: nat)
    requires |stores| == |listings| > 0
    ensures KeptAt(stores, listings, f, limit, 0)
  {
    hide Matches;
    assert listings[..0] == [];
  }

  // ---------------------------------------------------------------- a replay between two pages

  lemma ReplayedEvents(cfg: Config, s: Service, values: Registry.Store, letter: string, actor: string,
                       freshKey: string, begin: int, d: Services.Draw, end: int)
    requires CanReplay(s, letter)
    requires Enter(cfg, s, Prepared(ReplayEvent(s, letter, freshKey), d.freshId, d.start)).Admitted?
    ensures var c := Prepared(ReplayEvent(s, letter, freshKey), d.freshId, d.start);
            Services.Replayed(cfg, s, values, letter, actor, freshKey, begin, d, end).events == s.events[c.id := c]
  {
    hide ReplayEvent, Prepared, KeyOf, Services.ReasonsOf, ConsumeQuota, NewLetter, NewLineage, NewReceipt, NewAttempt;
  }

  /** A replay of the event under the cursor, run between two pages: the event moves to the end of the listing,
      the next page is empty and comes without a cursor, and all events behind the cursor are skipped. */
  lemma ReplayMovesCursor(cfg: Config, m: System, id: nat, letter: string, actor: string, freshKey: string, begin: int,
                          d: Services.Draw, end: int, f: Filter, found: Statuses, items: seq<Event>, more: seq<Event>, k: nat, limit: nat)
    requires id !in m.calls && CanReplay(m.service, letter) && d.freshId != "" && d.letterId !in m.service.letters
    requires Named(m.service.events) && IsListing(items, m.service.events, f, found)
    requires 0 < k <= |items| && items[k - 1].id == m.service.letters[letter].eventId
    requires var c := Prepared(ReplayEvent(m.service, letter, freshKey), d.freshId, d.start);
             Enter(cfg, m.service, c).Admitted? && Matches(f, c, found) && forall x | x in items :: x.receivedAt < d.start
    requires IsListing(more, Run(cfg, m, Services.ReplayActions(id, letter, actor, freshKey, begin, d, end)).service.events, f, found)
    ensures var c := Prepared(ReplayEvent(m.service, letter, freshKey), d.freshId, d.start);
            more == items[..k - 1] + items[k..] + [c] && PageOf(more, limit, items[k - 1].id) == Page([], "", |items|, limit)
  {
    hide Run, Matches, Enter, Services.ReplayActions, Services.Replayed, PageOf;
    var c := Prepared(ReplayEvent(m.service, letter, freshKey), d.freshId, d.start);
    Services.SerialReplay(cfg, m, id, letter, actor, freshKey, begin, d, end);
    ReplayedEvents(cfg, m.service, m.registry.values, letter, actor, freshKey, begin, d, end);
    assert items[k - 1] in items;
    assert c.id == items[k - 1].id;
    MovedCursorSkips(m.service.events, c, f, found, items, more, k, limit);
  }
}
