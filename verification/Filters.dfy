/** What the filters of an event listing select, told by the fields of the events
    (internal/ingestion/application/query.go, `matchesEvent`). */
module Filters {
  import opened Values
  import opened Ingestion
  import opened Machine
  import opened Pagination
  import Replays
  import Summaries
  import Text

  /** The events with a property, in their order. */
  function Only(items: seq<Event>, p: Event -> bool): seq<Event> {
    if items == [] then []
    else
      var last := items[|items| - 1];
      Only(items[..|items| - 1], p) + if p(last) then [last] else []
  }

  lemma {:induction false} OnlyMembers(items: seq<Event>, p: Event -> bool, e: Event)
    ensures e in Only(items, p) <==> e in items && p(e)
  {
    if items != [] {
      var front, last := items[..|items| - 1], items[|items| - 1];
      OnlyMembers(front, p, e);
      assert e in items <==> e in front || e == last;
    }
  }

  lemma {:induction false} OnlyIncreasing(items: seq<Event>, p: Event -> bool)
    requires Increasing(items)
    ensures Increasing(Only(items, p))
  {
    if items != [] {
      var front, last := items[..|items| - 1], items[|items| - 1];
      OnlyIncreasing(front, p);
      var some := Only(front, p);
      hide EventLt, Only;
      forall i | 0 <= i < |some|
        ensures EventLt(some[i], last)
      {
        OnlyMembers(front, p, some[i]);
        var k :| 0 <= k < |front| && front[k] == some[i];
        assert items[k] == some[i];
      }
    }
  }

  /** Two ordered listings of the same events are one. */
  lemma SameListing(a: seq<Event>, b: seq<Event>)
    requires Increasing(a) && Increasing(b) && forall e :: e in a <==> e in b
    ensures a == b
  {
    hide Increasing;
    PrefixAgrees(a, b, |a|);
    PrefixAgrees(b, a, |b|);
    assert a == a[..|a|] && b == b[..|b|];
  }

  // ---------------------------------------------------------------- each dimension narrows

  /** Listing with the narrower filter gives, in order, the events listed with the wider one that have the property. */
  ghost predicate Narrows(events: Events, found: Statuses, wide: Filter, narrow: Filter, p: Event -> bool) {
    forall a, b | IsListing(a, events, wide, found) && IsListing(b, events, narrow, found) :: b == Only(a, p)
  }

  lemma {:induction false} NarrowsWhen(events: Events, found: Statuses, wide: Filter, narrow: Filter, p: Event -> bool)
    requires forall e :: Matches(narrow, e, found) <==> Matches(wide, e, found) && p(e)
    ensures Narrows(events, found, wide, narrow, p)
  {
    hide Matches, EventLt;
    forall a, b | IsListing(a, events, wide, found) && IsListing(b, events, narrow, found)
      ensures b == Only(a, p)
    {
      OnlyIncreasing(a, p);
      forall e
        ensures e in b <==> e in Only(a, p)
      {
        OnlyMembers(a, p, e);
      }
      hide IsListing;
      SameListing(b, Only(a, p));
    }
  }

  /** `part` occurs in `s`. */
  ghost predicate Infix(part: string, s: string) {
    exists a, b :: s == a + part + b
  }

  lemma ContainsIff(s: string, part: string)
    ensures Contains(s, part) <==> Infix(part, s)
  {
    if Contains(s, part) {
      var i: nat :| i <= |s| && PartAt(s, part, i);
      assert s == s[..i] + part + s[i + |part|..];
    }
    if Infix(part, s) {
      var a, b :| s == a + part + b;
      assert PartAt(s, part, |a|);
    }
  }

  /** Capitals aside, the id or the contract of the event contains the text. */
  ghost function Mentions(text: string): Event -> bool {
    (e: Event) => Infix(Text.ToLower(text), Text.ToLower(e.id)) || Infix(Text.ToLower(text), Text.ToLower(e.contract))
  }

  /** Adding a tenant, a contract, a partition, a text or a status to a filter leaves exactly the events that have
      it. */
  lemma {:induction false} NamesNarrow(events: Events, found: Statuses, f: Filter, x: string, status: Status)
    requires x != ""
    ensures Narrows(events, found, f.(tenant := ""), f.(tenant := x), (e: Event) => e.tenant == x)
    ensures Narrows(events, found, f.(contract := ""), f.(contract := x), (e: Event) => e.contract == x)
    ensures Narrows(events, found, f.(partition := ""), f.(partition := x), (e: Event) => e.partition == x)
    ensures Narrows(events, found, f.(search := ""), f.(search := x), Mentions(x))
    ensures Narrows(events, found, f.(status := AnyStatus), f.(status := Pagination.Only(status)),
                    (e: Event) => e.id in found && found[e.id] == status)
  {
    hide Contains, Narrows;
    NarrowsWhen(events, found, f.(tenant := ""), f.(tenant := x), (e: Event) => e.tenant == x);
    NarrowsWhen(events, found, f.(contract := ""), f.(contract := x), (e: Event) => e.contract == x);
    NarrowsWhen(events, found, f.(partition := ""), f.(partition := x), (e: Event) => e.partition == x);
    NarrowsWhen(events, found, f.(status := AnyStatus), f.(status := Pagination.Only(status)),
                (e: Event) => e.id in found && found[e.id] == status);
    SearchNarrows(events, found, f, x);
  }

  lemma {:induction false} SearchNarrows(events: Events, found: Statuses, f: Filter, x: string)
    requires x != ""
    ensures Narrows(events, found, f.(search := ""), f.(search := x), Mentions(x))
  {
    hide Contains, Narrows, Infix;
    forall e: Event
      ensures Matches(f.(search := x), e, found) <==> Matches(f.(search := ""), e, found) && Mentions(x)(e)
    {
      ContainsIff(Text.ToLower(e.id), Text.ToLower(x));
      ContainsIff(Text.ToLower(e.contract), Text.ToLower(x));
    }
    NarrowsWhen(events, found, f.(search := ""), f.(search := x), Mentions(x));
  }

  /** Adding a bound to a filter leaves exactly the events strictly behind it or before it; the time of occurrence is
      that of a stored event, which always has one. */
  lemma {:induction false} BoundsNarrow(events: Events, found: Statuses, f: Filter, t: int)
    ensures Narrows(events, found, f.(receivedAfter := None), f.(receivedAfter := Some(t)), (e: Event) => e.receivedAt > t)
    ensures Narrows(events, found, f.(receivedBefore := None), f.(receivedBefore := Some(t)), (e: Event) => e.receivedAt < t)
    ensures Narrows(events, found, f.(occurredAfter := None), f.(occurredAfter := Some(t)), (e: Event) => OccurredAt(e) > t)
    ensures Narrows(events, found, f.(occurredBefore := None), f.(occurredBefore := Some(t)), (e: Event) => OccurredAt(e) < t)
  {
    hide Contains, Narrows, OccurredAt;
    NarrowsWhen(events, found, f.(receivedAfter := None), f.(receivedAfter := Some(t)), (e: Event) => e.receivedAt > t);
    NarrowsWhen(events, found, f.(receivedBefore := None), f.(receivedBefore := Some(t)), (e: Event) => e.receivedAt < t);
    NarrowsWhen(events, found, f.(occurredAfter := None), f.(occurredAfter := Some(t)), (e: Event) => OccurredAt(e) > t);
    NarrowsWhen(events, found, f.(occurredBefore := None), f.(occurredBefore := Some(t)), (e: Event) => OccurredAt(e) < t);
  }

  /** Without a filter everything stored is listed, each event once. */
  lemma {:induction false} EverythingListed(events: Events, found: Statuses, items: seq<Event>)
    requires Named(events)
    requires IsListing(items, events, Filter("", "", AnyStatus, "", None, None, None, None, ""), found)
    ensures forall e :: e in items <==> e.id in events && events[e.id] == e
    ensures |items| == |events|
  {
    var f := Filter("", "", AnyStatus, "", None, None, None, None, "");
    assert forall e :: Matches(f, e, found);
    ListingReadable(items, events, f, found);
    hide Matches, EventLt;
    IdsCounted(items);
    assert (set e | e in items :: e.id) == events.Keys;
  }

  lemma {:induction false} IdsCounted(items: seq<Event>)
    requires forall i, j | 0 <= i < j < |items| :: items[i].id != items[j].id
    ensures |set e | e in items :: e.id| == |items|
  {
    if items != [] {
      var front, last := items[..|items| - 1], items[|items| - 1];
      IdsCounted(front);
      var ids := set e | e in front :: e.id;
      assert forall e :: e in items <==> e in front || e == last;
      assert (set e | e in items :: e.id) == ids + {last.id};
      assert last.id !in ids;
    }
  }

  // ---------------------------------------------------------------- bounds partition

  function Earlier(t: int): Event -> bool {
    (e: Event) => e.receivedAt < t
  }

  function Exactly(t: int): Event -> bool {
    (e: Event) => e.receivedAt == t
  }

  function Later(t: int): Event -> bool {
    (e: Event) => e.receivedAt > t
  }

  lemma {:induction false} NoneOf(items: seq<Event>, p: Event -> bool)
    requires forall e | e in items :: !p(e)
    ensures Only(items, p) == []
  {
    if items != [] {
      NoneOf(items[..|items| - 1], p);
    }
  }

  lemma OnlyMore(items: seq<Event>, last: Event, p: Event -> bool)
    ensures Only(items + [last], p) == Only(items, p) + if p(last) then [last] else []
  {
    assert (items + [last])[..|items|] == items;
  }

  lemma LastReceived(front: seq<Event>, last: Event)
    requires Increasing(front + [last])
    ensures Increasing(front) && forall e | e in front :: e.receivedAt <= last.receivedAt
  {
    var items := front + [last];
    forall e | e in front
      ensures e.receivedAt <= last.receivedAt
    {
      var i :| 0 <= i < |front| && front[i] == e;
      assert items[i] == e && items[|front|] == last;
    }
    hide EventLt;
    forall i, j | 0 <= i < j < |front|
      ensures EventLt(front[i], front[j])
    {
      assert items[i] == front[i] && items[j] == front[j];
    }
  }

  lemma {:induction false} SplitAt(items: seq<Event>, t: int)
    requires Increasing(items)
    ensures items == Only(items, Earlier(t)) + Only(items, Exactly(t)) + Only(items, Later(t))
  {
    if items != [] {
      hide Increasing, Only;
      var front, last := items[..|items| - 1], items[|items| - 1];
      assert items == front + [last];
      LastReceived(front, last);
      SplitAt(front, t);
      SplitMore(front, last, t);
    }
  }

  lemma {:induction false} SplitMore(front: seq<Event>, last: Event, t: int)
    requires front == Only(front, Earlier(t)) + Only(front, Exactly(t)) + Only(front, Later(t))
    requires forall e | e in front :: e.receivedAt <= last.receivedAt
    ensures var items := front + [last];
            items == Only(items, Earlier(t)) + Only(items, Exactly(t)) + Only(items, Later(t))
  {
    hide Only;
    var a, b, c := Only(front, Earlier(t)), Only(front, Exactly(t)), Only(front, Later(t));
    OnlyMore(front, last, Earlier(t));
    OnlyMore(front, last, Exactly(t));
    OnlyMore(front, last, Later(t));
    assert last.receivedAt <= t ==> c == [] by {
      if last.receivedAt <= t {
        NoneOf(front, Later(t));
      }
    }
    assert last.receivedAt < t ==> b == [] by {
      if last.receivedAt < t {
        NoneOf(front, Exactly(t));
      }
    }
    ThreeParts(a, b, c, last);
  }

  lemma ThreeParts(a: seq<Event>, b: seq<Event>, c: seq<Event>, last: Event)
    ensures a + b + (c + [last]) == a + b + c + [last]
    ensures c == [] ==> a + (b + [last]) + c == a + b + c + [last]
    ensures b == c == [] ==> (a + [last]) + b + c == a + b + c + [last]
  {
  }

  /** Listing up to a time of reception, at it, and after it together is the whole listing, in this order. */
  lemma {:induction false} ReceptionPartitions(events: Events, found: Statuses, f: Filter, t: int,
                                               all: seq<Event>, before: seq<Event>, after: seq<Event>)
    requires f.receivedAfter.None? && f.receivedBefore.None?
    requires IsListing(all, events, f, found)
    requires IsListing(before, events, f.(receivedBefore := Some(t)), found)
    requires IsListing(after, events, f.(receivedAfter := Some(t)), found)
    ensures all == before + Only(all, Exactly(t)) + after
  {
    BoundsNarrow(events, found, f, t);
    SplitAt(all, t);
    hide Matches, EventLt, Only;
    assert f.(receivedBefore := None) == f && f.(receivedAfter := None) == f;
    OnlySame(all, Earlier(t), (e: Event) => e.receivedAt < t);
    OnlySame(all, Later(t), (e: Event) => e.receivedAt > t);
  }

  lemma {:induction false} OnlySame(items: seq<Event>, p: Event -> bool, q: Event -> bool)
    requires forall e :: p(e) == q(e)
    ensures Only(items, p) == Only(items, q)
  {
    if items != [] {
      OnlySame(items[..|items| - 1], p, q);
    }
  }

  /** By time of occurrence every listed event is in exactly one of the three. */
  lemma {:induction false} OccurrencePartitions(events: Events, found: Statuses, f: Filter, t: int, e: Event,
                                                all: seq<Event>, before: seq<Event>, after: seq<Event>)
    requires f.occurredAfter.None? && f.occurredBefore.None? && e.occurredAt.Some?
    requires IsListing(all, events, f, found)
    requires IsListing(before, events, f.(occurredBefore := Some(t)), found)
    requires IsListing(after, events, f.(occurredAfter := Some(t)), found)
    ensures e in before <==> e in all && e.occurredAt.value < t
    ensures e in after <==> e in all && e.occurredAt.value > t
  {
    BoundsNarrow(events, found, f, t);
    assert f.(occurredBefore := None) == f && f.(occurredAfter := None) == f;
    hide Matches, EventLt, Only;
    OnlyMembers(all, (x: Event) => OccurredAt(x) < t, e);
    OnlyMembers(all, (x: Event) => OccurredAt(x) > t, e);
  }

  // ---------------------------------------------------------------- tenants read their own

  ghost predicate Committed(log: seq<Entry>, e: Event) {
    exists k :: 0 <= k < |log| && log[k] == Commitment(e)
  }

  lemma {:induction false} LastIsCommitted(log: seq<Entry>, id: string)
    requires Replays.LastCommitted(log, id).Some?
    ensures Committed(log, Replays.LastCommitted(log, id).value)
  {
    var n := |log| - 1;
    var x := log[n];
    if x.Commitment? && x.event.id == id {
      assert log[n] == Commitment(x.event);
    } else {
      LastIsCommitted(log[..n], id);
      var k :| 0 <= k < n && log[..n][k] == Commitment(Replays.LastCommitted(log[..n], id).value);
      assert log[k] == Commitment(Replays.LastCommitted(log, id).value);
    }
  }

  /** In every interleaving every page under a filter with a tenant, as the gateway's clients always have one, holds
      only events of that tenant that were committed, and the listing it is taken from holds all stored events of the
      tenant that the rest of the filter lets through. */
  lemma {:induction false} TenantsReadOwn(cfg: Config, actions: seq<Action>, f: Filter, found: Statuses, items: seq<Event>, wide: seq<Event>,
                                          limit: nat, cursor: string, e: Event)
    requires f.tenant != "" && IsListing(items, Run(cfg, START, actions).service.events, f, found)
    requires IsListing(wide, Run(cfg, START, actions).service.events, f.(tenant := ""), found)
    ensures e in PageOf(items, limit, cursor).items ==> e.tenant == f.tenant && Committed(Run(cfg, START, actions).log, e)
    ensures e in items <==> e in wide && e.tenant == f.tenant
  {
    var n := Run(cfg, START, actions);
    hide Run;
    var p := (x: Event) => x.tenant == f.tenant;
    NamesNarrow(n.service.events, found, f, f.tenant, Accepted);
    assert f.(tenant := f.tenant) == f;
    OnlyMembers(wide, p, e);
    if e in items {
      Replays.LastOfNothing(e.id);
      Replays.StoredRun(cfg, START, actions, e.id);
      LastIsCommitted(n.log, e.id);
    }
    hide Only, Matches, EventLt, Replays.LastCommitted, Committed;
  }

  /** A summary counts exactly what a listing with its tenant and contract lists. */
  lemma {:induction false} SummaryCountsListing(events: Events, found: Statuses, tenant: string, contract: string, items: seq<Event>)
    requires tenant != "" && Named(events)
    requires IsListing(items, events, Filter(tenant, contract, AnyStatus, "", None, None, None, None, ""), found)
    ensures Summaries.Selected(events, tenant, contract) == set e | e in items :: e.id
    ensures |Summaries.Selected(events, tenant, contract)| == |items|
  {
    var f := Filter(tenant, contract, AnyStatus, "", None, None, None, None, "");
    ListingReadable(items, events, f, found);
    IdsCounted(items);
    hide EventLt;
    forall id
      ensures id in Summaries.Selected(events, tenant, contract) <==> id in set e | e in items :: e.id
    {
      if id in Summaries.Selected(events, tenant, contract) {
        assert events[id] in items;
      }
    }
  }
}
