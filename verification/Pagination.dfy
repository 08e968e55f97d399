/** Cursor pagination over the filtered, sorted events, also while the store grows
    (internal/ingestion/application/query.go). */
module Pagination {
  import opened Values
  import opened Ingestion
  import Sorting
  import Text

  datatype StatusFilter = AnyStatus | Only(status: Status) | Unsupported(name: string)

  datatype Filter = Filter(
    tenant: string, contract: string, status: StatusFilter, partition: string,
    occurredAfter: Option<int>, occurredBefore: Option<int>,
    receivedAfter: Option<int>, receivedBefore: Option<int>, search: string)

  datatype Page = Page(items: seq<Event>, next: string, total: nat, limit: nat)

  type Events = map<string, Event>

  /** The status each event's receipt was found to have; which of several receipts is found is open. */
  type Statuses = map<string, Status>

  // ---------------------------------------------------------------- filtering

  predicate PartAt(s: string, part: string, i: nat) {
    i + |part| <= |s| && s[i..i + |part|] == part
  }

  predicate Contains(s: string, part: string) {
    exists i: nat | i <= |s| :: PartAt(s, part, i)
  }

  /** `matchesEvent`; an empty dimension matches everything. */
  predicate Matches(f: Filter, e: Event, found: Statuses) {
    && (f.tenant != "" ==> e.tenant == f.tenant)
    && (f.contract != "" ==> e.contract == f.contract)
    && (f.partition != "" ==> e.partition == f.partition)
    && (f.occurredAfter.Some? ==> OccurredAt(e) > f.occurredAfter.value)
    && (f.occurredBefore.Some? ==> OccurredAt(e) < f.occurredBefore.value)
    && (f.receivedAfter.Some? ==> e.receivedAt > f.receivedAfter.value)
    && (f.receivedBefore.Some? ==> e.receivedAt < f.receivedBefore.value)
    && (f.search != "" ==>
          Contains(Text.ToLower(e.id), Text.ToLower(f.search)) || Contains(Text.ToLower(e.contract), Text.ToLower(f.search)))
    && (f.status.Only? ==> e.id in found && found[e.id] == f.status.status)
  }

  // ---------------------------------------------------------------- the listing

  predicate EventLt(a: Event, b: Event) {
    a.receivedAt < b.receivedAt || (a.receivedAt == b.receivedAt && Text.Less(a.id, b.id))
  }

  lemma EventOrder()
    ensures Sorting.StrictWeak(EventLt)
  {
    forall a: Event
      ensures !EventLt(a, a)
    {
      Text.LessIrreflexive(a.id);
    }
    forall a: Event, b: Event, c: Event | EventLt(a, b) && EventLt(b, c)
      ensures EventLt(a, c)
    {
      EventLtTransitive(a, b, c);
    }
    forall a: Event, b: Event, c: Event | EventLt(a, c)
      ensures EventLt(a, b) || EventLt(b, c)
    {
      EventLtSplits(a, b, c);
    }
  }

  lemma EventLtTransitive(a: Event, b: Event, c: Event)
    requires EventLt(a, b) && EventLt(b, c)
    ensures EventLt(a, c)
  {
    if a.receivedAt == b.receivedAt == c.receivedAt {
      Text.LessTransitive(a.id, b.id, c.id);
    }
  }

  lemma EventLtSplits(a: Event, b: Event, c: Event)
    requires EventLt(a, c)
    ensures EventLt(a, b) || EventLt(b, c)
  {
    if a.receivedAt == b.receivedAt == c.receivedAt && a.id != b.id && !EventLt(a, b) {
      Text.LessConnected(a.id, b.id);
      Text.LessTransitive(b.id, a.id, c.id);
    }
  }

  /** Events are stored under their own, non-empty ids. */
  ghost predicate Named(events: Events) {
    forall id | id in events :: id != "" && events[id].id == id
  }

  /** Each matching event once, by time of reception and then id. */
  ghost predicate IsListing(items: seq<Event>, events: Events, f: Filter, found: Statuses) {
    && (forall e :: e in items <==> e.id in events && events[e.id] == e && Matches(f, e, found))
    && (forall i, j | 0 <= i < j < |items| :: EventLt(items[i], items[j]))
  }

  lemma Distinct(items: seq<Event>, events: Events, f: Filter, found: Statuses, i: nat, j: nat)
    requires IsListing(items, events, f, found) && i < |items| && j < |items| && items[i].id == items[j].id
    ensures i == j
  {
    assert items[i] in items && items[j] in items;
    assert items[i] == items[j];
    Text.LessIrreflexive(items[i].id);
  }

  // ---------------------------------------------------------------- one page

  function Clamp(limit: int): nat {
    if limit < 1 then 50 else if limit > 500 then 500 else limit
  }

  /** `cursorIndex`: behind the event the cursor names, or at the start if there is none. */
  function CursorIndex(items: seq<Event>, cursor: string): (r: nat)
    ensures r <= |items|
  {
    if cursor == "" then 0 else FirstAfter(items, cursor, 0)
  }

  function FirstAfter(items: seq<Event>, cursor: string, i: nat): (r: nat)
    requires i <= |items|
    ensures r <= |items|
    ensures r == 0 <==> forall k | i <= k < |items| :: items[k].id != cursor
    ensures r > 0 ==> r > i && items[r - 1].id == cursor
    decreases |items| - i
  {
    if i == |items| then 0 else if items[i].id == cursor then i + 1 else FirstAfter(items, cursor, i + 1)
  }

  /** A page holds listed events only, at most 500 of them; it is full unless it is the last, which alone comes without
      a cursor; a limit from 1 to 500 is honoured, and 50 is the default. */
  lemma PageSizes(items: seq<Event>, limit: int, cursor: string)
    requires forall e | e in items :: e.id != ""
    ensures var p := PageOf(items, Clamp(limit), cursor);
            && |p.items| <= p.limit <= 500 && (p.next != "" ==> |p.items| == p.limit)
            && (p.next == "" && items != [] && p.items != [] ==> p.items[|p.items| - 1] == items[|items| - 1])
            && p.limit == (if 1 <= limit <= 500 then limit else if limit > 500 then 500 else 50)
            && forall e | e in p.items :: e in items
  {
    var start := CursorIndex(items, cursor);
    var end := if start + Clamp(limit) > |items| then |items| else start + Clamp(limit);
    hide CursorIndex;
    assert 0 < end < |items| ==> items[end - 1] in items;
  }

  function PageOf(items: seq<Event>, limit: nat, cursor: string): Page {
    var start := CursorIndex(items, cursor);
    var end := if start + limit > |items| then |items| else start + limit;
    Page(items[start..end], if 0 < end < |items| then items[end - 1].id else "", |items|, limit)
  }

  // ---------------------------------------------------------------- the implementation

  /** `sEventStatus`: the status of some receipt of the event, in whatever order receipts are visited. */
  method EventStatus(id: string, seen: map<string, Receipt>) returns (r: Option<Status>)
    ensures r.Some? ==> exists k :: k in seen && seen[k].eventId == id && seen[k].status == r.value
    ensures r.None? ==> forall k | k in seen :: seen[k].eventId != id
  {
    var todo := seen.Keys;
    while todo != {}
      invariant forall k | k in seen && k !in todo :: seen[k].eventId != id
      invariant todo <= seen.Keys
      decreases |todo|
    {
      var k :| k in todo;
      if seen[k].eventId == id {
        return Some(seen[k].status);
      }
      todo := todo - {k};
    }
    return None;
  }

  /** The picks are statuses of receipts. */
  ghost predicate Picked(found: Statuses, seen: map<string, Receipt>) {
    forall id | id in found :: exists k :: k in seen && seen[k].eventId == id && seen[k].status == found[id]
  }

  /** Every event with a receipt has a pick. */
  ghost predicate PickedAll(found: Statuses, events: Events, seen: map<string, Receipt>) {
    forall id | id in events && id !in found :: forall k | k in seen :: seen[k].eventId != id
  }

  method FindStatuses(events: Events, seen: map<string, Receipt>) returns (found: Statuses)
    ensures Picked(found, seen) && PickedAll(found, events, seen)
  {
    found := map[];
    var todo := events.Keys;
    while todo != {}
      invariant todo <= events.Keys && Picked(found, seen)
      invariant forall id | id in events && id !in todo && id !in found :: forall k | k in seen :: seen[k].eventId != id
      decreases |todo|
    {
      var id :| id in todo;
      var status := EventStatus(id, seen);
      if status.Some? {
        found := found[id := status.value];
      }
      todo := todo - {id};
    }
  }

  /** The loop of `FindEvents` over the events, in whatever order they are visited. */
  method Select(events: Events, f: Filter, found: Statuses) returns (items: seq<Event>)
    requires Named(events)
    ensures forall e :: e in items <==> e.id in events && events[e.id] == e && Matches(f, e, found)
    ensures forall i, j | 0 <= i < j < |items| :: items[i].id != items[j].id
  {
    hide Matches;
    items := [];
    var todo := events.Keys;
    while todo != {}
      invariant todo <= events.Keys
      invariant forall e :: e in items <==> e.id in events && e.id !in todo && events[e.id] == e && Matches(f, e, found)
      invariant forall i, j | 0 <= i < j < |items| :: items[i].id != items[j].id
      decreases |todo|
    {
      var id :| id in todo;
      var e := events[id];
      if Matches(f, e, found) {
        items := items + [e];
      }
      todo := todo - {id};
    }
  }

  lemma SortedListing(items: seq<Event>, sorted: seq<Event>, events: Events, f: Filter, found: Statuses)
    requires forall e :: e in items <==> e.id in events && events[e.id] == e && Matches(f, e, found)
    requires forall i, j | 0 <= i < j < |items| :: items[i].id != items[j].id
    requires multiset(items) == multiset(sorted) && Sorting.Sorted(sorted, EventLt)
    ensures IsListing(sorted, events, f, found)
  {
    hide Matches;
    Sorting.SameElements(items, sorted);
    forall i, j | 0 <= i < j < |sorted|
      ensures EventLt(sorted[i], sorted[j])
    {
      assert sorted[i] in sorted && sorted[j] in sorted;
      if sorted[i].id == sorted[j].id {
        assert sorted[i] == sorted[j];
        Twice(sorted, i, j);
        Once(items, sorted[i]);
        assert false;
      }
      assert !EventLt(sorted[j], sorted[i]);
      Text.LessConnected(sorted[i].id, sorted[j].id);
    }
  }

  lemma Twice(s: seq<Event>, i: nat, j: nat)
    requires i < j < |s| && s[i] == s[j]
    ensures multiset(s)[s[i]] >= 2
  {
    assert s == s[..j] + s[j..];
    assert s[i] in s[..j] && s[i] in s[j..];
  }

  lemma {:induction false} Once(s: seq<Event>, e: Event)
    requires forall i, j | 0 <= i < j < |s| :: s[i].id != s[j].id
    ensures multiset(s)[e] <= 1
  {
    if s != [] {
      assert s == [s[0]] + s[1..];
      Once(s[1..], e);
      if s[0] == e {
        assert e !in s[1..];
      }
    }
  }

  /** `FindEvents`: the page is that of the one listing of the matching events. */
  method FindEvents(events: Events, seen: map<string, Receipt>, f: Filter, limit: int, cursor: string)
    returns (r: Result<Page>, ghost items: seq<Event>, ghost found: Statuses)
    requires Named(events)
    ensures r.Ok? <==> !f.status.Unsupported?
    ensures r.Ok? ==> Picked(found, seen) && PickedAll(found, events, seen) && IsListing(items, events, f, found)
                      && r.value == PageOf(items, Clamp(limit), cursor)
  {
    hide Matches;
    items, found := [], map[];
    if f.status.Unsupported? {
      return Err("unsupported event status"), items, found;
    }
    var statuses := FindStatuses(events, seen);
    var selected := Select(events, f, statuses);
    EventOrder();
    var sorted := Sorting.SortSlice(selected, EventLt);
    SortedListing(selected, sorted, events, f, statuses);
    items, found := sorted, statuses;
    var n := limit;
    if n < 1 {
      n := 50;
    }
    if n > 500 {
      n := 500;
    }
    var page := MakePage(sorted, n, cursor);
    r := Ok(page);
  }

  method MakePage(items: seq<Event>, limit: nat, cursor: string) returns (page: Page)
    ensures page == PageOf(items, limit, cursor)
  {
    var start := FindCursor(items, cursor);
    var end := start + limit;
    if end > |items| {
      end := |items|;
    }
    var next := "";
    if 0 < end < |items| {
      next := items[end - 1].id;
    }
    page := Page(items[start..end], next, |items|, limit);
  }

  method FindCursor(items: seq<Event>, cursor: string) returns (r: nat)
    ensures r == CursorIndex(items, cursor)
  {
    if cursor == "" {
      return 0;
    }
    var i := 0;
    while i < |items|
      invariant i <= |items| && FirstAfter(items, cursor, 0) == FirstAfter(items, cursor, i)
    {
      if items[i].id == cursor {
        return i + 1;
      }
      i := i + 1;
    }
    return 0;
  }

  // ---------------------------------------------------------------- there is one listing

  ghost predicate Increasing(items: seq<Event>) {
    forall i, j | 0 <= i < j < |items| :: EventLt(items[i], items[j])
  }

  /** The event comes behind all that were delivered. */
  predicate Behind(delivered: seq<Event>, e: Event) {
    delivered == [] || EventLt(delivered[|delivered| - 1], e)
  }

  /** All that was delivered is still listed, and everything else listed comes behind it. */
  ghost predicate KeptAhead(delivered: seq<Event>, more: seq<Event>) {
    && (forall e | e in delivered :: e in more)
    && (forall e | e in more && e !in delivered :: Behind(delivered, e))
  }

  lemma {:induction false} PrefixAgrees(items: seq<Event>, more: seq<Event>, n: nat)
    requires Increasing(items) && Increasing(more) && KeptAhead(items, more) && n <= |items|
    ensures n <= |more| && more[..n] == items[..n]
    decreases n
  {
    if n > 0 {
      PrefixAgrees(items, more, n - 1);
      SamePosition(items, more, n - 1);
      hide Increasing, KeptAhead;
      assert more[..n] == more[..n - 1] + [more[n - 1]] && items[..n] == items[..n - 1] + [items[n - 1]];
    }
  }

  lemma SamePosition(items: seq<Event>, more: seq<Event>, n: nat)
    requires Increasing(items) && Increasing(more) && KeptAhead(items, more) && n < |items|
    requires n <= |more| && more[..n] == items[..n]
    ensures n < |more| && more[n] == items[n]
  {
    hide EventLt;
    var x := items[n];
    assert x in items && x in more;
    var p :| 0 <= p < |more| && more[p] == x;
    SameLength(items, more, n, p);
    NothingBetween(items, more, n);
    if p < n {
      assert more[p] == more[..n][p] == items[..n][p] == items[p];
      EventIrreflexive(x);
    } else if p > n {
      assert EventLt(more[n], x);
      EventAsymmetric(more[n], x);
    }
  }

  lemma SameLength(items: seq<Event>, more: seq<Event>, n: nat, p: nat)
    requires Increasing(items) && n < |items| && n <= |more| && more[..n] == items[..n]
    requires p < |more| && more[p] == items[n]
    ensures n < |more|
  {
    if p < n {
      assert more[p] == more[..n][p] == items[..n][p] == items[p];
      EventIrreflexive(items[n]);
    }
  }

  lemma EventIrreflexive(e: Event)
    ensures !EventLt(e, e)
  {
    Text.LessIrreflexive(e.id);
  }

  lemma EventAsymmetric(a: Event, b: Event)
    ensures !(EventLt(a, b) && EventLt(b, a))
  {
    if EventLt(a, b) && EventLt(b, a) {
      EventLtTransitive(a, b, a);
      EventIrreflexive(a);
    }
  }

  /** Where one of the items stood, nothing smaller is listed. */
  lemma NothingBetween(items: seq<Event>, more: seq<Event>, n: nat)
    requires Increasing(items) && Increasing(more) && KeptAhead(items, more)
    requires n < |items| && n < |more| && more[..n] == items[..n]
    ensures more[n] == items[n] || EventLt(items[n], more[n])
  {
    var x, y := items[n], more[n];
    if y in items {
      var q :| 0 <= q < |items| && items[q] == y;
      if q < n {
        assert more[q] == more[..n][q] == items[..n][q] == y;
        assert EventLt(more[q], more[n]);
        EventIrreflexive(y);
      }
    } else {
      assert EventLt(items[|items| - 1], y);
      if n < |items| - 1 {
        EventLtTransitive(x, items[|items| - 1], y);
      }
    }
  }

  /** The listing is unique, so a page does not depend on the order in which maps are visited. */
  lemma ListingUnique(a: seq<Event>, b: seq<Event>, events: Events, f: Filter, found: Statuses)
    requires IsListing(a, events, f, found) && IsListing(b, events, f, found)
    ensures a == b
  {
    hide Matches;
    PrefixAgrees(a, b, |a|);
    PrefixAgrees(b, a, |b|);
    assert a == a[..|a|] && b == b[..|b|];
  }

  // ---------------------------------------------------------------- what was delivered stays a prefix

  /** What was delivered is a prefix of a listing exactly when it is ordered, all of it is listed, and
      everything else that is listed comes behind it. */
  lemma PrefixKeptIff(delivered: seq<Event>, more: seq<Event>)
    requires Increasing(more)
    ensures delivered <= more <==> Increasing(delivered) && KeptAhead(delivered, more)
  {
    if Increasing(delivered) && KeptAhead(delivered, more) {
      PrefixAgrees(delivered, more, |delivered|);
      assert delivered == delivered[..|delivered|];
    }
    if delivered <= more {
      forall e | e in more && e !in delivered
        ensures Behind(delivered, e)
      {
        var p :| 0 <= p < |more| && more[p] == e;
      }
    }
  }

  /** The same, said of the store: with no status filter the statuses do not matter. */
  ghost predicate Delivered(delivered: seq<Event>, events: Events, f: Filter) {
    && Increasing(delivered)
    && (forall e | e in delivered :: e.id in events && events[e.id] == e && Matches(f, e, map[]))
    && (forall id | id in events && Matches(f, events[id], map[]) && events[id] !in delivered :: Behind(delivered, events[id]))
  }

  lemma MatchesWithoutStatus(f: Filter, e: Event, found: Statuses, found': Statuses)
    requires f.status.AnyStatus?
    ensures Matches(f, e, found) == Matches(f, e, found')
  {
  }

  lemma DeliveredIff(delivered: seq<Event>, items: seq<Event>, events: Events, f: Filter, found: Statuses)
    requires f.status.AnyStatus? && Named(events) && IsListing(items, events, f, found)
    ensures delivered <= items <==> Delivered(delivered, events, f)
  {
    forall e
      ensures Matches(f, e, found) == Matches(f, e, map[])
    {
      MatchesWithoutStatus(f, e, found, map[]);
    }
    hide Matches, Behind;
    PrefixKeptIff(delivered, items);
    if Delivered(delivered, events, f) {
      assert KeptAhead(delivered, items);
    }
    if Increasing(delivered) && KeptAhead(delivered, items) {
      assert Delivered(delivered, events, f);
    }
  }

  /** Storing the event does not disturb a reader of what was delivered: it replaces none of it, and if it is
      listed at all it comes behind. */
  predicate Harmless(delivered: seq<Event>, f: Filter, e: Event) {
    && (forall x | x in delivered && x.id == e.id :: x == e)
    && (Matches(f, e, map[]) && e !in delivered ==> Behind(delivered, e))
  }

  /** What was delivered stays a prefix of the listing exactly when the event stored is harmless, whether it
      is new or replaces another. */
  lemma StoreKeepsIff(delivered: seq<Event>, events: Events, e: Event, f: Filter)
    requires Delivered(delivered, events, f)
    ensures Delivered(delivered, events[e.id := e], f) <==> Harmless(delivered, f, e)
  {
    hide Matches, Behind, Increasing;
    var more := events[e.id := e];
    if Delivered(delivered, more, f) {
      assert more[e.id] == e;
    }
    if Harmless(delivered, f, e) {
      forall id | id in more && Matches(f, more[id], map[]) && more[id] !in delivered
        ensures Behind(delivered, more[id])
      {
      }
    }
  }

  /** New events received later than all that was delivered are harmless. */
  lemma LaterHarmless(delivered: seq<Event>, f: Filter, e: Event)
    requires forall x | x in delivered :: x.id != e.id && x.receivedAt < e.receivedAt
    ensures Harmless(delivered, f, e)
  {
    hide Matches;
    if delivered != [] {
      assert delivered[|delivered| - 1] in delivered;
    }
  }

  /** A listing of named events is what a reader can follow. */
  lemma ListingReadable(items: seq<Event>, events: Events, f: Filter, found: Statuses)
    requires Named(events) && IsListing(items, events, f, found)
    ensures Increasing(items) && Ids(items)
  {
    forall i, j | 0 <= i < j < |items|
      ensures items[i].id != items[j].id
    {
      if items[i].id == items[j].id {
        Distinct(items, events, f, found, i, j);
      }
    }
  }

  // ---------------------------------------------------------------- following the cursor

  /** The reader's state: what was delivered and the cursor to continue with. */
  ghost predicate Reading(items: seq<Event>, delivered: seq<Event>, cursor: string) {
    && delivered <= items
    && (cursor == "" ==> delivered == items)
    && (cursor != "" ==> delivered != [] && cursor == delivered[|delivered| - 1].id && |delivered| < |items|)
  }

  ghost predicate Ids(items: seq<Event>) {
    && (forall e | e in items :: e.id != "")
    && (forall i, j | 0 <= i < j < |items| :: items[i].id != items[j].id)
  }

  lemma CursorFound(items: seq<Event>, k: nat)
    requires Ids(items) && 0 < k <= |items|
    ensures CursorIndex(items, items[k - 1].id) == k
  {
    assert items[k - 1] in items;
    var r := FirstAfter(items, items[k - 1].id, 0);
    assert r > 0;
    assert items[r - 1].id == items[k - 1].id;
  }

  /** The next page continues where the delivered events end. */
  lemma NextPage(items: seq<Event>, delivered: seq<Event>, cursor: string, limit: nat)
    requires Ids(items) && limit > 0 && delivered <= items
    requires (cursor == "" && delivered == []) || (delivered != [] && cursor == delivered[|delivered| - 1].id)
    ensures var p := PageOf(items, limit, cursor);
            && Reading(items, delivered + p.items, p.next)
            && |delivered + p.items| == if |delivered| + limit < |items| then |delivered| + limit else |items|
  {
    hide PageOf, Ids;
    var k := |delivered|;
    var end := if k + limit > |items| then |items| else k + limit;
    PageAt(items, delivered, cursor, limit);
    Slices(items, delivered, end);
    if end < |items| {
      NamedAt(items, end - 1);
    }
  }

  lemma PageAt(items: seq<Event>, delivered: seq<Event>, cursor: string, limit: nat)
    requires Ids(items) && delivered <= items
    requires (cursor == "" && delivered == []) || (delivered != [] && cursor == delivered[|delivered| - 1].id)
    ensures var k := |delivered|;
            var end := if k + limit > |items| then |items| else k + limit;
            PageOf(items, limit, cursor) == Page(items[k..end], if 0 < end < |items| then items[end - 1].id else "", |items|, limit)
  {
    AtCursor(items, delivered, cursor);
    hide CursorIndex, Ids;
  }

  lemma AtCursor(items: seq<Event>, delivered: seq<Event>, cursor: string)
    requires Ids(items) && delivered <= items
    requires (cursor == "" && delivered == []) || (delivered != [] && cursor == delivered[|delivered| - 1].id)
    ensures CursorIndex(items, cursor) == |delivered|
  {
    if |delivered| > 0 {
      CursorFound(items, |delivered|);
    }
  }

  lemma Slices(items: seq<Event>, delivered: seq<Event>, end: nat)
    requires delivered <= items && |delivered| <= end <= |items|
    ensures delivered + items[|delivered|..end] == items[..end]
  {
  }

  lemma NamedAt(items: seq<Event>, i: nat)
    requires Ids(items) && i < |items|
    ensures items[i].id != ""
  {
    assert items[i] in items;
  }

  /** Everything delivered by a reader that follows the cursor through the given listings, one per page,
      and the cursor it holds afterwards. */
  function Walk(listings: seq<seq<Event>>, limit: nat): (seq<Event>, string) {
    if listings == [] then ([], "")
    else
      var (delivered, cursor) := Walk(listings[..|listings| - 1], limit);
      var p := PageOf(listings[|listings| - 1], limit, cursor);
      (delivered + p.items, p.next)
  }

  /** A reader of a store that changes between pages: it lists the store as it is, and goes on only while it
      has a cursor. */
  ghost predicate Session(stores: seq<Events>, listings: seq<seq<Event>>, founds: seq<Statuses>, f: Filter, limit: nat) {
    && f.status.AnyStatus? && limit > 0 && |stores| == |listings| == |founds|
    && (forall i | 0 <= i < |stores| :: IsListing(listings[i], stores[i], f, founds[i]))
    && (forall i | 0 < i < |stores| :: Walk(listings[..i], limit).1 != "")
  }

  ghost predicate AllNamed(stores: seq<Events>) {
    forall i | 0 <= i < |stores| :: Named(stores[i])
  }

  /** The pages delivered so far are a prefix of the listing that the next page is taken from. */
  ghost predicate KeptAt(stores: seq<Events>, listings: seq<seq<Event>>, f: Filter, limit: nat, i: nat) {
    i < |stores| && i < |listings| && Delivered(Walk(listings[..i], limit).0, stores[i], f)
  }

  ghost predicate ReadingAt(listings: seq<seq<Event>>, limit: nat, i: nat) {
    i < |listings| && Reading(listings[i], Walk(listings[..i + 1], limit).0, Walk(listings[..i + 1], limit).1)
  }

  /** One page more. */
  lemma {:induction false} PageFollows(stores: seq<Events>, listings: seq<seq<Event>>, founds: seq<Statuses>, f: Filter, limit: nat, i: nat)
    requires Session(stores, listings, founds, f, limit) && i < |stores| && Named(stores[i]) && (i > 0 ==> ReadingAt(listings, limit, i - 1))
    ensures ReadingAt(listings, limit, i) <==> KeptAt(stores, listings, f, limit, i)
  {
    var items := listings[i];
    var (delivered, cursor) := Walk(listings[..i], limit);
    WalkNext(listings, limit, i);
    ListingReadable(items, stores[i], f, founds[i]);
    DeliveredIff(delivered, items, stores[i], f, founds[i]);
    hide Delivered, IsListing, Named, Ids, Increasing, PageOf;
    if delivered <= items {
      hide Walk;
      NextPage(items, delivered, cursor, limit);
    }
  }

  lemma WalkNext(listings: seq<seq<Event>>, limit: nat, i: nat)
    requires i < |listings|
    ensures var (delivered, cursor) := Walk(listings[..i], limit);
            var p := PageOf(listings[i], limit, cursor);
            Walk(listings[..i + 1], limit) == (delivered + p.items, p.next)
  {
    hide PageOf;
    assert listings[..i + 1] == listings[..i] + [listings[i]];
    WalkMore(listings[..i], listings[i], limit);
  }

  /** While the store changes, the pages together are, page after page, a prefix of the current listing without
      repeat or gap, and all of it once the cursor comes back empty, exactly when between any two pages what
      was delivered stays a prefix. */
  lemma {:induction false} PagesFollowListingIff(stores: seq<Events>, listings: seq<seq<Event>>, founds: seq<Statuses>, f: Filter, limit: nat)
    requires Session(stores, listings, founds, f, limit) && AllNamed(stores)
    ensures (forall i: nat | i < |stores| :: ReadingAt(listings, limit, i)) <==>
            (forall i: nat | i < |stores| :: KeptAt(stores, listings, f, limit, i))
  {
    hide Session, ReadingAt, KeptAt;
    if forall i: nat | i < |stores| :: KeptAt(stores, listings, f, limit, i) {
      forall i: nat | i < |stores|
        ensures ReadingAt(listings, limit, i)
      {
        PagesFollow(stores, listings, founds, f, limit, i);
      }
    }
    if forall i: nat | i < |stores| :: ReadingAt(listings, limit, i) {
      forall i: nat | i < |stores|
        ensures KeptAt(stores, listings, f, limit, i)
      {
        PageFollows(stores, listings, founds, f, limit, i);
      }
    }
  }

  lemma {:induction false} PagesFollow(stores: seq<Events>, listings: seq<seq<Event>>, founds: seq<Statuses>, f: Filter, limit: nat, n: nat)
    requires Session(stores, listings, founds, f, limit) && AllNamed(stores) && n < |stores|
    requires forall i: nat | i <= n :: KeptAt(stores, listings, f, limit, i)
    ensures ReadingAt(listings, limit, n)
  {
    hide Session, ReadingAt, KeptAt;
    if n > 0 {
      PagesFollow(stores, listings, founds, f, limit, n - 1);
    }
    PageFollows(stores, listings, founds, f, limit, n);
  }

  function Copies(items: seq<Event>, k: nat): (r: seq<seq<Event>>)
    ensures |r| == k
  {
    seq(k, _ => items)
  }

  lemma WalkMore(listings: seq<seq<Event>>, items: seq<Event>, limit: nat)
    ensures var (delivered, cursor) := Walk(listings, limit);
            var p := PageOf(items, limit, cursor);
            Walk(listings + [items], limit) == (delivered + p.items, p.next)
  {
    assert (listings + [items])[..|listings|] == listings;
  }

  function Cursor(items: seq<Event>, m: nat): string {
    if 0 < m < |items| then items[m - 1].id else ""
  }

  lemma StableStep(items: seq<Event>, limit: nat, k: nat, m: nat)
    requires Ids(items) && limit > 0 && (m < |items| || m == 0)
    requires Walk(Copies(items, k), limit) == (items[..m], Cursor(items, m))
    ensures var end := if m + limit < |items| then m + limit else |items|;
            Walk(Copies(items, k + 1), limit) == (items[..end], Cursor(items, end))
  {
    hide Walk, PageOf, Ids;
    assert Copies(items, k + 1) == Copies(items, k) + [items];
    WalkMore(Copies(items, k), items, limit);
    NextPage(items, items[..m], Cursor(items, m), limit);
    var p := PageOf(items, limit, Cursor(items, m));
    assert items[..m] + p.items == items[..|items[..m] + p.items|];
  }

  /** On an unchanged store the k-th page ends behind the first k times the limit, so the cursor comes back
      empty exactly when these are all events: after max(1, ceil(n / limit)) pages. */
  lemma {:induction false} PagesOnStableStore(items: seq<Event>, limit: nat, k: nat)
    requires Ids(items) && limit > 0 && k > 0
    requires k > 1 ==> (k - 1) * limit < |items|
    ensures var end := if k * limit < |items| then k * limit else |items|;
            && Walk(Copies(items, k), limit) == (items[..end], Cursor(items, end))
            && (Walk(Copies(items, k), limit).1 == "" <==> |items| <= k * limit)
    decreases k
  {
    TimesIsProduct(k, limit);
    TimesIsProduct(k - 1, limit);
    StableWalk(items, limit, k);
    var end := if k * limit < |items| then k * limit else |items|;
    if k * limit < |items| {
      assert k * limit > 0;
      assert items[end - 1] in items;
    }
  }

  function Times(k: nat, limit: nat): nat {
    if k == 0 then 0 else Times(k - 1, limit) + limit
  }

  lemma {:induction false} TimesIsProduct(k: nat, limit: nat)
    ensures Times(k, limit) == k * limit
  {
    if k > 0 {
      TimesIsProduct(k - 1, limit);
      assert k * limit == (k - 1) * limit + limit;
    }
  }

  lemma {:induction false} StableWalk(items: seq<Event>, limit: nat, k: nat)
    requires Ids(items) && limit > 0 && k > 0
    requires k > 1 ==> Times(k - 1, limit) < |items|
    ensures var end := if Times(k, limit) < |items| then Times(k, limit) else |items|;
            Walk(Copies(items, k), limit) == (items[..end], Cursor(items, end))
    decreases k
  {
    hide Walk, Ids, Copies, Cursor;
    if k == 1 {
      NoPages(items, limit);
      StableStep(items, limit, 0, 0);
    } else {
      StableWalk(items, limit, k - 1);
      StableStep(items, limit, k - 1, Times(k - 1, limit));
    }
  }

  lemma NoPages(items: seq<Event>, limit: nat)
    ensures Walk(Copies(items, 0), limit) == (items[..0], Cursor(items, 0))
  {
    assert Copies(items, 0) == [];
  }

  // ---------------------------------------------------------------- an event that moves

  /** If the event the cursor names is received again, later than everything listed, it moves to the end; the
      next page is empty, and everything that stood behind the cursor is skipped. */
  lemma MovedCursorSkips(events: Events, c: Event, f: Filter, found: Statuses, items: seq<Event>, more: seq<Event>, k: nat, limit: nat)
    requires Named(events) && c.id != "" && 0 < k <= |items| && items[k - 1].id == c.id
    requires IsListing(items, events, f, found) && IsListing(more, events[c.id := c], f, found)
    requires Matches(f, c, found) && forall x | x in items :: EventLt(x, c)
    ensures more == items[..k - 1] + items[k..] + [c]
    ensures PageOf(more, limit, c.id) == Page([], "", |items|, limit)
  {
    hide Matches;
    var moved := items[..k - 1] + items[k..] + [c];
    MovedListing(events, c, f, found, items, k);
    ListingUnique(more, moved, events[c.id := c], f, found);
    ListingReadable(more, events[c.id := c], f, found);
    CursorFound(more, |more|);
  }

  lemma MovedListing(events: Events, c: Event, f: Filter, found: Statuses, items: seq<Event>, k: nat)
    requires Named(events) && 0 < k <= |items| && items[k - 1].id == c.id
    requires IsListing(items, events, f, found) && Matches(f, c, found) && forall x | x in items :: EventLt(x, c)
    ensures IsListing(items[..k - 1] + items[k..] + [c], events[c.id := c], f, found)
  {
    hide Matches, EventLt;
    var rest := items[..k - 1] + items[k..];
    forall e
      ensures e in rest <==> e in items && e.id != c.id
    {
      InRest(events, f, found, items, k, e);
    }
    forall i | 0 <= i < |rest|
      ensures EventLt(rest[i], c)
    {
      assert rest[i] in rest;
    }
  }

  lemma InRest(events: Events, f: Filter, found: Statuses, items: seq<Event>, k: nat, e: Event)
    requires 0 < k <= |items| && IsListing(items, events, f, found)
    ensures e in items[..k - 1] + items[k..] <==> e in items && e.id != items[k - 1].id
  {
    hide Matches, EventLt;
    var rest := items[..k - 1] + items[k..];
    if e in items && e.id != items[k - 1].id {
      var i :| 0 <= i < |items| && items[i] == e;
      assert e == if i < k - 1 then rest[i] else rest[i - 1];
    }
    if e in rest {
      var j :| 0 <= j < |rest| && rest[j] == e;
      var i := if j < k - 1 then j else j + 1;
      assert items[i] == e;
      if e.id == items[k - 1].id {
        Distinct(items, events, f, found, i, k - 1);
      }
    }
  }
}
