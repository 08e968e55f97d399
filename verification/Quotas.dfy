/** What fixed one-minute windows bound: admissions per window and per arbitrary minute. */
module Quotas {
  import opened Values
  import opened Ingestion
  import opened Machine
  import Catalogs
  import Registry

  /** The admission times of a tenant, in lock order. */
  function Times(log: seq<Entry>, tenant: string): seq<int> {
    if log == [] then []
    else
      var x := log[|log| - 1];
      Times(log[..|log| - 1], tenant) + if x.Admission? && x.event.tenant == tenant then [x.event.receivedAt] else []
  }

  /** The start of the window each admission falls into. */
  function Windows(ts: seq<int>): (w: seq<int>)
    ensures |w| == |ts|
  {
    if ts == [] then []
    else
      var w := Windows(ts[..|ts| - 1]);
      var t := ts[|ts| - 1];
      w + [if w == [] || t - w[|w| - 1] >= MINUTE then t else w[|w| - 1]]
  }

  ghost predicate Ordered(ts: seq<int>) {
    forall i, j | 0 <= i < j < |ts| :: ts[i] <= ts[j]
  }

  /** Windows are a minute apart, */
  ghost predicate Climbs(w: seq<int>) {
    forall i, j | 0 <= i < j < |w| :: w[i] == w[j] || w[i] + MINUTE <= w[j]
  }

  /** and cover their admissions. */
  ghost predicate Covers(ts: seq<int>, w: seq<int>) {
    |w| == |ts| && forall i | 0 <= i < |w| :: w[i] <= ts[i] < w[i] + MINUTE
  }

  /** No window admits more than the quota. */
  ghost predicate Bounded(w: seq<int>, maxQuota: int) {
    forall i, j | 0 <= i < |w| && 0 <= j < |w| && i + maxQuota <= j :: w[i] != w[j]
  }

  /** The counter of a tenant is its last window and how many admissions it holds. */
  ghost predicate Counts(w: seq<int>, q: Quota) {
    && 1 <= q.count <= |w| && w[|w| - 1] == q.start
    && (forall i | 0 <= i < |w| :: w[i] == q.start <==> i >= |w| - q.count)
  }

  ghost predicate Metered(w: seq<int>, usage: map<string, Quota>, tenant: string, maxQuota: int) {
    && Climbs(w) && Bounded(w, maxQuota) && (tenant in usage <==> w != [])
    && (w != [] ==> Counts(w, usage[tenant]) && usage[tenant].count <= maxQuota)
  }

  ghost predicate TenantInv(cfg: Config, log: seq<Entry>, usage: map<string, Quota>, tenant: string) {
    Metered(Windows(Times(log, tenant)), usage, tenant, cfg.maxQuota)
  }

  lemma TimesMore(log: seq<Entry>, x: Entry, tenant: string)
    ensures Times(log + [x], tenant) ==
            Times(log, tenant) + if x.Admission? && x.event.tenant == tenant then [x.event.receivedAt] else []
  {
    assert (log + [x])[..|log|] == log;
  }

  /** One more admission, in the current window or in a new one. */
  lemma AdmitInWindow(w: seq<int>, q: Quota, maxQuota: int)
    requires Climbs(w) && Bounded(w, maxQuota) && Counts(w, q) && q.count < maxQuota
    ensures Climbs(w + [q.start]) && Bounded(w + [q.start], maxQuota)
    ensures Counts(w + [q.start], Quota(q.start, q.count + 1))
  {
  }

  lemma AdmitInNewWindow(w: seq<int>, t: int, maxQuota: int)
    requires Climbs(w) && Bounded(w, maxQuota) && maxQuota >= 1
    requires w != [] ==> t - w[|w| - 1] >= MINUTE
    ensures Climbs(w + [t]) && Bounded(w + [t], maxQuota) && Counts(w + [t], Quota(t, 1))
  {
    forall i | 0 <= i < |w|
      ensures w[i] + MINUTE <= t
    {
      assert i < |w| - 1 ==> w[i] == w[|w| - 1] || w[i] + MINUTE <= w[|w| - 1];
    }
  }

  lemma AdmitTenant(cfg: Config, log: seq<Entry>, usage: map<string, Quota>, x: Entry, tenant: string)
    requires TenantInv(cfg, log, usage, tenant) && x.Admission?
    requires ConsumeQuota(usage, x.event.tenant, x.event.receivedAt, cfg.maxQuota).Some?
    ensures TenantInv(cfg, log + [x], ConsumeQuota(usage, x.event.tenant, x.event.receivedAt, cfg.maxQuota).value, tenant)
  {
    hide Times, Climbs, Bounded, Counts, Windows;
    TimesMore(log, x, tenant);
    if x.event.tenant == tenant {
      AdmitOwn(cfg, Times(log, tenant), usage, x.event.receivedAt, tenant);
    } else {
      assert Times(log, tenant) + [] == Times(log, tenant);
    }
  }

  lemma WindowsMore(ts: seq<int>, t: int)
    ensures var w := Windows(ts);
            Windows(ts + [t]) == w + [if w == [] || t - w[|w| - 1] >= MINUTE then t else w[|w| - 1]]
  {
    assert (ts + [t])[..|ts|] == ts;
  }

  lemma AdmitOwn(cfg: Config, ts: seq<int>, usage: map<string, Quota>, t: int, tenant: string)
    requires ConsumeQuota(usage, tenant, t, cfg.maxQuota).Some?
    requires Metered(Windows(ts), usage, tenant, cfg.maxQuota)
    ensures Metered(Windows(ts + [t]), ConsumeQuota(usage, tenant, t, cfg.maxQuota).value, tenant, cfg.maxQuota)
  {
    var w := Windows(ts);
    WindowsMore(ts, t);
    if w != [] {
      LastWindow(w, usage[tenant]);
    }
    hide Climbs, Bounded, Counts, Windows;
    if tenant in usage && t - usage[tenant].start < MINUTE {
      AdmitInWindow(w, usage[tenant], cfg.maxQuota);
    } else {
      AdmitInNewWindow(w, t, cfg.maxQuota);
    }
  }

  lemma LastWindow(w: seq<int>, q: Quota)
    requires w != [] && Counts(w, q)
    ensures w[|w| - 1] == q.start
  {
  }

  lemma EnterQuota(cfg: Config, s: Service, e: Event)
    requires Enter(cfg, s, e).Admitted?
    ensures ConsumeQuota(s.usage, e.tenant, e.receivedAt, cfg.maxQuota) == Some(Enter(cfg, s, e).usage)
  {
  }

  /** A step either admits one event through the quota or leaves every counter and admission alone. */
  lemma QuotaStep(cfg: Config, m: System, a: Action)
    ensures var n := Step(cfg, m, a);
            || (n.service.usage == m.service.usage
                && (n.log == m.log || exists x: Entry :: !x.Admission? && n.log == m.log + [x]))
            || (exists x: Entry :: x.Admission? && n.log == m.log + [x]
                  && ConsumeQuota(m.service.usage, x.event.tenant, x.event.receivedAt, cfg.maxQuota) == Some(n.service.usage))
  {
    hide Enter, KeyOf, Reasons, ReplayEvent, Busy, Catalogs.Act, Catalogs.Record, Registry.Step, CanReplay, ConsumeQuota;
    var n := Step(cfg, m, a);
    if n.log != m.log {
      var x := n.log[|m.log|];
      assert n.log == m.log + [x];
      if x.Admission? {
        var e := Prepared(if a.ClientEnters? then a.event else m.calls[a.id].event, a.freshId, a.start);
        EnterQuota(cfg, m.service, e);
      }
    }
  }

  lemma TenantStep(cfg: Config, m: System, a: Action, tenant: string)
    requires TenantInv(cfg, m.log, m.service.usage, tenant)
    ensures TenantInv(cfg, Step(cfg, m, a).log, Step(cfg, m, a).service.usage, tenant)
  {
    hide Step, ConsumeQuota, TenantInv;
    QuotaStep(cfg, m, a);
    var n := Step(cfg, m, a);
    if x: Entry :| x.Admission? && n.log == m.log + [x]
                   && ConsumeQuota(m.service.usage, x.event.tenant, x.event.receivedAt, cfg.maxQuota) == Some(n.service.usage) {
      AdmitTenant(cfg, m.log, m.service.usage, x, tenant);
    } else if n.log != m.log {
      var x: Entry :| !x.Admission? && n.log == m.log + [x];
      SilentTenant(cfg, m.log, m.service.usage, x, tenant);
    }
  }

  lemma SilentTenant(cfg: Config, log: seq<Entry>, usage: map<string, Quota>, x: Entry, tenant: string)
    requires TenantInv(cfg, log, usage, tenant) && !x.Admission?
    ensures TenantInv(cfg, log + [x], usage, tenant)
  {
    hide Times, Climbs, Bounded, Counts;
    TimesMore(log, x, tenant);
    assert Times(log, tenant) + [] == Times(log, tenant);
  }

  lemma {:induction false} TenantRun(cfg: Config, m: System, actions: seq<Action>, tenant: string)
    requires TenantInv(cfg, m.log, m.service.usage, tenant)
    ensures TenantInv(cfg, Run(cfg, m, actions).log, Run(cfg, m, actions).service.usage, tenant)
    decreases |actions|
  {
    if actions != [] {
      hide Step, TenantInv;
      TenantStep(cfg, m, actions[0], tenant);
      TenantRun(cfg, Step(cfg, m, actions[0]), actions[1..], tenant);
    }
  }

  /** The admissions that fall into the minute beginning at `a`. */
  function Within(ts: seq<int>, a: int): set<nat> {
    set i: nat | i < |ts| && a <= ts[i] < a + MINUTE
  }

  lemma {:induction false} OrderedCovered(ts: seq<int>)
    requires Ordered(ts)
    ensures Covers(ts, Windows(ts))
  {
    if ts != [] {
      var n := |ts| - 1;
      OrderedCovered(ts[..n]);
      if n > 0 {
        assert ts[n - 1] <= ts[n];
      }
    }
  }

  /** More than twice the quota in a row take at least a minute. */
  lemma TwoWindows(ts: seq<int>, w: seq<int>, maxQuota: int, i: int, j: int)
    requires Covers(ts, w) && Climbs(w) && Bounded(w, maxQuota) && maxQuota >= 1
    requires 0 <= i && i + 2 * maxQuota <= j < |ts|
    ensures ts[j] - ts[i] >= MINUTE
  {
    var k := i + maxQuota;
    assert w[i] != w[k] && w[k] != w[j];
    assert w[i] + MINUTE <= w[k] && w[k] + MINUTE <= w[j];
  }

  lemma {:induction false} Span(s: set<nat>, lo: nat, n: nat)
    requires forall i | i in s :: lo <= i < lo + n
    ensures |s| <= n
  {
    if |s| > 0 {
      var x :| x in s;
      assert lo <= x < lo + n;
      Span(s - {lo + n - 1}, lo, n - 1);
    }
  }

  /** Whatever the clock readings, in every run windows start at least a minute apart and none admits more
      than the quota; without a positive quota nothing is admitted at all. */
  lemma WindowsBounded(cfg: Config, actions: seq<Action>, tenant: string)
    ensures var ts := Times(Run(cfg, START, actions).log, tenant);
            Climbs(Windows(ts)) && Bounded(Windows(ts), cfg.maxQuota) && (cfg.maxQuota <= 0 ==> ts == [])
  {
    TenantRun(cfg, START, actions, tenant);
    hide Run;
    var ts := Times(Run(cfg, START, actions).log, tenant);
  }

  /** Any half-open minute of any run holds at most twice the quota of admissions of a tenant, provided
      the times at which its calls took the lock do not decrease. */
  lemma AtMostTwice(cfg: Config, actions: seq<Action>, tenant: string, a: int)
    requires cfg.maxQuota >= 1 && Ordered(Times(Run(cfg, START, actions).log, tenant))
    ensures |Within(Times(Run(cfg, START, actions).log, tenant), a)| <= 2 * cfg.maxQuota
  {
    WindowsBounded(cfg, actions, tenant);
    hide Run;
    var ts := Times(Run(cfg, START, actions).log, tenant);
    OrderedCovered(ts);
    var s := Within(ts, a);
    if |s| > 0 {
      var lo := Least(s);
      forall i | i in s
        ensures lo <= i < lo + 2 * cfg.maxQuota
      {
        if i >= lo + 2 * cfg.maxQuota {
          TwoWindows(ts, Windows(ts), cfg.maxQuota, lo, i);
        }
      }
      Span(s, lo, 2 * cfg.maxQuota);
    }
  }

  lemma {:induction false} Least(s: set<nat>) returns (lo: nat)
    requires |s| > 0
    ensures lo in s && forall i | i in s :: lo <= i
    decreases |s|
  {
    lo :| lo in s;
    var first := lo;
    if |s - {first}| > 0 {
      var rest := Least(s - {first});
      lo := if rest < lo then rest else lo;
    }
    assert forall i | i in s :: i == first || i in s - {first};
  }

  /** A step that admits nothing of a tenant does not touch its counter. */
  lemma TenantsIsolated(cfg: Config, m: System, a: Action, tenant: string)
    requires Times(Step(cfg, m, a).log, tenant) == Times(m.log, tenant)
    ensures tenant in Step(cfg, m, a).service.usage <==> tenant in m.service.usage
    ensures tenant in m.service.usage ==> Step(cfg, m, a).service.usage[tenant] == m.service.usage[tenant]
  {
    QuotaStep(cfg, m, a);
    var n := Step(cfg, m, a);
    hide Step, Times;
    if x: Entry :| x.Admission? && n.log == m.log + [x]
                   && ConsumeQuota(m.service.usage, x.event.tenant, x.event.receivedAt, cfg.maxQuota) == Some(n.service.usage) {
      TimesMore(m.log, x, tenant);
      assert |Times(m.log, tenant) + [x.event.receivedAt]| == |Times(m.log, tenant)| + 1;
    }
  }

  // ---------------------------------------------------------------- why times must not decrease

  /** Calls that read their clock early but take the lock late are charged to the later window: in each of
      `n` minutes one call on time and one that read its clock in the first minute. */
  function Late(n: nat): (ts: seq<int>)
    ensures |ts| == 2 * n
  {
    if n == 0 then [] else Late(n - 1) + [(n - 1) * MINUTE, 1]
  }

  function LateActions(e: Event, n: nat): seq<Action> {
    if n == 0 then []
    else
      LateActions(e, n - 1)
      + [ClientEnters(2 * (n - 1), e, e.id, (n - 1) * MINUTE)] + [ClientEnters(2 * (n - 1) + 1, e, e.id, 1)]
  }

  /** The state of the machine between two such pairs. */
  ghost predicate Waits(m: System, tenant: string, n: nat) {
    && (forall i | i in m.calls :: i < 2 * n) && m.service.seen == map[] && Times(m.log, tenant) == Late(n)
    && m.service.usage == if n == 0 then map[] else map[tenant := Quota((n - 1) * MINUTE, 2)]
  }

  lemma EnterAdmits(cfg: Config, m: System, e: Event, id: nat, t: int, q: Quota)
    requires e.id != "" && e.key != "" && id !in m.calls && m.service.seen == map[]
    requires Window(m.service.usage, e.tenant, t) == q && q.count < cfg.maxQuota
    ensures var n := Step(cfg, m, ClientEnters(id, e, e.id, t));
            && n.calls.Keys == m.calls.Keys + {id} && n.service.seen == map[]
            && n.service.usage == m.service.usage[e.tenant := Quota(q.start, q.count + 1)]
            && Times(n.log, e.tenant) == Times(m.log, e.tenant) + [t]
  {
    hide KeyOf, Busy, Times, Window;
    var x := Admission(Prepared(e, e.id, t), Busy(m.calls, KeyOf(Prepared(e, e.id, t))));
    TimesMore(m.log, x, e.tenant);
  }

  lemma {:induction false} LateRun(cfg: Config, e: Event, n: nat)
    requires cfg.maxQuota >= 2 && e.id != "" && e.key != ""
    ensures Waits(Run(cfg, START, LateActions(e, n)), e.tenant, n)
  {
    hide Run, Step, Waits;
    if n == 0 {
      NobodyWaits(cfg, e.tenant);
    } else {
      LateRun(cfg, e, n - 1);
      var before := LateActions(e, n - 1);
      var a, b := ClientEnters(2 * (n - 1), e, e.id, (n - 1) * MINUTE), ClientEnters(2 * (n - 1) + 1, e, e.id, 1);
      assert LateActions(e, n) == before + [a] + [b];
      RunMore(cfg, START, before, a);
      RunMore(cfg, START, before + [a], b);
      LatePair(cfg, Run(cfg, START, before), e, n - 1);
    }
  }

  lemma NobodyWaits(cfg: Config, tenant: string)
    ensures Waits(Run(cfg, START, []), tenant, 0)
  {
  }

  lemma {:induction false} LatePair(cfg: Config, m: System, e: Event, n: nat)
    requires cfg.maxQuota >= 2 && e.id != "" && e.key != "" && Waits(m, e.tenant, n)
    ensures Waits(Step(cfg, Step(cfg, m, ClientEnters(2 * n, e, e.id, n * MINUTE)), ClientEnters(2 * n + 1, e, e.id, 1)), e.tenant, n + 1)
  {
    hide Step, Times;
    var t, u := n * MINUTE, m.service.usage;
    assert Window(u, e.tenant, t) == Quota(t, 0);
    EnterAdmits(cfg, m, e, 2 * n, t, Quota(t, 0));
    var k := Step(cfg, m, ClientEnters(2 * n, e, e.id, t));
    assert k.service.usage == map[e.tenant := Quota(t, 1)];
    EnterAdmits(cfg, k, e, 2 * n + 1, 1, Quota(t, 1));
    assert Late(n + 1) == Late(n) + [t] + [1];
    assert k.service.usage[e.tenant := Quota(t, 2)] == map[e.tenant := Quota(t, 2)];
  }

  lemma {:induction false} LateWithin(n: nat)
    ensures |Within(Late(n), 0)| >= n
  {
    if n > 0 {
      LateWithin(n - 1);
      var before, after := Within(Late(n - 1), 0), Within(Late(n), 0);
      assert Late(n)[2 * n - 1] == 1;
      var last: nat := 2 * n - 1;
      Subset(before + {last}, after);
    }
  }

  lemma {:induction false} OwnWindows(ts: seq<int>, i: nat)
    requires i < |ts|
    ensures Windows(ts)[i] == ts[i] || (i > 0 && Windows(ts)[i] == Windows(ts)[i - 1])
  {
    if i < |ts| - 1 {
      OwnWindows(ts[..|ts| - 1], i);
    }
  }

  lemma OnePerMinute(ts: seq<int>, a: int)
    requires Climbs(Windows(ts)) && Bounded(Windows(ts), 1)
    ensures |Within(ts, a)| <= 1
  {
    var s := Within(ts, a);
    if |s| > 0 {
      var lo := Least(s);
      forall i | i in s
        ensures i == lo
      {
        OwnWindows(ts, lo);
        OwnWindows(ts, i);
      }
      Span(s, lo, 1);
    }
  }

  /** No half-open minute of the run holds more admissions of the tenant than the bound. */
  ghost predicate MinuteBounded(cfg: Config, bound: nat, actions: seq<Action>, tenant: string, a: int) {
    |Within(Times(Run(cfg, START, actions).log, tenant), a)| <= bound
  }

  ghost predicate AlwaysBounded(cfg: Config, bound: nat) {
    forall actions, tenant, a :: MinuteBounded(cfg, bound, actions, tenant, a)
  }

  lemma LateExceeds(cfg: Config, bound: nat)
    requires cfg.maxQuota >= 2
    ensures !AlwaysBounded(cfg, bound)
  {
    var e := ZERO_EVENT.(id := "e", key := "k");
    LateRun(cfg, e, bound + 1);
    LateWithin(bound + 1);
    assert !MinuteBounded(cfg, bound, LateActions(e, bound + 1), e.tenant, 0);
  }

  /** If times may decrease in lock order, some bound on any half-open minute holds of all runs exactly for a
      quota of at most one. For every greater quota there is none: late calls are charged to later windows. */
  lemma UnorderedBoundedIff(cfg: Config)
    ensures (exists bound :: AlwaysBounded(cfg, bound)) <==> cfg.maxQuota <= 1
    ensures cfg.maxQuota <= 1 ==> AlwaysBounded(cfg, 1)
  {
    hide AlwaysBounded;
    if cfg.maxQuota <= 1 {
      AtMostOne(cfg);
    } else {
      forall bound: nat
        ensures !AlwaysBounded(cfg, bound)
      {
        LateExceeds(cfg, bound);
      }
    }
  }

  lemma AtMostOne(cfg: Config)
    requires cfg.maxQuota <= 1
    ensures AlwaysBounded(cfg, 1)
  {
    hide Run;
    forall actions, tenant, a
      ensures MinuteBounded(cfg, 1, actions, tenant, a)
    {
      WindowsBounded(cfg, actions, tenant);
      OnePerMinute(Times(Run(cfg, START, actions).log, tenant), a);
    }
  }

  lemma {:induction false} Subset(a: set<nat>, b: set<nat>)
    requires a <= b
    ensures |a| <= |b|
    decreases |a|
  {
    if |a| > 0 {
      var x :| x in a;
      Subset(a - {x}, b - {x});
    }
  }
}
