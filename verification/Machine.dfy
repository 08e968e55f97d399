/** The gateway as a step machine: every locked section of a call is one step, and calls interleave
    freely between their sections (internal/ingestion/application/service.go). */
module Machine {
  import opened Values
  import opened Ingestion
  import opened DeadLetters
  import Catalogs
  import Contracts
  import Registry

  /** Who publishes: a client, or a replay of a letter. */
  datatype Origin = Client | ReplayOf(letter: string, actor: string)

  /** A call between two of its sections. */
  datatype Call =
    | Waiting(origin: Origin, event: Event)
    | Entered(origin: Origin, event: Event)
    | Looked(origin: Origin, event: Event, found: Option<Contracts.Data>)
    | Checked(origin: Origin, event: Event, reasons: seq<string>)
    | Finishing(origin: Origin, ok: bool)

  /** A history of what was admitted, committed, begun and ended; `busy` tells that a call with the same
      key was in flight. */
  datatype Entry =
    | Admission(event: Event, busy: bool)
    | Commitment(event: Event)
    | Beginning(letter: string)
    | Ending(letter: string)

  datatype System = System(
    registry: Registry.State, service: Service, calls: map<nat, Call>, log: seq<Entry>, rules: Catalogs.History)

  const START := System(Registry.INITIAL, NEW, map[], [], map[])

  datatype Action =
    | ClientEnters(id: nat, event: Event, freshId: string, start: int)
    | ReplayBegins(id: nat, letter: string, actor: string, freshKey: string, now: int)
    | ReplayEnters(id: nat, freshId: string, start: int)
    | LooksUp(id: nat)
    | Checks(id: nat, now: int, later: int)
    | Commits(id: nat, attemptId: string, letterId: string, now: int)
    | ReplayEnds(id: nat, now: int)
    | ChangesRules(change: Catalogs.Action)
    | Prunes(now: int)
    | ChangesContracts(move: Registry.Action)

  /** The call has consumed quota and not committed yet. */
  predicate Publishing(c: Call) {
    c.Entered? || c.Looked? || c.Checked?
  }

  predicate Busy(calls: map<nat, Call>, key: string) {
    exists i | i in calls :: Publishing(calls[i]) && KeyOf(calls[i].event) == key
  }

  function Admit(m: System, id: nat, origin: Origin, e: Event, usage: map<string, Quota>): System {
    m.(service := m.service.(usage := usage),
       calls := m.calls[id := Entered(origin, e)],
       log := m.log + [Admission(e, Busy(m.calls, KeyOf(e)))])
  }

  function ClientStep(cfg: Config, m: System, id: nat, e: Event): System {
    if id in m.calls then m
    else match Enter(cfg, m.service, e)
      case Admitted(usage) => Admit(m, id, Client, e, usage)
      case _ => m
  }

  function BeginStep(m: System, id: nat, letter: string, actor: string, freshKey: string, now: int): System {
    if id in m.calls || !CanReplay(m.service, letter) then m
    else
      m.(service := BeginReplay(m.service, letter, actor, now),
         calls := m.calls[id := Waiting(ReplayOf(letter, actor), ReplayEvent(m.service, letter, freshKey))],
         log := m.log + [Beginning(letter)])
  }

  function ReenterStep(cfg: Config, m: System, id: nat, freshId: string, start: int): System {
    if id !in m.calls || !m.calls[id].Waiting? then m
    else
      var o, e := m.calls[id].origin, Prepared(m.calls[id].event, freshId, start);
      match Enter(cfg, m.service, e)
      case Refused(_) => m.(calls := m.calls[id := Finishing(o, false)])
      case Known(r) => m.(calls := m.calls[id := Finishing(o, r.status == Accepted)])
      case Admitted(usage) => Admit(m, id, o, e, usage)
  }

  function LookStep(m: System, id: nat): System {
    if id !in m.calls || !m.calls[id].Entered? then m
    else
      var c := m.calls[id];
      var k := Registry.Key(c.event.tenant, c.event.contract);
      var found := if k in m.registry.values then Some(m.registry.values[k]) else None;
      m.(calls := m.calls[id := Looked(c.origin, c.event, found)])
  }

  function CheckStep(cfg: Config, m: System, id: nat, now: int, later: int): System {
    if id !in m.calls || !m.calls[id].Looked? then m
    else
      var c := m.calls[id];
      var rules := Catalogs.Live(m.service.policy, c.event.contract);
      m.(calls := m.calls[id := Checked(c.origin, c.event, Reasons(cfg, c.event, now, later, c.found, rules))])
  }

  /** A letter needs a fresh id; ids are never empty. */
  function CommitStep(m: System, id: nat, attemptId: string, letterId: string, now: int): System {
    if id !in m.calls || !m.calls[id].Checked? || (m.calls[id].reasons != [] && letterId in m.service.letters) then m
    else
      var c := m.calls[id];
      m.(service := Commit(m.service, c.event, c.reasons, attemptId, letterId, now),
         calls := if c.origin.Client? then m.calls - {id} else m.calls[id := Finishing(c.origin, c.reasons == [])],
         log := m.log + [Commitment(c.event)])
  }

  function EndStep(m: System, id: nat, now: int): System {
    if id !in m.calls || !m.calls[id].Finishing? || !m.calls[id].origin.ReplayOf?
       || m.calls[id].origin.letter !in m.service.letters then m
    else
      var c := m.calls[id];
      m.(service := FinishReplay(m.service, c.origin.letter, c.ok, c.origin.actor, now),
         calls := m.calls - {id},
         log := m.log + [Ending(c.origin.letter)])
  }

  function RulesStep(cfg: Config, m: System, change: Catalogs.Action): System {
    m.(service := m.service.(policy := Catalogs.Act(cfg.host, m.service.policy, change)),
       rules := Catalogs.Record(cfg.host, m.service.policy, m.rules, change))
  }

  function Step(cfg: Config, m: System, a: Action): System {
    match a
    case ClientEnters(id, event, freshId, start) =>
      if freshId == "" then m else ClientStep(cfg, m, id, Prepared(event, freshId, start))
    case ReplayBegins(id, letter, actor, freshKey, now) => BeginStep(m, id, letter, actor, freshKey, now)
    case ReplayEnters(id, freshId, start) => if freshId == "" then m else ReenterStep(cfg, m, id, freshId, start)
    case LooksUp(id) => LookStep(m, id)
    case Checks(id, now, later) => CheckStep(cfg, m, id, now, later)
    case Commits(id, attemptId, letterId, now) => CommitStep(m, id, attemptId, letterId, now)
    case ReplayEnds(id, now) => EndStep(m, id, now)
    case ChangesRules(change) => RulesStep(cfg, m, change)
    case Prunes(now) => m.(service := Prune(m.service, now))
    case ChangesContracts(move) => m.(registry := Registry.Step(cfg.host, m.registry, move))
  }

  /** The state after a run; a step that is not enabled changes nothing. */
  function Run(cfg: Config, m: System, actions: seq<Action>): System
    decreases |actions|
  {
    if actions == [] then m else Run(cfg, Step(cfg, m, actions[0]), actions[1..])
  }

  lemma {:induction false} RunSplit(cfg: Config, m: System, a: seq<Action>, b: seq<Action>)
    ensures Run(cfg, m, a + b) == Run(cfg, Run(cfg, m, a), b)
    decreases |a|
  {
    hide Step;
    if a == [] {
      assert a + b == b;
    } else {
      RunSplit(cfg, Step(cfg, m, a[0]), a[1..], b);
      assert (a + b)[1..] == a[1..] + b;
    }
  }

  lemma RunMore(cfg: Config, m: System, actions: seq<Action>, a: Action)
    ensures Run(cfg, m, actions + [a]) == Step(cfg, Run(cfg, m, actions), a)
  {
    hide Step;
    RunSplit(cfg, m, actions, [a]);
    var n := Run(cfg, m, actions);
    assert Run(cfg, n, [a]) == Run(cfg, Step(cfg, n, a), []);
  }

  // ---------------------------------------------------------------- what a step leaves alone

  /** The letters are the same, and for the same events. */
  ghost predicate SameLetters(s: map<string, Letter>, t: map<string, Letter>) {
    && t.Keys == s.Keys
    && forall l | l in s :: t[l].eventId == s[l].eventId && t[l].tenant == s[l].tenant && t[l].payload == s[l].payload && t[l].reason == s[l].reason
  }

  /** What no step but a commit changes. */
  ghost predicate Uncommitted(m: System, n: System) {
    && n.service.seen == m.service.seen && n.service.events == m.service.events
    && n.service.attempts == m.service.attempts && SameLetters(m.service.letters, n.service.letters)
    && (n.log == m.log || exists x: Entry :: !x.Commitment? && n.log == m.log + [x])
  }

  /** What only pruning, replaying and changes of rules and contracts touch. */
  ghost predicate Aloof(m: System, n: System) {
    && n.service.lineages == m.service.lineages && n.service.letters == m.service.letters
    && n.service.policy == m.service.policy && n.rules == m.rules && n.registry == m.registry
  }

  lemma ClientFrame(cfg: Config, m: System, id: nat, e: Event)
    ensures Uncommitted(m, ClientStep(cfg, m, id, e)) && Aloof(m, ClientStep(cfg, m, id, e))
  {
    hide Enter, KeyOf, Busy;
    if ClientStep(cfg, m, id, e) != m {
      assert ClientStep(cfg, m, id, e).log == m.log + [Admission(e, Busy(m.calls, KeyOf(e)))];
    }
  }

  lemma ReenterFrame(cfg: Config, m: System, id: nat, freshId: string, start: int)
    ensures Uncommitted(m, ReenterStep(cfg, m, id, freshId, start)) && Aloof(m, ReenterStep(cfg, m, id, freshId, start))
  {
    hide Enter, KeyOf, Busy, Prepared;
    var n := ReenterStep(cfg, m, id, freshId, start);
    if n.log != m.log {
      var e := Prepared(m.calls[id].event, freshId, start);
      assert n.log == m.log + [Admission(e, Busy(m.calls, KeyOf(e)))];
    }
  }

  lemma LookFrame(m: System, id: nat)
    ensures Uncommitted(m, LookStep(m, id)) && Aloof(m, LookStep(m, id))
  {
    hide Registry.Key;
  }

  lemma CheckFrame(cfg: Config, m: System, id: nat, now: int, later: int)
    ensures Uncommitted(m, CheckStep(cfg, m, id, now, later)) && Aloof(m, CheckStep(cfg, m, id, now, later))
  {
    hide Reasons;
  }

  lemma BeginFrame(m: System, id: nat, letter: string, actor: string, freshKey: string, now: int)
    ensures var n := BeginStep(m, id, letter, actor, freshKey, now);
            Uncommitted(m, n) && n.service == m.service.(letters := n.service.letters) && n.registry == m.registry && n.rules == m.rules
  {
    hide ReplayEvent, CanBegin;
    var n := BeginStep(m, id, letter, actor, freshKey, now);
    if n != m {
      assert n.log == m.log + [Beginning(letter)];
    }
  }

  lemma EndFrame(m: System, id: nat, now: int)
    ensures var n := EndStep(m, id, now);
            Uncommitted(m, n) && n.service == m.service.(letters := n.service.letters) && n.registry == m.registry && n.rules == m.rules
  {
    var n := EndStep(m, id, now);
    if n != m {
      assert n.log == m.log + [Ending(m.calls[id].origin.letter)];
    }
  }

  /** A step that commits nothing leaves receipts, events and attempts alone, and all else but what its
      action is about. */
  lemma StepFrame(cfg: Config, m: System, a: Action)
    requires !a.Commits?
    ensures var n := Step(cfg, m, a);
            && Uncommitted(m, n)
            && (!a.Prunes? ==> n.service.lineages == m.service.lineages)
            && (!a.ReplayBegins? && !a.ReplayEnds? ==> n.service.letters == m.service.letters)
            && (!a.ChangesRules? ==> n.service.policy == m.service.policy && n.rules == m.rules)
            && (!a.ChangesContracts? ==> n.registry == m.registry)
  {
    hide Uncommitted, ClientStep, ReenterStep, LookStep, CheckStep, BeginStep, EndStep, Prepared;
    match a
    case ClientEnters(id, event, freshId, start) =>
      if freshId == "" {
        NoStepFrame(m);
      } else {
        ClientFrame(cfg, m, id, Prepared(event, freshId, start));
      }
    case ReplayBegins(id, letter, actor, freshKey, now) => BeginFrame(m, id, letter, actor, freshKey, now);
    case ReplayEnters(id, freshId, start) =>
      if freshId == "" {
        NoStepFrame(m);
      } else {
        ReenterFrame(cfg, m, id, freshId, start);
      }
    case LooksUp(id) => LookFrame(m, id);
    case Checks(id, now, later) => CheckFrame(cfg, m, id, now, later);
    case ReplayEnds(id, now) => EndFrame(m, id, now);
    case _ => OtherFrame(cfg, m, a);
  }

  lemma NoStepFrame(m: System)
    ensures Uncommitted(m, m)
  {
  }

  lemma OtherFrame(cfg: Config, m: System, a: Action)
    requires a.ChangesRules? || a.Prunes? || a.ChangesContracts?
    ensures Uncommitted(m, Step(cfg, m, a))
  {
    hide Catalogs.Act, Catalogs.Record, Registry.Step;
  }

  /** The log only grows, by one entry at most. */
  lemma LogGrows(cfg: Config, m: System, a: Action)
    ensures m.log <= Step(cfg, m, a).log && |Step(cfg, m, a).log| <= |m.log| + 1
  {
    if a.Commits? {
      hide Commit;
    } else {
      StepFrame(cfg, m, a);
    }
  }

  lemma {:induction false} RunLogGrows(cfg: Config, m: System, actions: seq<Action>)
    ensures m.log <= Run(cfg, m, actions).log
    decreases |actions|
  {
    if actions != [] {
      LogGrows(cfg, m, actions[0]);
      hide Step;
      RunLogGrows(cfg, Step(cfg, m, actions[0]), actions[1..]);
    }
  }

  // ---------------------------------------------------------------- what is committed was admitted

  /** The events of publishes in flight have a property, */
  ghost predicate Flying(m: System, good: Event -> bool) {
    forall i | i in m.calls && Publishing(m.calls[i]) :: good(m.calls[i].event)
  }

  /** and so have those admitted, */
  ghost predicate AdmitsOnly(log: seq<Entry>, from: nat, good: Event -> bool) {
    forall k | from <= k < |log| && log[k].Admission? :: good(log[k].event)
  }

  /** and those committed, in a part of the log. */
  ghost predicate CommitsOnly(log: seq<Entry>, from: nat, good: Event -> bool) {
    forall k | from <= k < |log| && log[k].Commitment? :: good(log[k].event)
  }

  lemma AdmitFlies(m: System, id: nat, origin: Origin, e: Event, usage: map<string, Quota>, good: Event -> bool)
    requires Flying(m, good) && AdmitsOnly(Admit(m, id, origin, e, usage).log, |m.log|, good)
    ensures Flying(Admit(m, id, origin, e, usage), good) && CommitsOnly(Admit(m, id, origin, e, usage).log, |m.log|, good)
  {
    hide KeyOf, Busy;
    var log := Admit(m, id, origin, e, usage).log;
    assert log[|m.log|] == Admission(e, Busy(m.calls, KeyOf(e)));
  }

  lemma EntryFlies(cfg: Config, m: System, a: Action, good: Event -> bool)
    requires a.ClientEnters? || a.ReplayEnters?
    requires Flying(m, good) && AdmitsOnly(Step(cfg, m, a).log, |m.log|, good)
    ensures Flying(Step(cfg, m, a), good) && CommitsOnly(Step(cfg, m, a).log, |m.log|, good)
  {
    hide Enter, Prepared, Admit, AdmitsOnly, CommitsOnly;
    var n := Step(cfg, m, a);
    if n.log == m.log {
      assert CommitsOnly(n.log, |m.log|, good) by { NoCommits(m.log, good); }
    }
    if a.freshId != "" && (if a.ClientEnters? then a.id !in m.calls else a.id in m.calls && m.calls[a.id].Waiting?) {
      var e := Prepared(if a.ClientEnters? then a.event else m.calls[a.id].event, a.freshId, a.start);
      var o := if a.ClientEnters? then Client else m.calls[a.id].origin;
      match Enter(cfg, m.service, e)
      case Admitted(usage) => AdmitFlies(m, a.id, o, e, usage, good);
      case _ =>
    }
  }

  lemma NoCommits(log: seq<Entry>, good: Event -> bool)
    ensures CommitsOnly(log, |log|, good)
  {
  }

  lemma CommitFlies(m: System, id: nat, attemptId: string, letterId: string, now: int, good: Event -> bool)
    requires Flying(m, good)
    ensures var n := CommitStep(m, id, attemptId, letterId, now); Flying(n, good) && CommitsOnly(n.log, |m.log|, good)
  {
    hide Commit;
  }

  /** The other sections move a publish on or are not about one. */
  lemma MoveFlies(cfg: Config, m: System, a: Action, good: Event -> bool)
    requires !a.ClientEnters? && !a.ReplayEnters? && !a.Commits? && Flying(m, good)
    ensures Flying(Step(cfg, m, a), good)
  {
    hide Reasons, ReplayEvent, CanReplay, BeginReplay, FinishReplay, Registry.Key;
  }

  lemma FlyingStep(cfg: Config, m: System, a: Action, good: Event -> bool)
    requires Flying(m, good) && AdmitsOnly(Step(cfg, m, a).log, |m.log|, good)
    ensures Flying(Step(cfg, m, a), good) && CommitsOnly(Step(cfg, m, a).log, |m.log|, good)
  {
    if a.ClientEnters? || a.ReplayEnters? {
      hide Step;
      EntryFlies(cfg, m, a, good);
    } else if a.Commits? {
      CommitFlies(m, a.id, a.attemptId, a.letterId, a.now, good);
    } else {
      hide Step, Flying;
      MoveFlies(cfg, m, a, good);
      StepFrame(cfg, m, a);
    }
  }

  /** Whatever is committed in a run was in flight when it began or is admitted in it. */
  lemma {:induction false} FlyingRun(cfg: Config, m: System, actions: seq<Action>, good: Event -> bool)
    requires Flying(m, good) && AdmitsOnly(Run(cfg, m, actions).log, |m.log|, good)
    ensures Flying(Run(cfg, m, actions), good) && CommitsOnly(Run(cfg, m, actions).log, |m.log|, good)
    decreases |actions|
  {
    hide Step, Flying;
    if actions != [] {
      var n := Step(cfg, m, actions[0]);
      LogGrows(cfg, m, actions[0]);
      RunLogGrows(cfg, n, actions[1..]);
      assert forall k | 0 <= k < |n.log| :: n.log[k] == Run(cfg, m, actions).log[k];
      FlyingStep(cfg, m, actions[0], good);
      FlyingRun(cfg, n, actions[1..], good);
    }
  }

  // ---------------------------------------------------------------- counting

  /** The calls a predicate selects. */
  function Where(calls: map<nat, Call>, p: Call -> bool): set<nat> {
    set i | i in calls && p(calls[i])
  }

  function One(b: bool): nat {
    if b then 1 else 0
  }

  lemma WhereAdd(calls: map<nat, Call>, id: nat, c: Call, p: Call -> bool)
    requires id !in calls
    ensures |Where(calls[id := c], p)| == |Where(calls, p)| + One(p(c))
  {
    var before, after := Where(calls, p), Where(calls[id := c], p);
    forall i
      ensures i in after <==> i in before || (i == id && p(c))
    {
    }
    if p(c) {
      assert after == before + {id};
    } else {
      assert after == before;
    }
  }

  lemma WhereRemove(calls: map<nat, Call>, id: nat, p: Call -> bool)
    requires id in calls
    ensures |Where(calls - {id}, p)| + One(p(calls[id])) == |Where(calls, p)|
  {
    var before := Where(calls, p);
    assert Where(calls - {id}, p) == before - {id};
  }

  lemma WhereChange(calls: map<nat, Call>, id: nat, c: Call, p: Call -> bool)
    requires id in calls
    ensures |Where(calls[id := c], p)| + One(p(calls[id])) == |Where(calls, p)| + One(p(c))
  {
    WhereRemove(calls, id, p);
    WhereAdd(calls - {id}, id, c, p);
    assert (calls - {id})[id := c] == calls[id := c];
  }

  /** The number of log entries a predicate selects. */
  function Tally(log: seq<Entry>, p: Entry -> bool): nat {
    if log == [] then 0 else Tally(log[..|log| - 1], p) + One(p(log[|log| - 1]))
  }

  lemma TallyMore(log: seq<Entry>, x: Entry, p: Entry -> bool)
    ensures Tally(log + [x], p) == Tally(log, p) + One(p(x))
  {
    assert (log + [x])[..|log|] == log;
  }

  /** Calls in flight: all, with a key, for a letter. */
  function InFlight(): Call -> bool {
    (c: Call) => Publishing(c)
  }

  function WithKey(key: string): Call -> bool {
    (c: Call) => Publishing(c) && KeyOf(c.event) == key
  }

  function ForLetter(letter: string): Call -> bool {
    (c: Call) => c.origin.ReplayOf? && c.origin.letter == letter
  }

  function IsAdmission(): Entry -> bool {
    (x: Entry) => x.Admission?
  }

  function IsCommitment(): Entry -> bool {
    (x: Entry) => x.Commitment?
  }

  function AdmissionOf(key: string): Entry -> bool {
    (x: Entry) => x.Admission? && KeyOf(x.event) == key
  }

  function OverlapOf(key: string): Entry -> bool {
    (x: Entry) => x.Admission? && KeyOf(x.event) == key && x.busy
  }

  function CommitmentOf(key: string): Entry -> bool {
    (x: Entry) => x.Commitment? && KeyOf(x.event) == key
  }

  function CommitmentTo(eventId: string): Entry -> bool {
    (x: Entry) => x.Commitment? && x.event.id == eventId
  }

  /** The same by tenant and key, which tell more than the two joined by a slash. */
  function WithPair(tenant: string, key: string): Call -> bool {
    (c: Call) => Publishing(c) && c.event.tenant == tenant && c.event.key == key
  }

  function OverlapBy(tenant: string, key: string): Entry -> bool {
    (x: Entry) => x.Admission? && x.event.tenant == tenant && x.event.key == key && x.busy
  }

  function CommitmentBy(tenant: string, key: string): Entry -> bool {
    (x: Entry) => x.Commitment? && x.event.tenant == tenant && x.event.key == key
  }

  lemma {:induction false} TallySame(log: seq<Entry>, p: Entry -> bool, q: Entry -> bool)
    requires forall i | 0 <= i < |log| :: p(log[i]) == q(log[i])
    ensures Tally(log, p) == Tally(log, q)
  {
    if log != [] {
      TallySame(log[..|log| - 1], p, q);
    }
  }

  function BeginningOf(letter: string): Entry -> bool {
    (x: Entry) => x.Beginning? && x.letter == letter
  }

  function EndingOf(letter: string): Entry -> bool {
    (x: Entry) => x.Ending? && x.letter == letter
  }

  lemma BusyIff(calls: map<nat, Call>, key: string)
    ensures Busy(calls, key) <==> |Where(calls, WithKey(key))| > 0
  {
    var w := Where(calls, WithKey(key));
    if Busy(calls, key) {
      var i :| i in calls && Publishing(calls[i]) && KeyOf(calls[i].event) == key;
      assert i in w;
    }
    if |w| > 0 {
      var i :| i in w;
    }
  }
}
