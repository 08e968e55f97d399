/** Idempotency of publishing under every interleaving. */
module Idempotency {
  import opened Ingestion
  import opened DeadLetters
  import opened Machine
  import Catalogs
  import Registry
  import Conservation

  /** A key is known exactly when something was committed under it, and was admitted at most once exactly
      when it was never admitted while a call with it was in flight. */
  ghost predicate KeyInv(m: System, key: string) {
    && Conservation.Balanced(m, WithKey(key), AdmissionOf(key), CommitmentOf(key))
    && (key in m.service.seen <==> Tally(m.log, CommitmentOf(key)) > 0)
    && (Tally(m.log, AdmissionOf(key)) <= 1 <==> Tally(m.log, OverlapOf(key)) == 0)
  }

  lemma AdmitOnce(m: System, id: nat, o: Origin, e: Event, usage: map<string, Quota>, key: string)
    requires KeyInv(m, key) && KeyOf(e) !in m.service.seen
    ensures var n := Admit(m, id, o, e, usage);
            && Tally(n.log, CommitmentOf(key)) == Tally(m.log, CommitmentOf(key))
            && (Tally(n.log, AdmissionOf(key)) <= 1 <==> Tally(n.log, OverlapOf(key)) == 0)
  {
    hide KeyOf, Busy;
    var x := Admission(e, Busy(m.calls, KeyOf(e)));
    TallyMore(m.log, x, AdmissionOf(key));
    TallyMore(m.log, x, OverlapOf(key));
    TallyMore(m.log, x, CommitmentOf(key));
    BusyIff(m.calls, key);
  }

  lemma EnterUnknown(cfg: Config, s: Service, e: Event)
    requires Enter(cfg, s, e).Admitted?
    ensures KeyOf(e) !in s.seen
  {
  }

  /** Other log entries say nothing about a key. */
  lemma SilentEntry(log: seq<Entry>, x: Entry, key: string)
    requires !x.Admission? && !(x.Commitment? && KeyOf(x.event) == key)
    ensures Tally(log + [x], AdmissionOf(key)) == Tally(log, AdmissionOf(key))
    ensures Tally(log + [x], OverlapOf(key)) == Tally(log, OverlapOf(key))
    ensures Tally(log + [x], CommitmentOf(key)) == Tally(log, CommitmentOf(key))
  {
    TallyMore(log, x, AdmissionOf(key));
    TallyMore(log, x, OverlapOf(key));
    TallyMore(log, x, CommitmentOf(key));
  }

  lemma CommitKnown(m: System, id: nat, attemptId: string, letterId: string, now: int, key: string)
    requires KeyInv(m, key)
    ensures var n := CommitStep(m, id, attemptId, letterId, now);
            && (key in n.service.seen <==> Tally(n.log, CommitmentOf(key)) > 0)
            && (Tally(n.log, AdmissionOf(key)) <= 1 <==> Tally(n.log, OverlapOf(key)) == 0)
  {
    hide KeyOf, NewLetter, NewLineage, NewReceipt, NewAttempt, AttemptsOf, Conservation.Balanced, Tally;
    if id in m.calls && m.calls[id].Checked? {
      var x := Commitment(m.calls[id].event);
      TallyMore(m.log, x, AdmissionOf(key));
      TallyMore(m.log, x, OverlapOf(key));
      TallyMore(m.log, x, CommitmentOf(key));
    }
  }

  /** The steps that neither admit nor commit. */
  predicate Quiet(cfg: Config, m: System, a: Action) {
    match a
    case ClientEnters(_, event, freshId, start) => Step(cfg, m, a) == m
    case ReplayEnters(_, _, _) => Step(cfg, m, a).log == m.log
    case Commits(_, _, _, _) => Step(cfg, m, a) == m
    case _ => true
  }

  lemma QuietLog(cfg: Config, m: System, a: Action)
    requires Quiet(cfg, m, a)
    ensures Step(cfg, m, a).service.seen == m.service.seen
    ensures Step(cfg, m, a).log == m.log
            || exists x: Entry :: !x.Admission? && !x.Commitment? && Step(cfg, m, a).log == m.log + [x]
  {
    hide Enter, KeyOf, Reasons, ReplayEvent, Busy, Catalogs.Act, Catalogs.Record, Registry.Step, Prepared, CanBegin, Begun, Finished, Commit;
    if Step(cfg, m, a).log != m.log {
      var x := if a.ReplayBegins? then Beginning(a.letter) else Ending(m.calls[a.id].origin.letter);
      assert Step(cfg, m, a).log == m.log + [x];
    }
  }

  lemma KeyInvStep(cfg: Config, m: System, a: Action, key: string)
    requires KeyInv(m, key)
    ensures KeyInv(Step(cfg, m, a), key)
  {
    Conservation.PublishesOfFit(key);
    Conservation.BalancedStep(cfg, m, a, WithKey(key), AdmissionOf(key), CommitmentOf(key));
    if Quiet(cfg, m, a) {
      hide Step, Quiet, Conservation.Balanced, Conservation.Fits, Tally;
      QuietLog(cfg, m, a);
      if Step(cfg, m, a).log != m.log {
        var x: Entry :| !x.Admission? && !x.Commitment? && Step(cfg, m, a).log == m.log + [x];
        SilentEntry(m.log, x, key);
      }
    } else {
      LoudStep(cfg, m, a, key);
    }
  }

  lemma LoudStep(cfg: Config, m: System, a: Action, key: string)
    requires KeyInv(m, key) && !Quiet(cfg, m, a)
    ensures var n := Step(cfg, m, a);
            && (key in n.service.seen <==> Tally(n.log, CommitmentOf(key)) > 0)
            && (Tally(n.log, AdmissionOf(key)) <= 1 <==> Tally(n.log, OverlapOf(key)) == 0)
  {
    hide KeyInv, Enter, KeyOf, Admit, CommitStep, Reasons, Tally;
    match a
    case ClientEnters(id, event, freshId, start) =>
      var e := Prepared(event, freshId, start);
      AdmitKnown(cfg, m, id, Client, e, key);
    case ReplayEnters(id, freshId, start) =>
      var e := Prepared(m.calls[id].event, freshId, start);
      AdmitKnown(cfg, m, id, m.calls[id].origin, e, key);
    case Commits(id, attemptId, letterId, now) => CommitKnown(m, id, attemptId, letterId, now, key);
  }

  lemma AdmitKnown(cfg: Config, m: System, id: nat, o: Origin, e: Event, key: string)
    requires KeyInv(m, key) && Enter(cfg, m.service, e).Admitted?
    ensures var n := Admit(m, id, o, e, Enter(cfg, m.service, e).usage);
            && (key in n.service.seen <==> Tally(n.log, CommitmentOf(key)) > 0)
            && (Tally(n.log, AdmissionOf(key)) <= 1 <==> Tally(n.log, OverlapOf(key)) == 0)
  {
    EnterUnknown(cfg, m.service, e);
    AdmitOnce(m, id, o, e, Enter(cfg, m.service, e).usage, key);
  }

  lemma StartKeys(key: string)
    ensures KeyInv(START, key)
  {
    assert Where(START.calls, WithKey(key)) == {};
  }

  lemma {:induction false} KeyInvRun(cfg: Config, m: System, actions: seq<Action>, key: string)
    requires KeyInv(m, key)
    ensures KeyInv(Run(cfg, m, actions), key)
    decreases |actions|
  {
    if actions != [] {
      hide Step, KeyInv;
      KeyInvStep(cfg, m, actions[0], key);
      KeyInvRun(cfg, Step(cfg, m, actions[0]), actions[1..], key);
    }
  }

  /** In every run a key that no call was admitted with while another was in flight is committed at most
      once; once nothing is in flight for it, it was committed at most once only if so. */
  lemma CommittedAtMostOnce(cfg: Config, actions: seq<Action>, key: string)
    ensures var n := Run(cfg, START, actions);
            && (Tally(n.log, OverlapOf(key)) == 0 ==> Tally(n.log, CommitmentOf(key)) <= 1)
            && (|Where(n.calls, WithKey(key))| == 0 ==>
                  (Tally(n.log, CommitmentOf(key)) <= 1 <==> Tally(n.log, OverlapOf(key)) == 0))
  {
    hide Run, Tally;
    StartKeys(key);
    KeyInvRun(cfg, START, actions, key);
  }

  /** The tenant has no slash. */
  predicate SlashFree(e: Event) {
    '/' !in e.tenant
  }

  lemma PairKey(e: Event, tenant: string, key: string)
    requires SlashFree(e) && '/' !in tenant
    ensures KeyOf(e) == SeenKey(tenant, key) <==> e.tenant == tenant && e.key == key
  {
    if KeyOf(e) == SeenKey(tenant, key) {
      SeenKeyInjective(e.tenant, e.key, tenant, key);
    }
  }

  lemma PairTallies(n: System, tenant: string, key: string)
    requires '/' !in tenant && Flying(n, SlashFree) && AdmitsOnly(n.log, 0, SlashFree) && CommitsOnly(n.log, 0, SlashFree)
    ensures Tally(n.log, OverlapBy(tenant, key)) == Tally(n.log, OverlapOf(SeenKey(tenant, key)))
    ensures Tally(n.log, CommitmentBy(tenant, key)) == Tally(n.log, CommitmentOf(SeenKey(tenant, key)))
    ensures Where(n.calls, WithPair(tenant, key)) == Where(n.calls, WithKey(SeenKey(tenant, key)))
  {
    hide Tally, SeenKey, KeyOf;
    forall i | 0 <= i < |n.log| && (n.log[i].Admission? || n.log[i].Commitment?)
      ensures KeyOf(n.log[i].event) == SeenKey(tenant, key) <==> n.log[i].event.tenant == tenant && n.log[i].event.key == key
    {
      PairKey(n.log[i].event, tenant, key);
    }
    TallySame(n.log, OverlapBy(tenant, key), OverlapOf(SeenKey(tenant, key)));
    TallySame(n.log, CommitmentBy(tenant, key), CommitmentOf(SeenKey(tenant, key)));
    forall i | i in n.calls && Publishing(n.calls[i])
      ensures KeyOf(n.calls[i].event) == SeenKey(tenant, key) <==> n.calls[i].event.tenant == tenant && n.calls[i].event.key == key
    {
      PairKey(n.calls[i].event, tenant, key);
    }
  }

  /** The same, tenant by tenant: if no tenant that was admitted has a slash in its name, then one of them
      has an idempotency key committed at most once unless its own calls with that key overlapped, and once
      nothing is in flight for the two, only then. */
  lemma TenantCommitsAtMostOnce(cfg: Config, actions: seq<Action>, tenant: string, key: string)
    requires AdmitsOnly(Run(cfg, START, actions).log, 0, SlashFree) && '/' !in tenant
    ensures var n := Run(cfg, START, actions);
            && (Tally(n.log, OverlapBy(tenant, key)) == 0 ==> Tally(n.log, CommitmentBy(tenant, key)) <= 1)
            && (|Where(n.calls, WithPair(tenant, key))| == 0 ==>
                  (Tally(n.log, CommitmentBy(tenant, key)) <= 1 <==> Tally(n.log, OverlapBy(tenant, key)) == 0))
  {
    hide Run, Tally, SeenKey;
    FlyingRun(cfg, START, actions, SlashFree);
    PairTallies(Run(cfg, START, actions), tenant, key);
    CommittedAtMostOnce(cfg, actions, SeenKey(tenant, key));
  }

  /** With slashes keys collide. */
  lemma SlashesCollide(tenant: string, rest: string, key: string)
    ensures SeenKey(tenant + "/" + rest, key) == SeenKey(tenant, rest + "/" + key)
  {
  }

  // ---------------------------------------------------------------- known keys stay known

  lemma SeenGrows(cfg: Config, m: System, a: Action, key: string)
    requires key in m.service.seen
    ensures key in Step(cfg, m, a).service.seen
  {
    if a.Commits? {
      hide KeyOf, NewLetter, NewLineage, NewReceipt, NewAttempt, AttemptsOf;
    } else {
      StepFrame(cfg, m, a);
    }
  }

  lemma {:induction false} SeenForever(cfg: Config, m: System, actions: seq<Action>, key: string)
    requires key in m.service.seen
    ensures key in Run(cfg, m, actions).service.seen
    decreases |actions|
  {
    if actions != [] {
      SeenGrows(cfg, m, actions[0], key);
      hide Step;
      SeenForever(cfg, Step(cfg, m, actions[0]), actions[1..], key);
    }
  }

  /** Once a key is known, every later publish with it, whatever else ran in between, returns the stored
      receipt flagged as a duplicate and changes nothing. */
  lemma DuplicateChangesNothing(cfg: Config, m: System, actions: seq<Action>, id: nat, e: Event, freshId: string, start: int)
    requires KeyOf(e) in m.service.seen && e.key != ""
    ensures var n := Run(cfg, m, actions);
            && KeyOf(e) in n.service.seen
            && Step(cfg, n, ClientEnters(id, e, freshId, start)) == n
            && Enter(cfg, n.service, Prepared(e, freshId, start)) == Known(n.service.seen[KeyOf(e)].(duplicate := true))
  {
    hide Run;
    SeenForever(cfg, m, actions, KeyOf(e));
  }

  lemma {:induction false} TallyGrows(log: seq<Entry>, more: seq<Entry>, p: Entry -> bool)
    ensures Tally(log, p) <= Tally(log + more, p)
    decreases |more|
  {
    if more == [] {
      assert log + more == log;
    } else {
      var front := more[..|more| - 1];
      TallyGrows(log, front, p);
      assert log + more == log + front + [more[|more| - 1]];
      TallyMore(log + front, more[|more| - 1], p);
    }
  }

  lemma {:induction false} RunGrows(cfg: Config, m: System, actions: seq<Action>, p: Entry -> bool)
    ensures Tally(m.log, p) <= Tally(Run(cfg, m, actions).log, p)
    decreases |actions|
  {
    if actions != [] {
      var n := Step(cfg, m, actions[0]);
      LogGrows(cfg, m, actions[0]);
      hide Step;
      assert n.log == m.log + n.log[|m.log|..];
      TallyGrows(m.log, n.log[|m.log|..], p);
      RunGrows(cfg, n, actions[1..], p);
    }
  }

  /** A call that is about to commit counts as in flight for its key. */
  lemma CheckedInFlight(m: System, id: nat, key: string)
    requires id in m.calls && m.calls[id].Checked? && KeyOf(m.calls[id].event) == key
    ensures |Where(m.calls, WithKey(key))| > 0
  {
    assert id in Where(m.calls, WithKey(key));
  }

  /** Without overlap no commit meets a known key. */
  lemma CommitMeetsNewKey(m: System, id: nat, key: string)
    requires KeyInv(m, key) && Tally(m.log, OverlapOf(key)) == 0
    requires id in m.calls && m.calls[id].Checked? && KeyOf(m.calls[id].event) == key
    ensures key !in m.service.seen
  {
    CheckedInFlight(m, id, key);
  }

  lemma ReceiptStep(cfg: Config, m: System, a: Action, key: string)
    requires KeyInv(m, key) && Tally(m.log, OverlapOf(key)) == 0 && key in m.service.seen
    ensures key in Step(cfg, m, a).service.seen && Step(cfg, m, a).service.seen[key] == m.service.seen[key]
  {
    hide KeyInv, Tally;
    if a.Commits? {
      hide KeyOf, NewLetter, NewLineage, NewReceipt, NewAttempt, AttemptsOf;
      if a.id in m.calls && m.calls[a.id].Checked? && KeyOf(m.calls[a.id].event) == key {
        CommitMeetsNewKey(m, a.id, key);
      }
    } else {
      StepFrame(cfg, m, a);
    }
  }

  /** Without overlap the receipt of a key never changes. */
  lemma {:induction false} ReceiptForever(cfg: Config, m: System, actions: seq<Action>, key: string)
    requires KeyInv(m, key) && key in m.service.seen && Tally(Run(cfg, m, actions).log, OverlapOf(key)) == 0
    ensures key in Run(cfg, m, actions).service.seen
    ensures Run(cfg, m, actions).service.seen[key] == m.service.seen[key]
    decreases |actions|
  {
    if actions != [] {
      var n := Step(cfg, m, actions[0]);
      RunGrows(cfg, m, actions, OverlapOf(key));
      ReceiptStep(cfg, m, actions[0], key);
      KeyInvStep(cfg, m, actions[0], key);
      hide Step, KeyInv;
      ReceiptForever(cfg, n, actions[1..], key);
    }
  }

  // ---------------------------------------------------------------- what is admitted at all

  predicate HasKey(e: Event) {
    e.key != ""
  }

  lemma EnterHasKey(cfg: Config, s: Service, e: Event)
    requires Enter(cfg, s, e).Admitted?
    ensures HasKey(e)
  {
  }

  lemma KeyStep(cfg: Config, m: System, a: Action)
    requires AdmitsOnly(m.log, 0, HasKey)
    ensures AdmitsOnly(Step(cfg, m, a).log, 0, HasKey)
  {
    hide Enter, KeyOf, Busy, HasKey, Reasons, Commit, CanReplay, BeginReplay, FinishReplay, ReplayEvent, Prepared, Catalogs.Act,
      Catalogs.Record, Registry.Step;
    if (a.ClientEnters? && Enter(cfg, m.service, Prepared(a.event, a.freshId, a.start)).Admitted?) {
      EnterHasKey(cfg, m.service, Prepared(a.event, a.freshId, a.start));
    } else if a.ReplayEnters? && a.id in m.calls && m.calls[a.id].Waiting?
              && Enter(cfg, m.service, Prepared(m.calls[a.id].event, a.freshId, a.start)).Admitted? {
      EnterHasKey(cfg, m.service, Prepared(m.calls[a.id].event, a.freshId, a.start));
    }
  }

  lemma {:induction false} KeyRun(cfg: Config, m: System, actions: seq<Action>)
    requires AdmitsOnly(m.log, 0, HasKey)
    ensures AdmitsOnly(Run(cfg, m, actions).log, 0, HasKey)
    decreases |actions|
  {
    if actions != [] {
      KeyStep(cfg, m, actions[0]);
      hide Step, AdmitsOnly;
      KeyRun(cfg, Step(cfg, m, actions[0]), actions[1..]);
    }
  }

  /** In every run only events with an idempotency key are admitted, and so only such are committed. */
  lemma {:induction false} KeysRequired(cfg: Config, actions: seq<Action>)
    ensures var log := Run(cfg, START, actions).log; AdmitsOnly(log, 0, HasKey) && CommitsOnly(log, 0, HasKey)
  {
    hide Run, HasKey;
    KeyRun(cfg, START, actions);
    FlyingRun(cfg, START, actions, HasKey);
  }
}
