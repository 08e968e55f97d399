/** What every interleaving of publishes and replays conserves: admissions, attempts, receipts, lineage
    and letters. */
module Conservation {
  import opened Ingestion
  import opened DeadLetters
  import opened Machine
  import Registry

  // ---------------------------------------------------------------- what is opened is closed or in flight

  /** The entries that open equal the entries that close plus the calls in between. */
  ghost predicate Balanced(m: System, between: Call -> bool, opens: Entry -> bool, closes: Entry -> bool) {
    Tally(m.log, opens) == Tally(m.log, closes) + |Where(m.calls, between)|
  }

  /** The three notions fit together, section by section: when a call enters, */
  ghost predicate FitsEntry(between: Call -> bool, opens: Entry -> bool, closes: Entry -> bool) {
    && (forall e, busy :: One(opens(Admission(e, busy))) == One(closes(Admission(e, busy))) + One(between(Entered(Client, e))))
    && (forall o, w, e, busy ::
          One(opens(Admission(e, busy))) + One(between(Waiting(o, w)))
          == One(closes(Admission(e, busy))) + One(between(Entered(o, e))))
  }

  /** while it moves on, */
  ghost predicate FitsMove(between: Call -> bool) {
    && (forall o, w, ok :: between(Waiting(o, w)) == between(Finishing(o, ok)))
    && (forall o, e, f :: between(Entered(o, e)) == between(Looked(o, e, f)))
    && (forall o, e, f, r :: between(Looked(o, e, f)) == between(Checked(o, e, r)))
  }

  /** when it commits, */
  ghost predicate FitsCommit(between: Call -> bool, opens: Entry -> bool, closes: Entry -> bool) {
    && (forall e: Event, r ::
          One(opens(Commitment(e))) + One(between(Checked(Client, e, r)))
          == One(closes(Commitment(e))))
    && (forall o, e: Event, r, ok ::
          One(opens(Commitment(e))) + One(between(Checked(o, e, r)))
          == One(closes(Commitment(e))) + One(between(Finishing(o, ok))))
  }

  /** and when a replay begins or ends. */
  ghost predicate FitsReplay(between: Call -> bool, opens: Entry -> bool, closes: Entry -> bool) {
    && (forall l, actor, w ::
          One(opens(Beginning(l))) == One(closes(Beginning(l))) + One(between(Waiting(ReplayOf(l, actor), w))))
    && (forall l, actor, ok ::
          One(opens(Ending(l))) + One(between(Finishing(ReplayOf(l, actor), ok))) == One(closes(Ending(l))))
  }

  ghost predicate Fits(between: Call -> bool, opens: Entry -> bool, closes: Entry -> bool) {
    && FitsEntry(between, opens, closes) && FitsMove(between)
    && FitsCommit(between, opens, closes) && FitsReplay(between, opens, closes)
  }

  /** One step: at most one entry, at most one call added, changed or removed. */
  lemma BalancedAfter(m: System, n: System, id: nat, x: Entry, between: Call -> bool, opens: Entry -> bool, closes: Entry -> bool)
    requires Balanced(m, between, opens, closes)
    requires n.log == m.log || n.log == m.log + [x]
    requires n.calls == m.calls - {id} || (id in n.calls && n.calls == m.calls[id := n.calls[id]])
    requires var before := if id in m.calls then One(between(m.calls[id])) else 0;
             var after := if id in n.calls then One(between(n.calls[id])) else 0;
             if n.log == m.log then before == after else One(opens(x)) + before == One(closes(x)) + after
    ensures Balanced(n, between, opens, closes)
  {
    TallyMore(m.log, x, opens);
    TallyMore(m.log, x, closes);
    if id !in n.calls {
      if id in m.calls {
        WhereRemove(m.calls, id, between);
      } else {
        assert m.calls - {id} == m.calls;
      }
    } else if id in m.calls {
      WhereChange(m.calls, id, n.calls[id], between);
    } else {
      WhereAdd(m.calls, id, n.calls[id], between);
    }
  }

  lemma ClientBalance(cfg: Config, m: System, id: nat, e: Event, between: Call -> bool, opens: Entry -> bool, closes: Entry -> bool)
    requires Balanced(m, between, opens, closes) && FitsEntry(between, opens, closes)
    ensures Balanced(ClientStep(cfg, m, id, e), between, opens, closes)
  {
    hide Enter, KeyOf, Busy, Balanced;
    var n := ClientStep(cfg, m, id, e);
    if n != m {
      BalancedAfter(m, n, id, Admission(e, Busy(m.calls, KeyOf(e))), between, opens, closes);
    }
  }

  lemma BeginBalance(m: System, id: nat, letter: string, actor: string, freshKey: string, now: int, between: Call -> bool, opens: Entry -> bool, closes: Entry -> bool)
    requires Balanced(m, between, opens, closes) && FitsReplay(between, opens, closes)
    ensures Balanced(BeginStep(m, id, letter, actor, freshKey, now), between, opens, closes)
  {
    hide CanReplay, BeginReplay, ReplayEvent, Balanced;
    var n := BeginStep(m, id, letter, actor, freshKey, now);
    if n != m {
      BalancedAfter(m, n, id, Beginning(letter), between, opens, closes);
    }
  }

  lemma ReenterBalance(cfg: Config, m: System, id: nat, freshId: string, start: int, between: Call -> bool, opens: Entry -> bool, closes: Entry -> bool)
    requires Balanced(m, between, opens, closes) && FitsEntry(between, opens, closes) && FitsMove(between)
    ensures Balanced(ReenterStep(cfg, m, id, freshId, start), between, opens, closes)
  {
    hide Enter, KeyOf, Busy, Prepared, Balanced;
    var n := ReenterStep(cfg, m, id, freshId, start);
    if n != m {
      var e := Prepared(m.calls[id].event, freshId, start);
      BalancedAfter(m, n, id, Admission(e, Busy(m.calls, KeyOf(e))), between, opens, closes);
    }
  }

  lemma LookBalance(m: System, id: nat, between: Call -> bool, opens: Entry -> bool, closes: Entry -> bool)
    requires Balanced(m, between, opens, closes) && FitsMove(between)
    ensures Balanced(LookStep(m, id), between, opens, closes)
  {
    hide Registry.Key, Balanced;
    var n := LookStep(m, id);
    if n != m {
      BalancedAfter(m, n, id, Beginning(""), between, opens, closes);
    }
  }

  lemma CheckBalance(cfg: Config, m: System, id: nat, now: int, later: int, between: Call -> bool, opens: Entry -> bool, closes: Entry -> bool)
    requires Balanced(m, between, opens, closes) && FitsMove(between)
    ensures Balanced(CheckStep(cfg, m, id, now, later), between, opens, closes)
  {
    hide Reasons, Balanced;
    var n := CheckStep(cfg, m, id, now, later);
    if n != m {
      BalancedAfter(m, n, id, Beginning(""), between, opens, closes);
    }
  }

  lemma CommitBalance(m: System, id: nat, attemptId: string, letterId: string, now: int, between: Call -> bool, opens: Entry -> bool, closes: Entry -> bool)
    requires Balanced(m, between, opens, closes) && FitsCommit(between, opens, closes)
    ensures Balanced(CommitStep(m, id, attemptId, letterId, now), between, opens, closes)
  {
    hide Commit, Balanced;
    var n := CommitStep(m, id, attemptId, letterId, now);
    if n != m {
      BalancedAfter(m, n, id, Commitment(m.calls[id].event), between, opens, closes);
    }
  }

  lemma EndBalance(m: System, id: nat, now: int, between: Call -> bool, opens: Entry -> bool, closes: Entry -> bool)
    requires Balanced(m, between, opens, closes) && FitsReplay(between, opens, closes)
    ensures Balanced(EndStep(m, id, now), between, opens, closes)
  {
    hide FinishReplay, Balanced;
    var n := EndStep(m, id, now);
    if n != m {
      BalancedAfter(m, n, id, Ending(m.calls[id].origin.letter), between, opens, closes);
    }
  }

  lemma BalancedStep(cfg: Config, m: System, a: Action, between: Call -> bool, opens: Entry -> bool, closes: Entry -> bool)
    requires Balanced(m, between, opens, closes) && Fits(between, opens, closes)
    ensures Balanced(Step(cfg, m, a), between, opens, closes)
  {
    hide Balanced, ClientStep, BeginStep, ReenterStep, LookStep, CheckStep, CommitStep, EndStep, Prepared, FitsEntry, FitsMove,
      FitsCommit, FitsReplay;
    match a
    case ClientEnters(id, event, freshId, start) =>
      if freshId != "" {
        ClientBalance(cfg, m, id, Prepared(event, freshId, start), between, opens, closes);
      }
    case ReplayBegins(id, letter, actor, freshKey, now) =>
      BeginBalance(m, id, letter, actor, freshKey, now, between, opens, closes);
    case ReplayEnters(id, freshId, start) =>
      if freshId != "" {
        ReenterBalance(cfg, m, id, freshId, start, between, opens, closes);
      }
    case LooksUp(id) => LookBalance(m, id, between, opens, closes);
    case Checks(id, now, later) => CheckBalance(cfg, m, id, now, later, between, opens, closes);
    case Commits(id, attemptId, letterId, now) => CommitBalance(m, id, attemptId, letterId, now, between, opens, closes);
    case ReplayEnds(id, now) => EndBalance(m, id, now, between, opens, closes);
    case _ => SameBalance(m, Step(cfg, m, a), between, opens, closes);
  }

  lemma SameBalance(m: System, n: System, between: Call -> bool, opens: Entry -> bool, closes: Entry -> bool)
    requires Balanced(m, between, opens, closes) && n.calls == m.calls && n.log == m.log
    ensures Balanced(n, between, opens, closes)
  {
  }

  /** Admissions against commitments, over all keys. */
  lemma PublishesFit()
    ensures Fits(InFlight(), IsAdmission(), IsCommitment())
  {
    hide KeyOf;
    assert FitsEntry(InFlight(), IsAdmission(), IsCommitment());
    assert FitsMove(InFlight());
    assert FitsCommit(InFlight(), IsAdmission(), IsCommitment());
    assert FitsReplay(InFlight(), IsAdmission(), IsCommitment());
  }

  /** Admissions against commitments of one key. */
  lemma PublishesOfFit(key: string)
    ensures Fits(WithKey(key), AdmissionOf(key), CommitmentOf(key))
  {
    KeyFitsCommit(key);
    hide KeyOf, FitsCommit;
    assert FitsEntry(WithKey(key), AdmissionOf(key), CommitmentOf(key));
    assert FitsMove(WithKey(key));
    assert FitsReplay(WithKey(key), AdmissionOf(key), CommitmentOf(key));
  }

  lemma KeyFitsCommit(key: string)
    ensures FitsCommit(WithKey(key), AdmissionOf(key), CommitmentOf(key))
  {
    hide KeyOf;
  }

  /** Beginnings of replays of one letter against endings. */
  lemma ReplaysFit(letter: string)
    ensures Fits(ForLetter(letter), BeginningOf(letter), EndingOf(letter))
  {
    hide KeyOf;
    assert FitsEntry(ForLetter(letter), BeginningOf(letter), EndingOf(letter));
    assert FitsMove(ForLetter(letter));
    assert FitsCommit(ForLetter(letter), BeginningOf(letter), EndingOf(letter));
    assert FitsReplay(ForLetter(letter), BeginningOf(letter), EndingOf(letter));
  }

  // ---------------------------------------------------------------- attempts

  /** The length of all attempt lists together. */
  ghost function Total(m: map<string, seq<Attempt>>): nat
    decreases |m|
  {
    if m == map[] then 0 else
      var k :| k in m;
      |m[k]| + Total(m - {k})
  }

  lemma {:induction false} TotalAt(m: map<string, seq<Attempt>>, k: string)
    requires k in m
    ensures Total(m) == |m[k]| + Total(m - {k})
    decreases |m|
  {
    var j :| j in m && Total(m) == |m[j]| + Total(m - {j});
    if j != k {
      TotalAt(m - {j}, k);
      TotalAt(m - {k}, j);
      assert m - {j} - {k} == m - {k} - {j};
    }
  }

  lemma TotalUpdate(m: map<string, seq<Attempt>>, k: string, v: seq<Attempt>)
    ensures Total(m[k := v]) + (if k in m then |m[k]| else 0) == Total(m) + |v|
  {
    TotalAt(m[k := v], k);
    assert m[k := v] - {k} == m - {k};
    if k in m {
      TotalAt(m, k);
    } else {
      assert m - {k} == m;
    }
  }

  /** Attempts are what was committed: in all, and event by event. */
  ghost predicate AttemptBooks(m: System) {
    && Total(m.service.attempts) == Tally(m.log, IsCommitment())
    && (forall id :: |AttemptsOf(m.service, id)| == Tally(m.log, CommitmentTo(id)))
  }

  lemma CommitAttemptBooks(m: System, id: nat, attemptId: string, letterId: string, now: int)
    requires AttemptBooks(m)
    ensures AttemptBooks(CommitStep(m, id, attemptId, letterId, now))
  {
    hide KeyOf, NewLetter, NewLineage, NewReceipt, Total, Tally;
    var n := CommitStep(m, id, attemptId, letterId, now);
    if n != m {
      var e := m.calls[id].event;
      var x := Commitment(e);
      TallyMore(m.log, x, IsCommitment());
      TotalUpdate(m.service.attempts, e.id, n.service.attempts[e.id]);
      forall i
        ensures |AttemptsOf(n.service, i)| == Tally(n.log, CommitmentTo(i))
      {
        TallyMore(m.log, x, CommitmentTo(i));
        assert |AttemptsOf(m.service, i)| == Tally(m.log, CommitmentTo(i));
      }
    }
  }

  lemma AttemptBooksStep(cfg: Config, m: System, a: Action)
    requires AttemptBooks(m)
    ensures AttemptBooks(Step(cfg, m, a))
  {
    if a.Commits? {
      CommitAttemptBooks(m, a.id, a.attemptId, a.letterId, a.now);
    } else {
      hide Step, Total, Tally;
      StepFrame(cfg, m, a);
      var n := Step(cfg, m, a);
      if n.log != m.log {
        var x: Entry :| !x.Commitment? && n.log == m.log + [x];
        TallyMore(m.log, x, IsCommitment());
        forall i
          ensures |AttemptsOf(n.service, i)| == Tally(n.log, CommitmentTo(i))
        {
          TallyMore(m.log, x, CommitmentTo(i));
          assert |AttemptsOf(m.service, i)| == Tally(m.log, CommitmentTo(i));
        }
      } else {
        forall i
          ensures |AttemptsOf(n.service, i)| == Tally(n.log, CommitmentTo(i))
        {
          assert |AttemptsOf(m.service, i)| == Tally(m.log, CommitmentTo(i));
        }
      }
    }
  }

  // ---------------------------------------------------------------- receipts, events and lineage

  /** The receipt is that of one of the attempts. */
  ghost predicate Receipted(attempts: seq<Attempt>, r: Receipt) {
    exists i :: 0 <= i < |attempts| && attempts[i].id == r.attemptId
                && attempts[i].status == r.status && attempts[i].reasons == r.reasons
  }

  ghost predicate GoodReceipt(s: Service, r: Receipt) {
    && !r.duplicate && r.status == StatusOf(r.reasons) && r.eventId in s.events
    && Receipted(AttemptsOf(s, r.eventId), r)
  }

  ghost predicate GoodEvent(s: Service, id: string) {
    && id in s.events && id != "" && s.events[id].id == id && AttemptsOf(s, id) != []
    && (forall a | a in AttemptsOf(s, id) :: a.eventId == id && a.number == 1 && a.status == StatusOf(a.reasons))
  }

  /** The record holds exactly the last attempt. */
  ghost predicate GoodLineage(s: Service, id: string) {
    && id in s.events && id in s.lineages
    && var all := AttemptsOf(s, id);
       && all != []
       && var a := all[|all| - 1];
          var l := s.lineages[id];
          l.eventId == id && l.stages == [Stage(a.id, a.status, a.at, FirstReason(a.reasons))] && l.failure == FirstReason(a.reasons)
  }

  /** Receipts name stored events and attempts, events have attempts, lineage shows the last one. */
  ghost predicate Coupled(s: Service) {
    && (forall k | k in s.seen :: GoodReceipt(s, s.seen[k]))
    && (forall id | id in s.events :: GoodEvent(s, id))
    && (forall id | id in s.attempts :: id in s.events)
    && (forall id | id in s.lineages :: GoodLineage(s, id))
  }

  lemma CommitReceipts(s: Service, e: Event, reasons: seq<string>, attemptId: string, letterId: string, now: int, r: Receipt)
    requires GoodReceipt(s, r) || r == NewReceipt(e, reasons, attemptId)
    ensures GoodReceipt(Commit(s, e, reasons, attemptId, letterId, now), r)
  {
    hide KeyOf, NewLetter, NewLineage;
    var t := Commit(s, e, reasons, attemptId, letterId, now);
    var old_, new_ := AttemptsOf(s, r.eventId), AttemptsOf(t, r.eventId);
    if r == NewReceipt(e, reasons, attemptId) {
      assert new_[|new_| - 1] == NewAttempt(e, reasons, attemptId, now);
    } else {
      var i :| 0 <= i < |old_| && old_[i].id == r.attemptId && old_[i].status == r.status && old_[i].reasons == r.reasons;
      assert new_[i] == old_[i];
    }
  }

  lemma CommitEvents(s: Service, e: Event, reasons: seq<string>, attemptId: string, letterId: string, now: int, id: string)
    requires e.id != "" && (id in s.events ==> GoodEvent(s, id)) && (id in s.attempts ==> id in s.events)
    ensures var t := Commit(s, e, reasons, attemptId, letterId, now);
            (id in t.events ==> GoodEvent(t, id)) && (id in t.attempts ==> id in t.events)
  {
    hide KeyOf, NewLetter, NewLineage;
  }

  lemma CommitCoupled(s: Service, e: Event, reasons: seq<string>, attemptId: string, letterId: string, now: int)
    requires Coupled(s) && e.id != ""
    ensures Coupled(Commit(s, e, reasons, attemptId, letterId, now))
  {
    hide KeyOf, NewLetter, GoodReceipt, GoodEvent;
    var t := Commit(s, e, reasons, attemptId, letterId, now);
    forall k | k in t.seen
      ensures GoodReceipt(t, t.seen[k])
    {
      CommitReceipts(s, e, reasons, attemptId, letterId, now, t.seen[k]);
    }
    forall id
      ensures (id in t.events ==> GoodEvent(t, id)) && (id in t.attempts ==> id in t.events)
    {
      CommitEvents(s, e, reasons, attemptId, letterId, now, id);
    }
    forall id | id in t.lineages
      ensures GoodLineage(t, id)
    {
      if id == e.id {
        assert t.attempts[id][|t.attempts[id]| - 1] == NewAttempt(e, reasons, attemptId, now);
      } else {
        assert GoodLineage(s, id);
      }
    }
  }

  /** Calls publish events that have an id. */
  ghost predicate NamedCalls(m: System) {
    forall i | i in m.calls && Publishing(m.calls[i]) :: m.calls[i].event.id != ""
  }

  lemma NamedStep(cfg: Config, m: System, a: Action)
    requires NamedCalls(m)
    ensures NamedCalls(Step(cfg, m, a))
  {
    hide Enter, KeyOf, Reasons, Commit, CanReplay, BeginReplay, FinishReplay, ReplayEvent, Busy;
  }

  lemma SameCoupled(s: Service, t: Service)
    requires Coupled(s) && t.seen == s.seen && t.events == s.events && t.attempts == s.attempts
    requires forall id | id in t.lineages :: id in s.lineages && t.lineages[id] == s.lineages[id]
    ensures Coupled(t)
  {
    hide Receipted;
    assert forall id :: AttemptsOf(t, id) == AttemptsOf(s, id);
    forall id | id in t.events
      ensures GoodEvent(t, id)
    {
      assert GoodEvent(s, id);
    }
    forall id | id in t.lineages
      ensures GoodLineage(t, id)
    {
      assert GoodLineage(s, id);
    }
    forall k | k in t.seen
      ensures GoodReceipt(t, t.seen[k])
    {
      assert GoodReceipt(s, s.seen[k]);
    }
  }

  lemma CoupledStep(cfg: Config, m: System, a: Action)
    requires Coupled(m.service) && NamedCalls(m)
    ensures Coupled(Step(cfg, m, a).service)
  {
    hide Coupled, Commit;
    if a.Commits? {
      if a.id in m.calls && m.calls[a.id].Checked? {
        CommitCoupled(m.service, m.calls[a.id].event, m.calls[a.id].reasons, a.attemptId, a.letterId, a.now);
      }
    } else {
      PruneKeeps(cfg, m, a);
      hide Step;
      StepFrame(cfg, m, a);
      SameCoupled(m.service, Step(cfg, m, a).service);
    }
  }

  lemma PruneKeeps(cfg: Config, m: System, a: Action)
    requires !a.Commits?
    ensures forall id | id in Step(cfg, m, a).service.lineages ::
              id in m.service.lineages && Step(cfg, m, a).service.lineages[id] == m.service.lineages[id]
  {
    if !a.Prunes? {
      StepFrame(cfg, m, a);
    }
  }

  // ---------------------------------------------------------------- letters

  function LettersFor(letters: map<string, Letter>, eventId: string): set<string> {
    set l | l in letters && letters[l].eventId == eventId
  }

  function DeadCount(attempts: seq<Attempt>): nat {
    if attempts == [] then 0
    else DeadCount(attempts[..|attempts| - 1]) + One(attempts[|attempts| - 1].status == DeadLettered)
  }

  /** An event has exactly as many letters as dead-lettered attempts. */
  ghost predicate LetterPerFailure(s: Service, eventId: string) {
    |LettersFor(s.letters, eventId)| == DeadCount(AttemptsOf(s, eventId))
  }

  lemma CommitLetters(s: Service, e: Event, reasons: seq<string>, attemptId: string, letterId: string, now: int, id: string)
    requires LetterPerFailure(s, id) && (reasons != [] ==> letterId !in s.letters)
    ensures LetterPerFailure(Commit(s, e, reasons, attemptId, letterId, now), id)
  {
    var t := Commit(s, e, reasons, attemptId, letterId, now);
    CommitCounts(s, e, reasons, attemptId, letterId, now, id);
    if reasons != [] {
      NewLetterCounts(s.letters, e, reasons[0], letterId, now, id);
    }
    hide Commit, DeadCount, LettersFor;
  }

  lemma CommitCounts(s: Service, e: Event, reasons: seq<string>, attemptId: string, letterId: string, now: int, id: string)
    ensures var t := Commit(s, e, reasons, attemptId, letterId, now);
            && DeadCount(AttemptsOf(t, id)) == DeadCount(AttemptsOf(s, id)) + One(id == e.id && reasons != [])
            && t.letters == if reasons == [] then s.letters else s.letters[letterId := NewLetter(e, reasons[0], letterId, now)]
  {
    hide KeyOf, NewLineage, NewReceipt, NewLetter;
    var t := Commit(s, e, reasons, attemptId, letterId, now);
    if id == e.id {
      assert AttemptsOf(t, id)[..|AttemptsOf(s, id)|] == AttemptsOf(s, id);
    }
  }

  lemma NewLetterCounts(letters: map<string, Letter>, e: Event, reason: string, letterId: string, now: int, id: string)
    requires letterId !in letters
    ensures |LettersFor(letters[letterId := NewLetter(e, reason, letterId, now)], id)| == |LettersFor(letters, id)| + One(id == e.id)
  {
    var before, after := LettersFor(letters, id), LettersFor(letters[letterId := NewLetter(e, reason, letterId, now)], id);
    if id == e.id {
      assert letterId !in before && after == before + {letterId};
    } else {
      assert after == before;
    }
  }

  lemma LettersStep(cfg: Config, m: System, a: Action, eventId: string)
    requires LetterPerFailure(m.service, eventId)
    ensures LetterPerFailure(Step(cfg, m, a).service, eventId)
  {
    hide Commit, DeadCount;
    if a.Commits? {
      if Step(cfg, m, a) != m {
        CommitLetters(m.service, m.calls[a.id].event, m.calls[a.id].reasons, a.attemptId, a.letterId, a.now, eventId);
      }
    } else {
      StepFrame(cfg, m, a);
      hide Step;
      var s, t := m.service, Step(cfg, m, a).service;
      assert LettersFor(t.letters, eventId) == LettersFor(s.letters, eventId);
      assert AttemptsOf(t, eventId) == AttemptsOf(s, eventId);
    }
  }

  // ---------------------------------------------------------------- every run

  ghost predicate Inv(m: System) {
    && Balanced(m, InFlight(), IsAdmission(), IsCommitment())
    && AttemptBooks(m) && Coupled(m.service) && NamedCalls(m)
    && (forall eventId :: LetterPerFailure(m.service, eventId))
  }

  lemma StepInv(cfg: Config, m: System, a: Action)
    requires Inv(m)
    ensures Inv(Step(cfg, m, a))
  {
    hide Balanced, AttemptBooks, Coupled, NamedCalls, LetterPerFailure, Step, Fits;
    PublishesFit();
    BalancedStep(cfg, m, a, InFlight(), IsAdmission(), IsCommitment());
    AttemptBooksStep(cfg, m, a);
    CoupledStep(cfg, m, a);
    NamedStep(cfg, m, a);
    forall eventId
      ensures LetterPerFailure(Step(cfg, m, a).service, eventId)
    {
      LettersStep(cfg, m, a, eventId);
    }
  }

  /** In every interleaving: stored attempts and publishes in flight together are the admissions; every
      receipt is that of a stored attempt; an unpruned lineage record holds exactly the last attempt; an
      event has as many letters as dead-lettered attempts. */
  lemma {:induction false} AlwaysConserved(cfg: Config, m: System, actions: seq<Action>)
    requires Inv(m)
    ensures var n := Run(cfg, m, actions);
            && Inv(n)
            && Tally(n.log, IsAdmission()) == Total(n.service.attempts) + |Where(n.calls, InFlight())|
    decreases |actions|
  {
    if actions != [] {
      hide Step, Inv;
      StepInv(cfg, m, actions[0]);
      AlwaysConserved(cfg, Step(cfg, m, actions[0]), actions[1..]);
    }
  }

  lemma StartConserved()
    ensures Inv(START)
  {
    assert Where(START.calls, InFlight()) == {};
    forall eventId
      ensures LetterPerFailure(START.service, eventId)
    {
      assert LettersFor(START.service.letters, eventId) == {};
    }
  }

  // ---------------------------------------------------------------- how long lineage is kept

  /** Thirty days, in nanoseconds. */
  const RETENTION := 2_592_000_000_000_000

  ghost predicate Retained(s: Service) {
    forall id | id in s.lineages :: s.lineages[id].retainUntil == s.lineages[id].createdAt + RETENTION
  }

  lemma RetainedStep(cfg: Config, m: System, a: Action)
    requires Retained(m.service)
    ensures Retained(Step(cfg, m, a).service)
  {
    if a.Commits? {
      hide KeyOf, NewLetter, NewReceipt, NewAttempt, AttemptsOf;
    } else {
      PruneKeeps(cfg, m, a);
      hide Step;
    }
  }

  lemma {:induction false} RetainedRun(cfg: Config, m: System, actions: seq<Action>)
    requires Retained(m.service)
    ensures Retained(Run(cfg, m, actions).service)
    decreases |actions|
  {
    if actions != [] {
      RetainedStep(cfg, m, actions[0]);
      hide Step, Retained;
      RetainedRun(cfg, Step(cfg, m, actions[0]), actions[1..]);
    }
  }

  /** In every run a lineage record is removed exactly by a pruning more than thirty days after it was made. */
  lemma {:induction false} LineageRemovedIff(cfg: Config, actions: seq<Action>, a: Action, id: string)
    requires id in Run(cfg, START, actions).service.lineages
    ensures var m := Run(cfg, START, actions);
            id !in Step(cfg, m, a).service.lineages <==> a.Prunes? && a.now - m.service.lineages[id].createdAt > RETENTION
  {
    hide Run;
    RetainedRun(cfg, START, actions);
    var m := Run(cfg, START, actions);
    if a.Commits? {
      hide KeyOf, NewLetter, NewLineage, NewReceipt, NewAttempt, AttemptsOf;
    } else if !a.Prunes? {
      StepFrame(cfg, m, a);
      hide Step;
    }
  }
}
