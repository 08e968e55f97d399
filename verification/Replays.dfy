/** The replay budget of every letter under every interleaving. */
module Replays {
  import opened Values
  import opened Ingestion
  import opened DeadLetters
  import opened Machine
  import Catalogs
  import Registry
  import Conservation
  import Text

  /** A letter against the number of its replays that began and ended. */
  ghost predicate Budgeted(l: Letter, begun: nat, ended: nat) {
    ended <= begun == l.attempts && l.maxAttempts == MAX_ATTEMPTS && Sound(l, begun - ended)
  }

  ghost predicate LetterInv(m: System, letter: string) {
    var begun, ended := Tally(m.log, BeginningOf(letter)), Tally(m.log, EndingOf(letter));
    && Conservation.Balanced(m, ForLetter(letter), BeginningOf(letter), EndingOf(letter))
    && if letter in m.service.letters then Budgeted(m.service.letters[letter], begun, ended) else begun == ended == 0
  }

  lemma BeginBudget(l: Letter, begun: nat, ended: nat, actor: string, now: int)
    requires Budgeted(l, begun, ended) && CanBegin(l)
    ensures Budgeted(Begun(l, actor, now), begun + 1, ended)
  {
    assert Begun(l, actor, now).audit[..|l.audit|] == l.audit;
  }

  lemma EndBudget(l: Letter, begun: nat, ended: nat, ok: bool, actor: string, now: int)
    requires Budgeted(l, begun, ended) && ended < begun
    ensures Budgeted(Finished(l, ok, actor, now), begun, ended + 1)
  {
    assert Finished(l, ok, actor, now).audit[..|l.audit|] == l.audit;
  }

  lemma NewBudget(e: Event, reason: string, id: string, now: int)
    ensures Budgeted(NewLetter(e, reason, id, now), 0, 0)
  {
    var audit := NewLetter(e, reason, id, now).audit;
    assert |audit| == 1 && audit[0].action == Created;
    assert audit[..0] == [];
    assert Starts(audit[..0]) == 0 && Ends(audit[..0]) == 0;
    assert Starts(audit) == 0;
    assert Ends(audit) == 0;
  }

  lemma BeginLetters(m: System, id: nat, letter: string, actor: string, freshKey: string, now: int, l: string)
    requires LetterInv(m, l)
    ensures var n := BeginStep(m, id, letter, actor, freshKey, now);
            var begun, ended := Tally(n.log, BeginningOf(l)), Tally(n.log, EndingOf(l));
            if l in n.service.letters then Budgeted(n.service.letters[l], begun, ended) else begun == ended == 0
  {
    hide Budgeted, Tally, Conservation.Balanced, ReplayEvent, Begun, CanBegin;
    if id !in m.calls && CanReplay(m.service, letter) {
      TallyMore(m.log, Beginning(letter), BeginningOf(l));
      TallyMore(m.log, Beginning(letter), EndingOf(l));
      if l == letter {
        BeginBudget(m.service.letters[l], Tally(m.log, BeginningOf(l)), Tally(m.log, EndingOf(l)), actor, now);
      }
    }
  }

  lemma EndLetters(m: System, id: nat, now: int, l: string)
    requires LetterInv(m, l)
    ensures var n := EndStep(m, id, now);
            var begun, ended := Tally(n.log, BeginningOf(l)), Tally(n.log, EndingOf(l));
            if l in n.service.letters then Budgeted(n.service.letters[l], begun, ended) else begun == ended == 0
  {
    hide Budgeted, Tally, Finished;
    if EndStep(m, id, now) != m {
      var c := m.calls[id];
      TallyMore(m.log, Ending(c.origin.letter), BeginningOf(l));
      TallyMore(m.log, Ending(c.origin.letter), EndingOf(l));
      if l == c.origin.letter {
        assert id in Where(m.calls, ForLetter(l));
        EndBudget(m.service.letters[l], Tally(m.log, BeginningOf(l)), Tally(m.log, EndingOf(l)), c.ok, c.origin.actor, now);
      }
    }
  }

  lemma CommitLetters(m: System, id: nat, attemptId: string, letterId: string, now: int, l: string)
    requires LetterInv(m, l)
    ensures var n := CommitStep(m, id, attemptId, letterId, now);
            var begun, ended := Tally(n.log, BeginningOf(l)), Tally(n.log, EndingOf(l));
            if l in n.service.letters then Budgeted(n.service.letters[l], begun, ended) else begun == ended == 0
  {
    hide Budgeted, Tally, KeyOf, NewLineage, NewReceipt, NewAttempt, AttemptsOf, NewLetter, Conservation.Balanced;
    if CommitStep(m, id, attemptId, letterId, now) != m {
      var c := m.calls[id];
      TallyMore(m.log, Commitment(c.event), BeginningOf(l));
      TallyMore(m.log, Commitment(c.event), EndingOf(l));
      if c.reasons != [] && l == letterId {
        NewBudget(c.event, c.reasons[0], letterId, now);
      }
    }
  }

  /** Every other step leaves the letters alone and logs nothing about them. */
  lemma OtherLetters(cfg: Config, m: System, a: Action, l: string)
    requires !a.ReplayBegins? && !a.ReplayEnds? && !a.Commits?
    ensures Step(cfg, m, a).service.letters == m.service.letters
    ensures Tally(Step(cfg, m, a).log, BeginningOf(l)) == Tally(m.log, BeginningOf(l))
    ensures Tally(Step(cfg, m, a).log, EndingOf(l)) == Tally(m.log, EndingOf(l))
  {
    hide Enter, KeyOf, Reasons, ReplayEvent, Busy, Catalogs.Act, Catalogs.Record, Registry.Step, Prepared, Tally;
    if Step(cfg, m, a).log != m.log {
      var x := Step(cfg, m, a).log[|m.log|];
      assert Step(cfg, m, a).log == m.log + [x] && x.Admission?;
      TallyMore(m.log, x, BeginningOf(l));
      TallyMore(m.log, x, EndingOf(l));
    }
  }

  lemma LetterInvStep(cfg: Config, m: System, a: Action, l: string)
    requires LetterInv(m, l)
    ensures LetterInv(Step(cfg, m, a), l)
  {
    Conservation.ReplaysFit(l);
    Conservation.BalancedStep(cfg, m, a, ForLetter(l), BeginningOf(l), EndingOf(l));
    if a.ReplayBegins? {
      BeginLetters(m, a.id, a.letter, a.actor, a.freshKey, a.now, l);
    } else if a.ReplayEnds? {
      EndLetters(m, a.id, a.now, l);
    } else if a.Commits? {
      CommitLetters(m, a.id, a.attemptId, a.letterId, a.now, l);
    } else {
      OtherLetters(cfg, m, a, l);
      hide Step, Tally, Budgeted, Conservation.Balanced, Conservation.Fits;
    }
  }

  lemma StartLetters(l: string)
    ensures LetterInv(START, l)
  {
    assert Where(START.calls, ForLetter(l)) == {};
  }

  lemma {:induction false} LetterInvRun(cfg: Config, m: System, actions: seq<Action>, l: string)
    requires LetterInv(m, l)
    ensures LetterInv(Run(cfg, m, actions), l)
    decreases |actions|
  {
    if actions != [] {
      LetterInvStep(cfg, m, actions[0], l);
      hide Step, LetterInv;
      LetterInvRun(cfg, Step(cfg, m, actions[0]), actions[1..], l);
    }
  }

  /** In every interleaving a letter's attempts are the replays begun on it, never more than its budget and
      as many as its audit trail says were started; those not yet ended are in flight; a pending letter has
      budget left, a poisoned one has none, and one that is replaying has a replay in flight. */
  lemma BudgetKept(cfg: Config, actions: seq<Action>, l: string)
    requires l in Run(cfg, START, actions).service.letters
    ensures var n := Run(cfg, START, actions);
            && Sound(n.service.letters[l], |Where(n.calls, ForLetter(l))|)
            && n.service.letters[l].maxAttempts == MAX_ATTEMPTS
            && n.service.letters[l].attempts == Tally(n.log, BeginningOf(l))
  {
    hide Run, Tally;
    StartLetters(l);
    LetterInvRun(cfg, START, actions, l);
  }

  // ---------------------------------------------------------------- the state is told by the audit trail

  ghost predicate AllTell(s: Service) {
    forall l | l in s.letters :: Tells(s.letters[l])
  }

  lemma NewTells(e: Event, reason: string, id: string, now: int)
    ensures Tells(NewLetter(e, reason, id, now))
  {
    NewBudget(e, reason, id, now);
  }

  lemma TellStep(cfg: Config, m: System, a: Action)
    requires AllTell(m.service)
    ensures AllTell(Step(cfg, m, a).service)
  {
    hide Tells, Starts;
    if a.ReplayBegins? {
      TellBegin(m, a.id, a.letter, a.actor, a.freshKey, a.now);
    } else if a.ReplayEnds? {
      TellEnd(m, a.id, a.now);
    } else if a.Commits? {
      TellCommit(m, a.id, a.attemptId, a.letterId, a.now);
    } else {
      hide Step;
      StepFrame(cfg, m, a);
    }
  }

  lemma TellBegin(m: System, id: nat, letter: string, actor: string, freshKey: string, now: int)
    requires AllTell(m.service)
    ensures AllTell(BeginStep(m, id, letter, actor, freshKey, now).service)
  {
    hide Tells, Starts, Begun, CanBegin, ReplayEvent;
    if letter in m.service.letters {
      BegunTells(m.service.letters[letter], actor, now);
    }
  }

  lemma TellEnd(m: System, id: nat, now: int)
    requires AllTell(m.service)
    ensures AllTell(EndStep(m, id, now).service)
  {
    hide Tells, Starts, Finished;
    if EndStep(m, id, now) != m {
      var c := m.calls[id];
      FinishedTells(m.service.letters[c.origin.letter], c.ok, c.origin.actor, now);
    }
  }

  lemma TellCommit(m: System, id: nat, attemptId: string, letterId: string, now: int)
    requires AllTell(m.service)
    ensures AllTell(CommitStep(m, id, attemptId, letterId, now).service)
  {
    hide Tells, Starts, KeyOf, NewLineage, NewReceipt, NewAttempt, AttemptsOf, NewLetter;
    if CommitStep(m, id, attemptId, letterId, now) != m && m.calls[id].reasons != [] {
      NewTells(m.calls[id].event, m.calls[id].reasons[0], letterId, now);
    }
  }

  lemma {:induction false} TellRun(cfg: Config, m: System, actions: seq<Action>)
    requires AllTell(m.service)
    ensures AllTell(Run(cfg, m, actions).service)
    decreases |actions|
  {
    if actions != [] {
      TellStep(cfg, m, actions[0]);
      hide Step, AllTell;
      TellRun(cfg, Step(cfg, m, actions[0]), actions[1..]);
    }
  }

  /** In every interleaving the state of a letter is a function of its audit trail: pending when it was just created,
      replaying after a start, replayed after a success, and after a failure poisoned if three replays were started
      and pending again if not. */
  lemma {:induction false} StateTold(cfg: Config, actions: seq<Action>, l: string)
    requires l in Run(cfg, START, actions).service.letters
    ensures var x := Run(cfg, START, actions).service.letters[l];
            x.audit != [] && x.state == Told(x.audit, 3) && x.attempts == Starts(x.audit)
  {
    hide Run;
    TellRun(cfg, START, actions);
    StartLetters(l);
    LetterInvRun(cfg, START, actions, l);
  }

  // ---------------------------------------------------------------- what is never undone

  lemma AuditStep(cfg: Config, m: System, a: Action, l: string)
    requires l in m.service.letters
    ensures l in Step(cfg, m, a).service.letters
    ensures m.service.letters[l].audit <= Step(cfg, m, a).service.letters[l].audit
    ensures Step(cfg, m, a).service.letters[l].eventId == m.service.letters[l].eventId
  {
    hide Enter, KeyOf, Reasons, ReplayEvent, Busy, Catalogs.Act, Catalogs.Record, Registry.Step, Prepared, CanBegin,
      NewLetter, NewLineage, NewReceipt, NewAttempt, AttemptsOf;
  }

  /** Letters are never removed and their audit trails only grow at the end. */
  lemma {:induction false} AuditGrows(cfg: Config, m: System, actions: seq<Action>, l: string)
    requires l in m.service.letters
    ensures l in Run(cfg, m, actions).service.letters
    ensures m.service.letters[l].audit <= Run(cfg, m, actions).service.letters[l].audit
    decreases |actions|
  {
    if actions != [] {
      AuditStep(cfg, m, actions[0], l);
      hide Step;
      AuditGrows(cfg, Step(cfg, m, actions[0]), actions[1..], l);
    }
  }

  /** Poisoned, and no replay of it in flight. */
  ghost predicate Dead(m: System, l: string) {
    l in m.service.letters && m.service.letters[l].state == Poisoned && |Where(m.calls, ForLetter(l))| == 0
  }

  lemma DeadStep(cfg: Config, m: System, a: Action, l: string)
    requires Dead(m, l) && LetterInv(m, l)
    ensures Dead(Step(cfg, m, a), l) && Step(cfg, m, a).service.letters[l] == m.service.letters[l]
  {
    var n := Step(cfg, m, a);
    LetterInvStep(cfg, m, a, l);
    assert n.service.letters[l] == m.service.letters[l] by { DeadUntouched(cfg, m, a, l); }
    hide Step, Tally;
    assert |Where(n.calls, ForLetter(l))| == Starts(n.service.letters[l].audit) - Ends(n.service.letters[l].audit);
  }

  lemma DeadUntouched(cfg: Config, m: System, a: Action, l: string)
    requires Dead(m, l)
    ensures l in Step(cfg, m, a).service.letters && Step(cfg, m, a).service.letters[l] == m.service.letters[l]
  {
    hide Enter, KeyOf, Reasons, ReplayEvent, Busy, Catalogs.Act, Catalogs.Record, Registry.Step, Prepared, Begun, Finished,
      NewLetter, NewLineage, NewReceipt, NewAttempt, AttemptsOf;
    NoneInFlight(m.calls, l);
  }

  lemma NoneInFlight(calls: map<nat, Call>, l: string)
    requires |Where(calls, ForLetter(l))| == 0
    ensures forall i | i in calls :: !(calls[i].origin.ReplayOf? && calls[i].origin.letter == l)
  {
    assert forall i | i in calls :: ForLetter(l)(calls[i]) ==> i in Where(calls, ForLetter(l));
  }

  /** A poisoned letter with no replay in flight is never touched again, however calls interleave; in a
      serial run, where none is in flight between calls, poisoned is final. */
  lemma {:induction false} PoisonedForever(cfg: Config, m: System, actions: seq<Action>, l: string)
    requires Dead(m, l) && LetterInv(m, l)
    ensures Dead(Run(cfg, m, actions), l) && Run(cfg, m, actions).service.letters[l] == m.service.letters[l]
    decreases |actions|
  {
    if actions != [] {
      DeadStep(cfg, m, actions[0], l);
      LetterInvStep(cfg, m, actions[0], l);
      hide Step, LetterInv;
      PoisonedForever(cfg, Step(cfg, m, actions[0]), actions[1..], l);
    }
  }

  // ---------------------------------------------------------------- what a letter was made for

  /** The letter gives the first reason of a dead-lettered attempt of its event. */
  ghost predicate Reasoned(s: Service, l: Letter) {
    exists i :: 0 <= i < |AttemptsOf(s, l.eventId)| && var a := AttemptsOf(s, l.eventId)[i];
      a.status == DeadLettered && a.reasons != [] && a.reasons[0] == l.reason
  }

  ghost predicate AllReasoned(s: Service) {
    forall l | l in s.letters :: Reasoned(s, s.letters[l])
  }

  lemma ReasonedStill(s: Service, t: Service, x: Letter, y: Letter)
    requires Reasoned(s, x) && y.eventId == x.eventId && y.reason == x.reason
    requires AttemptsOf(s, x.eventId) <= AttemptsOf(t, x.eventId)
    ensures Reasoned(t, y)
  {
    hide AttemptsOf;
    var i :| 0 <= i < |AttemptsOf(s, x.eventId)| && var a := AttemptsOf(s, x.eventId)[i];
      a.status == DeadLettered && a.reasons != [] && a.reasons[0] == x.reason;
    assert AttemptsOf(t, y.eventId)[i] == AttemptsOf(s, x.eventId)[i];
  }

  lemma ReasonedCommit(s: Service, e: Event, reasons: seq<string>, attemptId: string, letterId: string, now: int)
    requires AllReasoned(s)
    ensures AllReasoned(Commit(s, e, reasons, attemptId, letterId, now))
    ensures reasons != [] ==> HoldsOwn(Commit(s, e, reasons, attemptId, letterId, now), letterId)
  {
    hide KeyOf, NewLineage, NewReceipt;
    var t := Commit(s, e, reasons, attemptId, letterId, now);
    assert forall id :: AttemptsOf(s, id) <= AttemptsOf(t, id);
    assert reasons != [] ==> Reasoned(t, NewLetter(e, reasons[0], letterId, now)) by {
      if reasons != [] {
        assert AttemptsOf(t, e.id)[|AttemptsOf(s, e.id)|] == NewAttempt(e, reasons, attemptId, now);
      }
    }
    hide Reasoned, AttemptsOf, NewAttempt;
    forall l | l in t.letters
      ensures Reasoned(t, t.letters[l])
    {
      if !(reasons != [] && l == letterId) {
        ReasonedStill(s, t, s.letters[l], t.letters[l]);
      }
    }
  }

  lemma ReasonedStep(cfg: Config, m: System, a: Action)
    requires AllReasoned(m.service)
    ensures AllReasoned(Step(cfg, m, a).service)
  {
    if a.Commits? {
      hide Commit, AllReasoned;
      if CommitStep(m, a.id, a.attemptId, a.letterId, a.now) != m {
        ReasonedCommit(m.service, m.calls[a.id].event, m.calls[a.id].reasons, a.attemptId, a.letterId, a.now);
      }
    } else {
      StepFrame(cfg, m, a);
      hide Step, Reasoned;
      var n := Step(cfg, m, a);
      forall l | l in n.service.letters
        ensures Reasoned(n.service, n.service.letters[l])
      {
        ReasonedStill(m.service, n.service, m.service.letters[l], n.service.letters[l]);
      }
    }
  }

  lemma {:induction false} ReasonedRun(cfg: Config, m: System, actions: seq<Action>)
    requires AllReasoned(m.service)
    ensures AllReasoned(Run(cfg, m, actions).service)
    decreases |actions|
  {
    if actions != [] {
      ReasonedStep(cfg, m, actions[0]);
      hide Step, AllReasoned;
      ReasonedRun(cfg, Step(cfg, m, actions[0]), actions[1..]);
    }
  }

  /** In every run a letter gives as its reason the first one of a dead-lettered attempt of its event, and a letter
      that a step makes holds its own event. */
  lemma {:induction false} LettersReasoned(cfg: Config, actions: seq<Action>, a: Action, l: string)
    ensures var n := Run(cfg, START, actions);
            && (l in n.service.letters ==> Reasoned(n.service, n.service.letters[l]))
            && (l !in n.service.letters && l in Step(cfg, n, a).service.letters ==> HoldsOwn(Step(cfg, n, a).service, l))
  {
    hide Run;
    ReasonedRun(cfg, START, actions);
    var n := Run(cfg, START, actions);
    if a.Commits? {
      hide Commit, HoldsOwn;
      if CommitStep(n, a.id, a.attemptId, a.letterId, a.now) != n {
        var c := n.calls[a.id];
        ReasonedCommit(n.service, c.event, c.reasons, a.attemptId, a.letterId, a.now);
        CommitAddsLetter(n.service, c.event, c.reasons, a.attemptId, a.letterId, a.now, l);
      }
    } else {
      StepFrame(cfg, n, a);
      hide Step;
    }
  }

  lemma CommitAddsLetter(s: Service, e: Event, reasons: seq<string>, attemptId: string, letterId: string, now: int, l: string)
    ensures l in Commit(s, e, reasons, attemptId, letterId, now).letters ==> l in s.letters || (l == letterId && reasons != [])
  {
    hide KeyOf, NewLetter, NewLineage, NewReceipt;
  }

  // ---------------------------------------------------------------- exactly when poisoned is final

  ghost predicate Untouched(cfg: Config, m: System, actions: seq<Action>, l: string) {
    l in m.service.letters && l in Run(cfg, m, actions).service.letters
    && Run(cfg, m, actions).service.letters[l] == m.service.letters[l]
  }

  /** The audit trail of the letter gets longer. */
  ghost predicate Touches(cfg: Config, m: System, actions: seq<Action>, l: string) {
    l in m.service.letters && l in Run(cfg, m, actions).service.letters
    && |Run(cfg, m, actions).service.letters[l].audit| > |m.service.letters[l].audit|
  }

  /** How many sections a replay still has before its last. */
  function Ahead(c: Call): nat {
    match c
    case Finishing(_, _) => 0
    case Checked(_, _, _) => 1
    case Looked(_, _, _) => 2
    case Entered(_, _) => 3
    case Waiting(_, _) => 4
  }

  predicate ReplayInFlight(m: System, id: nat, l: string) {
    id in m.calls && m.calls[id].origin.ReplayOf? && m.calls[id].origin.letter == l
  }

  /** The next section of a replay, with a new letter under a name not in use if it needs one. */
  function NextSection(m: System, id: nat, spare: string): Action
    requires id in m.calls
  {
    match m.calls[id]
    case Finishing(_, _) => ReplayEnds(id, 0)
    case Checked(_, _, _) => Commits(id, spare, spare, 0)
    case Looked(_, _, _) => Checks(id, 0, 0)
    case Entered(_, _) => LooksUp(id)
    case Waiting(_, _) => ReplayEnters(id, spare, 0)
  }

  lemma SectionMoves(cfg: Config, m: System, id: nat, l: string, spare: string)
    requires ReplayInFlight(m, id, l) && l in m.service.letters && spare != "" && spare !in m.service.letters
    requires Ahead(m.calls[id]) > 0
    ensures var n := Step(cfg, m, NextSection(m, id, spare));
            ReplayInFlight(n, id, l) && Ahead(n.calls[id]) < Ahead(m.calls[id])
  {
    hide Enter, KeyOf, Busy, Reasons, Prepared, Registry.Key, Commit;
  }

  lemma LastSectionTouches(cfg: Config, m: System, id: nat, l: string)
    requires ReplayInFlight(m, id, l) && l in m.service.letters && m.calls[id].Finishing?
    ensures Touches(cfg, m, [ReplayEnds(id, 0)], l)
  {
    var n := Step(cfg, m, ReplayEnds(id, 0));
    assert Run(cfg, m, [ReplayEnds(id, 0)]) == Run(cfg, n, []) by { RunOne(cfg, m, ReplayEnds(id, 0)); }
  }

  lemma RunOne(cfg: Config, m: System, a: Action)
    ensures Run(cfg, m, [a]) == Step(cfg, m, a)
  {
    hide Step;
    RunMore(cfg, m, [], a);
  }

  /** Every replay in flight can be brought to its end, which its letter records. */
  lemma {:induction false} ReplayCanEnd(cfg: Config, m: System, id: nat, l: string) returns (actions: seq<Action>)
    requires ReplayInFlight(m, id, l) && l in m.service.letters
    ensures Touches(cfg, m, actions, l)
    decreases Ahead(m.calls[id])
  {
    if m.calls[id].Finishing? {
      actions := [ReplayEnds(id, 0)];
      LastSectionTouches(cfg, m, id, l);
    } else {
      var spare := Text.FreshName(m.service.letters.Keys);
      var a := NextSection(m, id, spare);
      SectionMoves(cfg, m, id, l, spare);
      AuditStep(cfg, m, a, l);
      hide Step, NextSection;
      var rest := ReplayCanEnd(cfg, Step(cfg, m, a), id, l);
      actions := [a] + rest;
      assert actions[1..] == rest;
    }
  }

  /** A poisoned letter is never touched again, whatever runs, exactly when no replay of it is in flight. */
  lemma PoisonedFinalIff(cfg: Config, m: System, l: string)
    requires LetterInv(m, l) && l in m.service.letters && m.service.letters[l].state == Poisoned
    ensures (forall actions :: Untouched(cfg, m, actions, l)) <==> |Where(m.calls, ForLetter(l))| == 0
  {
    hide Run, LetterInv;
    var w := Where(m.calls, ForLetter(l));
    if |w| == 0 {
      forall actions
        ensures Untouched(cfg, m, actions, l)
      {
        PoisonedForever(cfg, m, actions, l);
      }
    } else {
      var id :| id in w;
      var actions := ReplayCanEnd(cfg, m, id, l);
      assert !Untouched(cfg, m, actions, l);
    }
  }

  // ---------------------------------------------------------------- which event a replay publishes

  /** The event last committed under an id. */
  function LastCommitted(log: seq<Entry>, id: string): Option<Event> {
    if log == [] then None
    else
      var x := log[|log| - 1];
      if x.Commitment? && x.event.id == id then Some(x.event) else LastCommitted(log[..|log| - 1], id)
  }

  lemma LastMore(log: seq<Entry>, x: Entry, id: string)
    ensures LastCommitted(log + [x], id) ==
            if x.Commitment? && x.event.id == id then Some(x.event) else LastCommitted(log, id)
  {
    assert (log + [x])[..|log|] == log;
  }

  function EventUnder(s: Service, id: string): Option<Event> {
    if id in s.events then Some(s.events[id]) else None
  }

  lemma StoredStep(cfg: Config, m: System, a: Action, id: string)
    requires EventUnder(m.service, id) == LastCommitted(m.log, id)
    ensures EventUnder(Step(cfg, m, a).service, id) == LastCommitted(Step(cfg, m, a).log, id)
  {
    hide LastCommitted;
    var n := Step(cfg, m, a);
    if a.Commits? {
      hide KeyOf, NewLetter, NewLineage, NewReceipt, NewAttempt, AttemptsOf;
      if n != m {
        LastMore(m.log, Commitment(m.calls[a.id].event), id);
      }
    } else {
      StepFrame(cfg, m, a);
      hide Step;
      if n.log != m.log {
        var x: Entry :| !x.Commitment? && n.log == m.log + [x];
        LastMore(m.log, x, id);
      }
    }
  }

  lemma {:induction false} StoredRun(cfg: Config, m: System, actions: seq<Action>, id: string)
    requires EventUnder(m.service, id) == LastCommitted(m.log, id)
    ensures EventUnder(Run(cfg, m, actions).service, id) == LastCommitted(Run(cfg, m, actions).log, id)
    decreases |actions|
  {
    if actions != [] {
      hide Step, LastCommitted;
      StoredStep(cfg, m, actions[0], id);
      StoredRun(cfg, Step(cfg, m, actions[0]), actions[1..], id);
    }
  }

  /** A letter's event is always stored. */
  lemma LetterHasEvent(m: System, l: string)
    requires Conservation.Inv(m) && l in m.service.letters
    ensures m.service.letters[l].eventId in m.service.events
  {
    var x := m.service.letters[l].eventId;
    assert Conservation.LetterPerFailure(m.service, x);
    assert l in Conservation.LettersFor(m.service.letters, x);
    assert AttemptsOf(m.service, x) != [];
  }

  /** The event has the tenant and the payload the letter was made for. */
  predicate Own(l: Letter, e: Event) {
    e.tenant == l.tenant && e.payload == l.payload
  }

  /** In every run a replay publishes the event last committed under its letter's event id, by whomever. So
      it publishes the letter's own event exactly when the last commit under that id was of the letter's
      tenant and payload. */
  lemma ReplaysLastCommitted(cfg: Config, actions: seq<Action>, l: string, freshKey: string)
    requires l in Run(cfg, START, actions).service.letters
    ensures var n := Run(cfg, START, actions);
            var letter := n.service.letters[l];
            var last := LastCommitted(n.log, letter.eventId);
            && last.Some? && ReplayEvent(n.service, l, freshKey) == last.value.(key := freshKey)
            && (Own(letter, ReplayEvent(n.service, l, freshKey)) <==> Own(letter, last.value))
  {
    hide Run, LastCommitted;
    Conservation.StartConserved();
    Conservation.AlwaysConserved(cfg, START, actions);
    var n := Run(cfg, START, actions);
    LetterHasEvent(n, l);
    LastOfNothing(n.service.letters[l].eventId);
    StoredRun(cfg, START, actions, n.service.letters[l].eventId);
  }

  lemma LastOfNothing(id: string)
    ensures LastCommitted(START.log, id) == None && EventUnder(START.service, id) == None
  {
  }

  /** The step commits another tenant's or another payload's event under the letter's event id. */
  predicate Displaces(m: System, a: Action, l: string) {
    && a.Commits? && a.id in m.calls && m.calls[a.id].Checked? && l in m.service.letters
    && (m.calls[a.id].reasons != [] ==> a.letterId !in m.service.letters)
    && m.calls[a.id].event.id == m.service.letters[l].eventId && !Own(m.service.letters[l], m.calls[a.id].event)
  }

  predicate HoldsOwn(s: Service, l: string) {
    l in s.letters && s.letters[l].eventId in s.events && Own(s.letters[l], s.events[s.letters[l].eventId])
  }

  /** While a letter's own event is stored, a step replaces it by another exactly when it displaces it. */
  lemma OwnStepIff(cfg: Config, m: System, a: Action, l: string)
    requires HoldsOwn(m.service, l)
    ensures HoldsOwn(Step(cfg, m, a).service, l) <==> !Displaces(m, a, l)
  {
    if a.Commits? {
      hide KeyOf, NewLineage, NewReceipt, NewAttempt, AttemptsOf, NewLetter;
    } else {
      StepFrame(cfg, m, a);
      hide Step;
    }
  }

  /** After the first `k` actions. */
  ghost predicate OwnAt(cfg: Config, m: System, actions: seq<Action>, l: string, k: nat) {
    k <= |actions| && HoldsOwn(Run(cfg, m, actions[..k]).service, l)
  }

  ghost predicate DisplacedAt(cfg: Config, m: System, actions: seq<Action>, l: string, k: nat) {
    k < |actions| && Displaces(Run(cfg, m, actions[..k]), actions[k], l)
  }

  /** Over every run from there: the letter always has its own event to replay exactly when no step of the
      run displaces it. */
  lemma OwnRunIff(cfg: Config, m: System, actions: seq<Action>, l: string)
    requires HoldsOwn(m.service, l)
    ensures (forall k: nat | k <= |actions| :: OwnAt(cfg, m, actions, l, k)) <==>
            (forall k: nat | k < |actions| :: !DisplacedAt(cfg, m, actions, l, k))
  {
    hide OwnAt, DisplacedAt;
    if forall k: nat | k < |actions| :: !DisplacedAt(cfg, m, actions, l, k) {
      forall k: nat | k <= |actions|
        ensures OwnAt(cfg, m, actions, l, k)
      {
        OwnAlong(cfg, m, actions, l, k);
      }
    } else {
      var k: nat :| k < |actions| && DisplacedAt(cfg, m, actions, l, k);
      if OwnAt(cfg, m, actions, l, k) {
        OwnNext(cfg, m, actions, l, k);
      }
    }
  }

  lemma OwnNext(cfg: Config, m: System, actions: seq<Action>, l: string, k: nat)
    requires OwnAt(cfg, m, actions, l, k) && k < |actions|
    ensures OwnAt(cfg, m, actions, l, k + 1) <==> !DisplacedAt(cfg, m, actions, l, k)
  {
    hide HoldsOwn, Displaces, Run, Step;
    assert actions[..k + 1] == actions[..k] + [actions[k]];
    RunMore(cfg, m, actions[..k], actions[k]);
    OwnStepIff(cfg, Run(cfg, m, actions[..k]), actions[k], l);
  }

  lemma {:induction false} OwnAlong(cfg: Config, m: System, actions: seq<Action>, l: string, n: nat)
    requires HoldsOwn(m.service, l) && n <= |actions|
    requires forall k: nat | k < |actions| :: !DisplacedAt(cfg, m, actions, l, k)
    ensures OwnAt(cfg, m, actions, l, n)
  {
    if n == 0 {
      assert actions[..0] == [];
    } else {
      hide OwnAt, DisplacedAt;
      OwnAlong(cfg, m, actions, l, n - 1);
      OwnNext(cfg, m, actions, l, n - 1);
    }
  }
}
