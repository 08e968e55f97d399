/** Dead letters: the replay budget and the audit trail (internal/deadletter/domain/model.go). */
module DeadLetters {
  import opened Values

  datatype State = Pending | Replaying | Replayed | Poisoned

  datatype AuditAction = Created | ReplayStarted | ReplayFailed | ReplaySucceeded

  datatype Audit = Audit(at: int, action: AuditAction, actor: string)

  /** The value of a letter: what the service stores. */
  datatype Letter = Letter(
    id: string, tenant: string, eventId: string, reason: string, payload: Payload, state: State,
    attempts: nat, maxAttempts: nat, createdAt: int, updatedAt: int, audit: seq<Audit>)

  predicate CanBegin(l: Letter) {
    l.state != Poisoned && l.attempts < l.maxAttempts
  }

  function Begun(l: Letter, actor: string, now: int): Letter {
    l.(state := Replaying, attempts := l.attempts + 1, updatedAt := now,
       audit := l.audit + [Audit(now, ReplayStarted, actor)])
  }

  function Finished(l: Letter, ok: bool, actor: string, now: int): Letter {
    l.(state := if ok then Replayed else if l.attempts >= l.maxAttempts then Poisoned else Pending,
       updatedAt := now,
       audit := l.audit + [Audit(now, if ok then ReplaySucceeded else ReplayFailed, actor)])
  }

  /** A letter as the domain code handles it. */
  class DeadLetter {
    const original: Letter
    var state: State
    var attempts: nat
    var updatedAt: int
    var audit: seq<Audit>

    constructor (l: Letter)
      ensures Value() == l
    {
      original := l;
      state, attempts, updatedAt, audit := l.state, l.attempts, l.updatedAt, l.audit;
    }

    function Value(): Letter
      reads this
    {
      original.(state := state, attempts := attempts, updatedAt := updatedAt, audit := audit)
    }

    method BeginReplay(actor: string, now: int) returns (ok: bool)
      modifies this
      ensures ok == CanBegin(old(Value()))
      ensures Value() == if ok then Begun(old(Value()), actor, now) else old(Value())
    {
      if state == Poisoned || attempts >= original.maxAttempts {
        return false;
      }
      state := Replaying;
      attempts := attempts + 1;
      updatedAt := now;
      audit := audit + [Audit(now, ReplayStarted, actor)];
      return true;
    }

    method FinishReplay(ok: bool, actor: string, now: int)
      modifies this
      ensures Value() == Finished(old(Value()), ok, actor, now)
    {
      if ok {
        state := Replayed;
      } else if attempts >= original.maxAttempts {
        state := Poisoned;
      } else {
        state := Pending;
      }
      updatedAt := now;
      audit := audit + [Audit(now, if ok then ReplaySucceeded else ReplayFailed, actor)];
    }
  }

  // ---------------------------------------------------------------- the budget

  function Starts(audit: seq<Audit>): nat {
    if audit == [] then 0
    else Starts(audit[..|audit| - 1]) + if audit[|audit| - 1].action == ReplayStarted then 1 else 0
  }

  function Ends(audit: seq<Audit>): nat {
    if audit == [] then 0
    else Ends(audit[..|audit| - 1]) + if audit[|audit| - 1].action in {ReplayFailed, ReplaySucceeded} then 1 else 0
  }

  /** What holds of a letter of which `open` replays are in flight: the budget is what the audit trail
      says was started, what was started has ended or is in flight, and the state fits the budget. */
  ghost predicate Sound(l: Letter, open: nat) {
    && Starts(l.audit) == l.attempts <= l.maxAttempts
    && Ends(l.audit) + open == l.attempts
    && (l.state == Pending ==> l.attempts < l.maxAttempts)
    && (l.state == Poisoned ==> l.attempts == l.maxAttempts)
    && (l.state == Replaying ==> open > 0)
  }

  // ---------------------------------------------------------------- the state and the audit trail

  /** What an audit trail says of the state of its letter, given the budget. */
  function Told(audit: seq<Audit>, budget: nat): State
    requires audit != []
  {
    match audit[|audit| - 1].action
    case Created => Pending
    case ReplayStarted => Replaying
    case ReplaySucceeded => Replayed
    case ReplayFailed => if Starts(audit) >= budget then Poisoned else Pending
  }

  /** The state is what the trail says, and the attempts are the starts in it. */
  ghost predicate Tells(l: Letter) {
    l.audit != [] && l.attempts == Starts(l.audit) && l.state == Told(l.audit, l.maxAttempts)
  }

  lemma BegunTells(l: Letter, actor: string, now: int)
    requires Tells(l)
    ensures Tells(Begun(l, actor, now))
  {
    assert Begun(l, actor, now).audit[..|l.audit|] == l.audit;
  }

  lemma FinishedTells(l: Letter, ok: bool, actor: string, now: int)
    requires Tells(l)
    ensures Tells(Finished(l, ok, actor, now))
  {
    assert Finished(l, ok, actor, now).audit[..|l.audit|] == l.audit;
  }
}
