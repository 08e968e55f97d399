/** Ingestion: the records the service keeps and the locked sections of its calls, as functions on its
    state (internal/ingestion/application/service.go, internal/ingestion/domain, internal/lineage/domain). */
module Ingestion {
  import opened Values
  import opened Rules
  import opened Catalogs
  import opened DeadLetters
  import Contracts
  import Typecheck
  import Sorting
  import Text

  /** Times are nanoseconds. */
  const SECOND := 1_000_000_000
  const MINUTE := 60 * SECOND
  const DAY := 86_400 * SECOND
  const MAX_ATTEMPTS: nat := 3

  datatype Status = Accepted | Rejected | DeadLettered

  /** An event; `occurredAt` is absent while it is Go's zero time. */
  datatype Event = Event(
    id: string, tenant: string, contract: string, schemaVersion: int, key: string, partition: string,
    occurredAt: Option<int>, payload: Payload, signature: string, receivedAt: int)

  datatype Attempt = Attempt(id: string, eventId: string, number: nat, status: Status, reasons: seq<string>, at: int)

  datatype Receipt = Receipt(eventId: string, status: Status, duplicate: bool, attemptId: string, reasons: seq<string>)

  datatype Stage = Stage(attemptId: string, outcome: Status, at: int, failure: Option<string>)

  /** A lineage record; the validation summary is "passed" or the first reason of the failure. */
  datatype Lineage = Lineage(
    eventId: string, contract: string, failure: Option<string>, stages: seq<Stage>, retainUntil: int, createdAt: int)

  datatype Quota = Quota(start: int, count: nat)

  /** The maps of the service. */
  datatype Service = Service(
    seen: map<string, Receipt>, events: map<string, Event>, attempts: map<string, seq<Attempt>>,
    letters: map<string, Letter>, lineages: map<string, Lineage>, policy: Policy, usage: map<string, Quota>)

  const NEW := Service(map[], map[], map[], map[], map[], EMPTY, map[])

  /** Why an event is refused; `describe` of the configuration gives the text. */
  datatype Problem =
    | TenantRequired
    | ContractRequired
    | PayloadRequired
    | InvalidSignature
    | OutsideWindow
    | ContractNotFound
    | NotPublished
    | FieldProblem(issue: Typecheck.TypeIssue)
    | RuleProblem(rule: string, op: Operator)

  datatype Config = Config(secret: string, maxQuota: int, host: Host, describe: Problem -> string)

  // ---------------------------------------------------------------- entering

  function SeenKey(tenant: string, key: string): string {
    tenant + "/" + key
  }

  function KeyOf(e: Event): string {
    SeenKey(e.tenant, e.key)
  }

  /** Tenants without a slash cannot produce each other's keys. */
  lemma {:induction false} SeenKeyInjective(t: string, k: string, t': string, k': string)
    requires '/' !in t && '/' !in t' && SeenKey(t, k) == SeenKey(t', k')
    ensures t == t' && k == k'
  {
    Text.SlashInjective(t, k, t', k');
  }

  /** The event as `Publish` completes it before taking the lock. */
  function Prepared(e: Event, freshId: string, start: int): Event {
    e.(id := if e.id == "" then freshId else e.id,
       occurredAt := if e.occurredAt.None? then Some(start) else e.occurredAt,
       receivedAt := start)
  }

  /** The quota window in force at `now`. */
  function Window(usage: map<string, Quota>, tenant: string, now: int): Quota {
    if tenant !in usage || now - usage[tenant].start >= MINUTE then Quota(now, 0) else usage[tenant]
  }

  function ConsumeQuota(usage: map<string, Quota>, tenant: string, now: int, maxQuota: int): Option<map<string, Quota>> {
    var q := Window(usage, tenant, now);
    if q.count >= maxQuota then None else Some(usage[tenant := q.(count := q.count + 1)])
  }

  datatype Decision = Refused(message: string) | Known(receipt: Receipt) | Admitted(usage: map<string, Quota>)

  /** The first locked section of `Publish`. */
  function Enter(cfg: Config, s: Service, e: Event): Decision {
    if e.key == "" then Refused("Idempotency-Key is required")
    else if KeyOf(e) in s.seen then Known(s.seen[KeyOf(e)].(duplicate := true))
    else match ConsumeQuota(s.usage, e.tenant, e.receivedAt, cfg.maxQuota)
      case None => Refused("tenant quota exceeded")
      case Some(usage) => Admitted(usage)
  }

  // ---------------------------------------------------------------- validation

  predicate Signed(cfg: Config, e: Event) {
    e.signature == cfg.host.mac(cfg.secret, e.id + "|" + e.contract + "|" + e.key)
  }

  function OccurredAt(e: Event): int {
    if e.occurredAt.Some? then e.occurredAt.value else 0
  }

  predicate InWindow(e: Event, now: int, later: int) {
    now - OccurredAt(e) <= DAY && OccurredAt(e) - later <= 5 * MINUTE
  }

  function ProblemIf(b: bool, p: Problem): seq<Problem> {
    if b then [p] else []
  }

  /** The problems found before the contract is looked up. */
  function Preliminary(cfg: Config, e: Event, now: int, later: int): seq<Problem> {
    ProblemIf(|e.payload| == 0, PayloadRequired)
    + ProblemIf(cfg.secret != "" && !Signed(cfg, e), InvalidSignature)
    + ProblemIf(!InWindow(e, now, later), OutsideWindow)
  }

  /** The published version an event names, if there is one. */
  function PublishedVersion(c: Contracts.Data, number: int): (r: Option<Contracts.Version>)
    ensures r.Some? ==> r.value in c.versions && r.value.number == number && r.value.lifecycle == Contracts.Published
  {
    var i := Contracts.Find(c.versions, number);
    if i.Some? && c.versions[i.value].lifecycle == Contracts.Published then Some(c.versions[i.value]) else None
  }

  function FieldProblems(issues: seq<Typecheck.TypeIssue>): (r: seq<Problem>)
    ensures |r| == |issues|
  {
    seq(|issues|, i requires 0 <= i < |issues| => FieldProblem(issues[i]))
  }

  function RuleProblems(h: Host, rules: seq<Rule>, p: Payload): seq<Problem> {
    if rules == [] then []
    else
      var last := rules[|rules| - 1];
      RuleProblems(h, rules[..|rules| - 1], p) + if Fails(h, last, p) then [RuleProblem(last.id, last.op)] else []
  }

  function Described(cfg: Config, ps: seq<Problem>): (r: seq<string>)
    ensures |r| == |ps|
  {
    seq(|ps|, i requires 0 <= i < |ps| => cfg.describe(ps[i]))
  }

  /** The part of `validate` from the contract lookup on. Only a complete pass sorts its reasons. */
  function Concluded(cfg: Config, e: Event, first: seq<Problem>, found: Option<Contracts.Data>, rules: seq<Rule>): seq<string> {
    if found.None? then Described(cfg, first + [ContractNotFound])
    else match PublishedVersion(found.value, e.schemaVersion)
      case None => Described(cfg, first + [NotPublished])
      case Some(v) =>
        var issues := Typecheck.Issues(cfg.host, e.payload, v.schema.fields);
        Sorting.Sort(Described(cfg, first + FieldProblems(issues) + RuleProblems(cfg.host, rules, e.payload)), Text.Less)
  }

  /** `validate`: the reasons against an event, given the clock readings, the contract found and the
      live rules read. */
  function Reasons(cfg: Config, e: Event, now: int, later: int, found: Option<Contracts.Data>, rules: seq<Rule>): seq<string> {
    if e.tenant == "" then [cfg.describe(TenantRequired)]
    else if e.contract == "" then [cfg.describe(ContractRequired)]
    else Concluded(cfg, e, Preliminary(cfg, e, now, later), found, rules)
  }

  lemma {:induction false} NoRuleProblems(h: Host, rules: seq<Rule>, p: Payload)
    ensures RuleProblems(h, rules, p) == [] <==> forall r | r in rules :: !Fails(h, r, p)
  {
    if rules != [] {
      var last := rules[|rules| - 1];
      NoRuleProblems(h, rules[..|rules| - 1], p);
      assert forall r | r in rules :: r in rules[..|rules| - 1] || r == last;
    }
  }

  /** The rules that validation reports are the ones evaluation reports. */
  lemma {:induction false} RuleProblemsAgree(h: Host, rules: seq<Rule>, p: Payload)
    ensures |RuleProblems(h, rules, p)| == |FailedIds(h, rules, p)|
    ensures forall i | 0 <= i < |FailedIds(h, rules, p)| ::
              RuleProblems(h, rules, p)[i].RuleProblem? && RuleProblems(h, rules, p)[i].rule == FailedIds(h, rules, p)[i]
  {
    if rules != [] {
      RuleProblemsAgree(h, rules[..|rules| - 1], p);
    }
  }

  /** The rule that each problem names, if all are about rules. */
  function RuleIds(ps: seq<Problem>): (r: seq<string>)
    requires forall i | 0 <= i < |ps| :: ps[i].RuleProblem?
    ensures |r| == |ps|
  {
    seq(|ps|, i requires 0 <= i < |ps| => ps[i].rule)
  }

  /** The rule ids that validation reports are, as a multiset, the failure codes of `Evaluate`, which runs
      the same rules in another order. */
  lemma {:induction false} ValidationAgreesWithEvaluation(h: Host, rules: seq<Rule>, p: Payload, s: Summary)
    requires Reports(s, h, Sorting.Sort(rules, RuleLt), p)
    ensures forall i | 0 <= i < |RuleProblems(h, rules, p)| :: RuleProblems(h, rules, p)[i].RuleProblem?
    ensures multiset(RuleIds(RuleProblems(h, rules, p))) == multiset(s.failureCodes)
  {
    hide RuleProblems, FailedIds, Sorting.Sort;
    RuleProblemsAgree(h, rules, p);
    FailuresAgree(h, rules, p);
    assert RuleIds(RuleProblems(h, rules, p)) == FailedIds(h, rules, p);
  }

  /** What acceptance means. */
  ghost predicate Acceptable(cfg: Config, e: Event, now: int, later: int, found: Option<Contracts.Data>, rules: seq<Rule>) {
    && e.tenant != "" && e.contract != "" && |e.payload| != 0
    && (cfg.secret != "" ==> Signed(cfg, e)) && InWindow(e, now, later)
    && found.Some? && ValidAgainst(cfg.host, e, found.value)
    && (forall r | r in rules && r.enabled :: Demanded(cfg.host, r, e.payload))
  }

  /** The version the event names is published and its payload has no issue with it. */
  ghost predicate ValidAgainst(h: Host, e: Event, c: Contracts.Data) {
    && PublishedVersion(c, e.schemaVersion).Some?
    && Typecheck.Valid(h, e.payload, PublishedVersion(c, e.schemaVersion).value.schema.fields)
  }

  /** No reason is given exactly when the event is acceptable. */
  lemma {:induction false} NoReasonsIff(cfg: Config, e: Event, now: int, later: int, found: Option<Contracts.Data>, rules: seq<Rule>)
    ensures Reasons(cfg, e, now, later, found, rules) == [] <==> Acceptable(cfg, e, now, later, found, rules)
  {
    forall r: Rule
      ensures Fails(cfg.host, r, e.payload) <==> r.enabled && !Demanded(cfg.host, r, e.payload)
    {
      PassesIffDemanded(cfg.host, r, e.payload);
    }
    hide Demanded, Fails, InWindow, Signed, Typecheck.IssueOf, PublishedVersion;
    if e.tenant != "" && e.contract != "" && found.Some? && PublishedVersion(found.value, e.schemaVersion).Some? {
      var v := PublishedVersion(found.value, e.schemaVersion).value;
      var issues := Typecheck.Issues(cfg.host, e.payload, v.schema.fields);
      NoRuleProblems(cfg.host, rules, e.payload);
      var all := Preliminary(cfg, e, now, later) + FieldProblems(issues) + RuleProblems(cfg.host, rules, e.payload);
      Sorting.SortPermutes(Described(cfg, all), Text.Less);
      assert |all| == |Preliminary(cfg, e, now, later)| + |issues| + |RuleProblems(cfg.host, rules, e.payload)|;
    }
  }

  /** The edges of the time window, in nanoseconds: an event is in it unless it is more than 24 hours old or more than
      5 minutes ahead; one that came without a time gets that of its reception, so it is refused for its time only if
      validation starts more than 24 hours later or with a clock more than 5 minutes behind. */
  lemma WindowEdges(e: Event, now: int, later: int, freshId: string, start: int)
    ensures e.occurredAt.Some? ==>
              (InWindow(e, now, later) <==>
               now - 86_400_000_000_000 <= e.occurredAt.value <= later + 300_000_000_000)
    ensures e.occurredAt.None? ==>
              (InWindow(Prepared(e, freshId, start), now, later) <==>
               now <= start + 86_400_000_000_000 && start <= later + 300_000_000_000)
  {
  }

  /** Different texts have different codes. */
  ghost predicate CodesApart(h: Host) {
    forall secret, a, b :: h.mac(secret, a) == h.mac(secret, b) ==> a == b
  }

  /** A signature is good for one id, one contract and one key, if neither id nor contract has the separator. */
  lemma SignatureBinds(cfg: Config, e: Event, f: Event)
    requires CodesApart(cfg.host) && Signed(cfg, e) && Signed(cfg, f) && e.signature == f.signature
    requires '|' !in e.id && '|' !in f.id && '|' !in e.contract && '|' !in f.contract
    ensures e.id == f.id && e.contract == f.contract && e.key == f.key
  {
    var a, b := "|" + (e.contract + ("|" + e.key)), "|" + (f.contract + ("|" + f.key));
    assert e.id + "|" + e.contract + "|" + e.key == e.id + a;
    assert f.id + "|" + f.contract + "|" + f.key == f.id + b;
    SplitOff(e.id, a, f.id, b);
    assert a[1..] == e.contract + ("|" + e.key) && b[1..] == f.contract + ("|" + f.key);
    SplitOff(e.contract, "|" + e.key, f.contract, "|" + f.key);
    assert ("|" + e.key)[1..] == e.key && ("|" + f.key)[1..] == f.key;
  }

  lemma SplitOff(x: string, a: string, y: string, b: string)
    requires '|' !in x && '|' !in y && a != "" && b != "" && a[0] == b[0] == '|' && x + a == y + b
    ensures x == y && a == b
  {
    Text.PrefixSplits(x, a, y, b, '|');
    Text.PrefixSplits(y, b, x, a, '|');
    assert x == (x + a)[..|x|] && y == (y + b)[..|x|];
    assert a == (x + a)[|x|..] && b == (y + b)[|x|..];
  }

  /** Different problems are described differently. */
  ghost predicate DescribedApart(cfg: Config) {
    forall p, q :: cfg.describe(p) == cfg.describe(q) ==> p == q
  }

  lemma {:induction false} DescribedMembers(cfg: Config, ps: seq<Problem>, p: Problem)
    requires DescribedApart(cfg)
    ensures cfg.describe(p) in Described(cfg, ps) <==> p in ps
    ensures cfg.describe(p) in Sorting.Sort(Described(cfg, ps), Text.Less) <==> p in ps
  {
    var texts := Described(cfg, ps);
    Sorting.SortPermutes(texts, Text.Less);
    Sorting.SameElements(Sorting.Sort(texts, Text.Less), texts);
    hide Sorting.Sort;
    if p in ps {
      var i :| 0 <= i < |ps| && ps[i] == p;
      assert texts[i] == cfg.describe(p);
    }
    if cfg.describe(p) in texts {
      var i :| 0 <= i < |texts| && texts[i] == cfg.describe(p);
    }
  }

  lemma {:induction false} RuleProblemMembers(h: Host, rules: seq<Rule>, p: Payload, q: Problem)
    ensures q in RuleProblems(h, rules, p) <==>
            exists r :: r in rules && r.enabled && !Demanded(h, r, p) && q == RuleProblem(r.id, r.op)
  {
    if rules != [] {
      var last := rules[|rules| - 1];
      RuleProblemMembers(h, rules[..|rules| - 1], p, q);
      PassesIffDemanded(h, last, p);
      assert Fails(h, last, p) <==> last.enabled && !Demanded(h, last, p);
      hide Fails, Demanded;
      assert forall r :: r in rules <==> r in rules[..|rules| - 1] || r == last;
    }
  }

  /** What speaks against an event, problem by problem. Tenant and contract are looked at alone; a missing contract or
      an unpublished version ends validation, and only a complete pass looks at fields and rules. */
  ghost predicate Objection(cfg: Config, e: Event, now: int, later: int, found: Option<Contracts.Data>, rules: seq<Rule>, q: Problem) {
    var named := e.tenant != "" && e.contract != "";
    var version := if found.Some? then PublishedVersion(found.value, e.schemaVersion) else None;
    match q
    case TenantRequired => e.tenant == ""
    case ContractRequired => e.tenant != "" && e.contract == ""
    case PayloadRequired => named && e.payload == map[]
    case InvalidSignature => named && cfg.secret != "" && !Signed(cfg, e)
    case OutsideWindow => named && !InWindow(e, now, later)
    case ContractNotFound => named && found.None?
    case NotPublished => named && found.Some? && version.None?
    case FieldProblem(issue) => named && version.Some? && issue in Typecheck.Issues(cfg.host, e.payload, version.value.schema.fields)
    case RuleProblem(id, op) =>
      named && version.Some? && exists r :: r in rules && r.enabled && r.id == id && r.op == op && !Demanded(cfg.host, r, e.payload)
  }

  lemma PreliminaryMembers(cfg: Config, e: Event, now: int, later: int, q: Problem)
    ensures q in Preliminary(cfg, e, now, later) <==>
            || (q == PayloadRequired && e.payload == map[])
            || (q == InvalidSignature && cfg.secret != "" && !Signed(cfg, e))
            || (q == OutsideWindow && !InWindow(e, now, later))
  {
    hide Signed, InWindow;
  }

  lemma FieldProblemMembers(issues: seq<Typecheck.TypeIssue>, q: Problem)
    ensures q in FieldProblems(issues) <==> q.FieldProblem? && q.issue in issues
  {
    if q.FieldProblem? && q.issue in issues {
      var i :| 0 <= i < |issues| && issues[i] == q.issue;
      assert FieldProblems(issues)[i] == q;
    }
  }

  /** Validation reports exactly the problems that speak against the event. */
  lemma {:induction false} ReasonsReport(cfg: Config, e: Event, now: int, later: int, found: Option<Contracts.Data>, rules: seq<Rule>, q: Problem)
    requires DescribedApart(cfg)
    ensures cfg.describe(q) in Reasons(cfg, e, now, later, found, rules) <==> Objection(cfg, e, now, later, found, rules, q)
  {
    hide Preliminary, FieldProblems, RuleProblems, Described, Sorting.Sort, Typecheck.Issues, PublishedVersion, Signed, InWindow, Demanded;
    PreliminaryMembers(cfg, e, now, later, q);
    var first := Preliminary(cfg, e, now, later);
    if e.tenant == "" {
      assert cfg.describe(q) == cfg.describe(TenantRequired) <==> q == TenantRequired;
    } else if e.contract == "" {
      assert cfg.describe(q) == cfg.describe(ContractRequired) <==> q == ContractRequired;
    } else if found.None? {
      DescribedMembers(cfg, first + [ContractNotFound], q);
    } else if PublishedVersion(found.value, e.schemaVersion).None? {
      DescribedMembers(cfg, first + [NotPublished], q);
    } else {
      var issues := Typecheck.Issues(cfg.host, e.payload, PublishedVersion(found.value, e.schemaVersion).value.schema.fields);
      FieldProblemMembers(issues, q);
      RuleProblemMembers(cfg.host, rules, e.payload, q);
      DescribedMembers(cfg, first + FieldProblems(issues) + RuleProblems(cfg.host, rules, e.payload), q);
    }
  }

  // ---------------------------------------------------------------- committing

  function StatusOf(reasons: seq<string>): Status {
    if reasons == [] then Accepted else DeadLettered
  }

  function FirstReason(reasons: seq<string>): Option<string> {
    if reasons == [] then None else Some(reasons[0])
  }

  function AttemptsOf(s: Service, id: string): seq<Attempt> {
    if id in s.attempts then s.attempts[id] else []
  }

  function NewAttempt(e: Event, reasons: seq<string>, id: string, now: int): Attempt {
    Attempt(id, e.id, 1, StatusOf(reasons), reasons, now)
  }

  function NewReceipt(e: Event, reasons: seq<string>, attemptId: string): Receipt {
    Receipt(e.id, StatusOf(reasons), false, attemptId, reasons)
  }

  function NewLetter(e: Event, reason: string, id: string, now: int): Letter {
    Letter(id, e.tenant, e.id, reason, e.payload, Pending, 0, MAX_ATTEMPTS, now, now, [Audit(now, Created, "gateway")])
  }

  function NewLineage(e: Event, a: Attempt, now: int): Lineage {
    Lineage(e.id, e.contract, FirstReason(a.reasons), [Stage(a.id, a.status, a.at, FirstReason(a.reasons))], now + 30 * DAY, now)
  }

  /** The last locked section of `Publish`. */
  function Commit(s: Service, e: Event, reasons: seq<string>, attemptId: string, letterId: string, now: int): Service {
    var a := NewAttempt(e, reasons, attemptId, now);
    s.(seen := s.seen[KeyOf(e) := NewReceipt(e, reasons, attemptId)],
       events := s.events[e.id := e],
       attempts := s.attempts[e.id := AttemptsOf(s, e.id) + [a]],
       letters := if reasons == [] then s.letters else s.letters[letterId := NewLetter(e, reasons[0], letterId, now)],
       lineages := s.lineages[e.id := NewLineage(e, a, now)])
  }

  // ---------------------------------------------------------------- replaying

  predicate CanReplay(s: Service, letter: string) {
    letter in s.letters && CanBegin(s.letters[letter])
  }

  const ZERO_EVENT := Event("", "", "", 0, "", "", None, map[], "", 0)

  /** The event a replay publishes: the stored one under a fresh idempotency key. */
  function ReplayEvent(s: Service, letter: string, freshKey: string): Event
    requires letter in s.letters
  {
    var id := s.letters[letter].eventId;
    (if id in s.events then s.events[id] else ZERO_EVENT).(key := freshKey)
  }

  /** The first locked section of `Replay`. */
  function BeginReplay(s: Service, letter: string, actor: string, now: int): Service
    requires letter in s.letters
  {
    s.(letters := s.letters[letter := Begun(s.letters[letter], actor, now)])
  }

  /** The last locked section of `Replay`. */
  function FinishReplay(s: Service, letter: string, ok: bool, actor: string, now: int): Service
    requires letter in s.letters
  {
    s.(letters := s.letters[letter := Finished(s.letters[letter], ok, actor, now)])
  }

  /** `PruneExpiredLineage`. */
  function Prune(s: Service, now: int): Service {
    s.(lineages := map id | id in s.lineages && now <= s.lineages[id].retainUntil :: s.lineages[id])
  }
}
