/** Quality rules and their evaluation (internal/quality/domain/model.go, catalog.go). */
module Rules {
  import opened Values
  import Text
  import Sorting

  datatype Operator = RequiredOp | RegexOp | MinOp | MaxOp | EqualsOp | OtherOp(name: string)

  datatype Rule = Rule(id: string, field: string, op: Operator, value: string, enabled: bool)

  /** `Rule.Validate` succeeds. */
  predicate ValidRule(h: Host, r: Rule) {
    r.id != "" && r.field != "" && !r.op.OtherOp? && (r.op.RegexOp? ==> h.compiles(r.value))
  }

  /** `Panic` is what compiling an invalid regular expression on the fly does. */
  datatype Verdict = Passed | Failed | Panic

  function Judge(b: bool): Verdict {
    if b then Passed else Failed
  }

  /** The text of a payload value; an absent one prints like nil. */
  function TextOf(h: Host, p: Payload, field: string): string {
    Sprint(h, if field in p then p[field] else Null)
  }

  predicate Compares(h: Host, r: Rule, text: string) {
    var n, bound := h.scan(text), h.scan(r.value);
    n.Some? && bound.Some? && if r.op.MinOp? then n.value >= bound.value else n.value <= bound.value
  }

  /** `Rule.Execute`. */
  function Execute(h: Host, r: Rule, p: Payload): Verdict {
    var text := TextOf(h, p, r.field);
    match r.op
    case RequiredOp => Judge(r.field in p && p[r.field] != Null && Text.Trim(text) != "")
    case EqualsOp => Judge(r.field in p && text == r.value)
    case RegexOp =>
      if r.field !in p then Failed
      else if !h.compiles(r.value) then Panic
      else Judge(h.matches(r.value, text))
    case MinOp => Judge(Compares(h, r, text))
    case MaxOp => Judge(Compares(h, r, text))
    case OtherOp(_) => Passed
  }

  /** The rule runs and fails. */
  predicate Fails(h: Host, r: Rule, p: Payload) {
    r.enabled && Execute(h, r, p) != Passed
  }

  function EnabledRules(rules: seq<Rule>): seq<Rule> {
    if rules == [] then []
    else EnabledRules(rules[..|rules| - 1]) + if rules[|rules| - 1].enabled then [rules[|rules| - 1]] else []
  }

  /** The ids of failing rules, in the order of the rules. */
  function FailedIds(h: Host, rules: seq<Rule>, p: Payload): seq<string> {
    if rules == [] then []
    else
      FailedIds(h, rules[..|rules| - 1], p)
      + if Fails(h, rules[|rules| - 1], p) then [rules[|rules| - 1].id] else []
  }

  predicate RuleLt(a: Rule, b: Rule) {
    Text.Less(a.id, b.id)
  }

  lemma RuleOrder()
    ensures Sorting.StrictWeak(RuleLt)
  {
    Sorting.KeyOrder(RuleLt, (r: Rule) => r.id);
  }

  datatype Evaluation = Evaluation(rule: Rule, verdict: Verdict)

  datatype Summary = Summary(
    passed: bool, total: nat, passedCount: nat, failedCount: nat,
    evaluations: seq<Evaluation>, failureCodes: seq<string>)

  /** The verdicts of the enabled rules, in the order of the rules. */
  function Evaluations(h: Host, rules: seq<Rule>, p: Payload): (r: seq<Evaluation>)
    ensures |r| == |EnabledRules(rules)|
  {
    if rules == [] then []
    else
      var last := rules[|rules| - 1];
      Evaluations(h, rules[..|rules| - 1], p) + if last.enabled then [Evaluation(last, Execute(h, last, p))] else []
  }

  lemma ValidNeverPanics(h: Host, r: Rule, p: Payload)
    requires ValidRule(h, r)
    ensures Execute(h, r, p) != Panic
  {
  }

  /** What `Evaluate` reports on rules in the order in which they run. */
  ghost predicate Reports(s: Summary, h: Host, ordered: seq<Rule>, p: Payload) {
    && s.total == |ordered| && s.evaluations == Evaluations(h, ordered, p)
    && s.failureCodes == FailedIds(h, ordered, p)
    && s.passedCount + s.failedCount == |s.evaluations|
    && s.failedCount == |s.failureCodes| && s.passed == (s.failureCodes == [])
  }

  ghost predicate Panics(h: Host, rules: seq<Rule>, p: Payload) {
    exists r :: r in rules && r.enabled && Execute(h, r, p) == Panic
  }

  /** `Evaluate`: the enabled rules in order of their ids. There is no summary if a rule panics, which no
      list of valid rules does. */
  method Evaluate(h: Host, rules: seq<Rule>, p: Payload) returns (s: Option<Summary>)
    ensures s.None? <==> Panics(h, rules, p)
    ensures s.Some? ==> Reports(s.value, h, Sorting.Sort(rules, RuleLt), p)
    ensures (forall r | r in rules :: ValidRule(h, r)) ==> s.Some?
  {
    hide Execute, ValidRule;
    var ordered := Sorting.Sort(rules, RuleLt);
    Sorting.SortPermutes(rules, RuleLt);
    Sorting.SameElements(ordered, rules);
    s := EvaluateInOrder(h, ordered, p);
    if s.None? {
      var r :| r in rules && r.enabled && Execute(h, r, p) == Panic;
      if ValidRule(h, r) {
        ValidNeverPanics(h, r, p);
      }
    }
  }

  /** The loop of `Evaluate`. */
  method EvaluateInOrder(h: Host, ordered: seq<Rule>, p: Payload) returns (s: Option<Summary>)
    ensures s.None? <==> Panics(h, ordered, p)
    ensures s.Some? ==> Reports(s.value, h, ordered, p)
  {
    hide Execute;
    var passedCount, failedCount, evaluations, codes := 0, 0, [], [];
    for i := 0 to |ordered|
      invariant evaluations == Evaluations(h, ordered[..i], p)
      invariant codes == FailedIds(h, ordered[..i], p)
      invariant passedCount + failedCount == |evaluations| && failedCount == |codes|
      invariant forall k | 0 <= k < i :: !(ordered[k].enabled && Execute(h, ordered[k], p) == Panic)
    {
      var r := ordered[i];
      assert ordered[..i + 1][..i] == ordered[..i];
      if r.enabled {
        var verdict := Execute(h, r, p);
        if verdict == Panic {
          assert r in ordered;
          return None;
        }
        evaluations := evaluations + [Evaluation(r, verdict)];
        if verdict == Passed {
          passedCount := passedCount + 1;
        } else {
          failedCount := failedCount + 1;
          codes := codes + [r.id];
        }
      }
    }
    assert ordered[..|ordered|] == ordered;
    s := Some(Summary(failedCount == 0, |ordered|, passedCount, failedCount, evaluations, codes));
  }

  // ---------------------------------------------------------------- what a rule demands

  /** A rule read as a demand on the payload. */
  ghost predicate Demanded(h: Host, r: Rule, p: Payload) {
    var text := TextOf(h, p, r.field);
    match r.op
    case RequiredOp => r.field in p && p[r.field] != Null && exists c :: c in text && !Text.IsSpace(c)
    case EqualsOp => r.field in p && text == r.value
    case RegexOp => r.field in p && h.compiles(r.value) && h.matches(r.value, text)
    case MinOp => exists x, a :: h.scan(text) == Some(x) && h.scan(r.value) == Some(a) && a <= x
    case MaxOp => exists x, b :: h.scan(text) == Some(x) && h.scan(r.value) == Some(b) && x <= b
    case OtherOp(_) => true
  }

  lemma PassesIffDemanded(h: Host, r: Rule, p: Payload)
    ensures Execute(h, r, p) == Passed <==> Demanded(h, r, p)
  {
    Text.TrimCuts(TextOf(h, p, r.field));
    hide Text.Trim, TextOf, Text.IsSpace;
  }

  lemma {:induction false} FailedMembers(h: Host, rules: seq<Rule>, p: Payload, id: string)
    ensures id in FailedIds(h, rules, p) <==> exists r :: r in rules && r.id == id && Fails(h, r, p)
  {
    if rules != [] {
      hide Fails;
      var last := rules[|rules| - 1];
      FailedMembers(h, rules[..|rules| - 1], p, id);
      assert forall r :: r in rules <==> r in rules[..|rules| - 1] || r == last;
    }
  }

  lemma {:induction false} EvaluationMembers(h: Host, rules: seq<Rule>, p: Payload)
    ensures forall e :: e in Evaluations(h, rules, p) <==> e.rule in rules && e.rule.enabled && e.verdict == Execute(h, e.rule, p)
  {
    if rules != [] {
      hide Execute;
      var last := rules[|rules| - 1];
      EvaluationMembers(h, rules[..|rules| - 1], p);
      assert forall r :: r in rules <==> r in rules[..|rules| - 1] || r == last;
    }
  }

  /** An evaluation passes exactly when the payload meets the demand of every enabled rule, and the failure codes
      are the ids of the enabled rules whose demands it does not meet. */
  lemma {:induction false} EvaluationMeans(h: Host, rules: seq<Rule>, p: Payload, s: Summary)
    requires Reports(s, h, Sorting.Sort(rules, RuleLt), p)
    ensures s.passed <==> forall r | r in rules && r.enabled :: Demanded(h, r, p)
    ensures forall id :: id in s.failureCodes <==> exists r :: r in rules && r.enabled && r.id == id && !Demanded(h, r, p)
    ensures forall e :: e in s.evaluations <==> e.rule in rules && e.rule.enabled && e.verdict == Execute(h, e.rule, p)
  {
    Sorting.SortPermutes(rules, RuleLt);
    EvaluationMembers(h, Sorting.Sort(rules, RuleLt), p);
    var ordered := Sorting.Sort(rules, RuleLt);
    Sorting.SameElements(ordered, rules);
    forall r: Rule
      ensures Fails(h, r, p) <==> r.enabled && !Demanded(h, r, p)
    {
      PassesIffDemanded(h, r, p);
    }
    hide Fails, Demanded, Sorting.Sort, FailedIds, Evaluations;
    forall id
      ensures id in s.failureCodes <==> exists r :: r in rules && r.enabled && r.id == id && !Demanded(h, r, p)
    {
      FailedMembers(h, ordered, p, id);
    }
    if s.failureCodes != [] {
      assert s.failureCodes[0] in s.failureCodes;
    } else {
      forall r | r in rules && r.enabled
        ensures Demanded(h, r, p)
      {
        assert !Demanded(h, r, p) ==> r.id in s.failureCodes;
      }
    }
  }

  predicate BoundRule(h: Host, r: Rule, op: Operator, bound: real) {
    r.enabled && r.op == op && h.scan(r.value) == Some(bound)
  }

  /** A minimum and a maximum rule on one field, evaluated together, demand a number in the interval between them,
      ends included; with one bound for both they demand that number. */
  lemma {:induction false} BoundsDemandInterval(h: Host, low: Rule, high: Rule, a: real, b: real, p: Payload, s: Summary)
    requires BoundRule(h, low, MinOp, a) && BoundRule(h, high, MaxOp, b) && low.field == high.field
    requires Reports(s, h, Sorting.Sort([low, high], RuleLt), p)
    ensures s.passed <==> exists x :: h.scan(TextOf(h, p, low.field)) == Some(x) && a <= x <= b
    ensures a == b ==> (s.passed <==> h.scan(TextOf(h, p, low.field)) == Some(a))
  {
    EvaluationMeans(h, [low, high], p, s);
    assert low in [low, high] && high in [low, high];
    hide Reports, TextOf, Sorting.Sort;
  }

  /** Two equality rules on one field with different values never both pass. */
  lemma {:induction false} EqualsExclude(h: Host, q: Rule, r: Rule, p: Payload, s: Summary)
    requires q.enabled && r.enabled && q.op == r.op == EqualsOp && q.field == r.field && q.value != r.value
    requires Reports(s, h, Sorting.Sort([q, r], RuleLt), p)
    ensures !s.passed && (q.id in s.failureCodes || r.id in s.failureCodes)
    ensures q.field !in p ==> q.id in s.failureCodes && r.id in s.failureCodes
  {
    EvaluationMeans(h, [q, r], p, s);
    assert q in [q, r] && r in [q, r];
    hide Reports, TextOf, Sorting.Sort;
  }

  /** A null that is present equals the text "<nil>" and nothing else. */
  lemma {:induction false} NullReadsNil(h: Host, r: Rule, p: Payload, s: Summary)
    requires r.enabled && r.op == EqualsOp && r.field in p && p[r.field] == Null
    requires Reports(s, h, Sorting.Sort([r], RuleLt), p)
    ensures s.passed <==> r.value == "<nil>"
  {
    EvaluationMeans(h, [r], p, s);
    assert r in [r];
    hide Reports, Sorting.Sort;
  }

  /** The rule with a tighter bound. */
  ghost predicate Tighter(h: Host, r: Rule, q: Rule) {
    && q.id == r.id && q.field == r.field && q.op == r.op && q.enabled == r.enabled && (r.op.MinOp? || r.op.MaxOp?)
    && exists a, b :: h.scan(r.value) == Some(a) && h.scan(q.value) == Some(b) && if r.op.MinOp? then a <= b else b <= a
  }

  lemma TighterFails(h: Host, r: Rule, q: Rule, p: Payload)
    requires Tighter(h, r, q) && Fails(h, r, p)
    ensures Fails(h, q, p)
  {
  }

  lemma {:induction false} TighterIds(h: Host, rules: seq<Rule>, i: nat, q: Rule, p: Payload)
    requires i < |rules| && Tighter(h, rules[i], q)
    ensures multiset(FailedIds(h, rules, p)) <= multiset(FailedIds(h, rules[i := q], p))
  {
    if Fails(h, rules[i], p) {
      TighterFails(h, rules[i], q, p);
    }
    hide Fails, Tighter, FailedIds;
    var a, b := rules[..i], rules[i + 1..];
    assert rules == a + [rules[i]] + b && rules[i := q] == a + [q] + b;
    FailedIdsMiddle(h, a, rules[i], b, p);
    FailedIdsMiddle(h, a, q, b, p);
    TighterId(rules[i], q);
  }

  lemma TighterId(r: Rule, q: Rule)
    requires exists h :: Tighter(h, r, q)
    ensures q.id == r.id
  {
  }

  lemma {:induction false} FailedIdsMiddle(h: Host, a: seq<Rule>, r: Rule, b: seq<Rule>, p: Payload)
    ensures multiset(FailedIds(h, a + [r] + b, p)) ==
            multiset(FailedIds(h, a, p)) + multiset(if Fails(h, r, p) then [r.id] else []) + multiset(FailedIds(h, b, p))
  {
    FailedIdsAppend(h, a + [r], b, p);
    FailedIdsAppend(h, a, [r], p);
    assert [r][..0] == [];
    assert FailedIds(h, [r], p) == if Fails(h, r, p) then [r.id] else [];
    hide FailedIds, Fails;
  }

  /** Raising a minimum or lowering a maximum in a list of rules only ever adds failures. */
  lemma {:induction false} TighterAddsFailures(h: Host, rules: seq<Rule>, i: nat, q: Rule, p: Payload, s: Summary, t: Summary)
    requires i < |rules| && Tighter(h, rules[i], q)
    requires Reports(s, h, Sorting.Sort(rules, RuleLt), p) && Reports(t, h, Sorting.Sort(rules[i := q], RuleLt), p)
    ensures multiset(s.failureCodes) <= multiset(t.failureCodes)
  {
    TighterIds(h, rules, i, q, p);
    FailuresAgree(h, rules, p);
    FailuresAgree(h, rules[i := q], p);
    hide FailedIds, Tighter;
  }

  /** An id identifies a rule. */
  ghost predicate DistinctRules(rules: seq<Rule>) {
    forall r, q | r in rules && q in rules && r.id == q.id :: r == q
  }

  /** The order in which rules with distinct ids are configured does not matter to their evaluation. */
  lemma EvaluationForgetsOrder(h: Host, a: seq<Rule>, b: seq<Rule>, p: Payload)
    requires DistinctRules(a) && multiset(a) == multiset(b)
    ensures Evaluations(h, Sorting.Sort(a, RuleLt), p) == Evaluations(h, Sorting.Sort(b, RuleLt), p)
    ensures FailedIds(h, Sorting.Sort(a, RuleLt), p) == FailedIds(h, Sorting.Sort(b, RuleLt), p)
  {
    RuleOrder();
    forall r, q | r in a && q in a && r != q
      ensures RuleLt(r, q) || RuleLt(q, r)
    {
      Text.LessConnected(r.id, q.id);
    }
    Sorting.SortForgetsOrder(a, b, RuleLt);
  }

  lemma {:induction false} FailedIdsAppend(h: Host, a: seq<Rule>, b: seq<Rule>, p: Payload)
    ensures FailedIds(h, a + b, p) == FailedIds(h, a, p) + FailedIds(h, b, p)
  {
    if b == [] {
      assert a + b == a;
    } else {
      FailedIdsAppend(h, a, b[..|b| - 1], p);
      assert (a + b)[..|a + b| - 1] == a + b[..|b| - 1];
    }
  }

  lemma {:induction false} FailedIdsInsert(h: Host, r: Rule, rules: seq<Rule>, p: Payload)
    ensures multiset(FailedIds(h, Sorting.Insert(r, rules, RuleLt), p)) ==
            multiset(FailedIds(h, [r], p)) + multiset(FailedIds(h, rules, p))
  {
    hide Fails, RuleLt;
    if rules == [] || !RuleLt(rules[0], r) {
      FailedIdsAppend(h, [r], rules, p);
    } else {
      FailedIdsInsert(h, r, rules[1..], p);
      FailedIdsAppend(h, [rules[0]], Sorting.Insert(r, rules[1..], RuleLt), p);
      FailedIdsAppend(h, [rules[0]], rules[1..], p);
      assert [rules[0]] + rules[1..] == rules;
      Shuffle(FailedIds(h, [rules[0]], p), FailedIds(h, Sorting.Insert(r, rules[1..], RuleLt), p),
              FailedIds(h, [r], p), FailedIds(h, rules[1..], p));
    }
  }

  lemma Shuffle(head: seq<string>, inserted: seq<string>, one: seq<string>, rest: seq<string>)
    requires multiset(inserted) == multiset(one) + multiset(rest)
    ensures multiset(head + inserted) == multiset(one) + multiset(head + rest)
  {
  }

  /** Evaluation in id order reports, as a multiset, the failures that a pass in the configured order
      meets: an event's detailed result agrees with its validation. */
  lemma {:induction false} FailuresAgree(h: Host, rules: seq<Rule>, p: Payload)
    ensures multiset(FailedIds(h, Sorting.Sort(rules, RuleLt), p)) == multiset(FailedIds(h, rules, p))
  {
    if rules != [] {
      hide Fails;
      FailuresAgree(h, rules[1..], p);
      FailedIdsInsert(h, rules[0], Sorting.Sort(rules[1..], RuleLt), p);
      FailedIdsAppend(h, [rules[0]], rules[1..], p);
      assert [rules[0]] + rules[1..] == rules;
    }
  }

  lemma {:induction false} EnabledAppend(a: seq<Rule>, b: seq<Rule>)
    ensures EnabledRules(a + b) == EnabledRules(a) + EnabledRules(b)
  {
    if b == [] {
      assert a + b == a;
    } else {
      EnabledAppend(a, b[..|b| - 1]);
      assert (a + b)[..|a + b| - 1] == a + b[..|b| - 1];
    }
  }

  lemma {:induction false} EnabledInsert(r: Rule, rules: seq<Rule>)
    ensures |EnabledRules(Sorting.Insert(r, rules, RuleLt))| == |EnabledRules([r] + rules)|
  {
    if rules != [] && RuleLt(rules[0], r) {
      EnabledInsert(r, rules[1..]);
      EnabledAppend([rules[0]], Sorting.Insert(r, rules[1..], RuleLt));
      EnabledAppend([r], rules[1..]);
      EnabledAppend([rules[0]], rules[1..]);
      assert [rules[0]] + rules[1..] == rules;
      EnabledAppend([r], rules);
    }
  }

  /** Passed plus failed counts every enabled rule once. */
  lemma {:induction false} EnabledCounted(h: Host, rules: seq<Rule>, p: Payload)
    ensures |Evaluations(h, Sorting.Sort(rules, RuleLt), p)| == |EnabledRules(rules)|
  {
    if rules != [] {
      var sorted := Sorting.Sort(rules[1..], RuleLt);
      EnabledCounted(h, rules[1..], p);
      EnabledInsert(rules[0], sorted);
      EnabledAppend([rules[0]], sorted);
      EnabledAppend([rules[0]], rules[1..]);
      assert [rules[0]] + rules[1..] == rules;
    }
  }
}
