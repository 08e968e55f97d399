/** The rule catalogue and its coupling to the live rules (internal/quality/domain/catalog.go,
    internal/ingestion/application/policy.go, `SetRules` of service.go). */
module Catalogs {
  import opened Values
  import opened Rules
  import Text
  import Sorting

  datatype RuleSet = RuleSet(contract: string, version: int, rules: seq<Rule>, createdAt: int, active: bool)

  /** How many versions the gateway keeps of each policy. */
  const KEEP := 10

  predicate DistinctIds(rules: seq<Rule>) {
    forall i, j | 0 <= i < j < |rules| :: rules[i].id != rules[j].id
  }

  predicate ValidRules(h: Host, rules: seq<Rule>) {
    forall r | r in rules :: ValidRule(h, r)
  }

  /** `RuleSet.Validate` succeeds. */
  predicate ValidSet(h: Host, s: RuleSet) {
    Text.Trim(s.contract) != "" && s.version >= 1 && ValidRules(h, s.rules) && DistinctIds(s.rules)
  }

  method ValidateSet(h: Host, s: RuleSet) returns (r: Result<()>)
    ensures r.Ok? <==> ValidSet(h, s)
  {
    if Text.Trim(s.contract) == "" {
      return Err("contract id is required");
    }
    if s.version < 1 {
      return Err("rule set version must be positive");
    }
    var seen: set<string> := {};
    for i := 0 to |s.rules|
      invariant forall j | 0 <= j < i :: ValidRule(h, s.rules[j])
      invariant forall x :: x in seen <==> exists j :: 0 <= j < i && s.rules[j].id == x
      invariant forall j, k | 0 <= j < k < i :: s.rules[j].id != s.rules[k].id
    {
      if !ValidRule(h, s.rules[i]) {
        assert s.rules[i] in s.rules;
        return Err("invalid rule");
      }
      if s.rules[i].id in seen {
        return Err("duplicate rule id");
      }
      seen := seen + {s.rules[i].id};
    }
    return Ok(());
  }

  // ---------------------------------------------------------------- the catalogue as a value

  datatype Catalogue = Catalogue(sets: map<string, seq<RuleSet>>, latest: map<string, int>)

  function Items(c: Catalogue, id: string): seq<RuleSet> {
    if id in c.sets then c.sets[id] else []
  }

  function Latest(c: Catalogue, id: string): int {
    if id in c.latest then c.latest[id] else 0
  }

  /** Every flag of the items set by comparison with a version; -1 matches none. */
  function Flagged(items: seq<RuleSet>, version: int): (r: seq<RuleSet>)
    ensures |r| == |items|
  {
    seq(|items|, i requires 0 <= i < |items| => items[i].(active := items[i].version == version))
  }

  function Cleared(items: seq<RuleSet>): (r: seq<RuleSet>)
    ensures |r| == |items|
  {
    seq(|items|, i requires 0 <= i < |items| => items[i].(active := false))
  }

  predicate VersionLt(a: RuleSet, b: RuleSet) {
    a.version < b.version
  }

  function LastOf<T>(s: seq<T>, n: nat): seq<T> {
    if |s| > n then s[|s| - n..] else s
  }

  predicate CanPut(h: Host, c: Catalogue, s: RuleSet) {
    && ValidSet(h, s)
    && s.version > Latest(c, s.contract)
    && (forall e | e in Items(c, s.contract) :: e.version != s.version)
  }

  function PutItems(items: seq<RuleSet>, s: RuleSet, keep: nat): seq<RuleSet> {
    LastOf(Sorting.Sort((if s.active then Cleared(items) else items) + [s], VersionLt), keep)
  }

  function WithSet(c: Catalogue, s: RuleSet, keep: nat): Catalogue {
    Catalogue(c.sets[s.contract := PutItems(Items(c, s.contract), s, keep)], c.latest[s.contract := s.version])
  }

  predicate CanActivate(c: Catalogue, id: string, version: int) {
    exists e :: e in Items(c, id) && e.version == version
  }

  /** The flags change whether or not the version is found. */
  function Activated(c: Catalogue, id: string, version: int): Catalogue {
    if id in c.sets then c.(sets := c.sets[id := Flagged(c.sets[id], version)]) else c
  }

  function FirstActive(items: seq<RuleSet>): (r: Option<RuleSet>)
    ensures r.Some? ==> r.value in items && r.value.active
    ensures r.None? ==> forall e | e in items :: !e.active
  {
    if items == [] then None else if items[0].active then Some(items[0]) else FirstActive(items[1..])
  }

  // ---------------------------------------------------------------- the object

  class Catalog {
    var sets: map<string, seq<RuleSet>>
    var latest: map<string, int>
    const maxKeep: nat

    constructor (maxKeep: int)
      ensures Value() == Catalogue(map[], map[])
      ensures this.maxKeep == if maxKeep < 1 then KEEP else maxKeep
    {
      this.maxKeep := if maxKeep < 1 then KEEP else maxKeep;
      sets, latest := map[], map[];
    }

    function Value(): Catalogue
      reads this
    {
      Catalogue(sets, latest)
    }

    method Put(h: Host, s: RuleSet) returns (r: Result<()>)
      modifies this
      ensures r.Ok? <==> CanPut(h, old(Value()), s)
      ensures Value() == if r.Ok? then WithSet(old(Value()), s, maxKeep) else old(Value())
    {
      var valid := ValidateSet(h, s);
      if valid.Err? {
        return valid;
      }
      var items := if s.contract in sets then sets[s.contract] else [];
      if s.version <= if s.contract in latest then latest[s.contract] else 0 {
        return Err("rule set version must be greater than current version");
      }
      for i := 0 to |items|
        invariant forall j | 0 <= j < i :: items[j].version != s.version
      {
        if items[i].version == s.version {
          assert items[i] in Items(Value(), s.contract);
          return Err("rule set version already exists");
        }
      }
      assert CanPut(h, Value(), s);
      if s.active {
        items := Clear(items);
      }
      items := Sorting.Sort(items + [s], VersionLt);
      if |items| > maxKeep {
        items := items[|items| - maxKeep..];
      }
      sets := sets[s.contract := items];
      latest := latest[s.contract := s.version];
      return Ok(());
    }

    method Activate(id: string, version: int) returns (r: Result<()>)
      modifies this`sets
      ensures r.Ok? <==> CanActivate(old(Value()), id, version)
      ensures Value() == Activated(old(Value()), id, version)
    {
      var items := if id in sets then sets[id] else [];
      var flagged, found := SetFlags(items, version);
      if id in sets {
        sets := sets[id := flagged];
      }
      if !found {
        return Err("rule set version not found");
      }
      return Ok(());
    }

    method Active(id: string) returns (r: Result<RuleSet>)
      ensures r.Ok? <==> FirstActive(Items(Value(), id)).Some?
      ensures r.Ok? ==> r.value == FirstActive(Items(Value(), id)).value
    {
      var items := if id in sets then sets[id] else [];
      for i := 0 to |items|
        invariant FirstActive(items) == FirstActive(items[i..])
      {
        assert items[i..][1..] == items[i + 1..];
        if items[i].active {
          return Ok(items[i]);
        }
      }
      return Err("active rule set not found");
    }
  }

  method Clear(items: seq<RuleSet>) returns (out: seq<RuleSet>)
    ensures out == Cleared(items)
  {
    out := items;
    for i := 0 to |items|
      invariant |out| == |items|
      invariant forall j | 0 <= j < |items| :: out[j] == if j < i then items[j].(active := false) else items[j]
    {
      out := out[i := out[i].(active := false)];
    }
  }

  method SetFlags(items: seq<RuleSet>, version: int) returns (out: seq<RuleSet>, found: bool)
    ensures out == Flagged(items, version)
    ensures found <==> exists e :: e in items && e.version == version
  {
    out, found := items, false;
    for i := 0 to |items|
      invariant |out| == |items|
      invariant forall j | 0 <= j < |items| ::
                  out[j] == if j < i then items[j].(active := items[j].version == version) else items[j]
      invariant found <==> exists j :: 0 <= j < i && items[j].version == version
    {
      out := out[i := out[i].(active := items[i].version == version)];
      found := found || out[i].active;
    }
  }

  // ---------------------------------------------------------------- coupling to the live rules

  /** Catalogue and live rules of the ingestion service. */
  datatype Policy = Policy(catalogue: Catalogue, live: map<string, seq<Rule>>)

  const EMPTY := Policy(Catalogue(map[], map[]), map[])

  function Live(p: Policy, id: string): seq<Rule> {
    if id in p.live then p.live[id] else []
  }

  function NextSet(p: Policy, id: string, rules: seq<Rule>, now: int): RuleSet {
    RuleSet(id, Latest(p.catalogue, id) + 1, rules, now, true)
  }

  predicate CanSet(h: Host, p: Policy, id: string, rules: seq<Rule>, now: int) {
    ValidRules(h, rules) && CanPut(h, p.catalogue, NextSet(p, id, rules, now))
  }

  /** `SetRules`. */
  function SetRules(h: Host, p: Policy, id: string, rules: seq<Rule>, now: int): Policy {
    if CanSet(h, p, id, rules, now) then
      Policy(WithSet(p.catalogue, NextSet(p, id, rules, now), KEEP), p.live[id := rules])
    else p
  }

  /** `ActivateRuleVersion`: a failed activation still clears the flags, and leaves the live rules. */
  function ActivateVersion(p: Policy, id: string, version: int): Policy {
    var c := Activated(p.catalogue, id, version);
    if CanActivate(p.catalogue, id, version) && FirstActive(Items(c, id)).Some? then
      Policy(c, p.live[id := FirstActive(Items(c, id)).value.rules])
    else
      p.(catalogue := c)
  }

  datatype Action =
    | Set(contract: string, rules: seq<Rule>, now: int)
    | Activate(contract: string, version: int)

  function Act(h: Host, p: Policy, a: Action): Policy {
    match a
    case Set(id, rules, now) => SetRules(h, p, id, rules, now)
    case Activate(id, version) => ActivateVersion(p, id, version)
  }

  /** The unbounded log of accepted rule lists, per contract. */
  type History = map<string, seq<seq<Rule>>>

  function Log(hist: History, id: string): seq<seq<Rule>> {
    if id in hist then hist[id] else []
  }

  function Record(h: Host, p: Policy, hist: History, a: Action): History {
    match a
    case Set(id, rules, now) => if CanSet(h, p, id, rules, now) then hist[id := Log(hist, id) + [rules]] else hist
    case Activate(_, _) => hist
  }

  /** The items are the last rule lists of the log, in order, under their positions as versions. */
  ghost predicate WindowOf(items: seq<RuleSet>, log: seq<seq<Rule>>) {
    && |items| == (if |log| < KEEP then |log| else KEEP)
    && forall i | 0 <= i < |items| ::
         items[i].version == |log| - |items| + i + 1 && items[i].rules == log[|log| - |items| + i]
  }

  ghost predicate OneActive(items: seq<RuleSet>, live: seq<Rule>) {
    && (forall i, j | 0 <= i < j < |items| :: !(items[i].active && items[j].active))
    && (forall e | e in items && e.active :: e.rules == live)
  }

  ghost predicate Agrees(h: Host, p: Policy, hist: History, id: string) {
    && Latest(p.catalogue, id) == |Log(hist, id)|
    && WindowOf(Items(p.catalogue, id), Log(hist, id))
    && OneActive(Items(p.catalogue, id), Live(p, id))
    && (forall rules | rules in Log(hist, id) :: ValidRules(h, rules) && DistinctIds(rules))
    && ValidRules(h, Live(p, id)) && DistinctIds(Live(p, id))
  }

  /** The catalogue is a bounded view of the history and agrees with the live rules. */
  ghost predicate Refines(h: Host, p: Policy, hist: History) {
    forall id :: Agrees(h, p, hist, id)
  }

  lemma VersionOrder()
    ensures Sorting.StrictWeak(VersionLt)
  {
  }

  lemma PutItemsWindow(items: seq<RuleSet>, s: RuleSet, log: seq<seq<Rule>>)
    requires WindowOf(items, log) && s.version == |log| + 1 && s.active
    ensures PutItems(items, s, KEEP) == LastOf(Cleared(items) + [s], KEEP)
    ensures WindowOf(PutItems(items, s, KEEP), log + [s.rules])
    ensures OneActive(PutItems(items, s, KEEP), s.rules)
  {
    VersionOrder();
    AscendingWindow(items, s, log);
    Sorting.SortFixed(Cleared(items) + [s], VersionLt);
    LastWindow(items, s, log);
  }

  lemma AscendingWindow(items: seq<RuleSet>, s: RuleSet, log: seq<seq<Rule>>)
    requires WindowOf(items, log) && s.version == |log| + 1
    ensures Sorting.Sorted(Cleared(items) + [s], VersionLt)
  {
  }

  lemma LastWindow(items: seq<RuleSet>, s: RuleSet, log: seq<seq<Rule>>)
    requires WindowOf(items, log) && s.version == |log| + 1 && s.active
    ensures WindowOf(LastOf(Cleared(items) + [s], KEEP), log + [s.rules])
    ensures OneActive(LastOf(Cleared(items) + [s], KEEP), s.rules)
  {
    var last := LastOf(Cleared(items) + [s], KEEP);
    forall i | 0 <= i < |last|
      ensures last[i].active <==> i == |last| - 1
      ensures i < |last| - 1 ==> last[i] == items[|items| - |last| + 1 + i].(active := false)
    {
    }
  }

  lemma SetAgrees(h: Host, p: Policy, hist: History, id: string, rules: seq<Rule>, now: int)
    requires Agrees(h, p, hist, id) && CanSet(h, p, id, rules, now)
    ensures var q := SetRules(h, p, id, rules, now);
            Agrees(h, q, hist[id := Log(hist, id) + [rules]], id)
  {
    hide PutItems, ValidRules, DistinctIds;
    PutItemsWindow(Items(p.catalogue, id), NextSet(p, id, rules, now), Log(hist, id));
  }

  /** Setting rules succeeds on any valid, duplicate-free list for a named contract. */
  lemma CanSetIff(h: Host, p: Policy, hist: History, id: string, rules: seq<Rule>, now: int)
    requires Agrees(h, p, hist, id)
    ensures CanSet(h, p, id, rules, now) <==>
            Text.Trim(id) != "" && ValidRules(h, rules) && DistinctIds(rules)
  {
  }

  /** Activation succeeds exactly for the versions still kept. */
  lemma CanActivateIff(h: Host, p: Policy, hist: History, id: string, version: int)
    requires Agrees(h, p, hist, id)
    ensures var n := |Log(hist, id)|;
            CanActivate(p.catalogue, id, version) <==> n - (if n < KEEP then n else KEEP) < version <= n
  {
    var items := Items(p.catalogue, id);
    var first := |Log(hist, id)| - |items|;
    if first < version <= |Log(hist, id)| {
      assert items[version - first - 1].version == version;
    }
  }

  lemma ActivateAgrees(h: Host, p: Policy, hist: History, id: string, version: int)
    requires Agrees(h, p, hist, id)
    ensures Agrees(h, ActivateVersion(p, id, version), hist, id)
  {
    hide ValidRules, WindowOf, OneActive, Flagged, FirstActive;
    var items, log := Items(p.catalogue, id), Log(hist, id);
    var flagged := Flagged(items, version);
    assert Items(Activated(p.catalogue, id, version), id) == flagged by { FlaggedEmpty(version); }
    FlaggedWindow(items, log, version);
    if CanActivate(p.catalogue, id, version) {
      FlaggedFound(items, log, version);
    } else {
      FlaggedNone(items, version, Live(p, id));
    }
  }

  lemma FlaggedEmpty(version: int)
    ensures Flagged([], version) == []
  {
  }

  lemma FlaggedWindow(items: seq<RuleSet>, log: seq<seq<Rule>>, version: int)
    requires WindowOf(items, log)
    ensures WindowOf(Flagged(items, version), log)
  {
  }

  lemma FlaggedFound(items: seq<RuleSet>, log: seq<seq<Rule>>, version: int)
    requires WindowOf(items, log) && exists e :: e in items && e.version == version
    ensures var f := FirstActive(Flagged(items, version));
            f.Some? && f.value.rules in log && OneActive(Flagged(items, version), f.value.rules)
  {
    var flagged := Flagged(items, version);
    var e :| e in items && e.version == version;
    var i :| 0 <= i < |items| && items[i] == e;
    forall j | 0 <= j < |flagged|
      ensures flagged[j].active <==> j == i
      ensures flagged[j].rules == log[|log| - |items| + j]
    {
      assert items[j].version == |log| - |items| + j + 1 && items[i].version == |log| - |items| + i + 1;
    }
    assert flagged[i] in flagged;
    forall x | x in flagged && x.active
      ensures x == flagged[i]
    {
      var j :| 0 <= j < |flagged| && flagged[j] == x;
    }
  }

  lemma FlaggedNone(items: seq<RuleSet>, version: int, live: seq<Rule>)
    requires forall e | e in items :: e.version != version
    ensures OneActive(Flagged(items, version), live)
  {
    forall i | 0 <= i < |items|
      ensures !Flagged(items, version)[i].active
    {
      assert items[i] in items;
    }
  }

  lemma OthersAgree(h: Host, p: Policy, hist: History, a: Action, id: string)
    requires Agrees(h, p, hist, id) && id != a.contract
    ensures Agrees(h, Act(h, p, a), Record(h, p, hist, a), id)
  {
    hide ValidRules, WindowOf, OneActive, CanPut, CanActivate, PutItems, Flagged;
    assert Items(Act(h, p, a).catalogue, id) == Items(p.catalogue, id);
    assert Latest(Act(h, p, a).catalogue, id) == Latest(p.catalogue, id);
    assert Live(Act(h, p, a), id) == Live(p, id);
    assert Log(Record(h, p, hist, a), id) == Log(hist, id);
  }

  lemma ActRefines(h: Host, p: Policy, hist: History, a: Action)
    requires Refines(h, p, hist)
    ensures Refines(h, Act(h, p, a), Record(h, p, hist, a))
  {
    hide Agrees, CanSet, SetRules, ActivateVersion;
    forall id
      ensures Agrees(h, Act(h, p, a), Record(h, p, hist, a), id)
    {
      assert Agrees(h, p, hist, id);
      if id != a.contract {
        OthersAgree(h, p, hist, a, id);
      } else if a.Activate? {
        ActivateAgrees(h, p, hist, id, a.version);
      } else if CanSet(h, p, id, a.rules, a.now) {
        SetAgrees(h, p, hist, id, a.rules, a.now);
      } else {
        SetRefused(h, p, id, a.rules, a.now);
      }
    }
  }

  lemma SetRefused(h: Host, p: Policy, id: string, rules: seq<Rule>, now: int)
    requires !CanSet(h, p, id, rules, now)
    ensures SetRules(h, p, id, rules, now) == p
  {
  }

  /** Live rules never make an execution panic. */
  lemma LiveNeverPanics(h: Host, p: Policy, hist: History, id: string, r: Rule, payload: Payload)
    requires Agrees(h, p, hist, id) && r in Live(p, id)
    ensures Execute(h, r, payload) != Panic
  {
  }

  /** Whenever the catalogue has an active set, its rules are the live ones. */
  lemma ActiveIsLive(h: Host, p: Policy, hist: History, id: string)
    requires Agrees(h, p, hist, id) && FirstActive(Items(p.catalogue, id)).Some?
    ensures FirstActive(Items(p.catalogue, id)).value.rules == Live(p, id)
  {
  }

  /** The outcome of a run of accepted and refused calls, with its history. */
  function Outcome(h: Host, p: Policy, hist: History, actions: seq<Action>): (Policy, History)
    decreases |actions|
  {
    if actions == [] then (p, hist)
    else Outcome(h, Act(h, p, actions[0]), Record(h, p, hist, actions[0]), actions[1..])
  }

  /** Over every run of rule changes and activations, failed ones included, the catalogue holds exactly
      the last ten accepted rule lists in ascending order, with at most one active and that one live. */
  lemma {:induction false} CatalogueRefinesHistory(h: Host, p: Policy, hist: History, actions: seq<Action>)
    requires Refines(h, p, hist)
    ensures Refines(h, Outcome(h, p, hist, actions).0, Outcome(h, p, hist, actions).1)
    decreases |actions|
  {
    if actions != [] {
      hide Refines;
      ActRefines(h, p, hist, actions[0]);
      CatalogueRefinesHistory(h, Act(h, p, actions[0]), Record(h, p, hist, actions[0]), actions[1..]);
    }
  }

  lemma EmptyRefines(h: Host)
    ensures Refines(h, EMPTY, map[])
  {
  }

  // ---------------------------------------------------------------- the version that is live

  /** The version is one of the last ten of `n`. */
  predicate Kept(n: nat, version: int) {
    0 < version <= n && version > n - 10
  }

  /** The version that the calls so far have made live: the number of the list last set, or the kept version last
      activated; activations that fail name none. */
  function Names(h: Host, p: Policy, hist: History, a: Action, id: string, named: nat): nat {
    match a
    case Set(c, rules, now) => if c == id && CanSet(h, p, c, rules, now) then |Log(hist, id)| + 1 else named
    case Activate(c, version) => if c == id && Kept(|Log(hist, id)|, version) then version else named
  }

  /** The live rules are the list of that number, and no other set is flagged. */
  ghost predicate LiveNamed(p: Policy, hist: History, id: string, named: nat) {
    && named <= |Log(hist, id)|
    && Live(p, id) == (if named == 0 then [] else Log(hist, id)[named - 1])
    && forall e | e in Items(p.catalogue, id) && e.active :: e.version == named
  }

  lemma FlagsMean(items: seq<RuleSet>, version: int, e: RuleSet)
    requires e in Flagged(items, version)
    ensures e.active <==> e.version == version
    ensures exists x :: x in items && x.version == e.version
  {
    var i :| 0 <= i < |items| && Flagged(items, version)[i] == e;
    assert items[i] in items;
  }

  /** Activating a kept version makes exactly that version the active one and its list the live one; activating any
      other version fails, leaves the live rules and no set active. */
  lemma {:induction false} ActivatesNamed(h: Host, p: Policy, hist: History, id: string, version: int)
    requires Agrees(h, p, hist, id)
    ensures var q := ActivateVersion(p, id, version);
            forall e | e in Items(q.catalogue, id) :: e.active <==> e.version == version
    ensures var q := ActivateVersion(p, id, version);
            if Kept(|Log(hist, id)|, version) then
              && CanActivate(p.catalogue, id, version) && Live(q, id) == Log(hist, id)[version - 1]
              && exists e :: e in Items(q.catalogue, id) && e.active && e.version == version && e.rules == Live(q, id)
            else
              && !CanActivate(p.catalogue, id, version) && Live(q, id) == Live(p, id)
              && forall e | e in Items(q.catalogue, id) :: !e.active
  {
    hide Agrees, ValidRules, OneActive, Flagged, FirstActive, WindowOf;
    var items, log := Items(p.catalogue, id), Log(hist, id);
    CanActivateIff(h, p, hist, id, version);
    assert Items(Activated(p.catalogue, id, version), id) == Flagged(items, version) by { FlaggedEmpty(version); }
    AgreesWindow(h, p, hist, id);
    FlagsLive(items, log, version);
    hide CanActivate, Activated, Items, Live;
  }

  lemma AgreesWindow(h: Host, p: Policy, hist: History, id: string)
    requires Agrees(h, p, hist, id)
    ensures WindowOf(Items(p.catalogue, id), Log(hist, id))
  {
  }

  /** The flags after an activation, and the set that is then found active. */
  lemma {:induction false} FlagsLive(items: seq<RuleSet>, log: seq<seq<Rule>>, version: int)
    requires WindowOf(items, log)
    ensures forall e | e in Flagged(items, version) :: e.active <==> e.version == version
    ensures (forall e | e in items :: e.version != version) ==> forall e | e in Flagged(items, version) :: !e.active
    ensures (exists e :: e in items && e.version == version) ==>
              var f := FirstActive(Flagged(items, version));
              f.Some? && f.value in Flagged(items, version) && f.value.active && f.value.version == version
              && 0 < version <= |log| && f.value.rules == log[version - 1]
  {
    hide Flagged, FirstActive, WindowOf, OneActive;
    var flagged := Flagged(items, version);
    FlaggedWindow(items, log, version);
    forall e | e in flagged
      ensures e.active <==> e.version == version
      ensures exists x :: x in items && x.version == e.version
    {
      FlagsMean(items, version, e);
    }
    if exists e :: e in items && e.version == version {
      FlaggedFound(items, log, version);
      WindowRules(flagged, log, FirstActive(flagged).value);
    }
  }

  lemma WindowRules(items: seq<RuleSet>, log: seq<seq<Rule>>, e: RuleSet)
    requires WindowOf(items, log) && e in items
    ensures 0 < e.version <= |log| && e.rules == log[e.version - 1]
  {
  }

  /** Setting rules makes the new list the live one and its version the only active one. */
  lemma {:induction false} SetsNamed(h: Host, p: Policy, hist: History, id: string, rules: seq<Rule>, now: int)
    requires Agrees(h, p, hist, id) && CanSet(h, p, id, rules, now)
    ensures var q := SetRules(h, p, id, rules, now);
            Live(q, id) == rules && forall e | e in Items(q.catalogue, id) :: e.active <==> e.version == |Log(hist, id)| + 1
  {
    hide ValidRules, DistinctIds, OneActive, WindowOf, PutItems;
    PutItemsWindow(Items(p.catalogue, id), NextSet(p, id, rules, now), Log(hist, id));
    PutFlags(Items(p.catalogue, id), NextSet(p, id, rules, now), Log(hist, id));
  }

  lemma PutFlags(items: seq<RuleSet>, s: RuleSet, log: seq<seq<Rule>>)
    requires WindowOf(items, log) && s.version == |log| + 1 && s.active
    ensures forall e | e in LastOf(Cleared(items) + [s], KEEP) :: e.active <==> e.version == s.version
  {
  }

  lemma {:induction false} NamesStep(h: Host, p: Policy, hist: History, a: Action, id: string, named: nat)
    requires Agrees(h, p, hist, id) && LiveNamed(p, hist, id, named)
    ensures LiveNamed(Act(h, p, a), Record(h, p, hist, a), id, Names(h, p, hist, a, id, named))
  {
    hide Agrees, CanSet, SetRules, ActivateVersion;
    if a.contract != id {
      OthersUnnamed(h, p, hist, a, id);
    } else if a.Activate? {
      ActivatesNamed(h, p, hist, id, a.version);
      NothingKept(h, p, hist, id);
    } else if CanSet(h, p, id, a.rules, a.now) {
      SetsNamed(h, p, hist, id, a.rules, a.now);
    } else {
      SetRefused(h, p, id, a.rules, a.now);
    }
  }

  lemma NothingKept(h: Host, p: Policy, hist: History, id: string)
    requires Agrees(h, p, hist, id)
    ensures Log(hist, id) == [] ==> Items(p.catalogue, id) == []
  {
    hide ValidRules, OneActive;
  }

  lemma OthersUnnamed(h: Host, p: Policy, hist: History, a: Action, id: string)
    requires id != a.contract
    ensures Items(Act(h, p, a).catalogue, id) == Items(p.catalogue, id) && Live(Act(h, p, a), id) == Live(p, id)
    ensures Log(Record(h, p, hist, a), id) == Log(hist, id)
  {
    hide ValidRules, CanPut, CanActivate, PutItems, Flagged;
  }
}
