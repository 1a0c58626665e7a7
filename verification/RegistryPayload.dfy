/** What the payload of an event must say, told apart from how the constructors check it. */
module RegistryPayload {
  import opened Basics
  import opened AccessChain
  import opened RegistryModel

  // --------------------------------------------------------------------- policies

  /** So many different names. */
  ghost predicate Names(values: Option<seq<Id>>, n: int) {
    values.Some? && |values.value| == n == |Elements(values.value)|
  }

  /** A policy names the access contracts and either leaves open what production leaves open, or fixes
      four axes of 4, 3, 4 and 2 names, three costs and the family size its cost role implies. */
  ghost predicate SoundPolicy(p: Policy) {
    && p.version >= 1 && p.accessSchema.artifact == ACCESS_SCHEMA && p.manifest.artifact == GOVERNANCE_CONTRACT
    && (p.mode == ProductionUnresolved ==>
          && p.axes.lookback.None? && p.axes.holding.None? && p.axes.rebalance.None? && p.costs.None?
          && p.role == RoleUnregistered && p.family.None? && (p.axes.filter.Some? ==> Names(p.axes.filter, 4)))
    && (p.mode == SyntheticTestOnly ==>
          && Names(p.axes.filter, 4) && Names(p.axes.holding, 3) && Names(p.axes.lookback, 4)
          && Names(p.axes.rebalance, 2) && Names(p.costs, 3)
          && ((p.role == ReportingOnly && p.family == Some(96)) ||
              (p.role == SelectionEligible && p.family == Some(288))))
  }

  lemma {:induction false} CountsAreDistinct<T>(s: seq<T>)
    ensures Distinct(s) <==> |Elements(s)| == |s|
  {
    if Distinct(s) {
      DistinctCount(s);
    }
    if |Elements(s)| == |s| {
      CountDistinct(s);
    }
  }

  lemma {:induction false} ElementsWithin<T>(s: seq<T>, all: set<T>)
    ensures Elements(s) <= all <==> forall k :: 0 <= k < |s| ==> s[k] in all
  {
    if Elements(s) <= all {
      assert forall k :: 0 <= k < |s| ==> s[k] in Elements(s);
    }
  }

  lemma {:induction false} SameElements<T>(s: seq<T>, t: seq<T>)
    ensures Elements(s) == Elements(t) <==>
      (forall k :: 0 <= k < |s| ==> s[k] in t) && (forall k :: 0 <= k < |t| ==> t[k] in s)
  {
    ElementsWithin(s, Elements(t));
    ElementsWithin(t, Elements(s));
    assert Elements(s) == Elements(t) <==> Elements(s) <= Elements(t) && Elements(t) <= Elements(s);
  }

  lemma {:induction false} AxisNames(values: Option<seq<Id>>, n: int)
    ensures AxisOk(values, n) && values.Some? <==> Names(values, n)
  {
    if values.Some? {
      CountsAreDistinct(values.value);
    }
  }

  /** Construction accepts exactly the sound policies. */
  lemma {:induction false} PolicyMeans(p: Policy)
    ensures ValidPolicy(p) <==> SoundPolicy(p)
  {
    assert forall n :: AxisOk(None, n);
    hide AxisOk, Names;
    AxisNames(p.axes.filter, 4);
    AxisNames(p.axes.holding, 3);
    AxisNames(p.axes.lookback, 4);
    AxisNames(p.axes.rebalance, 2);
    AxisNames(p.costs, 3);
  }

  // ---------------------------------------------------------------- registrations

  predicate Dated(key: WindowKey) {
    key.start <= key.end && key.end <= DateOf(key.analysisAsOf) && key.vintageAt <= key.analysisAsOf
  }

  function KeysOf(windows: seq<Window>): set<WindowKey> { set w | w in windows :: w.key }

  /** The windows lie within their analysis dates and vintages and differ both in id and in identity. */
  ghost predicate SoundWindows(windows: seq<Window>) {
    && windows != [] && (forall w :: w in windows ==> Dated(w.key))
    && |WindowIds(windows)| == |windows| == |KeysOf(windows)|
  }

  predicate Fills(a: seq<Artifact>, role: ArtifactRole) { exists x :: x in a && x.role == role }

  /** The artifacts fill every role and differ within a role both in id and in content. */
  ghost predicate SoundArtifacts(a: seq<Artifact>) {
    && (forall role :: Fills(a, role))
    && (forall j, k :: 0 <= j < |a| && 0 <= k < |a| && a[j].role == a[k].role && j != k ==>
          a[j].artifact != a[k].artifact && a[j].sha != a[k].sha)
  }

  /** A plan is over some windows of the registration, each once, under one of its costs. It selects
      where every cost does, or where its cost is the one that does. */
  ghost predicate SoundPlan(r: Registration, p: Plan) {
    && p.windows != [] && |Elements(p.windows)| == |p.windows|
    && (forall k :: 0 <= k < |p.windows| ==> Known(r.windows, p.windows[k]))
    && p.measure.cost in r.costs
    && (p.role == UnregisteredOutcome <==> r.role == RoleUnregistered)
    && (p.role == PrimarySelection <==>
          (r.role == SelectionEligible || (r.role == ReportingOnly && r.selectionCost == Some(p.measure.cost))))
  }

  ghost predicate Known(windows: seq<Window>, id: Id) { exists w :: w in windows && w.id == id }
  ghost predicate Priced(plans: seq<Plan>, cost: Id) { exists p :: p in plans && p.measure.cost == cost }

  /** All plans are over the same windows. */
  ghost predicate Shared(plans: seq<Plan>) {
    forall p, q, k :: p in plans && q in plans && 0 <= k < |p.windows| ==> p.windows[k] in q.windows
  }

  /** One plan for each cost, told apart by id and artifact, and all over the same windows. */
  ghost predicate SoundPlans(r: Registration) {
    && (forall p :: p in r.plans ==> SoundPlan(r, p))
    && Shared(r.plans)
    && (forall k :: 0 <= k < |r.costs| ==> Priced(r.plans, r.costs[k]))
    && (forall j, k :: 0 <= j < k < |r.plans| ==>
          && r.plans[j].id != r.plans[k].id && r.plans[j].artifact != r.plans[k].artifact
          && r.plans[j].measure.cost != r.plans[k].measure.cost)
  }

  ghost predicate SoundRegistration(r: Registration) {
    && r.policyVersion >= 1 && SoundWindows(r.windows) && SoundArtifacts(r.artifacts)
    && r.costs != [] && |Elements(r.costs)| == |r.costs|
    && (r.selectionCost.Some? ==> r.selectionCost.value in r.costs)
    && SoundPlans(r)
  }

  lemma {:induction false} IdsDiffer(windows: seq<Window>)
    ensures |WindowIds(windows)| == |windows| <==>
      forall i, j :: 0 <= i < j < |windows| ==> windows[i].id != windows[j].id
  {
    var ids := seq(|windows|, k requires 0 <= k < |windows| => windows[k].id);
    CountsAreDistinct(ids);
    forall w | w in windows
      ensures w.id in ids
    {
      var k :| 0 <= k < |windows| && windows[k] == w;
      assert ids[k] == w.id;
    }
    assert Elements(ids) == WindowIds(windows);
    assert forall k :: 0 <= k < |windows| ==> ids[k] == windows[k].id;
    hide Elements, WindowIds;
    if Distinct(ids) {
      forall i, j | 0 <= i < j < |windows|
        ensures windows[i].id != windows[j].id
      {
        assert ids[i] != ids[j];
      }
    }
  }

  lemma {:induction false} KeysDiffer(windows: seq<Window>)
    ensures |KeysOf(windows)| == |windows| <==>
      forall i, j :: 0 <= i < j < |windows| ==> windows[i].key != windows[j].key
  {
    var keys := seq(|windows|, k requires 0 <= k < |windows| => windows[k].key);
    CountsAreDistinct(keys);
    forall w | w in windows
      ensures w.key in keys
    {
      var k :| 0 <= k < |windows| && windows[k] == w;
      assert keys[k] == w.key;
    }
    assert Elements(keys) == KeysOf(windows);
    assert forall k :: 0 <= k < |windows| ==> keys[k] == windows[k].key;
    hide Elements, KeysOf;
    if Distinct(keys) {
      forall i, j | 0 <= i < j < |windows|
        ensures windows[i].key != windows[j].key
      {
        assert keys[i] != keys[j];
      }
    }
  }

  lemma {:induction false} WindowsMean(windows: seq<Window>)
    ensures ValidWindows(windows) <==> SoundWindows(windows)
  {
    hide WindowIds, KeysOf;
    IdsDiffer(windows);
    KeysDiffer(windows);
  }

  lemma {:induction false} RoleListed(role: ArtifactRole)
    ensures role in {AgentOverlay, Benchmark, Code, Config, Cost, Data, Filter, HoldingPeriod, Lookback, Rebalance,
                     Schema, Signal, Tax, Universe}
  {}

  lemma {:induction false} AllRoles(roles: set<ArtifactRole>)
    ensures roles == {AgentOverlay, Benchmark, Code, Config, Cost, Data, Filter, HoldingPeriod, Lookback, Rebalance,
                      Schema, Signal, Tax, Universe}
            <==> forall role :: role in roles
  {
    var all := {AgentOverlay, Benchmark, Code, Config, Cost, Data, Filter, HoldingPeriod, Lookback, Rebalance, Schema,
                Signal, Tax, Universe};
    forall role: ArtifactRole
      ensures role in all
    {
      RoleListed(role);
    }
    if forall role :: role in roles {
      assert forall role :: role in all ==> role in roles;
      assert roles == all;
    }
  }

  lemma {:induction false} ArtifactsMean(a: seq<Artifact>)
    ensures ValidArtifacts(a) <==> SoundArtifacts(a)
  {
    var roles := set x | x in a :: x.role;
    AllRoles(roles);
    assert forall role :: role in roles <==> Fills(a, role);
    hide Fills;
  }

  lemma {:induction false} PlanCosts(plans: seq<Plan>) returns (costs: seq<Id>)
    ensures |costs| == |plans| && forall i :: 0 <= i < |plans| ==> costs[i] == plans[i].measure.cost
    ensures Elements(costs) == set p | p in plans :: p.measure.cost
    ensures Distinct(costs) <==> |Elements(costs)| == |costs|
  {
    costs := seq(|plans|, i requires 0 <= i < |plans| => plans[i].measure.cost);
    CountsAreDistinct(costs);
    forall p | p in plans
      ensures p.measure.cost in costs
    {
      var i :| 0 <= i < |plans| && plans[i] == p;
      assert costs[i] == p.measure.cost;
    }
  }

  lemma {:induction false} RoleMeans(r: Registration, p: Plan)
    ensures p.role == ExpectedRole(r.role, r.selectionCost, p.measure.cost) <==>
      && (p.role == UnregisteredOutcome <==> r.role == RoleUnregistered)
      && (p.role == PrimarySelection <==>
            (r.role == SelectionEligible || (r.role == ReportingOnly && r.selectionCost == Some(p.measure.cost))))
  {}

  lemma {:induction false} PlanMeans(r: Registration, p: Plan)
    ensures SoundPlan(r, p) <==>
      && p.windows != [] && Distinct(p.windows) && Elements(p.windows) <= WindowIds(r.windows)
      && p.measure.cost in r.costs && p.role == ExpectedRole(r.role, r.selectionCost, p.measure.cost)
  {
    CountsAreDistinct(p.windows);
    hide Distinct;
    assert forall x :: x in WindowIds(r.windows) <==> Known(r.windows, x);
    hide WindowIds, Known;
    RoleMeans(r, p);
    hide ExpectedRole;
    ElementsWithin(p.windows, WindowIds(r.windows));
  }

  /** With different costs, as many plans as costs and the same set of them is one plan for each. */
  lemma {:induction false} CostsMean(plans: seq<Plan>, costs: seq<Id>)
    requires |Elements(costs)| == |costs| && forall p :: p in plans ==> p.measure.cost in costs
    ensures |plans| == |costs| && (set p | p in plans :: p.measure.cost) == Elements(costs) <==>
      && (forall k :: 0 <= k < |costs| ==> Priced(plans, costs[k]))
      && (forall j, k :: 0 <= j < k < |plans| ==> plans[j].measure.cost != plans[k].measure.cost)
  {
    var of := PlanCosts(plans);
    assert forall c :: c in of <==> Priced(plans, c);
    assert forall c :: Priced(plans, c) ==> c in costs;
    hide Priced;
    SameElements(of, costs);
  }

  lemma {:induction false} SharedMeans(plans: seq<Plan>)
    requires plans != []
    ensures Shared(plans) <==> forall p :: p in plans ==> Elements(p.windows) == Elements(plans[0].windows)
  {
    if Shared(plans) {
      forall p | p in plans
        ensures Elements(p.windows) == Elements(plans[0].windows)
      {
        SameElements(p.windows, plans[0].windows);
      }
    }
    if forall p :: p in plans ==> Elements(p.windows) == Elements(plans[0].windows) {
      forall p, q | p in plans && q in plans
        ensures forall k :: 0 <= k < |p.windows| ==> p.windows[k] in q.windows
      {
        SameElements(p.windows, q.windows);
      }
    }
  }

  lemma {:induction false} PlansMean(r: Registration)
    requires r.costs != [] && |Elements(r.costs)| == |r.costs|
    ensures ValidPlans(r) <==> SoundPlans(r)
  {
    forall p | p in r.plans { PlanMeans(r, p); }
    hide SoundPlan, Distinct, WindowIds, ExpectedRole, Shared, Elements;
    if (forall p :: p in r.plans ==> p.measure.cost in r.costs) && r.plans != [] {
      CostsMean(r.plans, r.costs);
      SharedMeans(r.plans);
    }
    if SoundPlans(r) {
      assert Priced(r.plans, r.costs[0]);
    }
    hide Priced;
  }

  /** Construction accepts exactly the sound registrations. */
  lemma {:induction false} RegistrationMeans(r: Registration)
    ensures ValidRegistration(r) <==> SoundRegistration(r)
  {
    CountsAreDistinct(r.costs);
    WindowsMean(r.windows);
    ArtifactsMean(r.artifacts);
    hide Distinct, ValidWindows, SoundWindows, ValidArtifacts, SoundArtifacts, ValidPlans, SoundPlans;
    if r.costs != [] && |Elements(r.costs)| == |r.costs| {
      PlansMean(r);
    }
  }

  // ----------------------------------------------------------------- other payloads

  /** The payload by itself: a sound policy or registration, a valid access chain bound to its own head
      and trial, an outcome that cites something, an end that gives a reason unless it completes. */
  ghost predicate SoundPayload(h: Hashes, k: Kind) {
    && (k.PolicyRegistered? ==> SoundPolicy(k.policy))
    && (k.TrialRegistered? ==> SoundRegistration(k.registration))
    && (k.SampleAccessBound? ==>
          var c := k.access.chain;
          && ValidChain(h.access, c) && c != [] && k.access.contract.artifact == GOVERNANCE_CONTRACT
          && HeadOf(c) == k.access.head && c[|c| - 1].body.request.trial == k.trial)
    && (k.OutcomeRecorded? ==> |k.outcome.cited| > 0)
    && (k.TrialEnded? && k.terminal == Completed ==> k.reason.None?)
    && (k.TrialEnded? && k.terminal != Completed ==> k.reason.Some?)
  }

  /** An event is well formed: numbered from one, with a sound payload and the digest of its body. */
  ghost predicate WellFormed(h: Hashes, e: Event) {
    e.body.sequence >= 1 && SoundPayload(h, e.body.kind) && e.hash == h.event(e.body)
  }

  /** Construction accepts exactly the well-formed events. */
  lemma {:induction false} EventMeans(h: Hashes, e: Event)
    ensures ValidEvent(h, e) <==> WellFormed(h, e)
  {
    hide ValidKind, SoundPayload;
    PayloadMeans(h, e.body.kind);
  }

  lemma {:induction false} PayloadMeans(h: Hashes, k: Kind)
    ensures ValidKind(h, k) <==> SoundPayload(h, k)
  {
    hide ValidPolicy, SoundPolicy, ValidRegistration, SoundRegistration, ValidChain;
    match k {
      case PolicyRegistered(p) => PolicyMeans(p);
      case TrialRegistered(_, r) => RegistrationMeans(r);
      case _ =>
    }
  }
}
