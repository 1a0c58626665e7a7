/** Multiplicity accounting: the grid trials of a policy against its 4x3x2x4 family. */
module RegistryGrid {
  import opened Basics
  import opened RegistryModel
  import opened Registry
  import opened RegistryInvariant

  /** The trials of a policy and class, by position. */
  function Members(ts: seq<Trial>, policy: Id, c: ConfigurationClass): set<int> {
    set i | 0 <= i < |ts| && ts[i].registration.policy == policy && ts[i].registration.gridClass == c
  }

  function ActualStructural(ts: seq<Trial>, policy: Id): set<Coordinate> {
    set i | i in Members(ts, policy, RegisteredGrid) :: CoordinateOf(ts[i].registration)
  }

  function ActualReports(ts: seq<Trial>, policy: Id): set<(Coordinate, Id)> {
    set i, c | i in Members(ts, policy, RegisteredGrid) && c in ts[i].registration.costs
      :: (CoordinateOf(ts[i].registration), c)
  }

  function ExpectedStructural(p: Policy): set<Coordinate>
    requires ValidPolicy(p) && p.mode == SyntheticTestOnly
  {
    set l, k, r, f | l in p.axes.lookback.value && k in p.axes.holding.value
                     && r in p.axes.rebalance.value && f in p.axes.filter.value :: Coordinate(l, k, r, f)
  }

  function ExpectedReports(p: Policy): set<(Coordinate, Id)>
    requires ValidPolicy(p) && p.mode == SyntheticTestOnly
  {
    set x, c | x in ExpectedStructural(p) && c in p.costs.value :: (x, c)
  }

  datatype Unit = Unit(structural: Id, cost: Id, metric: Id, benchmark: Id)

  function SelectionUnits(ts: seq<Trial>, policy: Id): set<Unit> {
    set i, p | i in Members(ts, policy, RegisteredGrid) && p in ts[i].registration.plans && p.role == PrimarySelection
      :: Unit(ts[i].registration.structural, p.measure.cost, p.measure.metric, p.measure.benchmark)
  }

  datatype Reconciliation = BlockedProduction | BlockedOffGrid | CompleteTestOnly | IncompleteTestOnly

  /** `reconcile_cartesian_grid`, its status field. */
  function Reconcile(ts: seq<Trial>, p: Policy): Reconciliation
    requires ValidPolicy(p)
  {
    if p.mode == ProductionUnresolved then BlockedProduction
    else if Members(ts, p.id, OffGridManual) != {} then BlockedOffGrid
    else if && ExpectedStructural(p) - ActualStructural(ts, p.id) == {}
            && ExpectedReports(p) - ActualReports(ts, p.id) == {}
            && ActualStructural(ts, p.id) - ExpectedStructural(p) == {}
            && ActualReports(ts, p.id) - ExpectedReports(p) == {} then CompleteTestOnly
    else IncompleteTestOnly
  }

  // ------------------------------------------------------------------- counts

  lemma {:induction false} FamilyCount(p: Policy)
    requires ValidPolicy(p) && p.mode == SyntheticTestOnly
    ensures |ExpectedStructural(p)| == STRUCTURAL_FAMILY == 96
  {
    var l, k, r, f := Elements(p.axes.lookback.value), Elements(p.axes.holding.value),
                      Elements(p.axes.rebalance.value), Elements(p.axes.filter.value);
    DistinctCount(p.axes.lookback.value);
    DistinctCount(p.axes.holding.value);
    DistinctCount(p.axes.rebalance.value);
    DistinctCount(p.axes.filter.value);
    PairsCount(l, k);
    PairsCount(r, f);
    var cells := Pairs(Pairs(l, k), Pairs(r, f));
    PairsCount(Pairs(l, k), Pairs(r, f));
    var cell := (x: ((Id, Id), (Id, Id))) => Coordinate(x.0.0, x.0.1, x.1.0, x.1.1);
    ImageCount(cells, cell);
    assert ExpectedStructural(p) == Image(cells, cell) by {
      forall x | x in ExpectedStructural(p)
        ensures x in Image(cells, cell)
      {
        assert cell(((x.lookback, x.holding), (x.rebalance, x.filter))) == x;
        assert (x.lookback, x.holding) in Pairs(l, k) && (x.rebalance, x.filter) in Pairs(r, f);
        assert ((x.lookback, x.holding), (x.rebalance, x.filter)) in cells;
      }
    }
  }

  /** A valid registration has exactly one plan per cost scenario. */
  lemma {:induction false} OnePlanPerCost(r: Registration)
    requires ValidRegistration(r)
    ensures forall c :: c in r.costs ==> exists p :: p in r.plans && p.measure.cost == c
    ensures forall p, q :: p in r.plans && q in r.plans && p.measure.cost == q.measure.cost ==> p == q
  {
    hide ValidWindows, ValidArtifacts;
    var costs := seq(|r.plans|, i requires 0 <= i < |r.plans| => r.plans[i].measure.cost);
    assert Elements(costs) == (set p | p in r.plans :: p.measure.cost) by {
      forall p | p in r.plans
        ensures p.measure.cost in costs
      {
        var i :| 0 <= i < |r.plans| && r.plans[i] == p;
        assert costs[i] == p.measure.cost;
      }
    }
    DistinctCount(r.costs);
    CountDistinct(costs);
    forall p, q | p in r.plans && q in r.plans && p.measure.cost == q.measure.cost
      ensures p == q
    {
      var i :| 0 <= i < |r.plans| && r.plans[i] == p;
      var j :| 0 <= j < |r.plans| && r.plans[j] == q;
      assert costs[i] == costs[j];
    }
    assert forall c :: c in r.costs ==> c in Elements(r.costs);
  }

  /** The costs of a trial that count as selection opportunities. */
  function PrimaryCosts(r: Registration): set<Id> {
    match r.role
    case SelectionEligible => Elements(r.costs)
    case ReportingOnly => if r.selectionCost.Some? then {r.selectionCost.value} else {}
    case RoleUnregistered => {}
  }

  lemma {:induction false} PrimaryPlans(r: Registration)
    requires ValidRegistration(r)
    ensures forall p, q :: p in r.plans && q in r.plans && p.measure.cost == q.measure.cost ==> p == q
    ensures forall p :: p in r.plans && p.role == PrimarySelection ==> p.measure.cost in PrimaryCosts(r)
    ensures forall c :: c in PrimaryCosts(r) ==>
      exists p :: p in r.plans && p.role == PrimarySelection && p.measure.cost == c
  {
    OnePlanPerCost(r);
    hide ValidWindows, ValidArtifacts;
  }

  /** What registration guarantees of a policy's grid trials. */
  ghost predicate GridTrialsOk(ts: seq<Trial>, p: Policy)
    requires ValidPolicy(p) && p.mode == SyntheticTestOnly
  {
    && (forall i :: i in Members(ts, p.id, RegisteredGrid) ==>
          && ValidRegistration(ts[i].registration)
          && ts[i].registration.role == p.role
          && ts[i].registration.costs == p.costs.value
          && (p.role == ReportingOnly <==> ts[i].registration.selectionCost.Some?)
          && OnGrid(p, CoordinateOf(ts[i].registration)))
    && (forall i, j :: i in Members(ts, p.id, RegisteredGrid) && j in Members(ts, p.id, RegisteredGrid) && i != j ==>
          && ts[i].registration.structural != ts[j].registration.structural
          && CoordinateOf(ts[i].registration) != CoordinateOf(ts[j].registration))
  }

  lemma {:induction false} InvGrid(h: Hashes, st: State, k: nat)
    requires Inv(h, st) && k < |st.policies| && st.policies[k].policy.mode == SyntheticTestOnly
    ensures ValidPolicy(st.policies[k].policy) && GridTrialsOk(st.trials, st.policies[k].policy)
  {
    hide LogInv, AccessInv, LifeOk, FindPolicy, ValidRegistration, ValidPolicy, OnGrid, ConfigurationOf, ParentOk;
    var p, ts := st.policies[k].policy, st.trials;
    assert FindPolicy(st.policies, p.id) == k;
    forall i | i in Members(ts, p.id, RegisteredGrid)
      ensures TrialOk(h, st.policies, ts[i]) && Generation(st.policies, ts[i]) == k
    {}
    forall i, j | i in Members(ts, p.id, RegisteredGrid) && j in Members(ts, p.id, RegisteredGrid) && i < j
      ensures ts[i].registration.structural != ts[j].registration.structural
      ensures CoordinateOf(ts[i].registration) != CoordinateOf(ts[j].registration)
    {
      hide TrialOk;
      assert StructuralKey(ts[i]) == ts[i].registration.structural
        && StructuralKey(ts[j]) == ts[j].registration.structural;
    }
  }

  /** The structural id and cost of every selection unit. */
  function UnitKeys(ts: seq<Trial>, policy: Id): set<(Id, Id)> {
    set i, c | i in Members(ts, policy, RegisteredGrid) && c in PrimaryCosts(ts[i].registration)
      :: (ts[i].registration.structural, c)
  }

  lemma {:induction false} UnitsAreKeys(ts: seq<Trial>, p: Policy)
    requires ValidPolicy(p) && p.mode == SyntheticTestOnly && GridTrialsOk(ts, p)
    ensures |SelectionUnits(ts, p.id)| == |UnitKeys(ts, p.id)|
  {
    hide ValidRegistration, OnGrid, PrimaryCosts, ValidPolicy;
    var g := Members(ts, p.id, RegisteredGrid);
    var key := (u: Unit) => (u.structural, u.cost);
    var units := SelectionUnits(ts, p.id);
    forall u, v {:trigger key(u), key(v)} | u in units && v in units && key(u) == key(v)
      ensures u == v
    {
      var i, a :| i in g && a in ts[i].registration.plans && a.role == PrimarySelection
        && u == Unit(ts[i].registration.structural, a.measure.cost, a.measure.metric, a.measure.benchmark);
      var j, b :| j in g && b in ts[j].registration.plans && b.role == PrimarySelection
        && v == Unit(ts[j].registration.structural, b.measure.cost, b.measure.metric, b.measure.benchmark);
      PrimaryPlans(ts[i].registration);
    }
    ImageCount(units, key);
    forall i | i in g { PrimaryPlans(ts[i].registration); }
    forall x | x in UnitKeys(ts, p.id)
      ensures x in Image(units, key)
    {
      var i, c :| i in g && c in PrimaryCosts(ts[i].registration) && x == (ts[i].registration.structural, c);
      var a :| a in ts[i].registration.plans && a.role == PrimarySelection && a.measure.cost == c;
      var u := Unit(ts[i].registration.structural, a.measure.cost, a.measure.metric, a.measure.benchmark);
      assert u in units && key(u) == x;
    }
    assert Image(units, key) == UnitKeys(ts, p.id);
  }

  /** One unit per grid trial, or one per grid trial and cost. */
  lemma {:induction false} KeysCount(ts: seq<Trial>, p: Policy)
    requires ValidPolicy(p) && p.mode == SyntheticTestOnly && GridTrialsOk(ts, p)
    ensures |UnitKeys(ts, p.id)| ==
      |Members(ts, p.id, RegisteredGrid)| * (if p.role == SelectionEligible then COSTS else 1)
  {
    hide ValidRegistration, OnGrid;
    var g := Members(ts, p.id, RegisteredGrid);
    if p.role == SelectionEligible {
      var name := (i: int) => if 0 <= i < |ts| then ts[i].registration.structural else 0;
      ImageCount(g, name);
      assert UnitKeys(ts, p.id) == Pairs(Image(g, name), Elements(p.costs.value)) by {
        forall x | x in Pairs(Image(g, name), Elements(p.costs.value))
          ensures x in UnitKeys(ts, p.id)
        {
          var i :| i in g && name(i) == x.0;
          var c := x.1;
          assert c in PrimaryCosts(ts[i].registration);
          assert (ts[i].registration.structural, c) in UnitKeys(ts, p.id);
        }
      }
      PairsCount(Image(g, name), Elements(p.costs.value));
      DistinctCount(p.costs.value);
    } else {
      var name := (i: int) =>
        if 0 <= i < |ts| && ts[i].registration.selectionCost.Some?
        then (ts[i].registration.structural, ts[i].registration.selectionCost.value) else (0, 0);
      ImageCount(g, name);
      assert UnitKeys(ts, p.id) == Image(g, name) by {
        forall i | i in g
          ensures name(i) in UnitKeys(ts, p.id)
        {
          var c := ts[i].registration.selectionCost.value;
          assert c in PrimaryCosts(ts[i].registration) && name(i) == (ts[i].registration.structural, c);
        }
      }
    }
  }

  lemma {:induction false} StructuralOnGrid(ts: seq<Trial>, p: Policy)
    requires ValidPolicy(p) && p.mode == SyntheticTestOnly && GridTrialsOk(ts, p)
    ensures ActualStructural(ts, p.id) <= ExpectedStructural(p)
    ensures |ActualStructural(ts, p.id)| == |Members(ts, p.id, RegisteredGrid)|
    ensures ActualReports(ts, p.id) == set x, c | x in ActualStructural(ts, p.id) && c in p.costs.value :: (x, c)
  {
    hide ValidRegistration;
    var g := Members(ts, p.id, RegisteredGrid);
    forall i | i in g
      ensures CoordinateOf(ts[i].registration) in ExpectedStructural(p)
    {}
    var cell := (i: int) => if 0 <= i < |ts| then CoordinateOf(ts[i].registration) else Coordinate(0, 0, 0, 0);
    ImageCount(g, cell);
    assert ActualStructural(ts, p.id) == Image(g, cell);
  }

  /** In every accepted log the grid trials of a policy sit one-to-one in its grid, nothing is
      unexpected, what is missing is counted exactly, the status is blocked by any off-grid trial
      and otherwise complete exactly when all 96 cells are taken, and then the selection units number
      the registered family size. */
  lemma {:induction false} GridReconciles(h: Hashes, log: seq<Event>, st: State, k: nat)
    requires Replay(h, log) == Loaded(st) && k < |st.policies|
    requires st.policies[k].policy.mode == SyntheticTestOnly
    ensures ValidPolicy(st.policies[k].policy)
    ensures var p := st.policies[k].policy; var g := Members(st.trials, p.id, RegisteredGrid);
      && ActualStructural(st.trials, p.id) <= ExpectedStructural(p)
      && ActualReports(st.trials, p.id) <= ExpectedReports(p)
      && |ActualStructural(st.trials, p.id)| == |g| <= 96
      && |ExpectedStructural(p) - ActualStructural(st.trials, p.id)| == 96 - |g|
      && |ExpectedReports(p)| == 288 && |ActualReports(st.trials, p.id)| == 3 * |g|
      && Reconcile(st.trials, p) == (if Members(st.trials, p.id, OffGridManual) != {} then BlockedOffGrid
                                     else if |g| == 96 then CompleteTestOnly else IncompleteTestOnly)
      && |SelectionUnits(st.trials, p.id)| == |g| * (if p.role == SelectionEligible then 3 else 1)
      && (Reconcile(st.trials, p) == CompleteTestOnly ==> p.family == Some(|SelectionUnits(st.trials, p.id)|))
  {
    ReplayInv(h, log);
    InvGrid(h, st, k);
    hide *;
    PolicyReconciles(st.trials, st.policies[k].policy);
  }

  lemma {:induction false} PolicyReconciles(ts: seq<Trial>, p: Policy)
    requires ValidPolicy(p) && p.mode == SyntheticTestOnly && GridTrialsOk(ts, p)
    ensures var g := Members(ts, p.id, RegisteredGrid);
      && ActualStructural(ts, p.id) <= ExpectedStructural(p)
      && ActualReports(ts, p.id) <= ExpectedReports(p)
      && |ActualStructural(ts, p.id)| == |g| <= 96
      && |ExpectedStructural(p) - ActualStructural(ts, p.id)| == 96 - |g|
      && |ExpectedReports(p)| == 288 && |ActualReports(ts, p.id)| == 3 * |g|
      && Reconcile(ts, p) == (if Members(ts, p.id, OffGridManual) != {} then BlockedOffGrid
                              else if |g| == 96 then CompleteTestOnly else IncompleteTestOnly)
      && |SelectionUnits(ts, p.id)| == |g| * (if p.role == SelectionEligible then 3 else 1)
      && (Reconcile(ts, p) == CompleteTestOnly ==> p.family == Some(|SelectionUnits(ts, p.id)|))
  {
    hide GridTrialsOk, ActualReports, SelectionUnits, ActualStructural, ExpectedStructural, Members, Reconcile,
      ExpectedReports;
    UnitsAreKeys(ts, p);
    KeysCount(ts, p);
    FamilyCount(p);
    StructuralOnGrid(ts, p);
    SubsetCount(ActualStructural(ts, p.id), ExpectedStructural(p));
    CompleteWhenEqual(ts, p);
    ReportCounts(ts, p);
  }

  lemma {:induction false} ReportCounts(ts: seq<Trial>, p: Policy)
    requires ValidPolicy(p) && p.mode == SyntheticTestOnly
    requires ActualReports(ts, p.id) == set x, c | x in ActualStructural(ts, p.id) && c in p.costs.value :: (x, c)
    ensures |ExpectedReports(p)| == |ExpectedStructural(p)| * 3
    ensures |ActualReports(ts, p.id)| == |ActualStructural(ts, p.id)| * 3
  {
    hide ExpectedStructural, ActualStructural, ActualReports;
    DistinctCount(p.costs.value);
    CostPairs(ExpectedStructural(p), p.costs.value, ExpectedReports(p));
    CostPairs(ActualStructural(ts, p.id), p.costs.value, ActualReports(ts, p.id));
  }

  lemma {:induction false} CostPairs(cells: set<Coordinate>, costs: seq<Id>, reports: set<(Coordinate, Id)>)
    requires reports == set x, c | x in cells && c in costs :: (x, c)
    ensures |reports| == |cells| * |Elements(costs)|
  {
    var pairs := Pairs(cells, Elements(costs));
    PairsCount(cells, Elements(costs));
    var same := (y: (Coordinate, Id)) => y;
    ImageCount(pairs, same);
    forall y | y in reports
      ensures y in Image(pairs, same)
    {
      var x, c :| x in cells && c in costs && y == (x, c);
      assert (x, c) in pairs && same((x, c)) == y;
    }
    forall y | y in Image(pairs, same)
      ensures y in reports
    {
      var z :| z in pairs && same(z) == y;
      PairMember(cells, Elements(costs), z);
      var x: Coordinate, c: Id := z.0, z.1;
      assert x in cells && c in costs;
      assert (x, c) in reports && y == (x, c);
    }
    assert Image(pairs, same) == reports;
  }

  lemma {:induction false} PairMember<A, B>(a: set<A>, b: set<B>, z: (A, B))
    requires z in Pairs(a, b)
    ensures z.0 in a && z.1 in b
  {}

  /** In every accepted log a production policy has no trial, and says so. */
  lemma {:induction false} ProductionIsBlocked(h: Hashes, log: seq<Event>, st: State, k: nat, c: ConfigurationClass)
    requires Replay(h, log) == Loaded(st) && k < |st.policies| && st.policies[k].policy.mode == ProductionUnresolved
    ensures ValidPolicy(st.policies[k].policy)
    ensures Members(st.trials, st.policies[k].policy.id, c) == {}
    ensures Reconcile(st.trials, st.policies[k].policy) == BlockedProduction
  {
    ReplayInv(h, log);
    hide Replay, LogInv, AccessInv, LifeOk, LineageInv, FindPolicy, ValidRegistration, ValidPolicy,
         OnGrid, ConfigurationOf;
    var p, ts := st.policies[k].policy, st.trials;
    assert FindPolicy(st.policies, p.id) == k;
    forall i | 0 <= i < |ts|
      ensures ts[i].registration.policy != p.id
    {
      assert TrialOk(h, st.policies, ts[i]);
    }
  }

  /** The four difference lists are empty exactly when the structural sets agree. */
  lemma {:induction false} CompleteWhenEqual(ts: seq<Trial>, p: Policy)
    requires ValidPolicy(p) && p.mode == SyntheticTestOnly
    requires ActualStructural(ts, p.id) <= ExpectedStructural(p)
    requires ActualReports(ts, p.id) == set x, c | x in ActualStructural(ts, p.id) && c in p.costs.value :: (x, c)
    ensures ActualReports(ts, p.id) <= ExpectedReports(p)
    ensures Reconcile(ts, p) == if Members(ts, p.id, OffGridManual) != {} then BlockedOffGrid
      else if ActualStructural(ts, p.id) == ExpectedStructural(p) then CompleteTestOnly else IncompleteTestOnly
  {
    hide ActualReports, ActualStructural, ExpectedStructural, Members;
    var actual, expected := ActualStructural(ts, p.id), ExpectedStructural(p);
    assert actual == expected ==> ActualReports(ts, p.id) == ExpectedReports(p);
    assert forall x :: x in expected - actual <==> x in expected && x !in actual;
  }
}
