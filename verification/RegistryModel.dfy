/** The experiment registry's policies, trials and events, and what each must satisfy
    on its own before the replay looks at it. */
module RegistryModel {
  import opened Basics
  import opened AccessChain

  const FILTERS := 4
  const HOLDINGS := 3
  const LOOKBACKS := 4
  const REBALANCES := 2
  const COSTS := 3
  const STRUCTURAL_FAMILY := FILTERS * HOLDINGS * LOOKBACKS * REBALANCES
  const REPORT_FAMILY := STRUCTURAL_FAMILY * COSTS
  const ACCESS_SCHEMA: Id := 1211
  const REGISTRATION_ARTIFACT: Id := 1221

  datatype Mode = ProductionUnresolved | SyntheticTestOnly
  datatype CostRole = ReportingOnly | SelectionEligible | RoleUnregistered
  datatype ConfigurationClass = RegisteredGrid | OffGridManual
  datatype Binding = Binding(artifact: Id, source: Id, sha: Hash)
  datatype Predecessor = Predecessor(policy: Id, head: Hash, state: Hash)
  datatype Axes = Axes(
    filter: Option<seq<Id>>, holding: Option<seq<Id>>, lookback: Option<seq<Id>>, rebalance: Option<seq<Id>>)

  datatype Policy = Policy(
    id: Id, version: int, mode: Mode, binding: Binding, accessSchema: Binding, manifest: Binding,
    axes: Axes, costs: Option<seq<Id>>, role: CostRole, family: Option<int>, predecessor: Option<Predecessor>)

  predicate AxisOk(values: Option<seq<Id>>, cardinality: int) {
    values.Some? ==> Distinct(values.value) && |values.value| == cardinality
  }

  /** `RegistryPolicy.__post_init__`. */
  predicate ValidPolicy(p: Policy) {
    && p.version >= 1
    && p.accessSchema.artifact == ACCESS_SCHEMA
    && p.manifest.artifact == GOVERNANCE_CONTRACT
    && AxisOk(p.axes.filter, FILTERS) && AxisOk(p.axes.holding, HOLDINGS)
    && AxisOk(p.axes.lookback, LOOKBACKS) && AxisOk(p.axes.rebalance, REBALANCES)
    && AxisOk(p.costs, COSTS)
    && (p.family.Some? ==> p.family.value >= 1)
    && match p.mode
       case ProductionUnresolved =>
         && p.axes.lookback.None? && p.axes.holding.None? && p.axes.rebalance.None?
         && p.costs.None? && p.role == RoleUnregistered && p.family.None?
       case SyntheticTestOnly =>
         && p.axes.filter.Some? && p.axes.holding.Some? && p.axes.lookback.Some? && p.axes.rebalance.Some?
         && p.costs.Some?
         && match p.role
            case ReportingOnly => p.family == Some(STRUCTURAL_FAMILY)
            case SelectionEligible => p.family == Some(REPORT_FAMILY)
            case RoleUnregistered => false
  }

  datatype Window = Window(id: Id, key: WindowKey)
  datatype Direction = HigherIsBetter | LowerIsBetter
  datatype SelectionRole = PrimarySelection | ReportingOutcome | UnregisteredOutcome

  /** What a plan and a validation report must agree on. */
  datatype Measure = Measure(benchmark: Id, cost: Id, direction: Direction, metric: Id, schema: Id)
  datatype Plan = Plan(id: Id, artifact: Id, measure: Measure, role: SelectionRole, windows: seq<Id>)

  datatype ArtifactRole =
    | AgentOverlay | Benchmark | Code | Config | Cost | Data | Filter | HoldingPeriod
    | Lookback | Rebalance | Schema | Signal | Tax | Universe
  datatype Artifact = Artifact(role: ArtifactRole, artifact: Id, source: Id, sha: Hash)

  datatype Coordinate = Coordinate(lookback: Id, holding: Id, rebalance: Id, filter: Id)
  datatype Dimensions = Dimensions(
    coordinate: Coordinate, overlay: Id, benchmark: Id, cost: Id, signal: Id, tax: Id, universe: Id)
  datatype Repository = Repository(id: Id, commit: Id, tree: Id, dirty: Option<(Binding, Binding)>)

  datatype Registration = Registration(
    family: Id, hypothesis: Id, owner: Id, parent: Option<Id>, policy: Id, policyVersion: int,
    gridClass: ConfigurationClass, structural: Id, costs: seq<Id>, selectionCost: Option<Id>, role: CostRole,
    windows: seq<Window>, plans: seq<Plan>, repository: Repository, dimensions: Dimensions,
    artifacts: seq<Artifact>)

  /** `_validate_sample_windows`. */
  predicate ValidWindows(windows: seq<Window>) {
    && windows != []
    && (forall i :: 0 <= i < |windows| ==>
          && windows[i].key.start <= windows[i].key.end <= DateOf(windows[i].key.analysisAsOf)
          && windows[i].key.vintageAt <= windows[i].key.analysisAsOf)
    && (forall i, j :: 0 <= i < j < |windows| ==> windows[i].key != windows[j].key && windows[i].id != windows[j].id)
  }

  function WindowIds(windows: seq<Window>): set<Id> { set w | w in windows :: w.id }

  function ExpectedRole(role: CostRole, selection: Option<Id>, cost: Id): SelectionRole {
    match role
    case SelectionEligible => PrimarySelection
    case ReportingOnly => if selection == Some(cost) then PrimarySelection else ReportingOutcome
    case RoleUnregistered => UnregisteredOutcome
  }

  /** `_validate_planned_outcomes`: one plan per cost scenario, with the role the cost
      policy dictates and one shared set of sample windows. */
  predicate ValidPlans(r: Registration) {
    && r.plans != []
    && (forall p :: p in r.plans ==>
          && p.windows != [] && Distinct(p.windows) && Elements(p.windows) <= WindowIds(r.windows)
          && p.measure.cost in r.costs
          && p.role == ExpectedRole(r.role, r.selectionCost, p.measure.cost)
          && Elements(p.windows) == Elements(r.plans[0].windows))
    && (forall i, j :: 0 <= i < j < |r.plans| ==>
          r.plans[i].id != r.plans[j].id && r.plans[i].artifact != r.plans[j].artifact)
    && |r.plans| == |r.costs|
    && (set p | p in r.plans :: p.measure.cost) == Elements(r.costs)
  }

  predicate ValidArtifacts(a: seq<Artifact>) {
    && (forall i, j :: 0 <= i < j < |a| && a[i].role == a[j].role ==>
          a[i].artifact != a[j].artifact && a[i].sha != a[j].sha)
    && (set x | x in a :: x.role) == {AgentOverlay, Benchmark, Code, Config, Cost, Data, Filter, HoldingPeriod,
                                       Lookback, Rebalance, Schema, Signal, Tax, Universe}
  }

  /** `_validate_trial_registration`. */
  predicate ValidRegistration(r: Registration) {
    && r.policyVersion >= 1
    && r.costs != [] && Distinct(r.costs)
    && (r.selectionCost.Some? ==> r.selectionCost.value in r.costs)
    && ValidWindows(r.windows)
    && ValidPlans(r)
    && ValidArtifacts(r.artifacts)
  }

  /** The research specification behind a registration: labels, ownership, ids of
      windows, plans and artifacts are left out (`_configuration_sha256`). */
  datatype SemanticPlan = SemanticPlan(measure: Measure, role: SelectionRole, windows: set<WindowKey>)
  datatype Configuration = Configuration(
    artifacts: set<(ArtifactRole, Hash)>, costs: set<Id>, role: CostRole, dimensions: Dimensions,
    plans: set<SemanticPlan>, commit: Id, tree: Id, dirty: Option<(Hash, Hash)>,
    windows: set<WindowKey>, selectionCost: Option<Id>)

  function WindowKeys(windows: seq<Window>, ids: seq<Id>): set<WindowKey> {
    set w | w in windows && w.id in ids :: w.key
  }

  function ConfigurationOf(r: Registration): Configuration {
    Configuration(
      set a | a in r.artifacts :: (a.role, a.sha), Elements(r.costs), r.role, r.dimensions,
      set p | p in r.plans :: SemanticPlan(p.measure, p.role, WindowKeys(r.windows, p.windows)),
      r.repository.commit, r.repository.tree,
      if r.repository.dirty.None? then None
      else Some((r.repository.dirty.value.0.sha, r.repository.dirty.value.1.sha)),
      set w | w in r.windows :: w.key, r.selectionCost)
  }

  datatype AccessBinding = AccessBinding(
    contract: Binding, chain: seq<AccessEvent>, head: Hash, registration: Hash)
  datatype Outcome = Outcome(cited: set<Hash>, binding: Binding, plan: Id, measure: Measure)
  datatype Terminal = Completed | Failed | Skipped | Abandoned

  datatype Kind =
    | PolicyRegistered(policy: Policy)
    | TrialRegistered(trial: Id, registration: Registration)
    | TrialStarted(trial: Id, run: Id, retryReason: Option<Id>)
    | SampleAccessBound(trial: Id, access: AccessBinding)
    | OutcomeRecorded(trial: Id, outcome: Outcome)
    | TrialEnded(trial: Id, terminal: Terminal, reason: Option<Id>)

  datatype EventBody = EventBody(id: Id, sequence: int, previous: Hash, at: Time, actor: Id, kind: Kind)
  datatype Event = Event(body: EventBody, hash: Hash)

  /** The digests the registry takes, one per hash domain. */
  datatype Hashes = Hashes(
    event: EventBody -> Hash, access: AccessBody -> Hash, configuration: Configuration -> Hash,
    state: RegistryDocument -> Hash)

  /** `_validate_event_payload`. */
  predicate ValidKind(h: Hashes, k: Kind) {
    match k
    case PolicyRegistered(p) => ValidPolicy(p)
    case TrialRegistered(_, r) => ValidRegistration(r)
    case TrialStarted(_, _, _) => true
    case SampleAccessBound(t, b) =>
      && b.contract.artifact == GOVERNANCE_CONTRACT
      && b.chain != []
      && ValidChain(h.access, b.chain)
      && b.chain[|b.chain| - 1].body.request.trial == t
      && b.chain[|b.chain| - 1].hash == b.head
    case OutcomeRecorded(_, o) => o.cited != {}
    case TrialEnded(_, t, reason) => t == Completed <==> reason.None?
  }

  /** `ExperimentEvent.__post_init__`. */
  predicate ValidEvent(h: Hashes, e: Event) {
    e.body.sequence >= 1 && ValidKind(h, e.body.kind) && e.hash == h.event(e.body)
  }

  datatype Status = Registered | Running | Closed(terminal: Terminal)
  datatype AttemptEnd = Superseded | Ended(terminal: Terminal)
  datatype AttemptClose = AttemptClose(disposition: AttemptEnd, reason: Option<Id>, sequence: int, at: Time)
  datatype RunAttempt = RunAttempt(run: Id, startedSequence: int, startedAt: Time, close: Option<AttemptClose>)

  datatype Trial = Trial(
    id: Id, registration: Registration, configuration: Hash, sequence: int, hash: Hash, at: Time,
    status: Status, run: Option<Id>, attempts: seq<RunAttempt>, bindings: seq<AccessBinding>,
    outcomes: seq<Outcome>, terminalReason: Option<Id>, terminalSequence: Option<int>)

  /** A policy with the sequence number of its first trial start, once there is one. */
  datatype PolicyEntry = PolicyEntry(policy: Policy, frozen: Option<int>)

  /** `_state_document`. Registration order carries no information beyond the version
      and sequence numbers, so the dictionaries are kept in that order. */
  datatype RegistryDocument = RegistryDocument(policies: seq<PolicyEntry>, trials: seq<Trial>, bound: set<Hash>)
}
