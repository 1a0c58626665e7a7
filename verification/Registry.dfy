/** `replay_registry`: the fold of an event log into policies, trials, run attempts, one
    global access chain and outcomes. `Verdict` decides an event, `Effect` applies it. */
module Registry {
  import opened Basics
  import opened AccessChain
  import opened RegistryModel

  datatype State = State(
    accepted: seq<Event>, seen: map<Id, Event>, policies: seq<PolicyEntry>, trials: seq<Trial>,
    bound: set<Hash>, chain: seq<AccessEvent>)

  const EMPTY := State([], map[], [], [], {}, [])

  datatype Reason =
    | Malformed | EventIdReused | SequenceGap | PreviousHashMismatch
    | PolicyIdReused | FirstPolicyHasPredecessor | VersionNotIncreasing | PredecessorNotLatest
    | PolicyArtifactUnchanged | PredecessorHeadMismatch | PredecessorStateMismatch
    | TrialIdReused | PolicyUnknown | PolicyNotLatest | PolicyVersionMismatch | FamilyFrozen
    | CostRoleMismatch | ProductionBlocked | CostOrderMismatch | AxisOffGrid | PrimaryCostMissing
    | PrimaryCostForbidden | CoordinateOutsideGrid | IdCoordinateDisagree | ParentRequired
    | ParentUnknown | ParentOtherFamily | ParentOtherHypothesis | ParentNotImmediate | ParentVersionNotEarlier
    | StructuralCoordinateChanged | StructuralParentNotLatest | ConfigurationRegistered
    | StructuralIdReused | CoordinateAliased | ConfigurationParentNotLatest
    | TrialUnknown | TrialClosed
    | InitialRunHasRetryReason | RetryReasonMissing | RetryAfterOutcome | BadStartState | RunIdReused
    | AccessNotRunning | RegistrationHashMismatch | ContractMismatch | AccessRunMismatch
    | ChainNotExtended | ChainForked | SuffixForeign | RunNotBegunByAttempt | AccessBeforeStart
    | AccessAfterBinding | AccessAlreadyBound | WindowNotRegistered | RegistrationArtifactMissing
    | ArtifactsNotFrozen
    | OutcomeNotRunning | CitationNotCurrent | OutcomeTooEarly | PlanUnknown | CitedWindowsMismatch
    | ExposedWindowsMismatch | OutcomeArtifactMismatch | ReportMismatch | OutcomeDuplicated
    | OutcomeArtifactDuplicated
    | Incomplete

  /** `Crash` stands for an exception that is not a registry rejection: a missing key, an
      empty list indexed from the end, a failed assertion. */
  datatype Verdict = Accept | Reject(reason: Reason) | Crash

  function Head(accepted: seq<Event>): Hash {
    if accepted == [] then GENESIS else accepted[|accepted| - 1].hash
  }

  /** Position of a policy id in registration order, or the length when absent. */
  function FindPolicy(ps: seq<PolicyEntry>, id: Id): (k: nat)
    ensures k <= |ps|
    ensures k < |ps| ==> ps[k].policy.id == id
    ensures forall j :: 0 <= j < k ==> ps[j].policy.id != id
  {
    if ps == [] then 0
    else if ps[0].policy.id == id then 0
    else
      var k := FindPolicy(ps[1..], id);
      assert forall j :: 1 <= j < |ps| ==> ps[j] == ps[1..][j - 1];
      k + 1
  }

  function FindTrial(ts: seq<Trial>, id: Id): (k: nat)
    ensures k <= |ts|
    ensures k < |ts| ==> ts[k].id == id
    ensures forall j :: 0 <= j < k ==> ts[j].id != id
  {
    if ts == [] then 0
    else if ts[0].id == id then 0
    else
      var k := FindTrial(ts[1..], id);
      assert forall j :: 1 <= j < |ts| ==> ts[j] == ts[1..][j - 1];
      k + 1
  }

  function FindPlan(ps: seq<Plan>, id: Id): (k: nat)
    ensures k <= |ps|
    ensures k < |ps| ==> ps[k].id == id
    ensures forall j :: 0 <= j < k ==> ps[j].id != id
  {
    if ps == [] then 0
    else if ps[0].id == id then 0
    else
      var k := FindPlan(ps[1..], id);
      assert forall j :: 1 <= j < |ps| ==> ps[j] == ps[1..][j - 1];
      k + 1
  }

  // ---------------------------------------------------------------- policies

  function PolicyVerdict(h: Hashes, st: State, p: Policy): Verdict {
    if FindPolicy(st.policies, p.id) < |st.policies| then Reject(PolicyIdReused)
    else if st.policies == [] then
      if p.predecessor.Some? then Reject(FirstPolicyHasPredecessor) else Accept
    else
      var latest := st.policies[|st.policies| - 1].policy;
      if p.version <= latest.version then Reject(VersionNotIncreasing)
      else if p.predecessor.None? || p.predecessor.value.policy != latest.id then Reject(PredecessorNotLatest)
      else if p.binding.sha == latest.binding.sha then Reject(PolicyArtifactUnchanged)
      else if p.predecessor.value.head != Head(st.accepted) then Reject(PredecessorHeadMismatch)
      else if p.predecessor.value.state != h.state(RegistryDocument(st.policies, st.trials, st.bound)) then
        Reject(PredecessorStateMismatch)
      else Accept
  }

  // ------------------------------------------------------------ registration

  function CoordinateOf(r: Registration): Coordinate { r.dimensions.coordinate }

  predicate OnGrid(p: Policy, c: Coordinate)
    requires p.axes.filter.Some? && p.axes.holding.Some? && p.axes.lookback.Some? && p.axes.rebalance.Some?
  {
    && c.filter in p.axes.filter.value && c.holding in p.axes.holding.value
    && c.lookback in p.axes.lookback.value && c.rebalance in p.axes.rebalance.value
  }

  /** A grid trial of the same policy whose structural id and coordinate do not
      agree on whether the two trials are the same cell. */
  predicate Disagrees(r: Registration, prior: Registration) {
    && prior.policy == r.policy && prior.gridClass == RegisteredGrid
    && (prior.structural == r.structural) != (CoordinateOf(prior) == CoordinateOf(r))
  }

  /** The checks the last registration loop makes against one existing trial. */
  function Conflict(r: Registration, configuration: Hash, t: Trial): Option<Reason> {
    if t.registration.policy != r.policy then None
    else if t.configuration == configuration then Some(ConfigurationRegistered)
    else if t.registration.structural == r.structural then Some(StructuralIdReused)
    else if r.gridClass == RegisteredGrid && t.registration.gridClass == RegisteredGrid
              && CoordinateOf(r) == CoordinateOf(t.registration) then Some(CoordinateAliased)
    else None
  }

  /** The first conflict in registration order. */
  function FirstConflict(r: Registration, configuration: Hash, ts: seq<Trial>): (c: Option<Reason>)
    ensures c.None? <==> forall i :: 0 <= i < |ts| ==> Conflict(r, configuration, ts[i]).None?
    ensures c.Some? ==> exists i :: 0 <= i < |ts| && Conflict(r, configuration, ts[i]) == c
  {
    if ts == [] then None
    else
      var rest := FirstConflict(r, configuration, ts[1..]);
      assert forall j :: 1 <= j < |ts| ==> ts[j] == ts[1..][j - 1];
      if Conflict(r, configuration, ts[0]).Some? then Conflict(r, configuration, ts[0]) else rest
  }

  /** The last trial in registration order with the given structural id, or -1. */
  function LatestStructural(ts: seq<Trial>, structural: Id): (k: int)
    ensures -1 <= k < |ts|
    ensures k >= 0 ==> ts[k].registration.structural == structural
    ensures forall j :: k < j < |ts| ==> ts[j].registration.structural != structural
  {
    if ts == [] then -1
    else if ts[|ts| - 1].registration.structural == structural then |ts| - 1
    else LatestStructural(ts[..|ts| - 1], structural)
  }

  /** The last trial in registration order with the given configuration digest, or -1. */
  function LatestConfiguration(ts: seq<Trial>, configuration: Hash): (k: int)
    ensures -1 <= k < |ts|
    ensures k >= 0 ==> ts[k].configuration == configuration
    ensures forall j :: k < j < |ts| ==> ts[j].configuration != configuration
  {
    if ts == [] then -1
    else if ts[|ts| - 1].configuration == configuration then |ts| - 1
    else LatestConfiguration(ts[..|ts| - 1], configuration)
  }

  function PolicyChecks(st: State, id: Id, r: Registration): Verdict {
    var k := FindPolicy(st.policies, r.policy);
    if FindTrial(st.trials, id) < |st.trials| then Reject(TrialIdReused)
    else if k == |st.policies| then Reject(PolicyUnknown)
    else
      var p := st.policies[k].policy;
      if r.policy != st.policies[|st.policies| - 1].policy.id then Reject(PolicyNotLatest)
      else if r.policyVersion != p.version then Reject(PolicyVersionMismatch)
      else if st.policies[k].frozen.Some? then Reject(FamilyFrozen)
      else if r.role != p.role then Reject(CostRoleMismatch)
      else if p.mode == ProductionUnresolved then Reject(ProductionBlocked)
      else if p.costs.Some? && r.costs != p.costs.value then Reject(CostOrderMismatch)
      else Accept
  }

  function GridChecks(ts: seq<Trial>, p: Policy, r: Registration): Verdict {
    var axes := p.axes;
    var complete := axes.filter.Some? && axes.holding.Some? && axes.lookback.Some? && axes.rebalance.Some?;
    if r.gridClass == RegisteredGrid && !complete then Crash
    else if r.gridClass == RegisteredGrid && !OnGrid(p, CoordinateOf(r)) then Reject(AxisOffGrid)
    else if p.role == ReportingOnly && r.selectionCost.None? then Reject(PrimaryCostMissing)
    else if p.role == SelectionEligible && r.selectionCost.Some? then Reject(PrimaryCostForbidden)
    else if r.gridClass == RegisteredGrid && !OnGrid(p, CoordinateOf(r)) then Reject(CoordinateOutsideGrid)
    else if r.gridClass == RegisteredGrid && exists t :: t in ts && Disagrees(r, t.registration) then
      Reject(IdCoordinateDisagree)
    else Accept
  }

  function ParentChecks(ts: seq<Trial>, p: Policy, r: Registration): Verdict {
    if p.predecessor.Some? && r.parent.None? then Reject(ParentRequired)
    else if r.parent.None? then Accept
    else
      var k := FindTrial(ts, r.parent.value);
      if k == |ts| then Reject(ParentUnknown)
      else
        var q := ts[k].registration;
        if q.family != r.family then Reject(ParentOtherFamily)
        else if q.hypothesis != r.hypothesis then Reject(ParentOtherHypothesis)
        else if p.predecessor.Some? && q.policy != p.predecessor.value.policy then Reject(ParentNotImmediate)
        else if q.policyVersion >= r.policyVersion then Reject(ParentVersionNotEarlier)
        else Accept
  }

  function StructuralChecks(ts: seq<Trial>, p: Policy, r: Registration): Verdict {
    var k := LatestStructural(ts, r.structural);
    if p.predecessor.None? || k < 0 then Accept
    else if exists t :: t in ts && t.registration.structural == r.structural
                        && CoordinateOf(t.registration) != CoordinateOf(r) then
      Reject(StructuralCoordinateChanged)
    else if r.parent != Some(ts[k].id) then Reject(StructuralParentNotLatest)
    else Accept
  }

  function ConfigurationChecks(ts: seq<Trial>, configuration: Hash, r: Registration): Verdict {
    var conflict := FirstConflict(r, configuration, ts);
    var k := LatestConfiguration(ts, configuration);
    if conflict.Some? then Reject(conflict.value)
    else if k >= 0 && r.parent != Some(ts[k].id) then Reject(ConfigurationParentNotLatest)
    else Accept
  }

  function RegisterVerdict(h: Hashes, st: State, id: Id, r: Registration): Verdict {
    var v := PolicyChecks(st, id, r);
    if v != Accept then v
    else
      var p := st.policies[FindPolicy(st.policies, r.policy)].policy;
      var g := GridChecks(st.trials, p, r);
      if g != Accept then g
      else
        var a := ParentChecks(st.trials, p, r);
        if a != Accept then a
        else
          var s := StructuralChecks(st.trials, p, r);
          if s != Accept then s else ConfigurationChecks(st.trials, h.configuration(ConfigurationOf(r)), r)
  }

  // ------------------------------------------------------------------- start

  predicate HasRun(attempts: seq<RunAttempt>, run: Id) {
    exists a :: a in attempts && a.run == run
  }

  function StartVerdict(st: State, t: Trial, run: Id, retryReason: Option<Id>): Verdict {
    if FindPolicy(st.policies, t.registration.policy) == |st.policies| then Crash
    else if t.status == Registered && retryReason.Some? then Reject(InitialRunHasRetryReason)
    else if t.status == Running && retryReason.None? then Reject(RetryReasonMissing)
    else if t.status == Running && t.outcomes != [] then Reject(RetryAfterOutcome)
    else if t.status == Running && t.attempts == [] then Crash
    else if t.status.Closed? then Reject(BadStartState)
    else if HasRun(t.attempts, run) then Reject(RunIdReused)
    else Accept
  }

  function CloseLast(attempts: seq<RunAttempt>, close: AttemptClose): seq<RunAttempt> {
    if attempts == [] then []
    else attempts[|attempts| - 1 := attempts[|attempts| - 1].(close := Some(close))]
  }

  function StartTrial(t: Trial, b: EventBody, run: Id, retryReason: Option<Id>): Trial {
    var before := if t.status == Running
                  then CloseLast(t.attempts, AttemptClose(Superseded, retryReason, b.sequence, b.at))
                  else t.attempts;
    t.(status := Running, run := Some(run), attempts := before + [RunAttempt(run, b.sequence, b.at, None)])
  }

  function Freeze(ps: seq<PolicyEntry>, policy: Id, sequence: int): seq<PolicyEntry> {
    var k := FindPolicy(ps, policy);
    if k < |ps| && ps[k].frozen.None? then ps[k := ps[k].(frozen := Some(sequence))] else ps
  }

  // ------------------------------------------------------------------ access

  predicate OfRun(a: AccessEvent, trial: Id, run: Option<Id>) {
    a.body.request.trial == trial && Some(a.body.request.run) == run
  }

  /** The first event of the run in the chain, or the length. */
  function FirstOfRun(chain: seq<AccessEvent>, trial: Id, run: Option<Id>): (k: nat)
    ensures k <= |chain|
    ensures k < |chain| ==> OfRun(chain[k], trial, run)
    ensures forall j :: 0 <= j < k ==> !OfRun(chain[j], trial, run)
  {
    if chain == [] then 0
    else if OfRun(chain[0], trial, run) then 0
    else
      var k := FirstOfRun(chain[1..], trial, run);
      assert forall j :: 1 <= j < |chain| ==> chain[j] == chain[1..][j - 1];
      k + 1
  }

  function RegisteredKeys(r: Registration): set<WindowKey> { set w | w in r.windows :: w.key }

  function FrozenArtifacts(t: Trial): set<AccessArtifact> {
    (set a | a in t.registration.artifacts && a.role in {Data, Universe} :: AccessArtifact(a.artifact, a.sha))
    + {AccessArtifact(REGISTRATION_ARTIFACT, t.hash)}
  }

  function FrozenData(t: Trial): set<Hash> {
    set a | a in t.registration.artifacts && a.role == Data :: a.sha
  }

  /** The access event carries exactly the trial's frozen market artifacts. */
  predicate MatchesFrozen(t: Trial, a: AccessEvent) {
    && Elements(a.body.request.artifacts) == FrozenArtifacts(t)
    && a.body.request.window.vintageSha in FrozenData(t)
  }

  function ChainChecks(st: State, t: Trial, chain: seq<AccessEvent>): Verdict {
    var n := |st.chain|;
    if n > 0 && |chain| <= n then Reject(ChainNotExtended)
    else if n > 0 && chain[..n] != st.chain then Reject(ChainForked)
    else if exists i :: n <= i < |chain| && !OfRun(chain[i], t.id, t.run) then Reject(SuffixForeign)
    else if t.attempts == [] then Crash
    else
      var k := FirstOfRun(chain, t.id, t.run);
      if k == |chain| || chain[k].body.kind != Attempt then Reject(RunNotBegunByAttempt) else Accept
  }

  function RunChecks(st: State, t: Trial, at: Time, chain: seq<AccessEvent>): Verdict
    requires t.attempts != [] && chain != []
  {
    var started := t.attempts[|t.attempts| - 1].startedAt;
    if exists a :: a in chain && OfRun(a, t.id, t.run) && a.body.at < Max(t.at, started) then Reject(AccessBeforeStart)
    else if exists a :: a in chain && OfRun(a, t.id, t.run) && a.body.at > at then Reject(AccessAfterBinding)
    else if chain[|chain| - 1].hash in st.bound then Reject(AccessAlreadyBound)
    else if chain[|chain| - 1].body.request.window !in RegisteredKeys(t.registration)
         || exists a :: a in chain && OfRun(a, t.id, t.run) && a.body.request.window !in RegisteredKeys(t.registration)
    then Reject(WindowNotRegistered)
    else if exists a :: a in chain && OfRun(a, t.id, t.run)
                        && AccessArtifact(REGISTRATION_ARTIFACT, t.hash) !in a.body.request.artifacts then
      Reject(RegistrationArtifactMissing)
    else if exists a :: a in chain && OfRun(a, t.id, t.run) && !MatchesFrozen(t, a) then Reject(ArtifactsNotFrozen)
    else Accept
  }

  function AccessVerdict(st: State, t: Trial, at: Time, b: AccessBinding): Verdict
    requires b.chain != []
  {
    var k := FindPolicy(st.policies, t.registration.policy);
    if t.status != Running then Reject(AccessNotRunning)
    else if b.registration != t.hash then Reject(RegistrationHashMismatch)
    else if k == |st.policies| then Crash
    else if b.contract != st.policies[k].policy.manifest then Reject(ContractMismatch)
    else if Some(b.chain[|b.chain| - 1].body.request.run) != t.run then Reject(AccessRunMismatch)
    else
      var v := ChainChecks(st, t, b.chain);
      if v != Accept then v else RunChecks(st, t, at, b.chain)
  }

  // ----------------------------------------------------------------- outcome

  /** The dictionary of a trial's successful accesses over the events of one chain; a later
      event replaces an earlier one with the same digest. */
  function Successes(chain: seq<AccessEvent>, trial: Id): (m: map<Hash, AccessEvent>)
    ensures forall h :: h in m ==>
      m[h] in chain && m[h].hash == h && m[h].body.kind == Success && m[h].body.request.trial == trial
    ensures forall a :: a in chain && a.body.kind == Success && a.body.request.trial == trial ==> a.hash in m
  {
    if chain == [] then map[]
    else
      var last := chain[|chain| - 1];
      var m := Successes(chain[..|chain| - 1], trial);
      if last.body.kind == Success && last.body.request.trial == trial then m[last.hash := last] else m
  }

  function Concat(bindings: seq<AccessBinding>): (s: seq<AccessEvent>)
    ensures forall a :: a in s <==> exists i :: 0 <= i < |bindings| && a in bindings[i].chain
  {
    if bindings == [] then [] else Concat(bindings[..|bindings| - 1]) + bindings[|bindings| - 1].chain
  }

  function WindowIdsOf(r: Registration, accesses: set<AccessEvent>): set<Id> {
    set a, w | a in accesses && w in r.windows && w.key == a.body.request.window :: w.id
  }

  function OutcomeVerdict(t: Trial, at: Time, o: Outcome): Verdict {
    var all := Successes(Concat(t.bindings), t.id);
    var current := set h | h in all && Some(all[h].body.request.run) == t.run;
    if !(o.cited != {} && o.cited <= current) then Reject(CitationNotCurrent)
    else if all == map[] || t.attempts == [] then Crash
    else if at < Max(t.at, t.attempts[|t.attempts| - 1].startedAt) || exists h :: h in all && at < all[h].body.at then
      Reject(OutcomeTooEarly)
    else
      var k := FindPlan(t.registration.plans, o.plan);
      if k == |t.registration.plans| then Reject(PlanUnknown)
      else PlanVerdict(t, o, t.registration.plans[k], all)
  }

  function PlanVerdict(t: Trial, o: Outcome, plan: Plan, all: map<Hash, AccessEvent>): Verdict
    requires o.cited <= all.Keys
  {
    var keys := RegisteredKeys(t.registration);
    var cited := set h | h in o.cited :: all[h];
    if exists a :: a in cited && a.body.request.window !in keys then Crash
    else if WindowIdsOf(t.registration, cited) != Elements(plan.windows) then Reject(CitedWindowsMismatch)
    else if exists h :: h in all && all[h].body.request.window !in keys then Crash
    else if WindowIdsOf(t.registration, all.Values) != Elements(plan.windows) then Reject(ExposedWindowsMismatch)
    else if o.binding.artifact != plan.artifact then Reject(OutcomeArtifactMismatch)
    else if o.measure != plan.measure then Reject(ReportMismatch)
    else if exists p :: p in t.outcomes && p.plan == o.plan then Reject(OutcomeDuplicated)
    else if exists p :: p in t.outcomes && p.binding.artifact == o.binding.artifact then
      Reject(OutcomeArtifactDuplicated)
    else Accept
  }

  // ---------------------------------------------------------------- terminal

  function PlannedIds(t: Trial): set<Id> { set p | p in t.registration.plans :: p.id }
  function ObservedIds(t: Trial): set<Id> { set o | o in t.outcomes :: o.plan }

  function EndVerdict(t: Trial, terminal: Terminal): Verdict {
    if terminal == Completed && (t.status != Running || ObservedIds(t) != PlannedIds(t)) then Reject(Incomplete)
    else Accept
  }

  function EndTrial(t: Trial, b: EventBody, terminal: Terminal, reason: Option<Id>): Trial {
    t.(status := Closed(terminal),
       attempts := CloseLast(t.attempts, AttemptClose(Ended(terminal), reason, b.sequence, b.at)),
       terminalReason := reason, terminalSequence := Some(b.sequence))
  }

  // -------------------------------------------------------------------- step

  function TrialVerdict(h: Hashes, st: State, b: EventBody): Verdict
    requires !b.kind.PolicyRegistered? && !b.kind.TrialRegistered? && ValidKind(h, b.kind)
  {
    var k := FindTrial(st.trials, b.kind.trial);
    if k == |st.trials| then Reject(TrialUnknown)
    else
      var t := st.trials[k];
      if t.status.Closed? then Reject(TrialClosed)
      else match b.kind
        case TrialStarted(_, run, reason) => StartVerdict(st, t, run, reason)
        case SampleAccessBound(_, access) => AccessVerdict(st, t, b.at, access)
        case OutcomeRecorded(_, o) =>
          if t.status != Running then Reject(OutcomeNotRunning) else OutcomeVerdict(t, b.at, o)
        case TrialEnded(_, terminal, _) => EndVerdict(t, terminal)
  }

  function KindVerdict(h: Hashes, st: State, b: EventBody): Verdict
    requires ValidKind(h, b.kind)
  {
    match b.kind
    case PolicyRegistered(p) => PolicyVerdict(h, st, p)
    case TrialRegistered(id, r) => RegisterVerdict(h, st, id, r)
    case _ => TrialVerdict(h, st, b)
  }

  /** An exact repeat of an accepted event is accepted and changes nothing. */
  predicate Repeat(st: State, e: Event) {
    e.body.id in st.seen && st.seen[e.body.id] == e
  }

  function Judge(h: Hashes, st: State, e: Event): Verdict {
    if !ValidEvent(h, e) then Reject(Malformed)
    else if e.body.id in st.seen then if st.seen[e.body.id] == e then Accept else Reject(EventIdReused)
    else if e.body.sequence != |st.accepted| + 1 then Reject(SequenceGap)
    else if e.body.previous != Head(st.accepted) then Reject(PreviousHashMismatch)
    else KindVerdict(h, st, e.body)
  }

  function ActOn(h: Hashes, t: Trial, b: EventBody): Trial {
    match b.kind
    case TrialStarted(_, run, reason) => StartTrial(t, b, run, reason)
    case SampleAccessBound(_, access) => t.(bindings := t.bindings + [access])
    case OutcomeRecorded(_, o) => t.(outcomes := t.outcomes + [o])
    case TrialEnded(_, terminal, reason) => EndTrial(t, b, terminal, reason)
    case _ => t
  }

  function NewTrial(h: Hashes, e: Event): Trial
    requires e.body.kind.TrialRegistered?
  {
    var r := e.body.kind.registration;
    Trial(e.body.kind.trial, r, h.configuration(ConfigurationOf(r)), e.body.sequence, e.hash, e.body.at,
          Registered, None, [], [], [], None, None)
  }

  function KindEffect(h: Hashes, st: State, e: Event): State {
    match e.body.kind
    case PolicyRegistered(p) => st.(policies := st.policies + [PolicyEntry(p, None)])
    case TrialRegistered(_, _) => st.(trials := st.trials + [NewTrial(h, e)])
    case _ =>
      var k := FindTrial(st.trials, e.body.kind.trial);
      if k == |st.trials| then st
      else
        var t := st.trials[k];
        var acted := st.(trials := st.trials[k := ActOn(h, t, e.body)]);
        match e.body.kind
        case TrialStarted(_, _, _) =>
          acted.(policies := Freeze(st.policies, t.registration.policy, e.body.sequence))
        case SampleAccessBound(_, access) =>
          acted.(bound := st.bound + {access.head}, chain := access.chain)
        case _ => acted
  }

  function Effect(h: Hashes, st: State, e: Event): State {
    if Repeat(st, e) then st
    else KindEffect(h, st, e).(accepted := st.accepted + [e], seen := st.seen[e.body.id := e])
  }

  datatype Replayed = Loaded(state: State) | Refused(reason: Reason) | Crashed

  function Step(h: Hashes, st: State, e: Event): Replayed {
    match Judge(h, st, e)
    case Accept => Loaded(Effect(h, st, e))
    case Reject(r) => Refused(r)
    case Crash => Crashed
  }

  function ReplayFrom(h: Hashes, st: State, log: seq<Event>): Replayed
    decreases |log|
  {
    if log == [] then Loaded(st)
    else match Step(h, st, log[0])
      case Loaded(next) => ReplayFrom(h, next, log[1..])
      case other => other
  }

  function Replay(h: Hashes, log: seq<Event>): Replayed { ReplayFrom(h, EMPTY, log) }
}
