/** `replay_registry` as the source runs it: one pass over the log that updates policies,
    trials and the access chain in place, proved against the fold. */
module Replayer {
  import opened Basics
  import opened AccessChain
  import opened RegistryModel
  import opened Registry
  import opened RegistryInvariant
  import opened RegistryTheorems

  /** `_MutableTrial`: what registration fixes, and what later events update. */
  class MutableTrial {
    const id: Id
    const registration: Registration
    const configuration: Hash
    const sequence: int
    const hash: Hash
    const at: Time
    var status: Status
    var run: Option<Id>
    var attempts: seq<RunAttempt>
    var bindings: seq<AccessBinding>
    var outcomes: seq<Outcome>
    var terminalReason: Option<Id>
    var terminalSequence: Option<int>

    constructor (t: Trial)
      ensures Value() == t
    {
      id, registration, configuration, sequence, hash, at := t.id, t.registration, t.configuration, t.sequence,
        t.hash, t.at;
      status, run, attempts, bindings, outcomes := t.status, t.run, t.attempts, t.bindings, t.outcomes;
      terminalReason, terminalSequence := t.terminalReason, t.terminalSequence;
    }

    function Value(): Trial
      reads this
    {
      Trial(id, registration, configuration, sequence, hash, at, status, run, attempts, bindings, outcomes,
            terminalReason, terminalSequence)
    }

    method Start(b: EventBody, newRun: Id, retryReason: Option<Id>)
      modifies this
      ensures Value() == StartTrial(old(Value()), b, newRun, retryReason)
    {
      if status == Running {
        CloseAttempt(AttemptClose(Superseded, retryReason, b.sequence, b.at));
      }
      status := Running;
      run := Some(newRun);
      attempts := attempts + [RunAttempt(newRun, b.sequence, b.at, None)];
    }

    method CloseAttempt(close: AttemptClose)
      modifies this
      ensures Value() == old(Value()).(attempts := CloseLast(old(attempts), close))
    {
      if attempts != [] {
        var last := |attempts| - 1;
        attempts := attempts[last := attempts[last].(close := Some(close))];
      }
    }

    method Bind(access: AccessBinding)
      modifies this
      ensures Value() == old(Value()).(bindings := old(bindings) + [access])
    {
      bindings := bindings + [access];
    }

    method Record(outcome: Outcome)
      modifies this
      ensures Value() == old(Value()).(outcomes := old(outcomes) + [outcome])
    {
      outcomes := outcomes + [outcome];
    }

    /** Dispatches an event of this trial. */
    method Update(h: Hashes, b: EventBody)
      requires !b.kind.PolicyRegistered? && !b.kind.TrialRegistered?
      modifies this
      ensures Value() == ActOn(h, old(Value()), b)
    {
      hide StartTrial, EndTrial;
      match b.kind {
        case TrialStarted(_, newRun, reason) => Start(b, newRun, reason);
        case SampleAccessBound(_, access) => Bind(access);
        case OutcomeRecorded(_, o) => Record(o);
        case TrialEnded(_, terminal, reason) => End(b, terminal, reason);
      }
    }

    method End(b: EventBody, terminal: Terminal, reason: Option<Id>)
      modifies this
      ensures Value() == EndTrial(old(Value()), b, terminal, reason)
    {
      CloseAttempt(AttemptClose(Ended(terminal), reason, b.sequence, b.at));
      status := Closed(terminal);
      terminalReason := reason;
      terminalSequence := Some(b.sequence);
    }
  }

  function Values(ts: seq<MutableTrial>): (vs: seq<Trial>)
    reads ts
    ensures |vs| == |ts| && forall i :: 0 <= i < |ts| ==> vs[i] == ts[i].Value()
  {
    if ts == [] then [] else Values(ts[..|ts| - 1]) + [ts[|ts| - 1].Value()]
  }

  // -------------------------------------------------------- registration scans

  /** The loop that looks for a grid trial whose id and coordinate disagree with the new one. */
  method ScanGrid(ts: seq<MutableTrial>, r: Registration) returns (disagrees: bool)
    ensures disagrees <==> exists t :: t in Values(ts) && Disagrees(r, t.registration)
  {
    hide Values;
    for i := 0 to |ts|
      invariant forall j :: 0 <= j < i ==> !Disagrees(r, ts[j].registration)
    {
      if Disagrees(r, ts[i].registration) {
        assert Values(ts)[i] in Values(ts);
        return true;
      }
    }
    return false;
  }

  /** The scan over earlier trials with the same structural id: did any sit elsewhere, and which
      was registered last (the maximum over sequence numbers)? */
  method ScanStructural(ts: seq<MutableTrial>, r: Registration) returns (moved: bool, latest: int)
    requires forall i, j :: 0 <= i < j < |ts| ==> ts[i].sequence < ts[j].sequence
    ensures latest == LatestStructural(Values(ts), r.structural)
    ensures moved <==> exists t :: t in Values(ts) && t.registration.structural == r.structural
                                   && CoordinateOf(t.registration) != CoordinateOf(r)
  {
    hide Values, LatestStructural;
    moved, latest := false, -1;
    ghost var where := -1;
    for i := 0 to |ts|
      invariant -1 <= latest < i
      invariant latest >= 0 ==> ts[latest].registration.structural == r.structural
      invariant forall j :: latest < j < i ==> ts[j].registration.structural != r.structural
      invariant !moved ==> forall j :: 0 <= j < i && ts[j].registration.structural == r.structural ==>
        CoordinateOf(ts[j].registration) == CoordinateOf(r)
      invariant moved ==> 0 <= where < |ts| && ts[where].registration.structural == r.structural
                          && CoordinateOf(ts[where].registration) != CoordinateOf(r)
    {
      if ts[i].registration.structural == r.structural {
        if CoordinateOf(ts[i].registration) != CoordinateOf(r) {
          moved, where := true, i;
        }
        if latest < 0 || ts[latest].sequence < ts[i].sequence {
          latest := i;
        }
      }
    }
    assert moved ==> Values(ts)[where] in Values(ts);
    var k := LatestStructural(Values(ts), r.structural);
    assert k >= 0 ==> Values(ts)[k] == ts[k].Value();
    assert latest >= 0 ==> Values(ts)[latest] == ts[latest].Value();
  }

  lemma {:induction false} FirstConflictAt(r: Registration, configuration: Hash, ts: seq<Trial>, i: nat)
    requires i < |ts| && Conflict(r, configuration, ts[i]).Some?
    requires forall j :: 0 <= j < i ==> Conflict(r, configuration, ts[j]).None?
    ensures FirstConflict(r, configuration, ts) == Conflict(r, configuration, ts[i])
    decreases i
  {
    hide Conflict;
    if i > 0 {
      assert forall j :: 1 <= j < |ts| ==> ts[j] == ts[1..][j - 1];
      FirstConflictAt(r, configuration, ts[1..], i - 1);
    }
  }

  /** The last loop: reject on the first conflict, and remember the latest trial of an earlier
      policy with the same configuration. */
  method ScanConfigurations(ts: seq<MutableTrial>, r: Registration, configuration: Hash)
    returns (conflict: Option<Reason>, latest: int)
    requires forall i, j :: 0 <= i < j < |ts| ==> ts[i].sequence < ts[j].sequence
    ensures conflict == FirstConflict(r, configuration, Values(ts))
    ensures conflict.None? ==> latest == LatestConfiguration(Values(ts), configuration)
  {
    hide Values, LatestConfiguration, FirstConflict, Conflict;
    latest := -1;
    for i := 0 to |ts|
      invariant -1 <= latest < i
      invariant latest >= 0 ==> ts[latest].configuration == configuration
      invariant forall j :: latest < j < i ==> ts[j].configuration != configuration
      invariant forall j :: 0 <= j < i ==> Conflict(r, configuration, ts[j].Value()).None?
    {
      conflict := Conflict(r, configuration, ts[i].Value());
      if conflict.Some? {
        FirstConflictAt(r, configuration, Values(ts), i);
        return;
      }
      if ts[i].configuration == configuration && (latest < 0 || ts[latest].sequence < ts[i].sequence) {
        latest := i;
      }
    }
    conflict := None;
    var k := LatestConfiguration(Values(ts), configuration);
    assert k >= 0 ==> Values(ts)[k] == ts[k].Value();
    assert latest >= 0 ==> Values(ts)[latest] == ts[latest].Value();
  }

  // ------------------------------------------------------------- access dictionaries

  /** `successful_accesses`: the dictionary of a trial's successes over all its bound chains. */
  method CollectSuccesses(bindings: seq<AccessBinding>, trial: Id) returns (all: map<Hash, AccessEvent>)
    ensures all == Successes(Concat(bindings), trial)
  {
    hide Successes, Concat;
    all := map[];
    NoSuccesses(bindings, trial);
    for i := 0 to |bindings|
      invariant all == Successes(Concat(bindings[..i]), trial)
    {
      var chain := bindings[i].chain;
      ghost var before := Concat(bindings[..i]);
      assert before + chain[..0] == before;
      for j := 0 to |chain|
        invariant all == Successes(before + chain[..j], trial)
      {
        NextSuccess(before, chain, j, trial);
        if chain[j].body.kind == Success && chain[j].body.request.trial == trial {
          all := all[chain[j].hash := chain[j]];
        }
      }
      assert chain[..|chain|] == chain;
      NextBinding(bindings, i);
    }
    assert bindings[..|bindings|] == bindings;
  }

  lemma {:induction false} NoSuccesses(bindings: seq<AccessBinding>, trial: Id)
    ensures Successes(Concat(bindings[..0]), trial) == map[]
  {}

  lemma {:induction false} NextSuccess(before: seq<AccessEvent>, chain: seq<AccessEvent>, j: nat, trial: Id)
    requires j < |chain|
    ensures var m := Successes(before + chain[..j], trial);
      Successes(before + chain[..j + 1], trial) ==
        if chain[j].body.kind == Success && chain[j].body.request.trial == trial then m[chain[j].hash := chain[j]]
        else m
  {
    hide Successes;
    SuccessesAppend(before + chain[..j], chain[j], trial);
    assert before + chain[..j + 1] == before + chain[..j] + [chain[j]];
  }

  lemma {:induction false} SuccessesAppend(s: seq<AccessEvent>, a: AccessEvent, trial: Id)
    ensures Successes(s + [a], trial) ==
      if a.body.kind == Success && a.body.request.trial == trial then Successes(s, trial)[a.hash := a]
      else Successes(s, trial)
  {
    assert (s + [a])[..|s|] == s;
  }

  lemma {:induction false} NextBinding(bindings: seq<AccessBinding>, i: nat)
    requires i < |bindings|
    ensures Concat(bindings[..i + 1]) == Concat(bindings[..i]) + bindings[i].chain
  {
    assert bindings[..i + 1][..i] == bindings[..i];
  }

  /** `window_id_by_identity`. */
  method IndexWindows(windows: seq<Window>) returns (ids: map<WindowKey, Id>)
    requires forall i, j :: 0 <= i < j < |windows| ==> windows[i].key != windows[j].key
    ensures forall w :: w in windows ==> w.key in ids && ids[w.key] == w.id
    ensures forall key :: key in ids ==> exists w :: w in windows && w.key == key
  {
    ids := map[];
    for i := 0 to |windows|
      invariant forall j :: 0 <= j < i ==> windows[j].key in ids && ids[windows[j].key] == windows[j].id
      invariant forall key :: key in ids ==> exists w :: w in windows && w.key == key
    {
      ids := ids[windows[i].key := windows[i].id];
      assert windows[i] in windows;
    }
  }

  /** `latest_success_at`: the maximum over a dictionary that is not empty. */
  method LatestAccess(all: map<Hash, AccessEvent>) returns (latest: Time)
    requires all != map[]
    ensures forall x :: x in all ==> all[x].body.at <= latest
    ensures exists x :: x in all && all[x].body.at == latest
  {
    assert all.Keys != {};
    var last := Pick(all.Keys);
    latest := all[last].body.at;
    var todo := all.Keys - {last};
    while todo != {}
      invariant todo <= all.Keys && last in all && all[last].body.at == latest
      invariant forall x :: x in all && x !in todo ==> all[x].body.at <= latest
      decreases |todo|
    {
      var x := Pick(todo);
      if latest < all[x].body.at {
        last, latest := x, all[x].body.at;
      }
      todo := todo - {x};
    }
  }

  /** `relevant_chain`: the events of one run. */
  method RelevantChain(chain: seq<AccessEvent>, trial: Id, run: Option<Id>) returns (relevant: seq<AccessEvent>)
    ensures forall a :: a in relevant <==> a in chain && OfRun(a, trial, run)
    ensures relevant == [] <==> FirstOfRun(chain, trial, run) == |chain|
    ensures relevant != [] ==> relevant[0] == chain[FirstOfRun(chain, trial, run)]
  {
    hide FirstOfRun;
    relevant := [];
    ghost var first: nat := |chain|;
    for i := 0 to |chain|
      invariant forall a :: a in relevant <==> a in chain[..i] && OfRun(a, trial, run)
      invariant relevant == [] ==> first == |chain| && forall j :: 0 <= j < i ==> !OfRun(chain[j], trial, run)
      invariant relevant != [] ==> first < i && relevant[0] == chain[first] && OfRun(chain[first], trial, run)
      invariant forall j :: 0 <= j < first && j < i ==> !OfRun(chain[j], trial, run)
    {
      assert chain[..i + 1] == chain[..i] + [chain[i]];
      if OfRun(chain[i], trial, run) {
        if relevant == [] {
          first := i;
        }
        relevant := relevant + [chain[i]];
      }
    }
    assert chain[..|chain|] == chain;
    FirstOfRunIs(chain, trial, run, first);
  }

  lemma {:induction false} FirstOfRunIs(chain: seq<AccessEvent>, trial: Id, run: Option<Id>, first: nat)
    requires first <= |chain| && (first < |chain| ==> OfRun(chain[first], trial, run))
    requires forall j :: 0 <= j < first ==> !OfRun(chain[j], trial, run)
    ensures FirstOfRun(chain, trial, run) == first
  {
    hide FirstOfRun, OfRun;
  }

  function Selected(all: map<Hash, AccessEvent>, hashes: set<Hash>): set<AccessEvent>
    requires hashes <= all.Keys
  {
    set x | x in hashes :: all[x]
  }

  /** The window ids of some of the accesses, each looked up by its identity. */
  method LookUpWindows(r: Registration, ids: map<WindowKey, Id>, hashes: set<Hash>, all: map<Hash, AccessEvent>)
    returns (found: set<Id>)
    requires forall w :: w in r.windows ==> w.key in ids && ids[w.key] == w.id
    requires forall key :: key in ids ==> exists w :: w in r.windows && w.key == key
    requires hashes <= all.Keys && forall x :: x in all ==> all[x].body.request.window in ids
    ensures found == WindowIdsOf(r, Selected(all, hashes))
  {
    hide WindowIdsOf;
    found := set x | x in hashes :: ids[all[x].body.request.window];
    ghost var accesses := Selected(all, hashes);
    assert found == set a | a in accesses :: ids[a.body.request.window];
    IndexedIds(r, ids, accesses);
  }

  lemma {:induction false} ValuesByKey(all: map<Hash, AccessEvent>)
    ensures Selected(all, all.Keys) == all.Values
  {
    forall a | a in all.Values
      ensures a in Selected(all, all.Keys)
    {
      var x := KeyOf(all, a);
      assert x in all.Keys;
    }
  }

  lemma {:induction false} KeyOf<K, V>(m: map<K, V>, v: V) returns (k: K)
    requires v in m.Values
    ensures k in m && m[k] == v
  {
    k :| k in m && m[k] == v;
  }

  /** Looking identities up in the index gives the ids of the accessed windows. */
  lemma {:induction false} IndexedIds(r: Registration, ids: map<WindowKey, Id>, accesses: set<AccessEvent>)
    requires forall w :: w in r.windows ==> w.key in ids && ids[w.key] == w.id
    requires forall key :: key in ids ==> exists w :: w in r.windows && w.key == key
    requires forall a :: a in accesses ==> a.body.request.window in ids
    ensures (set a | a in accesses :: ids[a.body.request.window]) == WindowIdsOf(r, accesses)
  {
    forall a | a in accesses
      ensures ids[a.body.request.window] in WindowIdsOf(r, accesses)
    {
      var w :| w in r.windows && w.key == a.body.request.window;
      assert w.id in WindowIdsOf(r, accesses);
    }
    forall x | x in WindowIdsOf(r, accesses)
      ensures x in set a | a in accesses :: ids[a.body.request.window]
    {
      var a, w :| a in accesses && w in r.windows && w.key == a.body.request.window && x == w.id;
    }
  }

  // ---------------------------------------------------------------- the replay

  /** The local state of `replay_registry`. Trials are kept in registration order with an index
      from id to position, as a dictionary keeps them. */
  class Fold {
    const h: Hashes
    var accepted: seq<Event>
    var seen: map<Id, Event>
    var policies: seq<PolicyEntry>
    var trials: seq<MutableTrial>
    var index: map<Id, nat>
    var bound: set<Hash>
    var chain: seq<AccessEvent>

    ghost predicate Valid()
      reads this, trials
    {
      && (forall i, j :: 0 <= i < j < |trials| ==> trials[i] != trials[j])
      && (forall i :: 0 <= i < |trials| ==> trials[i].id in index && index[trials[i].id] == i)
      && (forall id :: id in index ==> index[id] < |trials| && trials[index[id]].id == id)
    }

    function View(): State
      reads this, trials
    {
      State(accepted, seen, policies, Values(trials), bound, chain)
    }

    constructor (h: Hashes)
      ensures Valid() && View() == EMPTY && this.h == h && trials == []
    {
      this.h := h;
      accepted, seen, policies, trials, index, bound, chain := [], map[], [], [], map[], {}, [];
    }

    /** The index finds exactly the trial the registration order finds. */
    lemma {:induction false} IndexFinds(id: Id)
      requires Valid()
      ensures FindTrial(View().trials, id) == if id in index then index[id] else |trials|
    {
      hide FindTrial, Values;
      var vs := View().trials;
      var k := FindTrial(vs, id);
      if k < |vs| {
        assert vs[k].id == trials[k].id;
      }
      if id in index {
        assert vs[index[id]].id == id;
      }
    }

    method GridPhase(p: Policy, r: Registration) returns (v: Verdict)
      ensures v == GridChecks(View().trials, p, r)
    {
      if r.gridClass == RegisteredGrid
         && !(p.axes.filter.Some? && p.axes.holding.Some? && p.axes.lookback.Some? && p.axes.rebalance.Some?) {
        return Crash;
      }
      if r.gridClass == RegisteredGrid && !OnGrid(p, CoordinateOf(r)) {
        return Reject(AxisOffGrid);
      }
      if p.role == ReportingOnly {
        if r.selectionCost.None? {
          return Reject(PrimaryCostMissing);
        }
      } else if p.role == SelectionEligible && r.selectionCost.Some? {
        return Reject(PrimaryCostForbidden);
      }
      if r.gridClass == RegisteredGrid {
        var disagrees := ScanGrid(trials, r);
        if disagrees {
          return Reject(IdCoordinateDisagree);
        }
      }
      return Accept;
    }

    method ParentPhase(p: Policy, r: Registration) returns (v: Verdict)
      requires Valid()
      ensures v == ParentChecks(View().trials, p, r)
    {
      hide FindTrial, Values;
      if r.parent.None? {
        return if p.predecessor.Some? then Reject(ParentRequired) else Accept;
      }
      IndexFinds(r.parent.value);
      if r.parent.value !in index {
        return Reject(ParentUnknown);
      }
      var q := trials[index[r.parent.value]].registration;
      if q.family != r.family {
        return Reject(ParentOtherFamily);
      }
      if q.hypothesis != r.hypothesis {
        return Reject(ParentOtherHypothesis);
      }
      if p.predecessor.Some? && q.policy != p.predecessor.value.policy {
        return Reject(ParentNotImmediate);
      }
      return if q.policyVersion >= r.policyVersion then Reject(ParentVersionNotEarlier) else Accept;
    }

    method LineagePhase(p: Policy, r: Registration, configuration: Hash) returns (v: Verdict)
      requires forall i, j :: 0 <= i < j < |trials| ==> trials[i].sequence < trials[j].sequence
      ensures v == (if StructuralChecks(View().trials, p, r) != Accept then StructuralChecks(View().trials, p, r)
                    else ConfigurationChecks(View().trials, configuration, r))
    {
      hide FirstConflict, LatestStructural, LatestConfiguration, Values;
      if p.predecessor.Some? {
        var moved, latest := ScanStructural(trials, r);
        if moved {
          return Reject(StructuralCoordinateChanged);
        }
        if latest >= 0 && r.parent != Some(trials[latest].id) {
          return Reject(StructuralParentNotLatest);
        }
      }
      var conflict, last := ScanConfigurations(trials, r, configuration);
      if conflict.Some? {
        return Reject(conflict.value);
      }
      return if last >= 0 && r.parent != Some(trials[last].id) then Reject(ConfigurationParentNotLatest) else Accept;
    }

    method PolicyPhase(id: Id, r: Registration) returns (v: Verdict)
      requires Valid()
      ensures v == PolicyChecks(View(), id, r)
    {
      hide FindTrial, FindPolicy, Values;
      IndexFinds(id);
      if id in index {
        return Reject(TrialIdReused);
      }
      var k := FindPolicy(policies, r.policy);
      if k == |policies| {
        return Reject(PolicyUnknown);
      }
      var p := policies[k].policy;
      if r.policy != policies[|policies| - 1].policy.id {
        return Reject(PolicyNotLatest);
      }
      if r.policyVersion != p.version {
        return Reject(PolicyVersionMismatch);
      }
      if policies[k].frozen.Some? {
        return Reject(FamilyFrozen);
      }
      if r.role != p.role {
        return Reject(CostRoleMismatch);
      }
      if p.mode == ProductionUnresolved {
        return Reject(ProductionBlocked);
      }
      return if p.costs.Some? && r.costs != p.costs.value then Reject(CostOrderMismatch) else Accept;
    }

    method JudgeRegistration(id: Id, r: Registration) returns (v: Verdict)
      requires Valid() && forall i, j :: 0 <= i < j < |trials| ==> trials[i].sequence < trials[j].sequence
      ensures v == RegisterVerdict(h, View(), id, r)
    {
      hide PolicyChecks, GridChecks, ParentChecks, StructuralChecks, ConfigurationChecks, FindPolicy,
        ConfigurationOf, Values;
      v := PolicyPhase(id, r);
      if v != Accept {
        return;
      }
      assert FindPolicy(policies, r.policy) < |policies| by { KnownPolicy(View(), id, r); }
      var p := policies[FindPolicy(policies, r.policy)].policy;
      v := GridPhase(p, r);
      if v != Accept {
        return;
      }
      v := ParentPhase(p, r);
      if v != Accept {
        return;
      }
      v := LineagePhase(p, r, h.configuration(ConfigurationOf(r)));
    }

    /** Registers a trial the checks accepted. */
    method AddTrial(e: Event)
      requires Valid() && e.body.kind.TrialRegistered? && e.body.kind.trial !in index
      modifies this
      ensures Valid() && fresh(Elements(trials) - old(Elements(trials)))
      ensures View() == KindEffect(h, old(View()), e)
    {
      hide Values, ConfigurationOf;
      var t := new MutableTrial(NewTrial(h, e));
      index := index[e.body.kind.trial := |trials|];
      trials := trials + [t];
      ValuesAppend(old(trials), t);
    }

    method UpdateTrial(k: nat, b: EventBody)
      requires Valid() && k < |trials| && !b.kind.PolicyRegistered? && !b.kind.TrialRegistered?
      modifies trials[k]
      ensures Valid() && Values(trials) == old(Values(trials))[k := ActOn(h, old(Values(trials)[k]), b)]
    {
      hide Values, ActOn;
      ghost var before := Values(trials);
      trials[k].Update(h, b);
      assert Values(trials) == before[k := trials[k].Value()];
    }

    /** What an event of a trial changes beside the trial itself. */
    method Settle(b: EventBody, policy: Id)
      requires Valid()
      modifies this`policies, this`bound, this`chain
      ensures Valid() && Values(trials) == old(Values(trials))
      ensures policies == if b.kind.TrialStarted? then Freeze(old(policies), policy, b.sequence) else old(policies)
      ensures bound == if b.kind.SampleAccessBound? then old(bound) + {b.kind.access.head} else old(bound)
      ensures chain == if b.kind.SampleAccessBound? then b.kind.access.chain else old(chain)
    {
      hide Values, Freeze;
      match b.kind {
        case TrialStarted(_, _, _) =>
          policies := Freeze(policies, policy, b.sequence);
        case SampleAccessBound(_, access) =>
          bound := bound + {access.head};
          chain := access.chain;
        case _ =>
      }
    }

    lemma {:induction false} IndexInRange(id: Id)
      requires Valid() && id in index
      ensures index[id] < |trials| && trials[index[id]] in Elements(trials)
    {}

    /** Acts on one open trial. */
    method Act(e: Event)
      requires Valid() && !e.body.kind.PolicyRegistered? && !e.body.kind.TrialRegistered? && e.body.kind.trial in index
      modifies this, Elements(trials)
      ensures Valid() && trials == old(trials) && View() == KindEffect(h, old(View()), e)
    {
      hide FindPolicy, FindTrial, Values, Freeze, ActOn, Valid, Elements;
      IndexFinds(e.body.kind.trial);
      IndexInRange(e.body.kind.trial);
      var k := index[e.body.kind.trial];
      var policy := trials[k].registration.policy;
      UpdateTrial(k, e.body);
      Settle(e.body, policy);
    }

    /** The decision on one event; it changes nothing. */
    method Decide(e: Event) returns (v: Verdict)
      requires Valid() && Inv(h, View())
      ensures v == Judge(h, View(), e)
    {
      hide Values, Inv, RegisterVerdict, PolicyVerdict, TrialVerdict, ValidEvent, Valid;
      var ok := ValidateEvent(h, e);
      if !ok {
        return Reject(Malformed);
      }
      if e.body.id in seen {
        return if seen[e.body.id] == e then Accept else Reject(EventIdReused);
      }
      if e.body.sequence != |accepted| + 1 {
        return Reject(SequenceGap);
      }
      if e.body.previous != Head(accepted) {
        return Reject(PreviousHashMismatch);
      }
      EventHasKind(h, e);
      match e.body.kind {
        case PolicyRegistered(p) =>
          v := JudgePolicy(p);
        case TrialRegistered(id, r) =>
          SequencesIncrease();
          v := JudgeRegistration(id, r);
        case _ =>
          v := JudgeAction(e.body);
      }
    }

    /** One event of the log. On a rejection the source abandons the whole replay, so nothing is
        promised about the state then. */
    method Apply(e: Event) returns (v: Verdict)
      requires Valid() && Inv(h, View())
      modifies this, Elements(trials)
      ensures v == Judge(h, old(View()), e)
      ensures v == Accept ==> Valid() && Inv(h, View()) && View() == Effect(h, old(View()), e)
      ensures fresh(Elements(trials) - old(Elements(trials)))
    {
      hide Values, Inv, KindEffect, Judge, Valid;
      v := Decide(e);
      if v == Accept {
        StepKeepsInv(h, View(), e);
        if !(e.body.id in seen && seen[e.body.id] == e) {
          Commit(e);
        }
      }
    }

    lemma {:induction false} SequencesIncrease()
      requires Inv(h, View())
      ensures forall i, j :: 0 <= i < j < |trials| ==> trials[i].sequence < trials[j].sequence
    {
      hide Values, FindPolicy, FindTrial, TrialOk, LogInv, LineageInv, AccessInv, LifeOk, PolicyInv;
      assert forall i :: 0 <= i < |trials| ==> View().trials[i].sequence == trials[i].sequence;
    }

    method JudgePolicy(p: Policy) returns (v: Verdict)
      ensures v == PolicyVerdict(h, View(), p)
    {
      hide FindPolicy, Values;
      if FindPolicy(policies, p.id) < |policies| {
        return Reject(PolicyIdReused);
      }
      if policies == [] {
        return if p.predecessor.Some? then Reject(FirstPolicyHasPredecessor) else Accept;
      }
      var latest := policies[|policies| - 1].policy;
      if p.version <= latest.version {
        return Reject(VersionNotIncreasing);
      }
      if p.predecessor.None? || p.predecessor.value.policy != latest.id {
        return Reject(PredecessorNotLatest);
      }
      if p.binding.sha == latest.binding.sha {
        return Reject(PolicyArtifactUnchanged);
      }
      if p.predecessor.value.head != Head(accepted) {
        return Reject(PredecessorHeadMismatch);
      }
      var state := h.state(RegistryDocument(policies, Values(trials), bound));
      return if p.predecessor.value.state != state then Reject(PredecessorStateMismatch) else Accept;
    }

    /** What the invariant guarantees the trial branches: their lookups cannot miss. */
    lemma {:induction false} TrialFactsAt(k: nat)
      requires Valid() && Inv(h, View()) && k < |trials|
      ensures FindPolicy(policies, trials[k].registration.policy) < |policies|
      ensures LifeOk(trials[k].Value()) && ValidRegistration(trials[k].registration)
      ensures var all := Successes(Concat(trials[k].bindings), trials[k].id);
        forall x :: x in all ==> all[x].body.request.window in RegisteredKeys(trials[k].registration)
    {
      hide Values, FindTrial, FindPolicy, Successes, Concat, LogInv, LineageInv, AccessInv, LifeOk, PolicyInv,
        ValidRegistration,
        RegisteredKeys, ConfigurationOf, ValidPolicy, OnGrid;
      assert View().trials[k] == trials[k].Value();
      assert TrialOk(h, policies, trials[k].Value());
      IndexFinds(trials[k].id);
      BoundWindows(h, View(), k);
    }

    method JudgeStart(t: MutableTrial, run: Id, retryReason: Option<Id>) returns (v: Verdict)
      requires FindPolicy(policies, t.registration.policy) < |policies| && LifeOk(t.Value())
      ensures v == StartVerdict(View(), t.Value(), run, retryReason)
    {
      hide FindPolicy, FindPlan, Values;
      match t.status {
        case Registered =>
          if retryReason.Some? {
            return Reject(InitialRunHasRetryReason);
          }
        case Running =>
          if retryReason.None? {
            return Reject(RetryReasonMissing);
          }
          if t.outcomes != [] {
            return Reject(RetryAfterOutcome);
          }
        case Closed(_) =>
          return Reject(BadStartState);
      }
      var runs := set a | a in t.attempts :: a.run;
      return if run in runs then Reject(RunIdReused) else Accept;
    }

    /** The chain of a binding against the acknowledged one. */
    method JudgeChain(t: MutableTrial, chain: seq<AccessEvent>, relevant: seq<AccessEvent>) returns (v: Verdict)
      requires t.attempts != []
      requires relevant == [] <==> FirstOfRun(chain, t.id, t.run) == |chain|
      requires relevant != [] ==> relevant[0] == chain[FirstOfRun(chain, t.id, t.run)]
      ensures v == ChainChecks(View(), t.Value(), chain)
    {
      hide FirstOfRun, Values;
      var n := |this.chain|;
      if n > 0 {
        if |chain| <= n {
          return Reject(ChainNotExtended);
        }
        if chain[..n] != this.chain {
          return Reject(ChainForked);
        }
      }
      if exists i :: n <= i < |chain| && !OfRun(chain[i], t.id, t.run) {
        return Reject(SuffixForeign);
      }
      return if relevant == [] || relevant[0].body.kind != Attempt then Reject(RunNotBegunByAttempt) else Accept;
    }

    /** The events of the run against the trial's registration. */
    method JudgeRun(t: MutableTrial, at: Time, chain: seq<AccessEvent>, relevant: seq<AccessEvent>) returns (v: Verdict)
      requires t.attempts != [] && chain != []
      requires forall a :: a in relevant <==> a in chain && OfRun(a, t.id, t.run)
      ensures v == RunChecks(View(), t.Value(), at, chain)
    {
      hide Values, FrozenArtifacts, FrozenData, RegisteredKeys;
      var began := Max(t.at, t.attempts[|t.attempts| - 1].startedAt);
      if exists a :: a in relevant && a.body.at < began {
        return Reject(AccessBeforeStart);
      }
      if exists a :: a in relevant && a.body.at > at {
        return Reject(AccessAfterBinding);
      }
      var access := chain[|chain| - 1];
      if access.hash in bound {
        return Reject(AccessAlreadyBound);
      }
      var keys := RegisteredKeys(t.registration);
      if access.body.request.window !in keys || exists a :: a in relevant && a.body.request.window !in keys {
        return Reject(WindowNotRegistered);
      }
      var registration := AccessArtifact(REGISTRATION_ARTIFACT, t.hash);
      if exists a :: a in relevant && registration !in a.body.request.artifacts {
        return Reject(RegistrationArtifactMissing);
      }
      var expected, data := FrozenArtifacts(t.Value()), FrozenData(t.Value());
      if exists a :: a in relevant
                     && (Elements(a.body.request.artifacts) != expected || a.body.request.window.vintageSha !in data) {
        return Reject(ArtifactsNotFrozen);
      }
      return Accept;
    }

    method JudgeAccess(t: MutableTrial, at: Time, b: AccessBinding) returns (v: Verdict)
      requires FindPolicy(policies, t.registration.policy) < |policies| && LifeOk(t.Value()) && b.chain != []
      ensures v == AccessVerdict(View(), t.Value(), at, b)
    {
      hide FindPolicy, FindPlan, Values, ChainChecks, RunChecks, FirstOfRun;
      if t.status != Running {
        return Reject(AccessNotRunning);
      }
      if b.registration != t.hash {
        return Reject(RegistrationHashMismatch);
      }
      if b.contract != policies[FindPolicy(policies, t.registration.policy)].policy.manifest {
        return Reject(ContractMismatch);
      }
      if Some(b.chain[|b.chain| - 1].body.request.run) != t.run {
        return Reject(AccessRunMismatch);
      }
      var relevant := RelevantChain(b.chain, t.id, t.run);
      v := JudgeChain(t, b.chain, relevant);
      if v == Accept {
        v := JudgeRun(t, at, b.chain, relevant);
      }
    }

    /** The part of the outcome branch after the plan is found; both window lookups are plain
        dictionary selections. */
    method JudgePlan(t: MutableTrial, o: Outcome, plan: Plan, all: map<Hash, AccessEvent>) returns (v: Verdict)
      requires ValidWindows(t.registration.windows) && o.cited <= all.Keys
      requires forall x :: x in all ==> all[x].body.request.window in RegisteredKeys(t.registration)
      ensures v == PlanVerdict(t.Value(), o, plan, all)
    {
      hide WindowIdsOf, Elements;
      var ids := IndexWindows(t.registration.windows);
      assert forall x :: x in all ==> all[x].body.request.window in ids;
      hide RegisteredKeys, ValidWindows;
      var cited := LookUpWindows(t.registration, ids, o.cited, all);
      assert Selected(all, o.cited) == set x | x in o.cited :: all[x];
      if cited != Elements(plan.windows) {
        return Reject(CitedWindowsMismatch);
      }
      var exposed := LookUpWindows(t.registration, ids, all.Keys, all);
      ValuesByKey(all);
      if exposed != Elements(plan.windows) {
        return Reject(ExposedWindowsMismatch);
      }
      if o.binding.artifact != plan.artifact {
        return Reject(OutcomeArtifactMismatch);
      }
      if o.measure != plan.measure {
        return Reject(ReportMismatch);
      }
      var plans, artifacts := set p | p in t.outcomes :: p.plan, set p | p in t.outcomes :: p.binding.artifact;
      if o.plan in plans {
        return Reject(OutcomeDuplicated);
      }
      return if o.binding.artifact in artifacts then Reject(OutcomeArtifactDuplicated) else Accept;
    }

    method JudgeOutcome(t: MutableTrial, at: Time, o: Outcome) returns (v: Verdict)
      requires ValidRegistration(t.registration) && LifeOk(t.Value()) && t.status == Running
      requires var all := Successes(Concat(t.bindings), t.id);
        forall x :: x in all ==> all[x].body.request.window in RegisteredKeys(t.registration)
      ensures v == OutcomeVerdict(t.Value(), at, o)
    {
      hide Successes, Concat, FindPlan, PlanVerdict, ValidPlans, ValidArtifacts, ValidWindows, RegisteredKeys;
      var all := CollectSuccesses(t.bindings, t.id);
      var current := set x | x in all && Some(all[x].body.request.run) == t.run;
      if o.cited == {} || !(o.cited <= current) {
        return Reject(CitationNotCurrent);
      }
      var some: Hash := Pick(o.cited);
      assert some in all;
      var latest := LatestAccess(all);
      if at < Max(Max(t.at, t.attempts[|t.attempts| - 1].startedAt), latest) {
        return Reject(OutcomeTooEarly);
      }
      var k := FindPlan(t.registration.plans, o.plan);
      if k == |t.registration.plans| {
        return Reject(PlanUnknown);
      }
      v := JudgePlan(t, o, t.registration.plans[k], all);
    }

    method JudgeEnd(t: MutableTrial, terminal: Terminal) returns (v: Verdict)
      ensures v == EndVerdict(t.Value(), terminal)
    {
      if terminal == Completed {
        var planned, observed := set p | p in t.registration.plans :: p.id, set o | o in t.outcomes :: o.plan;
        if t.status != Running || observed != planned {
          return Reject(Incomplete);
        }
      }
      return Accept;
    }

    method JudgeAction(b: EventBody) returns (v: Verdict)
      requires Valid() && Inv(h, View()) && !b.kind.PolicyRegistered? && !b.kind.TrialRegistered?
        && ValidKind(h, b.kind)
      ensures v == TrialVerdict(h, View(), b)
    {
      hide FindTrial, FindPolicy, Values, StartVerdict, AccessVerdict, OutcomeVerdict, EndVerdict, ValidChain, Inv,
        LifeOk,
        ValidRegistration, RegisteredKeys, Successes, Concat;
      IndexFinds(b.kind.trial);
      if b.kind.trial !in index {
        return Reject(TrialUnknown);
      }
      var k := index[b.kind.trial];
      var t := trials[k];
      if t.status.Closed? {
        return Reject(TrialClosed);
      }
      TrialFactsAt(k);
      match b.kind {
        case TrialStarted(_, run, reason) => v := JudgeStart(t, run, reason);
        case SampleAccessBound(_, access) => v := JudgeAccess(t, b.at, access);
        case OutcomeRecorded(_, o) =>
          if t.status != Running {
            return Reject(OutcomeNotRunning);
          }
          v := JudgeOutcome(t, b.at, o);
        case TrialEnded(_, terminal, _) => v := JudgeEnd(t, terminal);
      }
    }

    /** The effect of an accepted event on policies, trials and the access chain. */
    method Change(e: Event)
      requires Valid() && Judge(h, View(), e) == Accept && !Repeat(View(), e)
      modifies this, Elements(trials)
      ensures Valid() && View() == KindEffect(h, old(View()), e)
      ensures fresh(Elements(trials) - old(Elements(trials)))
    {
      hide Values, FindTrial, FindPolicy, Judge, Freeze, ActOn, NewTrial;
      if e.body.kind.PolicyRegistered? {
        policies := policies + [PolicyEntry(e.body.kind.policy, None)];
      } else if e.body.kind.TrialRegistered? {
        hide KindEffect, Valid;
        NewId(e);
        AddTrial(e);
      } else {
        hide KindEffect, Valid;
        KnownId(e);
        Act(e);
      }
    }

    method Commit(e: Event)
      requires Valid() && Judge(h, View(), e) == Accept && !Repeat(View(), e)
      modifies this, Elements(trials)
      ensures Valid() && View() == Effect(h, old(View()), e)
      ensures fresh(Elements(trials) - old(Elements(trials)))
    {
      hide Values, Judge, KindEffect;
      LogUntouched(h, View(), e);
      Change(e);
      accepted := accepted + [e];
      seen := seen[e.body.id := e];
    }

    lemma {:induction false} NewId(e: Event)
      requires Valid() && Judge(h, View(), e) == Accept && !Repeat(View(), e) && e.body.kind.TrialRegistered?
      ensures e.body.kind.trial !in index
    {
      hide Values, FindTrial, FindPolicy, GridChecks, ParentChecks, StructuralChecks, ConfigurationChecks,
        ConfigurationOf,
        ValidRegistration;
      IndexFinds(e.body.kind.trial);
      RegisterFacts(h, View(), e.body.kind.trial, e.body.kind.registration);
    }

    lemma {:induction false} KnownId(e: Event)
      requires Valid() && Judge(h, View(), e) == Accept && !Repeat(View(), e)
      requires !e.body.kind.PolicyRegistered? && !e.body.kind.TrialRegistered?
      ensures e.body.kind.trial in index
    {
      hide Values, FindTrial, FindPolicy;
      IndexFinds(e.body.kind.trial);
      EffectShape(h, View(), e);
    }
  }

  /** In the state of an accepted log every success a trial has bound matches one of its windows. */
  lemma {:induction false} BoundWindows(h: Hashes, st: State, k: nat)
    requires Inv(h, st) && k < |st.trials| && FindTrial(st.trials, st.trials[k].id) == k
    ensures LifeOk(st.trials[k])
    ensures var all := Successes(Concat(st.trials[k].bindings), st.trials[k].id);
      forall x :: x in all ==> all[x].body.request.window in RegisteredKeys(st.trials[k].registration)
  {
    hide FindTrial, FindPolicy, Successes, Concat, LogInv, LineageInv, LifeOk, PolicyInv, TrialInv, ValidChain,
      AccessOk,
      TrialAccessOk, RegisteredKeys;
    forall x | x in Successes(Concat(st.trials[k].bindings), st.trials[k].id)
      ensures Successes(Concat(st.trials[k].bindings), st.trials[k].id)[x].body.request.window
              in RegisteredKeys(st.trials[k].registration)
    {
      SuccessWindows(st, k, x);
    }
  }

  lemma {:induction false} LogUntouched(h: Hashes, st: State, e: Event)
    ensures KindEffect(h, st, e).accepted == st.accepted && KindEffect(h, st, e).seen == st.seen
  {
    hide FindTrial, FindPolicy, ActOn, Freeze, NewTrial;
  }

  lemma {:induction false} EventHasKind(h: Hashes, e: Event)
    requires ValidEvent(h, e)
    ensures ValidKind(h, e.body.kind)
  {
    hide ValidKind;
  }

  lemma {:induction false} KnownPolicy(st: State, id: Id, r: Registration)
    requires PolicyChecks(st, id, r) == Accept
    ensures FindPolicy(st.policies, r.policy) < |st.policies|
  {
    hide FindPolicy, FindTrial;
  }

  lemma {:induction false} ValuesAppend(ts: seq<MutableTrial>, t: MutableTrial)
    ensures Values(ts + [t]) == Values(ts) + [t.Value()]
  {
    assert (ts + [t])[..|ts|] == ts;
  }

  // ------------------------------------------------------------------- payloads

  /** `_validate_planned_outcomes` with its sets of plan and artifact ids. */
  method ValidatePlans(r: Registration) returns (ok: bool)
    ensures ok <==> ValidPlans(r)
  {
    if r.plans == [] {
      return false;
    }
    var planIds: set<Id>, artifactIds: set<Id>, costs: set<Id> := {}, {}, {};
    var windowIds := WindowIds(r.windows);
    for i := 0 to |r.plans|
      invariant planIds == set k | 0 <= k < i :: r.plans[k].id
      invariant artifactIds == set k | 0 <= k < i :: r.plans[k].artifact
      invariant costs == set k | 0 <= k < i :: r.plans[k].measure.cost
      invariant forall k :: 0 <= k < i ==> PlanOk(r, r.plans[k])
      invariant forall j, k :: 0 <= j < k < i ==>
        r.plans[j].id != r.plans[k].id && r.plans[j].artifact != r.plans[k].artifact
    {
      var p := r.plans[i];
      if !PlanOk(r, p) || p.id in planIds || p.artifact in artifactIds {
        assert p in r.plans;
        return false;
      }
      planIds, artifactIds, costs := planIds + {p.id}, artifactIds + {p.artifact}, costs + {p.measure.cost};
    }
    assert costs == set p | p in r.plans :: p.measure.cost;
    return |r.plans| == |r.costs| && costs == Elements(r.costs);
  }

  predicate PlanOk(r: Registration, p: Plan)
    requires r.plans != []
  {
    && p.windows != [] && Distinct(p.windows) && Elements(p.windows) <= WindowIds(r.windows)
    && p.measure.cost in r.costs
    && p.role == ExpectedRole(r.role, r.selectionCost, p.measure.cost)
    && Elements(p.windows) == Elements(r.plans[0].windows)
  }

  /** `len(set(items)) == len(items)`. */
  method ValidateUnique<T(==)>(items: seq<T>) returns (ok: bool)
    ensures ok <==> Distinct(items)
  {
    var seen: set<T> := {};
    for i := 0 to |items|
      invariant seen == Elements(items[..i])
    {
      assert items[..i + 1] == items[..i] + [items[i]];
      seen := seen + {items[i]};
    }
    assert items[..|items|] == items;
    if |seen| == |items| {
      CountDistinct(items);
    }
    if Distinct(items) {
      DistinctCount(items);
    }
    return |seen| == |items|;
  }

  method ValidateAxis(values: Option<seq<Id>>, cardinality: int) returns (ok: bool)
    ensures ok <==> AxisOk(values, cardinality)
  {
    if values.None? {
      return true;
    }
    ok := ValidateUnique(values.value);
    ok := ok && |values.value| == cardinality;
  }

  /** `RegistryPolicy.__post_init__`: bindings, axes, costs, then what the mode demands. */
  method ValidatePolicy(p: Policy) returns (ok: bool)
    ensures ok <==> ValidPolicy(p)
  {
    hide AxisOk;
    var filter := ValidateAxis(p.axes.filter, FILTERS);
    var holding := ValidateAxis(p.axes.holding, HOLDINGS);
    var lookback := ValidateAxis(p.axes.lookback, LOOKBACKS);
    var rebalance := ValidateAxis(p.axes.rebalance, REBALANCES);
    var costs := ValidateAxis(p.costs, COSTS);
    if p.version < 1 || p.accessSchema.artifact != ACCESS_SCHEMA || p.manifest.artifact != GOVERNANCE_CONTRACT {
      return false;
    }
    if !(filter && holding && lookback && rebalance && costs) || (p.family.Some? && p.family.value < 1) {
      return false;
    }
    if p.mode == ProductionUnresolved {
      return p.axes.lookback.None? && p.axes.holding.None? && p.axes.rebalance.None? && p.costs.None?
        && p.role == RoleUnregistered && p.family.None?;
    }
    if p.axes.filter.None? || p.axes.holding.None? || p.axes.lookback.None? || p.axes.rebalance.None? || p.costs.None? {
      return false;
    }
    var structural := FILTERS * HOLDINGS * LOOKBACKS * REBALANCES;
    match p.role {
      case ReportingOnly => return p.family == Some(structural);
      case SelectionEligible => return p.family == Some(structural * COSTS);
      case RoleUnregistered => return false;
    }
  }

  /** `_validate_sample_windows` with its sets of identities and ids. */
  method ValidateWindows(windows: seq<Window>) returns (ok: bool)
    ensures ok <==> ValidWindows(windows)
  {
    if windows == [] {
      return false;
    }
    var identities: set<WindowKey>, ids: set<Id> := {}, {};
    for i := 0 to |windows|
      invariant identities == set k | 0 <= k < i :: windows[k].key
      invariant ids == set k | 0 <= k < i :: windows[k].id
      invariant forall k :: 0 <= k < i ==> WindowOk(windows[k])
      invariant forall j, k :: 0 <= j < k < i ==> windows[j].key != windows[k].key && windows[j].id != windows[k].id
    {
      var w := windows[i];
      if !WindowOk(w) || w.key in identities || w.id in ids {
        return false;
      }
      identities, ids := identities + {w.key}, ids + {w.id};
    }
    return true;
  }

  predicate WindowOk(w: Window) {
    && w.key.start <= w.key.end <= DateOf(w.key.analysisAsOf)
    && w.key.vintageAt <= w.key.analysisAsOf
  }

  function Identities(a: seq<Artifact>): seq<(ArtifactRole, Id)> {
    seq(|a|, i requires 0 <= i < |a| => (a[i].role, a[i].artifact))
  }

  function ContentIdentities(a: seq<Artifact>): seq<(ArtifactRole, Hash)> {
    seq(|a|, i requires 0 <= i < |a| => (a[i].role, a[i].sha))
  }

  /** The artifact bindings: unique identities, unique contents, every required role. */
  method ValidateArtifacts(a: seq<Artifact>) returns (ok: bool)
    ensures ok <==> ValidArtifacts(a)
  {
    var identities := ValidateUnique(Identities(a));
    var contents := ValidateUnique(ContentIdentities(a));
    UniqueArtifacts(a);
    var roles := set x | x in a :: x.role;
    return identities && contents
      && roles == {AgentOverlay, Benchmark, Code, Config, Cost, Data, Filter, HoldingPeriod, Lookback, Rebalance,
                   Schema, Signal, Tax, Universe};
  }

  lemma {:induction false} UniqueArtifacts(a: seq<Artifact>)
    ensures Distinct(Identities(a)) && Distinct(ContentIdentities(a)) <==>
      forall i, j :: 0 <= i < j < |a| && a[i].role == a[j].role ==>
        a[i].artifact != a[j].artifact && a[i].sha != a[j].sha
  {
    forall i, j | 0 <= i < j < |a|
      ensures Identities(a)[i] != Identities(a)[j] <==> a[i].role != a[j].role || a[i].artifact != a[j].artifact
      ensures ContentIdentities(a)[i] != ContentIdentities(a)[j] <==> a[i].role != a[j].role || a[i].sha != a[j].sha
    {
    }
  }

  /** `_validate_trial_registration`. */
  method ValidateRegistration(r: Registration) returns (ok: bool)
    ensures ok <==> ValidRegistration(r)
  {
    hide ValidPlans, ValidWindows, ValidArtifacts, Distinct;
    var artifacts := ValidateArtifacts(r.artifacts);
    var costs := ValidateUnique(r.costs);
    if !artifacts || r.costs == [] || !costs {
      return false;
    }
    if r.selectionCost.Some? && r.selectionCost.value !in r.costs {
      return false;
    }
    var windows := ValidateWindows(r.windows);
    var plans := ValidatePlans(r);
    return windows && r.policyVersion >= 1 && plans;
  }

  /** `ExperimentEvent.__post_init__`: payload, then digest. */
  method ValidateEvent(h: Hashes, e: Event) returns (ok: bool)
    ensures ok <==> ValidEvent(h, e)
  {
    hide ValidChain, ValidRegistration, ValidPolicy;
    match e.body.kind {
      case PolicyRegistered(p) =>
        ok := ValidatePolicy(p);
      case TrialRegistered(_, r) =>
        ok := ValidateRegistration(r);
      case TrialStarted(_, _, _) =>
        ok := true;
      case SampleAccessBound(t, b) =>
        if b.contract.artifact != GOVERNANCE_CONTRACT || b.chain == [] {
          return false;
        }
        var linked := ValidateChain(h.access, b.chain);
        var head := b.chain[|b.chain| - 1];
        ok := linked && head.body.request.trial == t && head.hash == b.head;
      case OutcomeRecorded(_, o) =>
        ok := o.cited != {};
      case TrialEnded(_, t, reason) =>
        ok := t == Completed <==> reason.None?;
    }
    ok := ok && e.body.sequence >= 1 && e.hash == h.event(e.body);
  }

  lemma {:induction false} ReplayNext(h: Hashes, st: State, log: seq<Event>, i: nat)
    requires i < |log|
    ensures ReplayFrom(h, st, log[i..]) ==
      match Judge(h, st, log[i])
      case Accept => ReplayFrom(h, Effect(h, st, log[i]), log[i + 1..])
      case Reject(r) => Refused(r)
      case Crash => Crashed
  {
    hide Judge, Effect;
    assert log[i..][0] == log[i] && log[i..][1..] == log[i + 1..];
  }

  /** The whole pass equals the fold, for every log. */
  method ReplayRegistry(h: Hashes, log: seq<Event>) returns (r: Replayed)
    ensures r == Replay(h, log)
  {
    hide Inv, Effect, Judge, Fold.View, Fold.Valid, ReplayFrom, Replay;
    var fold := new Fold(h);
    ReplayStarts(h, log);
    NoTrials(fold.trials);
    for i := 0 to |log|
      invariant fold.h == h && fold.Valid() && Inv(h, fold.View())
      invariant fresh(fold) && fresh(Elements(fold.trials))
      invariant Replay(h, log) == ReplayFrom(h, fold.View(), log[i..])
    {
      ReplayNext(h, fold.View(), log, i);
      var v := fold.Apply(log[i]);
      match v {
        case Accept =>
        case Reject(reason) => return Refused(reason);
        case Crash => return Crashed;
      }
    }
    r := Loaded(fold.View());
    ReplayNothing(h, fold.View(), log);
  }

  lemma {:induction false} NoTrials(ts: seq<MutableTrial>)
    requires ts == []
    ensures Elements(ts) == {}
  {}

  lemma {:induction false} ReplayStarts(h: Hashes, log: seq<Event>)
    ensures Inv(h, EMPTY) && Replay(h, log) == ReplayFrom(h, EMPTY, log[0..])
  {
    hide Inv, Judge, Effect;
    assert log[0..] == log;
    ReplayInv(h, []);
  }

  lemma {:induction false} ReplayNothing(h: Hashes, st: State, log: seq<Event>)
    ensures ReplayFrom(h, st, log[|log|..]) == Loaded(st)
  {}
}
