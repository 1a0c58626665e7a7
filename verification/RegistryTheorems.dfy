/** What holds of every run of the registry: no crash, dead checks, immutability, idempotent
    repeats, and a head digest that pins the whole log. */
module RegistryTheorems {
  import opened Basics
  import opened AccessChain
  import opened RegistryModel
  import opened Registry
  import opened RegistryInvariant

  // ------------------------------------------------------- crashes and dead checks

  /** Rejections that exist in the code but that no log can provoke; the last needs a
      collision-free access digest. */
  ghost predicate Dead(h: Hashes, r: Reason) {
    || r in {CoordinateOutsideGrid, CoordinateAliased, BadStartState, RunNotBegunByAttempt, OutcomeArtifactDuplicated}
    || (r == AccessAlreadyBound && Injective(h.access))
  }

  ghost predicate Sound(h: Hashes, v: Verdict) {
    v != Crash && (v.Reject? ==> !Dead(h, v.reason))
  }

  lemma {:induction false} RegisterSound(h: Hashes, st: State, id: Id, r: Registration)
    requires PolicyInv(st.policies)
    ensures Sound(h, RegisterVerdict(h, st, id, r))
  {
    hide FindPolicy, FindTrial, PolicyChecks, GridChecks, ParentChecks, StructuralChecks, ConfigurationChecks,
      ConfigurationOf, Sound;
    var k := FindPolicy(st.policies, r.policy);
    PolicyChecksSound(h, st, id, r);
    if PolicyChecks(st, id, r) == Accept {
      var p := st.policies[k].policy;
      GridSound(h, st.trials, p, r);
      ParentSound(h, st.trials, p, r);
      StructuralSound(h, st.trials, p, r);
      if GridChecks(st.trials, p, r) == Accept {
        ConfigurationSound(h, st.trials, p, h.configuration(ConfigurationOf(r)), r);
      }
    }
  }

  lemma {:induction false} PolicyChecksSound(h: Hashes, st: State, id: Id, r: Registration)
    requires PolicyInv(st.policies)
    ensures Sound(h, PolicyChecks(st, id, r))
    ensures PolicyChecks(st, id, r) == Accept ==>
      var k := FindPolicy(st.policies, r.policy);
      k < |st.policies| && ValidPolicy(st.policies[k].policy) && st.policies[k].policy.mode == SyntheticTestOnly
  {
    hide FindPolicy, FindTrial, ValidPolicy, Injective;
  }

  lemma {:induction false} GridSound(h: Hashes, ts: seq<Trial>, p: Policy, r: Registration)
    requires ValidPolicy(p) && p.mode == SyntheticTestOnly
    ensures Sound(h, GridChecks(ts, p, r))
  {
    hide OnGrid, Disagrees, Injective;
  }

  lemma {:induction false} ParentSound(h: Hashes, ts: seq<Trial>, p: Policy, r: Registration)
    ensures Sound(h, ParentChecks(ts, p, r))
  {
    hide FindTrial;
  }

  lemma {:induction false} StructuralSound(h: Hashes, ts: seq<Trial>, p: Policy, r: Registration)
    ensures Sound(h, StructuralChecks(ts, p, r))
  {
    hide LatestStructural;
  }

  /** A coordinate shared with another grid trial of the policy means a shared structural id
      once the grid checks pass, so the alias check is never the one that fires. */
  lemma {:induction false} ConfigurationSound(h: Hashes, ts: seq<Trial>, p: Policy, configuration: Hash,
                                              r: Registration)
    requires GridChecks(ts, p, r) == Accept
    ensures Sound(h, ConfigurationChecks(ts, configuration, r))
  {
    hide FirstConflict, LatestConfiguration, OnGrid;
    assert forall i :: 0 <= i < |ts| ==> ts[i] in ts && Conflict(r, configuration, ts[i]) != Some(CoordinateAliased);
  }

  lemma {:induction false} StartSound(h: Hashes, st: State, t: Trial, run: Id, reason: Option<Id>)
    requires TrialOk(h, st.policies, t) && LifeOk(t) && !t.status.Closed?
    ensures Sound(h, StartVerdict(st, t, run, reason))
  {
    hide FindPolicy, ValidRegistration, ConfigurationOf, ValidPolicy, FindPlan;
  }

  /** A strictly longer chain ends in a digest that was never bound before. */
  lemma {:induction false} FreshHead(h: Hashes, st: State, chain: seq<AccessEvent>)
    requires ValidChain(h.access, chain) && st.chain < chain && Injective(h.access)
    requires forall x :: x in st.bound ==> exists i :: 0 <= i < |st.chain| && st.chain[i].hash == x
    ensures chain[|chain| - 1].hash !in st.bound
  {
    hide ValidChain;
    forall x | x in st.bound
      ensures chain[|chain| - 1].hash != x
    {
      var i :| 0 <= i < |st.chain| && st.chain[i].hash == x;
      assert chain[i] == st.chain[i];
      ChainHashesDiffer(h.access, chain, i, |chain| - 1);
    }
  }

  lemma {:induction false} AccessSound(h: Hashes, st: State, t: Trial, at: Time, b: AccessBinding)
    requires TrialOk(h, st.policies, t) && LifeOk(t)
    requires forall x :: x in st.bound ==> exists i :: 0 <= i < |st.chain| && st.chain[i].hash == x
    requires b.chain != [] && ValidChain(h.access, b.chain) && b.chain[|b.chain| - 1].body.request.trial == t.id
    ensures Sound(h, AccessVerdict(st, t, at, b))
  {
    hide FindPolicy, ValidRegistration, ConfigurationOf, ValidPolicy, FindPlan, ValidChain, ChainChecks, RunChecks,
      Injective;
    if t.status == Running && Some(b.chain[|b.chain| - 1].body.request.run) == t.run {
      ChainSound(h, st, t, b.chain);
      if ChainChecks(st, t, b.chain) == Accept {
        RunSound(h, st, t, at, b.chain);
      }
    }
  }

  lemma {:induction false} ChainSound(h: Hashes, st: State, t: Trial, chain: seq<AccessEvent>)
    requires chain != [] && ValidChain(h.access, chain) && t.attempts != [] && OfRun(chain[|chain| - 1], t.id, t.run)
    ensures Sound(h, ChainChecks(st, t, chain))
    ensures ChainChecks(st, t, chain) == Accept ==> st.chain < chain
  {
    hide ValidChain, FirstOfRun, Injective;
    FirstOfRunIsAttempt(h.access, chain, t.id, t.run.value, FirstOfRun(chain, t.id, t.run));
  }

  lemma {:induction false} RunSound(h: Hashes, st: State, t: Trial, at: Time, chain: seq<AccessEvent>)
    requires ValidChain(h.access, chain) && t.attempts != [] && st.chain < chain
    requires forall x :: x in st.bound ==> exists i :: 0 <= i < |st.chain| && st.chain[i].hash == x
    ensures Sound(h, RunChecks(st, t, at, chain))
  {
    hide ValidChain, Injective, MatchesFrozen, RegisteredKeys;
    if Injective(h.access) {
      FreshHead(h, st, chain);
    }
  }

  /** Every success a trial has bound matches one of its windows. */
  lemma {:induction false} SuccessWindows(st: State, k: nat, x: Hash)
    requires k < |st.trials| && FindTrial(st.trials, st.trials[k].id) == k
    requires TrialAccessOk(st.chain, st.trials[k])
    requires forall i :: 0 <= i < |st.chain| ==> AccessOk(st.trials, st.chain[i])
    requires x in Successes(Concat(st.trials[k].bindings), st.trials[k].id)
    ensures Successes(Concat(st.trials[k].bindings), st.trials[k].id)[x].body.request.window
            in RegisteredKeys(st.trials[k].registration)
  {
    hide Successes, Concat, FindTrial;
    var j := SuccessInChain(st.chain, st.trials[k], x);
    assert AccessOk(st.trials, st.chain[j]);
  }

  lemma {:induction false} PlanSound(h: Hashes, t: Trial, o: Outcome, k: nat, all: map<Hash, AccessEvent>)
    requires LifeOk(t) && ValidRegistration(t.registration) && o.cited <= all.Keys
    requires k < |t.registration.plans| && o.plan == t.registration.plans[k].id
    requires forall x :: x in all ==> all[x].body.request.window in RegisteredKeys(t.registration)
    ensures Sound(h, PlanVerdict(t, o, t.registration.plans[k], all))
  {
    hide FindPlan, RegisteredKeys, WindowIdsOf, ValidWindows, ValidArtifacts;
    forall p | p in t.outcomes && p.plan != o.plan
      ensures p.binding.artifact != t.registration.plans[k].artifact
    {
      var i :| 0 <= i < |t.outcomes| && t.outcomes[i] == p;
      assert Planned(t.registration, t.outcomes[i]);
    }
  }

  lemma {:induction false} OutcomeShape(h: Hashes, t: Trial, at: Time, o: Outcome, all: map<Hash, AccessEvent>)
    requires t.attempts != [] && all == Successes(Concat(t.bindings), t.id)
    requires var k := FindPlan(t.registration.plans, o.plan);
      k < |t.registration.plans| && o.cited <= all.Keys ==> Sound(h, PlanVerdict(t, o, t.registration.plans[k], all))
    ensures Sound(h, OutcomeVerdict(t, at, o))
  {
    hide Successes, Concat, PlanVerdict, FindPlan, Injective;
    assert o.cited <= all.Keys && all == map[] ==> o.cited == {};
  }

  lemma {:induction false} OutcomeSound(h: Hashes, st: State, k: nat, at: Time, o: Outcome)
    requires k < |st.trials| && FindTrial(st.trials, st.trials[k].id) == k && st.trials[k].status == Running
    requires LifeOk(st.trials[k]) && ValidRegistration(st.trials[k].registration)
    requires TrialAccessOk(st.chain, st.trials[k])
    requires forall i :: 0 <= i < |st.chain| ==> AccessOk(st.trials, st.chain[i])
    ensures Sound(h, OutcomeVerdict(st.trials[k], at, o))
  {
    var t := st.trials[k];
    var all := Successes(Concat(t.bindings), t.id);
    assert t.attempts != [];
    hide FindTrial, LifeOk, TrialAccessOk, Successes, Concat, ValidRegistration, AccessOk, RegisteredKeys,
      PlanVerdict, FindPlan,
      OutcomeVerdict, Sound;
    forall x | x in all
      ensures all[x].body.request.window in RegisteredKeys(t.registration)
    {
      SuccessWindows(st, k, x);
    }
    var p := FindPlan(t.registration.plans, o.plan);
    if p < |t.registration.plans| && o.cited <= all.Keys {
      PlanSound(h, t, o, p, all);
    }
    OutcomeShape(h, t, at, o, all);
  }

  lemma {:induction false} RunningFacts(h: Hashes, st: State, k: nat)
    requires AccessInv(h, st) && k < |st.trials| && TrialOk(h, st.policies, st.trials[k])
    ensures ValidRegistration(st.trials[k].registration)
    ensures TrialAccessOk(st.chain, st.trials[k])
    ensures forall i :: 0 <= i < |st.chain| ==> AccessOk(st.trials, st.chain[i])
    ensures forall x :: x in st.bound ==> exists i :: 0 <= i < |st.chain| && st.chain[i].hash == x
  {
    hide FindPolicy, FindTrial, ValidChain, ValidPolicy, ConfigurationOf, ValidRegistration, TrialAccessOk, AccessOk;
  }

  lemma {:induction false} TrialSound(h: Hashes, st: State, b: EventBody)
    requires Inv(h, st) && !b.kind.PolicyRegistered? && !b.kind.TrialRegistered? && ValidKind(h, b.kind)
    ensures Sound(h, TrialVerdict(h, st, b))
  {
    hide FindTrial, FindPolicy, StartVerdict, AccessVerdict, OutcomeVerdict, EndVerdict, LifeOk, TrialOk, LogInv,
      LineageInv,
      AccessInv, ValidChain, PolicyInv, Sound;
    DullSound(h);
    var k := FindTrial(st.trials, b.kind.trial);
    if k < |st.trials| && !st.trials[k].status.Closed? {
      var t := st.trials[k];
      match b.kind
      case TrialStarted(_, run, reason) => StartSound(h, st, t, run, reason);
      case SampleAccessBound(_, access) => RunningFacts(h, st, k); AccessSound(h, st, t, b.at, access);
      case OutcomeRecorded(_, o) =>
        if t.status == Running {
          RunningFacts(h, st, k);
          OutcomeSound(h, st, k, b.at, o);
        }
      case TrialEnded(_, terminal, _) => EndSound(h, t, terminal);
    }
  }

  /** Judged against the state of any accepted log, no event crashes the replay and none is
      turned away by a dead check. */
  lemma {:induction false} JudgeSound(h: Hashes, st: State, e: Event)
    requires Inv(h, st)
    ensures Sound(h, Judge(h, st, e))
  {
    hide Inv, RegisterVerdict, PolicyVerdict, TrialVerdict, ValidKind, Sound, PolicyInv, AccessInv, LifeOk;
    InvParts(h, st);
    DullSound(h);
    if ValidEvent(h, e) {
      match e.body.kind
      case PolicyRegistered(p) => PolicySound(h, st, p);
      case TrialRegistered(id, r) => RegisterSound(h, st, id, r);
      case _ => TrialSound(h, st, e.body);
    }
  }

  lemma {:induction false} DullSound(h: Hashes)
    ensures Sound(h, Accept)
    ensures Sound(h, Reject(Malformed)) && Sound(h, Reject(EventIdReused)) && Sound(h, Reject(SequenceGap))
    ensures Sound(h, Reject(PreviousHashMismatch)) && Sound(h, Reject(TrialUnknown)) && Sound(h, Reject(TrialClosed))
    ensures Sound(h, Reject(OutcomeNotRunning))
  {
    hide Injective;
  }

  lemma {:induction false} PolicySound(h: Hashes, st: State, p: Policy)
    ensures Sound(h, PolicyVerdict(h, st, p))
  {
    hide FindPolicy, Injective;
  }

  lemma {:induction false} EndSound(h: Hashes, t: Trial, terminal: Terminal)
    ensures Sound(h, EndVerdict(t, terminal))
  {}

  /** No log whatever crashes the replay, and none is refused by a dead check: the window
      lookups of the outcome step never miss. */
  lemma {:induction false} ReplayNeverCrashes(h: Hashes, log: seq<Event>)
    ensures !Replay(h, log).Crashed?
    ensures Replay(h, log).Refused? ==> !Dead(h, Replay(h, log).reason)
  {
    hide Inv;
    assert Inv(h, EMPTY) by { ReplayInv(h, []); }
    ReplayFromSound(h, EMPTY, log);
  }

  lemma {:induction false} ReplayFromSound(h: Hashes, st: State, log: seq<Event>)
    requires Inv(h, st)
    ensures !ReplayFrom(h, st, log).Crashed?
    ensures ReplayFrom(h, st, log).Refused? ==> !Dead(h, ReplayFrom(h, st, log).reason)
    decreases |log|
  {
    hide Inv, Judge, Effect;
    if log == [] {
    } else {
      JudgeSound(h, st, log[0]);
      if Judge(h, st, log[0]) == Accept {
        StepKeepsInv(h, st, log[0]);
        ReplayFromSound(h, Effect(h, st, log[0]), log[1..]);
      }
    }
  }

  /** In every accepted log an outcome cites exactly access successes of its own trial's current
      run, covering exactly the windows its frozen plan requires. */
  lemma {:induction false} OutcomesAreWitnessed(h: Hashes, log: seq<Event>, st: State, i: nat, k: nat)
    requires Replay(h, log) == Loaded(st) && i < |st.trials| && k < |st.trials[i].outcomes|
    ensures Witnessed(st.chain, st.trials[i], st.trials[i].outcomes[k])
    ensures Planned(st.trials[i].registration, st.trials[i].outcomes[k])
  {
    ReplayInv(h, log);
    assert TrialAccessOk(st.chain, st.trials[i]) && LifeOk(st.trials[i]);
    hide *;
    WitnessedAt(st.chain, st.trials[i], k);
  }

  lemma {:induction false} WitnessedAt(chain: seq<AccessEvent>, t: Trial, k: nat)
    requires TrialAccessOk(chain, t) && LifeOk(t) && k < |t.outcomes|
    ensures Witnessed(chain, t, t.outcomes[k]) && Planned(t.registration, t.outcomes[k])
  {
    hide Witnessed, Planned;
  }

  /** In every accepted log each event of the global access chain belongs to a registered trial,
      asks for a window and artifacts frozen at registration, and descends through strictly
      earlier causes from an attempt with the same request. */
  lemma {:induction false} AccessesAreRegistered(h: Hashes, log: seq<Event>, st: State, i: nat) returns (path: seq<nat>)
    requires Replay(h, log) == Loaded(st) && i < |st.chain|
    ensures AccessOk(st.trials, st.chain[i]) && TracesToAttempt(st.chain, path, i)
  {
    ReplayInv(h, log);
    assert AccessInv(h, st);
    hide ValidChain;
    path := EveryAccessHasAnAttempt(h.access, st.chain, i);
  }

  /** In every accepted log a completed trial has exactly one outcome for each plan. */
  lemma {:induction false} CompletedReportsEveryPlan(h: Hashes, log: seq<Event>, st: State, i: nat, p: Plan)
    requires Replay(h, log) == Loaded(st) && i < |st.trials| && st.trials[i].status == Closed(Completed)
    requires p in st.trials[i].registration.plans
    ensures exists k :: 0 <= k < |st.trials[i].outcomes| && st.trials[i].outcomes[k].plan == p.id
    ensures forall j, k :: 0 <= j < k < |st.trials[i].outcomes| ==>
      !(st.trials[i].outcomes[j].plan == st.trials[i].outcomes[k].plan == p.id)
  {
    ReplayInv(h, log);
    assert LifeOk(st.trials[i]);
    hide Inv;
    assert p.id in ObservedIds(st.trials[i]);
  }

  // ------------------------------------------------------------------ history

  /** What a later state owes an earlier trial. */
  ghost predicate TrialEvolves(t: Trial, t': Trial) {
    && SameRegistration(t, t')
    && (t.status.Closed? ==> t' == t)
    && t.outcomes <= t'.outcomes
    && t.bindings <= t'.bindings
    && (t.outcomes != [] ==> t'.run == t.run)
    && |t.attempts| <= |t'.attempts|
    && (forall i :: 0 <= i < |t.attempts| ==> t'.attempts[i].run == t.attempts[i].run)
  }

  /** What a later state owes an earlier one: the log, the access chain and the policies only
      grow, a closed trial is final, outcomes stay with the run that produced them, and a
      policy gets no new trial once it is frozen or has a successor. */
  ghost predicate Evolves(st: State, st': State) {
    && st.accepted <= st'.accepted
    && st.chain <= st'.chain
    && st.bound <= st'.bound
    && PoliciesKept(st.policies, st'.policies)
    && (forall k :: 0 <= k < |st.policies| && st.policies[k].frozen.Some? ==> st'.policies[k] == st.policies[k])
    && |st.trials| <= |st'.trials|
    && (forall i :: 0 <= i < |st.trials| ==> TrialEvolves(st.trials[i], st'.trials[i]))
    && (forall k, i :: 0 <= k < |st.policies| && |st.trials| <= i < |st'.trials|
                       && (st.policies[k].frozen.Some? || k < |st.policies| - 1) ==>
          st'.trials[i].registration.policy != st.policies[k].policy.id)
  }

  lemma {:induction false} EvolvesTransitive(a: State, b: State, c: State)
    requires Evolves(a, b) && Evolves(b, c)
    ensures Evolves(a, c)
  {
    assert forall i :: 0 <= i < |a.trials| ==>
      TrialEvolves(a.trials[i], b.trials[i]) && TrialEvolves(b.trials[i], c.trials[i]);
    forall k, i | 0 <= k < |a.policies| && |a.trials| <= i < |c.trials|
                  && (a.policies[k].frozen.Some? || k < |a.policies| - 1)
      ensures c.trials[i].registration.policy != a.policies[k].policy.id
    {
      if i < |b.trials| {
        assert TrialEvolves(b.trials[i], c.trials[i]);
      }
    }
  }

  lemma {:induction false} ActionEvolves(h: Hashes, st: State, b: EventBody, k: nat)
    requires !b.kind.PolicyRegistered? && !b.kind.TrialRegistered? && ValidKind(h, b.kind)
    requires TrialVerdict(h, st, b) == Accept && k == FindTrial(st.trials, b.kind.trial) && k < |st.trials|
    requires LifeOk(st.trials[k])
    ensures TrialEvolves(st.trials[k], ActOn(h, st.trials[k], b))
  {
    TrialFacts(h, st, b, k);
    hide TrialVerdict, FindTrial, FindPolicy, AccessVerdict, OutcomeVerdict, EndVerdict, ValidKind, FindPlan;
  }

  lemma {:induction false} RegisterEvolves(h: Hashes, st: State, e: Event)
    requires PolicyInv(st.policies) && Judge(h, st, e) == Accept && !Repeat(st, e) && e.body.kind.TrialRegistered?
    ensures Evolves(st, Effect(h, st, e))
  {
    hide FindPolicy, FindTrial, PolicyInv, Evolves;
    var st' := Effect(h, st, e);
    NewTrialOk(h, st, e);
    RegisterFacts(h, st, e.body.kind.trial, e.body.kind.registration);
    assert st.policies[|st.policies| - 1].frozen.None?;
    NewTrialEvolves(st, st', NewTrial(h, e));
  }

  lemma {:induction false} TrialActionEvolves(h: Hashes, st: State, e: Event)
    requires AccessInv(h, st) && (forall i :: 0 <= i < |st.trials| ==> LifeOk(st.trials[i]))
    requires Judge(h, st, e) == Accept && !Repeat(st, e)
    requires !e.body.kind.PolicyRegistered? && !e.body.kind.TrialRegistered?
    ensures Evolves(st, Effect(h, st, e))
  {
    hide FindPolicy, FindTrial, Evolves, AccessInv, LifeOk;
    var st' := Effect(h, st, e);
    EffectShape(h, st, e);
    var k := FindTrial(st.trials, e.body.kind.trial);
    ActionEvolves(h, st, e.body, k);
    assert st.chain <= st'.chain && st.bound <= st'.bound by {
      if e.body.kind.SampleAccessBound? {
        AccessExtended(h, st, e);
      }
    }
    assert forall j :: 0 <= j < |st.policies| && st.policies[j].frozen.Some? ==> st'.policies[j] == st.policies[j];
    assert st.accepted <= st'.accepted;
    hide Effect, Judge, TrialEvolves;
    OneTrialEvolves(st, st', k);
  }

  lemma {:induction false} StepEvolves(h: Hashes, st: State, e: Event)
    requires Inv(h, st) && Judge(h, st, e) == Accept
    ensures Evolves(st, Effect(h, st, e))
  {
    InvParts(h, st);
    hide Inv, PolicyInv, AccessInv, LifeOk, Evolves, Judge;
    if Repeat(st, e) {
      SelfEvolves(st);
    } else if e.body.kind.PolicyRegistered? {
      SameTrialsEvolve(st, Effect(h, st, e));
    } else if e.body.kind.TrialRegistered? {
      RegisterEvolves(h, st, e);
    } else {
      TrialActionEvolves(h, st, e);
    }
  }

  lemma {:induction false} InvParts(h: Hashes, st: State)
    requires Inv(h, st)
    ensures PolicyInv(st.policies) && AccessInv(h, st)
    ensures forall i :: 0 <= i < |st.trials| ==> LifeOk(st.trials[i])
  {}

  lemma {:induction false} SameTrialsEvolve(st: State, st': State)
    requires st.accepted <= st'.accepted && st.chain == st'.chain && st.bound == st'.bound && st'.trials == st.trials
    requires st.policies <= st'.policies
    ensures Evolves(st, st')
  {}

  lemma {:induction false} NewTrialEvolves(st: State, st': State, t: Trial)
    requires st.accepted <= st'.accepted && st.chain == st'.chain && st.bound == st'.bound
      && st'.policies == st.policies
    requires st'.trials == st.trials + [t] && PolicyInv(st.policies)
    requires Generation(st.policies, t) + 1 == |st.policies| && st.policies[|st.policies| - 1].frozen.None?
    ensures Evolves(st, st')
  {
    hide FindPolicy, ValidPolicy;
  }

  lemma {:induction false} OneTrialEvolves(st: State, st': State, k: nat)
    requires st.accepted <= st'.accepted && st.chain <= st'.chain && st.bound <= st'.bound
    requires PoliciesKept(st.policies, st'.policies)
    requires forall j :: 0 <= j < |st.policies| && st.policies[j].frozen.Some? ==> st'.policies[j] == st.policies[j]
    requires k < |st.trials| && |st'.trials| == |st.trials| && TrialEvolves(st.trials[k], st'.trials[k])
    requires st'.trials == st.trials[k := st'.trials[k]]
    ensures Evolves(st, st')
  {}

  /** Over every run of the registry, from any accepted state, whatever follows. */
  lemma {:induction false} HistoryIsAppendOnly(h: Hashes, st: State, log: seq<Event>)
    requires Inv(h, st) && ReplayFrom(h, st, log).Loaded?
    ensures Evolves(st, ReplayFrom(h, st, log).state)
    decreases |log|
  {
    hide Inv, Judge, Effect, Evolves;
    if log == [] {
      SelfEvolves(st);
    } else {
      var next := Effect(h, st, log[0]);
      StepKeepsInv(h, st, log[0]);
      StepEvolves(h, st, log[0]);
      HistoryIsAppendOnly(h, next, log[1..]);
      EvolvesTransitive(st, next, ReplayFrom(h, st, log).state);
    }
  }

  lemma {:induction false} SelfEvolves(st: State)
    ensures Evolves(st, st)
  {}

  /** Replaying a concatenation is replaying one part after the other. */
  lemma {:induction false} ReplayConcat(h: Hashes, st: State, a: seq<Event>, b: seq<Event>)
    ensures ReplayFrom(h, st, a + b) ==
      (if ReplayFrom(h, st, a).Loaded? then ReplayFrom(h, ReplayFrom(h, st, a).state, b) else ReplayFrom(h, st, a))
    decreases |a|
  {
    hide Judge, Effect;
    if a == [] {
      assert a + b == b;
    } else {
      assert (a + b)[0] == a[0] && (a + b)[1..] == a[1..] + b;
      if Judge(h, st, a[0]) == Accept {
        ReplayConcat(h, Effect(h, st, a[0]), a[1..], b);
      }
    }
  }

  lemma {:induction false} AcceptedRepeats(h: Hashes, st: State, e: Event)
    requires LogInv(h, st) && e in st.accepted
    ensures Step(h, st, e) == Loaded(st)
  {
    var i :| 0 <= i < |st.accepted| && st.accepted[i] == e;
    assert Repeat(st, e) && ValidEvent(h, e);
    hide KindVerdict, KindEffect, ValidEvent;
  }

  /** Inserting an exact repeat of an accepted event anywhere later changes nothing. */
  lemma {:induction false} RepeatsChangeNothing(h: Hashes, before: seq<Event>, e: Event, after: seq<Event>)
    requires Replay(h, before).Loaded? && e in Replay(h, before).state.accepted
    ensures Replay(h, before + [e] + after) == Replay(h, before + after)
  {
    var st := Replay(h, before).state;
    assert LogInv(h, st) by { ReplayInv(h, before); }
    AcceptedRepeats(h, st, e);
    hide Step, LogInv;
    ReplayConcat(h, EMPTY, before, after);
    ReplayConcat(h, EMPTY, before, [e] + after);
    assert before + [e] + after == before + ([e] + after);
    assert ([e] + after)[1..] == after;
  }

  /** The accepted events are the whole truth: replaying them alone rebuilds the state. */
  lemma {:induction false} AcceptedReplays(h: Hashes, log: seq<Event>)
    requires Replay(h, log).Loaded?
    ensures Replay(h, Replay(h, log).state.accepted) == Replay(h, log)
    decreases |log|
  {
    hide Judge;
    if log == [] {
    } else {
      var init, e := log[..|log| - 1], log[|log| - 1];
      assert log == init + [e];
      ReplayConcat(h, EMPTY, init, [e]);
      AcceptedReplays(h, init);
      var st := Replay(h, init).state;
      assert ReplayFrom(h, st, [e]) == Step(h, st, e);
      if !Repeat(st, e) {
        assert Effect(h, st, e).accepted == st.accepted + [e];
        ReplayConcat(h, EMPTY, st.accepted, [e]);
      }
    }
  }

  // --------------------------------------------------------------------- head

  lemma {:induction false} EntryFacts(h: Hashes, log: seq<Event>, seen: map<Id, Event>, i: nat)
    requires LogEntries(h, log, seen) && i < |log|
    ensures log[i].hash == h.event(log[i].body)
    ensures log[i].body.sequence == i + 1 && log[i].body.previous == HeadBefore(log, i)
  {
    hide ValidKind;
  }

  /** With a collision-free event digest, two accepted logs that share an event hash agree up
      to that event. */
  lemma {:induction false} SharedHashSharedPrefix(h: Hashes, a: State, b: State, i: nat, j: nat)
    requires LogInv(h, a) && LogInv(h, b) && Injective(h.event)
    requires i < |a.accepted| && j < |b.accepted| && a.accepted[i].hash == b.accepted[j].hash
    ensures i == j && a.accepted[..i + 1] == b.accepted[..j + 1]
    decreases i
  {
    hide LogEntries, SeenAreLogged;
    EntryFacts(h, a.accepted, a.seen, i);
    EntryFacts(h, b.accepted, b.seen, j);
    assert a.accepted[i] == b.accepted[j];
    if i > 0 {
      SharedHashSharedPrefix(h, a, b, i - 1, j - 1);
      assert a.accepted[..i + 1] == a.accepted[..i] + [a.accepted[i]];
      assert b.accepted[..j + 1] == b.accepted[..j] + [b.accepted[j]];
    }
  }

  lemma {:induction false} HeadPinsEvents(h: Hashes, a: State, b: State)
    requires LogInv(h, a) && LogInv(h, b) && Injective(h.event) && b.accepted != []
    ensures (exists e :: e in a.accepted && e.hash == Head(b.accepted)) <==> b.accepted <= a.accepted
    ensures a.accepted != [] && Head(a.accepted) == Head(b.accepted) ==> a.accepted == b.accepted
  {
    hide LogInv, Injective;
    var last := |b.accepted| - 1;
    forall i | 0 <= i < |a.accepted| && a.accepted[i].hash == Head(b.accepted)
      ensures i == last && b.accepted == a.accepted[..i + 1]
    {
      SharedHashSharedPrefix(h, a, b, i, last);
      assert b.accepted == b.accepted[..last + 1];
    }
    if b.accepted <= a.accepted {
      assert a.accepted[last] == b.accepted[last] && a.accepted[last] in a.accepted;
    }
    if a.accepted != [] && Head(a.accepted) == Head(b.accepted) {
      assert a.accepted[|a.accepted| - 1].hash == Head(b.accepted);
    }
  }

  /** `require_head` is meaningful: a log that contains another's head extends it, and two
      non-empty logs with the same head are the same log with the same replay. */
  lemma {:induction false} HeadPinsTheLog(h: Hashes, log: seq<Event>, a: State, other: seq<Event>, b: State)
    requires Injective(h.event) && Replay(h, log) == Loaded(a) && Replay(h, other) == Loaded(b) && b.accepted != []
    ensures (exists e :: e in a.accepted && e.hash == Head(b.accepted)) <==> b.accepted <= a.accepted
    ensures a.accepted != [] && Head(a.accepted) == Head(b.accepted) ==> a == b
  {
    hide Replay, LogInv, Injective, Head, PolicyInv, TrialInv, LineageInv, LifeOk, AccessInv;
    ReplayInv(h, log);
    ReplayInv(h, other);
    AcceptedReplays(h, log);
    AcceptedReplays(h, other);
    HeadPinsEvents(h, a, b);
  }
}
