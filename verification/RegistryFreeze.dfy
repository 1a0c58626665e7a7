/** A policy's family is fixed from its first start: when that was, and what it closed. */
module RegistryFreeze {
  import opened Basics
  import opened RegistryModel
  import opened Registry
  import opened RegistryInvariant

  /** Before the first start of one of its trials a policy is open; from then on it is frozen at that
      start, which comes after every registration it will ever have. */
  ghost predicate FrozenMeans(ts: seq<Trial>, entry: PolicyEntry, limit: int) {
    match entry.frozen
    case None => forall t :: t in ts && t.registration.policy == entry.policy.id ==> t.attempts == []
    case Some(n) =>
      && n <= limit
      && (exists t :: t in ts && t.registration.policy == entry.policy.id && t.attempts != []
                      && t.attempts[0].startedSequence == n)
      && forall t :: t in ts && t.registration.policy == entry.policy.id ==>
           t.sequence < n && (t.attempts != [] ==> n <= t.attempts[0].startedSequence)
  }

  ghost predicate AllMean(ps: seq<PolicyEntry>, ts: seq<Trial>, limit: int) {
    forall k :: 0 <= k < |ps| ==> FrozenMeans(ts, ps[k], limit)
  }

  ghost predicate FreezeInv(st: State) { AllMean(st.policies, st.trials, |st.accepted|) }

  /** Nothing about the trials of the policy that freezing looks at has changed. */
  ghost predicate SameStarts(ts: seq<Trial>, ts': seq<Trial>, policy: Id) {
    && |ts'| == |ts|
    && forall i :: 0 <= i < |ts| ==>
         && ts'[i].registration == ts[i].registration && ts'[i].sequence == ts[i].sequence
         && (ts[i].registration.policy == policy ==> SameFirst(ts[i].attempts, ts'[i].attempts))
  }

  predicate SameFirst(a: seq<RunAttempt>, b: seq<RunAttempt>) {
    (a == [] <==> b == []) && (a != [] ==> b[0].startedSequence == a[0].startedSequence)
  }

  lemma {:induction false} MeansKept(ts: seq<Trial>, ts': seq<Trial>, entry: PolicyEntry, limit: int)
    requires FrozenMeans(ts, entry, limit) && SameStarts(ts, ts', entry.policy.id)
    ensures FrozenMeans(ts', entry, limit + 1)
  {
    forall t | t in ts'
      ensures exists i :: 0 <= i < |ts| && t == ts'[i]
    {
    }
    if entry.frozen.Some? {
      var t :| t in ts && t.registration.policy == entry.policy.id && t.attempts != []
        && t.attempts[0].startedSequence == entry.frozen.value;
      var i :| 0 <= i < |ts| && ts[i] == t;
      assert ts'[i] in ts';
    }
  }

  /** A trial that joins another policy, or one that is still open, leaves the meaning alone. */
  lemma {:induction false} MeansGained(ts: seq<Trial>, t: Trial, entry: PolicyEntry, limit: int)
    requires FrozenMeans(ts, entry, limit) && t.attempts == []
    requires entry.frozen.None? || t.registration.policy != entry.policy.id
    ensures FrozenMeans(ts + [t], entry, limit + 1)
  {
    assert forall x :: x in ts + [t] <==> x in ts || x == t;
  }

  /** The first start freezes; a later one changes nothing. */
  lemma {:induction false} MeansStarted(ts: seq<Trial>, k: nat, t': Trial, entry: PolicyEntry, limit: int)
    requires FrozenMeans(ts, entry, limit) && k < |ts| && ts[k].registration.policy == entry.policy.id
    requires forall t :: t in ts ==> t.sequence <= limit
    requires t'.registration == ts[k].registration && t'.sequence == ts[k].sequence && t'.attempts != []
    requires if ts[k].attempts == [] then t'.attempts[0].startedSequence == limit + 1
             else t'.attempts[0].startedSequence == ts[k].attempts[0].startedSequence
    ensures var frozen := if entry.frozen.None? then entry.(frozen := Some(limit + 1)) else entry;
      FrozenMeans(ts[k := t'], frozen, limit + 1)
  {
    var ts' := ts[k := t'];
    assert ts'[k] in ts' && ts[k] in ts;
    forall t | t in ts'
      ensures t == t' || t in ts
    {
    }
    if entry.frozen.Some? {
      var n := entry.frozen.value;
      var t :| t in ts && t.registration.policy == entry.policy.id && t.attempts != []
        && t.attempts[0].startedSequence == n;
      var i :| 0 <= i < |ts| && ts[i] == t;
      assert ts'[i] in ts';
    }
  }

  lemma {:induction false} StartShape(t: Trial, b: EventBody, run: Id, reason: Option<Id>)
    ensures var t' := StartTrial(t, b, run, reason);
      && t'.attempts != [] && t'.registration == t.registration && t'.sequence == t.sequence
      && if t.attempts == [] then t'.attempts[0].startedSequence == b.sequence
         else t'.attempts[0].startedSequence == t.attempts[0].startedSequence
  {}

  lemma {:induction false} OtherActionShape(h: Hashes, t: Trial, b: EventBody)
    requires !b.kind.TrialStarted?
    ensures SameFirst(t.attempts, ActOn(h, t, b).attempts)
    ensures ActOn(h, t, b).registration == t.registration && ActOn(h, t, b).sequence == t.sequence
  {}

  lemma {:induction false} AllStarted(ps: seq<PolicyEntry>, ts: seq<Trial>, limit: int, k: nat, g: nat, t': Trial)
    requires AllMean(ps, ts, limit) && k < |ts| && g < |ps| && ps[g].policy.id == ts[k].registration.policy
    requires forall i, j :: 0 <= i < j < |ps| ==> ps[i].policy.id != ps[j].policy.id
    requires forall t :: t in ts ==> t.sequence <= limit
    requires t'.registration == ts[k].registration && t'.sequence == ts[k].sequence && t'.attempts != []
    requires if ts[k].attempts == [] then t'.attempts[0].startedSequence == limit + 1
             else t'.attempts[0].startedSequence == ts[k].attempts[0].startedSequence
    ensures var entry := if ps[g].frozen.None? then ps[g].(frozen := Some(limit + 1)) else ps[g];
      AllMean(ps[g := entry], ts[k := t'], limit + 1)
  {
    hide FrozenMeans;
    var ps' := ps[g := if ps[g].frozen.None? then ps[g].(frozen := Some(limit + 1)) else ps[g]];
    forall j | 0 <= j < |ps'|
      ensures FrozenMeans(ts[k := t'], ps'[j], limit + 1)
    {
      if j == g {
        MeansStarted(ts, k, t', ps[j], limit);
      } else {
        assert ps[j].policy.id != ps[g].policy.id;
        MeansKept(ts, ts[k := t'], ps[j], limit);
      }
    }
  }

  lemma {:induction false} AllKept(ps: seq<PolicyEntry>, ts: seq<Trial>, limit: int, k: nat, t': Trial)
    requires AllMean(ps, ts, limit) && k < |ts| && SameFirst(ts[k].attempts, t'.attempts)
    requires t'.registration == ts[k].registration && t'.sequence == ts[k].sequence
    ensures AllMean(ps, ts[k := t'], limit + 1)
  {
    hide FrozenMeans;
    forall j | 0 <= j < |ps| { MeansKept(ts, ts[k := t'], ps[j], limit); }
  }

  lemma {:induction false} AllOpened(ps: seq<PolicyEntry>, ts: seq<Trial>, limit: int, p: Policy)
    requires AllMean(ps, ts, limit) && forall t :: t in ts ==> t.registration.policy != p.id
    ensures AllMean(ps + [PolicyEntry(p, None)], ts, limit + 1)
  {
    hide FrozenMeans;
    forall j | 0 <= j < |ps| { MeansKept(ts, ts, ps[j], limit); }
    NoTrialsYet(ts, p, limit + 1);
  }

  /** An accepted start leaves the family of its trial frozen. */
  lemma {:induction false} StartFreezes(h: Hashes, st: State, e: Event)
    requires Inv(h, st) && FreezeInv(st) && Judge(h, st, e) == Accept && !Repeat(st, e) && e.body.kind.TrialStarted?
    ensures FreezeInv(Effect(h, st, e))
    ensures var k := FindTrial(st.trials, e.body.kind.trial);
      && k < |st.trials|
      && var g := Generation(st.policies, st.trials[k]);
         g < |Effect(h, st, e).policies| && Effect(h, st, e).policies[g].frozen.Some?
  {
    hide Judge, Effect, Inv, FindTrial, FindPolicy, StartTrial, AllMean;
    StartEffect(h, st, e);
    TrialFactsOf(h, st);
    var k := FindTrial(st.trials, e.body.kind.trial);
    var t' := StartTrial(st.trials[k], e.body, e.body.kind.run, e.body.kind.retryReason);
    StartShape(st.trials[k], e.body, e.body.kind.run, e.body.kind.retryReason);
    AllStarted(st.policies, st.trials, |st.accepted|, k, Generation(st.policies, st.trials[k]), t');
  }

  /** A start touches its own trial and, if it is the first, its policy. */
  lemma {:induction false} StartEffect(h: Hashes, st: State, e: Event)
    requires Inv(h, st) && Judge(h, st, e) == Accept && !Repeat(st, e) && e.body.kind.TrialStarted?
    ensures var k := FindTrial(st.trials, e.body.kind.trial); var st' := Effect(h, st, e);
      && k < |st.trials| && |st'.accepted| == |st.accepted| + 1 && e.body.sequence == |st.accepted| + 1
      && st'.trials == st.trials[k := StartTrial(st.trials[k], e.body, e.body.kind.run, e.body.kind.retryReason)]
      && var g := Generation(st.policies, st.trials[k]);
         && g < |st.policies| && st.policies[g].policy.id == st.trials[k].registration.policy
         && st'.policies == st.policies[g := if st.policies[g].frozen.None?
                                             then st.policies[g].(frozen := Some(e.body.sequence)) else st.policies[g]]
  {
    hide FindTrial, FindPolicy, StartTrial, Inv, Judge;
    EffectShape(h, st, e);
    NextNumber(h, st, e);
    TrialFactsOf(h, st);
  }

  lemma {:induction false} NextNumber(h: Hashes, st: State, e: Event)
    requires Judge(h, st, e) == Accept && !Repeat(st, e)
    ensures e.body.sequence == |st.accepted| + 1
  {
    hide KindVerdict, ValidEvent;
  }

  lemma {:induction false} TrialFactsOf(h: Hashes, st: State)
    requires Inv(h, st)
    ensures forall i :: 0 <= i < |st.trials| ==>
      Generation(st.policies, st.trials[i]) < |st.policies| && st.trials[i].sequence <= |st.accepted|
    ensures forall t :: t in st.trials ==> t.sequence <= |st.accepted|
    ensures forall j, k :: 0 <= j < k < |st.policies| ==> st.policies[j].policy.id != st.policies[k].policy.id
  {
    hide LogInv, LineageInv, AccessInv, LifeOk, FindPolicy, ValidPolicy, TrialOk;
  }

  lemma {:induction false} StepFreezes(h: Hashes, st: State, e: Event)
    requires Inv(h, st) && FreezeInv(st) && Judge(h, st, e) == Accept
    ensures FreezeInv(Effect(h, st, e))
  {
    if !Repeat(st, e) {
      match e.body.kind
      case TrialStarted(_, _, _) => StartFreezes(h, st, e);
      case PolicyRegistered(p) => PolicyOpens(h, st, e);
      case TrialRegistered(_, _) => RegistrationKeepsOpen(h, st, e);
      case _ => OtherKeeps(h, st, e);
    }
  }

  lemma {:induction false} PolicyOpens(h: Hashes, st: State, e: Event)
    requires Inv(h, st) && FreezeInv(st) && Judge(h, st, e) == Accept && !Repeat(st, e) && e.body.kind.PolicyRegistered?
    ensures FreezeInv(Effect(h, st, e))
  {
    var p, st' := e.body.kind.policy, Effect(h, st, e);
    assert PolicyVerdict(h, st, p) == Accept;
    assert st'.policies == st.policies + [PolicyEntry(p, None)] && st'.trials == st.trials;
    assert |st'.accepted| == |st.accepted| + 1;
    hide Judge, Effect, Inv, AllMean, PolicyVerdict;
    NewPolicyId(h, st, p);
    AllOpened(st.policies, st.trials, |st.accepted|, p);
  }

  lemma {:induction false} NewPolicyId(h: Hashes, st: State, p: Policy)
    requires Inv(h, st) && PolicyVerdict(h, st, p) == Accept
    ensures forall t :: t in st.trials ==> t.registration.policy != p.id
  {
    hide Inv, FindPolicy;
    TrialFactsOf(h, st);
    assert FindPolicy(st.policies, p.id) == |st.policies|;
    forall t | t in st.trials
      ensures t.registration.policy != p.id
    {
      var i :| 0 <= i < |st.trials| && st.trials[i] == t;
      assert Generation(st.policies, st.trials[i]) < |st.policies|;
    }
  }

  lemma {:induction false} NoTrialsYet(ts: seq<Trial>, p: Policy, limit: int)
    requires forall t :: t in ts ==> t.registration.policy != p.id
    ensures FrozenMeans(ts, PolicyEntry(p, None), limit)
  {}

  lemma {:induction false} RegistrationKeepsOpen(h: Hashes, st: State, e: Event)
    requires Inv(h, st) && FreezeInv(st) && Judge(h, st, e) == Accept && !Repeat(st, e) && e.body.kind.TrialRegistered?
    ensures FreezeInv(Effect(h, st, e))
  {
    RegistrationEffect(h, st, e);
    hide Judge, Effect, Inv, AllMean, PolicyChecks, FindPolicy, NewTrial;
    OpenFamily(st, e.body.kind.trial, e.body.kind.registration);
    TrialFactsOf(h, st);
    var g := FindPolicy(st.policies, e.body.kind.registration.policy);
    AllGained(st.policies, st.trials, |st.accepted|, NewTrial(h, e), g);
  }

  lemma {:induction false} AllGained(ps: seq<PolicyEntry>, ts: seq<Trial>, limit: int, t: Trial, g: nat)
    requires AllMean(ps, ts, limit) && t.attempts == [] && g < |ps| && ps[g].frozen.None?
    requires ps[g].policy.id == t.registration.policy
    requires forall i, j :: 0 <= i < j < |ps| ==> ps[i].policy.id != ps[j].policy.id
    ensures AllMean(ps, ts + [t], limit + 1)
  {
    hide FrozenMeans;
    forall j | 0 <= j < |ps| { MeansGained(ts, t, ps[j], limit); }
  }

  lemma {:induction false} RegistrationEffect(h: Hashes, st: State, e: Event)
    requires Judge(h, st, e) == Accept && !Repeat(st, e) && e.body.kind.TrialRegistered?
    ensures PolicyChecks(st, e.body.kind.trial, e.body.kind.registration) == Accept
    ensures var st' := Effect(h, st, e);
      st'.policies == st.policies && st'.trials == st.trials + [NewTrial(h, e)] && |st'.accepted| == |st.accepted| + 1
    ensures NewTrial(h, e).attempts == [] && NewTrial(h, e).registration == e.body.kind.registration
  {
    RegisterFacts(h, st, e.body.kind.trial, e.body.kind.registration);
    hide RegisterVerdict, PolicyChecks, GridChecks, ParentChecks, StructuralChecks, ConfigurationChecks, FindPolicy,
      ConfigurationOf, ValidRegistration;
  }

  lemma {:induction false} OpenFamily(st: State, id: Id, r: Registration)
    requires PolicyChecks(st, id, r) == Accept
    ensures forall j :: 0 <= j < |st.policies| && st.policies[j].policy.id == r.policy ==>
      j >= FindPolicy(st.policies, r.policy)
    ensures var k := FindPolicy(st.policies, r.policy); k < |st.policies| && st.policies[k].frozen.None?
  {
    hide FindPolicy, FindTrial;
  }

  lemma {:induction false} OtherKeeps(h: Hashes, st: State, e: Event)
    requires Inv(h, st) && FreezeInv(st) && Judge(h, st, e) == Accept && !Repeat(st, e)
    requires !e.body.kind.PolicyRegistered? && !e.body.kind.TrialRegistered? && !e.body.kind.TrialStarted?
    ensures FreezeInv(Effect(h, st, e))
  {
    EffectShape(h, st, e);
    OtherPolicies(h, st, e);
    hide Judge, Effect, Inv, AllMean, FindTrial, ActOn;
    var k := FindTrial(st.trials, e.body.kind.trial);
    OtherActionShape(h, st.trials[k], e.body);
    AllKept(st.policies, st.trials, |st.accepted|, k, ActOn(h, st.trials[k], e.body));
  }

  lemma {:induction false} OtherPolicies(h: Hashes, st: State, e: Event)
    requires !Repeat(st, e) && !e.body.kind.PolicyRegistered? && !e.body.kind.TrialStarted?
    ensures Effect(h, st, e).policies == st.policies && |Effect(h, st, e).accepted| == |st.accepted| + 1
  {
    hide FindTrial, ActOn, NewTrial;
  }

  lemma {:induction false} ReplayFromFreezes(h: Hashes, st: State, log: seq<Event>)
    requires Inv(h, st) && FreezeInv(st)
    ensures ReplayFrom(h, st, log).Loaded? ==> FreezeInv(ReplayFrom(h, st, log).state)
    decreases |log|
  {
    hide Inv, FreezeInv, Judge, Effect;
    if log == [] {
    } else if Judge(h, st, log[0]) == Accept {
      StepKeepsInv(h, st, log[0]);
      StepFreezes(h, st, log[0]);
      ReplayFromFreezes(h, Effect(h, st, log[0]), log[1..]);
    }
  }

  /** In every accepted log a policy is frozen exactly when one of its trials has been started, at the
      number of the first such start, and every trial of it was registered before that event. */
  lemma {:induction false} FamilyFreezesAtFirstStart(h: Hashes, log: seq<Event>, st: State, k: nat)
    requires Replay(h, log) == Loaded(st) && k < |st.policies|
    ensures FrozenMeans(st.trials, st.policies[k], |st.accepted|)
    ensures st.policies[k].frozen.Some? <==>
      exists t :: t in st.trials && t.registration.policy == st.policies[k].policy.id && t.attempts != []
  {
    hide Inv;
    assert Inv(h, EMPTY) by { ReplayInv(h, []); }
    assert FreezeInv(EMPTY);
    ReplayFromFreezes(h, EMPTY, log);
  }
}
