/** An accepted log as a history: it grew by the rules, one event at a time, and its accesses kept
    the sample law throughout. */
module RegistryHistory {
  import opened Basics
  import opened AccessChain
  import opened RegistryModel
  import opened RegistryPayload
  import opened Registry
  import opened RegistryInvariant
  import opened RegistryTheorems
  import opened RegistryRules
  import opened Store

  /** A log is accepted exactly when it is an accepted log and one more event that is new and that
      the rules allow. */
  lemma {:induction false} LogGrowsByTheRules(h: Hashes, log: seq<Event>, e: Event)
    ensures Accepted(h, log + [e]) <==>
      Accepted(h, log) && e !in log && Rules(h, Replay(h, log).state, e) == Accept
  {
    hide Replay, Rules, Effect;
    if Accepted(h, log + [e]) {
      assert (log + [e])[..|log|] == log;
      AcceptedPrefix(h, log + [e], |log|);
    }
    if Accepted(h, log) {
      var st := Replay(h, log).state;
      ReplayFollowsTheRules(h, log, st, e);
      ReplayInv(h, log);
      GrowthOf(h, st, e);
    }
  }

  lemma {:induction false} GrowthOf(h: Hashes, st: State, e: Event)
    requires Inv(h, st)
    ensures Effect(h, st, e).accepted == if e in st.accepted then st.accepted else st.accepted + [e]
    ensures e in st.accepted ==> |Effect(h, st, e).accepted| < |st.accepted + [e]|
  {
    hide Inv, KindEffect;
    SeenFollows(h, st, e);
    EffectAccepted(h, st, e);
  }

  lemma {:induction false} EffectAccepted(h: Hashes, st: State, e: Event)
    ensures Effect(h, st, e).accepted == if Repeat(st, e) then st.accepted else st.accepted + [e]
  {
    hide FindTrial, ActOn, Freeze, NewTrial;
  }

  /** Each event of an accepted log obeyed every rule at its time. */
  lemma {:induction false} EveryEventObeyed(h: Hashes, log: seq<Event>, i: nat)
    requires Accepted(h, log) && i < |log|
    ensures Accepted(h, log[..i]) && log[i] !in log[..i] && Rules(h, Replay(h, log[..i]).state, log[i]) == Accept
  {
    hide Accepted, Rules, Replay;
    AcceptedPrefix(h, log, i + 1);
    assert log[..i + 1] == log[..i] + [log[i]];
    LogGrowsByTheRules(h, log[..i], log[i]);
  }

  /** A later policy of an accepted log raises the version, brings another artifact, and names the
      policy, the head and the state that it was decided on. */
  lemma {:induction false} PoliciesSucceed(h: Hashes, log: seq<Event>, i: nat, st: State)
    requires Accepted(h, log) && i < |log| && log[i].body.kind.PolicyRegistered? && Replay(h, log[..i]) == Loaded(st)
    ensures var p := log[i].body.kind.policy;
      if st.policies == [] then p.predecessor.None?
      else
        var latest := st.policies[|st.policies| - 1].policy;
        && latest.version < p.version && latest.binding.sha != p.binding.sha
        && p.predecessor == Some(Predecessor(latest.id, Head(log[..i]),
                                             h.state(RegistryDocument(st.policies, st.trials, st.bound))))
  {
    hide Replay, WellFormed;
    EveryEventObeyed(h, log, i);
    assert KindRules(h, st, log[i].body) == Accept;
  }

  lemma {:induction false} VersionFloor(ps: seq<PolicyEntry>, k: nat)
    requires PolicyInv(ps) && k < |ps|
    ensures ps[k].policy.version >= k + 1
  {
    if k > 0 {
      VersionFloor(ps, k - 1);
    }
  }

  /** In every accepted log the policies are sound, and none has a version below its rank. */
  lemma {:induction false} PoliciesAreSound(h: Hashes, log: seq<Event>, st: State, k: nat)
    requires Replay(h, log) == Loaded(st) && k < |st.policies|
    ensures SoundPolicy(st.policies[k].policy) && st.policies[k].policy.version > k
  {
    hide Replay, ValidPolicy, SoundPolicy;
    ReplayInv(h, log);
    PoliciesOf(h, st);
    VersionFloor(st.policies, k);
    PolicyMeans(st.policies[k].policy);
  }

  lemma {:induction false} PoliciesOf(h: Hashes, st: State)
    requires Inv(h, st)
    ensures PolicyInv(st.policies) && forall k :: 0 <= k < |st.policies| ==> ValidPolicy(st.policies[k].policy)
    ensures forall i :: 0 <= i < |st.trials| ==> ValidRegistration(st.trials[i].registration)
  {
    hide LogInv, LineageInv, AccessInv, LifeOk, FindPolicy, ValidPolicy, ValidRegistration, ConfigurationOf, OnGrid;
  }

  /** In every accepted log the registrations are sound. */
  lemma {:induction false} RegistrationsAreSound(h: Hashes, log: seq<Event>, st: State, i: nat)
    requires Replay(h, log) == Loaded(st) && i < |st.trials|
    ensures SoundRegistration(st.trials[i].registration)
  {
    hide Replay, Inv, SoundRegistration, ValidRegistration;
    ReplayInv(h, log);
    PoliciesOf(h, st);
    RegistrationMeans(st.trials[i].registration);
  }

  /** In every accepted log each access has known labels and an ordered range, and each success keeps
      to its analysis date, its vintage and the end of its sample. */
  lemma {:induction false} AccessesKeepTheSample(h: Hashes, log: seq<Event>, st: State, i: nat)
    requires Replay(h, log) == Loaded(st) && i < |st.chain|
    ensures Sampled(st.chain[i].body.kind, st.chain[i].body.request.window)
    ensures forall j :: 0 <= j < i ==>
              st.chain[j].body.id != st.chain[i].body.id && st.chain[j].body.at <= st.chain[i].body.at
  {
    hide Replay;
    ReplayInv(h, log);
    ChainOf(h, st);
    assert Linked(h.access, st.chain, i);
    SampledIs(h.access, st.chain[i]);
    forall j | 0 <= j < i { TimesAscend(h.access, st.chain, j, i); }
  }

  lemma {:induction false} ChainOf(h: Hashes, st: State)
    requires Inv(h, st)
    ensures ValidChain(h.access, st.chain)
  {
    hide ValidChain, LogInv, PolicyInv, TrialInv, LineageInv, LifeOk;
  }

  /** So no outcome of an accepted log rests on data its sample did not allow. */
  lemma {:induction false} OutcomesKeepTheSample(h: Hashes, log: seq<Event>, st: State, i: nat, k: nat, x: Hash)
    requires Replay(h, log) == Loaded(st) && i < |st.trials| && k < |st.trials[i].outcomes|
    requires x in st.trials[i].outcomes[k].cited
    ensures exists j :: 0 <= j < |st.chain| && st.chain[j].hash == x && st.chain[j].body.kind == Success
                        && Sampled(Success, st.chain[j].body.request.window)
  {
    hide Replay, Sampled, PlanWindows, Planned, Covers, Cites;
    OutcomesAreWitnessed(h, log, st, i, k);
    var t, o := st.trials[i], st.trials[i].outcomes[k];
    var j := CitedAt(st.chain, t, o, x);
    AccessesKeepTheSample(h, log, st, j);
  }

  lemma {:induction false} CitedAt(chain: seq<AccessEvent>, t: Trial, o: Outcome, x: Hash) returns (j: nat)
    requires Cites(chain, t, o, x)
    ensures j < |chain| && chain[j].hash == x && chain[j].body.kind == Success
  {
    hide PlanWindows;
    var i, w :| && 0 <= i < |chain| && chain[i].hash == x
                && w in PlanWindows(t.registration, o) && Evidence(t, chain[i], w);
    j := i;
  }
}
