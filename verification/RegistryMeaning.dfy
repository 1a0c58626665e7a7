/** What the replayed state says about its log: every part of it is a query over the accepted
    events, with no reference to the order in which the replay computed it. */
module RegistryMeaning {
  import opened Basics
  import opened AccessChain
  import opened RegistryModel
  import opened Registry
  import opened RegistryInvariant

  // -------------------------------------------------------------------- queries

  /** The events that match, in order. */
  function Select(log: seq<Event>, want: Event -> bool): (r: seq<Event>)
    ensures forall i :: 0 <= i < |r| ==> want(r[i]) && r[i] in log
  {
    if log == [] then []
    else
      var rest, last := Select(log[..|log| - 1], want), log[|log| - 1];
      if want(last) then rest + [last] else rest
  }

  lemma {:induction false} SelectAppend(log: seq<Event>, want: Event -> bool, e: Event)
    ensures Select(log + [e], want) == if want(e) then Select(log, want) + [e] else Select(log, want)
  {
    assert (log + [e])[..|log|] == log;
  }

  lemma {:induction false} SelectNone(log: seq<Event>, want: Event -> bool)
    requires forall i :: 0 <= i < |log| ==> !want(log[i])
    ensures Select(log, want) == []
    decreases |log|
  {
    if log == [] {
    } else {
      SelectNone(log[..|log| - 1], want);
    }
  }

  function IsPolicy(): Event -> bool { (e: Event) => e.body.kind.PolicyRegistered? }
  function IsRegistration(): Event -> bool { (e: Event) => e.body.kind.TrialRegistered? }
  function IsAccess(): Event -> bool { (e: Event) => e.body.kind.SampleAccessBound? }
  function Starts(id: Id): Event -> bool { (e: Event) => e.body.kind.TrialStarted? && e.body.kind.trial == id }
  function Binds(id: Id): Event -> bool { (e: Event) => e.body.kind.SampleAccessBound? && e.body.kind.trial == id }
  function Reports(id: Id): Event -> bool { (e: Event) => e.body.kind.OutcomeRecorded? && e.body.kind.trial == id }
  function Ends(id: Id): Event -> bool { (e: Event) => e.body.kind.TrialEnded? && e.body.kind.trial == id }

  /** How the `i`-th attempt ended: superseded by the next start, or with the trial, or not yet. */
  function CloseAt(starts: seq<Event>, ends: seq<Event>, i: nat): Option<AttemptClose>
    requires i < |starts|
    requires forall j :: 0 <= j < |starts| ==> starts[j].body.kind.TrialStarted?
    requires forall j :: 0 <= j < |ends| ==> ends[j].body.kind.TrialEnded?
  {
    if i + 1 < |starts| then
      var next := starts[i + 1].body;
      Some(AttemptClose(Superseded, next.kind.retryReason, next.sequence, next.at))
    else if ends != [] then
      var end := ends[0].body;
      Some(AttemptClose(Ended(end.kind.terminal), end.kind.reason, end.sequence, end.at))
    else None
  }

  function Attempts(starts: seq<Event>, ends: seq<Event>): (r: seq<RunAttempt>)
    requires forall j :: 0 <= j < |starts| ==> starts[j].body.kind.TrialStarted?
    requires forall j :: 0 <= j < |ends| ==> ends[j].body.kind.TrialEnded?
    ensures |r| == |starts|
  {
    seq(|starts|, i requires 0 <= i < |starts| =>
          RunAttempt(starts[i].body.kind.run, starts[i].body.sequence, starts[i].body.at, CloseAt(starts, ends, i)))
  }

  function Bindings(events: seq<Event>): (r: seq<AccessBinding>)
    requires forall j :: 0 <= j < |events| ==> events[j].body.kind.SampleAccessBound?
    ensures |r| == |events|
  {
    seq(|events|, i requires 0 <= i < |events| => events[i].body.kind.access)
  }

  function Outcomes(events: seq<Event>): (r: seq<Outcome>)
    requires forall j :: 0 <= j < |events| ==> events[j].body.kind.OutcomeRecorded?
    ensures |r| == |events|
  {
    seq(|events|, i requires 0 <= i < |events| => events[i].body.kind.outcome)
  }

  /** The trial that the log tells of, from the event that registered it. */
  function TrialOf(h: Hashes, log: seq<Event>, reg: Event): Trial
    requires reg.body.kind.TrialRegistered?
  {
    var id, r := reg.body.kind.trial, reg.body.kind.registration;
    var starts, ends := Select(log, Starts(id)), Select(log, Ends(id));
    Trial(id, r, h.configuration(ConfigurationOf(r)), reg.body.sequence, reg.hash, reg.body.at,
          if ends != [] then Closed(ends[0].body.kind.terminal) else if starts != [] then Running else Registered,
          if starts != [] then Some(starts[|starts| - 1].body.kind.run) else None,
          Attempts(starts, ends), Bindings(Select(log, Binds(id))), Outcomes(Select(log, Reports(id))),
          if ends != [] then ends[0].body.kind.reason else None,
          if ends != [] then Some(ends[0].body.sequence) else None)
  }

  function PolicyAt(e: Event): Policy
    requires e.body.kind.PolicyRegistered?
  {
    e.body.kind.policy
  }

  /** The trial an event acts on, once registered. */
  ghost predicate Acts(e: Event, id: Id) { Starts(id)(e) || Binds(id)(e) || Reports(id)(e) || Ends(id)(e) }

  /** No event acts on a trial that the log does not register. */
  ghost predicate Grounded(log: seq<Event>, ts: seq<Trial>) {
    forall i, id :: 0 <= i < |log| && Acts(log[i], id) ==> exists k :: 0 <= k < |ts| && ts[k].id == id
  }

  ghost predicate PoliciesMean(log: seq<Event>, ps: seq<PolicyEntry>) {
    var events := Select(log, IsPolicy());
    |ps| == |events| && forall k :: 0 <= k < |ps| ==> ps[k].policy == PolicyAt(events[k])
  }

  ghost predicate TrialsMean(h: Hashes, log: seq<Event>, ts: seq<Trial>) {
    var events := Select(log, IsRegistration());
    |ts| == |events| && forall k :: 0 <= k < |ts| ==> ts[k] == TrialOf(h, log, events[k])
  }

  ghost predicate ChainMeans(log: seq<Event>, chain: seq<AccessEvent>, bound: set<Hash>) {
    var events := Select(log, IsAccess());
    && chain == (if events == [] then [] else events[|events| - 1].body.kind.access.chain)
    && bound == set i | 0 <= i < |events| :: events[i].body.kind.access.head
  }

  /** The state is what its log says. */
  ghost predicate Means(h: Hashes, st: State) {
    && PoliciesMean(st.accepted, st.policies)
    && TrialsMean(h, st.accepted, st.trials)
    && ChainMeans(st.accepted, st.chain, st.bound)
    && Grounded(st.accepted, st.trials)
  }

  // ------------------------------------------------------------------ one event

  /** An event that does not act on a trial leaves the trial alone. */
  lemma {:induction false} OtherTrial(h: Hashes, log: seq<Event>, e: Event, reg: Event)
    requires reg.body.kind.TrialRegistered? && !Acts(e, reg.body.kind.trial)
    ensures TrialOf(h, log + [e], reg) == TrialOf(h, log, reg)
  {
    hide Select, ConfigurationOf;
    var id := reg.body.kind.trial;
    SelectAppend(log, Starts(id), e);
    SelectAppend(log, Binds(id), e);
    SelectAppend(log, Reports(id), e);
    SelectAppend(log, Ends(id), e);
  }

  lemma {:induction false} StartedAttempts(starts: seq<Event>, e: Event)
    requires forall j :: 0 <= j < |starts| ==> starts[j].body.kind.TrialStarted?
    requires e.body.kind.TrialStarted?
    ensures Attempts(starts + [e], []) ==
      CloseLast(Attempts(starts, []), AttemptClose(Superseded, e.body.kind.retryReason, e.body.sequence, e.body.at))
      + [RunAttempt(e.body.kind.run, e.body.sequence, e.body.at, None)]
  {
    var longer := starts + [e];
    assert forall j :: 0 <= j < |starts| ==> longer[j] == starts[j];
  }

  lemma {:induction false} EndedAttempts(starts: seq<Event>, e: Event)
    requires forall j :: 0 <= j < |starts| ==> starts[j].body.kind.TrialStarted?
    requires e.body.kind.TrialEnded?
    ensures Attempts(starts, [e]) ==
      CloseLast(Attempts(starts, []),
        AttemptClose(Ended(e.body.kind.terminal), e.body.kind.reason, e.body.sequence, e.body.at))
  {}

  /** An event that acts on an open trial does to it what the log then says. */
  lemma {:induction false} ActingTrial(h: Hashes, log: seq<Event>, e: Event, reg: Event)
    requires reg.body.kind.TrialRegistered? && Acts(e, reg.body.kind.trial) && !TrialOf(h, log, reg).status.Closed?
    ensures TrialOf(h, log + [e], reg) == ActOn(h, TrialOf(h, log, reg), e.body)
  {
    hide Select, ConfigurationOf, Attempts, CloseLast, Bindings, Outcomes;
    var id := reg.body.kind.trial;
    var starts := Select(log, Starts(id));
    SelectAppend(log, Starts(id), e);
    SelectAppend(log, Binds(id), e);
    SelectAppend(log, Reports(id), e);
    SelectAppend(log, Ends(id), e);
    match e.body.kind
    case TrialStarted(_, _, _) =>
      StartedAttempts(starts, e);
      if starts == [] { NoAttempts(e); }
    case SampleAccessBound(_, access) => BindingsAppend(Select(log, Binds(id)), e);
    case OutcomeRecorded(_, o) => OutcomesAppend(Select(log, Reports(id)), e);
    case TrialEnded(_, _, _) =>
      assert Select(log + [e], Ends(id)) == [e];
      EndedAttempts(starts, e);
  }

  lemma {:induction false} BindingsAppend(events: seq<Event>, e: Event)
    requires e.body.kind.SampleAccessBound? && forall j :: 0 <= j < |events| ==> events[j].body.kind.SampleAccessBound?
    ensures Bindings(events + [e]) == Bindings(events) + [e.body.kind.access]
  {}

  lemma {:induction false} OutcomesAppend(events: seq<Event>, e: Event)
    requires e.body.kind.OutcomeRecorded? && forall j :: 0 <= j < |events| ==> events[j].body.kind.OutcomeRecorded?
    ensures Outcomes(events + [e]) == Outcomes(events) + [e.body.kind.outcome]
  {}

  lemma {:induction false} NoAttempts(e: Event)
    requires e.body.kind.TrialStarted?
    ensures Attempts([], []) == [] && forall c :: CloseLast([], c) == []
    ensures Attempts([e], []) == [RunAttempt(e.body.kind.run, e.body.sequence, e.body.at, None)]
  {}

  lemma {:induction false} NewTrialMeans(h: Hashes, log: seq<Event>, ts: seq<Trial>, e: Event)
    requires Grounded(log, ts) && e.body.kind.TrialRegistered?
    requires forall k :: 0 <= k < |ts| ==> ts[k].id != e.body.kind.trial
    ensures TrialOf(h, log + [e], e) == NewTrial(h, e)
  {
    hide Select, ConfigurationOf, Acts;
    var id := e.body.kind.trial;
    forall i | 0 <= i < |log|
      ensures !Acts(log[i], id)
    {
    }
    NothingActs(log, id);
    hide Grounded;
    SelectAppend(log, Starts(id), e);
    SelectAppend(log, Binds(id), e);
    SelectAppend(log, Reports(id), e);
    SelectAppend(log, Ends(id), e);
  }

  lemma {:induction false} NothingActs(log: seq<Event>, id: Id)
    requires forall i :: 0 <= i < |log| ==> !Acts(log[i], id)
    ensures Select(log, Starts(id)) == [] && Select(log, Binds(id)) == []
    ensures Select(log, Reports(id)) == [] && Select(log, Ends(id)) == []
  {
    SelectNone(log, Starts(id));
    SelectNone(log, Binds(id));
    SelectNone(log, Reports(id));
    SelectNone(log, Ends(id));
  }

  // ---------------------------------------------------------------------- steps

  lemma {:induction false} PoliciesKeepMeaning(log: seq<Event>, e: Event, ps: seq<PolicyEntry>, ps': seq<PolicyEntry>)
    requires PoliciesMean(log, ps) && PoliciesKept(ps, ps')
    requires !e.body.kind.PolicyRegistered? ==> |ps'| == |ps|
    requires e.body.kind.PolicyRegistered? ==> ps' == ps + [PolicyEntry(e.body.kind.policy, None)]
    ensures PoliciesMean(log + [e], ps')
  {
    hide Select;
    SelectAppend(log, IsPolicy(), e);
  }

  lemma {:induction false} ChainKeepsMeaning(log: seq<Event>, e: Event, chain: seq<AccessEvent>, bound: set<Hash>)
    requires ChainMeans(log, chain, bound)
    ensures if e.body.kind.SampleAccessBound?
            then ChainMeans(log + [e], e.body.kind.access.chain, bound + {e.body.kind.access.head})
            else ChainMeans(log + [e], chain, bound)
  {
    hide Select;
    SelectAppend(log, IsAccess(), e);
    var events := Select(log, IsAccess());
    if e.body.kind.SampleAccessBound? {
      var longer := events + [e];
      assert forall i :: 0 <= i < |events| ==> longer[i] == events[i];
      forall x | x in bound + {e.body.kind.access.head}
        ensures x in set i | 0 <= i < |longer| :: longer[i].body.kind.access.head
      {
        if x in bound {
          var i :| 0 <= i < |events| && events[i].body.kind.access.head == x;
          assert longer[i].body.kind.access.head == x;
        } else {
          assert longer[|events|].body.kind.access.head == x;
        }
      }
    }
  }

  lemma {:induction false} GroundedKept(log: seq<Event>, e: Event, ts: seq<Trial>, ts': seq<Trial>)
    requires Grounded(log, ts) && TrialsKept(ts, ts')
    requires forall id :: Acts(e, id) ==> exists k :: 0 <= k < |ts| && ts[k].id == id
    ensures Grounded(log + [e], ts')
  {
    hide Acts;
    var longer := log + [e];
    forall i, id | 0 <= i < |longer| && Acts(longer[i], id)
      ensures exists k :: 0 <= k < |ts'| && ts'[k].id == id
    {
      assert i < |log| ==> longer[i] == log[i];
      var k :| 0 <= k < |ts| && ts[k].id == id;
      assert ts'[k].id == id;
    }
  }

  /** A trial list that keeps its meaning when one event acts on the trial at `k`, or on none. */
  lemma {:induction false} TrialsKeepMeaning(h: Hashes, log: seq<Event>, e: Event, ts: seq<Trial>, ts': seq<Trial>,
                                             k: nat)
    requires TrialsMean(h, log, ts) && |ts'| == |ts| && !e.body.kind.TrialRegistered?
    requires forall i, j :: 0 <= i < j < |ts| ==> ts[i].id != ts[j].id
    requires forall id :: Acts(e, id) ==> k < |ts| && ts[k].id == id
    requires k < |ts| ==> Acts(e, ts[k].id) && !ts[k].status.Closed? && ts'[k] == ActOn(h, ts[k], e.body)
    requires forall i :: 0 <= i < |ts| && i != k ==> ts'[i] == ts[i]
    ensures TrialsMean(h, log + [e], ts')
  {
    hide Select, Acts, TrialOf;
    SelectAppend(log, IsRegistration(), e);
    var events := Select(log, IsRegistration());
    forall i | 0 <= i < |ts'|
      ensures ts'[i] == TrialOf(h, log + [e], events[i])
    {
      TrialOfId(h, log, events[i]);
      if i == k {
        ActingTrial(h, log, e, events[i]);
      } else {
        OtherTrial(h, log, e, events[i]);
      }
    }
  }

  lemma {:induction false} TrialOfId(h: Hashes, log: seq<Event>, reg: Event)
    requires reg.body.kind.TrialRegistered?
    ensures TrialOf(h, log, reg).id == reg.body.kind.trial
  {
    hide Select, ConfigurationOf;
  }

  lemma {:induction false} TrialsGain(h: Hashes, log: seq<Event>, e: Event, ts: seq<Trial>)
    requires TrialsMean(h, log, ts) && Grounded(log, ts) && e.body.kind.TrialRegistered?
    requires forall k :: 0 <= k < |ts| ==> ts[k].id != e.body.kind.trial
    ensures TrialsMean(h, log + [e], ts + [NewTrial(h, e)])
  {
    hide Select, TrialOf, Grounded;
    SelectAppend(log, IsRegistration(), e);
    var events := Select(log, IsRegistration());
    NewTrialMeans(h, log, ts, e);
    forall i | 0 <= i < |ts|
      ensures ts[i] == TrialOf(h, log + [e], events[i])
    {
      OtherTrial(h, log, e, events[i]);
    }
  }

  lemma {:induction false} ActedTrial(st: State, e: Event)
    requires !e.body.kind.PolicyRegistered? && !e.body.kind.TrialRegistered?
    ensures Acts(e, e.body.kind.trial) && forall id :: Acts(e, id) ==> id == e.body.kind.trial
  {}

  lemma {:induction false} UniqueTrialIds(h: Hashes, st: State)
    requires Inv(h, st)
    ensures forall i, j :: 0 <= i < j < |st.trials| ==> st.trials[i].id != st.trials[j].id
  {
    hide LogInv, PolicyInv, LineageInv, AccessInv, LifeOk, TrialOk, FindPolicy;
  }

  lemma {:induction false} TrialStepMeans(h: Hashes, st: State, e: Event)
    requires Inv(h, st) && Means(h, st) && Judge(h, st, e) == Accept && !Repeat(st, e)
    requires !e.body.kind.PolicyRegistered? && !e.body.kind.TrialRegistered?
    ensures TrialsMean(h, st.accepted + [e], Effect(h, st, e).trials)
    ensures Grounded(st.accepted + [e], Effect(h, st, e).trials)
  {
    hide TrialsMean, PoliciesMean, ChainMeans, Grounded, Acts, Inv, Judge, Effect, FindTrial, ActOn;
    UniqueTrialIds(h, st);
    EffectShape(h, st, e);
    ActedTrial(st, e);
    var k := FindTrial(st.trials, e.body.kind.trial);
    TrialsKeepMeaning(h, st.accepted, e, st.trials, Effect(h, st, e).trials, k);
    GroundedKept(st.accepted, e, st.trials, Effect(h, st, e).trials);
  }

  lemma {:induction false} RegistrationStepMeans(h: Hashes, st: State, e: Event)
    requires Inv(h, st) && Means(h, st) && Judge(h, st, e) == Accept && !Repeat(st, e) && e.body.kind.TrialRegistered?
    ensures TrialsMean(h, st.accepted + [e], Effect(h, st, e).trials)
    ensures Grounded(st.accepted + [e], Effect(h, st, e).trials)
  {
    hide TrialsMean, PoliciesMean, ChainMeans, Grounded, FindTrial, FindPolicy, GridChecks, ParentChecks,
      StructuralChecks,
      ConfigurationChecks, ConfigurationOf, ValidRegistration, Inv, NewTrial;
    RegisterFacts(h, st, e.body.kind.trial, e.body.kind.registration);
    assert FindTrial(st.trials, e.body.kind.trial) == |st.trials|;
    TrialsGain(h, st.accepted, e, st.trials);
    EffectShape(h, st, e);
    GroundedKept(st.accepted, e, st.trials, Effect(h, st, e).trials);
  }

  lemma {:induction false} PolicyStepMeans(h: Hashes, st: State, e: Event)
    requires Inv(h, st) && Means(h, st) && Judge(h, st, e) == Accept && !Repeat(st, e) && e.body.kind.PolicyRegistered?
    ensures TrialsMean(h, st.accepted + [e], Effect(h, st, e).trials)
    ensures Grounded(st.accepted + [e], Effect(h, st, e).trials)
  {
    hide TrialsMean, PoliciesMean, ChainMeans, Grounded, Inv, Judge;
    assert Effect(h, st, e).trials == st.trials;
    UniqueTrialIds(h, st);
    TrialsKeepMeaning(h, st.accepted, e, st.trials, st.trials, |st.trials|);
    GroundedKept(st.accepted, e, st.trials, st.trials);
  }

  lemma {:induction false} EffectOnLog(h: Hashes, st: State, e: Event)
    requires Judge(h, st, e) == Accept && !Repeat(st, e)
    ensures var st' := Effect(h, st, e); var k := e.body.kind;
      && st'.accepted == st.accepted + [e]
      && st'.chain == (if k.SampleAccessBound? then k.access.chain else st.chain)
      && st'.bound == (if k.SampleAccessBound? then st.bound + {k.access.head} else st.bound)
      && (k.PolicyRegistered? ==> st'.policies == st.policies + [PolicyEntry(k.policy, None)])
  {
    EffectShape(h, st, e);
    hide Judge, FindTrial, Freeze, ActOn, NewTrial;
  }

  lemma {:induction false} StepMeans(h: Hashes, st: State, e: Event)
    requires Inv(h, st) && Means(h, st) && Judge(h, st, e) == Accept
    ensures Means(h, Effect(h, st, e))
  {
    hide TrialsMean, PoliciesMean, ChainMeans, Grounded, Inv, Judge, KindEffect;
    if !Repeat(st, e) {
      EffectShape(h, st, e);
      EffectOnLog(h, st, e);
      hide Effect;
      PoliciesKeepMeaning(st.accepted, e, st.policies, Effect(h, st, e).policies);
      ChainKeepsMeaning(st.accepted, e, st.chain, st.bound);
      match e.body.kind
      case PolicyRegistered(_) => PolicyStepMeans(h, st, e);
      case TrialRegistered(_, _) => RegistrationStepMeans(h, st, e);
      case _ => TrialStepMeans(h, st, e);
    }
  }

  lemma {:induction false} ReplayFromMeans(h: Hashes, st: State, log: seq<Event>)
    requires Inv(h, st) && Means(h, st)
    ensures ReplayFrom(h, st, log).Loaded? ==> Means(h, ReplayFrom(h, st, log).state)
    decreases |log|
  {
    hide Inv, Means, Judge, Effect;
    if log == [] {
    } else if Judge(h, st, log[0]) == Accept {
      StepKeepsInv(h, st, log[0]);
      StepMeans(h, st, log[0]);
      ReplayFromMeans(h, Effect(h, st, log[0]), log[1..]);
    }
  }

  /** The state of every accepted log is what the log says: policies and trials in registration
      order, each trial with its attempts, bindings, outcomes and end, the last bound chain and all
      bound heads. */
  lemma {:induction false} StateIsTheLog(h: Hashes, log: seq<Event>, st: State)
    requires Replay(h, log) == Loaded(st)
    ensures Means(h, st)
  {
    hide Inv;
    assert Means(h, EMPTY);
    hide Means;
    assert Inv(h, EMPTY) by { ReplayInv(h, []); }
    ReplayFromMeans(h, EMPTY, log);
  }
}
