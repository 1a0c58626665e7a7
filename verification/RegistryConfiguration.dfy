/** What a configuration digest stands for: the research content of a registration, whatever labels,
    owners and orders it comes with. */
module RegistryConfiguration {
  import opened Basics
  import opened RegistryModel
  import opened Registry
  import opened RegistryInvariant
  import opened AccessChain

  predicate HasContent(r: Registration, role: ArtifactRole, sha: Hash) {
    exists a :: a in r.artifacts && a.role == role && a.sha == sha
  }

  predicate HasWindow(r: Registration, key: WindowKey) { exists w :: w in r.windows && w.key == key }

  /** A plan with this measure and role, over exactly these windows, whatever they are called. */
  ghost predicate HasPlan(r: Registration, measure: Measure, role: SelectionRole, keys: set<WindowKey>) {
    exists p :: p in r.plans && p.measure == measure && p.role == role && Over(r, p, keys)
  }

  ghost predicate Over(r: Registration, p: Plan, keys: set<WindowKey>) {
    forall key :: key in keys <==> exists w :: w in r.windows && w.id in p.windows && w.key == key
  }

  /** The same research: contents by role, costs, roles, dimensions, code, windows and plans agree;
      names, owner, parent, family, policy and order do not count. */
  ghost predicate SameResearch(r: Registration, s: Registration) {
    && r.role == s.role && r.dimensions == s.dimensions && r.selectionCost == s.selectionCost
    && r.repository.commit == s.repository.commit && r.repository.tree == s.repository.tree
    && (r.repository.dirty.None? <==> s.repository.dirty.None?)
    && (r.repository.dirty.Some? && s.repository.dirty.Some? ==>
          && r.repository.dirty.value.0.sha == s.repository.dirty.value.0.sha
          && r.repository.dirty.value.1.sha == s.repository.dirty.value.1.sha)
    && (forall c :: c in r.costs <==> c in s.costs)
    && (forall role, sha :: HasContent(r, role, sha) <==> HasContent(s, role, sha))
    && (forall key :: HasWindow(r, key) <==> HasWindow(s, key))
    && (forall m, role, keys :: HasPlan(r, m, role, keys) <==> HasPlan(s, m, role, keys))
  }

  lemma {:induction false} PlanKeys(r: Registration, p: Plan, keys: set<WindowKey>)
    ensures Over(r, p, keys) <==> WindowKeys(r.windows, p.windows) == keys
  {
    var own := WindowKeys(r.windows, p.windows);
    assert forall key :: key in own <==> exists w :: w in r.windows && w.id in p.windows && w.key == key;
  }

  lemma {:induction false} ConfigurationParts(r: Registration)
    ensures var c := ConfigurationOf(r);
      && (forall role, sha :: (role, sha) in c.artifacts <==> HasContent(r, role, sha))
      && (forall x :: x in c.costs <==> x in r.costs)
      && (forall key :: key in c.windows <==> HasWindow(r, key))
      && (forall m, role, keys :: SemanticPlan(m, role, keys) in c.plans <==> HasPlan(r, m, role, keys))
  {
    var c := ConfigurationOf(r);
    forall m, role, keys
      ensures SemanticPlan(m, role, keys) in c.plans <==> HasPlan(r, m, role, keys)
    {
      forall p | p in r.plans { PlanKeys(r, p, keys); }
    }
  }

  /** Two registrations have one configuration exactly when they are the same research. */
  lemma {:induction false} ConfigurationIsResearch(r: Registration, s: Registration)
    ensures ConfigurationOf(r) == ConfigurationOf(s) <==> SameResearch(r, s)
  {
    ConfigurationParts(r);
    ConfigurationParts(s);
    var c, d := ConfigurationOf(r), ConfigurationOf(s);
    assert DirtyPart(c, r) && DirtyPart(d, s);
    hide ConfigurationOf, HasContent, HasWindow, HasPlan;
    if SameResearch(r, s) {
      forall x: (ArtifactRole, Hash)
        ensures x in c.artifacts <==> x in d.artifacts
      {
        var (role, sha) := x;
        assert HasContent(r, role, sha) <==> HasContent(s, role, sha);
      }
      forall x: SemanticPlan
        ensures x in c.plans <==> x in d.plans
      {
        assert x == SemanticPlan(x.measure, x.role, x.windows);
        assert HasPlan(r, x.measure, x.role, x.windows) <==> HasPlan(s, x.measure, x.role, x.windows);
      }
      forall x
        ensures x in c.costs <==> x in d.costs
      {
        assert x in r.costs <==> x in s.costs;
      }
      forall key
        ensures key in c.windows <==> key in d.windows
      {
        assert HasWindow(r, key) <==> HasWindow(s, key);
      }
      assert c.artifacts == d.artifacts && c.plans == d.plans && c.costs == d.costs && c.windows == d.windows;
    }
    if c == d {
      SameParts(r, s, c);
    }
  }

  ghost predicate DirtyPart(c: Configuration, r: Registration) {
    && c.role == r.role && c.dimensions == r.dimensions && c.selectionCost == r.selectionCost
    && c.commit == r.repository.commit && c.tree == r.repository.tree
    && c.dirty == if r.repository.dirty.None? then None
                  else Some((r.repository.dirty.value.0.sha, r.repository.dirty.value.1.sha))
  }

  lemma {:induction false} SameParts(r: Registration, s: Registration, c: Configuration)
    requires DirtyPart(c, r) && DirtyPart(c, s)
    requires forall role, sha :: (role, sha) in c.artifacts <==> HasContent(r, role, sha)
    requires forall role, sha :: (role, sha) in c.artifacts <==> HasContent(s, role, sha)
    requires forall x :: x in c.costs <==> x in r.costs
    requires forall x :: x in c.costs <==> x in s.costs
    requires forall key :: key in c.windows <==> HasWindow(r, key)
    requires forall key :: key in c.windows <==> HasWindow(s, key)
    requires forall m, role, keys :: SemanticPlan(m, role, keys) in c.plans <==> HasPlan(r, m, role, keys)
    requires forall m, role, keys :: SemanticPlan(m, role, keys) in c.plans <==> HasPlan(s, m, role, keys)
    ensures SameResearch(r, s)
  {
    hide HasContent, HasWindow, HasPlan;
    forall role, sha
      ensures HasContent(r, role, sha) <==> HasContent(s, role, sha)
    {
      assert (role, sha) in c.artifacts <==> HasContent(r, role, sha);
    }
    forall m, role, keys
      ensures HasPlan(r, m, role, keys) <==> HasPlan(s, m, role, keys)
    {
      assert SemanticPlan(m, role, keys) in c.plans <==> HasPlan(r, m, role, keys);
    }
  }

  /** In every accepted log no two trials of one policy are the same research, however relabelled. */
  lemma {:induction false} NoResearchTwice(h: Hashes, log: seq<Event>, st: State, i: nat, j: nat)
    requires Replay(h, log) == Loaded(st) && i < j < |st.trials|
    requires st.trials[i].registration.policy == st.trials[j].registration.policy
    ensures !SameResearch(st.trials[i].registration, st.trials[j].registration)
  {
    hide SameResearch, ConfigurationOf, Replay;
    ReplayInv(h, log);
    ConfigurationsOf(h, st);
    ConfigurationIsResearch(st.trials[i].registration, st.trials[j].registration);
  }

  lemma {:induction false} ConfigurationsOf(h: Hashes, st: State)
    requires Inv(h, st)
    ensures forall i :: 0 <= i < |st.trials| ==>
      st.trials[i].configuration == h.configuration(ConfigurationOf(st.trials[i].registration))
    ensures forall i, j :: 0 <= i < j < |st.trials| && st.trials[i].configuration == st.trials[j].configuration ==>
      st.trials[i].registration.policy != st.trials[j].registration.policy
  {
    hide LogInv, PolicyInv, AccessInv, LifeOk, FindPolicy, FindTrial, ValidRegistration, ValidPolicy, OnGrid, ParentOk,
      ConfigurationOf;
    forall i, j | 0 <= i < j < |st.trials| && st.trials[i].configuration == st.trials[j].configuration
      ensures st.trials[i].registration.policy != st.trials[j].registration.policy
    {
      assert ConfigurationKey(st.trials[i]) == ConfigurationKey(st.trials[j]);
    }
  }
}
