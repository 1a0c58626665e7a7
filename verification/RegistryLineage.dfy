/** Parent links over the whole history: every trial walks back one policy at a time to a
    root of the first policy, and re-exposed configurations form unbroken chains. */
module RegistryLineage {
  import opened Basics
  import opened RegistryModel
  import opened Registry
  import opened RegistryInvariant

  /** The position reached from `i` by following `n` parent links; -1 when a link is missing. */
  function Ancestor(ts: seq<Trial>, i: int, n: nat): (a: int)
    requires -1 <= i < |ts|
    ensures -1 <= a < |ts|
    decreases n
  {
    if n == 0 || i < 0 then i
    else if ts[i].registration.parent.None? then -1
    else
      var k := FindTrial(ts, ts[i].registration.parent.value);
      if k == |ts| then -1 else Ancestor(ts, k, n - 1)
  }

  /** After `n` links the walk stands exactly `n` policies earlier, in the same family and
      hypothesis, and it can go on exactly until the first policy. */
  lemma {:induction false} WalkBack(ps: seq<PolicyEntry>, ts: seq<Trial>, i: nat, n: nat)
    requires i < |ts| && n <= Generation(ps, ts[i])
    requires forall j :: 0 <= j < |ts| ==> ParentOk(ps, ts, j)
    ensures var a := Ancestor(ts, i, n);
      && 0 <= a <= i && (n > 0 ==> a < i)
      && Generation(ps, ts[a]) == Generation(ps, ts[i]) - n
      && ts[a].registration.family == ts[i].registration.family
      && ts[a].registration.hypothesis == ts[i].registration.hypothesis
      && (ts[a].registration.parent.None? <==> n == Generation(ps, ts[i]))
    decreases n
  {
    hide FindTrial, FindPolicy;
    assert ParentOk(ps, ts, i);
    if n > 0 {
      var k := FindTrial(ts, ts[i].registration.parent.value);
      WalkBack(ps, ts, k, n - 1);
    }
  }

  /** Two trials with one key: the earlier is the later's ancestor, as many links back as it is
      policies earlier, and every trial on the way carries the key. */
  lemma {:induction false} SameKeyIsAncestor(ps: seq<PolicyEntry>, ts: seq<Trial>, key: Trial -> int, i: nat, j: nat)
    requires i < j < |ts| && key(ts[i]) == key(ts[j]) && KeyLineage(ts, key)
    requires forall k :: 0 <= k < |ts| ==> ParentOk(ps, ts, k)
    requires forall a, b :: 0 <= a < b < |ts| ==> ts[a].id != ts[b].id
    ensures Generation(ps, ts[i]) < Generation(ps, ts[j])
    ensures Ancestor(ts, j, Generation(ps, ts[j]) - Generation(ps, ts[i])) == i
    ensures forall m {:trigger Ancestor(ts, j, m)} :: 0 <= m <= Generation(ps, ts[j]) - Generation(ps, ts[i]) ==>
      Ancestor(ts, j, m) >= 0 && key(ts[Ancestor(ts, j, m)]) == key(ts[j])
    decreases j
  {
    hide FindTrial, FindPolicy, KeyLineage, ParentOk;
    var k := LastWithKey(ts, key, i, j);
    assert ts[j].registration.parent == Some(ts[k].id) && FindTrial(ts, ts[k].id) == k by {
      NextInLineage(ts, key, k, j);
    }
    assert Generation(ps, ts[k]) + 1 == Generation(ps, ts[j]) by { ParentGeneration(ps, ts, j, k); }
    if k > i {
      SameKeyIsAncestor(ps, ts, key, i, k);
    }
    var d := Generation(ps, ts[j]) - Generation(ps, ts[i]);
    forall m {:trigger Ancestor(ts, j, m)} | 0 <= m <= d
      ensures Ancestor(ts, j, m) >= 0 && key(ts[Ancestor(ts, j, m)]) == key(ts[j])
    {
      if m > 0 {
        assert Ancestor(ts, j, m) == Ancestor(ts, k, m - 1);
      }
    }
  }

  lemma {:induction false} ParentGeneration(ps: seq<PolicyEntry>, ts: seq<Trial>, j: nat, k: nat)
    requires j < |ts| && k < |ts| && ParentOk(ps, ts, j)
    requires ts[j].registration.parent == Some(ts[k].id) && FindTrial(ts, ts[k].id) == k
    ensures Generation(ps, ts[k]) + 1 == Generation(ps, ts[j])
  {
    hide FindTrial, FindPolicy;
  }

  lemma {:induction false} NextInLineage(ts: seq<Trial>, key: Trial -> int, k: nat, j: nat)
    requires k < j < |ts| && key(ts[k]) == key(ts[j]) && KeyLineage(ts, key)
    requires forall m :: k < m < j ==> key(ts[m]) != key(ts[j])
    requires forall a, b :: 0 <= a < b < |ts| ==> ts[a].id != ts[b].id
    ensures ts[j].registration.parent == Some(ts[k].id) && FindTrial(ts, ts[k].id) == k
  {
    hide FindTrial;
  }

  lemma {:induction false} LastWithKey(ts: seq<Trial>, key: Trial -> int, i: nat, j: nat) returns (k: nat)
    requires i < j < |ts| && key(ts[i]) == key(ts[j])
    ensures i <= k < j && key(ts[k]) == key(ts[j]) && forall m :: k < m < j ==> key(ts[m]) != key(ts[j])
  {
    k := j - 1;
    while key(ts[k]) != key(ts[j])
      invariant i <= k < j
      decreases k
      invariant forall m :: k < m < j ==> key(ts[m]) != key(ts[j])
    {
      k := k - 1;
    }
  }

  /** In every accepted log a trial walks back, one policy per link, to a parentless trial of
      the first policy with the same family and hypothesis. */
  lemma {:induction false} EveryTrialHasARoot(h: Hashes, log: seq<Event>, st: State, i: nat)
    requires Replay(h, log) == Loaded(st) && i < |st.trials|
    ensures Generation(st.policies, st.trials[i]) < |st.policies|
    ensures var root := Ancestor(st.trials, i, Generation(st.policies, st.trials[i]));
      && 0 <= root <= i
      && st.trials[root].registration.policy == st.policies[0].policy.id
      && st.trials[root].registration.parent.None?
      && st.trials[root].registration.family == st.trials[i].registration.family
      && st.trials[root].registration.hypothesis == st.trials[i].registration.hypothesis
  {
    ReplayInv(h, log);
    LineageParts(h, st);
    hide Inv, FindPolicy, FindTrial, ParentOk, KeyLineage, Replay;
    WalkBack(st.policies, st.trials, i, Generation(st.policies, st.trials[i]));
  }

  /** In every accepted log trials that share a configuration digest, or a structural id, are
      successive generations of one unbroken parent chain, at most one per policy; a structural
      id keeps its coordinate. */
  lemma {:induction false} EqualKeysAreOneChain(h: Hashes, log: seq<Event>, st: State, i: nat, j: nat,
                                                key: Trial -> int)
    requires Replay(h, log) == Loaded(st) && i < j < |st.trials|
    requires key in {ConfigurationKey, StructuralKey} && key(st.trials[i]) == key(st.trials[j])
    ensures var d := Generation(st.policies, st.trials[j]) - Generation(st.policies, st.trials[i]);
      && d > 0
      && Ancestor(st.trials, j, d) == i
      && (forall m {:trigger Ancestor(st.trials, j, m)} :: 0 <= m <= d ==>
            Ancestor(st.trials, j, m) >= 0 && key(st.trials[Ancestor(st.trials, j, m)]) == key(st.trials[j]))
    ensures key == StructuralKey ==> CoordinateOf(st.trials[i].registration) == CoordinateOf(st.trials[j].registration)
  {
    hide *;
    ReplayInv(h, log);
    LineageParts(h, st);
    SameKeyIsAncestor(st.policies, st.trials, key, i, j);
  }

  lemma {:induction false} LineageParts(h: Hashes, st: State)
    requires Inv(h, st)
    ensures forall k :: 0 <= k < |st.trials| ==> ParentOk(st.policies, st.trials, k)
    ensures forall k :: 0 <= k < |st.trials| ==> Generation(st.policies, st.trials[k]) < |st.policies|
    ensures forall a, b :: 0 <= a < b < |st.trials| ==> st.trials[a].id != st.trials[b].id
    ensures KeyLineage(st.trials, ConfigurationKey) && KeyLineage(st.trials, StructuralKey)
    ensures forall i, j :: 0 <= i < j < |st.trials| && StructuralKey(st.trials[i]) == StructuralKey(st.trials[j]) ==>
      CoordinateOf(st.trials[i].registration) == CoordinateOf(st.trials[j].registration)
  {
    hide FindPolicy, FindTrial, LogInv, PolicyInv, AccessInv, LifeOk, KeyLineage, ParentOk, TrialOk;
  }
}
