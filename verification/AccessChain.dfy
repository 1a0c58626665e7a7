/** The NEE-121 sample-access log that a registry event embeds: a hash chain whose
    results name an earlier attempt as their cause. */
module AccessChain {
  import opened Basics

  const GENESIS: Hash := 0
  const GOVERNANCE_CONTRACT: Id := 121
  const DAY_SECONDS: int := 86400
  // 2018-12-31 and 2021-12-31 as day numbers.
  const DEVELOPMENT_END: Date := 17896
  const CONFIRMATION_END: Date := 18992

  /** Texts; a registered window may carry any, an access event only the known ones. */
  type Classification = Id
  type AccessMode = Id
  const DEVELOPMENT: Classification := 1
  const CONFIRMATION: Classification := 2
  const STRESS: Classification := 3
  const PROSPECTIVE: Classification := 4
  const READ: AccessMode := 1
  const MATERIALIZE: AccessMode := 2
  const EXPORT: AccessMode := 3

  /** The seven fields that identify a sample window; both a registered window and
      an access request carry them. */
  datatype WindowKey = WindowKey(
    classification: Classification, start: Date, end: Date, mode: AccessMode,
    analysisAsOf: Time, vintageAt: Time, vintageSha: Hash)

  datatype AccessArtifact = AccessArtifact(id: Id, sha: Hash)

  /** Everything an access result must repeat from its cause. */
  datatype AccessRequest = AccessRequest(
    window: WindowKey, artifacts: seq<AccessArtifact>, purpose: Id, query: Id,
    content: Hash, run: Id, trial: Id)

  datatype AccessKind = Attempt | Denial | Retry | Success

  datatype AccessBody = AccessBody(
    id: Id, sequence: int, previous: Hash, parent: Hash, kind: AccessKind,
    at: Time, actor: Id, request: AccessRequest)

  datatype AccessEvent = AccessEvent(body: AccessBody, hash: Hash)

  function DateOf(t: Time): Date { t / DAY_SECONDS }

  /** `_validate_nee121_event`: what one access event must satisfy on its own. */
  predicate ValidAccess(hash: AccessBody -> Hash, a: AccessEvent) {
    var w := a.body.request.window;
    && a.body.sequence >= 1
    && w.start <= w.end
    && w.classification in {DEVELOPMENT, CONFIRMATION, STRESS, PROSPECTIVE}
    && w.mode in {READ, MATERIALIZE, EXPORT}
    && (a.body.kind == Success ==>
          && w.vintageAt <= w.analysisAsOf
          && w.end <= DateOf(w.analysisAsOf)
          && (w.classification == DEVELOPMENT ==> w.end <= DEVELOPMENT_END)
          && (w.classification == CONFIRMATION ==> w.end <= CONFIRMATION_END))
    && a.body.request.artifacts != []
    && (forall i, j :: 0 <= i < j < |a.body.request.artifacts| ==>
          a.body.request.artifacts[i].id != a.body.request.artifacts[j].id)
    && a.hash == hash(a.body)
  }

  /** Position `p` holds the event that `chain[..i]` currently files under `h`:
      a later event with the same digest replaces an earlier one. */
  predicate FiledAt(chain: seq<AccessEvent>, i: nat, h: Hash, p: nat)
    requires i <= |chain|
  {
    p < i && chain[p].hash == h && forall k :: p < k < i ==> chain[k].hash != h
  }

  /** The kinds of cause an event may name. */
  predicate MayCause(cause: AccessKind, effect: AccessKind) {
    if effect == Retry then cause == Denial else cause == Attempt || cause == Retry
  }

  predicate CausedBy(chain: seq<AccessEvent>, i: nat, p: nat)
    requires i < |chain|
  {
    && FiledAt(chain, i, chain[i].body.parent, p)
    && MayCause(chain[p].body.kind, chain[i].body.kind)
    && chain[p].body.request == chain[i].body.request
  }

  predicate Caused(chain: seq<AccessEvent>, i: nat)
    requires i < |chain|
  {
    if chain[i].body.kind == Attempt then chain[i].body.parent == GENESIS
    else exists p :: 0 <= p < i && CausedBy(chain, i, p)
  }

  /** What the validator's loop checks at position `i`. */
  predicate Linked(hash: AccessBody -> Hash, chain: seq<AccessEvent>, i: nat)
    requires i < |chain|
  {
    var b := chain[i].body;
    && ValidAccess(hash, chain[i])
    && b.sequence == i + 1
    && b.previous == (if i == 0 then GENESIS else chain[i - 1].hash)
    && (forall k :: 0 <= k < i ==> chain[k].body.id != b.id)
    && (i > 0 ==> chain[i - 1].body.at <= b.at)
    && Caused(chain, i)
  }

  predicate ValidChain(hash: AccessBody -> Hash, chain: seq<AccessEvent>) {
    forall i :: 0 <= i < |chain| ==> Linked(hash, chain, i)
  }

  /** `validate_nee121_sample_access_binding`: the loop over a non-empty chain, with
      the source's dictionary of prior events and set of seen ids. */
  method ValidateChain(hash: AccessBody -> Hash, chain: seq<AccessEvent>) returns (ok: bool)
    ensures ok <==> ValidChain(hash, chain)
  {
    var previous := GENESIS;
    var prior: map<Hash, nat> := map[];
    var seenIds: set<Id> := {};
    var i := 0;
    while i < |chain|
      invariant 0 <= i <= |chain|
      invariant previous == if i == 0 then GENESIS else chain[i - 1].hash
      invariant seenIds == set k | 0 <= k < i :: chain[k].body.id
      invariant forall h :: h in prior ==> FiledAt(chain, i, h, prior[h])
      invariant forall k :: 0 <= k < i ==> chain[k].hash in prior
      invariant forall k :: 0 <= k < i ==> Linked(hash, chain, k)
    {
      var b := chain[i].body;
      if !ValidAccess(hash, chain[i]) || b.sequence != i + 1 || b.previous != previous || b.id in seenIds {
        assert !Linked(hash, chain, i);
        return false;
      }
      if i > 0 && b.at < chain[i - 1].body.at {
        assert !Linked(hash, chain, i);
        return false;
      }
      if b.kind == Attempt {
        if b.parent != GENESIS {
          assert !Linked(hash, chain, i);
          return false;
        }
      } else if b.parent !in prior {
        assert !Linked(hash, chain, i);
        return false;
      } else {
        var p := prior[b.parent];
        assert forall q :: 0 <= q < i && CausedBy(chain, i, q) ==> q == p;
        assert CausedBy(chain, i, p) <==> MayCause(chain[p].body.kind, b.kind) && chain[p].body.request == b.request;
        if !MayCause(chain[p].body.kind, b.kind) || chain[p].body.request != b.request {
          assert !Linked(hash, chain, i);
          return false;
        }
      }
      assert Linked(hash, chain, i);
      previous := chain[i].hash;
      prior := prior[previous := i];
      seenIds := seenIds + {b.id};
      i := i + 1;
    }
    return true;
  }

  /** `path` climbs from position `i` to an attempt, one cause at a time. */
  ghost predicate TracesToAttempt(chain: seq<AccessEvent>, path: seq<nat>, i: nat) {
    && path != []
    && path[0] == i
    && (forall k :: 0 <= k < |path| ==> path[k] < |chain|)
    && (forall k :: 0 <= k < |path| - 1 ==>
          && path[k + 1] < path[k]
          && chain[path[k]].body.kind != Attempt
          && chain[path[k + 1]].hash == chain[path[k]].body.parent)
    && (forall k :: 0 <= k < |path| ==> chain[path[k]].body.request == chain[i].body.request)
    && chain[path[|path| - 1]].body.kind == Attempt
  }

  /** Every event of a valid chain descends, through strictly earlier parents, from an
      attempt with the same trial, run, window and request content. */
  lemma {:induction false} EveryAccessHasAnAttempt(hash: AccessBody -> Hash, chain: seq<AccessEvent>, i: nat)
    returns (path: seq<nat>)
    requires ValidChain(hash, chain) && i < |chain|
    ensures TracesToAttempt(chain, path, i)
  {
    assert Linked(hash, chain, i);
    if chain[i].body.kind == Attempt {
      path := [i];
    } else {
      var p: nat :| p < i && CausedBy(chain, i, p);
      var rest := EveryAccessHasAnAttempt(hash, chain, p);
      path := [i] + rest;
      assert forall k :: 1 <= k < |path| ==> path[k] == rest[k - 1];
    }
  }

  /** The first event of a trial's run in a valid chain is an attempt. */
  lemma {:induction false} FirstOfRunIsAttempt(hash: AccessBody -> Hash, chain: seq<AccessEvent>, trial: Id, run: Id,
                                               i: nat)
    requires ValidChain(hash, chain) && i < |chain|
    requires chain[i].body.request.trial == trial && chain[i].body.request.run == run
    requires forall k :: 0 <= k < i ==> !(chain[k].body.request.trial == trial && chain[k].body.request.run == run)
    ensures chain[i].body.kind == Attempt
  {
    assert Linked(hash, chain, i);
  }

  /** With a collision-free digest no two positions of a valid chain share a hash. */
  lemma {:induction false} ChainHashesDiffer(hash: AccessBody -> Hash, chain: seq<AccessEvent>, i: nat, j: nat)
    requires ValidChain(hash, chain) && Injective(hash) && i < j < |chain|
    ensures chain[i].hash != chain[j].hash
  {
    assert Linked(hash, chain, i) && Linked(hash, chain, j);
  }

  lemma {:induction false} LinkFacts(hash: AccessBody -> Hash, chain: seq<AccessEvent>, i: nat)
    requires ValidChain(hash, chain) && i < |chain|
    ensures chain[i].hash == hash(chain[i].body) && chain[i].body.sequence == i + 1
    ensures chain[i].body.previous == if i == 0 then GENESIS else chain[i - 1].hash
  {
    assert Linked(hash, chain, i);
  }

  /** With a collision-free digest two valid chains that share a hash agree on every event up to
      it: an access head pins its whole chain. */
  lemma {:induction false} SharedAccessSharedPrefix(hash: AccessBody -> Hash, a: seq<AccessEvent>, b: seq<AccessEvent>,
                                                    i: nat, j: nat)
    requires ValidChain(hash, a) && ValidChain(hash, b) && Injective(hash)
    requires i < |a| && j < |b| && a[i].hash == b[j].hash
    ensures i == j && a[..i + 1] == b[..j + 1]
    decreases i
  {
    hide ValidChain;
    LinkFacts(hash, a, i);
    LinkFacts(hash, b, j);
    assert a[i] == b[j];
    if i == 0 {
    } else {
      SharedAccessSharedPrefix(hash, a, b, i - 1, j - 1);
      assert a[..i + 1] == a[..i] + [a[i]] && b[..j + 1] == b[..j] + [b[j]];
    }
  }

  function ArtifactIds(artifacts: seq<AccessArtifact>): set<Id> { set x | x in artifacts :: x.id }

  /** The digest an event of a growing log must name as its previous one. */
  function HeadOf(chain: seq<AccessEvent>): Hash { if chain == [] then GENESIS else chain[|chain| - 1].hash }

  /** What an access log admits next: the next number, on top of the head, under a new id, no
      earlier than the last event, well formed, and either an attempt on its own or caused by the
      event last filed under the digest it names. */
  ghost predicate Admits(hash: AccessBody -> Hash, chain: seq<AccessEvent>, a: AccessEvent) {
    && a.body.sequence == |chain| + 1 && a.body.previous == HeadOf(chain) && a.hash == hash(a.body)
    && (forall b :: b in chain ==> b.body.id != a.body.id && b.body.at <= a.body.at)
    && Sampled(a.body.kind, a.body.request.window)
    && a.body.request.artifacts != []
    && |a.body.request.artifacts| == |ArtifactIds(a.body.request.artifacts)|
    && if a.body.kind == Attempt then a.body.parent == GENESIS else exists p :: 0 <= p < |chain| && Causes(chain, p, a)
  }

  /** The event last filed under the named digest made the same request; it is a denial that is tried
      again, or an attempt or a retry that is denied or succeeds. */
  predicate Causes(chain: seq<AccessEvent>, p: nat, a: AccessEvent)
    requires p < |chain|
  {
    && chain[p].hash == a.body.parent && (forall k :: p < k < |chain| ==> chain[k].hash != a.body.parent)
    && (a.body.kind == Retry ==> chain[p].body.kind == Denial)
    && (a.body.kind != Retry ==> chain[p].body.kind == Attempt || chain[p].body.kind == Retry)
    && chain[p].body.request == a.body.request
  }

  /** The sample law: known labels and an ordered range; a success looks at nothing after its
      analysis date, at no later vintage, and not past the end of a closed sample. */
  predicate Sampled(kind: AccessKind, w: WindowKey) {
    && w.classification in {DEVELOPMENT, CONFIRMATION, STRESS, PROSPECTIVE} && w.mode in {READ, MATERIALIZE, EXPORT}
    && w.start <= w.end
    && (kind == Success ==> w.vintageAt <= w.analysisAsOf && w.end <= Latest(w.classification, DateOf(w.analysisAsOf)))
  }

  function Latest(classification: Classification, asOf: Date): Date {
    if classification == DEVELOPMENT && DEVELOPMENT_END < asOf then DEVELOPMENT_END
    else if classification == CONFIRMATION && CONFIRMATION_END < asOf then CONFIRMATION_END
    else asOf
  }

  lemma {:induction false} TimesAscend(hash: AccessBody -> Hash, chain: seq<AccessEvent>, i: nat, j: nat)
    requires ValidChain(hash, chain) && i <= j < |chain|
    ensures chain[i].body.at <= chain[j].body.at
    decreases j
  {
    assert Linked(hash, chain, j);
    if i < j {
      TimesAscend(hash, chain, i, j - 1);
    }
  }

  lemma {:induction false} DistinctIds(artifacts: seq<AccessArtifact>)
    ensures |artifacts| == |ArtifactIds(artifacts)| <==>
      forall i, j :: 0 <= i < j < |artifacts| ==> artifacts[i].id != artifacts[j].id
  {
    var ids := seq(|artifacts|, i requires 0 <= i < |artifacts| => artifacts[i].id);
    forall x | x in artifacts
      ensures x.id in ids
    {
      var i :| 0 <= i < |artifacts| && artifacts[i] == x;
      assert ids[i] == x.id;
    }
    assert Elements(ids) == ArtifactIds(artifacts);
    if |artifacts| == |ArtifactIds(artifacts)| {
      CountDistinct(ids);
      forall i, j | 0 <= i < j < |artifacts|
        ensures artifacts[i].id != artifacts[j].id
      {
        assert ids[i] != ids[j];
      }
    }
    if forall i, j :: 0 <= i < j < |artifacts| ==> artifacts[i].id != artifacts[j].id {
      assert Distinct(ids);
      DistinctCount(ids);
    }
  }

  /** A valid chain is exactly one that an access log admitted event by event. */
  lemma {:induction false} ChainGrows(hash: AccessBody -> Hash, chain: seq<AccessEvent>, a: AccessEvent)
    ensures ValidChain(hash, chain + [a]) <==> ValidChain(hash, chain) && Admits(hash, chain, a)
  {
    var longer, n := chain + [a], |chain|;
    assert longer[..n] == chain && longer[n] == a;
    hide ValidChain, Linked, Admits;
    forall i | 0 <= i < n { LinkedBelow(hash, chain, a, i); }
    LinksOf(hash, chain);
    LinksOf(hash, longer);
    if ValidChain(hash, chain) {
      AdmitsIsLinked(hash, chain, a);
    }
  }

  lemma {:induction false} LinksOf(hash: AccessBody -> Hash, chain: seq<AccessEvent>)
    ensures ValidChain(hash, chain) <==> forall i :: 0 <= i < |chain| ==> Linked(hash, chain, i)
  {}

  lemma {:induction false} LinkedBelow(hash: AccessBody -> Hash, chain: seq<AccessEvent>, a: AccessEvent, i: nat)
    requires i < |chain|
    ensures Linked(hash, chain + [a], i) <==> Linked(hash, chain, i)
  {
    hide ValidAccess;
    var longer := chain + [a];
    assert forall k :: 0 <= k <= i ==> longer[k] == chain[k];
    assert forall p :: 0 <= p < i ==> (CausedBy(longer, i, p) <==> CausedBy(chain, i, p));
  }

  lemma {:induction false} AdmitsIsLinked(hash: AccessBody -> Hash, chain: seq<AccessEvent>, a: AccessEvent)
    requires ValidChain(hash, chain)
    ensures Linked(hash, chain + [a], |chain|) <==> Admits(hash, chain, a)
  {
    hide ValidChain;
    var longer, n := chain + [a], |chain|;
    assert longer[n] == a && forall k :: 0 <= k < n ==> longer[k] == chain[k];
    forall k | 0 <= k < n
      ensures n > 0 && chain[k].body.at <= chain[n - 1].body.at
    {
      TimesAscend(hash, chain, k, n - 1);
    }
    DistinctIds(a.body.request.artifacts);
    SampledIs(hash, a);
    IdsAndTimes(chain, a);
    CausesIs(chain, a);
    hide ValidAccess, Caused, Causes, Sampled, ArtifactIds;
  }

  lemma {:induction false} CausesIs(chain: seq<AccessEvent>, a: AccessEvent)
    ensures Caused(chain + [a], |chain|) <==>
      if a.body.kind == Attempt then a.body.parent == GENESIS else exists p :: 0 <= p < |chain| && Causes(chain, p, a)
  {
    var longer, n := chain + [a], |chain|;
    assert longer[n] == a && forall k :: 0 <= k < n ==> longer[k] == chain[k];
    forall p | 0 <= p < n
      ensures CausedBy(longer, n, p) <==> Causes(chain, p, a)
    {
    }
  }

  lemma {:induction false} SampledIs(hash: AccessBody -> Hash, a: AccessEvent)
    ensures ValidAccess(hash, a) <==>
      && a.body.sequence >= 1
      && Sampled(a.body.kind, a.body.request.window) && a.body.request.artifacts != [] && a.hash == hash(a.body)
      && forall i, j :: 0 <= i < j < |a.body.request.artifacts| ==>
           a.body.request.artifacts[i].id != a.body.request.artifacts[j].id
  {}

  lemma {:induction false} IdsAndTimes(chain: seq<AccessEvent>, a: AccessEvent)
    requires forall k :: 0 <= k < |chain| ==> chain[k].body.at <= chain[|chain| - 1].body.at
    ensures (forall b :: b in chain ==> b.body.id != a.body.id && b.body.at <= a.body.at) <==>
      && (forall k :: 0 <= k < |chain| ==> chain[k].body.id != a.body.id)
      && (chain != [] ==> chain[|chain| - 1].body.at <= a.body.at)
  {
    assert forall k :: 0 <= k < |chain| ==> chain[k] in chain;
  }
}
