/** What the hash chain of a composed run pins, and why the order in which a plan lists its folds
    does not matter. */
module WalkForwardChain {
  import opened Basics
  import opened Sorting
  import opened WalkForward
  import opened WalkForwardTheorems

  // ------------------------------------------------------------------- the chain

  /** The carried-state identity a fold after `ps` binds. */
  function CarriedInto(w: World, ps: seq<Partition>): Option<Hash> {
    if ps == [] then None
    else
      var close := CloseOf(ps[|ps| - 1]);
      if close.Some? then Some(w.carry(CarryDocumentOf(w.num, close.value.portfolio))) else None
  }

  /** The document a partition's link must digest, read off the partition itself. */
  function DocumentOf(w: World, slot: Slot, before: seq<Partition>, q: Partition): ChainDocument {
    var carried := CarriedInto(w, before);
    var material :=
      if q.ValidPartition? && q.fold.ValidFold? then ResultMaterial(carried, ResultIdentity(w, slot.inputs, q.fold))
      else if q.DegradedPartition? then ReasonMaterial(carried, q.reasons) else ReasonMaterial(carried, []);
    LinkDocument(material, q.ordinal, FoldId(w, slot.inputs), if q.ValidPartition? then Valid else Degraded,
      ChainHead(w, before))
  }

  lemma {:induction false} LinkRecords(w: World, authorized: set<Hash>, slots: seq<Slot>, i: nat)
    requires i < |slots|
    ensures var ps := RunSlots(w, authorized, slots);
            && ps[i].ordinal == slots[i].ordinal
            && (ps[i].ValidPartition? ==> ps[i].fold.ValidFold?)
            && ps[i].link.document == DocumentOf(w, slots[i], ps[..i], ps[i])
            && ps[i].link.hash == w.chain(ps[i].link.document)
  {
    hide RunSlots;
    RunAt(w, authorized, slots, i);
  }

  /** What an outsider reads in a fold's row of the chain. */
  datatype Entry = Entry(ordinal: int, foldId: Hash, valid: bool, carried: Option<Hash>, result: Option<Hash>,
    reasons: seq<Id>)

  function EntryOf(w: World, slot: Slot, before: seq<Partition>, q: Partition): Entry {
    Entry(q.ordinal, FoldId(w, slot.inputs), q.ValidPartition?, CarriedInto(w, before),
          if q.ValidPartition? && q.fold.ValidFold? then Some(ResultIdentity(w, slot.inputs, q.fold)) else None,
          if q.DegradedPartition? then q.reasons else [])
  }

  /** The ordered list of entries of a run. */
  function Entries(w: World, authorized: set<Hash>, slots: seq<Slot>): (es: seq<Entry>)
    ensures |es| == |slots|
  {
    var ps := RunSlots(w, authorized, slots);
    seq(|slots|, i requires 0 <= i < |slots| => EntryOf(w, slots[i], ps[..i], ps[i]))
  }

  lemma {:induction false} EntriesPrefix(w: World, authorized: set<Hash>, slots: seq<Slot>, n: nat)
    requires |slots| == n + 1
    ensures Entries(w, authorized, slots)[..n] == Entries(w, authorized, slots[..n])
  {
    hide RunSlots, EntryOf;
    var ps := RunSlots(w, authorized, slots);
    RunAt(w, authorized, slots, n);
    var qs := RunSlots(w, authorized, slots[..n]);
    assert ps[..n] == qs;
    forall i | 0 <= i < n
      ensures Entries(w, authorized, slots)[i] == Entries(w, authorized, slots[..n])[i]
    {
      assert qs[..i] == ps[..i];
    }
  }

  lemma {:induction false} LastEntry(v: World, a: set<Hash>, s: seq<Slot>, w: World, b: set<Hash>, t: seq<Slot>,
                                     m: nat, n: nat)
    requires v.chain == w.chain && Injective(w.chain) && |s| == m + 1 && |t| == n + 1
    requires ChainHead(v, RunSlots(v, a, s)) == ChainHead(w, RunSlots(w, b, t))
    ensures Entries(v, a, s)[m] == Entries(w, b, t)[n]
    ensures ChainHead(v, RunSlots(v, a, s[..m])) == ChainHead(w, RunSlots(w, b, t[..n]))
  {
    hide RunSlots;
    LinkRecords(v, a, s, m);
    LinkRecords(w, b, t, n);
    RunAt(v, a, s, m);
    RunAt(w, b, t, n);
  }

  lemma {:induction false} LinkIsNoGenesis(w: World, a: set<Hash>, s: seq<Slot>)
    requires Injective(w.chain) && s != []
    ensures ChainHead(w, RunSlots(w, a, s)) != GenesisHash(w)
  {
    hide RunSlots;
    LinkRecords(w, a, s, |s| - 1);
  }

  /** Runs with the same chain head, whatever their engines, authorizations and plans, have the
      same number of folds and the same ordered entries. */
  lemma {:induction false} HeadPinsTheRun(v: World, a: set<Hash>, s: seq<Slot>, w: World, b: set<Hash>, t: seq<Slot>)
    requires v.chain == w.chain && Injective(w.chain)
    requires ChainHead(v, RunSlots(v, a, s)) == ChainHead(w, RunSlots(w, b, t))
    ensures Entries(v, a, s) == Entries(w, b, t)
    decreases |s|
  {
    hide RunSlots, Entries;
    if s == [] || t == [] {
      EmptyRun(v, a);
      EmptyRun(w, b);
      if s != [] { LinkIsNoGenesis(v, a, s); }
      if t != [] { LinkIsNoGenesis(w, b, t); }
    } else {
      var m, n := |s| - 1, |t| - 1;
      LastEntry(v, a, s, w, b, t, m, n);
      HeadPinsTheRun(v, a, s[..m], w, b, t[..n]);
      EntriesPrefix(v, a, s, m);
      EntriesPrefix(w, b, t, n);
      var es, fs := Entries(v, a, s), Entries(w, b, t);
      assert es == es[..m] + [es[m]] && fs == fs[..n] + [fs[n]];
    }
  }

  lemma {:induction false} EmptyRun(w: World, a: set<Hash>)
    ensures RunSlots(w, a, []) == [] && ChainHead(w, RunSlots(w, a, [])) == GenesisHash(w) && Entries(w, a, []) == []
  {
  }

  /** Conversely the entries determine the head: nothing else is hashed. */
  lemma {:induction false} EntriesFixTheHead(v: World, a: set<Hash>, s: seq<Slot>, w: World, b: set<Hash>, t: seq<Slot>)
    requires v.chain == w.chain && Entries(v, a, s) == Entries(w, b, t)
    ensures ChainHead(v, RunSlots(v, a, s)) == ChainHead(w, RunSlots(w, b, t))
    decreases |s|
  {
    hide RunSlots, Entries;
    assert |s| == |Entries(v, a, s)| && |t| == |Entries(w, b, t)|;
    if s == [] {
      EmptyRun(v, a);
      EmptyRun(w, b);
    } else {
      var n := |s| - 1;
      EntriesPrefix(v, a, s, n);
      EntriesPrefix(w, b, t, n);
      EntriesFixTheHead(v, a, s[..n], w, b, t[..n]);
      SameLastLink(v, a, s, w, b, t, n);
    }
  }

  lemma {:induction false} SameLastLink(v: World, a: set<Hash>, s: seq<Slot>, w: World, b: set<Hash>, t: seq<Slot>,
                                        n: nat)
    requires v.chain == w.chain && |s| == n + 1 && |t| == n + 1 && Entries(v, a, s)[n] == Entries(w, b, t)[n]
    requires ChainHead(v, RunSlots(v, a, s[..n])) == ChainHead(w, RunSlots(w, b, t[..n]))
    ensures ChainHead(v, RunSlots(v, a, s)) == ChainHead(w, RunSlots(w, b, t))
  {
    hide RunSlots;
    LinkRecords(v, a, s, n);
    LinkRecords(w, b, t, n);
    RunAt(v, a, s, n);
    RunAt(w, b, t, n);
  }

  /** With an injective carry digest the same head also pins what every fold was handed: cash,
      receivables, actions, lots and held positions of each valid predecessor. */
  lemma {:induction false} HeadPinsTheCarry(v: World, a: set<Hash>, s: seq<Slot>, w: World, b: set<Hash>,
                                            t: seq<Slot>, i: nat)
    requires v.chain == w.chain && Injective(w.chain) && v.carry == w.carry && Injective(w.carry)
    requires ChainHead(v, RunSlots(v, a, s)) == ChainHead(w, RunSlots(w, b, t))
    requires 0 < i < |s|
    ensures |t| == |s|
    ensures var p, q := RunSlots(v, a, s)[i - 1], RunSlots(w, b, t)[i - 1];
            && (p.ValidPartition? <==> q.ValidPartition?)
            && (p.ValidPartition? ==>
                  && p.fold.ValidFold? && q.fold.ValidFold?
                  && CarryDocumentOf(v.num, p.fold.closing) == CarryDocumentOf(w.num, q.fold.closing))
  {
    hide RunSlots, FoldDocumentOf, DocumentOf, Held;
    HeadPinsTheRun(v, a, s, w, b, t);
    assert |s| == |Entries(v, a, s)| && |t| == |Entries(w, b, t)|;
    assert Entries(v, a, s)[i] == Entries(w, b, t)[i] && Entries(v, a, s)[i - 1] == Entries(w, b, t)[i - 1];
    LinkRecords(v, a, s, i - 1);
    LinkRecords(w, b, t, i - 1);
    var ps, qs := RunSlots(v, a, s)[..i], RunSlots(w, b, t)[..i];
    assert ps[|ps| - 1] == RunSlots(v, a, s)[i - 1] && qs[|qs| - 1] == RunSlots(w, b, t)[i - 1];
  }

  // ------------------------------------------------------- what the head pins

  lemma {:induction false} LinkNav(w: World, authorized: set<Hash>, slots: seq<Slot>, i: nat)
    requires i < |slots|
    ensures var ps := RunSlots(w, authorized, slots);
            var close := if i == 0 then None else CloseOf(ps[i - 1]);
            && ps[i].link.predecessorNav == (if close.Some? then Some(close.value.nav) else None)
            && (ps[i].ValidPartition? ==>
                  && ps[i].fold.ValidFold? && ps[i].link.carriedInNav == ps[i].fold.initialNav
                  && ps[i].link.carry == if i == 0 then Genesis else Continuous)
  {
    hide RunSlots;
    RunAt(w, authorized, slots, i);
  }

  /** With an injective result digest the same head pins every valid fold as a whole: its opening,
      its close, its figures. */
  lemma {:induction false} HeadPinsTheFolds(v: World, a: set<Hash>, s: seq<Slot>, w: World, b: set<Hash>, t: seq<Slot>,
                                            i: nat)
    requires v.chain == w.chain && Injective(w.chain) && v.result == w.result && Injective(w.result)
    requires ChainHead(v, RunSlots(v, a, s)) == ChainHead(w, RunSlots(w, b, t)) && i < |s|
    ensures |t| == |s|
    ensures var p, q := RunSlots(v, a, s)[i], RunSlots(w, b, t)[i];
            && (p.ValidPartition? <==> q.ValidPartition?)
            && (p.ValidPartition? ==> p.fold.ValidFold? && q.fold == p.fold)
            && CloseOf(p) == CloseOf(q)
  {
    hide RunSlots;
    HeadPinsTheRun(v, a, s, w, b, t);
    assert |s| == |Entries(v, a, s)| && |t| == |Entries(w, b, t)|;
    assert Entries(v, a, s)[i] == Entries(w, b, t)[i];
    LinkRecords(v, a, s, i);
    LinkRecords(w, b, t, i);
  }

  lemma {:induction false} HeadPinsDocuments(v: World, a: set<Hash>, s: seq<Slot>, w: World, b: set<Hash>, t: seq<Slot>,
                                             i: nat)
    requires v.chain == w.chain && Injective(w.chain)
    requires ChainHead(v, RunSlots(v, a, s)) == ChainHead(w, RunSlots(w, b, t)) && i < |s|
    ensures |t| == |s|
    ensures var p, q := RunSlots(v, a, s)[i], RunSlots(w, b, t)[i];
            p.ordinal == q.ordinal && p.link.document == q.link.document && p.link.hash == q.link.hash
    decreases |s|
  {
    hide RunSlots, Entries, DocumentOf;
    if t == [] {
      EmptyRun(w, b);
      LinkIsNoGenesis(v, a, s);
    } else {
      var m, n := |s| - 1, |t| - 1;
      LastDocument(v, a, s, w, b, t, m, n);
      HeadPinsTheRun(v, a, s, w, b, t);
      assert |s| == |Entries(v, a, s)| && |t| == |Entries(w, b, t)|;
      if i < m {
        HeadPinsDocuments(v, a, s[..m], w, b, t[..n], i);
        RunAt(v, a, s, m);
        RunAt(w, b, t, n);
        assert RunSlots(v, a, s)[..m][i] == RunSlots(v, a, s)[i];
        assert RunSlots(w, b, t)[..n][i] == RunSlots(w, b, t)[i];
      }
    }
  }

  lemma {:induction false} LastDocument(v: World, a: set<Hash>, s: seq<Slot>, w: World, b: set<Hash>, t: seq<Slot>,
                                        m: nat, n: nat)
    requires v.chain == w.chain && Injective(w.chain) && |s| == m + 1 && |t| == n + 1
    requires ChainHead(v, RunSlots(v, a, s)) == ChainHead(w, RunSlots(w, b, t))
    ensures var p, q := RunSlots(v, a, s)[m], RunSlots(w, b, t)[n];
            p.ordinal == q.ordinal && p.link.document == q.link.document && p.link.hash == q.link.hash
    ensures ChainHead(v, RunSlots(v, a, s[..m])) == ChainHead(w, RunSlots(w, b, t[..n]))
  {
    hide RunSlots;
    LinkRecords(v, a, s, m);
    LinkRecords(w, b, t, n);
    RunAt(v, a, s, m);
    RunAt(w, b, t, n);
  }

  /** Equal heads make every valid partition of one run a partition of the other, recorded link
      and all; and every link, degraded or not, records the same predecessor value: the value is
      not hashed itself, but the result it comes from is. */
  lemma {:induction false} HeadPinsTheLinks(v: World, a: set<Hash>, s: seq<Slot>, w: World, b: set<Hash>, t: seq<Slot>,
                                            i: nat)
    requires v.chain == w.chain && Injective(w.chain) && v.result == w.result && Injective(w.result)
    requires ChainHead(v, RunSlots(v, a, s)) == ChainHead(w, RunSlots(w, b, t)) && i < |s|
    ensures |t| == |s|
    ensures var p, q := RunSlots(v, a, s)[i], RunSlots(w, b, t)[i];
            && p.link.predecessorNav == q.link.predecessorNav
            && (p.ValidPartition? <==> q.ValidPartition?)
            && (p.ValidPartition? ==> p == q)
  {
    hide RunSlots, Injective, Entries;
    HeadPinsTheFolds(v, a, s, w, b, t, i);
    HeadPinsDocuments(v, a, s, w, b, t, i);
    LinkNav(v, a, s, i);
    LinkNav(w, b, t, i);
    if i > 0 {
      HeadPinsTheFolds(v, a, s, w, b, t, i - 1);
    }
  }

  /** With an injective fold digest the head pins the fold documents of the schedule that was run:
      all a fold binds by content, and the ids of what it registers. */
  lemma {:induction false} HeadPinsTheSchedule(v: World, a: set<Hash>, s: seq<Slot>, w: World, b: set<Hash>,
                                               t: seq<Slot>)
    requires v.chain == w.chain && Injective(w.chain) && v.fold == w.fold && Injective(w.fold)
    requires ChainHead(v, RunSlots(v, a, s)) == ChainHead(w, RunSlots(w, b, t))
    ensures SameDocuments(s, t)
  {
    hide RunSlots, CarriedInto, DocumentOf, FoldDocumentOf;
    HeadPinsTheRun(v, a, s, w, b, t);
    assert |s| == |Entries(v, a, s)| && |t| == |Entries(w, b, t)|;
    forall i | 0 <= i < |s|
      ensures s[i].ordinal == t[i].ordinal && FoldDocumentOf(s[i].inputs) == FoldDocumentOf(t[i].inputs)
    {
      assert Entries(v, a, s)[i] == Entries(w, b, t)[i];
      LinkRecords(v, a, s, i);
      LinkRecords(w, b, t, i);
    }
  }

  ghost predicate SameDocuments(s: seq<Slot>, t: seq<Slot>) {
    && |s| == |t|
    && forall i :: 0 <= i < |s| ==>
         s[i].ordinal == t[i].ordinal && FoldDocumentOf(s[i].inputs) == FoldDocumentOf(t[i].inputs)
  }

  /** Conversely, schedules with the same documents whose authorized folds compose alike are one
      run, whatever order and terms their policies and registries have. */
  lemma {:induction false} SameDocumentsSameRun(w: World, a: set<Hash>, s: seq<Slot>, t: seq<Slot>)
    requires SameDocuments(s, t)
    requires forall i :: 0 <= i < |s| && FoldId(w, s[i].inputs) in a ==>
      w.compose(s[i].inputs) == w.compose(t[i].inputs)
    ensures RunSlots(w, a, s) == RunSlots(w, a, t)
    decreases |s|
  {
    hide FoldDocumentOf, RunSlot;
    if s == [] {
    } else {
      var n := |s| - 1;
      SameDocumentsSameRun(w, a, s[..n], t[..n]);
      var ps := RunSlots(w, a, s[..n]);
      SameSlot(w, a, s[n], t[n], ChainHead(w, ps), n == 0, if n == 0 then None else CloseOf(ps[n - 1]));
    }
  }

  lemma {:induction false} SameSlot(w: World, a: set<Hash>, s: Slot, t: Slot, head: Hash, first: bool,
                                    close: Option<Close>)
    requires s.ordinal == t.ordinal && FoldDocumentOf(s.inputs) == FoldDocumentOf(t.inputs)
    requires FoldId(w, s.inputs) in a ==> w.compose(s.inputs) == w.compose(t.inputs)
    ensures RunSlot(w, a, s, head, first, close) == RunSlot(w, a, t, head, first, close)
  {
    hide Ids, EvaluateCarry;
    assert s.inputs.declaredNav == FoldDocumentOf(s.inputs).declaredNav;
    assert t.inputs.declaredNav == FoldDocumentOf(t.inputs).declaredNav;
  }

  /** So the inputs themselves are not pinned: two accepted plans that list the same two policies in
      the other order have one chain and one run id. */
  lemma {:induction false} PolicyOrderIsNotPinned(w: World)
    ensures var s, t := PolicySlot(1, [10, 20]), PolicySlot(1, [20, 10]);
            var p, q := Plan([s], {}, 0, 1), Plan([t], {}, 0, 1);
            && ValidPlan(p) && ValidPlan(q) && s != t
            && Execute(w, p) == Execute(w, q)
  {
    hide RunSlots, TablesOf, Sort;
    var s, t := PolicySlot(1, [10, 20]), PolicySlot(1, [20, 10]);
    SwappedSlots(s, t);
    SortOne(s);
    SortOne(t);
    SameDocumentsSameRun(w, {}, [s], [t]);
    var p, q := Plan([s], {}, 0, 1), Plan([t], {}, 0, 1);
    assert OrderedSlots(p) == [s] && OrderedSlots(q) == [t];
    hide FoldDocumentOf;
    assert FoldId(w, s.inputs) == FoldId(w, t.inputs);
    assert ManifestOf(w, p).folds == ManifestOf(w, q).folds;
    assert ManifestOf(w, p) == ManifestOf(w, q);
  }

  lemma {:induction false} SwappedSlots(s: Slot, t: Slot)
    requires s == PolicySlot(1, [10, 20]) && t == PolicySlot(1, [20, 10])
    ensures FoldDocumentOf(s.inputs) == FoldDocumentOf(t.inputs) && s != t
    ensures Ids(s.inputs.schedulePolicies) == Ids(t.inputs.schedulePolicies)
    ensures ValidPlan(Plan([s], {}, 0, 1)) && ValidPlan(Plan([t], {}, 0, 1))
  {
    assert s.inputs.schedulePolicies == [Registered(10, 0), Registered(20, 0)];
    assert t.inputs.schedulePolicies == [Registered(20, 0), Registered(10, 0)];
    SwappedIds(Registered(10, 0), Registered(20, 0));
    hide Ids;
    assert s.inputs.schedulePolicies[0] != t.inputs.schedulePolicies[0];
  }

  lemma {:induction false} SwappedIds(a: Registered, b: Registered)
    ensures Ids([a, b]) == Ids([b, a]) == multiset{a.id, b.id}
  {
    assert seq(2, i requires 0 <= i < 2 => [a, b][i].id) == [a.id, b.id];
    assert seq(2, i requires 0 <= i < 2 => [b, a][i].id) == [b.id, a.id];
    assert multiset([a.id, b.id]) == multiset{a.id, b.id} == multiset([b.id, a.id]);
  }

  lemma {:induction false} SortOne(s: Slot)
    ensures Sort([s], SlotKey) == [s]
  {
    assert [s][1..] == [];
  }

  const DRIVER_CODES: set<Id> :=
    {NOT_AUTHORIZED, PREDECESSOR_DEGRADED, CARRY_BROKEN, POSITION_BROKEN, LOTS_UNSUPPORTED}

  /** The engines refuse with reasons of their own. */
  ghost predicate OwnReasons(w: World) {
    forall x {:trigger w.compose(x)} :: w.compose(x).DegradedFold? ==> w.compose(x).reason !in DRIVER_CODES
  }

  /** What a degraded link records: the declared value of a fold that was not authorized or that the
      engine refused, the consumed opening value of one whose carry broke. */
  lemma {:induction false} DegradedRecords(w: World, authorized: set<Hash>, slots: seq<Slot>, i: nat)
    requires i < |slots| && RunSlots(w, authorized, slots)[i].DegradedPartition?
    ensures var p, f := RunSlots(w, authorized, slots)[i], w.compose(slots[i].inputs);
            && p.link.carriedInNav ==
                 (if p.link.carry in {NotAuthorized, FoldDegraded} then slots[i].inputs.declaredNav
                  else if f.ValidFold? then f.initialNav else p.link.carriedInNav)
            && (p.link.carry !in {NotAuthorized, FoldDegraded} ==> f.ValidFold?)
            && |p.reasons| == 1
            && (OwnReasons(w) ==> p.link.carry == CarryOfReason(p.reasons[0]))
  {
    hide RunSlots;
    RunAt(w, authorized, slots, i);
    hide OwnReasons;
    if OwnReasons(w) {
      OwnReason(w, slots[i].inputs);
    }
  }

  lemma {:induction false} OwnReason(w: World, x: Inputs)
    requires OwnReasons(w)
    ensures w.compose(x).DegradedFold? ==> w.compose(x).reason !in DRIVER_CODES
  {}

  function CarryOfReason(reason: Id): CarryState {
    if reason == NOT_AUTHORIZED then NotAuthorized
    else if reason == PREDECESSOR_DEGRADED then PredecessorDegraded
    else if reason == CARRY_BROKEN then NavBroken
    else if reason == POSITION_BROKEN then PositionBroken
    else if reason == LOTS_UNSUPPORTED then LotsUnsupported
    else FoldDegraded
  }

  /** Of a degraded link equal heads also fix the carry state, when engines refuse with reasons of
      their own, and then the whole link of every fold that was not authorized or was refused; the
      opening value of a fold whose carry broke is hashed nowhere, and is the same exactly when the
      two engines computed the same. */
  lemma {:induction false} HeadPinsDegradedLinks(v: World, a: set<Hash>, s: seq<Slot>, w: World, b: set<Hash>,
                                                 t: seq<Slot>, i: nat)
    requires v.chain == w.chain && Injective(w.chain) && v.result == w.result && Injective(w.result)
    requires v.fold == w.fold && Injective(w.fold) && OwnReasons(v) && OwnReasons(w)
    requires ChainHead(v, RunSlots(v, a, s)) == ChainHead(w, RunSlots(w, b, t)) && i < |s|
    requires RunSlots(v, a, s)[i].DegradedPartition?
    ensures |t| == |s|
    ensures var p, q := RunSlots(v, a, s)[i], RunSlots(w, b, t)[i];
            var f, g := v.compose(s[i].inputs), w.compose(t[i].inputs);
            && q.DegradedPartition? && q.reasons == p.reasons && q.link.carry == p.link.carry
            && (p.link.carry in {NotAuthorized, FoldDegraded} ==> q.link == p.link)
            && (p.link.carry !in {NotAuthorized, FoldDegraded} ==>
                  f.ValidFold? && g.ValidFold? && (q.link == p.link <==> g.initialNav == f.initialNav))
  {
    hide RunSlots, Injective, OwnReasons, FoldDocumentOf, CarriedInto, CarryOfReason;
    HeadPinsTheLinks(v, a, s, w, b, t, i);
    HeadPinsDocuments(v, a, s, w, b, t, i);
    HeadPinsTheRun(v, a, s, w, b, t);
    assert Entries(v, a, s)[i] == Entries(w, b, t)[i];
    HeadPinsTheSchedule(v, a, s, w, b, t);
    DeclaredNav(s[i].inputs, t[i].inputs);
    DegradedRecords(v, a, s, i);
    DegradedRecords(w, b, t, i);
  }

  lemma {:induction false} DeclaredNav(x: Inputs, y: Inputs)
    requires FoldDocumentOf(x) == FoldDocumentOf(y)
    ensures x.declaredNav == y.declaredNav
  {
    hide Ids;
  }

  // ------------------------------------------------------------- recorded chains

  function Links(ps: seq<Partition>): (r: seq<ChainLink>)
    ensures |r| == |ps|
  {
    seq(|ps|, i requires 0 <= i < |ps| => ps[i].link)
  }

  function LastHash(chain: ChainDocument -> Hash, links: seq<ChainLink>): Hash {
    if links == [] then chain(GenesisDocument) else links[|links| - 1].hash
  }

  /** Recomputing the `i`-th link of a recorded chain reproduces its hash. */
  ghost predicate Rehashes(chain: ChainDocument -> Hash, links: seq<ChainLink>, i: nat)
    requires i < |links|
  {
    && links[i].document.LinkDocument?
    && links[i].document.predecessor == LastHash(chain, links[..i])
    && links[i].hash == chain(links[i].document)
  }

  /** Recomputing a recorded chain from genesis reproduces every recorded hash. */
  ghost predicate Recomputes(chain: ChainDocument -> Hash, links: seq<ChainLink>) {
    forall i :: 0 <= i < |links| ==> Rehashes(chain, links, i)
  }

  /** The records of every run recompute, to its head. */
  lemma {:induction false} RunRecomputes(w: World, authorized: set<Hash>, slots: seq<Slot>)
    ensures var ps := RunSlots(w, authorized, slots);
            Recomputes(w.chain, Links(ps)) && LastHash(w.chain, Links(ps)) == ChainHead(w, ps)
  {
    hide RunSlots;
    var ps := RunSlots(w, authorized, slots);
    var links := Links(ps);
    forall i | 0 <= i < |links|
      ensures Rehashes(w.chain, links, i)
    {
      LinkRecords(w, authorized, slots, i);
      assert i > 0 ==> links[..i][i - 1] == ps[..i][i - 1].link;
    }
  }

  /** The part of a recorded link that its hash covers, and the hash: ordinal, fold id, state,
      carried identity, result or reasons, predecessor hash. */
  function Covered(l: ChainLink): (ChainDocument, Hash) { (l.document, l.hash) }

  /** Recomputing against a known head detects an edit of the records exactly when it touches a
      covered field or the number of links; the recorded values and the carry state are free. */
  lemma {:induction false} EditIsDetected(chain: ChainDocument -> Hash, links: seq<ChainLink>, edited: seq<ChainLink>)
    requires Injective(chain) && Recomputes(chain, links)
    ensures Recomputes(chain, edited) && LastHash(chain, edited) == LastHash(chain, links) <==>
              |edited| == |links| && forall i :: 0 <= i < |links| ==> Covered(edited[i]) == Covered(links[i])
  {
    hide Recomputes, Covered, LastHash;
    if Recomputes(chain, edited) && LastHash(chain, edited) == LastHash(chain, links) {
      SameHeadSameCover(chain, edited, links);
    }
    if |edited| == |links| && forall i :: 0 <= i < |links| ==> Covered(edited[i]) == Covered(links[i]) {
      SameCoverRecomputes(chain, links, edited);
    }
  }

  lemma {:induction false} SameCoverRecomputes(chain: ChainDocument -> Hash, links: seq<ChainLink>,
                                               edited: seq<ChainLink>)
    requires Recomputes(chain, links) && |edited| == |links|
    requires forall i :: 0 <= i < |links| ==> Covered(edited[i]) == Covered(links[i])
    ensures Recomputes(chain, edited) && LastHash(chain, edited) == LastHash(chain, links)
  {
    hide Recomputes;
    forall i | 0 <= i < |links|
      ensures Rehashes(chain, edited, i)
    {
      RehashesAt(chain, links, i);
      assert Covered(edited[i]) == Covered(links[i]);
      assert i > 0 ==> Covered(edited[i - 1]) == Covered(links[i - 1]);
    }
    AllRehash(chain, edited);
    assert links != [] ==> Covered(edited[|links| - 1]) == Covered(links[|links| - 1]);
  }

  lemma {:induction false} RehashesAt(chain: ChainDocument -> Hash, links: seq<ChainLink>, i: nat)
    requires Recomputes(chain, links) && i < |links|
    ensures Rehashes(chain, links, i)
  {}

  lemma {:induction false} AllRehash(chain: ChainDocument -> Hash, links: seq<ChainLink>)
    requires forall i :: 0 <= i < |links| ==> Rehashes(chain, links, i)
    ensures Recomputes(chain, links)
  {}

  lemma {:induction false} SameHeadSameCover(chain: ChainDocument -> Hash, a: seq<ChainLink>, b: seq<ChainLink>)
    requires Injective(chain) && Recomputes(chain, a) && Recomputes(chain, b)
      && LastHash(chain, a) == LastHash(chain, b)
    ensures |a| == |b| && forall i :: 0 <= i < |a| ==> Covered(a[i]) == Covered(b[i])
    decreases |a|
  {
    hide Recomputes;
    GenesisOnlyWhenEmpty(chain, a);
    GenesisOnlyWhenEmpty(chain, b);
    if a == [] {
    } else {
      var m, n := |a| - 1, |b| - 1;
      RehashesAt(chain, a, m);
      RehashesAt(chain, b, n);
      assert a[m].document == b[n].document;
      RecomputesPrefix(chain, a, m);
      RecomputesPrefix(chain, b, n);
      SameHeadSameCover(chain, a[..m], b[..n]);
      forall i | 0 <= i < m
        ensures Covered(a[i]) == Covered(b[i])
      {
        assert a[i] == a[..m][i] && b[i] == b[..n][i];
      }
    }
  }

  lemma {:induction false} GenesisOnlyWhenEmpty(chain: ChainDocument -> Hash, links: seq<ChainLink>)
    requires Injective(chain) && Recomputes(chain, links)
    ensures LastHash(chain, links) == chain(GenesisDocument) <==> links == []
  {
    if links != [] {
      RehashesAt(chain, links, |links| - 1);
    }
  }

  lemma {:induction false} RecomputesPrefix(chain: ChainDocument -> Hash, links: seq<ChainLink>, n: nat)
    requires Recomputes(chain, links) && n <= |links|
    ensures Recomputes(chain, links[..n])
  {
    hide Recomputes;
    var prefix := links[..n];
    forall i | 0 <= i < n
      ensures Rehashes(chain, prefix, i)
    {
      RehashesAt(chain, links, i);
      assert prefix[..i] == links[..i] && prefix[i] == links[i];
    }
    AllRehash(chain, prefix);
  }

  /** So an edited predecessor value passes the recomputation of any recorded chain. */
  lemma {:induction false} ClosingNavEditPasses(chain: ChainDocument -> Hash, links: seq<ChainLink>, i: nat,
                                                nav: Option<Text>)
    requires Recomputes(chain, links) && i < |links|
    ensures var edited := links[i := links[i].(predecessorNav := nav)];
            Recomputes(chain, edited) && LastHash(chain, edited) == LastHash(chain, links)
  {
    SameCoverRecomputes(chain, links, links[i := links[i].(predecessorNav := nav)]);
  }

  // ----------------------------------------------------------------- output tables

  lemma {:induction false} SlotsAscend(p: Plan)
    requires ValidPlan(p)
    ensures KeyIdentifies(p.folds, SlotKey) && multiset(OrderedSlots(p)) == multiset(p.folds)
    ensures forall i, j :: 0 <= i < j < |OrderedSlots(p)| ==> OrderedSlots(p)[i].ordinal < OrderedSlots(p)[j].ordinal
  {
    var slots := OrderedSlots(p);
    SortOrders(p.folds, SlotKey);
    SortPermutes(p.folds, SlotKey);
    assert Distinct(p.folds);
    DistinctPermutes(p.folds, slots);
    forall i, j | 0 <= i < |p.folds| && 0 <= j < |p.folds| && SlotKey(p.folds[i]) == SlotKey(p.folds[j])
      ensures p.folds[i] == p.folds[j]
    {
    }
    KeyIdentifiesPermute(p.folds, slots, SlotKey);
    forall i, j | 0 <= i < j < |slots|
      ensures slots[i].ordinal < slots[j].ordinal
    {
      assert slots[i] != slots[j];
      assert SlotKey(slots[i]) != SlotKey(slots[j]);
      assert Before(SlotKey(slots[i]), SlotKey(slots[j]));
    }
  }

  /** Partitions come out in ordinal order already. */
  lemma {:induction false} PartitionsAreSorted(w: World, p: Plan)
    requires ValidPlan(p)
    ensures var ps := RunSlots(w, p.authorized, OrderedSlots(p)); Sort(ps, PartitionKey) == ps
  {
    hide RunSlots, OrderedSlots, DocumentOf;
    var slots := OrderedSlots(p);
    var ps := RunSlots(w, p.authorized, slots);
    SlotsAscend(p);
    forall i | 0 <= i < |ps|
      ensures ps[i].ordinal == slots[i].ordinal
    {
      LinkRecords(w, p.authorized, slots, i);
    }
    assert Ordered(ps, PartitionKey);
    assert KeyIdentifies(ps, PartitionKey);
    SortOrders(ps, PartitionKey);
    SortPermutes(ps, PartitionKey);
    OrderIsUnique(ps, Sort(ps, PartitionKey), PartitionKey);
  }

  function Tagged<T>(id: Hash, rows: seq<T>): (r: seq<(Hash, T)>)
    ensures |r| == |rows|
  {
    seq(|rows|, i requires 0 <= i < |rows| => (id, rows[i]))
  }

  lemma {:induction false} TablesSplit(id: Hash, ps: seq<Partition>, k: nat)
    requires k <= |ps| && forall i :: 0 <= i < |ps| ==> (ps[i].ValidPartition? <==> i < k)
    ensures TablesOf(id, ps) == Tables(Tagged(id, Links(ps)), Tagged(id, ps[..k]), Tagged(id, ps[k..]))
    decreases |ps|
  {
    if ps == [] {
    } else {
      var n := |ps| - 1;
      var init := ps[..n];
      assert Tagged(id, Links(ps)) == Tagged(id, Links(init)) + [(id, ps[n].link)];
      if k == |ps| {
        TablesSplit(id, init, n);
        assert init[..n] == init && init[n..] == [] && ps[..k] == ps && ps[k..] == [];
        assert Tagged(id, ps) == Tagged(id, init) + [(id, ps[n])];
      } else {
        TablesSplit(id, init, k);
        assert init[..k] == ps[..k];
        assert Tagged(id, ps[k..]) == Tagged(id, init[k..]) + [(id, ps[n])];
      }
    }
  }

  /** The tables are the run itself in schedule order: every link, then the valid head of the
      schedule, then the degraded rest; and a run has a valid partition iff its first fold is. */
  lemma {:induction false} TablesAreTheRun(w: World, p: Plan)
    requires ValidPlan(p)
    ensures var run := Execute(w, p); var ps := run.partitions; var k := ValidCount(ps);
            && |ps| == |p.folds| > 0
            && run.tables == Tables(Tagged(run.id, Links(ps)), Tagged(run.id, ps[..k]), Tagged(run.id, ps[k..]))
            && (run.anyValid <==> ps[0].ValidPartition?)
            && run.head == ps[|ps| - 1].link.hash
  {
    hide RunSlots, OrderedSlots, Continues, TablesOf;
    var slots := OrderedSlots(p);
    SlotsAscend(p);
    SameElements(p.folds, slots, p.folds[0]);
    var ps := RunSlots(w, p.authorized, slots);
    ValidFoldsAreAPrefix(w, p.authorized, slots);
    PartitionsAreSorted(w, p);
    TablesSplit(w.manifest(ManifestOf(w, p)), ps, ValidCount(ps));
    if ps[0].ValidPartition? { assert ps[0] in ps; }
  }

  // ---------------------------------------------------------- order of the folds

  /** The same plan with its folds listed in another order. */
  ghost predicate Reordered(p: Plan, q: Plan) {
    && multiset(p.folds) == multiset(q.folds)
    && p.authorized == q.authorized && p.axis == q.axis && p.sample == q.sample
  }

  /** Reordering a plan never changes partitions or chain. It leaves the manifest alone, and with
      it the run id and the tables, exactly when the two first folds register the same policies:
      the one thing read from the first fold that construction does not compare. */
  lemma {:induction false} OrderMattersOnlyForPolicies(w: World, p: Plan, q: Plan)
    requires ValidPlan(p) && ValidPlan(q) && Reordered(p, q)
    ensures Execute(w, p).partitions == Execute(w, q).partitions && Execute(w, p).head == Execute(w, q).head
    ensures ManifestOf(w, p) == ManifestOf(w, q) <==>
              Ids(p.folds[0].inputs.schedulePolicies) == Ids(q.folds[0].inputs.schedulePolicies)
    ensures Ids(p.folds[0].inputs.schedulePolicies) == Ids(q.folds[0].inputs.schedulePolicies) ==>
              Execute(w, p) == Execute(w, q)
    ensures Injective(w.manifest) ==> (Execute(w, p).id == Execute(w, q).id <==>
              Ids(p.folds[0].inputs.schedulePolicies) == Ids(q.folds[0].inputs.schedulePolicies))
  {
    hide RunSlots, TablesOf, Sort;
    SlotsAscend(p);
    SortIsCanonical(p.folds, q.folds, SlotKey);
    SameElements(p.folds, q.folds, q.folds[0]);
    var i :| 0 <= i < |p.folds| && p.folds[i] == q.folds[0];
    assert ManifestOf(w, p).folds == ManifestOf(w, q).folds;
  }

  /** Folds that all register the same policies make every order one run. */
  lemma {:induction false} SharedPoliciesMakeOneRun(w: World, p: Plan, q: Plan)
    requires ValidPlan(p) && ValidPlan(q) && Reordered(p, q)
    requires forall i :: 0 <= i < |p.folds| ==> p.folds[i].inputs.schedulePolicies == p.folds[0].inputs.schedulePolicies
    ensures Execute(w, p) == Execute(w, q)
  {
    hide Execute, ManifestOf;
    OrderMattersOnlyForPolicies(w, p, q);
    SameElements(p.folds, q.folds, q.folds[0]);
    var i :| 0 <= i < |p.folds| && p.folds[i] == q.folds[0];
  }

  function PolicySlot(ordinal: int, policies: seq<Id>): Slot {
    var registered := seq(|policies|, i requires 0 <= i < |policies| => Registered(policies[i], 0));
    Slot(ordinal, Inputs(Schedule(0, 0, 0, 0, 0, 0, 0), ordinal, registered, [], 0, 0, 0, 0))
  }

  /** Two accepted plans with the same folds in the other order and another run id. */
  lemma {:induction false} PoliciesCanSplitTheRunId(w: World)
    requires Injective(w.manifest)
    ensures var s, t := PolicySlot(1, [10]), PolicySlot(2, [20]);
            var p, q := Plan([s, t], {}, 0, 1), Plan([t, s], {}, 0, 1);
            ValidPlan(p) && ValidPlan(q) && Reordered(p, q) && Execute(w, p).id != Execute(w, q).id
  {
    hide Execute, ManifestOf;
    var s, t := PolicySlot(1, [10]), PolicySlot(2, [20]);
    var p, q := Plan([s, t], {}, 0, 1), Plan([t, s], {}, 0, 1);
    assert multiset(p.folds) == multiset{s, t} == multiset(q.folds);
    OrderMattersOnlyForPolicies(w, p, q);
    OneId(s.inputs.schedulePolicies);
    OneId(t.inputs.schedulePolicies);
    assert 10 in Ids(p.folds[0].inputs.schedulePolicies) && 10 !in Ids(q.folds[0].inputs.schedulePolicies);
  }

  lemma {:induction false} OneId(rs: seq<Registered>)
    requires |rs| == 1
    ensures Ids(rs) == multiset{rs[0].id}
  {
    assert seq(1, i requires 0 <= i < 1 => rs[i].id) == [rs[0].id];
  }

  // ------------------------------------------------------------ what the digests bind

  /** With a collision-free digest two folds have one id exactly when they agree on schedule, ordinal,
      modes, axis, declared value and world, and on the ids, in any order, of policies and registries. */
  lemma {:induction false} FoldIdBinds(w: World, x: Inputs, y: Inputs)
    requires Injective(w.fold)
    ensures FoldId(w, x) == FoldId(w, y) <==>
      && x.schedule == y.schedule && x.scheduleOrdinal == y.scheduleOrdinal && x.modes == y.modes && x.axis == y.axis
      && x.declaredNav == y.declaredNav && x.world == y.world
      && Ids(x.schedulePolicies) == Ids(y.schedulePolicies) && Ids(x.registries) == Ids(y.registries)
  {
    hide Ids;
    var d, e := FoldDocumentOf(x), FoldDocumentOf(y);
    assert w.fold(d) == w.fold(e) <==> d == e;
  }

  /** A row counts when it says something other than zero shares. */
  predicate Holds(num: Numeral, positions: map<Id, Text>, s: Id) { s in positions && num(positions[s]) != 0.0 }

  /** With a collision-free digest two closes carry one identity exactly when cash, receivables, actions
      and open lots agree and every security is held in both with the same figure or in neither. */
  lemma {:induction false} CarriedIdentityBinds(w: World, c: Closing, d: Closing)
    requires Injective(w.carry)
    ensures w.carry(CarryDocumentOf(w.num, c)) == w.carry(CarryDocumentOf(w.num, d)) <==>
      && c.cash == d.cash && c.receivables == d.receivables && c.actions == d.actions && c.openLots == d.openLots
      && forall s :: (Holds(w.num, c.positions, s) <==> Holds(w.num, d.positions, s))
                     && (Holds(w.num, c.positions, s) ==> c.positions[s] == d.positions[s])
  {
    var a, b := Held(w.num, c.positions), Held(w.num, d.positions);
    assert forall s :: (s in a <==> Holds(w.num, c.positions, s)) && (s in a ==> a[s] == c.positions[s]);
    assert forall s :: (s in b <==> Holds(w.num, d.positions, s)) && (s in b ==> b[s] == d.positions[s]);
    var x, y := CarryDocumentOf(w.num, c), CarryDocumentOf(w.num, d);
    assert w.carry(x) == w.carry(y) <==> x == y;
    hide Held, Holds;
    if forall s :: (s in a <==> s in b) && (s in a ==> a[s] == b[s]) {
      assert a == b;
    }
  }

  /** With a collision-free digest two results have one identity exactly when they are one fold, from
      inputs of one fold id; and the digested document holds each figure under its own name. */
  lemma {:induction false} ResultIdentityBinds(w: World, x: Inputs, f: Fold, y: Inputs, g: Fold)
    requires Injective(w.result) && f.ValidFold? && g.ValidFold?
    ensures ResultIdentity(w, x, f) == ResultIdentity(w, y, g) <==> FoldId(w, x) == FoldId(w, y) && f == g
    ensures forall d: ResultDocument ::
      (&& d.foldId == FoldId(w, x) && d.initialNav == f.initialNav && d.finalNav == f.finalNav
       && d.opening == f.opening && d.closing == f.closing && d.figures == f.figures)
      ==> ResultIdentity(w, x, f) == w.result(d)
  {
    hide FoldId;
    var d := ResultDocument(FoldId(w, x), f.initialNav, f.finalNav, f.opening, f.closing, f.figures);
    var e := ResultDocument(FoldId(w, y), g.initialNav, g.finalNav, g.opening, g.closing, g.figures);
    assert w.result(d) == w.result(e) <==> d == e;
  }

  // ---------------------------------------------------------------------- the run id

  /** With a collision-free manifest digest two plans have one run id exactly when they agree on the
      shared schedule, the registered policy ids, the modes, the axis, the sample, the authorized
      folds, and the ordinal and fold id of every fold in schedule order. */
  lemma {:induction false} RunIdBinds(w: World, p: Plan, q: Plan)
    requires p.folds != [] && q.folds != [] && Injective(w.manifest)
    ensures var f, g, s, t := p.folds[0].inputs, q.folds[0].inputs, OrderedSlots(p), OrderedSlots(q);
      Execute(w, p).id == Execute(w, q).id <==>
        && f.schedule == g.schedule && Ids(f.schedulePolicies) == Ids(g.schedulePolicies) && f.modes == g.modes
        && p.axis == q.axis && p.sample == q.sample && p.authorized == q.authorized
        && |s| == |t|
        && forall i :: 0 <= i < |s| ==>
             s[i].ordinal == t[i].ordinal && FoldId(w, s[i].inputs) == FoldId(w, t[i].inputs)
  {
    hide RunSlots, TablesOf, Sort, OrderedSlots, FoldId, Ids;
    var m, n := ManifestOf(w, p), ManifestOf(w, q);
    var s, t := OrderedSlots(p), OrderedSlots(q);
    assert Execute(w, p).id == w.manifest(m) && Execute(w, q).id == w.manifest(n);
    assert w.manifest(m) == w.manifest(n) <==> m == n;
    assert |m.folds| == |s| && |n.folds| == |t|;
    forall i | 0 <= i < |s| && |s| == |t|
      ensures m.folds[i] == (s[i].ordinal, FoldId(w, s[i].inputs))
      ensures n.folds[i] == (t[i].ordinal, FoldId(w, t[i].inputs))
    {
    }
    assert m.folds == n.folds <==> |s| == |t| && forall i :: 0 <= i < |s| ==>
      s[i].ordinal == t[i].ordinal && FoldId(w, s[i].inputs) == FoldId(w, t[i].inputs)
    by {
      if m.folds == n.folds {
        forall i | 0 <= i < |s|
          ensures s[i].ordinal == t[i].ordinal && FoldId(w, s[i].inputs) == FoldId(w, t[i].inputs)
        {
          assert m.folds[i] == n.folds[i];
        }
      }
    }
  }

  /** What the manifest says once it says of every fold of an accepted plan. */
  lemma {:induction false} ManifestSpeaksForAll(w: World, p: Plan, i: nat)
    requires ValidPlan(p) && i < |p.folds|
    ensures var m, x := ManifestOf(w, p), p.folds[i].inputs;
      && m.schedule == x.schedule && m.modes == x.modes && m.axis == x.axis && m.axis == p.axis
      && FoldDocumentOf(x).ordinal == p.folds[i].ordinal
      && (p.folds[i].ordinal, FoldId(w, x)) in m.folds && |m.folds| == |p.folds|
  {
    hide FoldId, Ids;
    var slots := OrderedSlots(p);
    SlotsAscend(p);
    SameElements(p.folds, slots, p.folds[i]);
    var k :| 0 <= k < |slots| && slots[k] == p.folds[i];
    assert ManifestOf(w, p).folds[k] == (p.folds[i].ordinal, FoldId(w, p.folds[i].inputs));
  }
}
