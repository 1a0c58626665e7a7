/** What every composed walk-forward run promises, for any number of folds and any fold engine. */
module WalkForwardTheorems {
  import opened Basics
  import opened WalkForward

  // ------------------------------------------------------- which folds are valid

  /** A fold that opens exactly on its predecessor's close: same book value text, no lots left
      open, and the same cash, receivables and share count of every security. */
  ghost predicate Continues(num: Numeral, before: Fold, after: Fold) {
    && before.ValidFold? && after.ValidFold?
    && after.initialNav == before.finalNav
    && before.closing.openLots == []
    && num(after.opening.cash) == num(before.closing.cash)
    && num(after.opening.receivables) == num(before.closing.receivables)
    && forall s :: SharesOf(num, after.opening.positions, s) == SharesOf(num, before.closing.positions, s)
  }

  /** The check by held rows compares share functions: zero rows and missing rows are alike. */
  lemma {:induction false} MatchIsShareEquality(num: Numeral, c: Closing, o: Opening)
    ensures CarriedStateMatches(num, c, o) <==>
              && num(c.cash) == num(o.cash) && num(c.receivables) == num(o.receivables)
              && forall s :: SharesOf(num, o.positions, s) == SharesOf(num, c.positions, s)
  {
    var a, b := Held(num, c.positions), Held(num, o.positions);
    forall s
      ensures (s in a <==> SharesOf(num, c.positions, s) != 0.0) && (s in b <==> SharesOf(num, o.positions, s) != 0.0)
      ensures s in a ==> num(a[s]) == SharesOf(num, c.positions, s)
      ensures s in b ==> num(b[s]) == SharesOf(num, o.positions, s)
    {
    }
    if forall s :: SharesOf(num, o.positions, s) == SharesOf(num, c.positions, s) {
      forall s
        ensures s in a.Keys <==> s in b.Keys
      {
        assert SharesOf(num, o.positions, s) == SharesOf(num, c.positions, s);
      }
      assert a.Keys == b.Keys;
    }
    if CarriedStateMatches(num, c, o) {
      forall s
        ensures SharesOf(num, o.positions, s) == SharesOf(num, c.positions, s)
      {
        assert s in a.Keys <==> s in b.Keys;
      }
    }
  }

  /** A fold that would be valid on its own. */
  predicate Sound(w: World, authorized: set<Hash>, slot: Slot) {
    FoldId(w, slot.inputs) in authorized && w.compose(slot.inputs).ValidFold?
  }

  lemma {:induction false} SlotIsValid(w: World, authorized: set<Hash>, slot: Slot, head: Hash, first: bool,
                                       before: Fold,
                                       close: Option<Close>)
    requires first ==> close == None
    requires !first ==> close == if before.ValidFold? then Some(Close(before.finalNav, before.closing)) else None
    ensures RunSlot(w, authorized, slot, head, first, close).ValidPartition?
       <==> Sound(w, authorized, slot) && (first || Continues(w.num, before, w.compose(slot.inputs)))
  {
    var f := w.compose(slot.inputs);
    if !first && before.ValidFold? && f.ValidFold? {
      MatchIsShareEquality(w.num, before.closing, f.opening);
    }
  }

  /** Each partition is its slot run on what the partitions before it left. */
  lemma {:induction false} RunAt(w: World, authorized: set<Hash>, slots: seq<Slot>, i: nat)
    requires i < |slots|
    ensures var ps := RunSlots(w, authorized, slots);
            ps[..i] == RunSlots(w, authorized, slots[..i])
            && ps[i] == RunSlot(w, authorized, slots[i], ChainHead(w, ps[..i]), i == 0,
                                if i == 0 then None else CloseOf(ps[i - 1]))
    decreases |slots|
  {
    hide RunSlot, ChainHead;
    var n := |slots| - 1;
    var init := RunSlots(w, authorized, slots[..n]);
    var ps := RunSlots(w, authorized, slots);
    assert ps[..n] == init;
    if i < n {
      RunAt(w, authorized, slots[..n], i);
      assert slots[..n][..i] == slots[..i] && ps[..i] == init[..i];
    }
  }

  /** A partition records its own slot; a valid one keeps the fold it composed. */
  lemma {:induction false} SlotRecords(w: World, authorized: set<Hash>, slot: Slot, head: Hash, first: bool,
                                       close: Option<Close>)
    ensures var q := RunSlot(w, authorized, slot, head, first, close);
            q.ordinal == slot.ordinal
            && (q.ValidPartition? ==> q.fold == w.compose(slot.inputs) && q.fold.ValidFold?)
  {
  }

  /** Everything up to `i` is sound and each fold continues the
      one before. No chain, no state and no loop is mentioned. */
  ghost predicate Unbroken(w: World, authorized: set<Hash>, slots: seq<Slot>, i: nat)
    requires i < |slots|
  {
    && (forall j :: 0 <= j <= i ==> Sound(w, authorized, slots[j]))
    && forall j :: 0 < j <= i ==> Continues(w.num, w.compose(slots[j - 1].inputs), w.compose(slots[j].inputs))
  }

  /** A fold is a valid partition exactly when the schedule is unbroken up to and including it. */
  lemma {:induction false} ValidExactlyWhileUnbroken(w: World, authorized: set<Hash>, slots: seq<Slot>, i: nat)
    requires i < |slots|
    ensures RunSlots(w, authorized, slots)[i].ValidPartition? <==> Unbroken(w, authorized, slots, i)
    ensures RunSlots(w, authorized, slots)[i].ValidPartition? ==>
      RunSlots(w, authorized, slots)[i].fold == w.compose(slots[i].inputs)
  {
    hide RunSlot, ChainHead, RunSlots;
    var ps := RunSlots(w, authorized, slots);
    RunAt(w, authorized, slots, i);
    var close := if i == 0 then None else CloseOf(ps[i - 1]);
    SlotRecords(w, authorized, slots[i], ChainHead(w, ps[..i]), i == 0, close);
    if i == 0 {
      SlotIsValid(w, authorized, slots[0], ChainHead(w, ps[..0]), true, w.compose(slots[0].inputs), None);
    } else {
      ValidExactlyWhileUnbroken(w, authorized, slots, i - 1);
      var before := w.compose(slots[i - 1].inputs);
      if ps[i - 1].ValidPartition? {
        assert Sound(w, authorized, slots[i - 1]);
        SlotIsValid(w, authorized, slots[i], ChainHead(w, ps[..i]), false, before, close);
      } else {
        SlotIsValid(w, authorized, slots[i], ChainHead(w, ps[..i]), false, DegradedFold(0), close);
      }
    }
  }

  /** How many folds at the head of the schedule became valid. */
  function ValidCount(ps: seq<Partition>): (k: nat)
    ensures k <= |ps|
  {
    if ps == [] || ps[0].DegradedPartition? then 0 else 1 + ValidCount(ps[1..])
  }

  lemma {:induction false} CountsLeading(ps: seq<Partition>)
    requires forall i :: 0 < i < |ps| && ps[i].ValidPartition? ==> ps[i - 1].ValidPartition?
    ensures forall i :: 0 <= i < |ps| ==> (ps[i].ValidPartition? <==> i < ValidCount(ps))
    decreases |ps|
  {
    if ps != [] && ps[0].ValidPartition? {
      var rest := ps[1..];
      forall i | 0 < i < |rest| && rest[i].ValidPartition?
        ensures rest[i - 1].ValidPartition?
      {
        assert ps[i + 1].ValidPartition?;
      }
      CountsLeading(rest);
      forall i | 0 <= i < |ps|
        ensures ps[i].ValidPartition? <==> i < ValidCount(ps)
      {
        if i > 0 { assert ps[i] == rest[i - 1]; }
      }
    } else {
      forall i | 0 <= i < |ps|
        ensures ps[i].DegradedPartition?
      {
        NoneAfter(ps, i);
      }
    }
  }

  lemma {:induction false} NoneAfter(ps: seq<Partition>, i: nat)
    requires forall j :: 0 < j < |ps| && ps[j].ValidPartition? ==> ps[j - 1].ValidPartition?
    requires i < |ps| && ps[0].DegradedPartition?
    ensures ps[i].DegradedPartition?
  {
    if i > 0 { NoneAfter(ps, i - 1); }
  }

  /** The valid partitions are the first ones, and each of them continues the one before. */
  ghost predicate ValidPrefix(num: Numeral, ps: seq<Partition>) {
    && (forall i :: 0 <= i < |ps| ==> (ps[i].ValidPartition? <==> i < ValidCount(ps)))
    && (forall i :: 0 <= i < ValidCount(ps) ==> ps[i].ValidPartition? && ps[i].fold.ValidFold?)
    && forall i :: 0 < i < ValidCount(ps) ==> Continues(num, ps[i - 1].fold, ps[i].fold)
  }

  /** The valid partitions are a prefix of the schedule order. */
  lemma {:induction false} ValidFoldsAreAPrefix(w: World, authorized: set<Hash>, slots: seq<Slot>)
    ensures ValidPrefix(w.num, RunSlots(w, authorized, slots))
  {
    hide RunSlots, Continues;
    var ps := RunSlots(w, authorized, slots);
    forall i | 0 <= i < |ps|
      ensures ps[i].ValidPartition? <==> Unbroken(w, authorized, slots, i)
      ensures ps[i].ValidPartition? ==> ps[i].fold == w.compose(slots[i].inputs)
    {
      ValidExactlyWhileUnbroken(w, authorized, slots, i);
    }
    CountsLeading(ps);
    forall i | 0 <= i < ValidCount(ps)
      ensures ps[i].ValidPartition? && ps[i].fold.ValidFold?
      ensures i > 0 ==> Continues(w.num, ps[i - 1].fold, ps[i].fold)
    {
      assert Unbroken(w, authorized, slots, i);
      assert Sound(w, authorized, slots[i]);
      if i > 0 {
        assert Unbroken(w, authorized, slots, i - 1);
      }
    }
  }

  // --------------------------------------------------------------- book value

  function NavChange(num: Numeral, p: Partition): real {
    if p.ValidPartition? && p.fold.ValidFold? then num(p.fold.finalNav) - num(p.fold.initialNav) else 0.0
  }

  function TotalChange(num: Numeral, ps: seq<Partition>): real {
    if ps == [] then 0.0 else TotalChange(num, ps[..|ps| - 1]) + NavChange(num, ps[|ps| - 1])
  }

  lemma {:induction false} PrefixTelescopes(num: Numeral, ps: seq<Partition>)
    requires ps != [] && forall i :: 0 <= i < |ps| ==> ps[i].ValidPartition? && ps[i].fold.ValidFold?
    requires forall i :: 0 < i < |ps| ==> ps[i].fold.initialNav == ps[i - 1].fold.finalNav
    ensures TotalChange(num, ps) == num(ps[|ps| - 1].fold.finalNav) - num(ps[0].fold.initialNav)
    decreases |ps|
  {
    var init := ps[..|ps| - 1];
    if init != [] {
      PrefixTelescopes(num, init);
    } else {
      assert TotalChange(num, init) == 0.0;
    }
  }

  lemma {:induction false} DegradedAddNothing(num: Numeral, ps: seq<Partition>, k: nat)
    requires k <= |ps| && forall i :: k <= i < |ps| ==> ps[i].DegradedPartition?
    ensures TotalChange(num, ps) == TotalChange(num, ps[..k])
    decreases |ps|
  {
    if k < |ps| {
      var init := ps[..|ps| - 1];
      DegradedAddNothing(num, init, k);
      assert init[..k] == ps[..k];
    } else {
      assert ps[..k] == ps;
    }
  }

  /** The changes of all folds of a run add up to the distance from the first opening to the
      last valid close. */
  lemma {:induction false} NavTelescopes(w: World, authorized: set<Hash>, slots: seq<Slot>)
    ensures var ps := RunSlots(w, authorized, slots); var k := ValidCount(ps);
            if k == 0 then TotalChange(w.num, ps) == 0.0
            else
              && ps[0].ValidPartition? && ps[0].fold.ValidFold?
              && ps[k - 1].ValidPartition? && ps[k - 1].fold.ValidFold?
              && TotalChange(w.num, ps) == w.num(ps[k - 1].fold.finalNav) - w.num(ps[0].fold.initialNav)
  {
    hide RunSlots, TotalChange;
    var ps := RunSlots(w, authorized, slots);
    var k := ValidCount(ps);
    ValidFoldsAreAPrefix(w, authorized, slots);
    DegradedAddNothing(w.num, ps, k);
    if k == 0 {
      NoChange(w.num, ps[..0]);
    } else {
      PrefixTelescopes(w.num, ps[..k]);
    }
  }

  lemma {:induction false} NoChange(num: Numeral, ps: seq<Partition>)
    requires ps == []
    ensures TotalChange(num, ps) == 0.0
  {
  }

  // -------------------------------------------------------------- how each fold is recorded

  /** The successor holds what its predecessor left: cash, receivables and shares of every security. */
  ghost predicate SameHoldings(num: Numeral, c: Closing, o: Opening) {
    && num(o.cash) == num(c.cash) && num(o.receivables) == num(c.receivables)
    && forall s :: SharesOf(num, o.positions, s) == SharesOf(num, c.positions, s)
  }

  /** Which carry state a fold is recorded with: the first of these that applies. Not authorized;
      refused by its engine; first of all; after a fold without a close; on another book value; on
      other holdings; after open lots; otherwise continuous. */
  ghost function CarryOf(w: World, authorized: set<Hash>, slots: seq<Slot>, i: nat): CarryState
    requires i < |slots|
  {
    var f := w.compose(slots[i].inputs);
    if FoldId(w, slots[i].inputs) !in authorized then NotAuthorized
    else if f.DegradedFold? then FoldDegraded
    else if i == 0 then Genesis
    else if !Unbroken(w, authorized, slots, i - 1) then PredecessorDegraded
    else
      var g := w.compose(slots[i - 1].inputs);
      if g.DegradedFold? then PredecessorDegraded
      else if f.initialNav != g.finalNav then NavBroken
      else if !SameHoldings(w.num, g.closing, f.opening) then PositionBroken
      else if g.closing.openLots != [] then LotsUnsupported
      else Continuous
  }

  function ReasonOf(carry: CarryState, own: Id): Id {
    match carry
    case NotAuthorized => NOT_AUTHORIZED
    case FoldDegraded => own
    case PredecessorDegraded => PREDECESSOR_DEGRADED
    case NavBroken => CARRY_BROKEN
    case PositionBroken => POSITION_BROKEN
    case LotsUnsupported => LOTS_UNSUPPORTED
    case _ => 0
  }

  lemma {:induction false} SlotCarry(w: World, authorized: set<Hash>, slot: Slot, head: Hash, first: bool, before: Fold,
                                     close: Option<Close>)
    requires first ==> close == None
    requires close.Some? ==> before.ValidFold? && close == Some(Close(before.finalNav, before.closing))
    ensures var p, f := RunSlot(w, authorized, slot, head, first, close), w.compose(slot.inputs);
      p.link.carry ==
        if FoldId(w, slot.inputs) !in authorized then NotAuthorized
        else if f.DegradedFold? then FoldDegraded
        else if first then Genesis
        else if close.None? then PredecessorDegraded
        else if f.initialNav != before.finalNav then NavBroken
        else if !SameHoldings(w.num, before.closing, f.opening) then PositionBroken
        else if before.closing.openLots != [] then LotsUnsupported
        else Continuous
    ensures var p, f := RunSlot(w, authorized, slot, head, first, close), w.compose(slot.inputs);
      && (p.ValidPartition? <==> p.link.carry == Genesis || p.link.carry == Continuous)
      && (p.DegradedPartition? ==>
            && p.reasons == [ReasonOf(p.link.carry, if f.DegradedFold? then f.reason else 0)]
            && p.result == if p.link.carry == NotAuthorized then None else Some(f))
  {
    hide FoldDocumentOf, CarriedStateMatches;
    var f := w.compose(slot.inputs);
    if close.Some? && f.ValidFold? {
      MatchIsShareEquality(w.num, before.closing, f.opening);
    }
  }

  /** Every fold of every run is recorded with that state, is valid in exactly the two states that
      carry on, and otherwise gives the one reason of its state and keeps what its engine produced. */
  lemma {:induction false} CarryIsRecorded(w: World, authorized: set<Hash>, slots: seq<Slot>, i: nat)
    requires i < |slots|
    ensures var p, f := RunSlots(w, authorized, slots)[i], w.compose(slots[i].inputs);
      && p.link.carry == CarryOf(w, authorized, slots, i)
      && (p.ValidPartition? <==> p.link.carry == Genesis || p.link.carry == Continuous)
      && (p.DegradedPartition? ==>
            && p.reasons == [ReasonOf(p.link.carry, if f.DegradedFold? then f.reason else 0)]
            && p.result == if p.link.carry == NotAuthorized then None else Some(f))
  {
    hide RunSlot, ChainHead, RunSlots, Unbroken, FoldDocumentOf, SameHoldings, ReasonOf;
    var ps := RunSlots(w, authorized, slots);
    RunAt(w, authorized, slots, i);
    var close := if i == 0 then None else CloseOf(ps[i - 1]);
    if i == 0 {
      SlotCarry(w, authorized, slots[0], ChainHead(w, ps[..0]), true, DegradedFold(0), None);
    } else {
      ValidExactlyWhileUnbroken(w, authorized, slots, i - 1);
      var before := w.compose(slots[i - 1].inputs);
      SlotCarry(w, authorized, slots[i], ChainHead(w, ps[..i]), false, before, close);
      if ps[i - 1].ValidPartition? {
        UnbrokenComposes(w, authorized, slots, i - 1);
      }
    }
  }

  lemma {:induction false} UnbrokenComposes(w: World, authorized: set<Hash>, slots: seq<Slot>, i: nat)
    requires i < |slots| && Unbroken(w, authorized, slots, i)
    ensures w.compose(slots[i].inputs).ValidFold?
  {
    assert Sound(w, authorized, slots[i]);
  }
}
