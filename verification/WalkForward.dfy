/** The composed walk-forward run: folds in schedule order, each opening on its predecessor's
    consumed close, under one tamper-evident chain. */
module WalkForward {
  import opened Basics
  import opened Sorting

  // ------------------------------------------------------------------ portfolios

  /** Ledger figures are canonical strings, kept as opaque texts; `num` reads their value. */
  type Text = int
  type Numeral = Text -> real

  datatype Closing = Closing(
    cash: Text, positions: map<Id, Text>, receivables: Text, openLots: seq<Id>, actions: seq<Id>)
  datatype Opening = Opening(cash: Text, positions: map<Id, Text>, receivables: Text)

  /** `held_positions`: a zeroed row is not a holding. */
  function Held(num: Numeral, positions: map<Id, Text>): map<Id, Text> {
    map s | s in positions && num(positions[s]) != 0.0 :: positions[s]
  }

  /** How many shares of a security a position map means. */
  function SharesOf(num: Numeral, positions: map<Id, Text>, s: Id): real {
    if s in positions then num(positions[s]) else 0.0
  }

  datatype CarryDocument = CarryDocument(
    cash: Text, actions: seq<Id>, held: map<Id, Text>, openLots: seq<Id>, receivables: Text)

  function CarryDocumentOf(num: Numeral, c: Closing): CarryDocument {
    CarryDocument(c.cash, c.actions, Held(num, c.positions), c.openLots, c.receivables)
  }

  /** `compose_fold`, seen from outside; `figures` stands for its other derived outputs. */
  datatype Fold =
    | ValidFold(initialNav: Text, finalNav: Text, opening: Opening, closing: Closing, figures: Id)
    | DegradedFold(reason: Id)

  /** What `_result_identity` digests of a valid fold. */
  datatype ResultDocument = ResultDocument(
    foldId: Hash, initialNav: Text, finalNav: Text, opening: Opening, closing: Closing, figures: Id)

  // ------------------------------------------------------------------------ plans

  datatype Schedule = Schedule(
    policy: Id, rangeStart: Date, rangeEnd: Date, lookback: int, skip: int, calendar: Id, calendarSha: Hash)

  /** An entry of a policy tuple or registry; documents bind its id and not its terms. */
  datatype Registered = Registered(id: Id, terms: Id)

  /** `world` is everything a fold binds by content; `registries` are its registries, each id
      tagged with the registry it is from. */
  datatype Inputs = Inputs(
    schedule: Schedule, scheduleOrdinal: int, schedulePolicies: seq<Registered>, registries: seq<Registered>,
    modes: Id, axis: Id, declaredNav: Text, world: Id)

  /** The ids of a tuple, sorted in the source. */
  function Ids(rs: seq<Registered>): multiset<Id> {
    multiset(seq(|rs|, i requires 0 <= i < |rs| => rs[i].id))
  }

  /** The bound-input manifest of one fold, which `fold_id_of` digests. */
  datatype FoldDocument = FoldDocument(
    schedule: Schedule, ordinal: int, policies: multiset<Id>, registries: multiset<Id>, modes: Id, axis: Id,
    declaredNav: Text, world: Id)

  function FoldDocumentOf(x: Inputs): FoldDocument {
    FoldDocument(x.schedule, x.scheduleOrdinal, Ids(x.schedulePolicies), Ids(x.registries), x.modes, x.axis,
      x.declaredNav, x.world)
  }

  datatype Slot = Slot(ordinal: int, inputs: Inputs)
  datatype Plan = Plan(folds: seq<Slot>, authorized: set<Hash>, axis: Id, sample: int)

  /** `ComposedWalkForwardPlan.__post_init__`. */
  predicate ValidPlan(p: Plan) {
    && p.folds != []
    && (forall i, j :: 0 <= i < j < |p.folds| ==> p.folds[i].ordinal != p.folds[j].ordinal)
    && (forall i :: 0 <= i < |p.folds| ==>
          && p.folds[i].inputs.scheduleOrdinal == p.folds[i].ordinal
          && p.folds[i].inputs.schedule == p.folds[0].inputs.schedule
          && p.folds[i].inputs.modes == p.folds[0].inputs.modes
          && p.folds[i].inputs.axis == p.axis)
  }

  function SlotKey(s: Slot): Key { (s.ordinal, 0) }

  /** `ordered_slots`. */
  function OrderedSlots(p: Plan): seq<Slot> { Sort(p.folds, SlotKey) }

  /** The bound-input manifest; its sorted list of registered policy ids is their multiset. */
  datatype Manifest = Manifest(
    schedule: Schedule, policies: multiset<Id>, modes: Id, axis: Id, sample: int, authorized: set<Hash>,
    folds: seq<(int, Hash)>)

  // --------------------------------------------------------------------- the chain

  datatype State = Valid | Degraded
  datatype Material =
    | ResultMaterial(carried: Option<Hash>, result: Hash)
    | ReasonMaterial(carried: Option<Hash>, reasons: seq<Id>)

  /** What a chain hash digests: the genesis document, or a link over its predecessor. */
  datatype ChainDocument =
    | GenesisDocument
    | LinkDocument(material: Material, ordinal: int, foldId: Hash, state: State, predecessor: Hash)

  /** The world of one run: fold engines, fold ids and digests are given from outside. */
  datatype World = World(
    num: Numeral, compose: Inputs -> Fold, fold: FoldDocument -> Hash, result: ResultDocument -> Hash,
    carry: CarryDocument -> Hash, chain: ChainDocument -> Hash, manifest: Manifest -> Hash)

  /** `fold_id_of_slot`. */
  function FoldId(w: World, inputs: Inputs): Hash { w.fold(FoldDocumentOf(inputs)) }

  /** The `result_identity` of a fold composed from these inputs. */
  function ResultIdentity(w: World, inputs: Inputs, f: Fold): Hash
    requires f.ValidFold?
  {
    w.result(ResultDocument(FoldId(w, inputs), f.initialNav, f.finalNav, f.opening, f.closing, f.figures))
  }

  datatype CarryState =
    | Genesis | Continuous | PredecessorDegraded | NavBroken | PositionBroken | LotsUnsupported
    | NotAuthorized | FoldDegraded

  /** A recorded link; only `document` is hashed. */
  datatype ChainLink = ChainLink(
    document: ChainDocument, hash: Hash, carriedInNav: Text, predecessorNav: Option<Text>, carry: CarryState)

  datatype Partition =
    | ValidPartition(ordinal: int, fold: Fold, link: ChainLink)
    | DegradedPartition(ordinal: int, reasons: seq<Id>, result: Option<Fold>, link: ChainLink)

  const NOT_AUTHORIZED: Id := 1
  const PREDECESSOR_DEGRADED: Id := 2
  const CARRY_BROKEN: Id := 3
  const POSITION_BROKEN: Id := 4
  const LOTS_UNSUPPORTED: Id := 5

  /** The predecessor's consumed close, when it produced one. */
  datatype Close = Close(nav: Text, portfolio: Closing)

  /** `_carried_state_matches`. */
  predicate CarriedStateMatches(num: Numeral, c: Closing, o: Opening) {
    && num(c.cash) == num(o.cash)
    && num(c.receivables) == num(o.receivables)
    && Held(num, c.positions).Keys == Held(num, o.positions).Keys
    && forall s :: s in Held(num, c.positions) && s in Held(num, o.positions) ==>
         num(Held(num, c.positions)[s]) == num(Held(num, o.positions)[s])
  }

  datatype Decision =
    | Carry(state: CarryState, nav: Option<Text>, carried: Option<Hash>)
    | Block(state: CarryState, nav: Option<Text>, carried: Option<Hash>, reason: Id)

  /** `_evaluate_carry`. */
  function EvaluateCarry(w: World, first: bool, nav: Text, opening: Opening, close: Option<Close>): Decision {
    if first then Carry(Genesis, None, None)
    else if close.None? then Block(PredecessorDegraded, None, None, PREDECESSOR_DEGRADED)
    else
      var carried := Some(w.carry(CarryDocumentOf(w.num, close.value.portfolio)));
      var before := Some(close.value.nav);
      if nav != close.value.nav then Block(NavBroken, before, carried, CARRY_BROKEN)
      else if !CarriedStateMatches(w.num, close.value.portfolio, opening) then
        Block(PositionBroken, before, carried, POSITION_BROKEN)
      else if close.value.portfolio.openLots != [] then Block(LotsUnsupported, before, carried, LOTS_UNSUPPORTED)
      else Carry(Continuous, before, carried)
  }

  function MakeLink(w: World, slot: Slot, state: State, material: Material, predecessor: Hash, nav: Text,
                    before: Option<Text>, carry: CarryState): ChainLink
  {
    var document := LinkDocument(material, slot.ordinal, FoldId(w, slot.inputs), state, predecessor);
    ChainLink(document, w.chain(document), nav, before, carry)
  }

  function MakeDegraded(w: World, slot: Slot, reasons: seq<Id>, result: Option<Fold>, predecessor: Hash, nav: Text,
                        before: Option<Text>, carried: Option<Hash>, carry: CarryState): Partition
  {
    DegradedPartition(slot.ordinal, reasons, result,
      MakeLink(w, slot, Degraded, ReasonMaterial(carried, reasons), predecessor, nav, before, carry))
  }

  /** `_run_one_slot`. */
  function RunSlot(w: World, authorized: set<Hash>, slot: Slot, predecessor: Hash, first: bool,
                   close: Option<Close>): Partition {
    var carried := if close.Some? then Some(w.carry(CarryDocumentOf(w.num, close.value.portfolio))) else None;
    var before := if close.Some? then Some(close.value.nav) else None;
    if FoldId(w, slot.inputs) !in authorized then
      MakeDegraded(w, slot, [NOT_AUTHORIZED], None, predecessor, slot.inputs.declaredNav, before, carried,
        NotAuthorized)
    else
      var result := w.compose(slot.inputs);
      if result.DegradedFold? then
        MakeDegraded(w, slot, [result.reason], Some(result), predecessor, slot.inputs.declaredNav, before, carried,
          FoldDegraded)
      else
        var d := EvaluateCarry(w, first, result.initialNav, result.opening, close);
        match d
        case Block(state, nav, c, reason) =>
          MakeDegraded(w, slot, [reason], Some(result), predecessor, result.initialNav, nav, c, state)
        case Carry(state, nav, c) =>
          ValidPartition(slot.ordinal, result,
            MakeLink(w, slot, Valid, ResultMaterial(c, ResultIdentity(w, slot.inputs, result)), predecessor,
                     result.initialNav, nav, state))
  }

  function CloseOf(p: Partition): Option<Close> {
    if p.ValidPartition? && p.fold.ValidFold? then Some(Close(p.fold.finalNav, p.fold.closing)) else None
  }

  function GenesisHash(w: World): Hash { w.chain(GenesisDocument) }

  /** The partitions of the first slots of a schedule. */
  function RunSlots(w: World, authorized: set<Hash>, slots: seq<Slot>): (ps: seq<Partition>)
    ensures |ps| == |slots|
  {
    if slots == [] then []
    else
      var n := |slots| - 1;
      var ps := RunSlots(w, authorized, slots[..n]);
      ps + [RunSlot(w, authorized, slots[n], ChainHead(w, ps), n == 0, if n == 0 then None else CloseOf(ps[n - 1]))]
  }

  function ChainHead(w: World, ps: seq<Partition>): Hash {
    if ps == [] then GenesisHash(w) else ps[|ps| - 1].link.hash
  }

  /** The three output tables: each row carries the run id and what it projects. */
  datatype Tables = Tables(
    carryChain: seq<(Hash, ChainLink)>, folds: seq<(Hash, Partition)>, warnings: seq<(Hash, Partition)>)

  datatype Run = Run(id: Hash, partitions: seq<Partition>, head: Hash, tables: Tables, anyValid: bool)

  function PartitionKey(p: Partition): Key { (p.ordinal, 0) }

  function AddRow(t: Tables, id: Hash, p: Partition): Tables {
    var chained := t.(carryChain := t.carryChain + [(id, p.link)]);
    if p.ValidPartition? then chained.(folds := t.folds + [(id, p)]) else chained.(warnings := t.warnings + [(id, p)])
  }

  function TablesOf(id: Hash, ps: seq<Partition>): Tables {
    if ps == [] then Tables([], [], []) else AddRow(TablesOf(id, ps[..|ps| - 1]), id, ps[|ps| - 1])
  }

  function ManifestOf(w: World, p: Plan): Manifest
    requires p.folds != []
  {
    var first := p.folds[0].inputs;
    var slots := OrderedSlots(p);
    Manifest(first.schedule, Ids(first.schedulePolicies), first.modes, p.axis, p.sample, p.authorized,
             seq(|slots|, i requires 0 <= i < |slots| => (slots[i].ordinal, FoldId(w, slots[i].inputs))))
  }

  function Execute(w: World, p: Plan): Run
    requires p.folds != []
  {
    var ps := RunSlots(w, p.authorized, OrderedSlots(p));
    var id := w.manifest(ManifestOf(w, p));
    Run(id, ps, ChainHead(w, ps), TablesOf(id, Sort(ps, PartitionKey)), exists q :: q in ps && q.ValidPartition?)
  }

  /** The first loop of `execute_composed_walk_forward`, threading the chain hash and the
      predecessor's close. */
  method RunFolds(w: World, authorized: set<Hash>, slots: seq<Slot>) returns (partitions: seq<Partition>, head: Hash)
    ensures partitions == RunSlots(w, authorized, slots)
    ensures head == ChainHead(w, partitions)
  {
    hide RunSlot;
    partitions := [];
    head := GenesisHash(w);
    var close: Option<Close> := None;
    var first := true;
    assert slots[..0] == [];
    for i := 0 to |slots|
      invariant partitions == RunSlots(w, authorized, slots[..i])
      invariant head == ChainHead(w, partitions)
      invariant first == (i == 0) && close == if i == 0 then None else CloseOf(partitions[i - 1])
    {
      assert slots[..i + 1][..i] == slots[..i] && slots[..i + 1][i] == slots[i];
      var partition := RunSlot(w, authorized, slots[i], head, first, close);
      partitions := partitions + [partition];
      head := partition.link.hash;
      close := CloseOf(partition);
      first := false;
    }
    assert slots[..|slots|] == slots;
  }

  /** Its second loop, projecting the partitions by ordinal into the output tables. */
  method BuildTables(id: Hash, partitions: seq<Partition>) returns (tables: Tables)
    ensures tables == TablesOf(id, Sort(partitions, PartitionKey))
  {
    var rows := Sort(partitions, PartitionKey);
    tables := Tables([], [], []);
    for i := 0 to |rows|
      invariant tables == TablesOf(id, rows[..i])
    {
      assert rows[..i + 1][..i] == rows[..i];
      tables := AddRow(tables, id, rows[i]);
    }
    assert rows[..|rows|] == rows;
  }

  /** `execute_composed_walk_forward`. */
  method ExecuteLoop(w: World, p: Plan) returns (run: Run)
    requires ValidPlan(p)
    ensures run == Execute(w, p)
  {
    hide RunSlots, OrderedSlots, TablesOf;
    var id := w.manifest(ManifestOf(w, p));
    var partitions, head := RunFolds(w, p.authorized, OrderedSlots(p));
    var tables := BuildTables(id, partitions);
    return Run(id, partitions, head, tables, exists q :: q in partitions && q.ValidPartition?);
  }
}
