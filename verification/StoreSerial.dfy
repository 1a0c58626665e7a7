/** Every run of the store is serial: whatever the interleaving, its effects and results are those
    of whole appends and publications done one after the other, in the order in which their
    processes acquired the lock. */
module StoreSerial {
  import opened Basics
  import opened RegistryModel
  import opened Registry
  import opened Store
  import opened StoreProtocol

  /** One whole operation: the lock acquisition it belongs to, and the listing it read. */
  datatype Op = Op(turn: nat, pid: Pid, task: Task, listing: seq<Entry>)

  datatype Disk = Disk(files: Directory, exports: map<Hash, seq<Event>>)

  /** What a whole operation leaves behind; no read-back changes that. */
  function Perform(h: Hashes, fits: Limits, d: Disk, op: Op): Disk {
    match op.task
    case Append(q) => Disk(Appended(h, fits, d.files, q, op.listing, None).1, d.exports)
    case PublishExport => Disk(d.files, Published(fits, d.exports, Load(h, fits.event, op.listing), None).1)
  }

  /** What it returns, given what its read-back shows. */
  function Outcome(h: Hashes, fits: Limits, d: Disk, op: Op, seen: Option<Event>, whole: Option<seq<Event>>): Result {
    match op.task
    case Append(q) => Appended(h, fits, d.files, q, op.listing, seen).0
    case PublishExport => Published(fits, d.exports, Load(h, fits.event, op.listing), whole).0
  }

  /** The disk after whole operations one after the other. */
  function After(h: Hashes, fits: Limits, ops: seq<Op>): Disk {
    if ops == [] then Disk(map[], map[])
    else Perform(h, fits, After(h, fits, ops[..|ops| - 1]), ops[|ops| - 1])
  }

  /** The operations done so far, who acquired the lock so far, and the operation of a lock holder
      that has decided to write and has not yet written. */
  datatype History = History(ops: seq<Op>, turns: seq<Pid>, pending: Option<Op>)

  /** Each operation read the whole directory that the ones before it left, in its own turn. */
  ghost predicate OpsOk(h: Hashes, fits: Limits, ops: seq<Op>, turns: seq<Pid>) {
    && (forall k :: 0 <= k < |ops| ==>
          && ops[k].turn < |turns| && turns[ops[k].turn] == ops[k].pid
          && Complete(After(h, fits, ops[..k]).files, ops[k].listing))
    && (forall j, k :: 0 <= j < k < |ops| ==> ops[j].turn < ops[k].turn)
  }

  /** The result is that of one of the process's whole operations. */
  ghost predicate Explained(h: Hashes, fits: Limits, ops: seq<Op>, pid: Pid, r: Result) {
    exists k, seen, whole :: 0 <= k < |ops| && ops[k].pid == pid
                             && Outcome(h, fits, After(h, fits, ops[..k]), ops[k], seen, whole) == r
  }

  /** The operation, done on these files, writes this event. */
  ghost predicate Writes(h: Hashes, fits: Limits, files: Directory, op: Op, e: Event) {
    && op.task.Append? && Load(h, fits.event, op.listing).Ready?
    && Decide(h, fits, Load(h, fits.event, op.listing).state, op.task.request) == Write(e)
    && NameOf(e) !in files
  }

  ghost predicate Written(h: Hashes, fits: Limits, ops: seq<Op>, pid: Pid, e: Event) {
    exists k :: 0 <= k < |ops| && ops[k].pid == pid && Writes(h, fits, After(h, fits, ops[..k]).files, ops[k], e)
  }

  /** The latest turn has done nothing yet. */
  ghost predicate Idle(hist: History) {
    hist.turns != [] && forall k :: 0 <= k < |hist.ops| ==> hist.ops[k].turn < |hist.turns| - 1
  }

  /** The lock holder that staged `e` is about to perform its pending operation. */
  ghost predicate Pending(h: Hashes, fits: Limits, files: Directory, hist: History, pid: Pid, e: Event) {
    && hist.pending.Some? && hist.pending.value.pid == pid && hist.pending.value.turn == |hist.turns| - 1
    && var op := hist.pending.value;
       && op.task.Append? && Complete(files, op.listing) && Load(h, fits.event, op.listing).Ready?
       && Decide(h, fits, Load(h, fits.event, op.listing).state, op.task.request) == Write(e)
  }

  ghost predicate PhaseFits(h: Hashes, fits: Limits, s: System, hist: History, pid: Pid)
    requires pid in s.procs
  {
    && (Holds(s.procs[pid]) ==> s.lock == Some(pid) && hist.turns != [] && hist.turns[|hist.turns| - 1] == pid)
    && match s.procs[pid]
       case Asking(_) => true
       case Locked(_) => Idle(hist)
       case Staged(e, _) => Idle(hist) && Pending(h, fits, s.dir, hist, pid, e)
       case Linked(e, _) => Written(h, fits, hist.ops, pid, e)
       case Finished(r) => r == Raised(TimedOut) || Explained(h, fits, hist.ops, pid, r)
  }

  /** The history accounts for the state. */
  ghost predicate Serial(h: Hashes, fits: Limits, s: System, hist: History) {
    && Disk(s.dir, s.exports) == After(h, fits, hist.ops)
    && OpsOk(h, fits, hist.ops, hist.turns)
    && forall pid :: pid in s.procs ==> PhaseFits(h, fits, s, hist, pid)
  }

  // ---------------------------------------------------------------------- growth

  lemma {:induction false} AfterAppend(h: Hashes, fits: Limits, ops: seq<Op>, op: Op)
    ensures After(h, fits, ops + [op]) == Perform(h, fits, After(h, fits, ops), op)
  {
    hide Perform;
    assert (ops + [op])[..|ops|] == ops;
  }

  lemma {:induction false} OpsExtended(h: Hashes, fits: Limits, hist: History, op: Op)
    requires OpsOk(h, fits, hist.ops, hist.turns) && Idle(hist)
    requires op.turn == |hist.turns| - 1 && hist.turns[op.turn] == op.pid
    requires Complete(After(h, fits, hist.ops).files, op.listing)
    ensures OpsOk(h, fits, hist.ops + [op], hist.turns)
  {
    hide After, Complete;
    var ops, longer := hist.ops, hist.ops + [op];
    forall k | 0 <= k < |longer|
      ensures longer[k].turn < |hist.turns| && hist.turns[longer[k].turn] == longer[k].pid
      ensures Complete(After(h, fits, longer[..k]).files, longer[k].listing)
    {
      assert longer[..k] == ops[..k];
      assert k == |ops| ==> ops[..k] == ops;
    }
  }

  lemma {:induction false} TurnsExtended(h: Hashes, fits: Limits, ops: seq<Op>, turns: seq<Pid>, pid: Pid)
    requires OpsOk(h, fits, ops, turns)
    ensures OpsOk(h, fits, ops, turns + [pid])
    ensures Idle(History(ops, turns + [pid], None))
  {
    hide After, Complete;
  }

  lemma {:induction false} StillExplained(h: Hashes, fits: Limits, ops: seq<Op>, op: Op, pid: Pid, r: Result)
    requires Explained(h, fits, ops, pid, r)
    ensures Explained(h, fits, ops + [op], pid, r)
  {
    hide After, Outcome;
    var k, seen, whole :| 0 <= k < |ops| && ops[k].pid == pid
      && Outcome(h, fits, After(h, fits, ops[..k]), ops[k], seen, whole) == r;
    var longer := ops + [op];
    assert longer[k] == ops[k] && longer[..k] == ops[..k];
    assert Outcome(h, fits, After(h, fits, longer[..k]), longer[k], seen, whole) == r;
  }

  lemma {:induction false} LastExplains(h: Hashes, fits: Limits, ops: seq<Op>, op: Op, seen: Option<Event>,
                                        whole: Option<seq<Event>>)
    ensures Explained(h, fits, ops + [op], op.pid, Outcome(h, fits, After(h, fits, ops), op, seen, whole))
  {
    hide After, Outcome;
    var longer, n := ops + [op], |ops|;
    assert longer[n] == op && longer[..n] == ops;
    assert Outcome(h, fits, After(h, fits, longer[..n]), longer[n], seen, whole)
        == Outcome(h, fits, After(h, fits, ops), op, seen, whole);
  }

  lemma {:induction false} LastWrites(h: Hashes, fits: Limits, ops: seq<Op>, op: Op, e: Event)
    requires Writes(h, fits, After(h, fits, ops).files, op, e)
    ensures Written(h, fits, ops + [op], op.pid, e)
  {
    hide After, Writes;
    var longer, n := ops + [op], |ops|;
    assert longer[n] == op && longer[..n] == ops;
  }

  /** A process that wrote returns its event or reports the read-back. */
  lemma {:induction false} WrittenExplains(h: Hashes, fits: Limits, ops: seq<Op>, pid: Pid, e: Event,
                                           seen: Option<Event>)
    requires Written(h, fits, ops, pid, e)
    ensures Explained(h, fits, ops, pid, if seen == Some(e) then Returned(e) else Raised(ReadBackDiffers))
  {
    hide After, Load, Decide;
    var k :| 0 <= k < |ops| && ops[k].pid == pid && Writes(h, fits, After(h, fits, ops[..k]).files, ops[k], e);
    assert Outcome(h, fits, After(h, fits, ops[..k]), ops[k], seen, None)
        == if seen == Some(e) then Returned(e) else Raised(ReadBackDiffers);
  }

  // ----------------------------------------------------------------------- steps

  /** A process that does not hold the lock keeps its account while another's operation is added. */
  lemma {:induction false} BystanderFits(h: Hashes, fits: Limits, s: System, hist: History, s': System, op: Op,
                                         pid: Pid)
    requires pid in s.procs && PhaseFits(h, fits, s, hist, pid) && !Holds(s.procs[pid])
    requires pid in s'.procs && s'.procs[pid] == s.procs[pid]
    ensures PhaseFits(h, fits, s', hist.(ops := hist.ops + [op], pending := None), pid)
  {
    hide Explained, After, Complete;
    if s.procs[pid].Finished? && s.procs[pid].result != Raised(TimedOut) {
      StillExplained(h, fits, hist.ops, op, pid, s.procs[pid].result);
    }
  }

  /** The lock holder performs its operation. */
  lemma {:induction false} OperationDone(h: Hashes, fits: Limits, s: System, hist: History, s': System, op: Op)
    requires Serial(h, fits, s, hist) && op.pid in s.procs && Holds(s.procs[op.pid]) && Idle(hist)
    requires op.turn == |hist.turns| - 1 && Complete(s.dir, op.listing)
    requires s'.procs.Keys == s.procs.Keys && forall p :: p in s.procs && p != op.pid ==> s'.procs[p] == s.procs[p]
    requires Disk(s'.dir, s'.exports) == Perform(h, fits, Disk(s.dir, s.exports), op)
    requires PhaseFits(h, fits, s', hist.(ops := hist.ops + [op], pending := None), op.pid)
    ensures Serial(h, fits, s', hist.(ops := hist.ops + [op], pending := None))
  {
    hide Perform, After, OpsOk, Idle, Complete, Explained, Written, Pending;
    assert PhaseFits(h, fits, s, hist, op.pid);
    AfterAppend(h, fits, hist.ops, op);
    OpsExtended(h, fits, hist, op);
    forall p | p in s'.procs
      ensures PhaseFits(h, fits, s', hist.(ops := hist.ops + [op], pending := None), p)
    {
      if p != op.pid {
        assert PhaseFits(h, fits, s, hist, p);
        BystanderFits(h, fits, s, hist, s', op, p);
      }
    }
  }

  lemma {:induction false} FinishedFits(h: Hashes, fits: Limits, s: System, hist: History, s': System, op: Op,
                                        seen: Option<Event>, whole: Option<seq<Event>>)
    requires op.pid in s'.procs
    requires s'.procs[op.pid] == Finished(Outcome(h, fits, After(h, fits, hist.ops), op, seen, whole))
    ensures PhaseFits(h, fits, s', hist.(ops := hist.ops + [op], pending := None), op.pid)
  {
    hide After, Outcome, Explained;
    LastExplains(h, fits, hist.ops, op, seen, whole);
  }

  /** Everything but a write is over when the lock holder has looked. */
  lemma {:induction false} WorkIsSerial(h: Hashes, fits: Limits, s: System, hist: History, a: Action, s': System)
    returns (next: History)
    requires Serial(h, fits, s, hist) && Does(h, fits, s, a, s') && a.Work?
    ensures Serial(h, fits, s', next) && hist.ops <= next.ops && |next.ops| <= |hist.ops| + 1
    ensures next.turns == hist.turns
  {
    hide After, OpsOk, Complete, Load, Decide, Explained, Written;
    assert PhaseFits(h, fits, s, hist, a.pid);
    var op := Op(|hist.turns| - 1, a.pid, s.procs[a.pid].task, a.listing);
    if s'.procs[a.pid].Staged? {
      next := hist.(pending := Some(op));
      StagedIsSerial(h, fits, s, hist, a, s', op);
    } else {
      next := hist.(ops := hist.ops + [op], pending := None);
      WorkedAtOnce(h, fits, s, a, s', op);
      FinishedFits(h, fits, s, hist, s', op, None, a.seen);
      hide Does, PhaseFits, Idle;
      OperationDone(h, fits, s, hist, s', op);
    }
  }

  lemma {:induction false} WorkedAtOnce(h: Hashes, fits: Limits, s: System, a: Action, s': System, op: Op)
    requires a.pid in s.procs && a.pid in s'.procs && s.procs[a.pid].Locked?
    requires Does(h, fits, s, a, s') && a.Work? && !s'.procs[a.pid].Staged?
    requires op.pid == a.pid && op.task == s.procs[a.pid].task && op.listing == a.listing
    ensures s'.procs.Keys == s.procs.Keys && forall p :: p in s.procs && p != op.pid ==> s'.procs[p] == s.procs[p]
    ensures Disk(s'.dir, s'.exports) == Perform(h, fits, Disk(s.dir, s.exports), op)
    ensures s'.procs[a.pid] == Finished(Outcome(h, fits, Disk(s.dir, s.exports), op, None, a.seen))
    ensures Complete(s.dir, op.listing)
  {
    hide Complete, Load, Decide;
  }

  lemma {:induction false} StagedIsSerial(h: Hashes, fits: Limits, s: System, hist: History, a: Action, s': System,
                                          op: Op)
    requires a.pid in s.procs && a.pid in s'.procs && s.procs[a.pid].Locked?
    requires Serial(h, fits, s, hist) && Does(h, fits, s, a, s') && a.Work? && s'.procs[a.pid].Staged?
    requires hist.turns != [] && op == Op(|hist.turns| - 1, a.pid, s.procs[a.pid].task, a.listing)
    ensures Serial(h, fits, s', hist.(pending := Some(op)))
  {
    hide After, OpsOk, Complete, Load, Decide, Explained, Written;
    assert PhaseFits(h, fits, s, hist, a.pid);
    forall p | p in s'.procs
      ensures PhaseFits(h, fits, s', hist.(pending := Some(op)), p)
    {
      assert PhaseFits(h, fits, s, hist, p);
    }
  }

  /** The link performs the pending operation, or finds its name taken. */
  lemma {:induction false} LinkIsSerial(h: Hashes, fits: Limits, s: System, hist: History, a: Action, s': System)
    returns (next: History)
    requires Serial(h, fits, s, hist) && Does(h, fits, s, a, s') && a.Link?
    ensures Serial(h, fits, s', next) && hist.ops <= next.ops && |next.ops| <= |hist.ops| + 1
    ensures next.turns == hist.turns
  {
    hide After, OpsOk, Complete, Load, Decide, Explained, Written, Idle;
    assert PhaseFits(h, fits, s, hist, a.pid);
    var op, e := hist.pending.value, s.procs[a.pid].event;
    next := hist.(ops := hist.ops + [op], pending := None);
    LinkPerforms(h, fits, s, hist, a, s', op);
    if NameOf(e) in s.dir {
      FinishedFits(h, fits, s, hist, s', op, None, None);
    } else {
      LastWrites(h, fits, hist.ops, op, e);
      assert s'.procs[a.pid].Linked? && s'.lock == s.lock;
    }
    hide Does, Pending;
    OperationDone(h, fits, s, hist, s', op);
  }

  lemma {:induction false} LinkPerforms(h: Hashes, fits: Limits, s: System, hist: History, a: Action, s': System,
                                        op: Op)
    requires a.pid in s.procs && a.pid in s'.procs && s.procs[a.pid].Staged?
    requires Does(h, fits, s, a, s') && a.Link? && Pending(h, fits, s.dir, hist, a.pid, s.procs[a.pid].event)
    requires op == hist.pending.value
    ensures s'.procs.Keys == s.procs.Keys && forall p :: p in s.procs && p != op.pid ==> s'.procs[p] == s.procs[p]
    ensures Disk(s'.dir, s'.exports) == Perform(h, fits, Disk(s.dir, s.exports), op)
    ensures NameOf(s.procs[a.pid].event) in s.dir ==>
      s'.procs[a.pid] == Finished(Outcome(h, fits, Disk(s.dir, s.exports), op, None, None))
  {
    hide Complete, Load, Decide;
  }

  lemma {:induction false} ReturnIsSerial(h: Hashes, fits: Limits, s: System, hist: History, a: Action, s': System)
    requires Serial(h, fits, s, hist) && Does(h, fits, s, a, s') && a.Return?
    ensures Serial(h, fits, s', hist)
  {
    hide After, OpsOk, Complete, Load, Decide, Explained, Written, Idle, Pending;
    assert PhaseFits(h, fits, s, hist, a.pid);
    WrittenExplains(h, fits, hist.ops, a.pid, s.procs[a.pid].event, a.readBack);
    forall p | p in s'.procs
      ensures PhaseFits(h, fits, s', hist, p)
    {
      assert PhaseFits(h, fits, s, hist, p);
    }
  }

  lemma {:induction false} AcquireIsSerial(h: Hashes, fits: Limits, s: System, hist: History, a: Action, s': System)
    requires Serial(h, fits, s, hist) && Does(h, fits, s, a, s') && a.Acquire?
    ensures Serial(h, fits, s', History(hist.ops, hist.turns + [a.pid], None))
  {
    hide After, OpsOk, Complete, Explained, Written, Pending, Idle;
    TurnsExtended(h, fits, hist.ops, hist.turns, a.pid);
    forall p | p in s'.procs
      ensures PhaseFits(h, fits, s', History(hist.ops, hist.turns + [a.pid], None), p)
    {
      assert PhaseFits(h, fits, s, hist, p);
    }
  }

  lemma {:induction false} OtherIsSerial(h: Hashes, fits: Limits, s: System, hist: History, a: Action, s': System)
    requires Serial(h, fits, s, hist) && Does(h, fits, s, a, s') && (a.Begin? || a.TimeOut? || a.Die?)
    ensures Serial(h, fits, s', hist)
  {
    hide After, OpsOk, Complete, Explained, Written, Pending, Idle;
    forall p | p in s'.procs
      ensures PhaseFits(h, fits, s', hist, p)
    {
      assert p in s.procs ==> PhaseFits(h, fits, s, hist, p);
    }
  }

  lemma {:induction false} StepIsSerial(h: Hashes, fits: Limits, s: System, hist: History, a: Action, s': System)
    returns (next: History)
    requires Serial(h, fits, s, hist) && Does(h, fits, s, a, s')
    ensures Serial(h, fits, s', next) && hist.ops <= next.ops && |next.ops| <= |hist.ops| + 1
    ensures next.turns == hist.turns + if a.Acquire? then [a.pid] else []
  {
    hide Serial, Does;
    if a.Work? {
      next := WorkIsSerial(h, fits, s, hist, a, s');
    } else if a.Link? {
      next := LinkIsSerial(h, fits, s, hist, a, s');
    } else if a.Return? {
      next := hist;
      ReturnIsSerial(h, fits, s, hist, a, s');
    } else if a.Acquire? {
      next := History(hist.ops, hist.turns + [a.pid], None);
      AcquireIsSerial(h, fits, s, hist, a, s');
    } else {
      next := hist;
      OtherIsSerial(h, fits, s, hist, a, s');
    }
  }

  // ------------------------------------------------------------------------ runs

  /** The processes that acquired the lock, in order. */
  function Acquirers(actions: seq<Action>): seq<Pid> {
    if actions == [] then []
    else
      var last := actions[|actions| - 1];
      Acquirers(actions[..|actions| - 1]) + if last.Acquire? then [last.pid] else []
  }

  /** Under any interleaving, with crashes anywhere, the directory and the exports are what whole
      operations done one after the other in the order of lock acquisition leave, each of which read
      all that the ones before it left; and every process that ended without timing out returned
      what one of its operations returns. */
  lemma {:induction false} EveryRunIsSerial(h: Hashes, fits: Limits, states: seq<System>, actions: seq<Action>)
    returns (hist: History)
    requires Run(h, fits, states, actions)
    ensures hist.turns == Acquirers(actions) && Serial(h, fits, states[|actions|], hist)
    decreases |actions|
  {
    hide Does, Init, Serial;
    if actions == [] {
      hist := History([], [], None);
      NothingIsSerial(h, fits, states[0]);
    } else {
      var n := |actions| - 1;
      assert states[..n + 1][n] == states[n];
      var before := EveryRunIsSerial(h, fits, states[..n + 1], actions[..n]);
      assert Does(h, fits, states[n], actions[n], states[n + 1]);
      hist := StepIsSerial(h, fits, states[n], before, actions[n], states[n + 1]);
    }
  }

  lemma {:induction false} NothingIsSerial(h: Hashes, fits: Limits, s: System)
    requires Init(s)
    ensures Serial(h, fits, s, History([], [], None))
  {}
}
