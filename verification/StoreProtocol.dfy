/** Appenders, publishers and unlocked readers around one event directory: a lock held by one
    process at a time, atomic publication by link, and crashes at any point. */
module StoreProtocol {
  import opened Basics
  import opened AccessChain
  import opened RegistryModel
  import opened Registry
  import opened RegistryInvariant
  import opened Replayer
  import opened Store

  datatype Request = Request(id: Id, at: Time, actor: Id, kind: Kind)
  /** The size bounds on one event and on one export. */
  datatype Limits = Limits(event: Event -> bool, whole: seq<Event> -> bool)

  datatype StoreError =
    | TimedOut | LoadFailed(load: LoadError) | Rejected(reason: Reason) | Broken | RetryDiffers
    | EventTooLarge | DestinationExists | ReadBackDiffers | ExportTooLarge | ExportConflicts

  datatype Decision = Repeated(prior: Event) | Write(event: Event) | Refuse(error: StoreError)

  function Build(h: Hashes, q: Request, sequence: int, previous: Hash): Event {
    var body := EventBody(q.id, sequence, previous, q.at, q.actor, q.kind);
    Event(body, h.event(body))
  }

  /** The committed event with the requested id, if there is one. */
  function Prior(log: seq<Event>, id: Id): (p: Option<Event>)
    ensures p.None? <==> forall e :: e in log ==> e.body.id != id
    ensures p.Some? ==> p.value in log && p.value.body.id == id
  {
    if log == [] then None else if log[0].body.id == id then Some(log[0]) else Prior(log[1..], id)
  }

  /** What `append` does once the log is loaded: recognise a retry, or build the next event,
      replay the log with it and check its size. */
  function Decide(h: Hashes, fits: Limits, st: State, q: Request): Decision {
    match Prior(st.accepted, q.id)
    case Some(p) =>
      var candidate := Build(h, q, p.body.sequence, p.body.previous);
      if !ValidEvent(h, candidate) then Refuse(Rejected(Malformed))
      else if candidate == p then Repeated(p) else Refuse(RetryDiffers)
    case None =>
      var e := Build(h, q, |st.accepted| + 1, Head(st.accepted));
      match Replay(h, st.accepted + [e])
      case Loaded(_) => if fits.event(e) then Write(e) else Refuse(EventTooLarge)
      case Refused(reason) => Refuse(Rejected(reason))
      case Crashed => Refuse(Broken)
  }

  datatype HeadCheck = Contains(state: State) | Absent | Unreadable(error: LoadError)
  datatype Result = Returned(event: Event) | Exported(head: Hash) | Raised(error: StoreError)

  /** What `append` returns and leaves behind, given the listing it reads under the lock and what
      the read-back of a published file shows. */
  function Appended(h: Hashes, fits: Limits, files: Directory, q: Request, listing: seq<Entry>, seen: Option<Event>)
    : (Result, Directory)
  {
    match Load(h, fits.event, listing)
    case Unloadable(error) => (Raised(LoadFailed(error)), files)
    case Ready(st) =>
      match Decide(h, fits, st, q)
      case Repeated(p) => (Returned(p), files)
      case Refuse(error) => (Raised(error), files)
      case Write(e) =>
        if NameOf(e) in files then (Raised(DestinationExists), files)
        else (if seen == Some(e) then Returned(e) else Raised(ReadBackDiffers), files[NameOf(e) := e])
  }

  /** What `publish_export` returns and leaves behind, given what a read of the export of the
      current head shows once there is one. */
  function Published(fits: Limits, exports: map<Hash, seq<Event>>, loading: Loading, seen: Option<seq<Event>>)
    : (Result, map<Hash, seq<Event>>)
  {
    match loading
    case Unloadable(error) => (Raised(LoadFailed(error)), exports)
    case Ready(st) =>
      var head := Head(st.accepted);
      if !fits.whole(st.accepted) then (Raised(ExportTooLarge), exports)
      else if head in exports then
        (if seen == Some(st.accepted) then Exported(head) else Raised(ExportConflicts), exports)
      else
        (if seen == Some(st.accepted) then Exported(head) else Raised(ReadBackDiffers), exports[head := st.accepted])
  }

  /** `RegistryStore` as one lock holder sees it. */
  class RegistryStore {
    const h: Hashes
    var files: Directory
    var exports: map<Hash, seq<Event>>

    constructor (h: Hashes)
      ensures this.h == h && files == map[] && exports == map[]
    {
      this.h := h;
      files, exports := map[], map[];
    }

    /** `append`, given the directory listing it reads under the lock. */
    method Append(fits: Limits, q: Request, listing: seq<Entry>, seen: Option<Event>) returns (r: Result)
      modifies this`files
      ensures (r, files) == Appended(h, fits, old(files), q, listing, seen)
    {
      hide Load, Replay, ValidEvent;
      var loading := LoadUnlocked(h, fits.event, listing);
      if loading.Unloadable? {
        return Raised(LoadFailed(loading.error));
      }
      var st := loading.state;
      var prior := Prior(st.accepted, q.id);
      if prior.Some? {
        var candidate := Build(h, q, prior.value.body.sequence, prior.value.body.previous);
        var valid := ValidateEvent(h, candidate);
        if !valid {
          return Raised(Rejected(Malformed));
        }
        return if candidate == prior.value then Returned(prior.value) else Raised(RetryDiffers);
      }
      var e := Build(h, q, |st.accepted| + 1, Head(st.accepted));
      var replayed := ReplayRegistry(h, st.accepted + [e]);
      match replayed {
        case Loaded(_) =>
        case Refused(reason) => return Raised(Rejected(reason));
        case Crashed => return Raised(Broken);
      }
      if !fits.event(e) {
        return Raised(EventTooLarge);
      }
      if NameOf(e) in files {
        return Raised(DestinationExists);
      }
      files := files[NameOf(e) := e];
      return if seen == Some(e) then Returned(e) else Raised(ReadBackDiffers);
    }

    /** `publish_export`: the export of the current head is written once and then only verified. */
    method PublishExport(fits: Limits, listing: seq<Entry>, seen: Option<seq<Event>>) returns (r: Result)
      modifies this`exports
      ensures (r, exports) == Published(fits, old(exports), Load(h, fits.event, listing), seen)
    {
      hide Load;
      var loading := LoadUnlocked(h, fits.event, listing);
      if loading.Unloadable? {
        return Raised(LoadFailed(loading.error));
      }
      var st := loading.state;
      var head := Head(st.accepted);
      if !fits.whole(st.accepted) {
        return Raised(ExportTooLarge);
      }
      if head in exports {
        return if seen == Some(st.accepted) then Exported(head) else Raised(ExportConflicts);
      }
      exports := exports[head := st.accepted];
      return if seen == Some(st.accepted) then Exported(head) else Raised(ReadBackDiffers);
    }

    /** `require_head`. */
    method RequireHead(fits: Limits, listing: seq<Entry>, head: Hash) returns (r: HeadCheck)
      ensures r == match Load(h, fits.event, listing)
        case Unloadable(error) => Unreadable(error)
        case Ready(st) => if exists e :: e in st.accepted && e.hash == head then Contains(st) else Absent
    {
      hide Load;
      var loading := LoadUnlocked(h, fits.event, listing);
      if loading.Unloadable? {
        return Unreadable(loading.error);
      }
      var known := set e | e in loading.state.accepted :: e.hash;
      return if head in known then Contains(loading.state) else Absent;
    }
  }

  // ------------------------------------------------------------------- protocol

  type Pid = int
  datatype Task = Append(request: Request) | PublishExport

  datatype Phase =
    | Asking(task: Task)
    | Locked(task: Task)
    | Staged(event: Event, tag: int)
    | Linked(event: Event, tag: int)
    | Finished(result: Result)

  datatype System = System(
    dir: Directory, temps: set<int>, exports: map<Hash, seq<Event>>, lock: Option<Pid>, procs: map<Pid, Phase>)

  datatype Action =
    | Begin(pid: Pid, task: Task)
    | TimeOut(pid: Pid)
    | Acquire(pid: Pid)
    | Work(pid: Pid, listing: seq<Entry>, tag: int, seen: Option<seq<Event>>)
    | Link(pid: Pid)
    | Return(pid: Pid, readBack: Option<Event>)
    | Die(pid: Pid)

  predicate Holds(p: Phase) { p.Locked? || p.Staged? || p.Linked? }

  function Finish(s: System, pid: Pid, r: Result): System {
    s.(procs := s.procs[pid := Finished(r)], lock := None)
  }

  /** What the lock holder does with a load of the whole directory. */
  function Worked(h: Hashes, fits: Limits, s: System, pid: Pid, task: Task, loading: Loading, tag: int,
                  seen: Option<seq<Event>>): System
  {
    match task
    case PublishExport =>
      var (r, exports) := Published(fits, s.exports, loading, seen);
      Finish(s.(exports := exports), pid, r)
    case Append(q) =>
      match loading
      case Unloadable(error) => Finish(s, pid, Raised(LoadFailed(error)))
      case Ready(st) =>
        match Decide(h, fits, st, q)
        case Repeated(p) => Finish(s, pid, Returned(p))
        case Refuse(error) => Finish(s, pid, Raised(error))
        case Write(e) => s.(temps := s.temps + {tag}, procs := s.procs[pid := Staged(e, tag)])
  }

  ghost predicate Does(h: Hashes, fits: Limits, s: System, a: Action, s': System) {
    match a
    case Begin(pid, task) => pid !in s.procs && s' == s.(procs := s.procs[pid := Asking(task)])
    case TimeOut(pid) =>
      pid in s.procs && s.procs[pid].Asking? && s' == s.(procs := s.procs[pid := Finished(Raised(TimedOut))])
    case Acquire(pid) =>
      && pid in s.procs && s.procs[pid].Asking? && s.lock.None?
      && s' == s.(lock := Some(pid), procs := s.procs[pid := Locked(s.procs[pid].task)])
    case Work(pid, listing, tag, seen) =>
      && pid in s.procs && s.procs[pid].Locked? && tag !in s.temps && Complete(s.dir, listing)
      && s' == Worked(h, fits, s, pid, s.procs[pid].task, Load(h, fits.event, listing), tag, seen)
    case Link(pid) =>
      && pid in s.procs && s.procs[pid].Staged?
      && var e := s.procs[pid].event;
         s' == if NameOf(e) in s.dir then
                 Finish(s.(temps := s.temps - {s.procs[pid].tag}), pid, Raised(DestinationExists))
               else s.(dir := s.dir[NameOf(e) := e], procs := s.procs[pid := Linked(e, s.procs[pid].tag)])
    case Return(pid, seen) =>
      && pid in s.procs && s.procs[pid].Linked?
      && s' == Finish(s.(temps := s.temps - {s.procs[pid].tag}), pid,
                      if seen == Some(s.procs[pid].event) then Returned(s.procs[pid].event)
                      else Raised(ReadBackDiffers))
    case Die(pid) =>
      && pid in s.procs
      && s' == s.(procs := s.procs - {pid}, lock := if s.lock == Some(pid) then None else s.lock)
  }

  /** The steps of one appender, taken one after the other, do what `Append` does. */
  lemma {:induction false} UninterruptedAppend(h: Hashes, fits: Limits, s: System, pid: Pid, q: Request,
                                               listing: seq<Entry>, tag: int, none: Option<seq<Event>>,
                                               seen: Option<Event>, worked: System, linked: System, ended: System)
    requires pid in s.procs && pid in worked.procs && pid in linked.procs && pid in ended.procs
    requires s.procs[pid] == Locked(Append(q)) && Does(h, fits, s, Work(pid, listing, tag, none), worked)
    requires if worked.procs[pid].Staged? then Does(h, fits, worked, Link(pid), linked) else linked == worked
    requires if linked.procs[pid].Linked? then Does(h, fits, linked, Return(pid, seen), ended) else ended == linked
    ensures ended.procs[pid].Finished?
      && (ended.procs[pid].result, ended.dir) == Appended(h, fits, s.dir, q, listing, seen)
    ensures ended.lock.None? && ended.exports == s.exports && ended.temps == s.temps
  {
    hide Load, Decide;
    AppendLooks(h, fits, s, pid, q, listing, tag, none, worked);
    if worked.procs[pid].Staged? {
      hide Worked, Complete;
      assert linked.procs[pid] == if NameOf(worked.procs[pid].event) in s.dir then Finished(Raised(DestinationExists))
                                  else Linked(worked.procs[pid].event, tag);
    }
  }

  /** What the lock holder's look at the directory leaves of an append. */
  lemma {:induction false} AppendLooks(h: Hashes, fits: Limits, s: System, pid: Pid, q: Request, listing: seq<Entry>,
                                       tag: int, none: Option<seq<Event>>, worked: System)
    requires pid in s.procs && pid in worked.procs && s.procs[pid] == Locked(Append(q))
    requires Does(h, fits, s, Work(pid, listing, tag, none), worked)
    ensures worked.dir == s.dir && worked.exports == s.exports && tag !in s.temps
    ensures worked.procs[pid].Staged? ==>
      && Load(h, fits.event, listing).Ready? && worked.procs[pid].tag == tag && worked.temps == s.temps + {tag}
      && Decide(h, fits, Load(h, fits.event, listing).state, q) == Write(worked.procs[pid].event)
    ensures !worked.procs[pid].Staged? ==>
      && worked.procs[pid].Finished? && worked.lock.None? && worked.temps == s.temps
      && forall seen :: (worked.procs[pid].result, worked.dir) == Appended(h, fits, s.dir, q, listing, seen)
  {
    hide Load, Decide, Complete;
  }

  ghost predicate Init(s: System) {
    s.dir == map[] && s.exports == map[] && s.lock.None? && s.procs == map[]
  }

  ghost predicate PhaseOk(h: Hashes, fits: Limits, s: System, log: seq<Event>, pid: Pid)
    requires pid in s.procs
  {
    && (Holds(s.procs[pid]) ==> s.lock == Some(pid))
    && match s.procs[pid]
       case Staged(e, _) => Accepted(h, log + [e]) && fits.event(e)
       case Linked(e, _) => e in log
       case Finished(Returned(e)) => e in log
       case Finished(Exported(x)) => x in s.exports
       case _ => true
  }

  ghost predicate ExportOk(log: seq<Event>, head: Hash, exported: seq<Event>) {
    exported <= log && Head(exported) == head
  }

  /** `log` is the one history behind the directory. */
  ghost predicate Keeps(h: Hashes, fits: Limits, s: System, log: seq<Event>) {
    && Accepted(h, log)
    && s.dir == Files(log) && (forall e :: e in log ==> fits.event(e))
    && (forall pid :: pid in s.procs ==> PhaseOk(h, fits, s, log, pid))
    && (forall x :: x in s.exports ==> ExportOk(log, x, s.exports[x]))
  }

  lemma {:induction false} FilesExtend(h: Hashes, log: seq<Event>, e: Event)
    requires Accepted(h, log + [e])
    ensures Accepted(h, log) && Files(log + [e]) == Files(log)[NameOf(e) := e] && NameOf(e) !in Files(log)
  {
    var longer := log + [e];
    assert longer[..|log|] == log && longer[|log|] == e;
    AcceptedPrefix(h, longer, |log|);
    FilesOfLog(h, log);
    AcceptedSequence(h, longer, |log|);
    hide Accepted;
    forall n | n in Files(log)
      ensures n != NameOf(e)
    {
      var i :| 0 <= i < |log| && log[i] == Files(log)[n];
      AcceptedSequence(h, longer, i);
      assert longer[i] == log[i];
    }
  }

  /** A decision to write extends the log by an acceptable event. */
  lemma {:induction false} WriteExtends(h: Hashes, fits: Limits, log: seq<Event>, q: Request)
    requires Accepted(h, log) && Decide(h, fits, Replay(h, log).state, q).Write?
    ensures Accepted(h, log + [Decide(h, fits, Replay(h, log).state, q).event])
  {
    hide Replay;
    var e := Decide(h, fits, Replay(h, log).state, q).event;
    assert e !in log;
    assert Distinct(log) by {
      forall i, j | 0 <= i < j < |log|
        ensures log[i] != log[j]
      {
        AcceptedSequence(h, log, i);
        AcceptedSequence(h, log, j);
      }
    }
    DistinctIsAccepted(h, log + [e]);
  }

  /** A lock holder that ends with a sound result, or stages an acceptable event, keeps the
      history. */
  lemma {:induction false} HolderKeeps(h: Hashes, fits: Limits, s: System, log: seq<Event>, pid: Pid, phase: Phase,
                                       s': System)
    requires Keeps(h, fits, s, log) && pid in s.procs && s.procs[pid].Locked?
    requires phase.Finished? || phase.Staged?
    requires s'.dir == s.dir && s'.exports == s.exports && s'.procs == s.procs[pid := phase]
    requires s'.lock == if phase.Staged? then s.lock else None
    requires phase.Staged? ==> Accepted(h, log + [phase.event]) && fits.event(phase.event)
    requires phase.Finished? && phase.result.Returned? ==> phase.result.event in log
    requires phase.Finished? && phase.result.Exported? ==> phase.result.head in s.exports
    ensures Keeps(h, fits, s', log)
  {
    hide Accepted, Files, ExportOk;
    assert s.lock == Some(pid) by { assert PhaseOk(h, fits, s, log, pid); }
    forall p | p in s'.procs
      ensures PhaseOk(h, fits, s', log, p)
    {
      assert PhaseOk(h, fits, s, log, p);
    }
  }

  lemma {:induction false} ExportKept(h: Hashes, fits: Limits, s: System, log: seq<Event>)
    requires Keeps(h, fits, s, log)
    ensures Keeps(h, fits, s.(exports := s.exports[Head(log) := log]), log)
  {
    hide Accepted, Files;
    var s' := s.(exports := s.exports[Head(log) := log]);
    forall p | p in s'.procs
      ensures PhaseOk(h, fits, s', log, p)
    {
      assert PhaseOk(h, fits, s, log, p);
    }
  }

  /** The lock holder's work keeps the history. */
  lemma {:induction false} WorkKeeps(h: Hashes, fits: Limits, s: System, log: seq<Event>, a: Action, s': System)
    requires Keeps(h, fits, s, log) && Does(h, fits, s, a, s') && a.Work? && Injective(h.event)
    ensures Keeps(h, fits, s', log)
  {
    CompleteLoadsLog(h, fits.event, log, a.listing);
    var st := Replay(h, log).state;
    var task := s.procs[a.pid].task;
    assert st.accepted == log;
    if task.Append? {
      DecisionSound(h, fits, log, task.request);
      hide Replay, Load, Decide, Keeps;
      HolderKeeps(h, fits, s, log, a.pid, s'.procs[a.pid], s');
    } else {
      hide Replay, Load, Decide, Keeps;
      if fits.whole(log) && Head(log) !in s.exports {
        ExportKept(h, fits, s, log);
        HolderKeeps(h, fits, s.(exports := s.exports[Head(log) := log]), log, a.pid, s'.procs[a.pid], s');
      } else {
        HolderKeeps(h, fits, s, log, a.pid, s'.procs[a.pid], s');
      }
    }
  }

  lemma {:induction false} DecisionSound(h: Hashes, fits: Limits, log: seq<Event>, q: Request)
    requires Accepted(h, log)
    ensures var d := Decide(h, fits, Replay(h, log).state, q);
      && (d.Write? ==> Accepted(h, log + [d.event]) && fits.event(d.event))
      && (d.Repeated? ==> d.prior in log)
  {
    hide Replay;
    if Decide(h, fits, Replay(h, log).state, q).Write? {
      WriteExtends(h, fits, log, q);
    }
  }

  /** Every step keeps one history, and only a link makes it longer, by one event. */
  lemma {:induction false} StepKeepsHistory(h: Hashes, fits: Limits, s: System, log: seq<Event>, a: Action, s': System)
    returns (log': seq<Event>)
    requires Keeps(h, fits, s, log) && Does(h, fits, s, a, s') && Injective(h.event)
    ensures Keeps(h, fits, s', log') && log <= log' && |log'| <= |log| + 1
    ensures !a.Link? ==> log' == log
    ensures a.Link? ==> log' == log + [s.procs[a.pid].event]
  {
    log' := log;
    if a.Work? {
      WorkKeeps(h, fits, s, log, a, s');
    } else if a.Link? {
      var e := s.procs[a.pid].event;
      assert PhaseOk(h, fits, s, log, a.pid);
      FilesExtend(h, log, e);
      log' := log + [e];
      LinkKeeps(h, fits, s, log, a, s');
    } else {
      hide Accepted, Files;
      forall pid | pid in s'.procs
        ensures PhaseOk(h, fits, s', log, pid)
      {
        assert pid in s.procs ==> PhaseOk(h, fits, s, log, pid);
        assert a.Begin? || PhaseOk(h, fits, s, log, a.pid);
      }
    }
  }

  lemma {:induction false} LinkKeeps(h: Hashes, fits: Limits, s: System, log: seq<Event>, a: Action, s': System)
    requires Keeps(h, fits, s, log) && Does(h, fits, s, a, s') && a.Link?
    requires Accepted(h, log + [s.procs[a.pid].event]) && NameOf(s.procs[a.pid].event) !in s.dir
    requires Files(log + [s.procs[a.pid].event]) == s.dir[NameOf(s.procs[a.pid].event) := s.procs[a.pid].event]
    ensures Keeps(h, fits, s', log + [s.procs[a.pid].event])
  {
    hide Accepted, Files;
    var log' := log + [s.procs[a.pid].event];
    forall pid | pid in s'.procs
      ensures PhaseOk(h, fits, s', log', pid)
    {
      assert PhaseOk(h, fits, s, log, pid) && PhaseOk(h, fits, s, log, a.pid);
      assert forall e :: e in log ==> e in log';
    }
  }

  // ----------------------------------------------------------------------- runs

  /** Any interleaving of appenders, publishers, retries, time-outs and crashes. */
  ghost predicate Run(h: Hashes, fits: Limits, states: seq<System>, actions: seq<Action>) {
    && |states| == |actions| + 1
    && Init(states[0])
    && forall i :: 0 <= i < |actions| ==> Does(h, fits, states[i], actions[i], states[i + 1])
  }

  /** One growing history explains every state of a run. */
  ghost predicate Explains(h: Hashes, fits: Limits, states: seq<System>, logs: seq<seq<Event>>) {
    && |logs| == |states|
    && (forall i :: 0 <= i < |states| ==> Keeps(h, fits, states[i], logs[i]))
    && (forall i, j :: 0 <= i <= j < |states| ==> logs[i] <= logs[j])
  }

  lemma {:induction false} ExplainsNext(h: Hashes, fits: Limits, states: seq<System>, logs: seq<seq<Event>>,
                                        s: System, log: seq<Event>)
    requires Explains(h, fits, states, logs) && states != [] && Keeps(h, fits, s, log) && logs[|logs| - 1] <= log
    ensures Explains(h, fits, states + [s], logs + [log])
  {
    hide Keeps;
    var n := |states|;
    forall i | 0 <= i < n
      ensures logs[i] <= log
    {
      assert logs[i] <= logs[n - 1];
    }
  }

  /** Under any interleaving the directory is always the directory of one accepted log, which
      only grows, one event per link. */
  lemma {:induction false} EveryRunHasOneHistory(h: Hashes, fits: Limits, states: seq<System>, actions: seq<Action>)
    returns (logs: seq<seq<Event>>)
    requires Run(h, fits, states, actions) && Injective(h.event)
    ensures Explains(h, fits, states, logs)
    ensures forall i :: 0 <= i < |actions| ==>
      logs[i + 1] == logs[i]
      || (actions[i].Link? && actions[i].pid in states[i].procs && states[i].procs[actions[i].pid].Staged?
          && logs[i + 1] == logs[i] + [states[i].procs[actions[i].pid].event])
    decreases |actions|
  {
    hide Does, Keeps, Init;
    if actions == [] {
      logs := [[]];
      assert Keeps(h, fits, states[0], []) by { EmptyKeeps(h, fits, states[0]); }
    } else {
      var n := |actions| - 1;
      var before := EveryRunHasOneHistory(h, fits, states[..n + 1], actions[..n]);
      var last := before[n];
      assert states[..n + 1][n] == states[n] && Does(h, fits, states[n], actions[n], states[n + 1]);
      var next := StepKeepsHistory(h, fits, states[n], last, actions[n], states[n + 1]);
      if actions[n].Link? {
        LinkIsStaged(h, fits, states[n], actions[n], states[n + 1]);
      }
      logs := before + [next];
      ExplainsNext(h, fits, states[..n + 1], before, states[n + 1], next);
      assert states[..n + 1] + [states[n + 1]] == states;
      hide Explains;
      assert forall i :: 0 <= i < n ==> actions[..n][i] == actions[i] && states[..n + 1][i] == states[i];
    }
  }

  lemma {:induction false} LinkIsStaged(h: Hashes, fits: Limits, s: System, a: Action, s': System)
    requires Does(h, fits, s, a, s') && a.Link?
    ensures a.pid in s.procs && s.procs[a.pid].Staged?
  {}

  lemma {:induction false} EmptyKeeps(h: Hashes, fits: Limits, s: System)
    requires Init(s)
    ensures Keeps(h, fits, s, [])
  {}

  /** The file was there, with this content, at some moment up to `i`. */
  ghost predicate Seen(states: seq<System>, i: nat, f: Entry)
    requires i < |states| && f.EventFile?
  {
    f.form.Canonical? && exists j :: 0 <= j <= i && f.name in states[j].dir && states[j].dir[f.name] == f.content
  }

  /** An unlocked reader whose listing mixes files from any moments up to `i`, in any order and
      with any gaps, either fails or returns the replay of a prefix of the history at `i`. */
  lemma {:induction false} ReadersSeePrefixes(h: Hashes, fits: Limits, states: seq<System>, logs: seq<seq<Event>>,
                                              i: nat, listing: seq<Entry>)
    requires Explains(h, fits, states, logs) && i < |states|
    requires forall f :: f in listing ==> !f.Foreign? && (f.EventFile? ==> Seen(states, i, f))
    ensures Load(h, fits.event, listing).Unloadable?
      || exists n :: 0 <= n <= |logs[i]| && Accepted(h, logs[i][..n])
                     && Load(h, fits.event, listing) == Ready(Replay(h, logs[i][..n]).state)
  {
    hide Load, Replay, Files;
    forall f | f in listing && f.EventFile?
      ensures f.name in states[i].dir && states[i].dir[f.name] == f.content
    {
      var j :| 0 <= j <= i && f.name in states[j].dir && states[j].dir[f.name] == f.content;
      FilesGrow(h, logs[j], logs[i], f.name);
    }
    GlimpseLoadsPrefix(h, fits.event, logs[i], listing);
  }

  lemma {:induction false} FilesGrow(h: Hashes, log: seq<Event>, longer: seq<Event>, n: FileName)
    requires Accepted(h, log) && Accepted(h, longer) && log <= longer && n in Files(log)
    ensures n in Files(longer) && Files(longer)[n] == Files(log)[n]
  {
    FilesOfLog(h, log);
    FilesOfLog(h, longer);
    hide Accepted, Files;
    var i :| 0 <= i < |log| && log[i] == Files(log)[n];
    assert longer[i] == log[i];
  }

  /** An event once returned, and a head once acknowledged, stays in every later complete load. */
  lemma {:induction false} AcknowledgedStays(h: Hashes, fits: Limits, states: seq<System>, logs: seq<seq<Event>>,
                                             i: nat, j: nat, pid: Pid,
                                             listing: seq<Entry>)
    requires Explains(h, fits, states, logs) && i <= j < |states| && Injective(h.event)
    requires pid in states[i].procs && states[i].procs[pid].Finished? && states[i].procs[pid].result.Returned?
    requires Complete(states[j].dir, listing)
    ensures Load(h, fits.event, listing) == Ready(Replay(h, logs[j]).state)
    ensures states[i].procs[pid].result.event in Replay(h, logs[j]).state.accepted
  {
    hide Load, Replay, Files;
    CompleteLoadsLog(h, fits.event, logs[j], listing);
    assert PhaseOk(h, fits, states[i], logs[i], pid);
    assert logs[i] <= logs[j];
  }

  /** A retry of a committed event returns that event, any other use of its id is refused, and
      either way the directory stays as it is. */
  lemma {:induction false} RetryIsIdempotent(h: Hashes, fits: Limits, s: System, log: seq<Event>, a: Action, s': System,
                                             committed: Event)
    requires a.pid in s.procs && a.pid in s'.procs && s.procs[a.pid].Locked?
    requires Keeps(h, fits, s, log) && Does(h, fits, s, a, s') && a.Work? && Injective(h.event)
    requires committed in log && s.procs[a.pid].task.Append? && s.procs[a.pid].task.request.id == committed.body.id
    ensures s'.dir == s.dir && s'.exports == s.exports && s'.lock.None?
    ensures var q := s.procs[a.pid].task.request;
      s'.procs[a.pid] == Finished(
        if q == Request(committed.body.id, committed.body.at, committed.body.actor, committed.body.kind)
        then Returned(committed) else Raised(if ValidKind(h, q.kind) then RetryDiffers else Rejected(Malformed)))
  {
    var q := s.procs[a.pid].task.request;
    hide Load, Replay, Files, Prior, ValidKind, Decide, Does, PhaseOk, ExportOk;
    assert Accepted(h, log) && s.dir == Files(log);
    AppendLooks(h, fits, s, a.pid, q, a.listing, a.tag, a.seen, s');
    WorkReads(h, fits, s, a, s');
    CompleteLoadsLog(h, fits.event, log, a.listing);
    RetryDecision(h, fits, log, q, committed);
    assert (s'.procs[a.pid].result, s'.dir) == Appended(h, fits, s.dir, q, a.listing, None);
  }

  lemma {:induction false} WorkReads(h: Hashes, fits: Limits, s: System, a: Action, s': System)
    requires Does(h, fits, s, a, s') && a.Work?
    ensures Complete(s.dir, a.listing)
  {
    hide Complete, Load, Decide;
  }

  lemma {:induction false} RetryDecision(h: Hashes, fits: Limits, log: seq<Event>, q: Request, committed: Event)
    requires Accepted(h, log) && committed in log && q.id == committed.body.id
    ensures Decide(h, fits, Replay(h, log).state, q) ==
      if q == Request(committed.body.id, committed.body.at, committed.body.actor, committed.body.kind)
      then Repeated(committed) else Refuse(if ValidKind(h, q.kind) then RetryDiffers else Rejected(Malformed))
  {
    hide Replay, Prior, ValidKind;
    UniqueIds(h, log, committed, q.id);
    CommittedValid(h, log, committed);
  }

  lemma {:induction false} CommittedValid(h: Hashes, log: seq<Event>, e: Event)
    requires Accepted(h, log) && e in log
    ensures ValidEvent(h, e) && e.hash == h.event(e.body)
  {
    hide Accepted, ValidKind;
    var i :| 0 <= i < |log| && log[i] == e;
    AcceptedSequence(h, log, i);
  }

  lemma {:induction false} UniqueIds(h: Hashes, log: seq<Event>, e: Event, id: Id)
    requires Accepted(h, log) && e in log && e.body.id == id
    ensures Prior(log, id) == Some(e)
  {
    hide Prior, Replay, ValidEvent;
    assert LogInv(h, Replay(h, log).state) by { ReplayInv(h, log); }
    var p := Prior(log, id).value;
    var i :| 0 <= i < |log| && log[i] == e;
    var j :| 0 <= j < |log| && log[j] == p;
  }

  /** With no event digest equal to the genesis constant, an existing export never conflicts:
      if a read shows what is stored, publishing fails only for size, and it never rewrites an
      export. */
  lemma {:induction false} PublishNeverConflicts(h: Hashes, fits: Limits, s: System, log: seq<Event>, a: Action,
                                                 s': System)
    requires a.pid in s.procs && a.pid in s'.procs && s.procs[a.pid].Locked?
    requires Keeps(h, fits, s, log) && Does(h, fits, s, a, s') && a.Work? && s.procs[a.pid].task.PublishExport?
    requires Injective(h.event) && forall b :: h.event(b) != GENESIS
    requires Head(log) in s'.exports ==> a.seen == Some(s'.exports[Head(log)])
    ensures s'.procs[a.pid] == Finished(if fits.whole(log) then Exported(Head(log)) else Raised(ExportTooLarge))
    ensures s'.exports == (if fits.whole(log) then s.exports[Head(log) := log] else s.exports) && s'.dir == s.dir
  {
    CompleteLoadsLog(h, fits.event, log, a.listing);
    if Head(log) in s.exports {
      var stored := s.exports[Head(log)];
      assert ExportOk(log, Head(log), stored);
      HeadsDiffer(h, log, |stored|);
      assert stored == log[..|stored|];
      assert stored == log;
    }
    hide Load, Replay, Keeps, Files;
  }

  /** Different prefixes of one history have different heads. */
  lemma {:induction false} HeadsDiffer(h: Hashes, log: seq<Event>, n: nat)
    requires Accepted(h, log) && n <= |log| && Injective(h.event) && forall b :: h.event(b) != GENESIS
    ensures Head(log[..n]) == Head(log) ==> n == |log|
  {
    hide Accepted, ValidKind;
    if 0 < |log| {
      AcceptedSequence(h, log, |log| - 1);
      if 0 < n {
        AcceptedSequence(h, log, n - 1);
      }
    }
  }
}
