/** What a caller gets from the store: the event that was asked for, once, or the reason why not. */
module StoreRequests {
  import opened Basics
  import opened RegistryModel
  import opened RegistryPayload
  import opened Registry
  import opened RegistryRules
  import opened Store
  import opened StoreProtocol

  /** The event carries exactly what the request said. */
  predicate Requested(q: Request, e: Event) {
    e.body.id == q.id && e.body.at == q.at && e.body.actor == q.actor && e.body.kind == q.kind
  }

  /** The event is the next one on top of these. */
  predicate Next(h: Hashes, accepted: seq<Event>, e: Event) {
    e.body.sequence == |accepted| + 1 && e.body.previous == Head(accepted) && e.hash == h.event(e.body)
  }

  /** Under an unused id the store writes exactly the requested event on top of its log, when the log
      so extended replays and the event fits; otherwise it reports which of the two failed. */
  lemma {:induction false} UnusedIdWrites(h: Hashes, fits: Limits, st: State, q: Request, e: Event)
    requires (forall x :: x in st.accepted ==> x.body.id != q.id) && Requested(q, e) && Next(h, st.accepted, e)
    ensures Decide(h, fits, st, q) == match Replay(h, st.accepted + [e])
      case Loaded(_) => if fits.event(e) then Write(e) else Refuse(EventTooLarge)
      case Refused(reason) => Refuse(Rejected(reason))
      case Crashed => Refuse(Broken)
  {
    hide Replay, Prior;
    assert Prior(st.accepted, q.id).None?;
    OneRequestedNext(h, st.accepted, q, e);
  }

  lemma {:induction false} OneRequestedNext(h: Hashes, accepted: seq<Event>, q: Request, e: Event)
    requires Requested(q, e) && Next(h, accepted, e)
    ensures Build(h, q, |accepted| + 1, Head(accepted)) == e
  {}

  /** Whatever is written or found again is what was asked for. */
  lemma {:induction false} DecidesTheRequest(h: Hashes, fits: Limits, st: State, q: Request)
    ensures match Decide(h, fits, st, q)
      case Write(e) => Requested(q, e) && Next(h, st.accepted, e) && forall x :: x in st.accepted ==> x.body.id != q.id
      case Repeated(p) => Requested(q, p) && p in st.accepted
      case Refuse(_) => true
  {
    hide Replay, Prior, ValidEvent;
  }

  /** An append that returns an event returns the requested one, which is then on disk or was before. */
  lemma {:induction false} ReturnedIsRequested(h: Hashes, fits: Limits, files: Directory, q: Request,
                                               listing: seq<Entry>, seen: Option<Event>)
    ensures var (r, after) := Appended(h, fits, files, q, listing, seen);
      && (r.Returned? ==> Requested(q, r.event))
      && (after == files || exists e :: Requested(q, e) && NameOf(e) !in files && after == files[NameOf(e) := e])
  {
    hide Load, Decide;
    var loading := Load(h, fits.event, listing);
    if loading.Ready? {
      DecidesTheRequest(h, fits, loading.state, q);
    }
  }

  lemma {:induction false} WrittenLog(h: Hashes, fits: Limits, log: seq<Event>, q: Request, e: Event)
    requires Accepted(h, log) && Decide(h, fits, Replay(h, log).state, q) == Write(e)
    ensures Accepted(h, log + [e]) && fits.event(e)
    ensures Files(log + [e]) == Files(log)[NameOf(e) := e] && NameOf(e) !in Files(log)
  {
    hide Accepted, Replay, Files, Decide;
    DecisionSound(h, fits, log, q);
    FilesExtend(h, log, e);
  }

  /** Under a used id an append changes nothing and returns the committed event exactly when that is
      the requested one. */
  lemma {:induction false} UsedIdOnTheLog(h: Hashes, fits: Limits, log: seq<Event>, q: Request, x: Event,
                                          listing: seq<Entry>, seen: Option<Event>)
    requires Accepted(h, log) && (forall y :: y in log ==> fits.event(y)) && Injective(h.event)
    requires Complete(Files(log), listing) && x in log && x.body.id == q.id
    ensures Appended(h, fits, Files(log), q, listing, seen) ==
      (if Requested(q, x) then Returned(x)
       else Raised(if SoundPayload(h, q.kind) then RetryDiffers else Rejected(Malformed)), Files(log))
  {
    hide Load, Decide, Replay, Files, Complete, Injective, ValidKind, SoundPayload;
    CompleteLoadsLog(h, fits.event, log, listing);
    RetryDecision(h, fits, log, q, x);
    PayloadMeans(h, q.kind);
  }

  /** Under a new id an append commits the requested event exactly when the rules allow it and it fits,
      returns it exactly when the read-back shows it, and otherwise reports the first broken rule. */
  lemma {:induction false} NewIdOnTheLog(h: Hashes, fits: Limits, log: seq<Event>, q: Request, e: Event,
                                         listing: seq<Entry>, seen: Option<Event>)
    requires Accepted(h, log) && (forall x :: x in log ==> fits.event(x) && x.body.id != q.id) && Injective(h.event)
    requires Complete(Files(log), listing) && Requested(q, e) && Next(h, log, e)
    ensures Rules(h, Replay(h, log).state, e) != Crash
    ensures Appended(h, fits, Files(log), q, listing, seen) ==
      match Rules(h, Replay(h, log).state, e)
      case Accept =>
        if fits.event(e) then (if seen == Some(e) then Returned(e) else Raised(ReadBackDiffers), Files(log + [e]))
        else (Raised(EventTooLarge), Files(log))
      case Reject(reason) => (Raised(Rejected(reason)), Files(log))
      case Crash => (Raised(Broken), Files(log))
  {
    hide Load, Decide, Replay, Files, Complete, Injective, Rules, Effect;
    var st := Replay(h, log).state;
    CompleteLoadsLog(h, fits.event, log, listing);
    ReplayFollowsTheRules(h, log, st, e);
    UnusedIdWrites(h, fits, st, q, e);
    if Decide(h, fits, st, q).Write? {
      WrittenLog(h, fits, log, q, e);
    }
  }

  /** Sending one request twice returns one event and writes one file. */
  lemma {:induction false} TwiceIsOnce(h: Hashes, fits: Limits, log: seq<Event>, q: Request, listing: seq<Entry>,
                                       e: Event, files: Directory, again: seq<Entry>, seen: Option<Event>)
    requires Accepted(h, log) && (forall x :: x in log ==> fits.event(x)) && Injective(h.event)
    requires Complete(Files(log), listing) && Complete(files, again)
    requires Appended(h, fits, Files(log), q, listing, Some(e)) == (Returned(e), files)
    ensures Appended(h, fits, files, q, again, seen) == (Returned(e), files)
  {
    hide Load, Decide, Replay, Files, Complete, Injective;
    CompleteLoadsLog(h, fits.event, log, listing);
    DecidesTheRequest(h, fits, Replay(h, log).state, q);
    var d := Decide(h, fits, Replay(h, log).state, q);
    var longer := if d.Write? then log + [e] else log;
    if d.Write? {
      WrittenLog(h, fits, log, q, e);
    }
    assert files == Files(longer) && e in longer && Accepted(h, longer);
    CompleteLoadsLog(h, fits.event, longer, again);
    RetryDecision(h, fits, longer, q, e);
  }

  /** A publication adds at most the export of the current head, with the whole log in it, and leaves
      every other export as it was. */
  lemma {:induction false} PublicationAdds(fits: Limits, exports: map<Hash, seq<Event>>, st: State,
                                           seen: Option<seq<Event>>)
    ensures var (r, after) := Published(fits, exports, Ready(st), seen);
      && (forall x :: x in exports ==> x in after && after[x] == exports[x])
      && (forall x :: x in after && x !in exports ==> x == Head(st.accepted) && after[x] == st.accepted)
      && (r.Exported? <==> fits.whole(st.accepted) && seen == Some(st.accepted))
      && (r.Exported? ==> r.head == Head(st.accepted) && r.head in after)
      && (!fits.whole(st.accepted) <==> r == Raised(ExportTooLarge))
      && (r == Raised(ExportConflicts) <==>
            fits.whole(st.accepted) && seen != Some(st.accepted) && Head(st.accepted) in exports)
  {
    hide Head;
  }
}
