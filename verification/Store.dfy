/** The immutable file store behind the registry: one file per event, named by sequence and
    digest, loaded without trusting directory order and appended under a writer lock. */
module Store {
  import opened Basics
  import opened RegistryModel
  import opened Registry
  import opened RegistryInvariant
  import opened RegistryTheorems
  import opened Replayer
  import opened Sorting

  datatype FileName = FileName(sequence: int, hash: Hash)

  /** A directory entry: an event file with its bytes, a leftover temporary, anything else. */
  datatype Entry = EventFile(name: FileName, content: Event, form: Form) | Temporary(tag: int) | Foreign

  /** The bytes of a file: the canonical form of the event they hold, a canonical document that the
      event would not write itself, or no canonical document; of the latter only the size matters. */
  datatype Form =
    | Canonical | Unnormalized(fits: bool) | NotCanonical(fits: bool) | NotObject(fits: bool) | NotJson(fits: bool)

  datatype LoadError =
    | UnexpectedEntry | DuplicateSequence | DuplicateHash
    | TooLarge | BadJson | BadObject | BadBytes | NotAnEvent | NameMismatch | BadNormalForm
    | Refusal(reason: Reason) | Failure

  datatype Loading = Ready(state: State) | Unloadable(error: LoadError)

  function NameOf(e: Event): FileName { FileName(e.body.sequence, e.hash) }
  function FileOf(e: Event): Entry { EventFile(NameOf(e), e, Canonical) }
  function FileKey(f: Entry): Key { if f.EventFile? then (f.name.sequence, f.name.hash) else (0, 0) }

  /** The event files of a listing, in listing order. */
  function EventFiles(listing: seq<Entry>): (files: seq<Entry>)
    ensures forall f :: f in files <==> f in listing && f.EventFile?
  {
    if listing == [] then []
    else
      var init, last := EventFiles(listing[..|listing| - 1]), listing[|listing| - 1];
      if last.EventFile? then init + [last] else init
  }

  predicate NoClash(files: seq<Entry>)
    requires forall f :: f in files ==> f.EventFile?
  {
    forall i, j :: 0 <= i < j < |files| ==>
      files[i].name.sequence != files[j].name.sequence && files[i].name.hash != files[j].name.hash
  }

  function Contents(files: seq<Entry>): (events: seq<Event>)
    requires forall f :: f in files ==> f.EventFile?
    ensures |events| == |files| && forall i :: 0 <= i < |files| ==> events[i] == files[i].content
  {
    seq(|files|, i requires 0 <= i < |files| => assert files[i] in files; files[i].content)
  }

  lemma {:induction false} SortedFiles(files: seq<Entry>)
    requires forall f :: f in files ==> f.EventFile?
    ensures forall f :: f in Sort(files, FileKey) ==> f in files && f.EventFile?
    ensures |Sort(files, FileKey)| == |files|
  {
    SortPermutes(files, FileKey);
    forall f { SameElements(files, Sort(files, FileKey), f); }
    assert |files| == |multiset(files)| && |Sort(files, FileKey)| == |multiset(Sort(files, FileKey))|;
  }

  datatype Indexing = Index(files: seq<Entry>) | IndexError(error: LoadError)

  /** The directory scan of `_load_unlocked`: the first thing wrong in listing order, or the event
      files in that order. */
  function Indexed(listing: seq<Entry>): (r: Indexing)
    ensures r.Index? ==> forall f :: f in r.files ==> f.EventFile?
  {
    if listing == [] then Index([])
    else
      var before, last := Indexed(listing[..|listing| - 1]), listing[|listing| - 1];
      if before.IndexError? then before
      else if last.Temporary? then before
      else if last.Foreign? then IndexError(UnexpectedEntry)
      else if exists f :: f in before.files && f.name.sequence == last.name.sequence then IndexError(DuplicateSequence)
      else if exists f :: f in before.files && f.name.hash == last.name.hash then IndexError(DuplicateHash)
      else Index(before.files + [last])
  }

  /** `_read_bounded`. */
  predicate Bounded(fits: Event -> bool, f: Entry)
    requires f.EventFile?
  {
    if f.form.Canonical? then fits(f.content) else f.form.fits
  }

  /** What is wrong with one event file, in the order the source looks. */
  function ReadError(h: Hashes, fits: Event -> bool, f: Entry): Option<LoadError>
    requires f.EventFile?
  {
    if !Bounded(fits, f) then Some(TooLarge)
    else if f.form.NotJson? then Some(BadJson)
    else if f.form.NotObject? then Some(BadObject)
    else if f.form.NotCanonical? then Some(BadBytes)
    else if !ValidEvent(h, f.content) then Some(NotAnEvent)
    else if f.name != NameOf(f.content) then Some(NameMismatch)
    else if f.form.Unnormalized? then Some(BadNormalForm)
    else None
  }

  /** The first file, in sequence order, with something wrong. */
  function FirstReadError(h: Hashes, fits: Event -> bool, sorted: seq<Entry>): Option<LoadError>
    requires forall f :: f in sorted ==> f.EventFile?
  {
    if sorted == [] then None
    else
      var before := FirstReadError(h, fits, sorted[..|sorted| - 1]);
      if before.Some? then before else ReadError(h, fits, sorted[|sorted| - 1])
  }

  /** `_load_unlocked`, from a directory listing to a replay. */
  function Load(h: Hashes, fits: Event -> bool, listing: seq<Entry>): Loading {
    match Indexed(listing)
    case IndexError(error) => Unloadable(error)
    case Index(files) =>
      SortedFiles(files);
      var sorted := Sort(files, FileKey);
      match FirstReadError(h, fits, sorted)
      case Some(error) => Unloadable(error)
      case None =>
        match Replay(h, Contents(sorted))
        case Loaded(st) => Ready(st)
        case Refused(reason) => Unloadable(Refusal(reason))
        case Crashed => Unloadable(Failure)
  }

  /** First loop of `_load_unlocked`: index the listing, with the sets of sequences and digests
      seen so far. */
  method IndexFiles(listing: seq<Entry>) returns (r: Indexing)
    ensures r == Indexed(listing)
  {
    assert Indexed(listing[..0]) == Index([]);
    hide Indexed;
    var indexed: seq<Entry> := [];
    var sequences: set<int>, hashes: set<Hash> := {}, {};
    for i := 0 to |listing|
      invariant Indexed(listing[..i]) == Index(indexed)
      invariant sequences == set f | f in indexed :: f.name.sequence
      invariant hashes == set f | f in indexed :: f.name.hash
    {
      IndexedNext(listing, i);
      var f := listing[i];
      if f.Foreign? {
        StaysWrong(listing, i + 1);
        return IndexError(UnexpectedEntry);
      }
      if f.EventFile? {
        if f.name.sequence in sequences {
          StaysWrong(listing, i + 1);
          return IndexError(DuplicateSequence);
        }
        if f.name.hash in hashes {
          StaysWrong(listing, i + 1);
          return IndexError(DuplicateHash);
        }
        indexed := indexed + [f];
        sequences, hashes := sequences + {f.name.sequence}, hashes + {f.name.hash};
      }
    }
    assert listing[..|listing|] == listing;
    return Index(indexed);
  }

  lemma {:induction false} IndexedNext(listing: seq<Entry>, i: nat)
    requires i < |listing| && Indexed(listing[..i]).Index?
    ensures var files, last := Indexed(listing[..i]).files, listing[i];
      Indexed(listing[..i + 1]) ==
        if last.Temporary? then Index(files)
        else if last.Foreign? then IndexError(UnexpectedEntry)
        else if exists f :: f in files && f.name.sequence == last.name.sequence then IndexError(DuplicateSequence)
        else if exists f :: f in files && f.name.hash == last.name.hash then IndexError(DuplicateHash)
        else Index(files + [last])
  {
    assert listing[..i + 1][..i] == listing[..i];
  }

  lemma {:induction false} StaysWrong(listing: seq<Entry>, i: nat)
    requires i <= |listing| && Indexed(listing[..i]).IndexError?
    ensures Indexed(listing) == Indexed(listing[..i])
    decreases |listing| - i
  {
    if i == |listing| {
      assert listing[..i] == listing;
    } else {
      assert listing[..i + 1][..i] == listing[..i];
      StaysWrong(listing, i + 1);
    }
  }

  /** The scan succeeds exactly when nothing foreign is listed and no two files clash. */
  lemma {:induction false} IndexedWhen(listing: seq<Entry>)
    ensures Indexed(listing).Index? <==> Foreign !in listing && NoClash(EventFiles(listing))
    ensures Indexed(listing).Index? ==> Indexed(listing).files == EventFiles(listing)
    decreases |listing|
  {
    if listing == [] {
    } else {
      hide Indexed, EventFiles, NoClash;
      var n := |listing| - 1;
      IndexedWhen(listing[..n]);
      IndexedLast(listing, n);
    }
  }

  lemma {:induction false} IndexedLast(listing: seq<Entry>, n: nat)
    requires |listing| == n + 1
    requires Indexed(listing[..n]).Index? <==> Foreign !in listing[..n] && NoClash(EventFiles(listing[..n]))
    requires Indexed(listing[..n]).Index? ==> Indexed(listing[..n]).files == EventFiles(listing[..n])
    ensures Indexed(listing).Index? <==> Foreign !in listing && NoClash(EventFiles(listing))
    ensures Indexed(listing).Index? ==> Indexed(listing).files == EventFiles(listing)
  {
    hide Indexed, EventFiles, NoClash;
    var files, last := EventFiles(listing[..n]), listing[n];
    assert listing[..n + 1] == listing;
    NextFile(listing, n);
    if Indexed(listing[..n]).Index? {
      IndexedNext(listing, n);
      if last.EventFile? {
        ClashExtends(files, last, set f | f in files :: f.name.sequence, set f | f in files :: f.name.hash);
      }
    } else {
      StaysWrong(listing, n);
      if !NoClash(files) {
        ClashStays(listing, n);
      }
    }
  }

  lemma {:induction false} ClashExtends(files: seq<Entry>, f: Entry, sequences: set<int>, hashes: set<Hash>)
    requires f.EventFile? && (forall g :: g in files ==> g.EventFile?) && NoClash(files)
    requires sequences == (set g | g in files :: g.name.sequence) && hashes == (set g | g in files :: g.name.hash)
    ensures NoClash(files + [f]) <==> f.name.sequence !in sequences && f.name.hash !in hashes
    ensures (set g | g in files + [f] :: g.name.sequence) == sequences + {f.name.sequence}
    ensures (set g | g in files + [f] :: g.name.hash) == hashes + {f.name.hash}
  {
    var all := files + [f];
    assert all[|files|] == f && forall k :: 0 <= k < |files| ==> all[k] == files[k] && files[k] in files;
    if f.name.sequence in sequences || f.name.hash in hashes {
      var g :| g in files && (g.name.sequence == f.name.sequence || g.name.hash == f.name.hash);
      var k :| 0 <= k < |files| && files[k] == g;
      assert all[k] == g;
    }
  }

  predicate Faithful(h: Hashes, fits: Event -> bool, f: Entry) {
    f.EventFile? && f.form.Canonical? && fits(f.content) && f.name == NameOf(f.content) && ValidEvent(h, f.content)
  }

  lemma {:induction false} NoReadError(h: Hashes, fits: Event -> bool, sorted: seq<Entry>)
    requires forall f :: f in sorted ==> f.EventFile?
    ensures FirstReadError(h, fits, sorted).None? <==> forall f :: f in sorted ==> Faithful(h, fits, f)
    decreases |sorted|
  {
    hide ValidEvent;
    if sorted == [] {
    } else {
      var n := |sorted| - 1;
      var before, last := sorted[..n], sorted[n];
      NoReadError(h, fits, before);
      assert forall f :: f in sorted <==> f in before || f == last;
      assert ReadError(h, fits, last).None? <==> Faithful(h, fits, last);
    }
  }

  /** Second loop: read and validate each file in sequence order. */
  method ReadFiles(h: Hashes, fits: Event -> bool, sorted: seq<Entry>) returns (error: Option<LoadError>,
                   events: seq<Event>)
    requires forall f :: f in sorted ==> f.EventFile?
    ensures error == FirstReadError(h, fits, sorted)
    ensures error.None? ==> events == Contents(sorted)
  {
    hide ValidEvent, FirstReadError;
    events := [];
    NothingRead(h, fits, sorted);
    for i := 0 to |sorted|
      invariant events == Contents(sorted)[..i]
      invariant FirstReadError(h, fits, sorted[..i]).None?
    {
      ReadNext(h, fits, sorted, i);
      var f := sorted[i];
      assert f in sorted;
      var valid := ValidateEvent(h, f.content);
      error := if !Bounded(fits, f) then Some(TooLarge)
               else if f.form.NotJson? then Some(BadJson)
               else if f.form.NotObject? then Some(BadObject)
               else if f.form.NotCanonical? then Some(BadBytes)
               else if !valid then Some(NotAnEvent)
               else if f.name != NameOf(f.content) then Some(NameMismatch)
               else if f.form.Unnormalized? then Some(BadNormalForm)
               else None;
      if error.Some? {
        ReadStaysWrong(h, fits, sorted, i + 1);
        return error, [];
      }
      events := events + [f.content];
    }
    assert sorted[..|sorted|] == sorted;
    return None, events;
  }

  lemma {:induction false} NothingRead(h: Hashes, fits: Event -> bool, sorted: seq<Entry>)
    requires forall f :: f in sorted ==> f.EventFile?
    ensures FirstReadError(h, fits, sorted[..0]).None?
  {}

  lemma {:induction false} ReadNext(h: Hashes, fits: Event -> bool, sorted: seq<Entry>, i: nat)
    requires i < |sorted| && forall f :: f in sorted ==> f.EventFile?
    ensures var before := FirstReadError(h, fits, sorted[..i]);
      FirstReadError(h, fits, sorted[..i + 1]) == if before.Some? then before else ReadError(h, fits, sorted[i])
  {
    hide ReadError;
    assert sorted[..i + 1][..i] == sorted[..i];
  }

  lemma {:induction false} ReadStaysWrong(h: Hashes, fits: Event -> bool, sorted: seq<Entry>, i: nat)
    requires i <= |sorted| && forall f :: f in sorted ==> f.EventFile?
    requires FirstReadError(h, fits, sorted[..i]).Some?
    ensures FirstReadError(h, fits, sorted) == FirstReadError(h, fits, sorted[..i])
    decreases |sorted| - i
  {
    hide FirstReadError, ReadError;
    if i == |sorted| {
      assert sorted[..i] == sorted;
    } else {
      ReadNext(h, fits, sorted, i);
      ReadStaysWrong(h, fits, sorted, i + 1);
    }
  }

  /** The error reported is that of the first file, in sequence order, with anything wrong. */
  lemma {:induction false} FirstErrorIsFirst(h: Hashes, fits: Event -> bool, sorted: seq<Entry>, i: nat)
    requires i < |sorted| && forall f :: f in sorted ==> f.EventFile?
    requires ReadError(h, fits, sorted[i]).Some?
    requires forall j :: 0 <= j < i ==> ReadError(h, fits, sorted[j]).None?
    ensures FirstReadError(h, fits, sorted) == ReadError(h, fits, sorted[i])
  {
    hide ReadError, FirstReadError;
    NoneBefore(h, fits, sorted, i);
    ReadNext(h, fits, sorted, i);
    ReadStaysWrong(h, fits, sorted, i + 1);
  }

  lemma {:induction false} NoneBefore(h: Hashes, fits: Event -> bool, sorted: seq<Entry>, i: nat)
    requires i <= |sorted| && forall f :: f in sorted ==> f.EventFile?
    requires forall j :: 0 <= j < i ==> ReadError(h, fits, sorted[j]).None?
    ensures FirstReadError(h, fits, sorted[..i]).None?
  {
    hide ReadError, FirstReadError;
    if i == 0 {
      NothingRead(h, fits, sorted);
    } else {
      NoneBefore(h, fits, sorted, i - 1);
      ReadNext(h, fits, sorted, i - 1);
    }
  }

  /** What each error says of its file: all that is looked at earlier is in order. */
  lemma {:induction false} ReadErrorMeans(h: Hashes, fits: Event -> bool, f: Entry)
    requires f.EventFile?
    ensures var e := ReadError(h, fits, f); var form, small := f.form, Bounded(fits, f);
      var document := small && (form.Canonical? || form.Unnormalized?);
      && (e == Some(TooLarge) <==> !small)
      && (e == Some(BadJson) <==> small && form.NotJson?)
      && (e == Some(BadObject) <==> small && form.NotObject?)
      && (e == Some(BadBytes) <==> small && form.NotCanonical?)
      && (e == Some(NotAnEvent) <==> document && !ValidEvent(h, f.content))
      && (e == Some(NameMismatch) <==> document && ValidEvent(h, f.content) && f.name != NameOf(f.content))
      && (e == Some(BadNormalForm) <==>
            small && form.Unnormalized? && ValidEvent(h, f.content) && f.name == NameOf(f.content))
      && (e == None <==> Faithful(h, fits, f))
  {
    hide ValidEvent;
  }

  /** The scan reports the first entry, in listing order, that is foreign or clashes with one before
      it. */
  lemma {:induction false} ScanErrorIsFirst(listing: seq<Entry>, i: nat)
    requires i < |listing| && Indexed(listing[..i]).Index?
    ensures var before, f := EventFiles(listing[..i]), listing[i];
      var numbered := f.EventFile? && exists g :: g in before && g.name.sequence == f.name.sequence;
      var hashed := f.EventFile? && exists g :: g in before && g.name.hash == f.name.hash;
      && (f.Foreign? ==> Indexed(listing) == IndexError(UnexpectedEntry))
      && (numbered ==> Indexed(listing) == IndexError(DuplicateSequence))
      && (hashed && !numbered ==> Indexed(listing) == IndexError(DuplicateHash))
  {
    hide Indexed, EventFiles, NoClash;
    IndexedWhen(listing[..i]);
    IndexedNext(listing, i);
    if Indexed(listing[..i + 1]).IndexError? {
      StaysWrong(listing, i + 1);
    }
  }

  method LoadUnlocked(h: Hashes, fits: Event -> bool, listing: seq<Entry>) returns (r: Loading)
    ensures r == Load(h, fits, listing)
  {
    hide Replay, Indexed, Sort, ValidEvent, Contents, FirstReadError;
    var indexing := IndexFiles(listing);
    if indexing.IndexError? {
      return Unloadable(indexing.error);
    }
    SortedFiles(indexing.files);
    var error, events := ReadFiles(h, fits, Sort(indexing.files, FileKey));
    if error.Some? {
      return Unloadable(error.value);
    }
    var replayed := ReplayRegistry(h, events);
    match replayed {
      case Loaded(st) => return Ready(st);
      case Refused(reason) => return Unloadable(Refusal(reason));
      case Crashed => return Unloadable(Failure);
    }
  }

  /** A listing loads exactly when nothing foreign is in it, no two files clash, every file holds
      the event it is named after, and those events replay in sequence order. */
  lemma {:induction false} LoadsWhen(h: Hashes, fits: Event -> bool, listing: seq<Entry>)
    ensures var files := EventFiles(listing);
      (forall f :: f in Sort(files, FileKey) ==> f in files && f.EventFile?)
      && (Load(h, fits, listing).Ready? <==>
            && Foreign !in listing && NoClash(files)
            && (forall f :: f in files ==> Faithful(h, fits, f))
            && Replay(h, Contents(Sort(files, FileKey))).Loaded?)
      && (Load(h, fits, listing).Ready? ==>
        Load(h, fits, listing).state == Replay(h, Contents(Sort(files, FileKey))).state)
  {
    hide Replay, Indexed, Sort, Faithful, FirstReadError, EventFiles, NoClash, Contents;
    var files := EventFiles(listing);
    IndexedWhen(listing);
    SortedFiles(files);
    SortPermutes(files, FileKey);
    forall f { SameElements(files, Sort(files, FileKey), f); }
    NoReadError(h, fits, Sort(files, FileKey));
  }

  lemma {:induction false} NextFile(listing: seq<Entry>, i: nat)
    requires i < |listing|
    ensures EventFiles(listing[..i + 1]) ==
      if listing[i].EventFile? then EventFiles(listing[..i]) + [listing[i]] else EventFiles(listing[..i])
    ensures Foreign in listing[..i + 1] <==> Foreign in listing[..i] || listing[i] == Foreign
  {
    assert listing[..i + 1][..i] == listing[..i];
    assert listing[..i + 1] == listing[..i] + [listing[i]];
  }

  lemma {:induction false} ClashStays(listing: seq<Entry>, i: nat)
    requires i <= |listing| && !NoClash(EventFiles(listing[..i]))
    ensures !NoClash(EventFiles(listing))
    decreases |listing| - i
  {
    if i < |listing| {
      NextFile(listing, i);
      hide EventFiles;
      var files := EventFiles(listing[..i]);
      assert files <= EventFiles(listing[..i + 1]);
      assert forall k :: 0 <= k < |files| ==> files[k] == EventFiles(listing[..i + 1])[k];
      ClashStays(listing, i + 1);
    } else {
      assert listing[..i] == listing;
    }
  }

  // ------------------------------------------------------ directory and log

  type Directory = map<FileName, Event>

  /** The directory that holds exactly the events of a log. */
  function Files(log: seq<Event>): Directory {
    if log == [] then map[] else Files(log[..|log| - 1])[NameOf(log[|log| - 1]) := log[|log| - 1]]
  }

  /** The log is what its own replay accepts: contiguous, chained, without repeats. */
  ghost predicate Accepted(h: Hashes, log: seq<Event>) {
    Replay(h, log).Loaded? && Replay(h, log).state.accepted == log
  }

  /** A reader may see any part of the directory, in any order, with leftovers in between. */
  ghost predicate Glimpse(dir: Directory, listing: seq<Entry>) {
    forall f :: f in listing ==>
      !f.Foreign? && (f.EventFile? ==> f.form.Canonical? && f.name in dir && dir[f.name] == f.content)
  }

  /** A listing taken while nobody writes shows every file once. */
  ghost predicate Complete(dir: Directory, listing: seq<Entry>) {
    && Glimpse(dir, listing)
    && (forall n :: n in dir ==> EventFile(n, dir[n], Canonical) in listing)
    && Distinct(listing)
  }

  lemma {:induction false} AcceptedSequence(h: Hashes, log: seq<Event>, i: nat)
    requires Accepted(h, log) && i < |log|
    ensures log[i].body.sequence == i + 1 && ValidEvent(h, log[i])
  {
    hide Replay, ValidEvent;
    assert LogInv(h, Replay(h, log).state) by { ReplayInv(h, log); }
  }

  lemma {:induction false} AcceptedPrefix(h: Hashes, log: seq<Event>, n: nat)
    requires Accepted(h, log) && n <= |log|
    ensures Accepted(h, log[..n])
    decreases |log| - n
  {
    if n == |log| {
      assert log[..n] == log;
    } else {
      AcceptedPrefix(h, log, n + 1);
      var longer, e := log[..n + 1], log[n];
      assert longer == log[..n] + [e] && longer[..n] == log[..n];
      ReplayConcat(h, EMPTY, log[..n], [e]);
      var st := Replay(h, log[..n]).state;
      assert ReplayFrom(h, st, [e]) == Step(h, st, e);
      assert Effect(h, st, e).accepted == longer;
      assert st.accepted == log[..n] by {
        assert |Replay(h, log[..n]).state.accepted| <= n by { AcceptedLength(h, log[..n]); }
        hide Judge, KindEffect;
      }
    }
  }

  lemma {:induction false} AcceptedLength(h: Hashes, log: seq<Event>)
    ensures Replay(h, log).Loaded? ==> |Replay(h, log).state.accepted| <= |log|
    decreases |log|
  {
    hide Judge, KindEffect;
    if log == [] {
    } else {
      var init, e := log[..|log| - 1], log[|log| - 1];
      assert log == init + [e];
      ReplayConcat(h, EMPTY, init, [e]);
      AcceptedLength(h, init);
      if Replay(h, init).Loaded? {
        assert ReplayFrom(h, Replay(h, init).state, [e]) == Step(h, Replay(h, init).state, e);
      }
    }
  }

  /** A replayable log without duplicates is accepted as it stands. */
  lemma {:induction false} DistinctIsAccepted(h: Hashes, log: seq<Event>)
    requires Replay(h, log).Loaded? && Distinct(log)
    ensures Accepted(h, log)
    decreases |log|
  {
    hide Judge, KindEffect;
    if log == [] {
    } else {
      var init, e := log[..|log| - 1], log[|log| - 1];
      assert log == init + [e];
      ReplayConcat(h, EMPTY, init, [e]);
      DistinctIsAccepted(h, init);
      var st := Replay(h, init).state;
      assert ReplayFrom(h, st, [e]) == Step(h, st, e);
      assert LogInv(h, st) by { ReplayInv(h, init); }
      assert e !in init;
      assert !Repeat(st, e);
    }
  }

  lemma {:induction false} FilesOfLog(h: Hashes, log: seq<Event>)
    requires Accepted(h, log)
    ensures forall i :: 0 <= i < |log| ==> NameOf(log[i]) in Files(log) && Files(log)[NameOf(log[i])] == log[i]
    ensures forall n :: n in Files(log) ==> Files(log)[n] in log && NameOf(Files(log)[n]) == n
    decreases |log|
  {
    hide Replay, ValidEvent;
    if log == [] {
    } else {
      var m := |log| - 1;
      AcceptedPrefix(h, log, m);
      FilesOfLog(h, log[..m]);
      forall i | 0 <= i < |log| { AcceptedSequence(h, log, i); }
    }
  }

  /** An unlocked reader that sees any part of the committed files in any order either fails or
      returns the replay of a prefix of the log. */
  lemma {:induction false} GlimpseLoadsPrefix(h: Hashes, fits: Event -> bool, log: seq<Event>, listing: seq<Entry>)
    requires Accepted(h, log) && Glimpse(Files(log), listing)
    ensures Load(h, fits, listing).Unloadable?
      || exists n :: 0 <= n <= |log| && Accepted(h, log[..n])
                     && Load(h, fits, listing) == Ready(Replay(h, log[..n]).state)
  {
    hide Replay, Sort, EventFiles, Load, Accepted, Files, NoClash;
    LoadsWhen(h, fits, listing);
    if Load(h, fits, listing).Ready? {
      var files := EventFiles(listing);
      var events := Contents(Sort(files, FileKey));
      FilesOfLog(h, log);
      SortedDistinct(files);
      DistinctIsAccepted(h, events);
      AcceptedBound(h, log, events);
      assert events == log[..|events|];
    }
  }

  lemma {:induction false} SortedDistinct(files: seq<Entry>)
    requires (forall f :: f in files ==> f.EventFile? && f.form.Canonical? && f.name == NameOf(f.content))
    requires NoClash(files)
    ensures forall f :: f in Sort(files, FileKey) ==> f.EventFile?
    ensures Distinct(Contents(Sort(files, FileKey)))
  {
    SortedFiles(files);
    SortPermutes(files, FileKey);
    var sorted := Sort(files, FileKey);
    hide Sort;
    assert Distinct(files) by {
      assert forall i :: 0 <= i < |files| ==> files[i] in files;
    }
    DistinctPermutes(files, sorted);
    forall i, j | 0 <= i < j < |sorted|
      ensures Contents(sorted)[i] != Contents(sorted)[j]
    {
      assert sorted[i] in sorted && sorted[j] in sorted;
      assert sorted[i] == FileOf(sorted[i].content) && sorted[j] == FileOf(sorted[j].content);
    }
  }

  /** Contiguous events drawn from an accepted log are its first events. */
  lemma {:induction false} AcceptedBound(h: Hashes, log: seq<Event>, events: seq<Event>)
    requires Accepted(h, log) && Accepted(h, events) && forall i :: 0 <= i < |events| ==> events[i] in log
    ensures |events| <= |log| && forall i :: 0 <= i < |events| ==> events[i] == log[i]
  {
    hide Accepted, ValidEvent;
    forall i | 0 <= i < |log| { AcceptedSequence(h, log, i); }
    forall i {:trigger events[i]} | 0 <= i < |events|
      ensures i < |log| && events[i] == log[i]
    {
      AcceptedSequence(h, events, i);
      var j :| 0 <= j < |log| && log[j] == events[i];
    }
    assert |events| > 0 ==> events[|events| - 1] in log;
  }

  /** A complete listing loads exactly the log. */
  lemma {:induction false} CompleteLoadsLog(h: Hashes, fits: Event -> bool, log: seq<Event>, listing: seq<Entry>)
    requires Accepted(h, log) && Complete(Files(log), listing) && Injective(h.event)
    requires forall e :: e in log ==> fits(e)
    ensures Load(h, fits, listing) == Ready(Replay(h, log).state)
  {
    hide Replay, EventFiles, Sort, ValidEvent, Load, NoClash, Files;
    var files := EventFiles(listing);
    var target := seq(|log|, i requires 0 <= i < |log| => FileOf(log[i]));
    SortedToTarget(h, log, target, listing);
    SameFiles(h, log, target, listing);
    LoadsWhen(h, fits, listing);
    assert Contents(target) == log;
    forall f | f in files
      ensures Faithful(h, fits, f)
    {
      var i :| 0 <= i < |log| && log[i] == f.content;
      AcceptedSequence(h, log, i);
    }
  }

  lemma {:induction false} FilesDistinct(listing: seq<Entry>)
    requires Distinct(listing)
    ensures Distinct(EventFiles(listing))
    decreases |listing|
  {
    if listing == [] {
    } else {
      FilesDistinct(listing[..|listing| - 1]);
    }
  }

  lemma {:induction false} DistinctMultiset<T>(s: seq<T>)
    requires Distinct(s)
    ensures multiset(s) == multiset(Elements(s))
    decreases |s|
  {
    if s != [] {
      var init, last := s[..|s| - 1], s[|s| - 1];
      assert s == init + [last] && last !in init;
      DistinctMultiset(init);
      assert Elements(s) == Elements(init) + {last};
    } else {
      assert Elements(s) == {};
    }
  }

  /** With a collision-free digest the files of a log clash in neither sequence nor digest. */
  lemma {:induction false} LogFilesNoClash(h: Hashes, log: seq<Event>, files: seq<Entry>)
    requires Injective(h.event) && Distinct(files)
    requires forall f :: f in files ==> f.EventFile? && f == FileOf(f.content) && f.content in log
    requires forall i :: 0 <= i < |log| ==> log[i].body.sequence == i + 1 && ValidEvent(h, log[i])
    ensures NoClash(files)
  {
    hide ValidKind;
    forall i, j | 0 <= i < j < |files|
      ensures files[i].name.sequence != files[j].name.sequence && files[i].name.hash != files[j].name.hash
    {
      assert files[i] in files && files[j] in files;
      var a :| 0 <= a < |log| && log[a] == files[i].content;
      var b :| 0 <= b < |log| && log[b] == files[j].content;
      assert files[i] != files[j];
    }
  }

  lemma {:induction false} SameFiles(h: Hashes, log: seq<Event>, target: seq<Entry>, listing: seq<Entry>)
    requires Accepted(h, log) && Complete(Files(log), listing)
    requires |target| == |log| && forall i :: 0 <= i < |log| ==> target[i] == FileOf(log[i])
    ensures Elements(EventFiles(listing)) == Elements(target)
    ensures forall f :: f in EventFiles(listing) ==> f.EventFile? && f == FileOf(f.content) && f.content in log
  {
    hide Replay, EventFiles;
    var files := EventFiles(listing);
    FilesOfLog(h, log);
    hide Accepted;
    forall i | 0 <= i < |log|
      ensures target[i] in files
    {
      assert EventFile(NameOf(log[i]), Files(log)[NameOf(log[i])], Canonical) in listing;
    }
    forall f | f in files
      ensures f in target && f == FileOf(f.content) && f.content in log
    {
      var i :| 0 <= i < |log| && log[i] == f.content;
      assert target[i] == f;
    }
  }

  lemma {:induction false} SortedToTarget(h: Hashes, log: seq<Event>, target: seq<Entry>, listing: seq<Entry>)
    requires Accepted(h, log) && Complete(Files(log), listing) && Injective(h.event)
    requires |target| == |log| && forall i :: 0 <= i < |log| ==> target[i] == FileOf(log[i])
    ensures Sort(EventFiles(listing), FileKey) == target && NoClash(EventFiles(listing))
  {
    hide Replay, Sort, EventFiles;
    var files := EventFiles(listing);
    forall i | 0 <= i < |log| { AcceptedSequence(h, log, i); }
    SameFiles(h, log, target, listing);
    FilesDistinct(listing);
    hide Accepted, Complete;
    LogFilesNoClash(h, log, files);
    hide NoClash, Injective, ValidEvent;
    assert forall i, j :: 0 <= i < j < |target| ==> FileKey(target[i]).0 < FileKey(target[j]).0;
    assert Distinct(target);
    DistinctMultiset(files);
    DistinctMultiset(target);
    SortPermutes(files, FileKey);
    SortOrders(files, FileKey);
    KeyIdentifiesPermute(target, Sort(files, FileKey), FileKey);
    OrderIsUnique(Sort(files, FileKey), target, FileKey);
  }
}
