/** The entry loop and the coverage checks of the materialization crosswalk. */
module Crosswalk {
  import opened Basics
  import opened JsonPointer

  /** The pinned path, digest and commit of a cited file; only equality matters. */
  type Authority = int

  datatype Locator = Path(pointer: string) | OtherLocator(text: Id)

  datatype Source =
    | Registered(authority: Authority, pointer: string)
    | Artifact(artifact: Id, authority: Authority, locator: Locator)
    | Proposal(authority: Authority, section: Id)
    | Unsupported

  /** Entry ids are ranked in string order; the empty string has rank zero. */
  datatype Entry = Entry(
    id: int, ticket: Id, source: Source, value: Json, disposition: Id, status: Id, destinations: seq<string>,
    reason: Id)

  datatype ArtifactRow = ArtifactRow(
    ticket: Id, artifact: Id, locator: Locator, value: Json, disposition: Id, status: Id, destinations: seq<string>,
    reason: Id)
  datatype ProposalRow = ProposalRow(
    id: int, ticket: Id, section: Id, value: Json, disposition: Id, status: Id, destinations: seq<string>, reason: Id)

  /** What the verifier pins: authorities, known dispositions, registered artifacts with the parsed
      document of each JSON one, the expected artifact rows, the reviewed interpretations, the
      digest of their rows and the digest of the whole crosswalk. */
  datatype Contract = Contract(
    registration: Authority, proposal: Authority, dispositions: set<Id>,
    artifacts: map<Id, Authority>, documents: map<Id, Json>, artifactRows: map<int, ArtifactRow>,
    reviewed: map<int, (Id, Json)>, rowDigest: seq<ProposalRow> -> Hash, rowsSha: Hash,
    digest: Content -> Hash, semanticSha: Hash)

  /** A crosswalk file: the digest it claims, and all else; `rest` stands for the fields beside the
      entries. */
  datatype Content = Content(entries: seq<Entry>, rest: Id)
  datatype File = File(claimed: Hash, content: Content)

  function RowOf(e: Entry): ArtifactRow
    requires e.source.Artifact?
  {
    ArtifactRow(e.ticket, e.source.artifact, e.source.locator, e.value, e.disposition, e.status, e.destinations,
      e.reason)
  }

  function ReviewRow(e: Entry): ProposalRow
    requires e.source.Proposal?
  {
    ProposalRow(e.id, e.ticket, e.source.section, e.value, e.disposition, e.status, e.destinations, e.reason)
  }

  /** A located value of a JSON artifact must be the entry's value. */
  predicate LocatedOk(c: Contract, e: Entry)
    requires e.source.Artifact?
  {
    var l := e.source.locator;
    l.Path? && l.pointer != [] && l.pointer[0] == '/' && e.source.artifact in c.documents ==>
      Deref(c.documents[e.source.artifact], l.pointer) == Some(e.value)
  }

  /** What the loop checks of an entry's source, apart from duplicates. */
  predicate SourceOk(c: Contract, document: Json, e: Entry) {
    match e.source
    case Registered(authority, pointer) => authority == c.registration && Deref(document, pointer) == Some(e.value)
    case Artifact(artifact, authority, _) =>
      && artifact in c.artifacts && c.artifacts[artifact] == authority && LocatedOk(c, e)
      && e.id in c.artifactRows && c.artifactRows[e.id] == RowOf(e)
    case Proposal(authority, section) =>
      && authority == c.proposal && e.id in c.reviewed
      && c.reviewed[e.id] == (section, e.value)
    case Unsupported => false
  }

  predicate EntryOk(c: Contract, document: Json, e: Entry) {
    && e.disposition in c.dispositions
    && (forall d :: d in e.destinations ==> Tokens(d).Some?)
    && SourceOk(c, document, e)
  }

  function Destinations(entries: seq<Entry>): seq<string> {
    if entries == [] then [] else Destinations(entries[..|entries| - 1]) + entries[|entries| - 1].destinations
  }

  function ReviewRows(entries: seq<Entry>): seq<ProposalRow> {
    if entries == [] then []
    else
      var rows, last := ReviewRows(entries[..|entries| - 1]), entries[|entries| - 1];
      if last.source.Proposal? then rows + [ReviewRow(last)] else rows
  }

  function SourcePointers(entries: seq<Entry>): set<string> {
    set i | 0 <= i < |entries| && entries[i].source.Registered? :: entries[i].source.pointer
  }

  function ArtifactIds(entries: seq<Entry>): set<int> {
    set i | 0 <= i < |entries| && entries[i].source.Artifact? :: entries[i].id
  }

  function ProposalIds(entries: seq<Entry>): set<int> {
    set i | 0 <= i < |entries| && entries[i].source.Proposal? :: entries[i].id
  }

  ghost predicate EachOk(c: Contract, document: Json, entries: seq<Entry>) {
    forall i :: 0 <= i < |entries| ==> entries[i].id > 0 && EntryOk(c, document, entries[i])
  }

  ghost predicate IdsSorted(entries: seq<Entry>) {
    forall i, j :: 0 <= i < j < |entries| ==> entries[i].id < entries[j].id
  }

  /** No two rows copy from one pointer. */
  ghost predicate OneRowPerPointer(entries: seq<Entry>) {
    forall i, j :: 0 <= i < j < |entries| && entries[i].source.Registered? && entries[j].source.Registered? ==>
      entries[i].source.pointer != entries[j].source.pointer
  }

  /** The loop accepts: ids sorted, every entry sound, no destination and no source pointer twice. */
  ghost predicate EntriesOk(c: Contract, document: Json, entries: seq<Entry>) {
    && EachOk(c, document, entries) && IdsSorted(entries)
    && Distinct(Destinations(entries)) && OneRowPerPointer(entries)
  }

  const MANDATES := "mandates"
  const REGISTERED_LEAVES := 72

  /** The entry and coverage part of `verify_materialization_crosswalk`. */
  ghost predicate Covered(c: Contract, document: Json, entries: seq<Entry>) {
    && Down(document, MANDATES).Some? && Down(document, MANDATES).value.Object?
    && |LeafPointers(Down(document, MANDATES).value, Pointer([MANDATES]))| == REGISTERED_LEAVES
    && EntriesOk(c, document, entries)
    && SourcePointers(entries) == LeafPointers(Down(document, MANDATES).value, Pointer([MANDATES]))
    && ProposalIds(entries) == c.reviewed.Keys
    && c.rowDigest(ReviewRows(entries)) == c.rowsSha
    && ArtifactIds(entries) == c.artifactRows.Keys
  }

  /** The verifier accepts: the claimed, the observed and the expected digest are one, and the
      entries are covered. */
  ghost predicate Accepted(c: Contract, document: Json, file: File) {
    && file.claimed == c.digest(file.content) == c.semanticSha
    && Covered(c, document, file.content.entries)
  }

  // ---------------------------------------------------------------------- the loop

  /** What the loop has gathered. */
  datatype Gathered = Gathered(
    destinations: set<string>, pointers: set<string>, proposals: set<int>, rows: seq<ProposalRow>, artifacts: set<int>)

  function GatheredFrom(entries: seq<Entry>): Gathered {
    Gathered(Elements(Destinations(entries)), SourcePointers(entries), ProposalIds(entries), ReviewRows(entries),
             ArtifactIds(entries))
  }

  /** The inner loop: an entry's destinations must be readable and new. */
  method ScanDestinations(ghost before: seq<string>, destinations: seq<string>, seen: set<string>)
    returns (ok: bool, all: set<string>)
    requires seen == Elements(before) && Distinct(before)
    ensures ok <==> (forall d :: d in destinations ==> Tokens(d).Some?) && Distinct(before + destinations)
    ensures ok ==> all == Elements(before + destinations)
  {
    hide Tokens, Distinct, Elements;
    all := seen;
    assert before + destinations[..0] == before;
    for i := 0 to |destinations|
      invariant Distinct(before + destinations[..i]) && all == Elements(before + destinations[..i])
      invariant forall j :: 0 <= j < i ==> Tokens(destinations[j]).Some?
    {
      var d := destinations[i];
      assert d in destinations;
      assert before + destinations[..i + 1] == before + destinations[..i] + [d];
      DistinctAppend(before + destinations[..i], d);
      if d in all || Tokens(d).None? {
        if d in all {
          assert before + destinations == before + destinations[..i + 1] + destinations[i + 1..];
          DistinctPrefix(before + destinations[..i + 1], destinations[i + 1..]);
        }
        return false, {};
      }
      all := all + {d};
    }
    assert destinations[..|destinations|] == destinations;
    return true, all;
  }

  lemma {:induction false} DistinctAppend<T>(s: seq<T>, x: T)
    ensures Distinct(s + [x]) <==> Distinct(s) && x !in Elements(s)
    ensures Elements(s + [x]) == Elements(s) + {x}
  {
    var t := s + [x];
    assert forall i :: 0 <= i < |s| ==> t[i] == s[i];
    assert t[|s|] == x;
    if x in s {
      var i :| 0 <= i < |s| && s[i] == x;
      assert t[i] == t[|s|];
    }
  }

  lemma {:induction false} DistinctPrefix<T>(a: seq<T>, b: seq<T>)
    ensures Distinct(a + b) ==> Distinct(a)
  {
    assert forall i :: 0 <= i < |a| ==> (a + b)[i] == a[i];
  }

  /** The loop over entries. */
  method ScanEntries(c: Contract, document: Json, entries: seq<Entry>) returns (ok: bool, g: Gathered)
    ensures ok <==> EntriesOk(c, document, entries)
    ensures ok ==> g == GatheredFrom(entries)
  {
    NothingGathered(c, document, entries);
    hide EntriesOk, SourceOk, Elements, Distinct, Tokens, SourcePointers, ProposalIds, ArtifactIds, ReviewRows,
      Destinations;
    g := Gathered({}, {}, {}, [], {});
    var previous := 0;
    for i := 0 to |entries|
      invariant EntriesOk(c, document, entries[..i]) && g == GatheredFrom(entries[..i])
      invariant previous == if i == 0 then 0 else entries[i - 1].id
    {
      var e := entries[i];
      DestinationsDistinct(c, document, entries[..i]);
      GatheredNext(entries, i);
      EntriesNext(c, document, entries, i);
      EntriesPrefix(c, document, entries, i + 1);
      if e.id <= previous || e.disposition !in c.dispositions {
        return false, g;
      }
      var unseen, destinations := ScanDestinations(Destinations(entries[..i]), e.destinations, g.destinations);
      if !unseen {
        return false, g;
      }
      var sound := CheckSource(c, document, e);
      if !sound || (e.source.Registered? && e.source.pointer in g.pointers) {
        return false, g;
      }
      g := g.(destinations := destinations);
      match e.source {
        case Registered(_, pointer) => g := g.(pointers := g.pointers + {pointer});
        case Artifact(_, _, _) => g := g.(artifacts := g.artifacts + {e.id});
        case Proposal(_, _) => g := g.(proposals := g.proposals + {e.id}, rows := g.rows + [ReviewRow(e)]);
        case Unsupported =>
      }
      previous := e.id;
    }
    assert entries[..|entries|] == entries;
    return true, g;
  }

  /** The three kinds of source. */
  method CheckSource(c: Contract, document: Json, e: Entry) returns (ok: bool)
    ensures ok <==> SourceOk(c, document, e)
  {
    hide Deref;
    match e.source {
      case Registered(authority, pointer) =>
        if authority != c.registration {
          return false;
        }
        var value := Dereference(document, pointer);
        return value == Some(e.value);
      case Artifact(artifact, authority, locator) =>
        if artifact !in c.artifacts || c.artifacts[artifact] != authority {
          return false;
        }
        if locator.Path? && locator.pointer != [] && locator.pointer[0] == '/' && artifact in c.documents {
          var value := Dereference(c.documents[artifact], locator.pointer);
          if value != Some(e.value) {
            return false;
          }
        }
        return e.id in c.artifactRows && c.artifactRows[e.id] == RowOf(e);
      case Proposal(authority, section) =>
        if authority != c.proposal || e.id !in c.reviewed {
          return false;
        }
        return c.reviewed[e.id].0 == section && c.reviewed[e.id].1 == e.value;
      case Unsupported =>
        return false;
    }
  }

  lemma {:induction false} DestinationsDistinct(c: Contract, document: Json, entries: seq<Entry>)
    requires EntriesOk(c, document, entries)
    ensures Distinct(Destinations(entries))
  {
    hide EntryOk, Distinct;
  }

  lemma {:induction false} NothingGathered(c: Contract, document: Json, entries: seq<Entry>)
    ensures EntriesOk(c, document, entries[..0]) && GatheredFrom(entries[..0]) == Gathered({}, {}, {}, [], {})
    ensures Destinations(entries[..0]) == []
  {}

  lemma {:induction false} GatheredNext(entries: seq<Entry>, i: nat)
    requires i < |entries|
    ensures var e, g, g' := entries[i], GatheredFrom(entries[..i]), GatheredFrom(entries[..i + 1]);
      && Destinations(entries[..i + 1]) == Destinations(entries[..i]) + e.destinations
      && g'.destinations == Elements(Destinations(entries[..i]) + e.destinations)
      && g'.pointers == g.pointers + (if e.source.Registered? then {e.source.pointer} else {})
      && g'.proposals == g.proposals + (if e.source.Proposal? then {e.id} else {})
      && g'.rows == g.rows + (if e.source.Proposal? then [ReviewRow(e)] else [])
      && g'.artifacts == g.artifacts + (if e.source.Artifact? then {e.id} else {})
  {
    var a, b := entries[..i], entries[..i + 1];
    assert b[..i] == a && b[i] == entries[i];
    assert forall k :: 0 <= k < i ==> b[k] == a[k];
  }

  lemma {:induction false} EntriesNext(c: Contract, document: Json, entries: seq<Entry>, i: nat)
    requires i < |entries| && EntriesOk(c, document, entries[..i])
    ensures var e := entries[i];
      && (EntriesOk(c, document, entries[..i + 1]) <==>
            && (if i == 0 then 0 else entries[i - 1].id) < e.id
            && EntryOk(c, document, e)
            && Distinct(Destinations(entries[..i]) + e.destinations)
            && (e.source.Registered? ==> e.source.pointer !in SourcePointers(entries[..i])))
  {
    hide EachOk, IdsSorted, OneRowPerPointer, EntryOk, Destinations, Distinct, SourcePointers;
    GatheredNext(entries, i);
    EachNext(c, document, entries, i);
    IdsNext(entries, i);
    PointersNext(entries, i);
    if (if i == 0 then 0 else entries[i - 1].id) < entries[i].id {
      PreviousPositive(c, document, entries, i);
    }
  }

  lemma {:induction false} PreviousPositive(c: Contract, document: Json, entries: seq<Entry>, i: nat)
    requires i < |entries| && EachOk(c, document, entries[..i])
    ensures (if i == 0 then 0 else entries[i - 1].id) >= 0
  {
    hide EntryOk;
    assert i > 0 ==> entries[..i][i - 1] == entries[i - 1];
  }

  lemma {:induction false} EachNext(c: Contract, document: Json, entries: seq<Entry>, i: nat)
    requires i < |entries| && EachOk(c, document, entries[..i])
    ensures EachOk(c, document, entries[..i + 1]) <==> entries[i].id > 0 && EntryOk(c, document, entries[i])
  {
    hide EntryOk;
    var a, b := entries[..i], entries[..i + 1];
    assert forall k :: 0 <= k < i ==> b[k] == a[k];
    assert b[i] == entries[i];
  }

  lemma {:induction false} IdsNext(entries: seq<Entry>, i: nat)
    requires i < |entries| && IdsSorted(entries[..i])
    ensures IdsSorted(entries[..i + 1]) <==> (i > 0 ==> entries[i - 1].id < entries[i].id)
  {
    var a, b := entries[..i], entries[..i + 1];
    assert forall k :: 0 <= k < i ==> b[k] == a[k];
    assert b[i] == entries[i] && (i > 0 ==> b[i - 1] == entries[i - 1]);
  }

  lemma {:induction false} PointersNext(entries: seq<Entry>, i: nat)
    requires i < |entries| && OneRowPerPointer(entries[..i])
    ensures OneRowPerPointer(entries[..i + 1]) <==>
      (entries[i].source.Registered? ==> entries[i].source.pointer !in SourcePointers(entries[..i]))
  {
    var a, b, e := entries[..i], entries[..i + 1], entries[i];
    assert b[i] == e && forall k :: 0 <= k < i ==> b[k] == a[k];
    if e.source.Registered? && e.source.pointer in SourcePointers(a) {
      var k :| 0 <= k < i && a[k].source.Registered? && a[k].source.pointer == e.source.pointer;
      assert b[k].source.pointer == b[i].source.pointer;
    }
  }

  lemma {:induction false} EntriesPrefix(c: Contract, document: Json, entries: seq<Entry>, i: nat)
    requires i <= |entries|
    ensures EntriesOk(c, document, entries) ==> EntriesOk(c, document, entries[..i])
    decreases |entries| - i
  {
    hide EntryOk, Distinct;
    if i == |entries| {
      assert entries[..i] == entries;
    } else {
      EntriesPrefix(c, document, entries, i + 1);
      GatheredNext(entries, i);
      hide Destinations;
      DistinctPrefix(Destinations(entries[..i]), entries[i].destinations);
      assert forall k :: 0 <= k < i ==> entries[..i][k] == entries[..i + 1][k];
    }
  }

  /** Entries and coverage together. */
  method VerifyCoverage(c: Contract, document: Json, entries: seq<Entry>) returns (ok: bool)
    ensures ok <==> Covered(c, document, entries)
  {
    hide EntriesOk, Down, LeafPointers, Pointer;
    if Down(document, MANDATES).None? || !Down(document, MANDATES).value.Object? {
      return false;
    }
    var expected := LeafPointers(Down(document, MANDATES).value, Pointer([MANDATES]));
    if |expected| != REGISTERED_LEAVES {
      return false;
    }
    var sound, g := ScanEntries(c, document, entries);
    return sound && g.pointers == expected && g.proposals == c.reviewed.Keys && c.rowDigest(g.rows) == c.rowsSha
      && g.artifacts == c.artifactRows.Keys;
  }

  /** `verify_materialization_crosswalk`, from the semantic digest on. */
  method VerifyCrosswalk(c: Contract, document: Json, file: File) returns (ok: bool)
    ensures ok <==> Accepted(c, document, file)
  {
    hide Covered;
    var observed := c.digest(file.content);
    if file.claimed != observed || observed != c.semanticSha {
      return false;
    }
    ok := VerifyCoverage(c, document, file.content.entries);
  }

  // ------------------------------------------------------- what acceptance means

  datatype Kind = RegisteredKind | ArtifactKind | ProposalKind | OtherKind

  function KindOf(e: Entry): Kind {
    match e.source
    case Registered(_, _) => RegisteredKind
    case Artifact(_, _, _) => ArtifactKind
    case Proposal(_, _) => ProposalKind
    case Unsupported => OtherKind
  }

  /** The positions of the entries of a kind. */
  function Rows(entries: seq<Entry>, kind: Kind): set<int> { set i | 0 <= i < |entries| && KindOf(entries[i]) == kind }

  function IdAt(entries: seq<Entry>, i: int): int { if 0 <= i < |entries| then entries[i].id else 0 }

  function PointerAt(entries: seq<Entry>, i: int): string {
    if 0 <= i < |entries| && entries[i].source.Registered? then entries[i].source.pointer else []
  }

  /** Some row copies this value from this pointer. */
  ghost predicate HasCopy(entries: seq<Entry>, pointer: string, value: Option<Json>) {
    exists i :: 0 <= i < |entries| && Copies(entries[i], pointer, value)
  }

  predicate Copies(e: Entry, pointer: string, value: Option<Json>) {
    e.source.Registered? && e.source.pointer == pointer && Some(e.value) == value
  }

  /** The row's pointer leads to a leaf, and its value is a scalar. */
  ghost predicate CopiesALeaf(mandates: Json, e: Entry) {
    && e.source.Registered? && e.value.Scalar?
    && exists p :: p in Leaves(mandates) && e.source.pointer == Pointer([MANDATES] + p)
  }

  lemma {:induction false} RowIsListed(c: Contract, document: Json, entries: seq<Entry>, i: nat)
    requires EntriesOk(c, document, entries) && i < |entries| && entries[i].source.Registered?
    ensures entries[i].source.pointer in SourcePointers(entries)
    ensures Deref(document, entries[i].source.pointer) == Some(entries[i].value)
  {
    hide Deref, Distinct, LocatedOk;
    assert EntryOk(c, document, entries[i]);
  }

  lemma {:induction false} PointerHasRow(c: Contract, document: Json, entries: seq<Entry>, pointer: string)
    requires EntriesOk(c, document, entries) && pointer in SourcePointers(entries)
    ensures HasCopy(entries, pointer, Deref(document, pointer))
  {
    hide Deref, EntriesOk;
    var i :| 0 <= i < |entries| && entries[i].source.Registered? && entries[i].source.pointer == pointer;
    RowIsListed(c, document, entries, i);
    assert Copies(entries[i], pointer, Deref(document, pointer));
  }

  lemma {:induction false} RowsAreDistinct(c: Contract, document: Json, entries: seq<Entry>)
    requires EntriesOk(c, document, entries)
    ensures OneRowPerPointer(entries)
  {
    hide EntryOk, Distinct;
  }

  lemma {:induction false} ChildAt(document: Json)
    requires Down(document, MANDATES).Some?
    ensures At(document, [MANDATES]) == Some(Down(document, MANDATES).value)
  {
    hide Down;
    assert [MANDATES][1..] == [];
  }

  /** An accepted crosswalk is a total one-to-one copy of the registered leaves: for every leaf
      exactly one row, with its value, and no row beside them. */
  lemma {:induction false} CrosswalkCopiesLeaves(c: Contract, document: Json, entries: seq<Entry>, mandates: Json)
    requires Covered(c, document, entries) && Down(document, MANDATES) == Some(mandates) && WellFormed(mandates)
    ensures |SourcePointers(entries)| == ScalarCount(mandates) == REGISTERED_LEAVES
    ensures forall p :: p in Leaves(mandates) ==> HasCopy(entries, Pointer([MANDATES] + p), At(mandates, p))
    ensures forall i :: 0 <= i < |entries| && entries[i].source.Registered? ==> CopiesALeaf(mandates, entries[i])
    ensures OneRowPerPointer(entries)
  {
    hide Deref, Leaves, At, Pointer, WellFormed, ScalarCount, EntriesOk, SourcePointers, Covered, Down, HasCopy,
      OneRowPerPointer;
    MandateLeaves(c, document, entries, mandates);
    RowsAreDistinct(c, document, entries);
    forall p | p in Leaves(mandates)
      ensures HasCopy(entries, Pointer([MANDATES] + p), At(mandates, p))
    {
      PointerHasRow(c, document, entries, Pointer([MANDATES] + p));
    }
    forall i | 0 <= i < |entries| && entries[i].source.Registered?
      ensures CopiesALeaf(mandates, entries[i])
    {
      RowIsListed(c, document, entries, i);
    }
  }

  lemma {:induction false} MandateLeaves(c: Contract, document: Json, entries: seq<Entry>, mandates: Json)
    requires Covered(c, document, entries) && Down(document, MANDATES) == Some(mandates) && WellFormed(mandates)
    ensures EntriesOk(c, document, entries)
    ensures |SourcePointers(entries)| == ScalarCount(mandates) == REGISTERED_LEAVES
    ensures forall p :: p in Leaves(mandates) ==>
      Pointer([MANDATES] + p) in SourcePointers(entries) && Deref(document, Pointer([MANDATES] + p)) == At(mandates, p)
    ensures forall x :: x in SourcePointers(entries) ==>
      && (exists p :: p in Leaves(mandates) && x == Pointer([MANDATES] + p))
      && Deref(document, x).Some? && Deref(document, x).value.Scalar?
  {
    hide Deref, LeafPointers, Leaves, At, Pointer, WellFormed, ScalarCount, EntriesOk, SourcePointers, ReviewRows, Down,
      ProposalIds, ArtifactIds;
    ChildAt(document);
    OnePointerPerLeaf(document, [MANDATES], mandates);
  }

  lemma {:induction false} IdsDistinct(c: Contract, document: Json, entries: seq<Entry>, i: int, j: int)
    requires EntriesOk(c, document, entries) && 0 <= i < |entries| && 0 <= j < |entries|
    requires entries[i].id == entries[j].id
    ensures i == j
  {
    hide EntryOk, Distinct;
  }

  function IdOf(entries: seq<Entry>): int -> int { i => IdAt(entries, i) }
  function PointerOf(entries: seq<Entry>): int -> string { i => PointerAt(entries, i) }

  lemma {:induction false} CountIds(c: Contract, document: Json, entries: seq<Entry>, rows: set<int>)
    requires EntriesOk(c, document, entries) && forall i :: i in rows ==> 0 <= i < |entries|
    ensures |Image(rows, IdOf(entries))| == |rows|
  {
    hide EntriesOk;
    var name := IdOf(entries);
    forall i, j {:trigger name(i), name(j)} | i in rows && j in rows && name(i) == name(j)
      ensures i == j
    {
      IdsDistinct(c, document, entries, i, j);
    }
    ImageCount(rows, name);
  }

  lemma {:induction false} CountPointers(c: Contract, document: Json, entries: seq<Entry>)
    requires EntriesOk(c, document, entries)
    ensures |Rows(entries, RegisteredKind)| == |SourcePointers(entries)|
  {
    hide EntriesOk;
    var rows, address := Rows(entries, RegisteredKind), PointerOf(entries);
    forall i, j {:trigger address(i), address(j)} | i in rows && j in rows && address(i) == address(j)
      ensures i == j
    {
      RowsAreDistinct(c, document, entries);
    }
    ImageCount(rows, address);
    forall x | x in SourcePointers(entries)
      ensures x in Image(rows, address)
    {
      var i :| 0 <= i < |entries| && entries[i].source.Registered? && entries[i].source.pointer == x;
      assert i in rows && address(i) == x;
    }
    assert Image(rows, address) == SourcePointers(entries);
  }

  lemma {:induction false} RowCounts(c: Contract, document: Json, entries: seq<Entry>)
    requires EntriesOk(c, document, entries)
    ensures |Rows(entries, ArtifactKind)| == |ArtifactIds(entries)|
      && |Rows(entries, ProposalKind)| == |ProposalIds(entries)|
  {
    hide EntriesOk;
    var artifacts, proposals, name := Rows(entries, ArtifactKind), Rows(entries, ProposalKind), IdOf(entries);
    CountIds(c, document, entries, artifacts);
    CountIds(c, document, entries, proposals);
    forall x | x in ArtifactIds(entries)
      ensures x in Image(artifacts, name)
    {
      var i :| 0 <= i < |entries| && entries[i].source.Artifact? && entries[i].id == x;
      assert i in artifacts && name(i) == x;
    }
    forall x | x in ProposalIds(entries)
      ensures x in Image(proposals, name)
    {
      var i :| 0 <= i < |entries| && entries[i].source.Proposal? && entries[i].id == x;
      assert i in proposals && name(i) == x;
    }
    assert Image(artifacts, name) == ArtifactIds(entries) && Image(proposals, name) == ProposalIds(entries);
  }

  lemma {:induction false} RowsLast(entries: seq<Entry>, kind: Kind)
    requires entries != []
    ensures var n := |entries| - 1;
      |Rows(entries, kind)| == |Rows(entries[..n], kind)| + if KindOf(entries[n]) == kind then 1 else 0
  {
    hide KindOf;
    var n := |entries| - 1;
    var init := entries[..n];
    var rows, before := Rows(entries, kind), Rows(init, kind);
    forall i
      ensures i in rows <==> i in before || (i == n && KindOf(entries[n]) == kind)
    {
      assert 0 <= i < n ==> init[i] == entries[i];
    }
    assert n !in before;
    if KindOf(entries[n]) == kind {
      assert rows == before + {n};
    } else {
      assert rows == before;
    }
  }

  lemma {:induction false} KindsPartition(entries: seq<Entry>)
    requires forall i :: 0 <= i < |entries| ==> KindOf(entries[i]) != OtherKind
    ensures |entries| ==
      |Rows(entries, RegisteredKind)| + |Rows(entries, ArtifactKind)| + |Rows(entries, ProposalKind)|
    decreases |entries|
  {
    hide KindOf;
    if entries == [] {
      assert forall k :: Rows(entries, k) == {};
    } else {
      hide Rows;
      KindsPartition(entries[..|entries| - 1]);
      RowsLast(entries, RegisteredKind);
      RowsLast(entries, ArtifactKind);
      RowsLast(entries, ProposalKind);
    }
  }

  ghost predicate HasArtifact(entries: seq<Entry>, id: int, row: ArtifactRow) {
    exists i :: 0 <= i < |entries| && entries[i].id == id && entries[i].source.Artifact? && RowOf(entries[i]) == row
  }

  ghost predicate HasReview(entries: seq<Entry>, id: int, content: (Id, Json)) {
    exists i :: 0 <= i < |entries| && entries[i].id == id && entries[i].source.Proposal?
                && (entries[i].source.section, entries[i].value) == content
  }

  lemma {:induction false} ArtifactIsListed(c: Contract, document: Json, entries: seq<Entry>, id: int)
    requires EntriesOk(c, document, entries) && id in ArtifactIds(entries)
    ensures id in c.artifactRows && HasArtifact(entries, id, c.artifactRows[id])
  {
    hide EntriesOk, LocatedOk, RowOf, Deref;
    var i :| 0 <= i < |entries| && entries[i].source.Artifact? && entries[i].id == id;
    SourceAt(c, document, entries, i);
  }

  lemma {:induction false} ReviewIsListed(c: Contract, document: Json, entries: seq<Entry>, id: int)
    requires EntriesOk(c, document, entries) && id in ProposalIds(entries)
    ensures id in c.reviewed && HasReview(entries, id, c.reviewed[id])
  {
    hide EntriesOk, LocatedOk, RowOf, Deref;
    var i :| 0 <= i < |entries| && entries[i].source.Proposal? && entries[i].id == id;
    SourceAt(c, document, entries, i);
  }

  lemma {:induction false} CountEntries(c: Contract, document: Json, entries: seq<Entry>)
    requires EntriesOk(c, document, entries)
    ensures |entries| == |SourcePointers(entries)| + |ArtifactIds(entries)| + |ProposalIds(entries)|
  {
    hide EntriesOk, Rows, SourcePointers, ArtifactIds, ProposalIds;
    CountPointers(c, document, entries);
    RowCounts(c, document, entries);
    forall i | 0 <= i < |entries|
      ensures KindOf(entries[i]) != OtherKind
    {
      SourceAt(c, document, entries, i);
    }
    KindsPartition(entries);
  }

  /** Nothing is missing and nothing is added: an accepted crosswalk has exactly one entry per
      registered leaf, per expected artifact row and per reviewed interpretation, each with the
      pinned content, and no other entry. */
  lemma {:induction false} CrosswalkIsExact(c: Contract, document: Json, entries: seq<Entry>)
    requires Covered(c, document, entries)
    ensures |entries| == REGISTERED_LEAVES + |c.artifactRows| + |c.reviewed|
    ensures forall id :: id in c.artifactRows ==> HasArtifact(entries, id, c.artifactRows[id])
    ensures forall id :: id in c.reviewed ==> HasReview(entries, id, c.reviewed[id])
  {
    hide EntriesOk, LeafPointers, Down, ReviewRows, SourcePointers, ArtifactIds, ProposalIds, HasArtifact, HasReview;
    CountEntries(c, document, entries);
    assert |c.artifactRows| == |c.artifactRows.Keys| && |c.reviewed| == |c.reviewed.Keys|;
    forall id | id in c.artifactRows { ArtifactIsListed(c, document, entries, id); }
    forall id | id in c.reviewed { ReviewIsListed(c, document, entries, id); }
  }

  lemma {:induction false} SourceAt(c: Contract, document: Json, entries: seq<Entry>, i: nat)
    requires EntriesOk(c, document, entries) && i < |entries|
    ensures SourceOk(c, document, entries[i])
  {
    hide SourceOk, Distinct;
  }

  // ------------------------------------------------- what an accepted crosswalk says

  /** The pointer is readable and leads to the value. */
  ghost predicate Points(document: Json, pointer: string, value: Json) {
    Tokens(pointer).Some? && Leads(document, Tokens(pointer).value, value)
  }

  predicate Slashed(s: string) { s != [] && s[0] == '/' }

  /** The entry rests on what the contract pins, field by field. */
  ghost predicate Grounded(c: Contract, document: Json, e: Entry) {
    && 0 < e.id && e.disposition in c.dispositions
    && (forall k :: 0 <= k < |e.destinations| ==> Slashed(e.destinations[k]))
    && match e.source
       case Registered(authority, pointer) => authority == c.registration && Points(document, pointer, e.value)
       case Artifact(artifact, authority, l) =>
         && artifact in c.artifacts && authority == c.artifacts[artifact]
         && (l.Path? && Slashed(l.pointer) && artifact in c.documents ==>
               Points(c.documents[artifact], l.pointer, e.value))
         && e.id in c.artifactRows && ListedAs(e, c.artifactRows[e.id])
       case Proposal(authority, section) =>
         && authority == c.proposal && e.id in c.reviewed
         && section == c.reviewed[e.id].0 && e.value == c.reviewed[e.id].1
       case Unsupported => false
  }

  predicate ListedAs(e: Entry, row: ArtifactRow)
    requires e.source.Artifact?
  {
    && row.artifact == e.source.artifact && row.locator == e.source.locator && row.value == e.value
    && row.ticket == e.ticket && row.disposition == e.disposition && row.status == e.status
    && row.destinations == e.destinations && row.reason == e.reason
  }

  /** No destination is spelled twice, in one entry or in two. */
  ghost predicate DestinationsOnce(entries: seq<Entry>) {
    && (forall i :: 0 <= i < |entries| ==> Distinct(entries[i].destinations))
    && (forall i, j, d :: 0 <= i < j < |entries| && d in entries[i].destinations ==> d !in entries[j].destinations)
  }

  lemma {:induction false} PointsMeans(document: Json, pointer: string, value: Json)
    requires WellFormed(document)
    ensures Deref(document, pointer) == Some(value) <==> Points(document, pointer, value)
  {
    hide Tokens, At, Leads, WellFormed;
    if Tokens(pointer).Some? {
      AtLeads(document, Tokens(pointer).value, value);
    }
  }

  /** The JSON that the verifier reads has no repeated key. */
  ghost predicate Readable(c: Contract, document: Json) {
    WellFormed(document) && forall a :: a in c.documents ==> WellFormed(c.documents[a])
  }

  lemma {:induction false} SlashedIsReadable(d: string)
    ensures Tokens(d).Some? <==> Slashed(d)
  {}

  lemma {:induction false} GroundedMeans(c: Contract, document: Json, e: Entry)
    requires Readable(c, document)
    ensures Grounded(c, document, e) <==> e.id > 0 && EntryOk(c, document, e)
  {
    hide Deref, Points, WellFormed, Tokens;
    forall d: string { SlashedIsReadable(d); }
    match e.source {
      case Registered(_, pointer) => PointsMeans(document, pointer, e.value);
      case Artifact(artifact, _, l) =>
        if l.Path? && artifact in c.documents {
          PointsMeans(c.documents[artifact], l.pointer, e.value);
        }
      case _ =>
    }
  }

  lemma {:induction false} DistinctConcat<T>(a: seq<T>, b: seq<T>)
    ensures Distinct(a + b) <==> Distinct(a) && Distinct(b) && forall x :: x in a ==> x !in b
  {
    var s := a + b;
    assert forall i :: 0 <= i < |a| ==> s[i] == a[i];
    assert forall i :: |a| <= i < |s| ==> s[i] == b[i - |a|];
    if Distinct(s) {
      forall i, j | 0 <= i < j < |b|
        ensures b[i] != b[j]
      {
        assert s[|a| + i] != s[|a| + j];
      }
      forall i, j | 0 <= i < |a| && 0 <= j < |b|
        ensures a[i] != b[j]
      {
        assert s[i] != s[|a| + j];
      }
    }
    if Distinct(a) && Distinct(b) && forall x :: x in a ==> x !in b {
      forall i, j | 0 <= i < j < |s|
        ensures s[i] != s[j]
      {
        assert i < |a| <= j ==> a[i] in a && b[j - |a|] in b;
      }
    }
  }

  ghost predicate Names(entries: seq<Entry>, d: string) {
    exists i :: 0 <= i < |entries| && d in entries[i].destinations
  }

  lemma {:induction false} DestinationsAre(entries: seq<Entry>, d: string)
    ensures d in Destinations(entries) <==> Names(entries, d)
    decreases |entries|
  {
    if entries == [] {
    } else {
      var n := |entries| - 1;
      DestinationsAre(entries[..n], d);
      assert forall i :: 0 <= i < n ==> entries[..n][i] == entries[i];
    }
  }

  lemma {:induction false} DistinctMeansOnce(entries: seq<Entry>)
    ensures Distinct(Destinations(entries)) <==> DestinationsOnce(entries)
    decreases |entries|
  {
    if entries == [] {
    } else {
      var n := |entries| - 1;
      var init, last := entries[..n], entries[n].destinations;
      DistinctMeansOnce(init);
      DistinctConcat(Destinations(init), last);
      forall d { DestinationsAre(init, d); }
      hide Destinations;
      OnceSplits(entries);
    }
  }

  lemma {:induction false} OnceSplits(entries: seq<Entry>)
    requires entries != []
    ensures var n := |entries| - 1; var init, last := entries[..n], entries[n].destinations;
      DestinationsOnce(entries) <==>
        DestinationsOnce(init) && Distinct(last) && forall d :: Names(init, d) ==> d !in last
  {
    hide Distinct;
    var n := |entries| - 1;
    var init, last := entries[..n], entries[n].destinations;
    assert forall i :: 0 <= i < n ==> init[i] == entries[i];
  }

  /** The loop accepts exactly the entries with ascending ids, each resting on what the contract pins,
      no destination spelled twice and no registered pointer copied twice. */
  lemma {:induction false} EntriesMean(c: Contract, document: Json, entries: seq<Entry>)
    requires Readable(c, document)
    ensures EntriesOk(c, document, entries) <==>
      && (forall i :: 0 <= i < |entries| ==> Grounded(c, document, entries[i]))
      && (forall i, j :: 0 <= i < j < |entries| ==> entries[i].id < entries[j].id)
      && DestinationsOnce(entries)
      && (forall i, j ::
            0 <= i < j < |entries| && entries[i].source.Registered? && entries[j].source.Registered? ==>
              entries[i].source.pointer != entries[j].source.pointer)
  {
    DistinctMeansOnce(entries);
    forall i | 0 <= i < |entries| { GroundedMeans(c, document, entries[i]); }
    hide Grounded, EntryOk, Distinct, DestinationsOnce, Destinations, Readable;
  }

  /** The row records the entry, field by field. */
  predicate Records(row: ProposalRow, e: Entry) {
    && e.source.Proposal? && row.section == e.source.section && row.id == e.id && row.ticket == e.ticket
    && row.value == e.value && row.disposition == e.disposition && row.status == e.status
    && row.destinations == e.destinations && row.reason == e.reason
  }

  ghost predicate Recorded(entries: seq<Entry>, row: ProposalRow) {
    exists i :: 0 <= i < |entries| && Records(row, entries[i])
  }

  lemma {:induction false} ReviewRowsAre(entries: seq<Entry>, row: ProposalRow)
    ensures row in ReviewRows(entries) <==> Recorded(entries, row)
    decreases |entries|
  {
    if entries == [] {
    } else {
      var n := |entries| - 1;
      ReviewRowsAre(entries[..n], row);
      assert forall i :: 0 <= i < n ==> entries[..n][i] == entries[i];
    }
  }

  /** The digest of the interpretations is taken over a row for each of them and no other, by id. */
  lemma {:induction false} ReviewRowsMean(entries: seq<Entry>)
    requires IdsSorted(entries)
    ensures forall row :: row in ReviewRows(entries) <==> Recorded(entries, row)
    ensures forall a, b :: 0 <= a < b < |ReviewRows(entries)| ==> ReviewRows(entries)[a].id < ReviewRows(entries)[b].id
    decreases |entries|
  {
    forall row { ReviewRowsAre(entries, row); }
    if entries == [] {
    } else {
      var n := |entries| - 1;
      var init := entries[..n];
      ReviewRowsMean(init);
      forall a | 0 <= a < |ReviewRows(init)|
        ensures ReviewRows(init)[a].id < entries[n].id
      {
        assert Recorded(init, ReviewRows(init)[a]);
        var i :| 0 <= i < |init| && Records(ReviewRows(init)[a], init[i]);
        assert init[i] == entries[i];
      }
    }
  }

  ghost predicate CopiedFrom(entries: seq<Entry>, pointer: string) {
    exists i :: 0 <= i < |entries| && entries[i].source.Registered? && entries[i].source.pointer == pointer
  }
  ghost predicate LeafAt(mandates: Json, pointer: string) {
    exists p :: p in Leaves(mandates) && pointer == Pointer([MANDATES] + p)
  }
  ghost predicate InArtifact(entries: seq<Entry>, id: int) {
    exists i :: 0 <= i < |entries| && entries[i].source.Artifact? && entries[i].id == id
  }
  ghost predicate InProposal(entries: seq<Entry>, id: int) {
    exists i :: 0 <= i < |entries| && entries[i].source.Proposal? && entries[i].id == id
  }

  /** The mandates have 72 scalar leaves; these, the expected artifact rows and the reviewed
      interpretations are exactly what the entries speak of; and the interpretations have the pinned
      digest. */
  ghost predicate Complete(c: Contract, mandates: Json, entries: seq<Entry>) {
    && mandates.Object? && ScalarCount(mandates) == 72
    && (forall x :: CopiedFrom(entries, x) <==> LeafAt(mandates, x))
    && (forall id :: InArtifact(entries, id) <==> id in c.artifactRows)
    && (forall id :: InProposal(entries, id) <==> id in c.reviewed)
    && c.rowDigest(ReviewRows(entries)) == c.rowsSha
  }

  lemma {:induction false} GatheredMeans(entries: seq<Entry>)
    ensures forall x :: x in SourcePointers(entries) <==> CopiedFrom(entries, x)
    ensures forall id :: id in ArtifactIds(entries) <==> InArtifact(entries, id)
    ensures forall id :: id in ProposalIds(entries) <==> InProposal(entries, id)
  {}

  lemma {:induction false} PointersMean(document: Json, mandates: Json)
    requires WellFormed(mandates) && Down(document, MANDATES) == Some(mandates)
    ensures |LeafPointers(mandates, Pointer([MANDATES]))| == ScalarCount(mandates)
    ensures forall x :: x in LeafPointers(mandates, Pointer([MANDATES])) <==> LeafAt(mandates, x)
  {
    hide Down, WellFormed, ScalarCount, LeafPointers, Leaves, Pointer, At, Deref;
    ChildAt(document);
    OnePointerPerLeaf(document, [MANDATES], mandates);
  }

  lemma {:induction false} MandatesOf(document: Json, mandates: Json)
    requires WellFormed(document)
    ensures Down(document, MANDATES) == Some(mandates) <==> Leads(document, [MANDATES], mandates)
    ensures Down(document, MANDATES) == Some(mandates) ==> WellFormed(mandates)
  {
    AtLeads(document, [MANDATES], mandates);
    assert [MANDATES][1..] == [];
    if Down(document, MANDATES) == Some(mandates) {
      DownSelects(document, MANDATES);
      var i :| 0 <= i < Arity(document) && Selects(document, MANDATES, i);
      assert WellFormed(Child(document, i));
    }
  }

  lemma {:induction false} CompleteMeans(c: Contract, document: Json, entries: seq<Entry>, mandates: Json)
    requires WellFormed(mandates) && Down(document, MANDATES) == Some(mandates)
    ensures Covered(c, document, entries) <==> EntriesOk(c, document, entries) && Complete(c, mandates, entries)
  {
    PointerSetsMean(document, entries, mandates);
    IdSetsMean(c, entries);
    PointersMean(document, mandates);
    hide WellFormed, Down, EntriesOk, SourcePointers, ArtifactIds, ProposalIds, LeafPointers, ScalarCount, ReviewRows,
      CopiedFrom, LeafAt, InArtifact, InProposal, Pointer;
  }

  lemma {:induction false} PointerSetsMean(document: Json, entries: seq<Entry>, mandates: Json)
    requires WellFormed(mandates) && Down(document, MANDATES) == Some(mandates)
    ensures SourcePointers(entries) == LeafPointers(mandates, Pointer([MANDATES])) <==>
      forall x :: CopiedFrom(entries, x) <==> LeafAt(mandates, x)
  {
    GatheredMeans(entries);
    PointersMean(document, mandates);
    hide WellFormed, Down, SourcePointers, LeafPointers, CopiedFrom, LeafAt, Pointer;
  }

  lemma {:induction false} IdSetsMean(c: Contract, entries: seq<Entry>)
    ensures ArtifactIds(entries) == c.artifactRows.Keys <==>
      forall id :: InArtifact(entries, id) <==> id in c.artifactRows
    ensures ProposalIds(entries) == c.reviewed.Keys <==> forall id :: InProposal(entries, id) <==> id in c.reviewed
  {
    GatheredMeans(entries);
    hide ArtifactIds, ProposalIds, InArtifact, InProposal;
    assert forall id :: id in c.artifactRows <==> id in c.artifactRows.Keys;
    assert forall id :: id in c.reviewed <==> id in c.reviewed.Keys;
    if forall id :: InArtifact(entries, id) <==> id in c.artifactRows {
      assert forall id :: id in ArtifactIds(entries) <==> id in c.artifactRows.Keys;
      assert ArtifactIds(entries) == c.artifactRows.Keys;
    }
    if forall id :: InProposal(entries, id) <==> id in c.reviewed {
      assert forall id :: id in ProposalIds(entries) <==> id in c.reviewed.Keys;
      assert ProposalIds(entries) == c.reviewed.Keys;
    }
  }

  /** The verifier accepts exactly the file whose claimed, own and pinned digests are one and whose
      entries pass the loop and are complete for the registered mandates. */
  lemma {:induction false} AcceptedMeans(c: Contract, document: Json, file: File)
    requires Readable(c, document)
    ensures Accepted(c, document, file) <==>
      && c.digest(file.content) == file.claimed && file.claimed == c.semanticSha
      && EntriesOk(c, document, file.content.entries)
      && exists mandates :: Leads(document, [MANDATES], mandates) && Complete(c, mandates, file.content.entries)
  {
    hide EntriesOk, WellFormed, Down, Leads, Complete;
    forall mandates
      ensures Down(document, MANDATES) == Some(mandates) <==> Leads(document, [MANDATES], mandates)
      ensures Down(document, MANDATES) == Some(mandates) ==> WellFormed(mandates)
    {
      MandatesOf(document, mandates);
    }
    if Down(document, MANDATES).Some? {
      CompleteMeans(c, document, file.content.entries, Down(document, MANDATES).value);
    }
  }

  /** With a collision-free row digest the contract leaves no choice beside the registered rows:
      every artifact row and every interpretation of one accepted crosswalk is, as a whole, in every
      other. */
  lemma {:induction false} CoveredCrosswalksAgree(c: Contract, document: Json, xs: seq<Entry>, ys: seq<Entry>, i: nat)
    requires Injective(c.rowDigest) && Covered(c, document, xs) && Covered(c, document, ys)
    requires i < |xs| && !xs[i].source.Registered?
    ensures xs[i] in ys
  {
    hide EntriesOk, LeafPointers, Down, Deref, LocatedOk;
    SourceAt(c, document, xs, i);
    var e := xs[i];
    if e.source.Artifact? {
      assert e.id in ArtifactIds(xs);
      var j :| 0 <= j < |ys| && ys[j].source.Artifact? && ys[j].id == e.id;
      SourceAt(c, document, ys, j);
      assert ys[j] == e;
    } else {
      hide ReviewRows;
      ReviewRowsAre(xs, ReviewRow(e));
      assert ReviewRows(xs) == ReviewRows(ys);
      ReviewRowsAre(ys, ReviewRow(e));
      assert Records(ReviewRow(e), e) && Recorded(xs, ReviewRow(e)) && Recorded(ys, ReviewRow(e));
      var j :| 0 <= j < |ys| && Records(ReviewRow(e), ys[j]);
      SourceAt(c, document, ys, j);
      assert ys[j] == e;
    }
  }

  /** The locations of all destinations, spelled as the printer spells them. */
  function Repaired(destinations: seq<string>): (r: seq<string>)
    requires forall d :: d in destinations ==> d != []
    ensures |r| == |destinations|
  {
    seq(|destinations|, i requires 0 <= i < |destinations| =>
          assert destinations[i] in destinations; Repair(destinations[i][1..]))
  }

  /** All destinations name pairwise different locations. */
  ghost predicate DifferentLocations(destinations: seq<string>) {
    forall i, j :: 0 <= i < j < |destinations| ==> Tokens(destinations[i]) != Tokens(destinations[j])
  }

  /** The loop refuses a destination that was spelled before. The destinations it lets through name
      pairwise different locations exactly when their repaired spellings are distinct. */
  lemma {:induction false} DestinationsDiffer(c: Contract, document: Json, entries: seq<Entry>)
    requires EntriesOk(c, document, entries)
    ensures forall d :: d in Destinations(entries) ==> Tokens(d).Some? && d != []
    ensures DifferentLocations(Destinations(entries)) <==> Distinct(Repaired(Destinations(entries)))
  {
    hide EntriesOk, Tokens, Repair, Destinations;
    DestinationsReadable(c, document, entries);
    var all := Destinations(entries);
    forall d | d in all { ReadableStarts(d); }
    forall i, j | 0 <= i < j < |all|
      ensures Tokens(all[i]) == Tokens(all[j]) <==> Repaired(all)[i] == Repaired(all)[j]
    {
      assert all[i] in all && all[j] in all;
      SameLocation(all[i], all[j]);
    }
  }

  /** In particular destinations that all obey the escape rule always do. */
  lemma {:induction false} WellEscapedDiffer(c: Contract, document: Json, entries: seq<Entry>)
    requires EntriesOk(c, document, entries)
    requires forall d :: d in Destinations(entries) && d != [] ==> WellEscaped(d[1..])
    ensures DifferentLocations(Destinations(entries))
  {
    hide EntriesOk, Tokens, WellEscaped, Destinations;
    DestinationsDistinct(c, document, entries);
    DestinationsReadable(c, document, entries);
    var all := Destinations(entries);
    forall i, j | 0 <= i < j < |all|
      ensures Tokens(all[i]) != Tokens(all[j])
    {
      assert all[i] in all && all[j] in all;
      ReadableStarts(all[i]);
      ReadableStarts(all[j]);
      SpellingsOfALocation(all[i], all[j]);
    }
  }

  /** With a collision-free semantic digest there is one acceptable file, so what holds of the
      destinations of the pinned crosswalk holds of every accepted one. */
  lemma {:induction false} AcceptedIsThePinned(c: Contract, document: Json, file: File, pinned: Content)
    requires Injective(c.digest) && Accepted(c, document, file) && c.digest(pinned) == c.semanticSha
    ensures file == File(c.semanticSha, pinned)
    ensures DifferentLocations(Destinations(pinned.entries)) ==> DifferentLocations(Destinations(file.content.entries))
  {
    hide Covered, DifferentLocations;
  }

  lemma {:induction false} ReadableStarts(d: string)
    requires Tokens(d).Some?
    ensures d != []
  {}

  lemma {:induction false} DestinationsReadable(c: Contract, document: Json, entries: seq<Entry>)
    requires EntriesOk(c, document, entries)
    ensures forall d :: d in Destinations(entries) ==> Tokens(d).Some?
    decreases |entries|
  {
    hide Tokens, SourceOk, Distinct;
    if entries == [] {
    } else {
      var n := |entries| - 1;
      EntriesPrefix(c, document, entries, n);
      DestinationsReadable(c, document, entries[..n]);
      assert EntryOk(c, document, entries[n]);
    }
  }

  const COLLIDING := Entry(1, 0, Proposal(2, 5), Scalar(0), 1, 0, ["/~", "/~0"], 0)

  /** The duplicate check by itself can be passed by one location spelled twice: the loop accepts
      this entry under any contract that lists it. */
  lemma {:induction false} DestinationsCanCollide(c: Contract, document: Json)
    requires c.proposal == 2 && 1 in c.dispositions && 1 in c.reviewed && c.reviewed[1] == (5, Scalar(0))
    ensures EntriesOk(c, document, [COLLIDING])
    ensures Destinations([COLLIDING]) == ["/~", "/~0"] && Tokens("/~") == Tokens("/~0") == Some(["~"])
    ensures !DifferentLocations(Destinations([COLLIDING]))
  {
    CollidingTokens();
    hide Tokens, Distinct;
    var entries := [COLLIDING];
    assert entries[..0] == [] && Destinations(entries[..0]) == [];
    assert Destinations(entries) == ["/~", "/~0"];
    TwoDistinct("/~", "/~0");
    assert EntryOk(c, document, COLLIDING);
    assert Destinations(entries)[0] == "/~" && Destinations(entries)[1] == "/~0";
  }

  lemma {:induction false} TwoDistinct(a: string, b: string)
    requires |a| != |b|
    ensures Distinct([a, b])
  {}

  lemma {:induction false} CollidingTokens()
    ensures Tokens("/~") == Tokens("/~0") == Some(["~"])
  {
    assert "/~"[1..] == "~" && "/~0"[1..] == "~0" && "~0"[2..] == [];
    TwoReplacementsUnescape("~");
    TwoReplacementsUnescape("~0");
    OneToken("~");
    OneToken("~0");
    assert "~"[1..] == [];
  }

  lemma {:induction false} OneToken(part: string)
    requires '/' !in part
    ensures Tokens("/" + part) == Some([Unescape(part)])
  {
    hide Unescape, Split;
    assert ("/" + part)[1..] == part;
    SplitWhole(part);
    UnescapeCons(part, []);
    assert [part] + [] == [part];
    assert UnescapeAll([part]) == [Unescape(part)];
  }
}
