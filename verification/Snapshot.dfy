/** The archive snapshot (app/station_extract.py) while refreshes and uploads
    replace the slot and the fetch state. A digest stands for the bytes it was
    taken of. */
module Snapshot {
  import opened Bytes

  type Digest = Text
  type Inode = nat

  /** A download and the file it became in the slot: itself, or re-wrapped. */
  datatype Fetch = Fetch(download: Text, slot: Text)

  /** The fetch state. An old one has no identity of the slot file. */
  datatype State = State(sha: Digest, slot: Option<SlotIdentity>, size: Option<nat>)

  datatype SlotIdentity = SlotIdentity(sha: Digest, size: nat)

  /** `_slot_identity`: a file of the download's size was only renamed. */
  function IdentityOf(f: Fetch): SlotIdentity {
    if |f.slot| == |f.download| then SlotIdentity(f.download, |f.download|) else SlotIdentity(f.slot, |f.slot|)
  }

  function StateOf(f: Fetch): State { State(f.download, Some(IdentityOf(f)), Some(|f.download|)) }

  function OldStateOf(f: Fetch): State { State(f.download, None, Some(|f.download|)) }

  /** What the slot must hold for the label `sha`. */
  datatype Expected = Expected(sha: Digest, slotSha: Digest, slotSize: Option<nat>, legacy: bool)

  function ExpectedOf(state: State): Expected {
    if state.slot.Some? then Expected(state.sha, state.slot.value.sha, Some(state.slot.value.size), false)
    else Expected(state.sha, state.sha, state.size, true)
  }

  function ExpectedUpload(sha: Digest): Expected { Expected(sha, sha, None, false) }

  datatype Reason = Skipped | SnapshotFailed | SlotChanged | ArchiveChanged | ArchiveUnverified

  datatype Result = Yielded(bytes: Text, sha: Digest) | Refused(reason: Reason)

  /** `_verify`: the size, then the digest of what was linked. */
  function Verify(bytes: Text, e: Expected): Result {
    if e.slotSize.Some? && |bytes| != e.slotSize.value
    then Refused(if e.legacy then ArchiveUnverified else ArchiveChanged)
    else if bytes == e.slotSha then Yielded(bytes, e.sha)
    else Refused(ArchiveChanged)
  }

  // ----- the processes

  /** A snapshot that has opened the slot, read what it must hold, linked it,
      or ended. */
  datatype Reader =
    | Opened(fd: Inode)
    | Told(fd: Inode, e: Expected)
    | Linked(fd: Inode, e: Expected, file: Inode)
    | Ended(r: Result)

  /** Files are replaced, never written in place; a file that is open or
      linked keeps its inode. */
  datatype World = World(
    files: map<Inode, Text>, slot: Option<Inode>, state: Option<State>, fetches: set<Fetch>, readers: map<nat, Reader>)

  datatype Event =
    | Stores(f: Fetch, inode: Inode)
    | Saves(f: Fetch, before: bool)
    | Uploads(bytes: Text, inode: Inode)
    | Forgets
    | Removes
    | Opens(id: nat)
    | Reads(id: nat, upload: Option<Digest>)
    | Links(id: nat, fails: bool)
    | Verifies(id: nat, fails: bool)

  /** What a snapshot is told now: of the upload named to it, or by the state. */
  function ExpectedNow(w: World, upload: Option<Digest>): Option<Expected> {
    if upload.Some? then Some(ExpectedUpload(upload.value))
    else if w.state.Some? then Some(ExpectedOf(w.state.value)) else None
  }

  predicate Enabled(w: World, e: Event) {
    match e
    case Stores(_, inode) => inode !in w.files
    case Saves(f, _) => f in w.fetches
    case Uploads(_, inode) => inode !in w.files
    case Forgets => true
    case Removes => true
    case Opens(id) => id !in w.readers
    case Reads(id, _) => id in w.readers && w.readers[id].Opened?
    case Links(id, _) => id in w.readers && w.readers[id].Told?
    case Verifies(id, _) => id in w.readers && w.readers[id].Linked? && w.readers[id].file in w.files
  }

  function Do(w: World, e: Event): World
    requires Enabled(w, e)
  {
    match e
    case Stores(f, inode) =>
      w.(files := w.files[inode := f.slot], slot := Some(inode), fetches := w.fetches + {f})
    case Saves(f, before) => w.(state := Some(if before then OldStateOf(f) else StateOf(f)))
    case Uploads(bytes, inode) => w.(files := w.files[inode := bytes], slot := Some(inode))
    case Forgets => w.(state := None)
    case Removes => w.(slot := None)
    case Opens(id) =>
      w.(readers := w.readers[id := if w.slot.None? then Ended(Refused(Skipped)) else Opened(w.slot.value)])
    case Reads(id, upload) =>
      var fd, e := w.readers[id].fd, ExpectedNow(w, upload);
      w.(readers := w.readers[id := if e.None? then Ended(Refused(Skipped)) else Told(fd, e.value)])
    case Links(id, fails) =>
      var r := w.readers[id];
      w.(readers := w.readers[id :=
        if fails || w.slot.None? then Ended(Refused(SnapshotFailed))
        else if w.slot.value == r.fd then Linked(r.fd, r.e, w.slot.value)
        else Ended(Refused(SlotChanged))])
    case Verifies(id, fails) =>
      var r := w.readers[id];
      w.(readers := w.readers[id := Ended(if fails then Refused(SnapshotFailed) else Verify(w.files[r.file], r.e))])
  }

  function Play(w: World, events: seq<Event>): World
    decreases |events|
  {
    if events == [] then w else Play(if Enabled(w, events[0]) then Do(w, events[0]) else w, events[1..])
  }

  const START: World := World(map[], None, None, {}, map[])

  // ----- the label belongs to the file

  /** The pair is a version and its digest, or the file a download became and
      that download's digest. */
  ghost predicate OfOneFetch(fetches: set<Fetch>, bytes: Text, sha: Digest) {
    bytes == sha || exists f <- fetches :: f.download == sha && f.slot == bytes
  }

  ghost predicate Sound(fetches: set<Fetch>, e: Expected) { OfOneFetch(fetches, e.slotSha, e.sha) }

  ghost predicate ReaderSound(fetches: set<Fetch>, r: Reader) {
    match r
    case Opened(_) => true
    case Told(_, e) => Sound(fetches, e)
    case Linked(fd, e, file) => Sound(fetches, e) && fd == file
    case Ended(Yielded(bytes, sha)) => OfOneFetch(fetches, bytes, sha)
    case Ended(Refused(_)) => true
  }

  ghost predicate Invariant(w: World) {
    && (w.state.Some? ==> Sound(w.fetches, ExpectedOf(w.state.value)))
    && forall id <- w.readers :: ReaderSound(w.fetches, w.readers[id])
  }

  lemma {:induction false} MoreFetches(a: set<Fetch>, b: set<Fetch>, r: Reader)
    requires a <= b && ReaderSound(a, r)
    ensures ReaderSound(b, r)
  {
  }

  lemma {:induction false} StepKeeps(w: World, e: Event)
    requires Invariant(w) && Enabled(w, e)
    ensures Invariant(Do(w, e))
  {
    if e.Stores? {
      forall id | id in w.readers ensures ReaderSound(w.fetches + {e.f}, w.readers[id]) {
        MoreFetches(w.fetches, w.fetches + {e.f}, w.readers[id]);
      }
    }
  }

  lemma {:induction false} PlayKeeps(w: World, events: seq<Event>)
    requires Invariant(w)
    ensures Invariant(Play(w, events))
    decreases |events|
  {
    if events != [] {
      if Enabled(w, events[0]) { StepKeeps(w, events[0]); }
      PlayKeeps(if Enabled(w, events[0]) then Do(w, events[0]) else w, events[1..]);
    }
  }

  /** In every interleaving, what a snapshot yields is labelled with the
      version of the very bytes it yields. The digest alone sees to that;
      `AtOnce` is what the open file and the link are compared for. */
  lemma {:induction false} LabelledRight(events: seq<Event>, id: nat)
    ensures var w := Play(START, events);
      id in w.readers && w.readers[id].Ended? && w.readers[id].r.Yielded? ==>
        var r := w.readers[id].r;
        r.bytes == r.sha || exists f <- w.fetches :: f.download == r.sha && f.slot == r.bytes
  {
    PlayKeeps(START, events);
  }

  // ----- when a snapshot is yielded

  /** The whole snapshot with nothing in between. */
  function Quiet(id: nat, upload: Option<Digest>): seq<Event> {
    [Opens(id), Reads(id, upload), Links(id, false), Verifies(id, false)]
  }

  lemma {:induction false} PlayFour(w: World, a: Event, b: Event, c: Event, d: Event)
    requires Enabled(w, a) && Enabled(Do(w, a), b) && Enabled(Do(Do(w, a), b), c) && Enabled(Do(Do(Do(w, a), b), c), d)
    ensures Play(w, [a, b, c, d]) == Do(Do(Do(Do(w, a), b), c), d)
  {
    var events := [a, b, c, d];
    assert events[1..] == [b, c, d] && events[1..][1..] == [c, d] && events[1..][1..][1..] == [d];
    assert Play(Do(w, a), [b, c, d]) == Play(Do(Do(w, a), b), [c, d]);
    assert Play(Do(Do(Do(w, a), b), c), [d]) == Do(Do(Do(Do(w, a), b), c), d);
  }

  lemma {:induction false} QuietSnapshot(w: World, id: nat, inode: Inode, upload: Option<Digest>, e: Expected)
    requires id !in w.readers && w.slot == Some(inode) && inode in w.files && ExpectedNow(w, upload) == Some(e)
    ensures var end := Play(w, Quiet(id, upload));
      id in end.readers && end.readers[id] == Ended(Verify(w.files[inode], e))
  {
    PlayFour(w, Opens(id), Reads(id, upload), Links(id, false), Verifies(id, false));
  }

  // ----- every snapshot could have been taken at one moment

  lemma {:induction false} PlayLast(w: World, events: seq<Event>, e: Event)
    ensures var before := Play(w, events);
      Play(w, events + [e]) == if Enabled(before, e) then Do(before, e) else before
    decreases |events|
  {
    var all := events + [e];
    if events == [] {
      assert all == [e] && all[1..] == [];
    } else {
      assert all[0] == events[0] && all[1..] == events[1..] + [e];
      PlayLast(if Enabled(w, events[0]) then Do(w, events[0]) else w, events[1..], e);
    }
  }

  /** After `k` events the slot held that file and this was to be expected. */
  ghost predicate Moment(events: seq<Event>, k: nat, fd: Inode, bytes: Text, upload: Option<Digest>, e: Expected) {
    k <= |events|
    && var w := Play(START, events[..k]);
      w.slot == Some(fd) && fd in w.files && w.files[fd] == bytes && ExpectedNow(w, upload) == Some(e)
  }

  ghost predicate Together(events: seq<Event>, fd: Inode, bytes: Text, e: Expected) {
    exists k: nat, upload :: Moment(events, k, fd, bytes, upload, e)
  }

  lemma {:induction false} TogetherStays(events: seq<Event>, x: Event, fd: Inode, bytes: Text, e: Expected)
    requires Together(events, fd, bytes, e)
    ensures Together(events + [x], fd, bytes, e)
  {
    var k: nat, upload :| Moment(events, k, fd, bytes, upload, e);
    assert (events + [x])[..k] == events[..k];
    assert Moment(events + [x], k, fd, bytes, upload, e);
  }

  ghost predicate YieldedTogether(events: seq<Event>, bytes: Text, sha: Digest) {
    exists fd, e :: Together(events, fd, bytes, e) && Verify(bytes, e) == Yielded(bytes, sha)
  }

  /** An open file that has left the slot never comes back to it. */
  ghost predicate ReaderTogether(events: seq<Event>, w: World, r: Reader) {
    match r
    case Opened(fd) => fd in w.files
    case Told(fd, e) => fd in w.files && (w.slot == Some(fd) ==> Together(events, fd, w.files[fd], e))
    case Linked(fd, e, file) => fd == file && fd in w.files && Together(events, fd, w.files[fd], e)
    case Ended(Yielded(bytes, sha)) => YieldedTogether(events, bytes, sha)
    case Ended(Refused(_)) => true
  }

  ghost predicate AllTogether(events: seq<Event>, w: World) {
    (w.slot.Some? ==> w.slot.value in w.files) && forall id <- w.readers :: ReaderTogether(events, w, w.readers[id])
  }

  /** Files stay, and the slot keeps its file or takes a new one. */
  ghost predicate Onward(w: World, after: World) {
    && (forall f <- w.files :: f in after.files && after.files[f] == w.files[f])
    && (after.slot == w.slot || after.slot.None? || after.slot.value !in w.files)
  }

  lemma {:induction false} OtherReader(events: seq<Event>, x: Event, w: World, after: World, r: Reader)
    requires ReaderTogether(events, w, r) && Onward(w, after)
    ensures ReaderTogether(events + [x], after, r)
  {
    hide Together;
    match r
    case Opened(_) =>
    case Told(fd, e) =>
      if after.slot == Some(fd) { TogetherStays(events, x, fd, w.files[fd], e); }
    case Linked(fd, e, _) =>
      TogetherStays(events, x, fd, w.files[fd], e);
    case Ended(Refused(_)) =>
    case Ended(Yielded(bytes, sha)) =>
      var fd, e :| Together(events, fd, bytes, e) && Verify(bytes, e) == Yielded(bytes, sha);
      TogetherStays(events, x, fd, bytes, e);
  }

  /** The reader an event moves. */
  function Mover(e: Event): Option<nat> {
    if e.Opens? || e.Reads? || e.Links? || e.Verifies? then Some(e.id) else None
  }

  lemma {:induction false} OwnReader(events: seq<Event>, x: Event, w: World, id: nat)
    requires w == Play(START, events) && AllTogether(events, w) && Enabled(w, x) && Mover(x) == Some(id)
    ensures id in Do(w, x).readers && ReaderTogether(events + [x], Do(w, x), Do(w, x).readers[id])
  {
    hide Together, Play, Verify;
    var after, all := Do(w, x), events + [x];
    if x.Reads? {
      var r := after.readers[id];
      if r.Told? && w.slot == Some(r.fd) {
        assert events[..|events|] == events;
        TogetherNow(events, w, r.fd, x.upload, r.e);
        TogetherStays(events, x, r.fd, w.files[r.fd], r.e);
      }
    } else if x.Links? {
      var r := w.readers[id];
      if after.readers[id].Linked? { TogetherStays(events, x, r.fd, w.files[r.fd], r.e); }
    } else if x.Verifies? {
      var r := w.readers[id];
      assert ReaderTogether(events, w, r);
      TogetherStays(events, x, r.fd, w.files[r.fd], r.e);
      VerifyYields(w.files[r.fd], r.e);
    }
  }

  lemma {:induction false} VerifyYields(bytes: Text, e: Expected)
    ensures Verify(bytes, e).Yielded? ==> Verify(bytes, e).bytes == bytes
  {
  }

  lemma {:induction false} TogetherNow(events: seq<Event>, w: World, fd: Inode, upload: Option<Digest>, e: Expected)
    requires w == Play(START, events) && w.slot == Some(fd) && fd in w.files && ExpectedNow(w, upload) == Some(e)
    ensures Together(events, fd, w.files[fd], e)
  {
    assert events[..|events|] == events;
    assert Moment(events, |events|, fd, w.files[fd], upload, e);
  }

  lemma {:induction false} StepOnward(w: World, x: Event)
    requires Enabled(w, x) && (w.slot.Some? ==> w.slot.value in w.files)
    ensures var after := Do(w, x);
      && Onward(w, after) && (after.slot.Some? ==> after.slot.value in after.files)
      && forall id <- after.readers :: Mover(x) != Some(id) ==> id in w.readers && after.readers[id] == w.readers[id]
  {
  }

  lemma {:induction false} StepTogether(events: seq<Event>, x: Event, w: World)
    requires w == Play(START, events) && AllTogether(events, w)
    ensures AllTogether(events + [x], Play(START, events + [x]))
  {
    hide Play, Do, Enabled, ReaderTogether, Onward;
    PlayLast(START, events, x);
    var after := Play(START, events + [x]);
    if Enabled(w, x) { StepOnward(w, x); } else { StaysOnward(w); }
    forall id | id in after.readers ensures ReaderTogether(events + [x], after, after.readers[id]) {
      if Enabled(w, x) && Mover(x) == Some(id) {
        OwnReader(events, x, w, id);
      } else {
        OtherReader(events, x, w, after, w.readers[id]);
      }
    }
  }

  lemma {:induction false} StaysOnward(w: World)
    ensures Onward(w, w)
  {
  }

  lemma {:induction false} RunTogether(events: seq<Event>)
    ensures AllTogether(events, Play(START, events))
    decreases |events|
  {
    if events != [] {
      var n := |events| - 1;
      RunTogether(events[..n]);
      StepTogether(events[..n], events[n], Play(START, events[..n]));
      assert events == events[..n] + [events[n]];
    }
  }

  lemma {:induction false} UnusedId(ids: set<nat>) returns (free: nat)
    ensures forall id <- ids :: id < free
    decreases |ids|
  {
    free := 0;
    if ids != {} {
      var id :| id in ids;
      var rest := UnusedId(ids - {id});
      free := if rest > id then rest else id + 1;
      assert forall x <- ids :: x == id || x in ids - {id};
    }
  }

  /** An uninterrupted snapshot after `k` of the events ends with `r`. */
  ghost predicate QuietAfter(events: seq<Event>, k: nat, id: nat, upload: Option<Digest>, r: Result) {
    k <= |events|
    && var w := Play(START, events[..k]);
      id !in w.readers && id in Play(w, Quiet(id, upload)).readers && Play(w, Quiet(id, upload)).readers[id] == Ended(r)
  }

  /** Whatever happens meanwhile, what a snapshot yields is what one taken
      undisturbed at some moment of the run would have yielded. */
  lemma {:induction false} AtOnce(events: seq<Event>, id: nat)
    ensures var w := Play(START, events);
      id in w.readers && w.readers[id].Ended? && w.readers[id].r.Yielded? ==>
        exists k: nat, free: nat, upload :: QuietAfter(events, k, free, upload, w.readers[id].r)
  {
    hide Play, Verify;
    var w := Play(START, events);
    RunTogether(events);
    if id in w.readers && w.readers[id].Ended? && w.readers[id].r.Yielded? {
      var r := w.readers[id].r;
      assert ReaderTogether(events, w, w.readers[id]);
      var fd, e :| Together(events, fd, r.bytes, e) && Verify(r.bytes, e) == Yielded(r.bytes, r.sha);
      var k: nat, upload :| Moment(events, k, fd, r.bytes, upload, e);
      var past := Play(START, events[..k]);
      var free := UnusedId(past.readers.Keys);
      QuietSnapshot(past, free, fd, upload, e);
      assert QuietAfter(events, k, free, upload, r);
    }
  }

  // ----- which files are yielded

  /** How an undisturbed snapshot ends. */
  ghost predicate EndsWith(w: World, id: nat, r: Result) {
    var end := Play(w, Quiet(id, None));
    id in end.readers && end.readers[id] == Ended(r)
  }

  /** A fetch puts its file in the slot and saves its state. */
  ghost function AfterFetch(w: World, f: Fetch, inode: Inode, before: bool): World
    requires inode !in w.files
  {
    Do(Do(w, Stores(f, inode)), Saves(f, before))
  }

  /** A fetched file is yielded with its download's label, except when it was
      re-wrapped to the very size of its download. */
  lemma {:induction false} QuietFetch(w: World, f: Fetch, inode: Inode, id: nat)
    requires inode !in w.files && id !in w.readers
    ensures EndsWith(AfterFetch(w, f, inode, false), id,
      if f.slot == f.download || |f.slot| != |f.download| then Yielded(f.slot, f.download) else Refused(ArchiveChanged))
  {
    hide Play;
    QuietSnapshot(AfterFetch(w, f, inode, false), id, inode, None, ExpectedOf(StateOf(f)));
  }

  /** With an old state only a file that was not re-wrapped can be checked. */
  lemma {:induction false} QuietOldFetch(w: World, f: Fetch, inode: Inode, id: nat)
    requires inode !in w.files && id !in w.readers
    ensures EndsWith(AfterFetch(w, f, inode, true), id,
      if f.slot == f.download then Yielded(f.slot, f.download)
      else if |f.slot| != |f.download| then Refused(ArchiveUnverified) else Refused(ArchiveChanged))
  {
    hide Play;
    QuietSnapshot(AfterFetch(w, f, inode, true), id, inode, None, ExpectedOf(OldStateOf(f)));
  }

  /** An upload put in the slot is yielded under its own label, and no other
      file is. */
  lemma {:induction false} QuietUpload(w: World, bytes: Text, named: Digest, inode: Inode, id: nat)
    requires inode !in w.files && id !in w.readers
    ensures var end := Play(Do(w, Uploads(bytes, inode)), Quiet(id, Some(named)));
      && id in end.readers
      && end.readers[id] == Ended(if bytes == named then Yielded(bytes, named) else Refused(ArchiveChanged))
  {
    hide Play;
    QuietSnapshot(Do(w, Uploads(bytes, inode)), id, inode, Some(named), ExpectedUpload(named));
  }

  /** Without a file, or without a state, there is no snapshot. */
  lemma {:induction false} QuietNothing(w: World, id: nat)
    requires id !in w.readers
    ensures w.slot.None? ==>
      var end := Do(w, Opens(id)); end.readers[id] == Ended(Refused(Skipped))
    ensures w.slot.Some? && w.state.None? ==>
      var end := Do(Do(w, Opens(id)), Reads(id, None)); end.readers[id] == Ended(Refused(Skipped))
  {
  }

  /** A file replaced since it was opened is not used; nor is one removed. */
  lemma {:induction false} ReplacedIsRefused(w: World, id: nat, fd: Inode, e: Expected)
    requires id in w.readers && w.readers[id] == Told(fd, e) && w.slot != Some(fd)
    ensures Do(w, Links(id, false)).readers[id] ==
      Ended(Refused(if w.slot.None? then SnapshotFailed else SlotChanged))
  {
  }

  /** A new file dispatched before its state is saved is yielded with the old
      label when it is the very file the old state describes, else refused. */
  lemma {:induction false} Between(w: World, f: Fetch, next: Fetch, inode: Inode, newer: Inode, id: nat)
    requires inode !in w.files && newer !in w.files && newer != inode && id !in w.readers
    ensures EndsWith(Do(AfterFetch(w, f, inode, false), Stores(next, newer)), id,
      if next.slot == IdentityOf(f).sha then Yielded(next.slot, f.download) else Refused(ArchiveChanged))
  {
    hide Play;
    QuietSnapshot(
      Do(AfterFetch(w, f, inode, false), Stores(next, newer)), id, newer, None, ExpectedOf(StateOf(f)));
  }
}
