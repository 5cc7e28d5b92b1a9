/** The refresh records (app/refresh_progress.py): one row per session and
    scope, claimed, beaten, written, ended and expired by any number of
    processes. Each function below is one SQL statement on the table. */
module Refresh {
  import opened Bytes

  type Session = string
  type Scope = string
  type RunId = nat

  const PROVIDERS: Scope := "providers"
  const OSM: Scope := "osm"
  const LEASE_SECONDS := 300
  const RESUME_SECONDS := 24 * 3600

  datatype RowState = Running | Finished | Failed | Interrupted

  /** The station-module follow-up of a refresh. */
  datatype Extract =
    | NoExtract
    | Off
    | Queued(updated: int, resumed: bool)
    | Pass(running: bool, updated: int, counts: seq<nat>)

  /** The counts of a refresh; `previous` is the start of the interrupted
      refresh it replaced. */
  datatype Detail = Detail(
    total: nat, done: nat, fetched: nat, same: nat, failed: nat, notReached: nat, failedKeys: seq<string>,
    previous: Option<int>)

  function InitialDetail(total: nat, previous: Option<int>): Detail {
    Detail(total, 0, 0, 0, 0, 0, [], previous)
  }

  datatype Row = Row(
    run: RunId, state: RowState, started: int, heartbeat: int, finished: Option<int>, detail: Detail, extract: Extract)

  type Key = (Session, Scope)

  type Table = map<Key, Row>

  predicate FeedIdByte(c: char) {
    'A' <= c <= 'Z' || '0' <= c <= '9' || c == '_' || c == '-'
  }

  /** The scope of a single provider's refresh: a feed id. */
  predicate IsProviderScope(scope: Scope) {
    2 <= |scope| <= 16 && 'A' <= scope[0] <= 'Z' && forall i :: 0 <= i < |scope| ==> FeedIdByte(scope[i])
  }

  predicate ValidScope(scope: Scope) {
    scope == PROVIDERS || scope == OSM || IsProviderScope(scope)
  }

  lemma ScopesDiffer(scope: Scope)
    ensures IsProviderScope(scope) ==> scope != PROVIDERS && scope != OSM
  {
    assert PROVIDERS[0] == 'p' && OSM[0] == 'o';
  }

  predicate IsRunning(rows: Table, sid: Session, scope: Scope) {
    (sid, scope) in rows && rows[(sid, scope)].state == Running
  }

  // ----- expiry

  predicate Stale(row: Row, stamp: int) {
    row.state == Running && row.heartbeat < stamp - LEASE_SECONDS
  }

  function Expired(row: Row): Row {
    row.(state := Interrupted, finished := Some(row.heartbeat))
  }

  /** `_expire`: every stale running row of the session, in any scope. */
  function Expire(rows: Table, sid: Session, stamp: int): Table {
    map k <- rows :: if k.0 == sid && Stale(rows[k], stamp) then Expired(rows[k]) else rows[k]
  }

  ghost predicate RunningFor(rows: Table, sid: Session, stamp: int) {
    exists k :: k in rows && k.0 == sid && rows[k].state == Running && rows[k].heartbeat >= stamp - LEASE_SECONDS
  }

  /** The worker's condition holds exactly when some running row of the
      session would survive the expiry. */
  lemma RunningForIsWhatSurvives(rows: Table, sid: Session, stamp: int)
    ensures RunningFor(rows, sid, stamp) <==> exists scope :: IsRunning(Expire(rows, sid, stamp), sid, scope)
  {
    var after := Expire(rows, sid, stamp);
    if RunningFor(rows, sid, stamp) {
      var k :| k in rows && k.0 == sid && rows[k].state == Running && rows[k].heartbeat >= stamp - LEASE_SECONDS;
      assert k == (sid, k.1) && IsRunning(after, sid, k.1);
    }
    if exists scope :: IsRunning(after, sid, scope) {
      var scope :| IsRunning(after, sid, scope);
      assert (sid, scope) in rows && rows[(sid, scope)] == after[(sid, scope)];
    }
  }

  // ----- the claim

  /** A running refresh of `other` forbids one of `scope`. */
  predicate Forbids(other: Scope, scope: Scope) {
    if scope == PROVIDERS then other != PROVIDERS && other != OSM
    else IsProviderScope(scope) && other == PROVIDERS
  }

  predicate IsBlocker(rows: Table, sid: Session, scope: Scope, other: Scope) {
    IsRunning(rows, sid, other) && Forbids(other, scope)
  }

  ghost predicate Blocked(rows: Table, sid: Session, scope: Scope) {
    exists other :: IsBlocker(rows, sid, scope, other)
  }

  /** The oldest running record that forbids `scope`. */
  ghost predicate IsOldestBlocker(rows: Table, sid: Session, scope: Scope, other: Scope) {
    && IsBlocker(rows, sid, scope, other)
    && forall o :: IsBlocker(rows, sid, scope, o) ==> rows[(sid, other)].started <= rows[(sid, o)].started
  }

  ghost function Blockers(rows: Table, sid: Session, scope: Scope): set<Scope> {
    set k | k in rows && k.0 == sid && IsBlocker(rows, sid, scope, k.1) :: k.1
  }

  lemma {:induction false} OldestExists(rows: Table, sid: Session, among: set<Scope>)
    requires among != {} && forall o <- among :: (sid, o) in rows
    ensures exists other :: other in among && (sid, other) in rows && Oldest(rows, sid, among, other)
    decreases |among|
  {
    var o :| o in among;
    var rest := among - {o};
    assert among == rest + {o};
    if rest == {} {
      assert Oldest(rows, sid, among, o);
    } else {
      OldestExists(rows, sid, rest);
      var best :| best in rest && (sid, best) in rows && Oldest(rows, sid, rest, best);
      var least := if rows[(sid, o)].started < rows[(sid, best)].started then o else best;
      assert Oldest(rows, sid, among, least);
    }
  }

  ghost predicate Oldest(rows: Table, sid: Session, among: set<Scope>, other: Scope)
    requires (sid, other) in rows && forall o <- among :: (sid, o) in rows
  {
    forall o <- among :: rows[(sid, other)].started <= rows[(sid, o)].started
  }

  lemma OldestBlockerExists(rows: Table, sid: Session, scope: Scope)
    requires Blocked(rows, sid, scope)
    ensures exists other :: IsOldestBlocker(rows, sid, scope, other)
  {
    var among := Blockers(rows, sid, scope);
    forall o ensures o in among <==> IsBlocker(rows, sid, scope, o) {
      if IsBlocker(rows, sid, scope, o) { assert (sid, o) in rows && (sid, o).1 == o; }
    }
    OldestExists(rows, sid, among);
    var other :| other in among && (sid, other) in rows && Oldest(rows, sid, among, other);
    assert IsOldestBlocker(rows, sid, scope, other);
  }

  ghost function OldestBlocker(rows: Table, sid: Session, scope: Scope): (r: Scope)
    requires Blocked(rows, sid, scope)
    ensures IsOldestBlocker(rows, sid, scope, r)
  {
    OldestBlockerExists(rows, sid, scope);
    var other :| IsOldestBlocker(rows, sid, scope, other);
    other
  }

  /** The 409 of a refused refresh: the record that runs, and since when. */
  datatype Refusal = Refusal(scope: Scope, started: int, requested: Scope)

  function NewRow(run: RunId, stamp: int, detail: Detail): Row {
    Row(run, Running, stamp, stamp, None, detail, NoExtract)
  }

  /** The row taken; a replaced interrupted refresh is named in it. */
  function Taken(rows: Table, k: Key, run: RunId, stamp: int, total: nat): Table {
    var previous := if k in rows && rows[k].state == Interrupted then Some(rows[k].started) else None;
    rows[k := NewRow(run, stamp, InitialDetail(total, previous))]
  }

  datatype ClaimResult = Claimed(rows: Table) | RefusedBy(refusal: Refusal)

  /** A claim alone in its session: expire, look for a record that forbids
      it, then take the row unless it runs. A refused claim changes nothing:
      its transaction is rolled back, expiry included. */
  ghost function Claim(rows: Table, sid: Session, scope: Scope, run: RunId, stamp: int, total: nat): ClaimResult {
    var view := Expire(rows, sid, stamp);
    if Blocked(view, sid, scope) then
      var other := OldestBlocker(view, sid, scope);
      RefusedBy(Refusal(other, view[(sid, other)].started, scope))
    else if IsRunning(view, sid, scope) then
      RefusedBy(Refusal(scope, rows[(sid, scope)].started, scope))
    else Claimed(Taken(view, (sid, scope), run, stamp, total))
  }

  /** `check_free`: the expiry is kept, the own record is looked at first. */
  ghost function CheckFree(rows: Table, sid: Session, scope: Scope, stamp: int): (Table, Option<Refusal>) {
    var view := Expire(rows, sid, stamp);
    if IsRunning(view, sid, scope) then (view, Some(Refusal(scope, view[(sid, scope)].started, scope)))
    else if Blocked(view, sid, scope) then
      var other := OldestBlocker(view, sid, scope);
      (view, Some(Refusal(other, view[(sid, other)].started, scope)))
    else (view, None)
  }

  /** The rule between records of one session. */
  ghost predicate Exclusive(rows: Table) {
    forall sid, scope :: IsRunning(rows, sid, PROVIDERS) && IsRunning(rows, sid, scope) ==>
      scope == PROVIDERS || scope == OSM
  }

  lemma ExpireKeepsExclusive(rows: Table, sid: Session, stamp: int)
    requires Exclusive(rows)
    ensures Exclusive(Expire(rows, sid, stamp))
  {
    var after := Expire(rows, sid, stamp);
    forall s, scope | IsRunning(after, s, PROVIDERS) && IsRunning(after, s, scope)
      ensures scope == PROVIDERS || scope == OSM
    {
      assert IsRunning(rows, s, PROVIDERS) && IsRunning(rows, s, scope);
    }
  }

  /** Looking at the own record first or last makes no difference. */
  lemma RunningIsNotBlocked(rows: Table, sid: Session, scope: Scope)
    requires Exclusive(rows)
    ensures IsRunning(rows, sid, scope) ==> !Blocked(rows, sid, scope)
  {
    forall other | IsBlocker(rows, sid, scope, other) ensures !IsRunning(rows, sid, scope) {
      ScopesDiffer(scope);
    }
  }

  /** `check_free` refuses exactly when a claim from that state would, and
      with the same words, although the two look in different orders. */
  lemma CheckFreeIsClaim(rows: Table, sid: Session, scope: Scope, run: RunId, stamp: int, total: nat)
    requires Exclusive(rows)
    ensures var claim := Claim(rows, sid, scope, run, stamp, total);
      CheckFree(rows, sid, scope, stamp).1 == if claim.Claimed? then None else Some(claim.refusal)
  {
    var view := Expire(rows, sid, stamp);
    ExpireKeepsExclusive(rows, sid, stamp);
    RunningIsNotBlocked(view, sid, scope);
  }

  // ----- the writes of a running refresh, fenced by its run id

  predicate Owns(rows: Table, k: Key, run: RunId) {
    k in rows && rows[k].run == run && rows[k].state == Running
  }

  function WriteProgress(rows: Table, k: Key, run: RunId, stamp: int, detail: Detail): Table {
    if Owns(rows, k, run) then rows[k := rows[k].(detail := detail, heartbeat := stamp)] else rows
  }

  function Beat(rows: Table, k: Key, run: RunId, stamp: int): Table {
    if Owns(rows, k, run) then rows[k := rows[k].(heartbeat := stamp)] else rows
  }

  /** `extract` is None for a refresh that leaves no follow-up. */
  function Finish(
    rows: Table, k: Key, run: RunId, end: RowState, stamp: int, detail: Detail, extract: Option<Extract>): Table
  {
    if Owns(rows, k, run) then
      rows[k := rows[k].(state := end, finished := Some(stamp), heartbeat := stamp, detail := detail,
                         extract := if extract.Some? then extract.value else rows[k].extract)]
    else rows
  }

  // ----- the follow-up, fenced by the run id and `finished`

  predicate Leaves(rows: Table, k: Key, run: RunId) {
    k in rows && rows[k].run == run && rows[k].state == Finished
  }

  function WriteFollowUp(rows: Table, k: Key, run: RunId, extract: Extract): Table {
    if Leaves(rows, k, run) then rows[k := rows[k].(extract := extract)] else rows
  }

  function TouchQueued(rows: Table, k: Key, run: RunId, now: int): Table {
    if Leaves(rows, k, run) && rows[k].extract.Queued?
    then rows[k := rows[k].(extract := Queued(now, rows[k].extract.resumed))] else rows
  }

  predicate ToResume(row: Row, scope: Scope, stamp: int) {
    && row.state == Finished && scope != OSM
    && (row.extract.Queued? || (row.extract.Pass? && row.extract.running))
    && row.finished.Some? && row.finished.value > stamp - RESUME_SECONDS
  }

  function ResumePasses(rows: Table, stamp: int, now: int): Table {
    map k <- rows :: if ToResume(rows[k], k.1, stamp) then rows[k].(extract := Queued(now, true)) else rows[k]
  }
}
