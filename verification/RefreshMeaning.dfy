/** What each statement on the refresh records changes, said of the rows
    themselves (app/refresh_progress.py): the lease of 300 seconds, the 24
    hours of a resume, the scopes. */
module RefreshMeaning {
  import opened Bytes
  import opened Refresh

  // ----- scopes

  /** A feed id: a capital letter, then capitals, digits, `_` and `-`, two to
      sixteen characters in all. */
  ghost predicate IsFeedId(scope: Scope) {
    && 2 <= |scope| <= 16 && 'A' <= scope[0] <= 'Z'
    && forall c <- scope :: 'A' <= c <= 'Z' || '0' <= c <= '9' || c == '_' || c == '-'
  }

  lemma FeedIdIs(scope: Scope)
    ensures IsProviderScope(scope) <==> IsFeedId(scope)
  {
    if IsFeedId(scope) {
      forall i | 0 <= i < |scope| ensures FeedIdByte(scope[i]) { assert scope[i] in scope; }
    }
  }

  /** A refresh of one scope is refused while one of the other runs: the same
      scope, or the whole session's against a single provider's. */
  ghost predicate Clash(scope: Scope, other: Scope) {
    || scope == other
    || (scope == "providers" && other != "osm")
    || (IsFeedId(scope) && other == "providers")
  }

  // ----- expiry and claim

  /** A running record has kept its lease. */
  ghost predicate IsAlive(rows: Table, sid: Session, other: Scope, stamp: int) {
    (sid, other) in rows && rows[(sid, other)].state == Running && rows[(sid, other)].heartbeat >= stamp - 300
  }

  /** Exactly the running records of the session without a heartbeat for 300
      seconds are interrupted, as of their last heartbeat. */
  lemma ExpireIs(rows: Table, sid: Session, stamp: int, k: Key)
    requires k in rows
    ensures Expire(rows, sid, stamp).Keys == rows.Keys
    ensures Expire(rows, sid, stamp)[k] ==
      if k.0 == sid && rows[k].state == Running && rows[k].heartbeat < stamp - 300
      then rows[k].(state := Interrupted, finished := Some(rows[k].heartbeat)) else rows[k]
  {
  }

  lemma AliveIs(rows: Table, sid: Session, other: Scope, stamp: int)
    ensures IsRunning(Expire(rows, sid, stamp), sid, other) <==> IsAlive(rows, sid, other, stamp)
  {
  }

  /** A claim is taken exactly when no living record of its session clashes. */
  lemma ClaimedWhen(rows: Table, sid: Session, scope: Scope, run: RunId, stamp: int, total: nat)
    ensures Claim(rows, sid, scope, run, stamp, total).Claimed? <==>
      forall other :: IsAlive(rows, sid, other, stamp) ==> !Clash(scope, other)
  {
    hide IsProviderScope, IsFeedId, Expire;
    var view := Expire(rows, sid, stamp);
    FeedIdIs(scope);
    assert IsFeedId(scope) ==> scope != "providers" && scope != "osm" by { ScopesDiffer(scope); }
    forall other ensures IsRunning(view, sid, other) <==> IsAlive(rows, sid, other, stamp) {
      AliveIs(rows, sid, other, stamp);
    }
    forall other ensures IsAlive(rows, sid, other, stamp) && Clash(scope, other) <==>
      IsBlocker(view, sid, scope, other) || (other == scope && IsRunning(view, sid, scope))
    {
    }
  }

  /** The record taken is a new one, and names the interrupted refresh it
      replaces; of the others only the expired ones have changed. */
  lemma ClaimedIs(rows: Table, sid: Session, scope: Scope, run: RunId, stamp: int, total: nat)
    requires Claim(rows, sid, scope, run, stamp, total).Claimed?
    ensures var after, k := Claim(rows, sid, scope, run, stamp, total).rows, (sid, scope);
      && k in after && after == Expire(rows, sid, stamp)[k := after[k]]
      && after[k].run == run && after[k].state == Running && after[k].started == stamp && after[k].heartbeat == stamp
      && after[k].finished == None && after[k].extract == NoExtract
      && after[k].detail.total == total && after[k].detail.done == 0 && after[k].detail.fetched == 0
      && after[k].detail.same == 0 && after[k].detail.failed == 0 && after[k].detail.notReached == 0
      && after[k].detail.failedKeys == []
      && after[k].detail.previous ==
           (if k in rows
             && (rows[k].state == Interrupted || (rows[k].state == Running && rows[k].heartbeat < stamp - 300))
            then Some(rows[k].started) else None)
  {
    AliveIs(rows, sid, scope, stamp);
  }

  /** A refused claim names a living record that clashes, the oldest of the
      other scopes if there is one. */
  lemma RefusedIs(rows: Table, sid: Session, scope: Scope, run: RunId, stamp: int, total: nat)
    requires Claim(rows, sid, scope, run, stamp, total).RefusedBy?
    ensures var r := Claim(rows, sid, scope, run, stamp, total).refusal;
      && r.requested == scope && IsAlive(rows, sid, r.scope, stamp) && Clash(scope, r.scope)
      && r.started == rows[(sid, r.scope)].started
      && forall other :: IsAlive(rows, sid, other, stamp) && Clash(scope, other) && other != scope ==>
           r.scope != scope && r.started <= rows[(sid, other)].started
  {
    hide IsProviderScope, IsFeedId;
    FeedIdIs(scope);
    assert IsFeedId(scope) ==> scope != "providers" && scope != "osm" by { ScopesDiffer(scope); }
    var view := Expire(rows, sid, stamp);
    forall other | IsAlive(rows, sid, other, stamp) && Clash(scope, other) && other != scope
      ensures IsBlocker(view, sid, scope, other) && view[(sid, other)].started == rows[(sid, other)].started
    {
      AliveIs(rows, sid, other, stamp);
    }
    var r := Claim(rows, sid, scope, run, stamp, total).refusal;
    AliveIs(rows, sid, r.scope, stamp);
    assert Expire(rows, sid, stamp)[(sid, r.scope)].started == rows[(sid, r.scope)].started;
  }

  // ----- the writes of one refresh

  /** A running record of this run takes the counts and a heartbeat. */
  lemma ProgressIs(rows: Table, k: Key, run: RunId, stamp: int, detail: Detail)
    ensures WriteProgress(rows, k, run, stamp, detail) ==
      if k in rows && rows[k].run == run && rows[k].state == Running
      then rows[k := rows[k].(detail := detail, heartbeat := stamp)] else rows
    ensures Beat(rows, k, run, stamp) ==
      if k in rows && rows[k].run == run && rows[k].state == Running
      then rows[k := rows[k].(heartbeat := stamp)] else rows
  {
  }

  /** And its end; without a follow-up the record keeps its extract. */
  lemma FinishIs(
    rows: Table, k: Key, run: RunId, end: RowState, stamp: int, detail: Detail, extract: Option<Extract>)
    ensures Finish(rows, k, run, end, stamp, detail, extract) ==
      if k in rows && rows[k].run == run && rows[k].state == Running
      then rows[k := Row(
        run, end, rows[k].started, stamp, Some(stamp), detail,
        match extract case Some(e) => e case None => rows[k].extract)]
      else rows
  {
  }

  // ----- the follow-up

  lemma FollowUpIs(rows: Table, k: Key, run: RunId, extract: Extract, now: int)
    ensures WriteFollowUp(rows, k, run, extract) ==
      if k in rows && rows[k].run == run && rows[k].state == Finished
      then rows[k := rows[k].(extract := extract)] else rows
    ensures TouchQueued(rows, k, run, now) ==
      if k in rows && rows[k].run == run && rows[k].state == Finished && rows[k].extract.Queued?
      then rows[k := rows[k].(extract := Queued(now, rows[k].extract.resumed))] else rows
  {
  }

  /** At a start the follow-ups still queued or running of the provider
      refreshes that finished in the last 24 hours are queued again, and no
      others. */
  lemma ResumedIs(rows: Table, stamp: int, now: int, k: Key)
    requires k in rows
    ensures ResumePasses(rows, stamp, now).Keys == rows.Keys
    ensures ResumePasses(rows, stamp, now)[k] ==
      if rows[k].state == Finished && k.1 != "osm" && rows[k].finished.Some?
         && rows[k].finished.value > stamp - 86400
         && match rows[k].extract
            case Queued(_, _) => true
            case Pass(running, _, _) => running
            case _ => false
      then rows[k].(extract := Queued(now, true)) else rows[k]
  {
  }

  /** The follow-up a finished refresh queues is queued again after a restart
      within 24 hours, unless its record was claimed anew. */
  lemma QueuedIsResumed(
    rows: Table, k: Key, run: RunId, end: int, detail: Detail, queued: int, stamp: int, now: int)
    requires k in rows && rows[k].run == run && rows[k].state == Running && k.1 != "osm"
    requires stamp < end + 86400
    ensures var after := ResumePasses(
        Finish(rows, k, run, Finished, end, detail, Some(Queued(queued, false))), stamp, now);
      && k in after && after[k].run == run && after[k].state == Finished && after[k].finished == Some(end)
      && after[k].extract == Queued(now, true)
  {
  }
}
