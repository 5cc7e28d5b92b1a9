/** The objects behind the refresh records (app/refresh_progress.py): the
    table with its claim, and the progress writer of one claimed refresh. */
module RefreshRecord {
  import opened Bytes
  import R = Refresh

  const FAILED_KEYS_MAX := 50

  /** `_blocker`: the oldest running record that forbids `scope`, if any. */
  method Blocker(rows: R.Table, sid: R.Session, scope: R.Scope) returns (found: Option<R.Scope>)
    ensures found.Some? ==>
      && R.IsBlocker(rows, sid, scope, found.value) && R.IsOldestBlocker(rows, sid, scope, found.value)
      && forall o :: R.IsBlocker(rows, sid, scope, o) ==> rows[(sid, found.value)].started <= rows[(sid, o)].started
    ensures found.None? ==> !R.Blocked(rows, sid, scope)
  {
    found := None;
    var left := rows.Keys;
    while left != {}
      invariant left <= rows.Keys
      invariant found.Some? ==> R.IsBlocker(rows, sid, scope, found.value)
      invariant forall o :: R.IsBlocker(rows, sid, scope, o) && (sid, o) !in left ==>
        found.Some? && rows[(sid, found.value)].started <= rows[(sid, o)].started
      decreases |left|
    {
      var k :| k in left;
      left := left - {k};
      if k.0 == sid && R.IsBlocker(rows, sid, scope, k.1)
         && (found.None? || rows[k].started < rows[(sid, found.value)].started) {
        found := Some(k.1);
      }
    }
  }

  class Records {
    var rows: R.Table

    constructor ()
      ensures rows == map[]
    {
      rows := map[];
    }

    /** A claim that nobody interrupts: refused with the record that runs, and
        then nothing is changed, or the row is this run's. */
    method Claim(
      sid: R.Session, scope: R.Scope, run: R.RunId, stamp: int, total: nat)
      returns (refused: Option<R.Refusal>)
      modifies this
      ensures refused.None? <==> R.Claim(old(rows), sid, scope, run, stamp, total).Claimed?
      ensures refused.None? ==> rows == R.Claim(old(rows), sid, scope, run, stamp, total).rows
      ensures refused.None? ==> R.Owns(rows, (sid, scope), run)
      ensures refused.Some? ==> rows == old(rows)
      ensures refused.Some? ==>
        && refused.value.requested == scope && R.IsRunning(rows, sid, refused.value.scope)
        && refused.value.started == rows[(sid, refused.value.scope)].started
        && (refused.value.scope == scope
          || R.IsOldestBlocker(R.Expire(rows, sid, stamp), sid, scope, refused.value.scope))
        && forall o :: R.IsBlocker(R.Expire(rows, sid, stamp), sid, scope, o) ==>
             refused.value.started <= rows[(sid, o)].started
    {
      var view := R.Expire(rows, sid, stamp);
      var blocker := Blocker(view, sid, scope);
      if blocker.Some? {
        refused := Some(R.Refusal(blocker.value, view[(sid, blocker.value)].started, scope));
      } else if R.IsRunning(view, sid, scope) {
        refused := Some(R.Refusal(scope, rows[(sid, scope)].started, scope));
      } else {
        rows := R.Taken(view, (sid, scope), run, stamp, total);
        refused := None;
      }
    }

    /** The same question without the claim; the expiry is kept. */
    method CheckFree(sid: R.Session, scope: R.Scope, stamp: int) returns (refused: Option<R.Refusal>)
      requires R.Exclusive(rows)
      modifies this
      ensures rows == R.Expire(old(rows), sid, stamp) && R.Exclusive(rows)
      ensures forall run, total :: refused.None? <==> R.Claim(old(rows), sid, scope, run, stamp, total).Claimed?
      ensures refused.Some? ==>
        && refused.value.requested == scope && R.IsRunning(rows, sid, refused.value.scope)
        && refused.value.started == rows[(sid, refused.value.scope)].started
        && (refused.value.scope == scope || R.IsOldestBlocker(rows, sid, scope, refused.value.scope))
        && forall o :: R.IsBlocker(rows, sid, scope, o) ==> refused.value.started <= rows[(sid, o)].started
    {
      R.ExpireKeepsExclusive(rows, sid, stamp);
      R.RunningIsNotBlocked(R.Expire(rows, sid, stamp), sid, scope);
      rows := R.Expire(rows, sid, stamp);
      if R.IsRunning(rows, sid, scope) {
        refused := Some(R.Refusal(scope, rows[(sid, scope)].started, scope));
      } else {
        var blocker := Blocker(rows, sid, scope);
        refused := if blocker.None? then None
          else Some(R.Refusal(blocker.value, rows[(sid, blocker.value)].started, scope));
      }
    }
  }

  datatype Outcome = Fetched | Same | Skipped

  /** The progress writer of one claimed refresh. */
  class RefreshRun {
    const db: Records
    const key: R.Key
    const run: R.RunId
    var detail: R.Detail
    var lost: bool
    var finishing: bool
    var followUp: bool

    /** Every task ended is counted in exactly one bucket; at most fifty
        failed labels are kept; a run that knows it lost its row has. */
    ghost predicate Valid()
      reads this, db
    {
      && detail.done == detail.fetched + detail.same + detail.failed
      && |detail.failedKeys| == Min(detail.failed, 50)
      && (lost ==> !R.Owns(db.rows, key, run))
    }

    /** The writer a claim hands out. */
    constructor (db: Records, key: R.Key, run: R.RunId, total: nat, previous: Option<int>)
      requires R.Owns(db.rows, key, run)
      ensures Valid() && !lost && this.db == db && this.key == key && this.run == run
      ensures detail == R.InitialDetail(total, previous) && followUp == (key.1 != R.OSM)
    {
      this.db, this.key, this.run := db, key, run;
      detail, lost, finishing, followUp := R.InitialDetail(total, previous), false, false, key.1 != R.OSM;
    }

    /** `_execute`: `reached` is false when the database call failed. No row
        changed means the lease was lost, except for a beat that lands after
        the run's own end. */
    method Execute(rows: R.Table, reached: bool, beat: bool)
      requires Valid()
      requires R.Owns(rows, key, run) ==> R.Owns(db.rows, key, run)
      requires !R.Owns(db.rows, key, run) ==> rows == db.rows
      modifies this`lost, db
      ensures Valid() && db.rows == if reached then rows else old(db.rows)
      ensures lost == (old(lost) || (reached && !R.Owns(old(db.rows), key, run) && !(beat && finishing)))
    {
      if reached {
        var changed := R.Owns(db.rows, key, run);
        db.rows := rows;
        if !changed && !lost && !(beat && finishing) { lost := true; }
      }
    }

    method Write(stamp: int, reached: bool)
      requires Valid()
      modifies this`lost, db
      ensures Valid()
      ensures db.rows ==
        if reached && R.Owns(old(db.rows), key, run)
        then old(db.rows)[key := old(db.rows)[key].(detail := detail, heartbeat := stamp)] else old(db.rows)
      ensures lost == (old(lost) || (reached && !R.Owns(old(db.rows), key, run)))
    {
      Execute(R.WriteProgress(db.rows, key, run, stamp, detail), reached, false);
    }

    method Beat(stamp: int, reached: bool)
      requires Valid()
      modifies this`lost, db
      ensures Valid()
      ensures db.rows ==
        if reached && !finishing && R.Owns(old(db.rows), key, run)
        then old(db.rows)[key := old(db.rows)[key].(heartbeat := stamp)] else old(db.rows)
      ensures lost == (old(lost) || (reached && !finishing && !R.Owns(old(db.rows), key, run)))
    {
      if finishing { return; }
      Execute(R.Beat(db.rows, key, run, stamp), reached, true);
    }

    /** A task ended: fetched, unchanged, and anything else is failed. */
    method Done(task: string, outcome: Outcome, stamp: int, reached: bool)
      requires Valid()
      modifies this`detail, this`lost, db
      ensures Valid() && detail.done == old(detail.done) + 1 && detail.total == old(detail.total)
      ensures detail.fetched - old(detail.fetched) == (if outcome == Fetched then 1 else 0)
      ensures detail.same - old(detail.same) == (if outcome == Same then 1 else 0)
      ensures detail.failed - old(detail.failed) == (if outcome == Skipped then 1 else 0)
      ensures detail.failedKeys ==
        if outcome == Skipped && |old(detail.failedKeys)| < 50 then old(detail.failedKeys) + [task]
        else old(detail.failedKeys)
      ensures detail.notReached == old(detail.notReached) && detail.previous == old(detail.previous)
      ensures db.rows ==
        if reached && R.Owns(old(db.rows), key, run)
        then old(db.rows)[key := old(db.rows)[key].(detail := detail, heartbeat := stamp)] else old(db.rows)
    {
      match outcome {
        case Fetched => detail := detail.(fetched := detail.fetched + 1);
        case Same => detail := detail.(same := detail.same + 1);
        case Skipped =>
          detail := detail.(failed := detail.failed + 1,
            failedKeys := if |detail.failedKeys| < FAILED_KEYS_MAX then detail.failedKeys + [task]
              else detail.failedKeys);
      }
      detail := detail.(done := detail.done + 1);
      Write(stamp, reached);
    }

    /** The end: in the record every task is fetched, unchanged, failed or not
        reached, and the follow-up is queued only by a finished refresh. */
    method Finish(end: R.RowState, stamp: int, now: int, moduleOn: bool, reached: bool)
      requires Valid() && end != R.Running
      modifies this, db
      ensures Valid() && finishing
      ensures detail == old(detail).(notReached := detail.notReached)
      ensures detail.done <= detail.total ==>
        detail.fetched + detail.same + detail.failed + detail.notReached == detail.total
      ensures reached ==> !R.Owns(db.rows, key, run)
      ensures !reached ==> db.rows == old(db.rows)
      ensures reached && R.Owns(old(db.rows), key, run) ==>
        db.rows == old(db.rows)[key := old(db.rows)[key].(
          state := end, finished := Some(stamp), heartbeat := stamp, detail := detail,
          extract := if !followUp then old(db.rows)[key].extract
            else if end != R.Finished then R.NoExtract
            else if moduleOn then R.Queued(now, false)
            else R.Off)]
      ensures reached && !R.Owns(old(db.rows), key, run) ==> db.rows == old(db.rows) && lost
      ensures reached && R.Owns(old(db.rows), key, run) ==> lost == old(lost)
    {
      finishing := true;
      detail := detail.(notReached := Max(0, detail.total - detail.done));
      var extract :=
        if !followUp then None
        else if end != R.Finished then Some(R.NoExtract)
        else if !moduleOn then Some(R.Off)
        else Some(R.Queued(now, false));
      Execute(R.Finish(db.rows, key, run, end, stamp, detail, extract), reached, false);
    }
  }
}
