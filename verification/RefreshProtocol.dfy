/** The refresh records under every interleaving (app/refresh_progress.py):
    claims run statement by statement under the session's advisory lock,
    every other transaction is one statement. */
module RefreshProtocol {
  import opened Bytes
  import opened Refresh

  /** How far a claim's transaction has come: it holds the session's lock,
      it marked the stale rows, it found no record that forbids it. */
  datatype Stage = Opened | Swept | Cleared

  /** `stamp` is the transaction's own time; `stale` are the scopes whose
      rows it has marked interrupted, not yet committed and locked for others. */
  datatype Txn = Txn(scope: Scope, run: RunId, stamp: int, stage: Stage, stale: set<Scope>)

  /** The shared table, the database clock, the run ids drawn so far, and the
      claim that holds each session's lock. */
  datatype System = System(rows: Table, clock: int, used: set<RunId>, claims: map<Session, Txn>)

  const START: System := System(map[], 0, {}, map[])

  /** `stamp` is the time a transaction began: it may be long ago when the
      statement had to wait for a lock. */
  datatype Event =
    | Tick(seconds: nat)
    | ClaimOpens(sid: Session, scope: Scope, run: RunId, stamp: int)
    | ClaimSweeps(sid: Session)
    | ClaimLooks(sid: Session)
    | ClaimTakes(sid: Session, total: nat)
    | ClaimDies(sid: Session)
    | Expires(sid: Session, among: set<Scope>, stamp: int)
    | Writes(k: Key, run: RunId, stamp: int, detail: Detail)
    | Beats(k: Key, run: RunId, stamp: int)
    | Finishes(k: Key, run: RunId, stamp: int, end: RowState, detail: Detail, extract: Option<Extract>)
    | FollowsUp(k: Key, run: RunId, pass: Extract)
    | Touches(k: Key, run: RunId, now: int)
    | Resumes(stamp: int, now: int)

  /** A row a claim has marked waits for that claim's end. */
  predicate Locked(s: System, k: Key) {
    k.0 in s.claims && k.1 in s.claims[k.0].stale
  }

  /** The table as the claim that holds the session's lock sees it. */
  function View(s: System, sid: Session): Table
    requires sid in s.claims
  {
    map k <- s.rows :: if k.0 == sid && k.1 in s.claims[sid].stale then Expired(s.rows[k]) else s.rows[k]
  }

  function StaleScopes(rows: Table, sid: Session, stamp: int): set<Scope> {
    set k | k in rows && k.0 == sid && Stale(rows[k], stamp) :: k.1
  }

  /** `_expire` on its own; a row locked by a claim is not among those marked. */
  function ExpireFree(s: System, sid: Session, among: set<Scope>, stamp: int): Table {
    map k <- s.rows ::
      if k.0 == sid && k.1 in among && !Locked(s, k) && Stale(s.rows[k], stamp) then Expired(s.rows[k]) else s.rows[k]
  }

  ghost predicate Enabled(s: System, e: Event) {
    match e
    case Tick(_) => true
    case ClaimOpens(sid, scope, run, stamp) =>
      sid !in s.claims && ValidScope(scope) && run !in s.used && stamp <= s.clock
    case ClaimSweeps(sid) => sid in s.claims && s.claims[sid].stage == Opened
    case ClaimLooks(sid) => sid in s.claims && s.claims[sid].stage == Swept
    case ClaimTakes(sid, _) => sid in s.claims && s.claims[sid].stage == Cleared
    case ClaimDies(sid) => sid in s.claims
    case Expires(_, _, stamp) => stamp <= s.clock
    case Writes(k, _, stamp, _) => !Locked(s, k) && stamp <= s.clock
    case Beats(k, _, stamp) => !Locked(s, k) && stamp <= s.clock
    case Finishes(k, _, stamp, end, _, _) => !Locked(s, k) && stamp <= s.clock && end != Running
    case FollowsUp(_, _, _) => true
    case Touches(_, _, _) => true
    case Resumes(stamp, _) => stamp <= s.clock
  }

  function Without(claims: map<Session, Txn>, sid: Session): map<Session, Txn> {
    map k <- claims | k != sid :: claims[k]
  }

  ghost function Do(s: System, e: Event): System
    requires Enabled(s, e)
  {
    match e
    case Tick(seconds) => s.(clock := s.clock + seconds)
    case ClaimOpens(sid, scope, run, stamp) =>
      s.(used := s.used + {run}, claims := s.claims[sid := Txn(scope, run, stamp, Opened, {})])
    case ClaimSweeps(sid) =>
      var t := s.claims[sid];
      s.(claims := s.claims[sid := t.(stage := Swept, stale := StaleScopes(s.rows, sid, t.stamp))])
    case ClaimLooks(sid) =>
      var t := s.claims[sid];
      if Blocked(View(s, sid), sid, t.scope) then s.(claims := Without(s.claims, sid))
      else s.(claims := s.claims[sid := t.(stage := Cleared)])
    case ClaimTakes(sid, total) =>
      var t := s.claims[sid];
      s.(claims := Without(s.claims, sid),
         rows := if IsRunning(View(s, sid), sid, t.scope) then s.rows
                 else Taken(View(s, sid), (sid, t.scope), t.run, t.stamp, total))
    case ClaimDies(sid) => s.(claims := Without(s.claims, sid))
    case Expires(sid, among, stamp) => s.(rows := ExpireFree(s, sid, among, stamp))
    case Writes(k, run, stamp, detail) => s.(rows := WriteProgress(s.rows, k, run, stamp, detail))
    case Beats(k, run, stamp) => s.(rows := Beat(s.rows, k, run, stamp))
    case Finishes(k, run, stamp, end, detail, extract) =>
      s.(rows := Finish(s.rows, k, run, end, stamp, detail, extract))
    case FollowsUp(k, run, extract) => s.(rows := WriteFollowUp(s.rows, k, run, extract))
    case Touches(k, run, now) => s.(rows := TouchQueued(s.rows, k, run, now))
    case Resumes(stamp, now) => s.(rows := ResumePasses(s.rows, stamp, now))
  }

  /** A run of the whole system: events that cannot happen are skipped. */
  ghost function Play(s: System, events: seq<Event>): System
    decreases |events|
  {
    if events == [] then s
    else Play(if Enabled(s, events[0]) then Do(s, events[0]) else s, events[1..])
  }

  // ----- what every step keeps

  ghost predicate RowsKnown(s: System) {
    && (forall k :: k in s.rows ==> s.rows[k].run in s.used)
    && (forall k, l :: k in s.rows && l in s.rows && s.rows[k].run == s.rows[l].run ==> k == l)
  }

  ghost predicate ClaimsKnown(s: System) {
    && (forall sid :: sid in s.claims ==> s.claims[sid].run in s.used && s.claims[sid].stamp <= s.clock)
    && (forall sid, k :: sid in s.claims && k in s.rows ==> s.rows[k].run != s.claims[sid].run)
    && (forall a, b :: a in s.claims && b in s.claims && s.claims[a].run == s.claims[b].run ==> a == b)
  }

  /** What a claim marked is still stale by its own time. */
  ghost predicate MarkedStale(s: System) {
    forall k: Key :: Locked(s, k) ==> k in s.rows && Stale(s.rows[k], s.claims[k.0].stamp)
  }

  /** What a claim found when it looked still holds when it takes the row. */
  ghost predicate ClearedFree(s: System) {
    forall sid :: sid in s.claims ==>
      && ValidScope(s.claims[sid].scope)
      && (s.claims[sid].stage == Opened ==> s.claims[sid].stale == {})
      && (s.claims[sid].stage == Cleared ==> !Blocked(View(s, sid), sid, s.claims[sid].scope))
  }

  ghost predicate Invariant(s: System) {
    Exclusive(s.rows) && RowsKnown(s) && ClaimsKnown(s) && MarkedStale(s) && ClearedFree(s)
  }

  /** A change of the rows that starts nothing and moves no row to another run. */
  ghost predicate Settles(s: System, rows: Table) {
    && rows.Keys == s.rows.Keys
    && (forall k :: k in s.rows ==> rows[k].run == s.rows[k].run)
    && (forall k :: k in s.rows && rows[k].state == Running ==> s.rows[k].state == Running)
    && (forall k :: k in s.rows && Locked(s, k) ==> rows[k] == s.rows[k])
  }

  lemma SettlesKeeps(s: System, rows: Table)
    requires Invariant(s) && Settles(s, rows)
    ensures Invariant(s.(rows := rows))
  {
    var t := s.(rows := rows);
    forall sid, scope | IsRunning(rows, sid, PROVIDERS) && IsRunning(rows, sid, scope)
      ensures scope == PROVIDERS || scope == OSM
    {
      assert IsRunning(s.rows, sid, PROVIDERS) && IsRunning(s.rows, sid, scope);
    }
    assert RowsKnown(t) && ClaimsKnown(t) && MarkedStale(t);
    forall sid | sid in s.claims && s.claims[sid].stage == Cleared
      ensures !Blocked(View(t, sid), sid, s.claims[sid].scope)
    {
      forall other | IsBlocker(View(t, sid), sid, s.claims[sid].scope, other)
        ensures IsBlocker(View(s, sid), sid, s.claims[sid].scope, other) {}
    }
  }

  lemma StatementsSettle(s: System, e: Event)
    requires Invariant(s) && Enabled(s, e)
    requires e.Expires? || e.Writes? || e.Beats? || e.Finishes? || e.FollowsUp? || e.Touches? || e.Resumes?
    ensures Settles(s, Do(s, e).rows) && Do(s, e) == s.(rows := Do(s, e).rows)
  {
    if IsFollowUp(e) {
      FollowUpsOwnRecord(s, e, ("", OSM));
      FollowUpsSettle(s, Do(s, e).rows);
    } else if e.Expires? {
      assert Settles(s, ExpireFree(s, e.sid, e.among, e.stamp));
    } else {
      OwnWritesSettle(s, e);
    }
  }

  lemma OwnWritesSettle(s: System, e: Event)
    requires Enabled(s, e) && (e.Writes? || e.Beats? || e.Finishes?)
    ensures Settles(s, Do(s, e).rows)
  {
  }

  /** Only the follow-up of finished records differs. */
  ghost predicate FollowUpOnly(rows: Table, after: Table) {
    && after.Keys == rows.Keys
    && forall k :: k in rows ==>
         after[k] == rows[k] || (rows[k].state == Finished && after[k] == rows[k].(extract := after[k].extract))
  }

  lemma FollowUpsSettle(s: System, after: Table)
    requires MarkedStale(s) && FollowUpOnly(s.rows, after)
    ensures Settles(s, after)
  {
  }

  lemma OpenKeeps(s: System, e: Event)
    requires Invariant(s) && Enabled(s, e) && e.ClaimOpens?
    ensures Invariant(Do(s, e))
  {
    var t := Do(s, e);
    forall sid | sid in t.claims && t.claims[sid].stage == Cleared
      ensures !Blocked(View(t, sid), sid, t.claims[sid].scope)
    {
      assert View(t, sid) == View(s, sid);
    }
  }

  lemma SweepKeeps(s: System, e: Event)
    requires Invariant(s) && Enabled(s, e) && e.ClaimSweeps?
    ensures Invariant(Do(s, e))
  {
    var t := Do(s, e);
    forall sid | sid in t.claims && t.claims[sid].stage == Cleared
      ensures !Blocked(View(t, sid), sid, t.claims[sid].scope)
    {
      assert View(t, sid) == View(s, sid);
    }
  }

  lemma LookKeeps(s: System, e: Event)
    requires Invariant(s) && Enabled(s, e) && e.ClaimLooks?
    ensures Invariant(Do(s, e))
  {
    if Blocked(View(s, e.sid), e.sid, s.claims[e.sid].scope) {
      ReleaseKeeps(s, e.sid);
    } else {
      LookKnown(s, e);
      var t := Do(s, e);
      forall sid | sid in t.claims ensures View(t, sid) == View(s, sid) {}
    }
  }

  lemma {:induction false} LookKnown(s: System, e: Event)
    requires Invariant(s) && Enabled(s, e) && e.ClaimLooks? && !Blocked(View(s, e.sid), e.sid, s.claims[e.sid].scope)
    ensures RowsKnown(Do(s, e)) && ClaimsKnown(Do(s, e)) && MarkedStale(Do(s, e)) && Do(s, e).rows == s.rows
  {
    hide Blocked, View, Exclusive, ClearedFree;
  }

  /** Removing a claim, whatever it had marked, keeps the rest. */
  lemma ReleaseKeeps(s: System, sid: Session)
    requires Invariant(s) && sid in s.claims
    ensures Invariant(s.(claims := Without(s.claims, sid)))
  {
    var t := s.(claims := Without(s.claims, sid));
    forall other | other in t.claims ensures View(t, other) == View(s, other) {}
  }

  lemma ViewExclusive(s: System, sid: Session)
    requires Invariant(s) && sid in s.claims
    ensures Exclusive(View(s, sid))
  {
    var view := View(s, sid);
    forall other, scope | IsRunning(view, other, PROVIDERS) && IsRunning(view, other, scope)
      ensures scope == PROVIDERS || scope == OSM
    {
      assert IsRunning(s.rows, other, PROVIDERS) && IsRunning(s.rows, other, scope);
    }
  }

  lemma TakenExclusive(view: Table, sid: Session, scope: Scope, run: RunId, stamp: int, total: nat)
    requires Exclusive(view) && ValidScope(scope) && !Blocked(view, sid, scope)
    ensures Exclusive(Taken(view, (sid, scope), run, stamp, total))
  {
    var after := Taken(view, (sid, scope), run, stamp, total);
    forall other, o | IsRunning(after, other, PROVIDERS) && IsRunning(after, other, o)
      ensures o == PROVIDERS || o == OSM
    {
      ScopesDiffer(scope);
      if other == sid {
        if scope == PROVIDERS {
          assert o == scope || IsRunning(view, sid, o);
          assert !IsBlocker(view, sid, scope, o);
        } else {
          assert IsRunning(view, sid, PROVIDERS);
          assert !IsBlocker(view, sid, scope, PROVIDERS);
          assert o == scope || IsRunning(view, sid, o);
        }
      } else {
        assert IsRunning(view, other, PROVIDERS) && IsRunning(view, other, o);
      }
    }
  }

  lemma TakenKnown(s: System, e: Event)
    requires Invariant(s) && Enabled(s, e) && e.ClaimTakes?
    ensures RowsKnown(Do(s, e)) && ClaimsKnown(Do(s, e)) && MarkedStale(Do(s, e))
  {
    var t := Do(s, e);
    TakenRows(s, e);
    forall k, l | k in t.rows && l in t.rows && t.rows[k].run == t.rows[l].run ensures k == l {
      assert k in s.rows ==> s.rows[k].run != s.claims[e.sid].run;
      assert l in s.rows ==> s.rows[l].run != s.claims[e.sid].run;
    }
  }

  /** A claim that takes its row changes no other session's rows, and of its
      own session's only the row itself and those it marked. */
  lemma TakenRows(s: System, e: Event)
    requires Enabled(s, e) && e.ClaimTakes?
    ensures Do(s, e).used == s.used && Do(s, e).clock == s.clock && Do(s, e).claims == Without(s.claims, e.sid)
    ensures forall k :: k in Do(s, e).rows ==>
      || (k == (e.sid, s.claims[e.sid].scope) && Do(s, e).rows[k].run == s.claims[e.sid].run)
      || (k in s.rows && Do(s, e).rows[k].run == s.rows[k].run)
    ensures forall k :: k in s.rows && k.0 != e.sid ==> k in Do(s, e).rows && Do(s, e).rows[k] == s.rows[k]
  {
  }

  lemma TakenExclusively(s: System, e: Event)
    requires Invariant(s) && Enabled(s, e) && e.ClaimTakes?
    ensures Exclusive(Do(s, e).rows)
  {
    var claim := s.claims[e.sid];
    ViewExclusive(s, e.sid);
    TakenExclusive(View(s, e.sid), e.sid, claim.scope, claim.run, claim.stamp, e.total);
  }

  lemma TakeKeeps(s: System, e: Event)
    requires Invariant(s) && Enabled(s, e) && e.ClaimTakes?
    ensures Invariant(Do(s, e))
  {
    var sid := e.sid;
    var claim := s.claims[sid];
    if IsRunning(View(s, sid), sid, claim.scope) {
      ReleaseKeeps(s, sid);
    } else {
      var t := Do(s, e);
      TakenExclusively(s, e);
      TakenKnown(s, e);
      forall other | other in t.claims && t.claims[other].stage == Cleared
        ensures !Blocked(View(t, other), other, t.claims[other].scope)
      {
        forall o | IsBlocker(View(t, other), other, t.claims[other].scope, o)
          ensures IsBlocker(View(s, other), other, t.claims[other].scope, o) {}
      }
    }
  }

  lemma StepKeeps(s: System, e: Event)
    requires Invariant(s) && Enabled(s, e)
    ensures Invariant(Do(s, e))
  {
    match e
    case Tick(_) =>
      forall sid | sid in s.claims ensures View(Do(s, e), sid) == View(s, sid) {}
    case ClaimOpens(_, _, _, _) => OpenKeeps(s, e);
    case ClaimSweeps(_) => SweepKeeps(s, e);
    case ClaimLooks(sid) => LookKeeps(s, e);
    case ClaimTakes(_, _) => TakeKeeps(s, e);
    case ClaimDies(sid) => ReleaseKeeps(s, sid);
    case _ =>
      StatementsSettle(s, e);
      SettlesKeeps(s, Do(s, e).rows);
  }

  lemma {:induction false} PlayKeeps(s: System, events: seq<Event>)
    requires Invariant(s)
    ensures Invariant(Play(s, events))
    decreases |events|
  {
    if events != [] {
      if Enabled(s, events[0]) { StepKeeps(s, events[0]); }
      PlayKeeps(if Enabled(s, events[0]) then Do(s, events[0]) else s, events[1..]);
    }
  }

  /** In every interleaving, a session never has the whole-session refresh
      running together with a single provider's. */
  lemma NeverBoth(events: seq<Event>, sid: Session, scope: Scope)
    ensures var rows := Play(START, events).rows;
      IsRunning(rows, sid, PROVIDERS) && IsRunning(rows, sid, scope) ==> !IsProviderScope(scope)
  {
    PlayKeeps(START, events);
    ScopesDiffer(scope);
  }

  /** A claim that nobody interrupts is the function `Claim` of its state. */
  lemma {:induction false} ClaimAlone(s: System, sid: Session, scope: Scope, run: RunId, total: nat)
    requires Invariant(s) && sid !in s.claims && ValidScope(scope) && run !in s.used
    ensures var end := Play(s,
      [ClaimOpens(sid, scope, run, s.clock), ClaimSweeps(sid), ClaimLooks(sid), ClaimTakes(sid, total)]);
      var claim := Claim(s.rows, sid, scope, run, s.clock, total);
      end.rows == (if claim.Claimed? then claim.rows else s.rows) && end.claims == s.claims
  {
    hide View, Claim, Expire, StaleScopes, Without, Invariant, Do, Play;
    var open, sweep, look, take := ClaimOpens(sid, scope, run, s.clock), ClaimSweeps(sid), ClaimLooks(sid),
      ClaimTakes(sid, total);
    PlayFour(s, open, sweep, look, take);
    Begun(s, sid, scope, run);
    var swept := Do(Do(s, open), sweep);
    SweptView(Do(s, open), sid);
    ClaimEnds(s.claims, swept, sid, total);
    ClaimOutcome(s.rows, sid, scope, run, s.clock, total);
  }

  /** A claim that has opened and swept. */
  lemma {:induction false} Begun(s: System, sid: Session, scope: Scope, run: RunId)
    requires sid !in s.claims && ValidScope(scope) && run !in s.used
    ensures var open, sweep := ClaimOpens(sid, scope, run, s.clock), ClaimSweeps(sid);
      && Enabled(s, open) && Enabled(Do(s, open), sweep)
      && sid in Do(s, open).claims && Do(s, open).claims[sid] == Txn(scope, run, s.clock, Opened, {})
      && Do(s, open).rows == s.rows && Do(Do(s, open), sweep).rows == s.rows
      && sid in Do(Do(s, open), sweep).claims
      && Do(Do(s, open), sweep).claims == s.claims[sid := Do(Do(s, open), sweep).claims[sid]]
      && Do(Do(s, open), sweep).claims[sid].(stale := {}) == Txn(scope, run, s.clock, Swept, {})
  {
    hide StaleScopes, ValidScope;
  }

  /** What the last two statements make of a claim that has swept. */
  lemma {:induction false} ClaimEnds(claims: map<Session, Txn>, swept: System, sid: Session, total: nat)
    requires sid !in claims && sid in swept.claims && swept.claims == claims[sid := swept.claims[sid]]
    requires swept.claims[sid].stage == Swept
    ensures var end, view, t := Next(Next(swept, ClaimLooks(sid)), ClaimTakes(sid, total)), View(swept, sid),
      swept.claims[sid];
      && end.claims == claims
      && end.rows == if Blocked(view, sid, t.scope) || IsRunning(view, sid, t.scope) then swept.rows
           else Taken(view, (sid, t.scope), t.run, t.stamp, total)
  {
    hide Blocked, IsRunning, Taken;
    assert Without(swept.claims, sid) == claims;
    if !Blocked(View(swept, sid), sid, swept.claims[sid].scope) { ClaimCleared(claims, swept, sid, total); }
  }

  lemma {:induction false} ClaimCleared(claims: map<Session, Txn>, swept: System, sid: Session, total: nat)
    requires sid !in claims && sid in swept.claims && swept.claims == claims[sid := swept.claims[sid]]
    requires swept.claims[sid].stage == Swept && !Blocked(View(swept, sid), sid, swept.claims[sid].scope)
    ensures var looked, view, t := Next(swept, ClaimLooks(sid)), View(swept, sid), swept.claims[sid];
      var end := Next(looked, ClaimTakes(sid, total));
      && end.claims == claims
      && end.rows == if IsRunning(view, sid, t.scope) then swept.rows
           else Taken(view, (sid, t.scope), t.run, t.stamp, total)
  {
    hide Blocked, IsRunning, Taken;
    var looked := Next(swept, ClaimLooks(sid));
    assert View(looked, sid) == View(swept, sid);
    assert Without(looked.claims, sid) == claims;
  }

  lemma {:induction false} ClaimOutcome(rows: Table, sid: Session, scope: Scope, run: RunId, stamp: int, total: nat)
    ensures var view, claim := Expire(rows, sid, stamp), Claim(rows, sid, scope, run, stamp, total);
      (if claim.Claimed? then claim.rows else rows) ==
        if Blocked(view, sid, scope) || IsRunning(view, sid, scope) then rows
        else Taken(view, (sid, scope), run, stamp, total)
  {
    hide Expire, Blocked, IsRunning, Taken;
  }

  lemma SweptView(s: System, sid: Session)
    requires sid in s.claims && s.claims[sid].stage == Opened
    ensures View(Do(s, ClaimSweeps(sid)), sid) == Expire(s.rows, sid, s.claims[sid].stamp)
  {
    var stale := StaleScopes(s.rows, sid, s.claims[sid].stamp);
    forall k | k in s.rows && k.0 == sid ensures k.1 in stale <==> Stale(s.rows[k], s.claims[sid].stamp) {
      if k.1 in stale {
        var l :| l in s.rows && l.0 == sid && Stale(s.rows[l], s.claims[sid].stamp) && l.1 == k.1;
        assert l == k;
      }
    }
  }

  ghost function Next(s: System, e: Event): System { if Enabled(s, e) then Do(s, e) else s }

  lemma {:induction false} PlayFour(s: System, a: Event, b: Event, c: Event, d: Event)
    ensures Play(s, [a, b, c, d]) == Next(Next(Next(Next(s, a), b), c), d)
  {
    var events := [a, b, c, d];
    assert events[1..] == [b, c, d] && events[1..][1..] == [c, d] && events[1..][1..][1..] == [d];
    assert events[1..][1..][1..][1..] == [];
    assert Play(Next(s, a), [b, c, d]) == Play(Next(Next(s, a), b), [c, d]);
    assert Play(Next(Next(Next(s, a), b), c), [d]) == Next(Next(Next(Next(s, a), b), c), d);
  }

  // ----- fencing

  ghost predicate Live(s: System, run: RunId) {
    (exists k :: Owns(s.rows, k, run)) || (exists sid :: sid in s.claims && s.claims[sid].run == run)
  }

  /** The run was drawn, and neither runs nor is about to. */
  ghost predicate Dead(s: System, run: RunId) {
    run in s.used && !Live(s, run)
  }

  ghost predicate IsWriteOf(e: Event, run: RunId) {
    (e.Writes? || e.Beats? || e.Finishes?) && e.run == run
  }

  lemma DeadWritesNothing(s: System, e: Event, run: RunId)
    requires Dead(s, run) && Enabled(s, e) && IsWriteOf(e, run)
    ensures Do(s, e) == s
  {
    assert !Owns(s.rows, e.k, run);
  }

  lemma DeadStaysDead(s: System, e: Event, run: RunId)
    requires Invariant(s) && Dead(s, run) && Enabled(s, e)
    ensures Dead(Do(s, e), run)
  {
    var t := Do(s, e);
    forall k ensures !Owns(t.rows, k, run) {
      assert !Owns(s.rows, k, run);
      if e.ClaimTakes? {
        assert s.claims[e.sid].run != run;
      }
    }
    forall sid | sid in t.claims ensures t.claims[sid].run != run {
      assert sid in s.claims ==> s.claims[sid].run != run;
    }
  }

  /** Once a run is dead it never runs again, and no beat, progress write or
      finish of it changes anything, whatever everybody does. */
  lemma {:induction false} Fenced(s: System, events: seq<Event>, run: RunId, late: Event)
    requires Invariant(s) && Dead(s, run)
    ensures var end := Play(s, events); Dead(end, run) && (IsWriteOf(late, run) ==> Next(end, late) == end)
    decreases |events|
  {
    if events == [] {
      if Enabled(s, late) && IsWriteOf(late, run) { DeadWritesNothing(s, late, run); }
    } else {
      var next := Next(s, events[0]);
      if Enabled(s, events[0]) {
        StepKeeps(s, events[0]);
        DeadStaysDead(s, events[0], run);
      }
      Fenced(next, events[1..], run, late);
    }
  }

  lemma LosingTheRowKills(s: System, e: Event, k: Key, run: RunId)
    requires Invariant(s) && Enabled(s, e) && Owns(s.rows, k, run) && !Owns(Do(s, e).rows, k, run)
    ensures Dead(Do(s, e), run)
  {
    hide Do, Enabled, Invariant, Owns;
    KnownRun(s, k, run);
    var t := Do(s, e);
    forall l ensures !Owns(t.rows, l, run) {
      if l != k { NotOwnedElsewhere(s, e, k, l, run); }
    }
    forall sid | sid in t.claims ensures t.claims[sid].run != run { NotClaimedElsewhere(s, e, k, run, sid); }
    UsedGrows(s, e);
  }

  lemma {:induction false} KnownRun(s: System, k: Key, run: RunId)
    requires Invariant(s) && Owns(s.rows, k, run)
    ensures run in s.used
  {
  }

  lemma {:induction false} UsedGrows(s: System, e: Event)
    requires Enabled(s, e)
    ensures s.used <= Do(s, e).used
  {
  }

  lemma {:induction false} NotOwnedElsewhere(s: System, e: Event, k: Key, l: Key, run: RunId)
    requires Invariant(s) && Enabled(s, e) && Owns(s.rows, k, run) && l != k
    ensures !Owns(Do(s, e).rows, l, run)
  {
    assert !Owns(s.rows, l, run);
    assert e.ClaimTakes? ==> s.claims[e.sid].run != run;
  }

  lemma {:induction false} NotClaimedElsewhere(s: System, e: Event, k: Key, run: RunId, sid: Session)
    requires Invariant(s) && Enabled(s, e) && Owns(s.rows, k, run) && sid in Do(s, e).claims
    ensures Do(s, e).claims[sid].run != run
  {
    assert sid in s.claims ==> s.claims[sid].run != run;
  }

  /** A run that loses its row in any way (expired, taken over, ended) is
      dead from that moment. */
  lemma LosingTheRowIsForGood(s: System, e: Event, k: Key, run: RunId, events: seq<Event>, late: Event)
    requires Invariant(s) && Enabled(s, e) && Owns(s.rows, k, run) && !Owns(Do(s, e).rows, k, run)
    ensures var end := Play(Do(s, e), events); Dead(end, run) && (IsWriteOf(late, run) ==> Next(end, late) == end)
  {
    StepKeeps(s, e);
    LosingTheRowKills(s, e, k, run);
    Fenced(Do(s, e), events, run, late);
  }

  // ----- the lease

  ghost predicate WithinLease(s: System, k: Key) {
    k in s.rows && s.rows[k].heartbeat >= s.clock - 300
  }

  /** A run whose heartbeat is within the lease leaves running only by its
      own finish. */
  lemma LeaseHolds(s: System, e: Event, k: Key, run: RunId)
    requires Invariant(s) && Enabled(s, e) && Owns(s.rows, k, run) && WithinLease(s, k)
    ensures Owns(Do(s, e).rows, k, run) <==> !(e.Finishes? && e.k == k && e.run == run)
  {
    assert !Locked(s, k);
    if e.ClaimTakes? && k == (e.sid, s.claims[e.sid].scope) {
      assert View(s, e.sid)[k] == s.rows[k];
      assert IsRunning(View(s, e.sid), e.sid, s.claims[e.sid].scope);
    }
  }

  /** The heartbeat is within the lease at every state of the run. */
  ghost predicate BeatsInTime(s: System, events: seq<Event>, k: Key)
    decreases |events|
  {
    WithinLease(s, k) && (events != [] ==> BeatsInTime(Next(s, events[0]), events[1..], k))
  }

  /** A refresh that beats in time keeps its row until it ends it, whatever
      other processes claim, expire or read meanwhile. */
  lemma {:induction false} BeatingKeepsTheRow(s: System, events: seq<Event>, k: Key, run: RunId)
    requires Invariant(s) && Owns(s.rows, k, run) && BeatsInTime(s, events, k)
    requires forall e <- events :: !(e.Finishes? && e.k == k && e.run == run)
    ensures Owns(Play(s, events).rows, k, run)
    decreases |events|
  {
    if events != [] {
      if Enabled(s, events[0]) {
        StepKeeps(s, events[0]);
        LeaseHolds(s, events[0], k, run);
      }
      BeatingKeepsTheRow(Next(s, events[0]), events[1..], k, run);
    }
  }

  // ----- the follow-up

  predicate IsFollowUp(e: Event) { e.FollowsUp? || e.Touches? || e.Resumes? }

  /** Follow-ups change the follow-up of finished records and nothing else; a
      pass only that of its own run's record. */
  lemma FollowUpsOwnRecord(s: System, e: Event, k: Key)
    requires Enabled(s, e) && IsFollowUp(e)
    ensures FollowUpOnly(s.rows, Do(s, e).rows) && Do(s, e) == s.(rows := Do(s, e).rows)
    ensures k in s.rows && !e.Resumes? && (e.k != k || e.run != s.rows[k].run) ==> Do(s, e).rows[k] == s.rows[k]
  {
    match e
    case FollowsUp(l, run, pass) => assert FollowUpOnly(s.rows, WriteFollowUp(s.rows, l, run, pass));
    case Touches(l, run, now) => assert FollowUpOnly(s.rows, TouchQueued(s.rows, l, run, now));
    case Resumes(stamp, now) => assert FollowUpOnly(s.rows, ResumePasses(s.rows, stamp, now));
  }

  /** A finished record changes by follow-ups, or is replaced by a claim. */
  lemma FinishedRecord(s: System, e: Event, k: Key)
    requires Invariant(s) && Enabled(s, e) && k in s.rows
    ensures s.rows[k].state == Finished && !IsFollowUp(e) && Do(s, e).rows[k] != s.rows[k] ==>
      e.ClaimTakes? && k == (e.sid, s.claims[e.sid].scope) && Do(s, e).rows[k].run == s.claims[e.sid].run
  {
    assert s.rows[k].state == Finished ==> !Locked(s, k);
  }

  /** The run's record has been replaced by a newer refresh. */
  ghost predicate Replaced(s: System, run: RunId) {
    && run in s.used && (forall k :: k in s.rows ==> s.rows[k].run != run)
    && forall sid :: sid in s.claims ==> s.claims[sid].run != run
  }

  lemma ReplacedStays(s: System, e: Event, run: RunId)
    requires Invariant(s) && Replaced(s, run) && Enabled(s, e)
    ensures Replaced(Do(s, e), run)
  {
    var t := Do(s, e);
    forall k | k in t.rows ensures t.rows[k].run != run {
      assert k in s.rows ==> s.rows[k].run != run;
      assert e.ClaimTakes? ==> s.claims[e.sid].run != run;
    }
    forall sid | sid in t.claims ensures t.claims[sid].run != run {
      assert sid in s.claims ==> s.claims[sid].run != run;
    }
  }

  /** A pass whose refresh was replaced writes nothing, ever. */
  lemma {:induction false} FollowUpFenced(s: System, events: seq<Event>, run: RunId, late: Event)
    requires Invariant(s) && Replaced(s, run)
    ensures var end := Play(s, events);
      Replaced(end, run) && ((late.FollowsUp? || late.Touches?) && late.run == run ==> Next(end, late) == end)
    decreases |events|
  {
    if events != [] {
      if Enabled(s, events[0]) {
        StepKeeps(s, events[0]);
        ReplacedStays(s, events[0], run);
      }
      FollowUpFenced(Next(s, events[0]), events[1..], run, late);
    }
  }

  /** Taking a row replaces the run that had it, for good. */
  lemma TakingReplaces(s: System, e: Event, k: Key)
    requires Invariant(s) && Enabled(s, e) && k in s.rows && k in Do(s, e).rows && Do(s, e).rows[k].run != s.rows[k].run
    ensures e.ClaimTakes? && Replaced(Do(s, e), s.rows[k].run)
  {
    assert s.rows[k].run in s.used;
  }
}
