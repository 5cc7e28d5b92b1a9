/** The download as the program runs it: a transfer object, a file, counters
    and one loop, proved to do what `Download.Run` says. */
module DownloadLoop {
  import opened Bytes
  import opened Download

  class Dest {
    var file: Text

    constructor ()
      ensures file == []
    {
      file := [];
    }
  }

  class LiveTransfer {
    var size: nat
    var hashed: Text
    var total: Option<nat>
    var validator: Option<string>
    var ranges: bool
    var limit: Option<nat>
    var coded: bool
    var cap: Option<nat>

    function Value(): Transfer
      reads this
    {
      Transfer(size, hashed, total, validator, ranges, limit, coded, cap)
    }

    constructor (coded: bool)
      ensures Value() == NewTransfer(coded)
    {
      size, hashed, total, validator, ranges := 0, [], None, None, false;
      limit, this.coded, cap := None, coded, None;
    }

    /** A full response from byte 0; false for a coding not unpacked here. */
    method Start(h: Headers, most: nat) returns (ok: bool)
      modifies this
      ensures ok <==> BodyCoding(h) != Refused
      ensures Value() == if ok then Started(old(Value()), h, most) else old(Value())
    {
      ok := BodyCoding(h) != Refused;
      if ok {
        total := FullLength(h);
        validator := RangeValidator(h);
        ranges := RangesOffered(h);
        limit := total;
        cap := if BodyCoding(h) == Gzip then Some(most) else None;
      }
    }

    method AcceptRange(h: Headers) returns (ok: bool)
      modifies this`limit
      ensures ok <==> Continues(Value().(limit := old(limit)), h)
      ensures limit == if ok then Some(h.contentRange.value.end + 1) else old(limit)
    {
      if BodyCoding(h) != Plain || h.contentRange.None? { return false; }
      var r := h.contentRange.value;
      if r.start != size || r.total.None? || r.total != total || r.end < r.start || r.end >= r.total.value {
        return false;
      }
      limit := Some(r.end + 1);
      return true;
    }

    /** Stream the body to the file and into the hash. */
    method AppendBody(dest: Dest, body: seq<Text>, end: BodyEnd) returns (ending: Ending)
      modifies this`size, this`hashed, dest
      ensures Attempted(Value(), dest.file, ending) == Append(old(Value()), old(dest.file), body, end)
    {
      var i := 0;
      while i < |body|
        invariant 0 <= i <= |body|
        invariant Append(Value(), dest.file, body[i..], end) == Append(old(Value()), old(dest.file), body, end)
      {
        if !Room(Value(), |body[i]|) { return Fatal; }
        assert body[i..][1..] == body[i + 1..];
        dest.file := dest.file + body[i];
        hashed := hashed + body[i];
        size := size + |body[i]|;
        i := i + 1;
      }
      return BodyEnding(Value(), end);
    }

    method Get(dest: Dest, answer: Answer, most: nat) returns (ending: Ending)
      modifies this, dest
      ensures Attempted(Value(), dest.file, ending) == GetFull(old(Value()), old(dest.file), answer, most)
    {
      match answer
      case NoResponse(transport) => return if transport then Transport else Unretryable;
      case Response(status, h, body, end) =>
        if status == 304 { return NotModified; }
        if !Success(status) { return Status(status); }
        var ok := Start(h, most);
        if !ok { return Fatal; }
        dest.file := [];
        ending := AppendBody(dest, body, end);
    }

    method GetMissing(dest: Dest, answer: Answer) returns (ending: Ending)
      modifies this, dest
      ensures Attempted(Value(), dest.file, ending) == GetRest(old(Value()), old(dest.file), answer)
    {
      if |dest.file| != size { return Restart; }
      match answer
      case NoResponse(transport) => return if transport then Transport else Unretryable;
      case Response(status, h, body, end) =>
        if status == 206 {
          var ok := AcceptRange(h);
          if !ok { return Restart; }
          ending := AppendBody(dest, body, end);
          return ending;
        }
        if status >= 400 && status != 406 && status != 416 { return Status(status); }
        return Restart;
    }
  }

  /** What the retries have used so far, and the seconds slept. */
  class LiveAttempts {
    var restarts: nat
    var resumes: nat
    var stalled: nat
    var busy: nat
    var switched: bool
    var waited: nat
    ghost var log: seq<Kind>

    function Value(): Attempts
      reads this
    {
      Attempts(restarts, resumes, stalled, busy, switched)
    }

    /** The state of the download these counters belong to. */
    ghost function With(t: Transfer, file: Text): State
      reads this
    {
      State(t, file, Value(), waited, log)
    }

    constructor ()
      ensures Value() == Attempts(0, 0, 0, 0, false) && waited == 0 && log == []
    {
      restarts, resumes, stalled, busy, switched, waited, log := 0, 0, 0, 0, false, 0, [];
    }

    method Restart(ghost t: Transfer, ghost file: Text, ghost t': Transfer, ghost file': Text) returns (ok: bool)
      modifies this
      ensures NextRestart(old(With(t, file)), t', file') == if ok then Again(With(t', file')) else GaveUp
    {
      if restarts >= |RETRY_DELAYS| { return false; }
      waited := waited + RETRY_DELAYS[restarts];
      restarts, stalled, log := restarts + 1, 0, log + [Restarted];
      return true;
    }

    method Resume(before: nat, size: nat, ghost t: Transfer, ghost file: Text, ghost t': Transfer, ghost file': Text)
      returns (ok: bool)
      requires t.size == before && t'.size == size
      modifies this
      ensures NextResume(old(With(t, file)), t', file') == if ok then Again(With(t', file')) else GaveUp
    {
      stalled := if size == before then stalled + 1 else 0;
      if stalled >= MAX_STALLED_RESUMES || resumes >= |RESUME_DELAYS| { return false; }
      waited := waited + RESUME_DELAYS[resumes];
      resumes, log := resumes + 1, log + [Resumed(size != before)];
      return true;
    }

    method Busy(ghost t: Transfer, ghost file: Text, ghost t': Transfer, ghost file': Text) returns (ok: bool)
      modifies this
      ensures WaitBusy(old(With(t, file)), t', file') == if ok then Again(With(t', file')) else GaveUp
    {
      if busy >= |RESUME_BUSY_DELAYS| { return false; }
      waited := waited + RESUME_BUSY_DELAYS[busy];
      busy, log := busy + 1, log + [Waited];
      return true;
    }
  }

  /** After a request that failed: the transfer to go on with, or none. */
  method Recover(
    tried: LiveAttempts, transfer: LiveTransfer, before: Transfer, ghost file: Text, dest: Dest, ending: Ending)
    returns (next: LiveTransfer, ok: bool)
    requires !ending.Complete? && !ending.NotModified? && !ending.Fatal?
    requires ending == Status(406) && !tried.switched ==> !Resumable(before)
    modifies tried
    ensures var s := old(tried.With(before, file));
      var a := Attempted(old(transfer.Value()), dest.file, ending);
      (if ending.Restart? then NextRestart(s, NewTransfer(false), dest.file)
       else if ending == Status(406) && !s.tried.switched then SwitchCoding(s, NewTransfer(!a.t.coded), dest.file)
       else RideOut(s, a))
      == if ok then Again(tried.With(next.Value(), dest.file)) else GaveUp
    ensures next == transfer || fresh(next)
  {
    hide NextRestart, NextResume, WaitBusy, Resumable;
    next := transfer;
    var resuming := Resumable(before);
    if ending.Restart? {
      next := new LiveTransfer(false);
      ok := tried.Restart(before, file, NewTransfer(false), dest.file);
    } else if ending == Status(406) && !tried.switched {
      next := new LiveTransfer(!transfer.coded);
      tried.switched := true;
      tried.log := tried.log + [Switched];
      ok := true;
    } else if ending.Unretryable? || (ending.Status? && ending.code !in RETRY_STATUSES) {
      ok := false;
    } else if resuming && ending.Status? {
      ok := tried.Busy(before, file, transfer.Value(), dest.file);
    } else if resuming || Resumable(transfer.Value()) {
      ok := tried.Resume(before.size, transfer.size, before, file, transfer.Value(), dest.file);
    } else {
      next := new LiveTransfer(transfer.coded);
      ok := tried.Restart(before, file, NewTransfer(transfer.coded), dest.file);
    }
  }

  /** The retry loop: whatever the server answers, what comes back, the turns
      made and the seconds slept are those of `Run`. */
  method DownloadInto(serve: (nat, Request) -> Answer, most: nat, coded: bool)
    returns (outcome: Step, rounds: nat, waited: nat)
    ensures var final := Run(serve, most, InitialState(coded), 0);
      outcome == final.step && rounds == final.rounds && waited == final.last.waited
  {
    hide GetFull, GetRest, NextRestart, NextResume, WaitBusy, Resumable, SwitchCoding, RideOut;
    var dest := new Dest();
    var transfer := new LiveTransfer(coded);
    var tried := new LiveAttempts();
    ghost var whole := Run(serve, most, InitialState(coded), 0);
    rounds := 0;
    while true
      invariant InBudget(tried.Value()) && fresh(tried) && fresh(transfer) && fresh(dest)
      invariant Run(serve, most, tried.With(transfer.Value(), dest.file), rounds) == whole
      decreases Left(tried.Value())
    {
      ghost var s, file := tried.With(transfer.Value(), dest.file), dest.file;
      var before := transfer.Value();
      var resuming := Resumable(before);
      CanResume(before);
      var request := if resuming then Rest(before.size, before.validator.value) else Full(before.coded);
      var answer := serve(rounds, request);
      var ending: Ending;
      if resuming {
        ending := transfer.GetMissing(dest, answer);
      } else {
        ending := transfer.Get(dest, answer, most);
      }
      rounds := rounds + 1;
      if ending.Complete? {
        return Got(transfer.Value(), dest.file), rounds, tried.waited;
      }
      if ending.NotModified? { return Unmodified, rounds, tried.waited; }
      if ending.Fatal? { return GaveUp, rounds, tried.waited; }
      RestNever406(before, file, answer);
      waited := tried.waited;
      var ok;
      transfer, ok := Recover(tried, transfer, before, file, dest, ending);
      if !ok { return GaveUp, rounds, waited; }
      RoundInBudget(s, answer, most);
    }
  }

  lemma CanResume(t: Transfer)
    ensures Resumable(t) ==> t.validator.Some?
  {
  }

  lemma RestNever406(t: Transfer, file: Text, answer: Answer)
    ensures GetRest(t, file, answer).ending != Status(406)
  {
    if answer.Response? && answer.status == 206 && Continues(t, answer.headers) {
      AppendedEnds(t.(limit := Some(answer.headers.contentRange.value.end + 1)), file, answer.body, answer.end);
    }
  }
}
