/** The resumable download (app/feed_fetch.py) against a server that chooses
    every answer: status, headers, body, and where the body is cut. */
module Download {
  import opened Bytes

  // ----- what an answer says

  datatype Coding = Plain | Gzip | Refused

  /** `coding` holds the Content-Encoding tokens, `ageSeconds` the response's
      Date less its Last-Modified when both are readable and comparable,
      `ranges` the Accept-Ranges tokens when there is such a header. */
  datatype Headers = Headers(
    coding: seq<string>, length: Option<int>, etag: string, lastModified: string, ageSeconds: Option<int>,
    ranges: Option<seq<string>>, contentRange: Option<ContentRange>)

  /** `total` is None for `*` and for a number not written as usual. */
  datatype ContentRange = ContentRange(start: nat, end: nat, total: Option<nat>)

  /** How a body ends: whole, by a transport error, by data that cannot be
      unpacked, or by unpacking past the ratio allowed. */
  datatype BodyEnd = Clean | Broken | Corrupt | Excess

  datatype Answer =
    | Response(status: nat, headers: Headers, body: seq<Text>, end: BodyEnd)
    | NoResponse(transport: bool)

  datatype Request = Full(coded: bool) | Rest(from: nat, validator: string)

  const REFUSED_CODINGS: set<string> := {"deflate", "br", "zstd", "compress", "x-gzip", "x-compress"}
  const RETRY_STATUSES: set<nat> := {429, 500, 502, 503, 504}
  const RETRY_DELAYS: seq<nat> := [2, 10]
  const RESUME_DELAYS: seq<nat> := [2, 5, 10, 20, 30, 30, 30, 30]
  const RESUME_BUSY_DELAYS: seq<nat> := [10, 30, 60, 120, 120]
  const MAX_STALLED_RESUMES := 2

  function Count(tokens: seq<string>, word: string): nat {
    if tokens == [] then 0 else (if tokens[0] == word then 1 else 0) + Count(tokens[1..], word)
  }

  function BodyCoding(h: Headers): Coding {
    if Count(h.coding, "gzip") > 1 || exists t <- h.coding :: t in REFUSED_CODINGS then Refused
    else if Count(h.coding, "gzip") == 1 then Gzip
    else Plain
  }

  function FullLength(h: Headers): Option<nat> {
    if BodyCoding(h) != Plain || h.length.None? || h.length.value <= 0 then None else Some(h.length.value)
  }

  /** A strong ETag, else a Last-Modified at least one second older than the
      response. */
  function RangeValidator(h: Headers): Option<string> {
    if h.etag != "" && !("W/" <= h.etag) then Some(h.etag)
    else if h.lastModified == "" || h.ageSeconds.None? || h.ageSeconds.value < 1 then None
    else Some(h.lastModified)
  }

  function RangesOffered(h: Headers): bool {
    h.ranges.None? || "bytes" in h.ranges.value
  }

  // ----- the transfer

  /** The bytes of one version written so far. `hashed` stands for the state
      of the digest: the bytes it has taken. */
  datatype Transfer = Transfer(
    size: nat, hashed: Text, total: Option<nat>, validator: Option<string>, ranges: bool, limit: Option<nat>,
    coded: bool, cap: Option<nat>)

  function NewTransfer(coded: bool): Transfer {
    Transfer(0, [], None, None, false, None, coded, None)
  }

  predicate Resumable(t: Transfer) {
    !t.coded && t.ranges && t.validator.Some? && t.total.Some? && 0 < t.size < t.total.value
  }

  /** How one request ended. */
  datatype Ending = Complete | NotModified | Restart | Status(code: nat) | Transport | Unretryable | Fatal

  function Started(t: Transfer, h: Headers, cap: nat): Transfer {
    t.(total := FullLength(h), validator := RangeValidator(h), ranges := RangesOffered(h), limit := FullLength(h),
       cap := if BodyCoding(h) == Gzip then Some(cap) else None)
  }

  /** A 206 continues the file: where it starts, the full size it names. */
  predicate Continues(t: Transfer, h: Headers) {
    && BodyCoding(h) == Plain && h.contentRange.Some?
    && var r := h.contentRange.value;
       r.start == t.size && r.total.Some? && r.total == t.total && r.start <= r.end < r.total.value
  }

  predicate Room(t: Transfer, more: nat) {
    && (t.limit.Some? ==> t.size + more <= t.limit.value)
    && (t.cap.Some? ==> t.size + more <= t.cap.value)
  }

  datatype Attempted = Attempted(t: Transfer, file: Text, ending: Ending)

  function BodyEnding(t: Transfer, end: BodyEnd): Ending {
    match end
    case Clean => if t.total.Some? && t.size < t.total.value then Transport else Complete
    case Broken => Transport
    case Corrupt => Unretryable
    case Excess => Fatal
  }

  /** The body streamed to the end of `file` and into the hash, chunk by chunk. */
  function Append(t: Transfer, file: Text, body: seq<Text>, end: BodyEnd): Attempted
    decreases |body|
  {
    if body == [] then Attempted(t, file, BodyEnding(t, end))
    else if !Room(t, |body[0]|) then Attempted(t, file, Fatal)
    else Append(t.(size := t.size + |body[0]|, hashed := t.hashed + body[0]), file + body[0], body[1..], end)
  }

  predicate Success(status: nat) { 200 <= status < 300 }

  function GetFull(t: Transfer, file: Text, a: Answer, cap: nat): Attempted {
    match a
    case NoResponse(transport) => Attempted(t, file, if transport then Transport else Unretryable)
    case Response(status, h, body, end) =>
      if status == 304 then Attempted(t, file, NotModified)
      else if !Success(status) then Attempted(t, file, Status(status))
      else if BodyCoding(h) == Refused then Attempted(t, file, Fatal)
      else Append(Started(t, h, cap), [], body, end)
  }

  /** A range request; none is sent when the file is not the size counted. */
  function GetRest(t: Transfer, file: Text, a: Answer): Attempted {
    if |file| != t.size then Attempted(t, file, Restart)
    else
      match a
      case NoResponse(transport) => Attempted(t, file, if transport then Transport else Unretryable)
      case Response(status, h, body, end) =>
        if status == 206 then
          if Continues(t, h) then Append(t.(limit := Some(h.contentRange.value.end + 1)), file, body, end)
          else Attempted(t, file, Restart)
        else if status >= 400 && status != 406 && status != 416 then Attempted(t, file, Status(status))
        else Attempted(t, file, Restart)
  }

  // ----- the retries

  datatype Attempts = Attempts(restarts: nat, resumes: nat, stalled: nat, busy: nat, switched: bool)

  /** What made the download go on after a request. */
  datatype Kind = Restarted | Resumed(progress: bool) | Waited | Switched

  datatype State = State(t: Transfer, file: Text, tried: Attempts, waited: nat, log: seq<Kind>)

  function InitialState(coded: bool): State {
    State(NewTransfer(coded), [], Attempts(0, 0, 0, 0, false), 0, [])
  }

  datatype Step =
    | Again(next: State)
    | Got(t: Transfer, file: Text)
    | Unmodified
    | GaveUp

  function RequestOf(s: State): Request {
    if Resumable(s.t) then Rest(s.t.size, s.t.validator.value) else Full(s.t.coded)
  }

  function NextRestart(s: State, t: Transfer, file: Text): Step {
    if s.tried.restarts >= |RETRY_DELAYS| then GaveUp
    else Again(State(t, file, s.tried.(restarts := s.tried.restarts + 1, stalled := 0),
                     s.waited + RETRY_DELAYS[s.tried.restarts], s.log + [Restarted]))
  }

  function NextResume(s: State, t: Transfer, file: Text): Step {
    var progress := t.size != s.t.size;
    var stalled := if progress then 0 else s.tried.stalled + 1;
    if stalled >= MAX_STALLED_RESUMES || s.tried.resumes >= |RESUME_DELAYS| then GaveUp
    else Again(State(t, file, s.tried.(resumes := s.tried.resumes + 1, stalled := stalled),
                     s.waited + RESUME_DELAYS[s.tried.resumes], s.log + [Resumed(progress)]))
  }

  function WaitBusy(s: State, t: Transfer, file: Text): Step {
    if s.tried.busy >= |RESUME_BUSY_DELAYS| then GaveUp
    else Again(State(t, file, s.tried.(busy := s.tried.busy + 1),
                     s.waited + RESUME_BUSY_DELAYS[s.tried.busy], s.log + [Waited]))
  }

  function SwitchCoding(s: State, t: Transfer, file: Text): Step
    requires !s.tried.switched
  {
    Again(State(t, file, s.tried.(switched := true), s.waited, s.log + [Switched]))
  }

  function RideOut(s: State, a: Attempted): Step {
    var resuming := Resumable(s.t);
    if a.ending.Unretryable? || (a.ending.Status? && a.ending.code !in RETRY_STATUSES) then GaveUp
    else if resuming && a.ending.Status? then WaitBusy(s, a.t, a.file)
    else if resuming || Resumable(a.t) then NextResume(s, a.t, a.file)
    else NextRestart(s, NewTransfer(a.t.coded), a.file)
  }

  /** One turn of the download loop. */
  function Round(s: State, answer: Answer, cap: nat): Step {
    var a := if Resumable(s.t) then GetRest(s.t, s.file, answer) else GetFull(s.t, s.file, answer, cap);
    match a.ending
    case Complete => Got(a.t, a.file)
    case NotModified => Unmodified
    case Fatal => GaveUp
    case Restart => NextRestart(s, NewTransfer(false), a.file)
    case _ =>
      if a.ending == Status(406) && !s.tried.switched then SwitchCoding(s, NewTransfer(!a.t.coded), a.file)
      else RideOut(s, a)
  }

  function Left(tried: Attempts): nat
    requires tried.restarts <= |RETRY_DELAYS| && tried.resumes <= |RESUME_DELAYS| && tried.busy <= |RESUME_BUSY_DELAYS|
  {
    |RETRY_DELAYS| - tried.restarts + |RESUME_DELAYS| - tried.resumes + |RESUME_BUSY_DELAYS| - tried.busy
    + if tried.switched then 0 else 1
  }

  predicate InBudget(tried: Attempts) {
    tried.restarts <= |RETRY_DELAYS| && tried.resumes <= |RESUME_DELAYS| && tried.busy <= |RESUME_BUSY_DELAYS|
  }

  datatype Final = Final(step: Step, rounds: nat, last: State)

  /** The whole download: the server's answers may depend on the turn and on
      the request. Every turn that goes on spends one unit of its budget. */
  function Run(serve: (nat, Request) -> Answer, cap: nat, s: State, n: nat): Final
    requires InBudget(s.tried)
    decreases Left(s.tried)
  {
    var step := Round(s, serve(n, RequestOf(s)), cap);
    if step.Again? then Run(serve, cap, step.next, n + 1) else Final(step, n + 1, s)
  }

  // ----- every download ends

  function Sum(delays: seq<nat>, n: nat): nat
    requires n <= |delays|
  {
    if n == 0 then 0 else Sum(delays, n - 1) + delays[n - 1]
  }

  function Rounds(tried: Attempts): nat {
    tried.restarts + tried.resumes + tried.busy + if tried.switched then 1 else 0
  }

  function Spent(tried: Attempts): nat
    requires InBudget(tried)
  {
    Sum(RETRY_DELAYS, tried.restarts) + Sum(RESUME_DELAYS, tried.resumes) + Sum(RESUME_BUSY_DELAYS, tried.busy)
  }

  /** The consecutive resumes at the end of `log` that brought no byte; waits
      and a change of coding do not break the row. */
  function Stalls(log: seq<Kind>): nat {
    if log == [] then 0
    else
      match log[|log| - 1]
      case Restarted => 0
      case Resumed(progress) => if progress then 0 else Stalls(log[..|log| - 1]) + 1
      case _ => Stalls(log[..|log| - 1])
  }

  /** What the counters say of a run so far. */
  ghost predicate Accounted(s: State, n: nat) {
    && InBudget(s.tried) && n == Rounds(s.tried) == |s.log| && s.waited == Spent(s.tried)
    && s.tried.stalled == Stalls(s.log) < MAX_STALLED_RESUMES
  }

  /** One more entry of the log. */
  lemma StallsOf(log: seq<Kind>, kind: Kind)
    ensures |log + [kind]| == |log| + 1
    ensures Stalls(log + [kind]) ==
            match kind
            case Restarted => 0
            case Resumed(progress) => if progress then 0 else Stalls(log) + 1
            case _ => Stalls(log)
  {
    assert (log + [kind])[..|log|] == log;
  }

  lemma RestartAccounted(s: State, t: Transfer, file: Text, n: nat)
    requires Accounted(s, n)
    ensures NextRestart(s, t, file).Again? ==> Accounted(NextRestart(s, t, file).next, n + 1)
  {
    hide Stalls;
    StallsOf(s.log, Restarted);
  }

  lemma ResumeAccounted(s: State, t: Transfer, file: Text, n: nat)
    requires Accounted(s, n)
    ensures NextResume(s, t, file).Again? ==> Accounted(NextResume(s, t, file).next, n + 1)
  {
    hide Stalls;
    StallsOf(s.log, Resumed(t.size != s.t.size));
  }

  lemma BusyAccounted(s: State, t: Transfer, file: Text, n: nat)
    requires Accounted(s, n)
    ensures WaitBusy(s, t, file).Again? ==> Accounted(WaitBusy(s, t, file).next, n + 1)
  {
    hide Stalls;
    StallsOf(s.log, Waited);
  }

  lemma SwitchAccounted(s: State, t: Transfer, file: Text, n: nat)
    requires Accounted(s, n) && !s.tried.switched
    ensures Accounted(SwitchCoding(s, t, file).next, n + 1)
  {
    hide Stalls, Sum;
    StallsOf(s.log, Switched);
  }

  lemma AccountedRound(s: State, answer: Answer, cap: nat, n: nat)
    requires Accounted(s, n) && Round(s, answer, cap).Again?
    ensures Accounted(Round(s, answer, cap).next, n + 1)
  {
    hide GetFull, GetRest, NextRestart, NextResume, WaitBusy, SwitchCoding, Accounted, Resumable;
    var a := if Resumable(s.t) then GetRest(s.t, s.file, answer) else GetFull(s.t, s.file, answer, cap);
    RestartAccounted(s, NewTransfer(false), a.file, n);
    RestartAccounted(s, NewTransfer(a.t.coded), a.file, n);
    ResumeAccounted(s, a.t, a.file, n);
    BusyAccounted(s, a.t, a.file, n);
    if !s.tried.switched { SwitchAccounted(s, NewTransfer(!a.t.coded), a.file, n); }
  }

  lemma SumBound(delays: seq<nat>, n: nat)
    requires n <= |delays|
    ensures Sum(delays, n) <= Sum(delays, |delays|)
    decreases |delays| - n
  {
    if n < |delays| { SumBound(delays, n + 1); }
  }

  lemma SpentBound(tried: Attempts)
    requires InBudget(tried)
    ensures Rounds(tried) <= 16 && Spent(tried) <= 509
  {
    SumBound(RETRY_DELAYS, tried.restarts);
    SumBound(RESUME_DELAYS, tried.resumes);
    SumBound(RESUME_BUSY_DELAYS, tried.busy);
    assert Sum(RETRY_DELAYS, 2) == 12;
    assert Sum(RESUME_DELAYS, 4) == 37;
    assert Sum(RESUME_DELAYS, 8) == 157;
    assert Sum(RESUME_BUSY_DELAYS, 5) == 340;
  }

  /** Whatever the server does, a download ends after at most 17 requests and
      509 seconds of waiting, and never goes on after two resumes in a row
      that brought no byte. */
  lemma {:induction false} DownloadEnds(serve: (nat, Request) -> Answer, cap: nat, s: State, n: nat)
    requires Accounted(s, n)
    ensures var final := Run(serve, cap, s, n);
      && final.rounds == Rounds(final.last.tried) + 1 <= 17
      && final.last.waited <= 509
      && Stalls(final.last.log) < MAX_STALLED_RESUMES
      && s.log <= final.last.log
    decreases Left(s.tried)
  {
    hide Round;
    var step := Round(s, serve(n, RequestOf(s)), cap);
    if step.Again? {
      AccountedRound(s, serve(n, RequestOf(s)), cap, n);
      LogGrows(s, serve(n, RequestOf(s)), cap);
      DownloadEnds(serve, cap, step.next, n + 1);
    } else {
      SpentBound(s.tried);
    }
  }

  lemma LogGrows(s: State, answer: Answer, cap: nat)
    requires Round(s, answer, cap).Again?
    ensures s.log <= Round(s, answer, cap).next.log
  {
    hide GetFull, GetRest;
  }

  /** A second resume in a row that brings no byte ends the download. */
  lemma TwoStallsGiveUp(s: State, answer: Answer, cap: nat)
    requires Resumable(s.t) && s.tried.stalled == 1
    requires GetRest(s.t, s.file, answer).ending == Transport && GetRest(s.t, s.file, answer).t.size == s.t.size
    ensures Round(s, answer, cap) == GaveUp
  {
    hide GetRest;
  }

  // ----- the bytes are those of one version

  /** What a full answer may deliver: the beginning of a version, the one its
      strong validator names. */
  ghost predicate FromVersion(a: Answer, versions: iset<Text>, named: string -> Text, v: Text)
    requires a.Response?
  {
    && v in versions && Concat(a.body) <= v
    && (BodyCoding(a.headers) == Plain && RangeValidator(a.headers).Some? ==>
      v == named(RangeValidator(a.headers).value))
  }

  /** The two assumptions on the server: a strong validator names one byte
      sequence, and a 206 under If-Range delivers, from the place its
      Content-Range says, the version the validator names. */
  ghost predicate Obeys(a: Answer, request: Request, versions: iset<Text>, named: string -> Text) {
    a.Response? ==>
      match request
      case Full(_) => Success(a.status) ==> exists v: Text :: FromVersion(a, versions, named, v)
      case Rest(_, validator) =>
        a.status == 206 && a.headers.contentRange.Some? ==>
          var v, start := named(validator), a.headers.contentRange.value.start;
          v in versions && start <= |v| && Concat(a.body) <= v[start..]
  }

  ghost predicate Honest(serve: (nat, Request) -> Answer, versions: iset<Text>, named: string -> Text) {
    forall n: nat, request: Request :: Obeys(serve(n, request), request, versions, named)
  }

  ghost predicate PartOf(file: Text, versions: iset<Text>) {
    file == [] || exists v: Text :: v in versions && file <= v
  }

  /** What holds at the head of the loop: the file is the beginning of one
      version, the count and the hash are those of the file unless the
      transfer counted bytes of an earlier file too, and a transfer that will
      be resumed counts the version its validator names. */
  ghost predicate OneVersion(t: Transfer, file: Text, versions: iset<Text>, named: string -> Text) {
    && PartOf(file, versions)
    && |t.hashed| == t.size
    && (t.size > 0 ==> t.size >= |file|)
    && (t.size == |file| ==> t.hashed == file)
    && (Resumable(t) && t.size == |file| ==>
          named(t.validator.value) in versions && file <= named(t.validator.value))
  }

  /** What appending does to the file and the count, whatever the body. */
  lemma {:induction false} AppendedBytes(t: Transfer, file: Text, body: seq<Text>, end: BodyEnd)
    ensures var a := Append(t, file, body, end);
      && file <= a.file && a.file[|file|..] <= Concat(body)
      && a.t.size == t.size + |a.file| - |file| && a.t.hashed == t.hashed + a.file[|file|..]
      && (a.ending == Complete ==> a.file == file + Concat(body))
    decreases |body|
  {
    if body == [] {
      assert file[|file|..] == [] && t.hashed + [] == t.hashed && file + Concat(body) == file;
    } else if Room(t, |body[0]|) {
      var t' := t.(size := t.size + |body[0]|, hashed := t.hashed + body[0]);
      AppendedBytes(t', file + body[0], body[1..], end);
      AppendedMore(t, file, body[0], Append(t', file + body[0], body[1..], end), Concat(body[1..]));
    } else {
      assert file[|file|..] == [] && t.hashed + [] == t.hashed;
    }
  }

  lemma AppendedMore(t: Transfer, file: Text, chunk: Text, a: Attempted, rest: Text)
    requires file + chunk <= a.file && a.file[|file + chunk|..] <= rest
    requires a.t.hashed == t.hashed + chunk + a.file[|file + chunk|..]
    ensures file <= a.file && a.file[|file|..] <= chunk + rest && a.t.hashed == t.hashed + a.file[|file|..]
    ensures a.file == file + chunk + rest ==> a.file == file + (chunk + rest)
  {
    var more := a.file[|file + chunk|..];
    assert a.file[|file|..] == chunk + more;
    assert t.hashed + chunk + more == t.hashed + (chunk + more);
  }

  /** And to everything else: only the count and the hash change, the limit
      is never passed, and how it ends says how much came. */
  lemma {:induction false} AppendedEnds(t: Transfer, file: Text, body: seq<Text>, end: BodyEnd)
    ensures var a := Append(t, file, body, end);
      && a.t == t.(size := a.t.size, hashed := a.t.hashed) && a.t.size >= t.size
      && (t.limit.Some? && t.size <= t.limit.value ==> a.t.size <= t.limit.value)
      && (a.ending == Complete ==> end == Clean)
      && (a.ending == Complete && t.total.Some? ==> a.t.size >= t.total.value)
      && (a.ending == Transport && end == Clean ==> t.total.Some? && a.t.size < t.total.value)
      && !a.ending.Status? && !a.ending.Restart? && !a.ending.NotModified?
    decreases |body|
  {
    if body != [] && Room(t, |body[0]|) {
      AppendedEnds(t.(size := t.size + |body[0]|, hashed := t.hashed + body[0]), file + body[0], body[1..], end);
    }
  }

  lemma FullKeepsVersion(
    t: Transfer, file: Text, answer: Answer, cap: nat, versions: iset<Text>, named: string -> Text)
    requires OneVersion(t, file, versions, named) && Obeys(answer, Full(t.coded), versions, named)
    ensures var a := GetFull(t, file, answer, cap);
      && OneVersion(a.t, a.file, versions, named) && a.t.coded == t.coded
      && (a.ending == Complete ==> a.t.hashed == t.hashed + a.file)
      && (a.ending == Complete && t.size == 0 && a.t.total.Some? ==> |a.file| == a.t.total.value)
  {
    if answer.Response? && Success(answer.status) && BodyCoding(answer.headers) != Refused {
      var start := Started(t, answer.headers, cap);
      var v: Text :| FromVersion(answer, versions, named, v);
      AppendedBytes(start, [], answer.body, answer.end);
      AppendedEnds(start, [], answer.body, answer.end);
      FullFacts(t, start, answer, versions, named, v);
    }
  }

  lemma FullFacts(
    t: Transfer, start: Transfer, answer: Answer, versions: iset<Text>, named: string -> Text, v: Text)
    requires answer.Response? && BodyCoding(answer.headers) != Refused && |t.hashed| == t.size
    requires FromVersion(answer, versions, named, v)
    requires exists cap :: start == Started(t, answer.headers, cap)
    requires var a := Append(start, [], answer.body, answer.end);
      && a.file <= Concat(answer.body) && a.t.size == t.size + |a.file| && a.t.hashed == t.hashed + a.file
      && a.t == start.(size := a.t.size, hashed := a.t.hashed)
    ensures var a := Append(start, [], answer.body, answer.end);
      OneVersion(a.t, a.file, versions, named)
  {
    hide Append, Concat, BodyCoding, RangeValidator;
    var a := Append(start, [], answer.body, answer.end);
    assert a.file <= v;
    if t.size == 0 { assert t.hashed + a.file == a.file; }
  }

  lemma RestKeepsVersion(t: Transfer, file: Text, answer: Answer, versions: iset<Text>, named: string -> Text)
    requires OneVersion(t, file, versions, named) && Resumable(t)
    requires Obeys(answer, Rest(t.size, t.validator.value), versions, named)
    ensures var a := GetRest(t, file, answer);
      && OneVersion(a.t, a.file, versions, named) && a.t.coded == t.coded
      && (a.ending == Complete ==> a.t.hashed == a.file && a.t.total == t.total && |a.file| == t.total.value)
  {
    if |file| == t.size && answer.Response? && answer.status == 206 && Continues(t, answer.headers) {
      var t' := t.(limit := Some(answer.headers.contentRange.value.end + 1));
      AppendedBytes(t', file, answer.body, answer.end);
      AppendedEnds(t', file, answer.body, answer.end);
      RestFacts(t', file, answer, versions, named);
    }
  }

  lemma RestFacts(t: Transfer, file: Text, answer: Answer, versions: iset<Text>, named: string -> Text)
    requires answer.Response? && t.validator.Some? && t.size == |file| && t.hashed == file
    requires var v := named(t.validator.value);
      v in versions && file <= v && |file| <= |v| && Concat(answer.body) <= v[|file|..]
    requires var a := Append(t, file, answer.body, answer.end);
      && file <= a.file && a.file[|file|..] <= Concat(answer.body) && a.t.size == t.size + |a.file| - |file|
      && a.t.hashed == t.hashed + a.file[|file|..] && a.t == t.(size := a.t.size, hashed := a.t.hashed)
    ensures var a := Append(t, file, answer.body, answer.end);
      OneVersion(a.t, a.file, versions, named) && a.t.hashed == a.file
  {
    hide Append, Concat;
    var a := Append(t, file, answer.body, answer.end);
    var v := named(t.validator.value);
    assert a.file == file + a.file[|file|..];
    assert v == file + v[|file|..];
    assert a.file <= v;
  }

  lemma NewKeepsVersion(coded: bool, file: Text, versions: iset<Text>, named: string -> Text)
    requires PartOf(file, versions)
    ensures OneVersion(NewTransfer(coded), file, versions, named)
  {
  }

  /** At the head of the loop the next request is a resume, or starts with
      nothing counted. */
  predicate NotStale(t: Transfer) { t.size == 0 || Resumable(t) }

  /** A success after a request made in state `s`: its size and digest are
      those of the file exactly when the transfer was not stale. */
  ghost predicate Exact(s: State, got: Step, versions: iset<Text>)
    requires got.Got?
  {
    && PartOf(got.file, versions) && |got.t.hashed| == got.t.size
    && (got.t.size == |got.file| <==> NotStale(s.t))
    && (got.t.hashed == got.file <==> NotStale(s.t))
    && (NotStale(s.t) && got.t.total.Some? ==> |got.file| == got.t.total.value)
  }

  /** One turn keeps the file the beginning of one version. */
  lemma RoundKeepsVersion(s: State, answer: Answer, cap: nat, versions: iset<Text>, named: string -> Text)
    requires OneVersion(s.t, s.file, versions, named) && Obeys(answer, RequestOf(s), versions, named)
    ensures var step := Round(s, answer, cap);
      && (step.Again? ==> OneVersion(step.next.t, step.next.file, versions, named))
      && (step.Got? ==> Exact(s, step, versions))
  {
    var a := if Resumable(s.t) then GetRest(s.t, s.file, answer) else GetFull(s.t, s.file, answer, cap);
    if Resumable(s.t) {
      RestKeepsVersion(s.t, s.file, answer, versions, named);
    } else {
      FullKeepsVersion(s.t, s.file, answer, cap, versions, named);
    }
    hide GetRest, GetFull, Resumable;
    NewKeepsVersion(false, a.file, versions, named);
    NewKeepsVersion(a.t.coded, a.file, versions, named);
    NewKeepsVersion(!a.t.coded, a.file, versions, named);
  }

  /** The states at the head of the loop, in turn. */
  function Heads(serve: (nat, Request) -> Answer, cap: nat, s: State, n: nat): (heads: seq<State>)
    requires InBudget(s.tried)
    ensures heads != [] && heads[0] == s
    decreases Left(s.tried)
  {
    var step := Round(s, serve(n, RequestOf(s)), cap);
    if step.Again? then [s] + Heads(serve, cap, step.next, n + 1) else [s]
  }

  /** Over every run against a server that obeys If-Range, at every head of the
      loop the file is the beginning of one version; a success is exact exactly
      when the state before its request was not stale. */
  lemma {:induction false} DownloadIsOneVersion(
    serve: (nat, Request) -> Answer, cap: nat, s: State, n: nat, versions: iset<Text>, named: string -> Text)
    requires InBudget(s.tried) && Honest(serve, versions, named) && OneVersion(s.t, s.file, versions, named)
    ensures var final, heads := Run(serve, cap, s, n), Heads(serve, cap, s, n);
      && (forall h <- heads :: OneVersion(h.t, h.file, versions, named))
      && heads[|heads| - 1] == final.last
      && (final.step.Got? ==> Exact(final.last, final.step, versions))
    decreases Left(s.tried)
  {
    hide Round, Obeys, OneVersion, Exact;
    var answer := serve(n, RequestOf(s));
    RoundKeepsVersion(s, answer, cap, versions, named);
    if Round(s, answer, cap).Again? {
      RoundInBudget(s, answer, cap);
      DownloadIsOneVersion(serve, cap, Round(s, answer, cap).next, n + 1, versions, named);
    }
  }

  lemma RoundInBudget(s: State, answer: Answer, cap: nat)
    requires InBudget(s.tried) && Round(s, answer, cap).Again?
    ensures InBudget(Round(s, answer, cap).next.tried) && Left(Round(s, answer, cap).next.tried) < Left(s.tried)
  {
    hide GetRest, GetFull, Resumable;
  }

  // ----- when the count can go wrong

  /** A resumed body that delivered the file's last byte ends cleanly. */
  predicate LastByteIsClean(a: Answer) {
    a.Response? && a.status == 206 && a.headers.contentRange.Some? && a.headers.contentRange.value.total.Some? ==>
      var r := a.headers.contentRange.value;
      r.start + |Concat(a.body)| >= r.total.value ==> a.end == Clean
  }

  ghost predicate EndsCleanly(serve: (nat, Request) -> Answer) {
    forall n: nat, request: Request :: LastByteIsClean(serve(n, request))
  }

  lemma CleanRound(s: State, answer: Answer, cap: nat)
    requires NotStale(s.t) && LastByteIsClean(answer)
    ensures var step := Round(s, answer, cap); step.Again? ==> NotStale(step.next.t)
  {
    if Resumable(s.t) && |s.file| == s.t.size && answer.Response? && answer.status == 206
       && Continues(s.t, answer.headers) {
      var t' := s.t.(limit := Some(answer.headers.contentRange.value.end + 1));
      AppendedBytes(t', s.file, answer.body, answer.end);
      AppendedEnds(t', s.file, answer.body, answer.end);
      hide Append, Concat;
      var a := Append(t', s.file, answer.body, answer.end);
      assert |a.file| - |s.file| <= |Concat(answer.body)|;
    }
  }

  /** Then every success is a whole file of one version, with its own size
      and digest, and of the length announced when one was. */
  lemma {:induction false} DownloadIsExact(
    serve: (nat, Request) -> Answer, cap: nat, s: State, n: nat, versions: iset<Text>, named: string -> Text)
    requires InBudget(s.tried) && Honest(serve, versions, named) && OneVersion(s.t, s.file, versions, named)
    requires EndsCleanly(serve) && NotStale(s.t)
    ensures var final := Run(serve, cap, s, n);
      final.step.Got? ==>
        && PartOf(final.step.file, versions) && final.step.t.hashed == final.step.file
        && final.step.t.size == |final.step.file|
        && (final.step.t.total.Some? ==> |final.step.file| == final.step.t.total.value)
    decreases Left(s.tried)
  {
    hide Round, Obeys, OneVersion, LastByteIsClean, PartOf;
    var answer := serve(n, RequestOf(s));
    RoundKeepsVersion(s, answer, cap, versions, named);
    CleanRound(s, answer, cap);
    if Round(s, answer, cap).Again? {
      RoundInBudget(s, answer, cap);
      DownloadIsExact(serve, cap, Round(s, answer, cap).next, n + 1, versions, named);
    }
  }

  // A server that cuts the connection right after the last byte of a resumed
  // body, then answers the next request in full with another version, without
  // announcing a length.
  const FIRST := Headers([], Some(4), "a", "", None, None, None)
  const SECOND := Headers([], None, "", "", None, None, Some(ContentRange(2, 3, Some(4))))
  const THIRD := Headers([], None, "", "", None, None, None)

  function CutAtTheEnd(n: nat, request: Request): Answer {
    if n == 0 then Response(200, FIRST, [[1, 2]], Broken)
    else if n == 1 then (if request.Rest? then Response(206, SECOND, [[3, 4]], Broken) else NoResponse(true))
    else Response(200, THIRD, [[9]], Clean)
  }

  const OLD_VERSION: Text := [1, 2, 3, 4]
  const NEW_VERSION: Text := [9]

  function NamesOld(validator: string): Text { OLD_VERSION }

  lemma {:induction false} CodingsPlain()
    ensures BodyCoding(FIRST) == Plain && BodyCoding(SECOND) == Plain && BodyCoding(THIRD) == Plain
    ensures RangeValidator(FIRST) == Some("a") && RangeValidator(THIRD) == None
  {
  }

  /** It obeys If-Range all the same. */
  lemma {:induction false} CutIsHonest()
    ensures Honest(CutAtTheEnd, iset{OLD_VERSION, NEW_VERSION}, NamesOld)
  {
    var versions := iset{OLD_VERSION, NEW_VERSION};
    CodingsPlain();
    forall n: nat, request: Request ensures Obeys(CutAtTheEnd(n, request), request, versions, NamesOld) {
      hide BodyCoding, RangeValidator;
      var a := CutAtTheEnd(n, request);
      if n == 0 {
        OneChunk([1, 2]);
        assert FromVersion(a, versions, NamesOld, OLD_VERSION);
      } else if n == 1 {
        OneChunk([3, 4]);
        assert OLD_VERSION[2..] == [3, 4];
      } else {
        OneChunk([9]);
        assert FromVersion(a, versions, NamesOld, NEW_VERSION);
      }
    }
  }

  lemma {:induction false} OneChunk(chunk: Text)
    ensures Concat([chunk]) == chunk
  {
    assert Concat([chunk]) == chunk + Concat([]);
  }

  const AFTER_FIRST: Transfer := Transfer(2, [1, 2], Some(4), Some("a"), true, Some(4), false, None)
  const AFTER_SECOND: Transfer := Transfer(4, [1, 2, 3, 4], Some(4), Some("a"), true, Some(4), false, None)

  lemma {:induction false} FirstTurn(cap: nat)
    ensures Round(InitialState(false), CutAtTheEnd(0, Full(false)), cap) ==
      Again(State(AFTER_FIRST, [1, 2], Attempts(0, 1, 0, 0, false), 2, [Resumed(true)]))
  {
    var s := InitialState(false);
    CodingsPlain();
    AppendOne(Started(s.t, FIRST, cap), [], [1, 2], Broken);
    assert GetFull(s.t, [], CutAtTheEnd(0, Full(false)), cap) == Attempted(AFTER_FIRST, [1, 2], Transport);
  }

  lemma {:induction false} SecondTurn(cap: nat)
    ensures var s := State(AFTER_FIRST, [1, 2], Attempts(0, 1, 0, 0, false), 2, [Resumed(true)]);
      && RequestOf(s) == Rest(2, "a")
      && Round(s, CutAtTheEnd(1, RequestOf(s)), cap) ==
           Again(State(AFTER_SECOND, [1, 2, 3, 4], Attempts(0, 2, 0, 0, false), 7, [Resumed(true), Resumed(true)]))
  {
    CodingsPlain();
    AppendOne(AFTER_FIRST, [1, 2], [3, 4], Broken);
    assert GetRest(AFTER_FIRST, [1, 2], CutAtTheEnd(1, Rest(2, "a"))) ==
      Attempted(AFTER_SECOND, [1, 2, 3, 4], Transport);
  }

  lemma {:induction false} ThirdTurn(cap: nat, s: State)
    requires s.t == AFTER_SECOND
    ensures RequestOf(s) == Full(false)
    ensures var step := Round(s, CutAtTheEnd(2, RequestOf(s)), cap);
      step.Got? && step.file == [9] && step.t.size == 5 && step.t.hashed == [1, 2, 3, 4, 9]
  {
    CodingsPlain();
    AppendOne(Started(AFTER_SECOND, THIRD, cap), [], [9], Clean);
  }

  /** The result then counts and hashes five bytes for a file of one. */
  lemma {:induction false} StaleTransfer(cap: nat)
    ensures Honest(CutAtTheEnd, iset{OLD_VERSION, NEW_VERSION}, NamesOld)
    ensures var final := Run(CutAtTheEnd, cap, InitialState(false), 0);
      && !NotStale(final.last.t) && final.step.Got? && final.step.file == [9]
      && final.step.t.size == 5 && final.step.t.hashed == [1, 2, 3, 4, 9]
  {
    hide Round, Honest;
    CutIsHonest();
    FirstTurn(cap);
    SecondTurn(cap);
    var s1 := State(AFTER_FIRST, [1, 2], Attempts(0, 1, 0, 0, false), 2, [Resumed(true)]);
    var s2 := State(AFTER_SECOND, [1, 2, 3, 4], Attempts(0, 2, 0, 0, false), 7, [Resumed(true), Resumed(true)]);
    ThirdTurn(cap, s2);
    assert Run(CutAtTheEnd, cap, s2, 2).step == Round(s2, CutAtTheEnd(2, RequestOf(s2)), cap);
    assert Run(CutAtTheEnd, cap, s1, 1) == Run(CutAtTheEnd, cap, s2, 2);
  }

  lemma AppendOne(t: Transfer, file: Text, chunk: Text, end: BodyEnd)
    requires Room(t, |chunk|)
    ensures var t' := t.(size := t.size + |chunk|, hashed := t.hashed + chunk);
      Append(t, file, [chunk], end) == Attempted(t', file + chunk, BodyEnding(t', end))
  {
    assert [chunk][1..] == [];
  }
}
