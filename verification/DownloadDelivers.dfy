/** What each answer of the server makes of a download, and which servers it
    gets the file from (app/feed_fetch.py): the limits and delays written out. */
module DownloadDelivers {
  import opened Bytes
  import opened Download

  // ----- what an answer of the server says

  /** Not one of the codings that compress. */
  ghost predicate IsPlain(h: Headers) {
    forall token <- h.coding ::
      && token != "gzip" && token != "deflate" && token != "br" && token != "zstd" && token != "compress"
      && token != "x-gzip" && token != "x-compress"
  }

  ghost predicate IsStrong(etag: string) { etag != "" && !(|etag| >= 2 && etag[0] == 'W' && etag[1] == '/') }

  /** The version can be named in a range request, and ranges are offered. */
  ghost predicate CanGoOn(h: Headers) {
    && (IsStrong(h.etag) || (h.lastModified != "" && h.ageSeconds.Some? && h.ageSeconds.value >= 1))
    && (h.ranges.None? || "bytes" in h.ranges.value)
  }

  ghost predicate IsBusy(status: nat) {
    status == 429 || status == 500 || status == 502 || status == 503 || status == 504
  }

  lemma {:induction false} CountIs(tokens: seq<string>, word: string)
    ensures Count(tokens, word) > 0 <==> word in tokens
  {
    if tokens != [] { CountIs(tokens[1..], word); }
  }

  lemma {:induction false} PlainIs(h: Headers)
    ensures BodyCoding(h) == Plain <==> IsPlain(h)
  {
    CountIs(h.coding, "gzip");
  }

  lemma WeakBegins(etag: string)
    ensures "W/" <= etag <==> |etag| >= 2 && etag[0] == 'W' && etag[1] == '/'
  {
  }

  lemma {:induction false} ValidatorIs(h: Headers)
    ensures IsStrong(h.etag) ==> RangeValidator(h) == Some(h.etag)
    ensures !IsStrong(h.etag) && h.lastModified != "" && h.ageSeconds.Some? && h.ageSeconds.value >= 1 ==>
      RangeValidator(h) == Some(h.lastModified)
    ensures CanGoOn(h) <==> RangeValidator(h).Some? && RangesOffered(h)
  {
    WeakBegins(h.etag);
  }

  /** Bytes held of a version whose rest can be asked for. */
  ghost predicate Holds(s: State) {
    && !s.t.coded && s.t.ranges && s.t.validator.Some? && s.t.total.Some? && 0 < s.t.size < s.t.total.value
    && |s.file| == s.t.size && s.t.cap.None?
  }

  /** A 206 that goes on at the next byte of the same file, uncoded. */
  ghost predicate GoesOn(t: Transfer, a: Answer) {
    && a.Response? && a.status == 206 && IsPlain(a.headers) && a.headers.contentRange.Some?
    && var r := a.headers.contentRange.value;
       r.start == t.size && r.total.Some? && r.total == t.total && t.size <= r.end < r.total.value
  }

  // ----- one body

  /** A body within the room announced is all written. */
  lemma {:induction false} AllAppended(t: Transfer, file: Text, body: seq<Text>, end: BodyEnd)
    requires t.limit.Some? ==> t.size + |Concat(body)| <= t.limit.value
    requires t.cap.Some? ==> t.size + |Concat(body)| <= t.cap.value
    ensures var t' := t.(size := t.size + |Concat(body)|, hashed := t.hashed + Concat(body));
      Append(t, file, body, end) == Attempted(t', file + Concat(body), BodyEnding(t', end))
    decreases |body|
  {
    if body == [] {
      assert t.hashed + [] == t.hashed && file + [] == file;
    } else {
      var c, rest := body[0], Concat(body[1..]);
      AllAppended(t.(size := t.size + |c|, hashed := t.hashed + c), file + c, body[1..], end);
      assert t.hashed + c + rest == t.hashed + (c + rest) && file + c + rest == file + (c + rest);
    }
  }

  /** A body past the room announced is refused, and the download with it. */
  lemma {:induction false} TooMuch(t: Transfer, file: Text, body: seq<Text>, end: BodyEnd)
    requires t.limit.Some? && t.size <= t.limit.value < t.size + |Concat(body)|
    ensures Append(t, file, body, end).ending == Fatal
    decreases |body|
  {
    if |body| > 0 && t.size + |body[0]| <= t.limit.value && Room(t, |body[0]|) {
      TooMuch(t.(size := t.size + |body[0]|, hashed := t.hashed + body[0]), file + body[0], body[1..], end);
    }
  }

  // ----- one request for the rest

  /** A busy server is asked again for the same bytes, up to five times: neither
      a resume nor a stall. */
  lemma BusyWaits(s: State, a: Answer, cap: nat)
    requires Holds(s) && a.Response? && IsBusy(a.status)
    ensures var step := Round(s, a, cap);
      if s.tried.busy >= 5 then step == GaveUp
      else
        && step.Again? && step.next.t == s.t && step.next.file == s.file
        && step.next.tried == s.tried.(busy := s.tried.busy + 1)
        && step.next.waited == s.waited + [10, 30, 60, 120, 120][s.tried.busy]
  {
  }

  /** The rest of the file, whole. */
  lemma RestDelivers(s: State, a: Answer, cap: nat)
    requires Holds(s) && GoesOn(s.t, a) && a.end == Clean
    requires s.t.size + |Concat(a.body)| == s.t.total.value == a.headers.contentRange.value.end + 1
    ensures var step := Round(s, a, cap);
      && step.Got? && step.file == s.file + Concat(a.body)
      && step.t.size == s.t.total.value && step.t.hashed == s.t.hashed + Concat(a.body)
  {
    hide BodyCoding;
    PlainIs(a.headers);
    AllAppended(s.t.(limit := Some(a.headers.contentRange.value.end + 1)), s.file, a.body, a.end);
  }

  /** A resume cut with or without new bytes: the next one goes on from there,
      up to eight in all and not after two in a row without a byte. */
  lemma RestCut(s: State, a: Answer, cap: nat)
    requires Holds(s) && GoesOn(s.t, a) && (a.end == Broken || a.end == Clean)
    requires s.t.size + |Concat(a.body)| <= a.headers.contentRange.value.end + 1
    requires s.t.size + |Concat(a.body)| < s.t.total.value
    ensures var step, progress := Round(s, a, cap), |Concat(a.body)| > 0;
      if (!progress && s.tried.stalled >= 1) || s.tried.resumes >= 8 then step == GaveUp
      else
        && step.Again? && step.next.file == s.file + Concat(a.body)
        && step.next.t.size == s.t.size + |Concat(a.body)| && step.next.t.hashed == s.t.hashed + Concat(a.body)
        && step.next.t.total == s.t.total && step.next.t.validator == s.t.validator
        && step.next.t.coded == s.t.coded && step.next.t.ranges == s.t.ranges && step.next.t.cap == s.t.cap
        && step.next.tried == s.tried.(
             resumes := s.tried.resumes + 1, stalled := if progress then 0 else s.tried.stalled + 1)
        && step.next.waited == s.waited + [2, 5, 10, 20, 30, 30, 30, 30][s.tried.resumes]
  {
    hide BodyCoding;
    PlainIs(a.headers);
    AllAppended(s.t.(limit := Some(a.headers.contentRange.value.end + 1)), s.file, a.body, a.end);
  }

  /** No answer to a resume is one without a byte. */
  lemma RestSilent(s: State, cap: nat)
    requires Holds(s)
    ensures var step := Round(s, NoResponse(true), cap);
      if s.tried.stalled >= 1 || s.tried.resumes >= 8 then step == GaveUp
      else
        && step.Again? && step.next.t == s.t && step.next.file == s.file
        && step.next.tried == s.tried.(resumes := s.tried.resumes + 1, stalled := s.tried.stalled + 1)
        && step.next.waited == s.waited + [2, 5, 10, 20, 30, 30, 30, 30][s.tried.resumes]
  {
  }

  /** Any answer to a resume that does not go on with the file (another version,
      a refused range, a coded body) starts anew from byte 0, up to twice. */
  lemma RestRefused(s: State, a: Answer, cap: nat)
    requires Holds(s) && a.Response?
    requires if a.status == 206 then !GoesOn(s.t, a) else a.status < 400 || a.status == 406 || a.status == 416
    ensures var step := Round(s, a, cap);
      if s.tried.restarts >= 2 then step == GaveUp
      else
        && step.Again? && step.next.t == NewTransfer(false) && step.next.file == s.file
        && step.next.tried == s.tried.(restarts := s.tried.restarts + 1, stalled := 0)
        && step.next.waited == s.waited + [2, 10][s.tried.restarts]
  {
    hide BodyCoding;
    if a.status == 206 { PlainIs(a.headers); }
  }

  /** Any other error ends the download. */
  lemma RestFails(s: State, a: Answer, cap: nat)
    requires Holds(s)
    requires match a
      case NoResponse(transport) => !transport
      case Response(status, _, _, _) => status >= 400 && status != 406 && status != 416 && !IsBusy(status)
    ensures Round(s, a, cap) == GaveUp
  {
  }

  // ----- one request for the whole

  /** The next request is for the whole file. */
  ghost predicate FromZero(s: State) { s.t == NewTransfer(s.t.coded) }

  /** A plain answer whose body comes whole. */
  lemma FullDelivers(s: State, a: Answer, cap: nat)
    requires FromZero(s) && a.Response? && 200 <= a.status < 300 && IsPlain(a.headers) && a.end == Clean
    requires a.headers.length == None || a.headers.length == Some(|Concat(a.body)|)
    ensures var step := Round(s, a, cap);
      && step.Got? && step.file == Concat(a.body)
      && step.t.size == |Concat(a.body)| && step.t.hashed == Concat(a.body)
  {
    hide BodyCoding, RangeValidator;
    PlainIs(a.headers);
    var start := Started(s.t, a.headers, cap);
    if |Concat(a.body)| == 0 || a.headers.length == None {
      assert FullLength(a.headers) == None;
    }
    AllAppended(start, [], a.body, a.end);
    assert [] + Concat(a.body) == Concat(a.body);
  }

  /** A plain answer cut after some bytes: they are kept and the rest asked for,
      when the version can be named; else all starts anew. */
  lemma FullCut(s: State, a: Answer, cap: nat)
    requires FromZero(s) && !s.t.coded && a.Response? && 200 <= a.status < 300 && IsPlain(a.headers)
    requires a.headers.length.Some? && 0 < |Concat(a.body)| < a.headers.length.value && a.end != Corrupt
      && a.end != Excess
    ensures var step, h, bytes := Round(s, a, cap), a.headers, Concat(a.body);
      if CanGoOn(h) then
        if s.tried.resumes >= 8 then step == GaveUp
        else
          && step.Again? && step.next.file == bytes && step.next.t.size == |bytes| && step.next.t.hashed == bytes
          && step.next.t.total == Some(h.length.value) && step.next.t.ranges && !step.next.t.coded
          && step.next.t.cap.None? && step.next.t.validator == Some(if IsStrong(h.etag) then h.etag else h.lastModified)
          && step.next.tried == s.tried.(resumes := s.tried.resumes + 1, stalled := 0)
          && step.next.waited == s.waited + [2, 5, 10, 20, 30, 30, 30, 30][s.tried.resumes]
      else if s.tried.restarts >= 2 then step == GaveUp
      else
        && step.Again? && FromZero(step.next) && !step.next.t.coded
        && step.next.tried == s.tried.(restarts := s.tried.restarts + 1, stalled := 0)
        && step.next.waited == s.waited + [2, 10][s.tried.restarts]
  {
    hide BodyCoding, RangeValidator, RangesOffered;
    PlainIs(a.headers);
    ValidatorIs(a.headers);
    AllAppended(Started(s.t, a.headers, cap), [], a.body, a.end);
    assert [] + Concat(a.body) == Concat(a.body);
  }

  /** No answer, a busy server: all starts anew, up to twice. */
  lemma FullFails(s: State, a: Answer, cap: nat)
    requires FromZero(s)
    requires match a
      case NoResponse(transport) => transport
      case Response(status, _, _, _) => IsBusy(status)
    ensures var step := Round(s, a, cap);
      if s.tried.restarts >= 2 then step == GaveUp
      else
        && step.Again? && step.next.t == s.t && step.next.file == s.file
        && step.next.tried == s.tried.(restarts := s.tried.restarts + 1, stalled := 0)
        && step.next.waited == s.waited + [2, 10][s.tried.restarts]
  {
  }

  /** Not modified; refused codings, once the other way; other errors. */
  lemma FullOther(s: State, a: Answer, cap: nat)
    requires FromZero(s) && a.Response? && !(200 <= a.status < 300) && !IsBusy(a.status)
    ensures a.status == 304 ==> Round(s, a, cap) == Unmodified
    ensures a.status == 406 && !s.tried.switched ==>
      var step := Round(s, a, cap);
      && step.Again? && step.next.t == NewTransfer(!s.t.coded)
      && step.next.tried == s.tried.(switched := true) && step.next.waited == s.waited
    ensures a.status != 304 && (a.status != 406 || s.tried.switched) ==> Round(s, a, cap) == GaveUp
  {
  }

  /** An answer in a coding that is not unpacked ends the download. */
  lemma {:induction false} FullRefused(s: State, a: Answer, cap: nat)
    requires FromZero(s) && a.Response? && 200 <= a.status < 300
    requires exists token <- a.headers.coding ::
      token == "deflate" || token == "br" || token == "zstd" || token == "compress" || token == "x-gzip"
      || token == "x-compress"
    ensures Round(s, a, cap) == GaveUp
  {
  }

  /** A gzip body, unpacked: taken up to the limit of what it may unpack to,
      refused past it. */
  lemma {:induction false} FullUnpacked(s: State, a: Answer, cap: nat)
    requires FromZero(s) && a.Response? && 200 <= a.status < 300 && a.headers.coding == ["gzip"] && a.end == Clean
    ensures var step := Round(s, a, cap);
      if |Concat(a.body)| <= cap
      then step.Got? && step.file == Concat(a.body) && step.t.size == |Concat(a.body)|
        && step.t.hashed == Concat(a.body)
      else step == GaveUp
  {
    hide RangeValidator;
    assert Count(a.headers.coding, "gzip") == 1;
    var start := Started(s.t, a.headers, cap);
    if |Concat(a.body)| <= cap {
      AllAppended(start, [], a.body, a.end);
      assert [] + Concat(a.body) == Concat(a.body);
    } else {
      PastTheCap(start, [], a.body, a.end);
    }
  }

  lemma {:induction false} PastTheCap(t: Transfer, file: Text, body: seq<Text>, end: BodyEnd)
    requires t.limit.None? && t.cap.Some? && t.size <= t.cap.value < t.size + |Concat(body)|
    ensures Append(t, file, body, end).ending == Fatal
    decreases |body|
  {
    if |body| > 0 && t.size + |body[0]| <= t.cap.value {
      PastTheCap(t.(size := t.size + |body[0]|, hashed := t.hashed + body[0]), file + body[0], body[1..], end);
    }
  }

  /** A body past the length announced ends the download. */
  lemma {:induction false} FullTooLong(s: State, a: Answer, cap: nat)
    requires FromZero(s) && a.Response? && 200 <= a.status < 300 && IsPlain(a.headers)
    requires a.headers.length.Some? && 0 < a.headers.length.value < |Concat(a.body)|
    ensures Round(s, a, cap) == GaveUp
  {
    hide BodyCoding, RangeValidator;
    PlainIs(a.headers);
    TooMuch(Started(s.t, a.headers, cap), [], a.body, a.end);
  }

  // ----- which servers the file comes from

  /** A server that has the bytes `v` under the name `tag`: it is busy, sends
      nothing, sends some more bytes, or sends all that is asked. */
  datatype Event = Busy | Silent | Cut | Whole

  ghost predicate Sends(a: Answer, request: Request, v: Text, tag: string, until: nat) {
    && a.Response? && IsPlain(a.headers) && 0 < |v| && until <= |v|
    && match request
       case Full(_) =>
         && a.status == 200 && a.headers.length == Some(|v|) && a.headers.etag == tag
         && a.headers.ranges == None && Concat(a.body) == v[..until]
       case Rest(from, _) =>
         && a.status == 206 && a.headers.contentRange == Some(ContentRange(from, |v| - 1, Some(|v|)))
         && from <= until && Concat(a.body) == v[from..until]
  }

  function Asked(request: Request): nat { if request.Rest? then request.from else 0 }

  ghost predicate Does(a: Answer, request: Request, v: Text, tag: string, event: Event) {
    Asked(request) < |v| ==>
      match event
      case Busy => a.Response? && IsBusy(a.status)
      case Silent => a == NoResponse(true)
      case Cut => exists until :: Asked(request) < until < |v| && Sends(a, request, v, tag, until) && a.end == Broken
      case Whole => Sends(a, request, v, tag, |v|) && a.end == Clean
  }

  ghost predicate Follows(serve: (nat, Request) -> Answer, n: nat, script: seq<Event>, v: Text, tag: string) {
    forall k: nat, request: Request :: n <= k < n + |script| ==>
      Does(serve(k, request), request, v, tag, script[k - n])
  }

  /** What the script takes of the limits: with bytes held, eight resumes, not
      two in a row without a byte, and five waits; without, two new starts. */
  predicate Enough(script: seq<Event>, held: bool, resumes: nat, restarts: nat, busy: nat, stalled: nat) {
    if script == [] then false
    else
      match script[0]
      case Whole => true
      case Cut => resumes < 8 && Enough(script[1..], true, resumes + 1, restarts, busy, 0)
      case Busy =>
        if held then busy < 5 && Enough(script[1..], true, resumes, restarts, busy + 1, stalled)
        else restarts < 2 && Enough(script[1..], false, resumes, restarts + 1, busy, 0)
      case Silent =>
        if held then
          resumes < 8 && stalled + 1 < 2 && Enough(script[1..], true, resumes + 1, restarts, busy, stalled + 1)
        else restarts < 2 && Enough(script[1..], false, resumes, restarts + 1, busy, 0)
  }

  /** At the start, or with the first bytes of the version held. */
  ghost predicate Underway(s: State, v: Text, tag: string) {
    && InBudget(s.tried) && |v| > 0 && IsStrong(tag)
    && (s.t == NewTransfer(false)
        || (Holds(s) && s.t.size < |v| && s.file == v[..s.t.size] && s.t.hashed == s.file
            && s.t.total == Some(|v|) && s.t.validator == Some(tag)))
  }

  /** One request and what the script says of it. */
  lemma {:induction false} EventStep(s: State, a: Answer, cap: nat, v: Text, tag: string, event: Event)
    requires Underway(s, v, tag) && Does(a, RequestOf(s), v, tag, event)
    ensures var step, held := Round(s, a, cap), s.t != NewTransfer(false);
      match event
      case Whole => step.Got? && step.file == v && step.t.size == |v| && step.t.hashed == v
      case Cut =>
        if s.tried.resumes >= 8 then step == GaveUp
        else Moves(step, v, tag, s.tried.(resumes := s.tried.resumes + 1, stalled := 0), true)
      case Busy =>
        if held then
          if s.tried.busy >= 5 then step == GaveUp
          else Moves(step, v, tag, s.tried.(busy := s.tried.busy + 1), true)
        else if s.tried.restarts >= 2 then step == GaveUp
        else Moves(step, v, tag, s.tried.(restarts := s.tried.restarts + 1, stalled := 0), false)
      case Silent =>
        if held then
          if s.tried.stalled >= 1 || s.tried.resumes >= 8 then step == GaveUp
          else Moves(step, v, tag, s.tried.(resumes := s.tried.resumes + 1, stalled := s.tried.stalled + 1), true)
        else if s.tried.restarts >= 2 then step == GaveUp
        else Moves(step, v, tag, s.tried.(restarts := s.tried.restarts + 1, stalled := 0), false)
  {
    hide Round, BodyCoding, RangeValidator, Concat, IsPlain;
    if s.t == NewTransfer(false) {
      match event
      case Whole =>
        assert v[..|v|] == v;
        FullDelivers(s, a, cap);
      case Cut => FullCut(s, a, cap);
      case Busy => FullFails(s, a, cap);
      case Silent => FullFails(s, a, cap);
    } else {
      match event
      case Whole =>
        assert v[..s.t.size] + v[s.t.size..|v|] == v;
        RestDelivers(s, a, cap);
      case Cut =>
        RestCut(s, a, cap);
        CutJoins(s, a, v, tag);
      case Busy => BusyWaits(s, a, cap);
      case Silent => RestSilent(s, cap);
    }
  }

  ghost predicate Moves(step: Step, v: Text, tag: string, tried: Attempts, held: bool) {
    step.Again? && Underway(step.next, v, tag) && step.next.tried == tried
      && (step.next.t != NewTransfer(false) <==> held)
  }

  lemma {:induction false} CutJoins(s: State, a: Answer, v: Text, tag: string)
    requires Underway(s, v, tag) && s.t != NewTransfer(false) && Does(a, RequestOf(s), v, tag, Cut)
    ensures |Concat(a.body)| > 0 && s.t.size + |Concat(a.body)| < |v|
    ensures s.file + Concat(a.body) == v[..s.t.size + |Concat(a.body)|]
  {
    var until :| s.t.size < until < |v| && Sends(a, RequestOf(s), v, tag, until);
    assert v[..s.t.size] + v[s.t.size..until] == v[..until];
  }

  /** The file comes, whole, exactly when the script comes to its end within the
      limits; else the download is given up. */
  lemma {:induction false} ScriptDelivers(
    serve: (nat, Request) -> Answer, cap: nat, s: State, n: nat, script: seq<Event>, v: Text, tag: string)
    requires Underway(s, v, tag) && Follows(serve, n, script, v, tag) && Whole in script
    ensures var step, held := Run(serve, cap, s, n).step, s.t != NewTransfer(false);
      if Enough(script, held, s.tried.resumes, s.tried.restarts, s.tried.busy, s.tried.stalled)
      then step.Got? && step.file == v && step.t.size == |v| && step.t.hashed == v
      else step == GaveUp
    decreases |script|
  {
    hide Round, Does;
    var a := serve(n, RequestOf(s));
    assert Does(a, RequestOf(s), v, tag, script[n - n]);
    EventStep(s, a, cap, v, tag, script[0]);
    if Round(s, a, cap).Again? {
      FollowsOn(serve, n, script, v, tag);
      ScriptDelivers(serve, cap, Round(s, a, cap).next, n + 1, script[1..], v, tag);
    }
  }

  lemma {:induction false} FollowsOn(
    serve: (nat, Request) -> Answer, n: nat, script: seq<Event>, v: Text, tag: string)
    requires Follows(serve, n, script, v, tag) && script != []
    ensures Follows(serve, n + 1, script[1..], v, tag)
  {
    hide Does;
    var m := n + 1;
    forall k: nat, r: Request | m <= k < m + |script[1..]| ensures Does(serve(k, r), r, v, tag, script[1..][k - m]) {
      assert Does(serve(k, r), r, v, tag, script[k - n]);
    }
  }

  /** A download from the start. */
  lemma {:induction false} FileArrives(
    serve: (nat, Request) -> Answer, cap: nat, script: seq<Event>, v: Text, tag: string)
    requires |v| > 0 && IsStrong(tag) && Follows(serve, 0, script, v, tag) && Whole in script
    ensures var step := Run(serve, cap, InitialState(false), 0).step;
      if Enough(script, false, 0, 0, 0, 0) then step.Got? && step.file == v && step.t.hashed == v else step == GaveUp
  {
    ScriptDelivers(serve, cap, InitialState(false), 0, script, v, tag);
  }
}
