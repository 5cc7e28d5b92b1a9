/** A download of announced length is a whole version (app/feed_fetch.py). */
module DownloadWhole {
  import opened Bytes
  import opened Download

  /** A plain full answer that announces a length announces that of the
      version it is from. */
  ghost predicate AnnouncesLength(a: Answer, request: Request, versions: iset<Text>, named: string -> Text) {
    request.Full? && a.Response? && Success(a.status) && FullLength(a.headers).Some? ==>
      exists v: Text :: FromVersion(a, versions, named, v) && |v| == FullLength(a.headers).value
  }

  ghost predicate TrueLengths(serve: (nat, Request) -> Answer, versions: iset<Text>, named: string -> Text) {
    forall n: nat, request: Request :: AnnouncesLength(serve(n, request), request, versions, named)
  }

  /** A transfer that will be resumed knows the size of its version. */
  predicate Sized(t: Transfer, named: string -> Text) {
    Resumable(t) ==> |named(t.validator.value)| == t.total.value
  }

  lemma {:induction false} PrefixIsWhole(file: Text, v: Text)
    requires file <= v && |file| == |v|
    ensures file == v
  {
  }

  lemma {:induction false} FullSized(
    t: Transfer, file: Text, answer: Answer, cap: nat, versions: iset<Text>, named: string -> Text)
    requires OneVersion(t, file, versions, named) && !Resumable(t) && Obeys(answer, Full(t.coded), versions, named)
    requires AnnouncesLength(answer, Full(t.coded), versions, named)
    ensures var a := GetFull(t, file, answer, cap);
      && Sized(a.t, named)
      && (a.ending == Complete && t.size == 0 && a.t.total.Some? ==> a.file in versions)
  {
    FullKeepsVersion(t, file, answer, cap, versions, named);
    if answer.Response? && Success(answer.status) && BodyCoding(answer.headers) != Refused {
      var start := Started(t, answer.headers, cap);
      AppendedBytes(start, [], answer.body, answer.end);
      AppendedEnds(start, [], answer.body, answer.end);
      if FullLength(answer.headers).Some? {
        var v: Text :| FromVersion(answer, versions, named, v) && |v| == FullLength(answer.headers).value;
        hide Append, Concat;
        var a := Append(start, [], answer.body, answer.end);
        assert a.file[0..] == a.file && a.file <= v;
        if a.ending == Complete && t.size == 0 { PrefixIsWhole(a.file, v); }
      }
    }
  }

  lemma {:induction false} RestSized(
    t: Transfer, file: Text, answer: Answer, versions: iset<Text>, named: string -> Text)
    requires OneVersion(t, file, versions, named) && Resumable(t) && Sized(t, named)
    requires Obeys(answer, Rest(t.size, t.validator.value), versions, named)
    ensures var a := GetRest(t, file, answer);
      Sized(a.t, named) && (a.ending == Complete ==> a.file in versions)
  {
    RestKeepsVersion(t, file, answer, versions, named);
    if |file| == t.size && answer.Response? && answer.status == 206 && Continues(t, answer.headers) {
      var t' := t.(limit := Some(answer.headers.contentRange.value.end + 1));
      AppendedBytes(t', file, answer.body, answer.end);
      AppendedEnds(t', file, answer.body, answer.end);
      RestWhole(t', file, answer, named(t.validator.value));
    }
  }

  lemma {:induction false} RestWhole(t: Transfer, file: Text, answer: Answer, v: Text)
    requires answer.Response? && file <= v && |file| <= |v| && Concat(answer.body) <= v[|file|..]
    requires var a := Append(t, file, answer.body, answer.end);
      file <= a.file && a.file[|file|..] <= Concat(answer.body)
    ensures var a := Append(t, file, answer.body, answer.end);
      a.file <= v && (|a.file| == |v| ==> a.file == v)
  {
    hide Append, Concat;
    var a := Append(t, file, answer.body, answer.end);
    assert a.file == file + a.file[|file|..] && v == file + v[|file|..];
    if |a.file| == |v| { PrefixIsWhole(a.file, v); }
  }

  lemma {:induction false} WholeRound(s: State, answer: Answer, cap: nat, versions: iset<Text>, named: string -> Text)
    requires OneVersion(s.t, s.file, versions, named) && Sized(s.t, named)
    requires Obeys(answer, RequestOf(s), versions, named) && AnnouncesLength(answer, RequestOf(s), versions, named)
    ensures var step := Round(s, answer, cap);
      && (step.Again? ==> Sized(step.next.t, named))
      && (step.Got? && NotStale(s.t) && step.t.total.Some? ==> step.file in versions)
  {
    if Resumable(s.t) {
      RestSized(s.t, s.file, answer, versions, named);
    } else {
      FullSized(s.t, s.file, answer, cap, versions, named);
    }
    hide GetRest, GetFull;
  }

  /** Over every run: a success whose length was announced is a whole version,
      with its own size and digest. */
  lemma {:induction false} DownloadIsWhole(
    serve: (nat, Request) -> Answer, cap: nat, s: State, n: nat, versions: iset<Text>, named: string -> Text)
    requires InBudget(s.tried) && Honest(serve, versions, named) && OneVersion(s.t, s.file, versions, named)
    requires EndsCleanly(serve) && NotStale(s.t) && TrueLengths(serve, versions, named) && Sized(s.t, named)
    ensures var final := Run(serve, cap, s, n);
      final.step.Got? && final.step.t.total.Some? ==>
        && final.step.file in versions && final.step.t.hashed == final.step.file
        && final.step.t.size == |final.step.file|
    decreases Left(s.tried)
  {
    hide Round, Obeys, OneVersion, LastByteIsClean, PartOf, AnnouncesLength, Sized, NotStale;
    var answer := serve(n, RequestOf(s));
    RoundKeepsVersion(s, answer, cap, versions, named);
    CleanRound(s, answer, cap);
    WholeRound(s, answer, cap, versions, named);
    if Round(s, answer, cap).Again? {
      RoundInBudget(s, answer, cap);
      DownloadIsWhole(serve, cap, Round(s, answer, cap).next, n + 1, versions, named);
    }
  }

  /** The state every download starts with meets what the theorems ask. */
  lemma {:induction false} AtTheStart(coded: bool, versions: iset<Text>, named: string -> Text)
    ensures var s := InitialState(coded);
      && InBudget(s.tried) && OneVersion(s.t, s.file, versions, named) && NotStale(s.t) && Sized(s.t, named)
      && Accounted(s, 0)
  {
  }
}
