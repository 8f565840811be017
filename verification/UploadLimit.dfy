/** The upload middleware as a filter between the server's message stream and any application. */
module UploadLimit {
  import opened Prelude

  const MULTIPART_OVERHEAD_BYTES := 1024 * 1024

  datatype Message = Request(body: seq<bv8>) | Disconnect

  datatype Response = Start(status: int) | Body

  /** What an application does: take a message or send one. It may go on after an exception. */
  datatype Action = Receive | Send(message: Response)

  datatype Ending = Returns | RaisesTooLarge | RaisesOther

  datatype Header = Header(name: string, value: Option<int>)   // the value as int() reads it, if it does

  datatype Scope = Scope(kind: string, verb: Option<string>, path: Option<string>, headers: seq<Header>)

  /** `source` is what is still to come; the rest is what has happened so far. */
  datatype Stream = Stream(
    source: seq<Message>, received: nat, responseStarted: bool,
    delivered: seq<Message>, raised: nat, sent: seq<Response>)

  function Size(m: Message): nat { if m.Request? then |m.body| else 0 }

  function Total(ms: seq<Message>): nat {
    if ms == [] then 0 else Size(ms[0]) + Total(ms[1..])
  }

  function Starts(rs: seq<Response>): nat { Count(rs, (r: Response) => r.Start?) }

  function Step(limit: nat, s: Stream, a: Action): Stream {
    match a
    case Send(r) => s.(responseStarted := s.responseStarted || r.Start?, sent := s.sent + [r])
    case Receive =>
      if s.source == [] then s
      else
        var m := s.source[0];
        var received := s.received + Size(m);
        var t := s.(source := s.source[1..], received := received);
        if m.Request? && received > limit then t.(raised := s.raised + 1)
        else t.(delivered := s.delivered + [m])
  }

  function Run(limit: nat, s: Stream, app: seq<Action>): Stream
    decreases |app|
  {
    if app == [] then s else Run(limit, Step(limit, s, app[0]), app[1..])
  }

  function Begin(source: seq<Message>): Stream { Stream(source, 0, false, [], 0, []) }

  const REJECTION := [Start(413), Body]

  datatype Result = Result(sent: seq<Response>, delivered: seq<Message>, reraises: bool)

  predicate IsUpload(scope: Scope) {
    scope.kind == "http" && scope.verb == Some("POST") && scope.path == Some("/api/v1/imports/inspect")
  }

  function Lower(name: string): string {
    seq(|name|, i requires 0 <= i < |name| =>
      if 'A' <= name[i] <= 'Z' then (name[i] as int + 32) as char else name[i])
  }

  /** The first content-length header decides; one that is not a number counts as absent. */
  function ContentLength(headers: seq<Header>): (r: Option<nat>) {
    if headers == [] then None
    else if Lower(headers[0].name) != "content-length" then ContentLength(headers[1..])
    else if headers[0].value.None? then None
    else Some(if headers[0].value.value < 0 then 0 else headers[0].value.value)
  }

  predicate DeclaredTooLarge(limit: nat, scope: Scope) {
    ContentLength(scope.headers).Some? && ContentLength(scope.headers).value > limit
  }

  /** The application on the bare stream. */
  function Direct(source: seq<Message>, app: seq<Action>, ending: Ending): Result {
    var s := Plain(Begin(source), app);
    Result(s.sent, s.delivered, ending != Returns)
  }

  function Plain(s: Stream, app: seq<Action>): Stream
    decreases |app|
  {
    if app == [] then s
    else if app[0].Receive? && s.source != [] then
      Plain(s.(source := s.source[1..], delivered := s.delivered + [s.source[0]]), app[1..])
    else if app[0].Send? then Plain(s.(sent := s.sent + [app[0].message]), app[1..])
    else Plain(s, app[1..])
  }

  /** The middleware's `__call__`. */
  function Call(limit: nat, scope: Scope, source: seq<Message>, app: seq<Action>, ending: Ending): Result {
    if !IsUpload(scope) then Direct(source, app, ending)
    else if DeclaredTooLarge(limit, scope) then Result(REJECTION, [], false)
    else
      var s := Run(limit, Begin(source), app);
      if ending == RaisesTooLarge && !s.responseStarted then Result(s.sent + REJECTION, s.delivered, false)
      else Result(s.sent, s.delivered, ending != Returns)
  }

  // ------------------------------------------------------------ the middleware itself

  /** `_content_length`: a loop over the headers that stops at the first one of that name. */
  method FindContentLength(headers: seq<Header>) returns (r: Option<nat>)
    ensures r == ContentLength(headers)
  {
    for i := 0 to |headers|
      invariant ContentLength(headers) == ContentLength(headers[i..])
    {
      if Lower(headers[i].name) != "content-length" {
        assert headers[i..][1..] == headers[i + 1..];
        continue;
      }
      if headers[i].value.None? {
        return None;
      }
      return Some(if headers[i].value.value < 0 then 0 else headers[i].value.value);
    }
    return None;
  }

  /** One request: the counters the two wrappers close over, between the server and the application. */
  class Exchange {
    const maxBodyBytes: nat
    var source: seq<Message>
    var received: nat
    var responseStarted: bool
    var delivered: seq<Message>
    var raised: nat
    var sent: seq<Response>

    function View(): Stream
      reads this
    {
      Stream(source, received, responseStarted, delivered, raised, sent)
    }

    constructor (maxBodyBytes: nat, source: seq<Message>)
      ensures this.maxBodyBytes == maxBodyBytes && View() == Begin(source)
    {
      this.maxBodyBytes := maxBodyBytes;
      this.source := source;
      received, responseStarted, delivered, raised, sent := 0, false, [], 0, [];
    }

    /** `limited_receive`: the exception is recorded; with nothing left to come it never returns. */
    method LimitedReceive()
      modifies this
      ensures View() == Step(maxBodyBytes, old(View()), Receive)
    {
      if source == [] {
        return;
      }
      var message := source[0];
      source := source[1..];
      if message.Request? {
        received := received + |message.body|;
        if received > maxBodyBytes {
          raised := raised + 1;
          return;
        }
      }
      delivered := delivered + [message];
    }

    /** `observed_send`. */
    method ObservedSend(message: Response)
      modifies this
      ensures View() == Step(maxBodyBytes, old(View()), Send(message))
    {
      if message.Start? {
        responseStarted := true;
      }
      sent := sent + [message];
    }
  }

  /** `__call__` around an application that takes the given actions and then ends as given. */
  method Handle(maxFileBytes: nat, scope: Scope, source: seq<Message>, app: seq<Action>, ending: Ending)
    returns (r: Result)
    ensures r == Call(maxFileBytes + MULTIPART_OVERHEAD_BYTES, scope, source, app, ending)
  {
    var maxBodyBytes := maxFileBytes + MULTIPART_OVERHEAD_BYTES;
    if !IsUpload(scope) {
      return Direct(source, app, ending);
    }
    var declared := FindContentLength(scope.headers);
    if declared.Some? && declared.value > maxBodyBytes {
      return Result(REJECTION, [], false);
    }
    var exchange := new Exchange(maxBodyBytes, source);
    for i := 0 to |app|
      invariant fresh(exchange) && exchange.maxBodyBytes == maxBodyBytes
      invariant Run(maxBodyBytes, Begin(source), app) == Run(maxBodyBytes, exchange.View(), app[i..])
    {
      assert app[i..][1..] == app[i + 1..];
      if app[i].Receive? {
        exchange.LimitedReceive();
      } else {
        exchange.ObservedSend(app[i].message);
      }
    }
    if ending == RaisesTooLarge && !exchange.responseStarted {
      return Result(exchange.sent + REJECTION, exchange.delivered, false);
    }
    return Result(exchange.sent, exchange.delivered, ending != Returns);
  }

  // ------------------------------------------------------------ what is delivered

  lemma {:induction false} TotalConcat(xs: seq<Message>, ys: seq<Message>)
    ensures Total(xs + ys) == Total(xs) + Total(ys)
  {
    if xs == [] {
      assert xs + ys == ys;
    } else {
      assert (xs + ys)[1..] == xs[1..] + ys;
      TotalConcat(xs[1..], ys);
    }
  }

  /** The message itself unless it carries a body and the bytes counted so far exceed the limit. */
  function Let(limit: nat, total: nat, m: Message): seq<Message> {
    if m.Request? && total > limit then [] else [m]
  }

  /** Of a stream, what gets through: everything up to the limit, then only what carries no body. */
  function Passed(limit: nat, seen: nat, ms: seq<Message>): seq<Message>
    decreases |ms|
  {
    if ms == [] then []
    else
      var total := seen + Size(ms[0]);
      Let(limit, total, ms[0]) + Passed(limit, total, ms[1..])
  }

  lemma {:induction false} PassedAppend(limit: nat, seen: nat, ms: seq<Message>, m: Message)
    ensures Passed(limit, seen, ms + [m]) == Passed(limit, seen, ms) + Let(limit, seen + Total(ms) + Size(m), m)
    decreases |ms|
  {
    if ms == [] {
      assert ms + [m] == [m];
      assert [m][1..] == [];
    } else {
      assert (ms + [m])[0] == ms[0] && (ms + [m])[1..] == ms[1..] + [m];
      var total := seen + Size(ms[0]);
      PassedAppend(limit, total, ms[1..], m);
      var last := Let(limit, seen + Total(ms) + Size(m), m);
      calc {
        Passed(limit, seen, ms + [m]);
        Let(limit, total, ms[0]) + Passed(limit, total, ms[1..] + [m]);
        Let(limit, total, ms[0]) + (Passed(limit, total, ms[1..]) + last);
        Passed(limit, seen, ms) + last;
      }
    }
  }

  /** How far into the original stream the application has read. */
  ghost predicate Consistent(limit: nat, all: seq<Message>, s: Stream) {
    && |s.source| <= |all|
    && s.source == all[|all| - |s.source|..]
    && var seen := all[..|all| - |s.source|];
       s.received == Total(seen) && s.delivered == Passed(limit, 0, seen)
  }

  lemma StepConsistent(limit: nat, all: seq<Message>, s: Stream, a: Action)
    requires Consistent(limit, all, s)
    ensures Consistent(limit, all, Step(limit, s, a))
  {
    if a.Receive? && s.source != [] {
      var k := |all| - |s.source|;
      assert all[..k + 1] == all[..k] + [all[k]];
      TotalConcat(all[..k], [all[k]]);
      PassedAppend(limit, 0, all[..k], all[k]);
    }
  }

  lemma {:induction false} RunConsistent(limit: nat, all: seq<Message>, s: Stream, app: seq<Action>)
    requires Consistent(limit, all, s)
    ensures Consistent(limit, all, Run(limit, s, app))
    decreases |app|
  {
    if app != [] {
      StepConsistent(limit, all, s, app[0]);
      RunConsistent(limit, all, Step(limit, s, app[0]), app[1..]);
    }
  }

  lemma {:induction false} PassedWithinLimit(limit: nat, seen: nat, ms: seq<Message>)
    ensures Total(Passed(limit, seen, ms)) <= if seen <= limit then limit - seen else 0
    decreases |ms|
  {
    if ms != [] {
      var total := seen + Size(ms[0]);
      TotalConcat(Let(limit, total, ms[0]), Passed(limit, total, ms[1..]));
      PassedWithinLimit(limit, total, ms[1..]);
    }
  }

  lemma {:induction false} PassedAll(limit: nat, seen: nat, ms: seq<Message>)
    requires seen + Total(ms) <= limit
    ensures Passed(limit, seen, ms) == ms
    decreases |ms|
  {
    if ms != [] {
      var total := seen + Size(ms[0]);
      assert Total(ms) == Size(ms[0]) + Total(ms[1..]);
      PassedAll(limit, total, ms[1..]);
      assert Let(limit, total, ms[0]) == [ms[0]];
      assert ms == [ms[0]] + ms[1..];
    }
  }

  lemma BeginConsistent(limit: nat, source: seq<Message>)
    ensures Consistent(limit, source, Begin(source))
  {
    assert source[..0] == [] && source[0..] == source;
  }

  /**
    Whatever the application does, an exception it swallows included, it has been handed exactly the
    part of what it asked for that stays within the limit, and never more bytes than the limit.
  */
  lemma DeliversWithinLimit(limit: nat, source: seq<Message>, app: seq<Action>) returns (k: nat)
    ensures k <= |source|
    ensures Run(limit, Begin(source), app).delivered == Passed(limit, 0, source[..k])
    ensures Total(Run(limit, Begin(source), app).delivered) <= limit
  {
    BeginConsistent(limit, source);
    RunConsistent(limit, source, Begin(source), app);
    k := |source| - |Run(limit, Begin(source), app).source|;
    PassedWithinLimit(limit, 0, source[..k]);
  }

  // ------------------------------------------------------------ transparency

  lemma {:induction false} TotalPrefix(ms: seq<Message>, k: nat)
    requires k <= |ms|
    ensures Total(ms[..k]) <= Total(ms)
  {
    assert ms == ms[..k] + ms[k..];
    TotalConcat(ms[..k], ms[k..]);
  }

  ghost predicate SameTraffic(s: Stream, t: Stream) {
    s.source == t.source && s.delivered == t.delivered && s.sent == t.sent
  }

  lemma {:induction false} RunsAlike(limit: nat, all: seq<Message>, s: Stream, t: Stream, app: seq<Action>)
    requires Total(all) <= limit && Consistent(limit, all, s) && SameTraffic(s, t)
    ensures SameTraffic(Run(limit, s, app), Plain(t, app))
    ensures Run(limit, s, app).raised == s.raised
    decreases |app|
  {
    if app != [] {
      var n := Step(limit, s, app[0]);
      StepConsistent(limit, all, s, app[0]);
      TotalPrefix(all, |all| - |n.source|);
      if app[0].Receive? && s.source != [] {
        RunsAlike(limit, all, n, t.(source := t.source[1..], delivered := t.delivered + [t.source[0]]), app[1..]);
      } else if app[0].Send? {
        RunsAlike(limit, all, n, t.(sent := t.sent + [app[0].message]), app[1..]);
      } else {
        RunsAlike(limit, all, n, t, app[1..]);
      }
    }
  }

  /** For an upload within the limit, declared and actual, the middleware is not there at all. */
  lemma TransparentWithinLimit(limit: nat, scope: Scope, source: seq<Message>, app: seq<Action>, ending: Ending)
    requires ContentLength(scope.headers).Some? ==> ContentLength(scope.headers).value <= limit
    requires Total(source) <= limit
    requires ending == RaisesTooLarge ==> Run(limit, Begin(source), app).raised > 0
    ensures Call(limit, scope, source, app, ending) == Direct(source, app, ending)
  {
    BeginConsistent(limit, source);
    RunsAlike(limit, source, Begin(source), Begin(source), app);
  }

  // ------------------------------------------------------------ the responses

  lemma {:induction false} StartedIffSent(limit: nat, s: Stream, app: seq<Action>)
    requires s.responseStarted <==> Starts(s.sent) > 0
    ensures var r := Run(limit, s, app); r.responseStarted <==> Starts(r.sent) > 0
    decreases |app|
  {
    if app != [] {
      if app[0].Send? { CountConcat(s.sent, [app[0].message], (r: Response) => r.Start?); }
      StartedIffSent(limit, Step(limit, s, app[0]), app[1..]);
    }
  }

  /**
    The middleware adds a response only where the application had started none: what goes out is the
    application's own messages, followed by one rejection exactly when it gave up on an oversized
    body before starting a response.
  */
  lemma NeverAddsSecondStart(limit: nat, scope: Scope, source: seq<Message>, app: seq<Action>, ending: Ending)
    requires IsUpload(scope) && !DeclaredTooLarge(limit, scope)
    ensures var own := Run(limit, Begin(source), app).sent; var r := Call(limit, scope, source, app, ending);
      && own <= r.sent
      && (r.sent != own ==> r.sent == own + REJECTION && Starts(own) == 0 && Starts(r.sent) == 1)
      && (r.sent != own <==> ending == RaisesTooLarge && Starts(own) == 0)
      && (r.reraises <==> ending != Returns && r.sent == own)
  {
    StartedIffSent(limit, Begin(source), app);
    var own := Run(limit, Begin(source), app).sent;
    CountConcat(own, REJECTION, (r: Response) => r.Start?);
    assert REJECTION[1..] == [Body];
    assert |own + REJECTION| == |own| + 2;
  }

  // ------------------------------------------------------------ an oversized body

  lemma {:induction false} OversizeNeverComplete(limit: nat, source: seq<Message>, app: seq<Action>)
    requires Total(source) > limit
    ensures Run(limit, Begin(source), app).delivered != source
    ensures var r := Run(limit, Begin(source), app); r.source == [] ==> Total(r.delivered) < Total(source)
  {
    var k := DeliversWithinLimit(limit, source, app);
  }

  predicate CarriesBody(m: Message) { m.Request? }

  /** What carries no body. */
  function WithoutBodies(ms: seq<Message>): seq<Message> {
    if ms == [] then [] else (if CarriesBody(ms[0]) then [] else [ms[0]]) + WithoutBodies(ms[1..])
  }

  /**
    Once over the limit catching the exception does not help: of all the application reads from then on,
    every body message raises again, and only what carries no body is delivered.
  */
  lemma {:induction false} KeepsRaising(limit: nat, s: Stream, app: seq<Action>) returns (k: nat)
    requires s.received > limit
    ensures var r := Run(limit, s, app);
      && k <= |s.source| && r.source == s.source[k..] && r.received > limit
      && r.raised == s.raised + Count(s.source[..k], CarriesBody)
      && r.delivered == s.delivered + WithoutBodies(s.source[..k])
    decreases |app|
  {
    if app == [] {
      k := 0;
      assert s.source[..0] == [];
    } else {
      var n := Step(limit, s, app[0]);
      k := KeepsRaising(limit, n, app[1..]);
      if app[0].Receive? && s.source != [] {
        assert s.source[..k + 1][0] == s.source[0] && s.source[..k + 1][1..] == n.source[..k];
        k := k + 1;
      }
    }
  }

  // ------------------------------------------------------------ which requests are limited

  /**
    A POST to the import inspection, whatever its headers say: the application never gets more bytes than the
    limit, nor the whole of a larger body; with a declared length over the limit it gets nothing at all.
  */
  lemma InspectionIsLimited(
      maxFileBytes: nat, headers: seq<Header>, source: seq<Message>, app: seq<Action>, ending: Ending)
    ensures var limit := maxFileBytes + 1048576;
      var r := Call(limit, Scope("http", Some("POST"), Some("/api/v1/imports/inspect"), headers), source, app, ending);
      && Total(r.delivered) <= limit
      && (Total(source) > limit ==> r.delivered != source)
      && (ContentLength(headers).Some? && ContentLength(headers).value > limit ==>
            r.delivered == [] && r.sent == [Start(413), Body] && !r.reraises)
  {
    var limit := maxFileBytes + 1048576;
    var k := DeliversWithinLimit(limit, source, app);
  }

  /** Any other request passes through untouched, whatever its length. */
  lemma OthersAreNotLimited(limit: nat, scope: Scope, source: seq<Message>, app: seq<Action>, ending: Ending)
    requires scope.kind != "http" || scope.verb != Some("POST") || scope.path != Some("/api/v1/imports/inspect")
    ensures Call(limit, scope, source, app, ending) == Direct(source, app, ending)
  {}

  /** The name of a content-length header in any mixture of upper and lower case. */
  ghost predicate SpellsContentLength(name: string) {
    var lower := "content-length";
    var upper := "CONTENT-LENGTH";
    |name| == |lower| && forall i :: 0 <= i < |name| ==> name[i] == lower[i] || name[i] == upper[i]
  }

  lemma LowerSpells(name: string)
    ensures Lower(name) == "content-length" <==> SpellsContentLength(name)
  {
    var lower := "content-length";
    var upper := "CONTENT-LENGTH";
    assert forall i :: 0 <= i < |lower| ==>
      (lower[i] == upper[i] == '-') || ('a' <= lower[i] <= 'z' && upper[i] as int + 32 == lower[i] as int);
    if Lower(name) == lower {
      forall i | 0 <= i < |name| ensures name[i] == lower[i] || name[i] == upper[i] {
        assert Lower(name)[i] == lower[i];
      }
    }
    if SpellsContentLength(name) {
      forall i | 0 <= i < |name| ensures Lower(name)[i] == lower[i] {}
    }
  }

  /** The declared length is that of the first header so named, negative ones counting as nothing. */
  lemma {:induction false} FirstLengthDecides(headers: seq<Header>, k: nat)
    requires k <= |headers| && (forall i :: 0 <= i < k ==> !SpellsContentLength(headers[i].name))
    requires k < |headers| ==> SpellsContentLength(headers[k].name)
    ensures ContentLength(headers) ==
      if k == |headers| || headers[k].value.None? then None
      else Some(if headers[k].value.value < 0 then 0 else headers[k].value.value)
  {
    if headers != [] {
      LowerSpells(headers[0].name);
      if k > 0 {
        assert forall i :: 0 <= i < |headers[1..]| ==> headers[1..][i] == headers[i + 1];
        FirstLengthDecides(headers[1..], k - 1);
      }
    }
  }

  function IsReceive(): Action -> bool { (a: Action) => a.Receive? }

  /** The messages an application sends. */
  function Sends(app: seq<Action>): seq<Response> {
    if app == [] then [] else (if app[0].Send? then [app[0].message] else []) + Sends(app[1..])
  }

  function Prefix(ms: seq<Message>, k: nat): seq<Message> { if k < |ms| then ms[..k] else ms }

  lemma PrefixStep(before: seq<Message>, ms: seq<Message>, k: nat)
    requires ms != []
    ensures before + Prefix(ms, k + 1) == before + [ms[0]] + Prefix(ms[1..], k)
  {
    assert ms == [ms[0]] + ms[1..];
  }

  /** The bare application gets the stream in order, as far as it reads. */
  lemma {:induction false} DirectReadsInOrder(s: Stream, app: seq<Action>)
    ensures Plain(s, app).delivered == s.delivered + Prefix(s.source, Count(app, IsReceive()))
    decreases |app|
  {
    if app == [] {
      assert s.delivered + Prefix(s.source, 0) == s.delivered;
    } else if app[0].Send? {
      DirectReadsInOrder(s.(sent := s.sent + [app[0].message]), app[1..]);
    } else if s.source == [] {
      DirectReadsInOrder(s, app[1..]);
    } else {
      DirectReadsInOrder(s.(source := s.source[1..], delivered := s.delivered + [s.source[0]]), app[1..]);
      PrefixStep(s.delivered, s.source, Count(app[1..], IsReceive()));
    }
  }

  lemma SendsStep(sent: seq<Response>, app: seq<Action>)
    requires app != []
    ensures sent + Sends(app) == sent + (if app[0].Send? then [app[0].message] else []) + Sends(app[1..])
  {}

  /** And what it sends goes out in order. */
  lemma {:induction false} DirectSendsInOrder(s: Stream, app: seq<Action>)
    ensures Plain(s, app).sent == s.sent + Sends(app)
    decreases |app|
  {
    if app != [] {
      SendsStep(s.sent, app);
      assert s.sent + [] == s.sent;
      if app[0].Send? {
        DirectSendsInOrder(s.(sent := s.sent + [app[0].message]), app[1..]);
      } else if s.source == [] {
        DirectSendsInOrder(s, app[1..]);
      } else {
        DirectSendsInOrder(s.(source := s.source[1..], delivered := s.delivered + [s.source[0]]), app[1..]);
      }
    }
  }
}
