/**
  The token-refresh protocol of apps/web/src/api/client.ts as a step machine over values.

  One page holds the module variables `accessToken` and `refreshFlight`. Any number of calls are
  under way at once; a step is one stretch of code that runs without giving up the event loop:
  starting a call, reacting to an answer, or settling a refresh together with every call that
  awaits it. The answers, their order and their losses are chosen by the environment.
*/
module ClientProtocol {
  import opened Prelude

  type Token = nat   // an access token; every issued token is new
  type Cookie = nat  // a refresh token as held by the cookie jar

  /** `request`, `requestBlob`, `uploadImport`, and a direct `api.refresh()`. */
  datatype Entry = Fetch | Blob | Upload | Refresh

  datatype Outcome = Resolved | Rejected | LoggedOut

  datatype Phase =
    | Sent(token: Option<Token>, allowRetry: bool)
    | Waiting(used: Option<Token>, flight: nat)
    | Done(outcome: Outcome)

  /** `sends` is history: the token carried by each transmission of this call. */
  datatype Call = Call(entry: Entry, path: string, phase: Phase, sends: seq<Option<Token>>)

  /** `held` is the access token when the refresh was started, `cookie` what the jar presented. */
  datatype Flight = Flight(id: nat, held: Option<Token>, cookie: Option<Cookie>)

  datatype HttpAnswer = Success | Unauthorized | Failed | NetworkError

  /** `Unusable` is a 2xx whose body cannot be read; its cookie header has still been applied. */
  datatype RefreshAnswer =
    | Granted(token: Token, cookie: Cookie)
    | Unusable(newCookie: Option<Cookie>)
    | Refused(dropsCookie: bool)
    | Lost

  datatype Settlement = Settlement(flight: Flight, answer: RefreshAnswer)

  datatype State = State(
    accessToken: Option<Token>,
    refreshFlight: Option<nat>,
    calls: seq<Call>,
    wire: seq<Flight>,
    jar: Option<Cookie>,
    nextFlight: nat,
    settled: seq<Settlement>,          // history: refreshes in the order they ended
    signOuts: seq<Option<Token>>,      // history: each authFailureHandler call and its token
    tokens: set<Token>,                // history: access tokens issued so far
    cookies: set<Cookie>               // history: refresh tokens issued so far
  )

  datatype Event =
    | Start(entry: Entry, path: string)
    | Answered(call: nat, answer: HttpAnswer)
    | Settled(index: nat, reply: RefreshAnswer)
    | SignIn(token: Token, cookie: Cookie)
    | SignOut(clearsCookie: bool)

  predicate CanRefresh(path: string) {
    path !in {
      "/api/v1/auth/login",
      "/api/v1/auth/refresh",
      "/api/v1/auth/passkeys/authentication/options",
      "/api/v1/auth/passkeys/authentication/verify"
    }
  }

  /** Whether a first 401 may be retried: uploads go to one refreshable path and do not ask. */
  predicate Retries(entry: Entry, path: string) {
    entry == Upload || CanRefresh(path)
  }

  /** Whether a final 401 signs the page out: only `request` looks at the path here. */
  predicate EndsSession(entry: Entry, path: string) {
    entry != Fetch || CanRefresh(path)
  }

  function Resend(call: Call, token: Option<Token>): Call {
    call.(phase := Sent(token, false), sends := call.sends + [token])
  }

  /** `refreshAccessToken` up to its first await: join the flight in progress or start one. */
  function Join(s: State): (r: State)
    ensures r.refreshFlight.Some?
  {
    if s.refreshFlight.Some? then s
    else s.(
      refreshFlight := Some(s.nextFlight),
      wire := s.wire + [Flight(s.nextFlight, s.accessToken, s.jar)],
      nextFlight := s.nextFlight + 1)
  }

  function Begin(s: State, entry: Entry, path: string): State {
    if entry == Refresh then
      var r := Join(s);
      r.(calls := r.calls + [Call(entry, path, Waiting(None, r.refreshFlight.value), [])])
    else
      s.(calls := s.calls + [Call(entry, path, Sent(s.accessToken, true), [s.accessToken])])
  }

  function SetPhase(s: State, i: nat, phase: Phase): State
    requires i < |s.calls|
  {
    s.(calls := s.calls[i := s.calls[i].(phase := phase)])
  }

  function OnUnauthorized(s: State, i: nat): State
    requires i < |s.calls| && s.calls[i].phase.Sent?
  {
    var call := s.calls[i];
    var used := call.phase.token;
    if call.phase.allowRetry && used.Some? && Retries(call.entry, call.path) then
      if s.accessToken == used then
        var r := Join(s);
        SetPhase(r, i, Waiting(used, r.refreshFlight.value))
      else
        s.(calls := s.calls[i := Resend(call, s.accessToken)])
    else if used.Some? && EndsSession(call.entry, call.path) then
      SetPhase(s, i, Done(LoggedOut)).(accessToken := None, signOuts := s.signOuts + [used])
    else
      SetPhase(s, i, Done(Rejected))
  }

  function Answer(s: State, i: nat, answer: HttpAnswer): State
    requires i < |s.calls| && s.calls[i].phase.Sent?
  {
    match answer
    case Success => SetPhase(s, i, Done(Resolved))
    case Unauthorized => OnUnauthorized(s, i)
    case Failed => SetPhase(s, i, Done(Rejected))
    case NetworkError => SetPhase(s, i, Done(Rejected))
  }

  /** One awaiting call after flight `id` ended: the retry carries the token just stored. */
  function Wake(call: Call, id: nat, answer: RefreshAnswer): Call {
    if call.phase.Waiting? && call.phase.flight == id then
      if !answer.Granted? then call.(phase := Done(Rejected))
      else if call.entry == Refresh then call.(phase := Done(Resolved))
      else Resend(call, Some(answer.token))
    else call
  }

  function WakeAll(calls: seq<Call>, id: nat, answer: RefreshAnswer): (r: seq<Call>)
    ensures |r| == |calls|
    ensures forall i :: 0 <= i < |r| ==> r[i] == Wake(calls[i], id, answer)
  {
    seq(|calls|, i requires 0 <= i < |calls| => Wake(calls[i], id, answer))
  }

  function JarAfter(jar: Option<Cookie>, answer: RefreshAnswer): Option<Cookie> {
    match answer
    case Granted(_, c) => Some(c)
    case Unusable(c) => if c.Some? then c else jar
    case Refused(drops) => if drops then None else jar
    case Lost => jar
  }

  /** Setting the token, clearing `refreshFlight` and waking every waiter is one microtask drain. */
  function Settle(s: State, k: nat, answer: RefreshAnswer): State
    requires k < |s.wire|
  {
    var f := s.wire[k];
    s.(
      accessToken := if answer.Granted? then Some(answer.token) else if answer.Refused? then None else s.accessToken,
      refreshFlight := None,
      calls := WakeAll(s.calls, f.id, answer),
      wire := s.wire[..k] + s.wire[k + 1..],
      jar := JarAfter(s.jar, answer),
      settled := s.settled + [Settlement(f, answer)],
      signOuts := if answer.Refused? then s.signOuts + [f.held] else s.signOuts,
      tokens := if answer.Granted? then s.tokens + {answer.token} else s.tokens,
      cookies := s.cookies + IssuedCookie(answer))
  }

  function IssuedCookie(answer: RefreshAnswer): set<Cookie> {
    match answer
    case Granted(_, c) => {c}
    case Unusable(c) => if c.Some? then {c.value} else {}
    case _ => {}
  }

  predicate Fresh(s: State, answer: RefreshAnswer) {
    && (answer.Granted? ==> answer.token !in s.tokens)
    && IssuedCookie(answer) !! s.cookies
  }

  predicate Enabled(s: State, e: Event) {
    match e
    case Start(_, _) => true
    case Answered(i, _) => i < |s.calls| && s.calls[i].phase.Sent?
    case Settled(k, answer) => k < |s.wire| && Fresh(s, answer)
    case SignIn(t, c) => t !in s.tokens && c !in s.cookies
    case SignOut(_) => true
  }

  function Next(s: State, e: Event): State
    requires Enabled(s, e)
  {
    match e
    case Start(entry, path) => Begin(s, entry, path)
    case Answered(i, answer) => Answer(s, i, answer)
    case Settled(k, answer) => Settle(s, k, answer)
    case SignIn(t, c) =>
      s.(accessToken := Some(t), jar := Some(c), tokens := s.tokens + {t}, cookies := s.cookies + {c})
    case SignOut(clears) => s.(accessToken := None, jar := if clears then None else s.jar)
  }

  /** A freshly loaded page: no token yet, but the jar may still hold a cookie. */
  ghost predicate Initial(s: State) {
    && s.accessToken == None && s.refreshFlight == None
    && s.calls == [] && s.wire == [] && s.settled == [] && s.signOuts == []
    && (s.jar.Some? ==> s.jar.value in s.cookies)
  }

  ghost predicate Valid(s: State, es: seq<Event>)
    decreases |es|
  {
    es == [] || (Enabled(s, es[0]) && Valid(Next(s, es[0]), es[1..]))
  }

  ghost function After(s: State, es: seq<Event>): State
    requires Valid(s, es)
    decreases |es|
  {
    if es == [] then s else After(Next(s, es[0]), es[1..])
  }

  // ---------------------------------------------------------------- invariant

  /** At most one refresh is on the wire, and the variable names it. */
  ghost predicate SingleFlight(s: State) {
    && |s.wire| <= 1
    && (s.refreshFlight.None? <==> s.wire == [])
    && (s.wire != [] ==> s.refreshFlight == Some(s.wire[0].id) && s.wire[0].id < s.nextFlight)
  }

  /** What one call may look like; `held` tokens are all issued ones. */
  ghost predicate CallOk(s: State, c: Call) {
    && (forall t :: t in c.sends && t.Some? ==> t.value in s.tokens)
    && (|c.sends| == 2 ==> c.sends[0].Some? && c.sends[1] != c.sends[0])
    && (c.entry == Refresh ==> c.sends == [])
    && (match c.phase
        case Sent(t, true) => c.sends == [t] && c.entry != Refresh
        case Sent(t, false) => |c.sends| == 2 && c.sends[1] == t && c.entry != Refresh
        case Waiting(used, f) =>
          && s.refreshFlight == Some(f)
          && (if c.entry == Refresh then used.None? && c.sends == [] else used.Some? && c.sends == [used])
        case Done(o) =>
          && |c.sends| <= 2
          && (o == LoggedOut ==>
                && EndsSession(c.entry, c.path)
                && (if Retries(c.entry, c.path) then |c.sends| == 2 else c.sends != [])
                && c.sends[|c.sends| - 1].Some?))
  }

  predicate Conclusive(x: Settlement) {
    x.answer.Granted? || x.answer.Refused?
  }

  /** Both refreshes ended conclusively and were started while the same token was current. */
  ghost predicate SameHeld(x: Settlement, y: Settlement) {
    Conclusive(x) && Conclusive(y) && x.flight.held.Some? && x.flight.held == y.flight.held
  }

  /** A token whose refresh ended conclusively never becomes current again. */
  ghost predicate Retired(s: State) {
    && (s.accessToken.Some? ==> s.accessToken.value in s.tokens)
    && (forall f :: f in s.wire && f.held.Some? ==> f.held.value in s.tokens)
    && (forall x :: x in s.settled && Conclusive(x) && x.flight.held.Some? ==>
          && x.flight.held.value in s.tokens
          && s.accessToken != x.flight.held
          && (forall f :: f in s.wire ==> f.held != x.flight.held))
    && (forall i, j :: 0 <= i < j < |s.settled| ==> !SameHeld(s.settled[i], s.settled[j]))
  }

  /** Both refreshes presented one cookie although the first answer replaced or dropped it. */
  predicate Represented(x: Settlement, y: Settlement) {
    !KeepsCookie(x.answer) && x.flight.cookie.Some? && x.flight.cookie == y.flight.cookie
  }

  /** The jar only ever holds a presented cookie while its answer is out or went missing. */
  ghost predicate Rotated(s: State) {
    && (s.jar.Some? ==> s.jar.value in s.cookies)
    && (forall f :: f in s.wire && f.cookie.Some? ==> f.cookie.value in s.cookies)
    && (forall x :: x in s.settled && x.flight.cookie.Some? ==>
          && x.flight.cookie.value in s.cookies
          && (!KeepsCookie(x.answer) ==>
                s.jar != x.flight.cookie && forall f :: f in s.wire ==> f.cookie != x.flight.cookie))
    && (forall i, j :: 0 <= i < j < |s.settled| ==> !Represented(s.settled[i], s.settled[j]))
  }

  /** The answers after which the jar may still hold what the flight presented. */
  predicate KeepsCookie(a: RefreshAnswer) {
    a == Lost || a == Refused(false) || a == Unusable(None)
  }

  ghost predicate Inv(s: State) {
    SingleFlight(s) && (forall c :: c in s.calls ==> CallOk(s, c)) && Retired(s) && Rotated(s)
  }

  lemma InvInitial(s: State)
    requires Initial(s)
    ensures Inv(s)
  {}

  lemma JoinKeepsInv(s: State)
    requires Inv(s)
    ensures Inv(Join(s))
  {}

  lemma StartKeepsInv(s: State, entry: Entry, path: string)
    requires Inv(s)
    ensures Inv(Begin(s, entry, path))
  {
    JoinKeepsInv(s);
  }

  /** Joining a flight does not disturb the other calls, nor does replacing one of them. */
  lemma OthersStayOk(s: State, r: State, c: Call)
    requires CallOk(s, c) && r.tokens == s.tokens
    requires s.refreshFlight.Some? ==> r.refreshFlight == s.refreshFlight
    ensures CallOk(r, c)
  {}

  lemma AnsweredCallOk(s: State, i: nat, answer: HttpAnswer)
    requires Inv(s) && Enabled(s, Answered(i, answer))
    ensures var r := Answer(s, i, answer);
      i < |r.calls| && r.calls == s.calls[i := r.calls[i]] && CallOk(r, r.calls[i])
  {
    assert CallOk(s, s.calls[i]);
  }

  lemma AnswerKeepsCalls(s: State, i: nat, answer: HttpAnswer)
    requires Inv(s) && Enabled(s, Answered(i, answer))
    ensures forall c :: c in Answer(s, i, answer).calls ==> CallOk(Answer(s, i, answer), c)
  {
    var r := Answer(s, i, answer);
    AnsweredCallOk(s, i, answer);
    forall j | 0 <= j < |r.calls| ensures CallOk(r, r.calls[j]) {
      if j != i { OthersStayOk(s, r, s.calls[j]); }
    }
  }

  lemma AnswerKeepsInv(s: State, i: nat, answer: HttpAnswer)
    requires Inv(s) && Enabled(s, Answered(i, answer))
    ensures Inv(Answer(s, i, answer))
  {
    JoinKeepsInv(s);
    AnswerKeepsCalls(s, i, answer);
  }

  lemma SettleKeepsCalls(s: State, k: nat, answer: RefreshAnswer)
    requires Inv(s) && Enabled(s, Settled(k, answer))
    ensures forall c :: c in Settle(s, k, answer).calls ==> CallOk(Settle(s, k, answer), c)
  {
    var r := Settle(s, k, answer);
    forall i | 0 <= i < |r.calls| ensures CallOk(r, r.calls[i]) {
      assert CallOk(s, s.calls[i]);
    }
  }

  lemma SettleKeepsInv(s: State, k: nat, answer: RefreshAnswer)
    requires Inv(s) && Enabled(s, Settled(k, answer))
    ensures Inv(Settle(s, k, answer))
  {
    SettleKeepsCalls(s, k, answer);
    assert k == 0 && s.wire == [s.wire[0]];
    assert Settle(s, k, answer).wire == [];
  }

  /** Every step keeps the invariant. */
  lemma StepKeepsInv(s: State, e: Event)
    requires Inv(s) && Enabled(s, e)
    ensures Inv(Next(s, e))
  {
    match e
    case Start(entry, path) => StartKeepsInv(s, entry, path);
    case Answered(i, answer) => AnswerKeepsInv(s, i, answer);
    case Settled(k, answer) => SettleKeepsInv(s, k, answer);
    case SignIn(_, _) =>
    case SignOut(_) =>
  }

  lemma {:induction false} RunKeepsInv(s: State, es: seq<Event>)
    requires Inv(s) && Valid(s, es)
    ensures Inv(After(s, es))
    decreases |es|
  {
    if es != [] {
      StepKeepsInv(s, es[0]);
      RunKeepsInv(Next(s, es[0]), es[1..]);
    }
  }
}
