/** What the refresh protocol guarantees over every run of one page. */
module ClientTheorems {
  import opened Prelude
  import opened ClientProtocol

  // ------------------------------------------------------- one refresh at a time

  /** At most one refresh call is outstanding, and every call that awaits one awaits that one. */
  lemma AtMostOneRefreshOutstanding(s: State, es: seq<Event>)
    requires Initial(s) && Valid(s, es)
    ensures var r := After(s, es);
      && |r.wire| <= 1
      && (r.refreshFlight.None? <==> r.wire == [])
      && (forall c :: c in r.calls && c.phase.Waiting? ==> r.wire != [] && r.wire[0].id == c.phase.flight)
  {
    InvInitial(s);
    RunKeepsInv(s, es);
    var r := After(s, es);
    forall c | c in r.calls && c.phase.Waiting?
      ensures r.wire != [] && r.wire[0].id == c.phase.flight
    {
      assert CallOk(r, c);
    }
  }

  function VerdictHolding(t: Token): Settlement -> bool { x => VerdictFor(x, t) }

  predicate VerdictFor(x: Settlement, t: Token) {
    Conclusive(x) && x.flight.held == Some(t)
  }

  lemma {:induction false} DistinctVerdicts(xs: seq<Settlement>, t: Token)
    requires forall i, j :: 0 <= i < j < |xs| ==> !SameHeld(xs[i], xs[j])
    ensures Count(xs, VerdictHolding(t)) <= 1
  {
    if xs != [] {
      var p := VerdictHolding(t);
      var rest := xs[1..];
      assert forall i :: 0 <= i < |rest| ==> rest[i] == xs[i + 1];
      DistinctVerdicts(rest, t);
      if p(xs[0]) {
        forall i | 0 <= i < |rest| ensures !p(rest[i]) {
          assert !SameHeld(xs[0], xs[i + 1]);
        }
        CountZero(rest, p);
      }
    }
  }

  /** For each access token at most one refresh is ever answered by a refusal or a usable body. */
  lemma OneVerdictPerToken(s: State, es: seq<Event>, t: Token)
    requires Initial(s) && Valid(s, es)
    ensures Count(After(s, es).settled, VerdictHolding(t)) <= 1
  {
    InvInitial(s);
    RunKeepsInv(s, es);
    DistinctVerdicts(After(s, es).settled, t);
  }

  // ------------------------------------------------------- retry discipline

  /** Each call transmits at most twice, and never again with the token that was just refused. */
  lemma RetryAtMostOnce(s: State, es: seq<Event>, c: Call)
    requires Initial(s) && Valid(s, es) && c in After(s, es).calls
    ensures |c.sends| <= 2
    ensures |c.sends| == 2 ==> c.sends[0].Some? && c.sends[1] != c.sends[0]
  {
    InvInitial(s);
    RunKeepsInv(s, es);
    assert CallOk(After(s, es), c);
  }

  /** How many reactions a call can still cause, the refresh it may start included. */
  function Rank(p: Phase): nat {
    match p
    case Sent(_, true) => 4
    case Sent(_, false) => 1
    case Waiting(_, _) => 2
    case Done(_) => 0
  }

  function Ranks(calls: seq<Call>): nat {
    if calls == [] then 0 else Rank(calls[0].phase) + Ranks(calls[1..])
  }

  lemma {:induction false} RanksUpdate(calls: seq<Call>, i: nat, c: Call)
    requires i < |calls|
    ensures Ranks(calls[i := c]) + Rank(calls[i].phase) == Ranks(calls) + Rank(c.phase)
  {
    if i == 0 {
      assert calls[0 := c][1..] == calls[1..];
    } else {
      assert calls[i := c][1..] == calls[1..][i - 1 := c];
      RanksUpdate(calls[1..], i - 1, c);
    }
  }

  lemma {:induction false} RanksAppend(calls: seq<Call>, c: Call)
    ensures Ranks(calls + [c]) == Ranks(calls) + Rank(c.phase)
  {
    if calls == [] {
      assert [] + [c] == [c];
      assert [c][1..] == [];
    } else {
      assert (calls + [c])[1..] == calls[1..] + [c];
      RanksAppend(calls[1..], c);
    }
  }

  lemma {:induction false} RanksWake(calls: seq<Call>, id: nat, answer: RefreshAnswer)
    ensures Ranks(WakeAll(calls, id, answer)) <= Ranks(calls)
  {
    if calls != [] {
      assert WakeAll(calls, id, answer)[1..] == WakeAll(calls[1..], id, answer);
      RanksWake(calls[1..], id, answer);
    }
  }

  ghost function Potential(s: State): nat {
    Ranks(s.calls) + |s.wire|
  }

  predicate IsAnswer(e: Event) { e.Answered? || e.Settled? }

  lemma AnsweredUsesPotential(s: State, i: nat, answer: HttpAnswer)
    requires Inv(s) && Enabled(s, Answered(i, answer))
    ensures Potential(Answer(s, i, answer)) < Potential(s)
  {
    var r := Answer(s, i, answer);
    assert CallOk(s, s.calls[i]);
    RanksUpdate(s.calls, i, r.calls[i]);
    assert r.calls == s.calls[i := r.calls[i]];
    assert |r.wire| <= |s.wire| + if r.calls[i].phase.Waiting? then 1 else 0;
  }

  lemma StartedAddsPotential(s: State, entry: Entry, path: string)
    requires Inv(s)
    ensures Potential(Begin(s, entry, path)) <= Potential(s) + 4
  {
    RanksAppend(s.calls, Begin(s, entry, path).calls[|s.calls|]);
  }

  /** Every answer uses up potential; only starting a call adds any. */
  lemma AnswerUsesPotential(s: State, e: Event)
    requires Inv(s) && Enabled(s, e)
    ensures IsAnswer(e) ==> Potential(Next(s, e)) < Potential(s)
    ensures e.Start? ==> Potential(Next(s, e)) <= Potential(s) + 4
    ensures !IsAnswer(e) && !e.Start? ==> Potential(Next(s, e)) == Potential(s)
  {
    match e
    case Start(entry, path) => StartedAddsPotential(s, entry, path);
    case Answered(i, answer) => AnsweredUsesPotential(s, i, answer);
    case Settled(k, answer) => RanksWake(s.calls, s.wire[k].id, answer);
    case SignIn(_, _) =>
    case SignOut(_) =>
  }

  /**
    Termination: n started calls cause at most 4n answers to be processed, refreshes included,
    whatever the server answers.
  */
  lemma {:induction false} AnswersBoundedByStarts(s: State, es: seq<Event>)
    requires Inv(s) && Valid(s, es)
    ensures Count(es, IsAnswer) + Potential(After(s, es))
         <= Potential(s) + 4 * Count(es, (e: Event) => e.Start?)
    decreases |es|
  {
    if es != [] {
      StepKeepsInv(s, es[0]);
      AnswerUsesPotential(s, es[0]);
      AnswersBoundedByStarts(Next(s, es[0]), es[1..]);
    }
  }

  /**
    No call is stranded: while one is unfinished an answer is still due to it, and whatever that
    answer is, it moves the call on; the end of a refresh releases every call that awaits it.
  */
  lemma NoStrandedCall(s: State, es: seq<Event>, i: nat)
    requires Initial(s) && Valid(s, es)
    requires i < |After(s, es).calls| && !After(s, es).calls[i].phase.Done?
    ensures var r := After(s, es);
      if r.calls[i].phase.Sent? then
        forall answer :: Enabled(r, Answered(i, answer)) && MovesOn(r, Answered(i, answer), i)
      else |r.wire| == 1 && forall answer :: Fresh(r, answer) ==>
             && Enabled(r, Settled(0, answer)) && MovesOn(r, Settled(0, answer), i)
             && !Next(r, Settled(0, answer)).calls[i].phase.Waiting?
  {
    InvInitial(s);
    RunKeepsInv(s, es);
    var r := After(s, es);
    assert CallOk(r, r.calls[i]);
    if r.calls[i].phase.Sent? {
      forall answer ensures Enabled(r, Answered(i, answer)) && MovesOn(r, Answered(i, answer), i) {
        AnswerMovesOn(r, i, answer);
      }
    }
  }

  /** The step changes what the call is waiting for, to something it has fewer reactions left in. */
  ghost predicate MovesOn(s: State, e: Event, i: nat)
    requires Enabled(s, e)
  {
    i < |s.calls| && i < |Next(s, e).calls| && Rank(Next(s, e).calls[i].phase) < Rank(s.calls[i].phase)
  }

  lemma AnswerMovesOn(s: State, i: nat, answer: HttpAnswer)
    requires Inv(s) && Enabled(s, Answered(i, answer))
    ensures MovesOn(s, Answered(i, answer), i)
  {}

  // ------------------------------------------------------- how often the page signs out

  predicate RefusedFor(x: Settlement, t: Token) { x.answer.Refused? && x.flight.held == Some(t) }

  function IsToken(t: Token): Option<Token> -> bool { o => o == Some(t) }

  function RefusedHolding(t: Token): Settlement -> bool { x => RefusedFor(x, t) }

  function SignOutsFor(s: State, t: Token): nat { Count(s.signOuts, IsToken(t)) }

  function Refusals(s: State, t: Token): nat { Count(s.settled, RefusedHolding(t)) }

  lemma {:induction false} RefusalIsVerdict(xs: seq<Settlement>, t: Token)
    ensures Count(xs, RefusedHolding(t)) <= Count(xs, VerdictHolding(t))
  {
    if xs != [] { RefusalIsVerdict(xs[1..], t); }
  }

  /** A 401 with token t that reaches the sign-out branch: no retry is left, and the path ends the session. */
  predicate FinalRefusal(s: State, e: Event, t: Token) {
    && e.Answered? && e.answer == Unauthorized && e.call < |s.calls|
    && var c := s.calls[e.call];
    && c.phase.Sent? && c.phase.token == Some(t)
    && EndsSession(c.entry, c.path) && !(c.phase.allowRetry && Retries(c.entry, c.path))
  }

  /** How many such answers a run holds. */
  ghost function FinalRefusalsIn(s: State, es: seq<Event>, t: Token): nat
    requires Valid(s, es)
    decreases |es|
  {
    if es == [] then 0 else (if FinalRefusal(s, es[0], t) then 1 else 0) + FinalRefusalsIn(Next(s, es[0]), es[1..], t)
  }

  ghost predicate NeverFinallyRefused(s: State, es: seq<Event>, t: Token)
    requires Valid(s, es)
    decreases |es|
  {
    es == [] || (!FinalRefusal(s, es[0], t) && NeverFinallyRefused(Next(s, es[0]), es[1..], t))
  }

  lemma {:induction false} NeverIsNone(s: State, es: seq<Event>, t: Token)
    requires Valid(s, es)
    ensures NeverFinallyRefused(s, es, t) <==> FinalRefusalsIn(s, es, t) == 0
    decreases |es|
  {
    if es != [] { NeverIsNone(Next(s, es[0]), es[1..], t); }
  }

  lemma OnAnswerSignsOut(s: State, i: nat, answer: HttpAnswer, t: Token)
    requires Enabled(s, Answered(i, answer))
    ensures Answer(s, i, answer).settled == s.settled
    ensures Answer(s, i, answer).signOuts ==
      s.signOuts + (if AnyFinalRefusal(s, i, answer) then [s.calls[i].phase.token] else [])
    ensures FinalRefusal(s, Answered(i, answer), t)
       <==> AnyFinalRefusal(s, i, answer) && s.calls[i].phase.token == Some(t)
  {
    assert s.signOuts + [] == s.signOuts;
  }

  predicate AnyFinalRefusal(s: State, i: nat, answer: HttpAnswer)
    requires Enabled(s, Answered(i, answer))
  {
    s.calls[i].phase.token.Some? && FinalRefusal(s, Answered(i, answer), s.calls[i].phase.token.value)
  }

  lemma SignOutsStep(s: State, e: Event, t: Token)
    requires Enabled(s, e)
    ensures SignOutsFor(Next(s, e), t) - Refusals(Next(s, e), t)
         == SignOutsFor(s, t) - Refusals(s, t) + (if FinalRefusal(s, e, t) then 1 else 0)
  {
    match e
    case Answered(i, answer) =>
      OnAnswerSignsOut(s, i, answer, t);
      CountConcat(s.signOuts, [s.calls[i].phase.token], IsToken(t));
      assert Count([s.calls[i].phase.token], IsToken(t)) == if s.calls[i].phase.token == Some(t) then 1 else 0;
    case Settled(k, answer) =>
      CountConcat(s.settled, [Settlement(s.wire[k], answer)], RefusedHolding(t));
      CountConcat(s.signOuts, [s.wire[k].held], IsToken(t));
    case _ =>
  }

  /** The handler's calls for t: one for each refused refresh and one for each final refusal in the run. */
  lemma {:induction false} SignOutsCounted(s: State, es: seq<Event>, t: Token)
    requires Valid(s, es)
    ensures SignOutsFor(After(s, es), t) - Refusals(After(s, es), t)
         == SignOutsFor(s, t) - Refusals(s, t) + FinalRefusalsIn(s, es, t)
    decreases |es|
  {
    if es != [] {
      SignOutsStep(s, es[0], t);
      SignOutsCounted(Next(s, es[0]), es[1..], t);
    }
  }

  /**
    After a refresh of t was refused the page has signed out exactly once for t, however many calls
    used t and however late they are answered, exactly when no final 401 reached a call sent with t:
    the second transmission of a call, or a `requestBlob` on a path that is never refreshed.
  */
  lemma SignsOutOnceUnlessRetryRefused(s: State, es: seq<Event>, t: Token)
    requires Initial(s) && Valid(s, es)
    requires Refusals(After(s, es), t) > 0
    ensures SignOutsFor(After(s, es), t) == 1 + FinalRefusalsIn(s, es, t)
    ensures SignOutsFor(After(s, es), t) == 1 <==> NeverFinallyRefused(s, es, t)
  {
    SignOutsCounted(s, es, t);
    OneVerdictPerToken(s, es, t);
    RefusalIsVerdict(After(s, es).settled, t);
    NeverIsNone(s, es, t);
  }

  /** Which answers those can be, at any point of any run. */
  lemma FinalRefusalMeetsLastTransmission(s: State, es: seq<Event>, e: Event, t: Token)
    requires Initial(s) && Valid(s, es) && FinalRefusal(After(s, es), e, t)
    ensures var c := After(s, es).calls[e.call];
      && c.sends != [] && c.sends[|c.sends| - 1] == Some(t)
      && (|c.sends| == 2 || (c.entry == Blob && !CanRefresh(c.path)))
  {
    InvInitial(s);
    RunKeepsInv(s, es);
    assert CallOk(After(s, es), After(s, es).calls[e.call]);
  }

  lemma {:induction false} Extend(s: State, es: seq<Event>, e: Event)
    requires Valid(s, es) && Enabled(After(s, es), e)
    ensures Valid(s, es + [e]) && After(s, es + [e]) == Next(After(s, es), e)
    decreases |es|
  {
    if es == [] {
      assert [] + [e] == [e];
      assert [e][1..] == [];
    } else {
      assert (es + [e])[1..] == es[1..] + [e];
      Extend(Next(s, es[0]), es[1..], e);
    }
  }

  /** The page one answer before token 1 signs it out a second time. */
  const ONCE_SIGNED_OUT := State(
    None, None,
    [Call(Fetch, "/a", Sent(Some(1), false), [Some(0), Some(1)]), Call(Fetch, "/b", Done(Rejected), [Some(1)])],
    [], None, 2,
    [Settlement(Flight(0, Some(0), Some(0)), Granted(1, 1)), Settlement(Flight(1, Some(1), Some(1)), Refused(true))],
    [Some(1)], {0, 1}, {0, 1})

  const NEW_PAGE := State(None, None, [], [], None, 0, [], [], {}, {})

  /** One more step of a run that has reached m. */
  lemma Then(es: seq<Event>, m: State, e: Event, r: State) returns (more: seq<Event>)
    requires Valid(NEW_PAGE, es) && After(NEW_PAGE, es) == m
    requires Enabled(m, e) && r == Next(m, e)
    ensures Valid(NEW_PAGE, more) && After(NEW_PAGE, more) == r
  {
    Extend(NEW_PAGE, es, e);
    more := es + [e];
  }

  const WON := Settlement(Flight(0, Some(0), Some(0)), Granted(1, 1))

  const RETRIED := Call(Fetch, "/a", Sent(Some(1), false), [Some(0), Some(1)])

  /** Token 0 is refused and refreshed into token 1, with which the first call is sent again. */
  lemma ReachRetry() returns (es: seq<Event>)
    ensures Valid(NEW_PAGE, es)
    ensures After(NEW_PAGE, es) == State(Some(1), None, [RETRIED], [], Some(1), 1, [WON], [], {0, 1}, {0, 1})
  {
    var f := Flight(0, Some(0), Some(0));
    var a := Call(Fetch, "/a", Sent(Some(0), true), [Some(0)]);
    var waiting := a.(phase := Waiting(Some(0), 0));
    es := Then([], NEW_PAGE, SignIn(0, 0), State(Some(0), None, [], [], Some(0), 0, [], [], {0}, {0}));
    es := Then(es, State(Some(0), None, [], [], Some(0), 0, [], [], {0}, {0}), Start(Fetch, "/a"),
               State(Some(0), None, [a], [], Some(0), 0, [], [], {0}, {0}));
    es := Then(es, State(Some(0), None, [a], [], Some(0), 0, [], [], {0}, {0}), Answered(0, Unauthorized),
               State(Some(0), Some(0), [waiting], [f], Some(0), 1, [], [], {0}, {0}));
    assert {0} + {1} == {0, 1};
    assert RETRIED.sends == a.sends + [Some(1)];
    assert WakeAll([waiting], 0, Granted(1, 1)) == [RETRIED];
    es := Then(es, State(Some(0), Some(0), [waiting], [f], Some(0), 1, [], [], {0}, {0}), Settled(0, Granted(1, 1)),
               State(Some(1), None, [RETRIED], [], Some(1), 1, [WON], [], {0, 1}, {0, 1}));
  }

  /** A second call is refused with token 1, and so is the refresh it starts. */
  lemma ReachOnceSignedOut() returns (es: seq<Event>)
    ensures Valid(NEW_PAGE, es) && After(NEW_PAGE, es) == ONCE_SIGNED_OUT
  {
    var b := Call(Fetch, "/b", Sent(Some(1), true), [Some(1)]);
    var g := Flight(1, Some(1), Some(1));
    var retry := State(Some(1), None, [RETRIED], [], Some(1), 1, [WON], [], {0, 1}, {0, 1});
    es := ReachRetry();
    es := Then(es, retry, Start(Fetch, "/b"), retry.(calls := [RETRIED, b]));
    var waiting := b.(phase := Waiting(Some(1), 1));
    var refreshing := State(Some(1), Some(1), [RETRIED, waiting], [g], Some(1), 2, [WON], [], {0, 1}, {0, 1});
    es := Then(es, retry.(calls := [RETRIED, b]), Answered(1, Unauthorized), refreshing);
    assert WakeAll(refreshing.calls, 1, Refused(true)) == ONCE_SIGNED_OUT.calls;
    es := Then(es, refreshing, Settled(0, Refused(true)), ONCE_SIGNED_OUT);
  }

  lemma TwoSignOuts(r: State)
    requires r.signOuts == [Some(1), Some(1)]
    requires r.settled == [WON, Settlement(Flight(1, Some(1), Some(1)), Refused(true))]
    ensures Refusals(r, 1) == 1 && SignOutsFor(r, 1) == 2
  {
    CountPair(Some(1), Some(1), IsToken(1));
    CountPair(r.settled[0], r.settled[1], RefusedHolding(1));
  }

  /** A run in which one token signs the page out twice: its refresh is refused, then a retry is. */
  lemma SignsOutTwice() returns (s: State, es: seq<Event>)
    ensures Initial(s) && Valid(s, es)
    ensures Refusals(After(s, es), 1) == 1 && SignOutsFor(After(s, es), 1) == 2
  {
    s := NEW_PAGE;
    es := ReachOnceSignedOut();
    es := Then(es, ONCE_SIGNED_OUT, Answered(0, Unauthorized), Answer(ONCE_SIGNED_OUT, 0, Unauthorized));
    TwoSignOuts(Answer(ONCE_SIGNED_OUT, 0, Unauthorized));
  }

  // ------------------------------------------------------- signed out stays signed out

  predicate CarriesToken(c: Call) { c.phase.Sent? && c.phase.token.Some? }

  function Armed(calls: seq<Call>): nat { Count(calls, CarriesToken) }

  predicate Unattended(e: Event) { !e.SignIn? && (e.Start? ==> e.entry != Refresh) }

  /** Signed out, no refresh on the wire. */
  ghost predicate Quiet(s: State) {
    Inv(s) && s.accessToken == None && s.wire == []
  }

  function Alarms(s: State): nat { |s.signOuts| + Armed(s.calls) }

  lemma QuietAnswer(s: State, i: nat, answer: HttpAnswer)
    requires Quiet(s) && Enabled(s, Answered(i, answer))
    ensures var r := Answer(s, i, answer);
      r.accessToken == None && r.wire == [] && r.settled == s.settled && Alarms(r) <= Alarms(s)
  {
    var r := Answer(s, i, answer);
    assert r.calls == s.calls[i := r.calls[i]];
    CountUpdate(s.calls, i, r.calls[i], CarriesToken);
  }

  lemma QuietStart(s: State, entry: Entry, path: string)
    requires Quiet(s) && entry != Refresh
    ensures var r := Begin(s, entry, path);
      r.accessToken == None && r.wire == [] && r.settled == s.settled && Alarms(r) <= Alarms(s)
  {
    var call := Begin(s, entry, path).calls[|s.calls|];
    CountConcat(s.calls, [call], CarriesToken);
    assert [call][1..] == [];
  }

  lemma QuietStep(s: State, e: Event)
    requires Quiet(s) && Enabled(s, e) && Unattended(e)
    ensures Quiet(Next(s, e)) && Next(s, e).settled == s.settled && Alarms(Next(s, e)) <= Alarms(s)
  {
    StepKeepsInv(s, e);
    match e
    case Start(entry, path) => QuietStart(s, entry, path);
    case Answered(i, answer) => QuietAnswer(s, i, answer);
    case SignOut(_) =>
  }

  /**
    Once signed out with no refresh outstanding, no late answer brings a token back or starts a
    refresh, and the handler is called again at most once per call still out with an old token.
  */
  lemma {:induction false} SignedOutStaysSignedOut(s: State, es: seq<Event>)
    requires Quiet(s) && Valid(s, es) && forall e :: e in es ==> Unattended(e)
    ensures Quiet(After(s, es)) && After(s, es).settled == s.settled && Alarms(After(s, es)) <= Alarms(s)
    decreases |es|
  {
    if es != [] {
      QuietStep(s, es[0]);
      SignedOutStaysSignedOut(Next(s, es[0]), es[1..]);
    }
  }

  // ------------------------------------------------------- refresh cookies are not presented twice

  /**
    A cookie is presented a second time exactly when an earlier refresh that presented it ended
    without replacing or dropping it. In particular never when every refresh is answered by a
    success or a 401.
  */
  lemma CookiePresentedAgainOnlyAfterLoss(s: State, es: seq<Event>, e: Event)
    requires Initial(s) && Valid(s, es) && Enabled(After(s, es), e)
    requires |Next(After(s, es), e).wire| > |After(s, es).wire|
    ensures var r := After(s, es); var f := Next(r, e).wire[|r.wire|];
      f.cookie.Some? ==>
        ((exists x :: x in r.settled && x.flight.cookie == f.cookie)
          <==> (exists x :: x in r.settled && x.flight.cookie == f.cookie && KeepsCookie(x.answer)))
  {
    InvInitial(s);
    RunKeepsInv(s, es);
    var r := After(s, es);
    assert Next(r, e).wire[|r.wire|].cookie == r.jar;
  }
}
