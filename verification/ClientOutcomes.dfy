/** How the calls of a page end, what they transmit and which token the page holds, told from the events of a run. */
module ClientOutcomes {
  import opened Prelude
  import opened ClientProtocol
  import opened ClientTheorems

  // ------------------------------------------------------- endings

  /** A 401 to the first transmission of a call that carried a token, on a path that may be refreshed. */
  predicate MayRetry(c: Call) {
    && c.phase.Sent? && c.phase.allowRetry && c.phase.token.Some?
    && (c.entry == Upload || !LoginPath(c.path))
  }

  /** The paths on which a 401 is the answer of a login and not of an expired token. */
  predicate LoginPath(path: string) {
    || path == "/api/v1/auth/login" || path == "/api/v1/auth/refresh"
    || path == "/api/v1/auth/passkeys/authentication/options"
    || path == "/api/v1/auth/passkeys/authentication/verify"
  }

  /** How this event ends call i, if it does. */
  ghost function Ends(s: State, e: Event, i: nat): Option<Outcome>
    requires Enabled(s, e)
  {
    if i >= |s.calls| then None
    else
      var c := s.calls[i];
      match e
      case Answered(j, answer) =>
        if j != i then None
        else if answer == Success then Some(Resolved)
        else if answer != Unauthorized then Some(Rejected)
        else if MayRetry(c) then None
        else if c.phase.token.Some? && (c.entry == Fetch ==> !LoginPath(c.path)) then Some(LoggedOut)
        else Some(Rejected)
      case Settled(k, reply) =>
        if !(c.phase.Waiting? && c.phase.flight == s.wire[k].id) then None
        else if !reply.Granted? then Some(Rejected)
        else if c.entry == Refresh then Some(Resolved)
        else None
      case _ => None
  }

  /** The first event of the run that ends call i decides. */
  ghost function Verdict(s: State, es: seq<Event>, i: nat): Option<Outcome>
    requires Valid(s, es)
    decreases |es|
  {
    if es == [] then None
    else if Ends(s, es[0], i).Some? then Ends(s, es[0], i)
    else Verdict(Next(s, es[0]), es[1..], i)
  }

  predicate IsDone(s: State, i: nat) { i < |s.calls| && s.calls[i].phase.Done? }

  lemma EndsStep(s: State, e: Event, i: nat)
    requires Enabled(s, e) && !IsDone(s, i)
    ensures var r := Next(s, e);
      match Ends(s, e, i)
      case Some(o) => i < |r.calls| && r.calls[i].phase == Done(o)
      case None => !IsDone(r, i)
  {}

  lemma DoneStays(s: State, e: Event, i: nat)
    requires Enabled(s, e) && IsDone(s, i)
    ensures IsDone(Next(s, e), i) && Next(s, e).calls[i] == s.calls[i]
  {}

  lemma {:induction false} DoneStaysOver(s: State, es: seq<Event>, i: nat)
    requires Valid(s, es) && IsDone(s, i)
    ensures IsDone(After(s, es), i) && After(s, es).calls[i] == s.calls[i]
    decreases |es|
  {
    if es != [] {
      DoneStays(s, es[0], i);
      DoneStaysOver(Next(s, es[0]), es[1..], i);
    }
  }

  /**
    Over every run a call has ended exactly when one of its answers ended it, and as that answer says:
    resolved by a success, or for `api.refresh` by a grant; signed out by a final 401 with a token;
    rejected by another status, a network error, any other final 401, or a refresh that granted nothing.
  */
  lemma {:induction false} CallsEndAsAnswered(s: State, es: seq<Event>, i: nat)
    requires Valid(s, es) && !IsDone(s, i)
    ensures var r := After(s, es);
      match Verdict(s, es, i)
      case Some(o) => i < |r.calls| && r.calls[i].phase == Done(o)
      case None => !IsDone(r, i)
    decreases |es|
  {
    if es != [] {
      EndsStep(s, es[0], i);
      if Ends(s, es[0], i).Some? {
        DoneStaysOver(Next(s, es[0]), es[1..], i);
      } else {
        CallsEndAsAnswered(Next(s, es[0]), es[1..], i);
      }
    }
  }

  // ------------------------------------------------------- transmissions

  /** The event makes call i transmit once more after a 401 or a grant. */
  predicate Retransmits(s: State, e: Event, i: nat)
    requires Enabled(s, e)
  {
    && i < |s.calls|
    && var c := s.calls[i];
       match e
       case Answered(j, answer) => j == i && answer == Unauthorized && MayRetry(c) && s.accessToken != c.phase.token
       case Settled(k, reply) =>
         reply.Granted? && c.entry != Refresh && c.phase.Waiting? && c.phase.flight == s.wire[k].id
       case _ => false
  }

  /** What the event does to a call under way. */
  ghost predicate GoesOn(s: State, e: Event, i: nat)
    requires Enabled(s, e) && i < |s.calls|
  {
    var r := Next(s, e);
    && i < |r.calls| && r.calls[i].entry == s.calls[i].entry && r.calls[i].path == s.calls[i].path
    && (Retransmits(s, e, i) ==>
          r.calls[i].sends == s.calls[i].sends + [r.accessToken] && r.calls[i].phase == Sent(r.accessToken, false))
    && (!Retransmits(s, e, i) ==> r.calls[i].sends == s.calls[i].sends)
  }

  lemma AnsweredCallGoesOn(s: State, i: nat, answer: HttpAnswer)
    requires Enabled(s, Answered(i, answer))
    ensures GoesOn(s, Answered(i, answer), i)
  {}

  lemma CallGoesOn(s: State, e: Event, i: nat)
    requires Enabled(s, e) && i < |s.calls|
    ensures GoesOn(s, e, i)
  {
    match e
    case Answered(j, answer) =>
      if j == i { AnsweredCallGoesOn(s, i, answer); }
    case _ =>
  }

  lemma NewCallTransmits(s: State, e: Event, i: nat)
    requires Enabled(s, e) && |s.calls| <= i < |Next(s, e).calls|
    ensures var r := Next(s, e); var c := r.calls[i];
      && e == Start(c.entry, c.path) && i == |s.calls|
      && c.sends == (if c.entry == Refresh then [] else [s.accessToken])
      && (if c.entry == Refresh then c.phase.Waiting? && r.refreshFlight == Some(c.phase.flight)
          else c.phase == Sent(s.accessToken, true))
  {}

  /** A call transmits when it starts and when it retries, each time the token the page then holds, and never else. */
  lemma TransmitsCurrentToken(s: State, e: Event, i: nat)
    requires Enabled(s, e) && i < |Next(s, e).calls|
    ensures var r := Next(s, e); var before := if i < |s.calls| then s.calls[i].sends else [];
      var transmits := if i < |s.calls| then Retransmits(s, e, i) else e.Start? && e.entry != Refresh;
      r.calls[i].sends == if transmits then before + [r.accessToken] else before
  {
    if i < |s.calls| {
      CallGoesOn(s, e, i);
    } else {
      NewCallTransmits(s, e, i);
    }
  }

  /** A call joins or starts a refresh exactly when its token is still the current one at a 401 it may retry. */
  lemma WaitsForRefresh(s: State, i: nat, answer: HttpAnswer)
    requires Enabled(s, Answered(i, answer))
    ensures var r := Next(s, Answered(i, answer));
      && (r.calls[i].phase.Waiting? <==>
            answer == Unauthorized && MayRetry(s.calls[i]) && s.accessToken == s.calls[i].phase.token)
      && (r.calls[i].phase.Waiting? ==> r.refreshFlight == Some(r.calls[i].phase.flight))
      && (forall j :: 0 <= j < |s.calls| && j != i ==> r.calls[j] == s.calls[j])
  {}

  /** A refresh starts only when none is under way, and presents the jar's cookie for the token then held. */
  lemma RefreshStarts(s: State, e: Event)
    requires Inv(s) && Enabled(s, e) && !e.Settled?
    ensures var r := Next(s, e);
      || (r.wire == s.wire && r.refreshFlight == s.refreshFlight)
      || (s.refreshFlight.None? && r.refreshFlight.Some?
          && r.wire == [Flight(r.refreshFlight.value, s.accessToken, s.jar)])
  {}

  /** The end of a refresh takes it off the wire, whatever the answer. */
  lemma RefreshEnds(s: State, k: nat, reply: RefreshAnswer)
    requires Inv(s) && Enabled(s, Settled(k, reply))
    ensures Next(s, Settled(k, reply)).wire == [] && Next(s, Settled(k, reply)).refreshFlight.None?
  {
    assert s.wire == [s.wire[0]];
  }

  // ------------------------------------------------------- token and cookie

  /** The event stores a token or takes it away. */
  ghost function Stores(s: State, e: Event): Option<Option<Token>>
    requires Enabled(s, e)
  {
    match e
    case Settled(_, Granted(t, _)) => Some(Some(t))
    case Settled(_, Refused(_)) => Some(None)
    case Answered(i, _) => if Ends(s, e, i) == Some(LoggedOut) then Some(None) else None
    case SignIn(t, _) => Some(Some(t))
    case SignOut(_) => Some(None)
    case _ => None
  }

  /** The event sets the cookie or deletes it. */
  function SetsCookie(e: Event): Option<Option<Cookie>> {
    match e
    case Settled(_, Granted(_, c)) => Some(Some(c))
    case Settled(_, Unusable(Some(c))) => Some(Some(c))
    case Settled(_, Refused(true)) => Some(None)
    case SignIn(_, c) => Some(Some(c))
    case SignOut(true) => Some(None)
    case _ => None
  }

  ghost function LastStored(s: State, es: seq<Event>): Option<Option<Token>>
    requires Valid(s, es)
    decreases |es|
  {
    if es == [] then None
    else
      var later := LastStored(Next(s, es[0]), es[1..]);
      if later.Some? then later else Stores(s, es[0])
  }

  ghost function LastCookie(es: seq<Event>): Option<Option<Cookie>> {
    if es == [] then None
    else
      var later := LastCookie(es[1..]);
      if later.Some? then later else SetsCookie(es[0])
  }

  lemma HoldsStep(s: State, e: Event)
    requires Enabled(s, e)
    ensures Next(s, e).accessToken == Stores(s, e).GetOr(s.accessToken)
    ensures Next(s, e).jar == SetsCookie(e).GetOr(s.jar)
  {}

  /** Over every run the page holds the token last stored and the jar the cookie last set, or what they started with. */
  lemma {:induction false} HoldsLastStored(s: State, es: seq<Event>)
    requires Valid(s, es)
    ensures After(s, es).accessToken == LastStored(s, es).GetOr(s.accessToken)
    ensures After(s, es).jar == LastCookie(es).GetOr(s.jar)
    decreases |es|
  {
    if es != [] {
      HoldsStep(s, es[0]);
      HoldsLastStored(Next(s, es[0]), es[1..]);
    }
  }
}
