/**
  The client module itself: module variables that its functions reassign, with the suspended
  calls and the refreshes on the wire beside them. Each method is the code between two awaits.
*/
module ApiClientModule {
  import opened Prelude
  import opened ClientProtocol

  class ApiClient {
    var accessToken: Option<Token>
    var refreshFlight: Option<nat>
    var calls: seq<Call>
    var wire: seq<Flight>
    var jar: Option<Cookie>
    var nextFlight: nat
    ghost var settled: seq<Settlement>
    ghost var signOuts: seq<Option<Token>>
    ghost var tokens: set<Token>
    ghost var cookies: set<Cookie>

    ghost function View(): State
      reads this
    {
      State(accessToken, refreshFlight, calls, wire, jar, nextFlight, settled, signOuts, tokens, cookies)
    }

    constructor (jar: Option<Cookie>)
      ensures Initial(View()) && this.jar == jar
    {
      accessToken, refreshFlight, calls, wire, nextFlight := None, None, [], [], 0;
      this.jar := jar;
      settled, signOuts, tokens := [], [], {};
      cookies := if jar.Some? then {jar.value} else {};
    }

    method SetAccessToken(token: Option<Token>)
      modifies `accessToken
      ensures accessToken == token
    {
      accessToken := token;
    }

    /** Up to `return refreshFlight`: the caller then awaits the flight it is given. */
    method RefreshAccessToken() returns (flight: nat)
      modifies this
      ensures View() == Join(old(View())) && refreshFlight == Some(flight)
    {
      if refreshFlight.None? {
        wire := wire + [Flight(nextFlight, accessToken, jar)];
        refreshFlight := Some(nextFlight);
        nextFlight := nextFlight + 1;
      }
      flight := refreshFlight.value;
    }

    /** Starting `request`, `requestBlob`, `uploadImport` or `api.refresh`. */
    method StartCall(entry: Entry, path: string)
      modifies this
      ensures View() == Next(old(View()), Start(entry, path))
    {
      if entry == Refresh {
        var flight := RefreshAccessToken();
        calls := calls + [Call(entry, path, Waiting(None, flight), [])];
      } else {
        var tokenUsed := accessToken;
        calls := calls + [Call(entry, path, Sent(tokenUsed, true), [tokenUsed])];
      }
    }

    method Finish(i: nat, phase: Phase)
      requires i < |calls|
      modifies `calls
      ensures calls == old(calls)[i := old(calls)[i].(phase := phase)]
    {
      calls := calls[i := calls[i].(phase := phase)];
    }

    /** The answer to a call on the wire, up to the next await of that call. */
    method OnAnswer(i: nat, answer: HttpAnswer)
      requires Enabled(View(), Answered(i, answer))
      modifies this
      ensures View() == Next(old(View()), Answered(i, answer))
    {
      var call := calls[i];
      var tokenUsed := call.phase.token;
      if answer != Unauthorized {
        Finish(i, Done(if answer == Success then Resolved else Rejected));
      } else if call.phase.allowRetry && tokenUsed.Some? && Retries(call.entry, call.path) {
        if accessToken == tokenUsed {
          var flight := RefreshAccessToken();
          Finish(i, Waiting(tokenUsed, flight));
        } else {
          calls := calls[i := call.(phase := Sent(accessToken, false), sends := call.sends + [accessToken])];
        }
      } else if tokenUsed.Some? && EndsSession(call.entry, call.path) {
        SetAccessToken(None);
        signOuts := signOuts + [tokenUsed];
        Finish(i, Done(LoggedOut));
      } else {
        Finish(i, Done(Rejected));
      }
    }

    /** Each call awaiting the flight goes on in turn: the promise it holds has settled. */
    method WakeWaiters(id: nat, answer: RefreshAnswer)
      requires answer.Granted? ==> accessToken == Some(answer.token)
      modifies `calls
      ensures calls == WakeAll(old(calls), id, answer)
    {
      var i := 0;
      while i < |calls|
        invariant 0 <= i <= |calls| == |old(calls)|
        invariant forall j :: 0 <= j < i ==> calls[j] == Wake(old(calls)[j], id, answer)
        invariant forall j :: i <= j < |calls| ==> calls[j] == old(calls)[j]
      {
        var call := calls[i];
        if call.phase.Waiting? && call.phase.flight == id {
          if answer.Granted? && call.entry != Refresh {
            calls := calls[i := call.(phase := Sent(accessToken, false), sends := call.sends + [accessToken])];
          } else {
            Finish(i, Done(if answer.Granted? then Resolved else Rejected));
          }
        }
        i := i + 1;
      }
      assert calls == WakeAll(old(calls), id, answer);
    }

    /** The end of the refresh: token, failure handler, `finally`, then each awaiting call in turn. */
    method OnRefreshAnswer(k: nat, answer: RefreshAnswer)
      requires Enabled(View(), Settled(k, answer))
      modifies this
      ensures View() == Next(old(View()), Settled(k, answer))
    {
      var flight := wire[k];
      wire := wire[..k] + wire[k + 1..];
      jar := JarAfter(jar, answer);
      settled := settled + [Settlement(flight, answer)];
      cookies := cookies + IssuedCookie(answer);
      if answer.Granted? {
        tokens := tokens + {answer.token};
        SetAccessToken(Some(answer.token));
      } else if answer.Refused? {
        SetAccessToken(None);
        signOuts := signOuts + [flight.held];
      }
      refreshFlight := None;
      WakeWaiters(flight.id, answer);
    }
  }
}
