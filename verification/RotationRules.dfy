/** Which refreshes the server grants, what handling one does to the token rows, and what the page gets to hear. */
module RotationRules {
  import opened Prelude
  import Client = ClientProtocol
  import opened RefreshRotation

  // ------------------------------------------------------------ one refresh handled

  predicate Handles(s: Step) { s.Handle? || s.HandleLate? }

  /** The cookie that a handled refresh presents. */
  function Presented(w: World, s: Step): Option<Client.Cookie>
    requires CanStep(w, s) && Handles(s)
  {
    if s.Handle? then w.page.wire[0].cookie else w.strays[s.index].cookie
  }

  /** A known refresh token, unused and unrevoked, on its device and in time, of a session that may go on. */
  predicate Grants(w: World, s: Step)
    requires CanStep(w, s) && Handles(s)
  {
    var c := Presented(w, s);
    && c.Some? && c.value in w.rows && !w.rows[c.value].used && !w.rows[c.value].revoked
    && s.fate.Process? && s.fate.deviceOk && !s.fate.expired && s.fate.contextOk
  }

  /** The rows that handling marks revoked: the whole session of a used token, or one that has expired. */
  predicate Revokes(w: World, s: Step, k: Client.Cookie)
    requires CanStep(w, s) && Handles(s)
  {
    var c := Presented(w, s);
    && s.fate.Process? && s.fate.deviceOk && c.Some? && c.value in w.rows && k in w.rows
    && (if w.rows[c.value].used then w.rows[k].session == w.rows[c.value].session else s.fate.expired && k == c.value)
  }

  /** Every row afterwards: a grant uses up the presented token and adds one new row of the same session. */
  lemma RowsAfterHandling(w: World, s: Step)
    requires CanStep(w, s) && Handles(s)
    ensures var r := DoStep(w, s).rows;
      && r.Keys == w.rows.Keys + (if Grants(w, s) then {s.fate.cookie} else {})
      && (Grants(w, s) ==> r[s.fate.cookie] == Row(w.rows[Presented(w, s).value].session, false, false))
      && (forall k :: k in w.rows ==> r[k] == Row(
            w.rows[k].session,
            w.rows[k].used || (Grants(w, s) && Presented(w, s) == Some(k)),
            w.rows[k].revoked || Revokes(w, s, k)))
  {}

  /** The answer is a grant exactly then; a request refused before the service looks at it is no 401, all others are. */
  lemma AnswerToHandling(w: World, s: Step)
    requires CanStep(w, s) && s.Handle?
    ensures var r := DoStep(w, s); var id := w.page.wire[0].id;
      && r.replies.Keys == w.replies.Keys + {id} && r.page == w.page
      && r.replies[id] == (if Grants(w, s) then Ok(s.fate.token, s.fate.cookie)
                           else if s.fate.Process? then Unauthorized401 else OtherError)
  {}

  /** What the page hears: a grant sets token and cookie, a 401 deletes both, another error only the token. */
  lemma AnswerDelivered(w: World, s: Step)
    requires CanStep(w, s) && s.Deliver?
    ensures var r := DoStep(w, s); var reply := w.replies[w.page.wire[0].id];
      && r.rows == w.rows && |r.page.settled| == |w.page.settled| + 1
      && r.page.jar == (match reply
                        case Ok(_, c) => Some(c)
                        case Unauthorized401 => None
                        case OtherError => w.page.jar)
      && r.page.accessToken == (match reply
                                case Ok(t, _) => if s.readable then Some(t) else w.page.accessToken
                                case _ => None)
  {}

  /** A lost answer and a reload leave the cookie, a reload also takes the token and every call. */
  lemma PageLeft(w: World, s: Step)
    requires CanStep(w, s) && (s == Lose || s == Reload)
    ensures var r := DoStep(w, s);
      && r.page.jar == w.page.jar && r.rows == w.rows && r.replies == w.replies
      && r.page.accessToken == (if s == Reload then None else w.page.accessToken)
      && (s == Reload ==> r.page.calls == [])
      && r.strays == w.strays + (if |w.page.wire| == 1 && w.page.wire[0].id !in w.replies then w.page.wire else [])
  {
    if |w.page.wire| == 1 { assert w.page.wire == [w.page.wire[0]]; }
    assert w.strays + [] == w.strays;
  }

  /** A request given up on is carried out once, and the page does not notice. */
  lemma HandledLate(w: World, s: Step)
    requires CanStep(w, s) && s.HandleLate?
    ensures var r := DoStep(w, s);
      && multiset(r.strays) == multiset(w.strays) - multiset{w.strays[s.index]}
      && r.page == w.page && r.replies == w.replies
  {
    var k := s.index;
    assert w.strays == w.strays[..k] + [w.strays[k]] + w.strays[k + 1..];
  }

  // ------------------------------------------------------------ over whole runs

  /** No token of the session is good for anything any more. */
  ghost predicate Dead(w: World, session: nat) {
    forall c :: c in w.rows && w.rows[c].session == session ==> w.rows[c].revoked
  }

  lemma RowsKept(w: World, s: Step)
    requires CanStep(w, s) && !Handles(s)
    ensures var r := DoStep(w, s).rows;
      && (forall k :: k in w.rows ==> k in r && r[k] == w.rows[k])
      && (forall k :: k in r && k !in w.rows ==>
            && s.Login? && r[k] == Row(s.session, false, false)
            && forall j :: j in w.rows ==> w.rows[j].session != s.session)
  {}

  lemma StepKeepsRevoked(w: World, s: Step, c: Client.Cookie)
    requires CanStep(w, s) && c in w.rows && w.rows[c].revoked
    ensures c in DoStep(w, s).rows && DoStep(w, s).rows[c].revoked
    ensures DoStep(w, s).rows[c].session == w.rows[c].session && DoStep(w, s).rows[c].used == w.rows[c].used
  {
    if Handles(s) { RowsAfterHandling(w, s); } else { RowsKept(w, s); }
  }

  /** Over every run a revoked refresh token stays revoked, and if it has not been rotated it never is. */
  lemma {:induction false} RevokedForGood(w: World, steps: seq<Step>, c: Client.Cookie)
    requires Valid(w, steps) && c in w.rows && w.rows[c].revoked
    ensures var r := After(w, steps).rows;
      c in r && r[c].revoked && r[c].session == w.rows[c].session && r[c].used == w.rows[c].used
    decreases |steps|
  {
    if steps != [] {
      StepKeepsRevoked(w, steps[0], c);
      RevokedForGood(DoStep(w, steps[0]), steps[1..], c);
    }
  }

  lemma StepKeepsDead(w: World, s: Step, session: nat)
    requires CanStep(w, s) && Dead(w, session) && exists c :: c in w.rows && w.rows[c].session == session
    ensures Dead(DoStep(w, s), session) && exists c :: c in DoStep(w, s).rows && DoStep(w, s).rows[c].session == session
  {
    var c :| c in w.rows && w.rows[c].session == session;
    StepKeepsRevoked(w, s, c);
    if Handles(s) { RowsAfterHandling(w, s); } else { RowsKept(w, s); }
  }

  lemma {:induction false} DeadForGood(w: World, steps: seq<Step>, session: nat)
    requires Valid(w, steps) && Dead(w, session) && exists c :: c in w.rows && w.rows[c].session == session
    ensures Dead(After(w, steps), session)
    decreases |steps|
  {
    if steps != [] {
      StepKeepsDead(w, steps[0], session);
      DeadForGood(DoStep(w, steps[0]), steps[1..], session);
    }
  }

  /**
    A detected replay ends the session for good: over every later run no refresh presenting any cookie of it
    is granted, whether it was waiting, given up, or starts only then, and no row is added for it.
  */
  lemma ReplayEndsSession(w: World, replay: Step, steps: seq<Step>, later: Step)
    requires CanStep(w, replay) && Handles(replay) && DoStep(w, replay).reuseDetected > w.reuseDetected
    requires Valid(DoStep(w, replay), steps) && CanStep(After(DoStep(w, replay), steps), later) && Handles(later)
    ensures var c := Presented(w, replay); var r := After(DoStep(w, replay), steps);
      && c.Some? && c.value in w.rows && w.rows[c.value].used
      && Dead(r, w.rows[c.value].session)
      && var d := Presented(r, later);
         (d.Some? && d.value in r.rows && r.rows[d.value].session == w.rows[c.value].session ==>
            && DoStep(r, later).rows.Keys == r.rows.Keys
            && (later.Handle? ==> !DoStep(r, later).replies[r.page.wire[0].id].Ok?))
  {
    var c := Presented(w, replay);
    RowsAfterHandling(w, replay);
    var z := DoStep(w, replay);
    assert c.value in z.rows && z.rows[c.value].session == w.rows[c.value].session;
    DeadForGood(z, steps, w.rows[c.value].session);
    var r := After(z, steps);
    RowsAfterHandling(r, later);
    if later.Handle? { AnswerToHandling(r, later); }
  }

  /** A refresh token that expired is refused and revoked, and never granted afterwards. */
  lemma ExpiredForGood(w: World, s: Step, steps: seq<Step>)
    requires CanStep(w, s) && Handles(s) && s.fate.Process? && s.fate.deviceOk && s.fate.expired
    requires Presented(w, s).Some? && Presented(w, s).value in w.rows && !w.rows[Presented(w, s).value].used
    requires Valid(DoStep(w, s), steps)
    ensures var c := Presented(w, s).value; var r := After(DoStep(w, s), steps);
      !Grants(w, s) && c in r.rows && r.rows[c].revoked && !r.rows[c].used
  {
    RowsAfterHandling(w, s);
    RevokedForGood(DoStep(w, s), steps, Presented(w, s).value);
  }
}
