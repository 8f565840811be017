/**
  The page together with the refresh endpoint: single-use refresh tokens whose reuse revokes the
  whole session. Which requests reach the server and when, and which answers reach the page, is open:
  a refresh the page has given up on, by an error or a reload, may still be handled at any later time.
*/
module RefreshRotation {
  import opened Prelude
  import opened ClientProtocol

  datatype Row = Row(session: nat, used: bool, revoked: bool)

  /** What `AuthService.refresh` finds beside the token row, and the values it mints. */
  datatype Fate =
    | Blocked
    | Process(deviceOk: bool, expired: bool, contextOk: bool, token: Token, cookie: Cookie)

  datatype Reply = Ok(token: Token, cookie: Cookie) | Unauthorized401 | OtherError

  datatype World = World(
    page: State,
    rows: map<Cookie, Row>,
    replies: map<nat, Reply>,        // answers produced, by flight
    minted: set<Token>,
    strays: seq<Flight>,             // refreshes given up before the server handled them
    reuseDetected: nat,              // history: sessions revoked for replay
    homeGrants: set<Cookie>,         // history: cookies whose successful rotation got home
    lostGrants: set<Cookie>          // history: cookies whose successful rotation never will
  )

  datatype Step =
    | Page(event: Event)
    | Login(token: Token, cookie: Cookie, session: nat)
    | Handle(fate: Fate)
    | Deliver(readable: bool)
    | Lose
    | Reload
    | HandleLate(index: nat, fate: Fate)

  function RevokeSession(rows: map<Cookie, Row>, session: nat): map<Cookie, Row> {
    map c | c in rows :: if rows[c].session == session then rows[c].(revoked := true) else rows[c]
  }

  predicate DetectsReuse(rows: map<Cookie, Row>, presented: Option<Cookie>, fate: Fate) {
    fate.Process? && presented.Some? && presented.value in rows && fate.deviceOk && rows[presented.value].used
  }

  /** The refresh route and `AuthService.refresh`, checks in the order the service makes them. */
  function ServerRefresh(rows: map<Cookie, Row>, presented: Option<Cookie>, fate: Fate): (map<Cookie, Row>, Reply) {
    if fate.Blocked? then (rows, OtherError)
    else if presented.None? || presented.value !in rows then (rows, Unauthorized401)
    else
      var c := presented.value;
      var row := rows[c];
      if !fate.deviceOk then (rows, Unauthorized401)
      else if row.used then (RevokeSession(rows, row.session), Unauthorized401)
      else if fate.expired then (rows[c := row.(revoked := true)], Unauthorized401)
      else if row.revoked || !fate.contextOk then (rows, Unauthorized401)
      else (rows[c := row.(used := true)][fate.cookie := Row(row.session, false, false)], Ok(fate.token, fate.cookie))
  }

  predicate Pending(w: World) { |w.page.wire| == 1 && w.page.wire[0].id !in w.replies }

  predicate Answerable(w: World) { |w.page.wire| == 1 && w.page.wire[0].id in w.replies }

  function AsAnswer(reply: Reply, readable: bool): RefreshAnswer {
    match reply
    case Ok(t, c) => if readable then Granted(t, c) else Unusable(Some(c))
    case Unauthorized401 => Refused(true)
    case OtherError => Refused(false)
  }

  /** What the server mints is new to everybody. */
  predicate MintsNew(w: World, fate: Fate) {
    fate.Process? ==>
      && fate.token !in w.minted && fate.token !in w.page.tokens
      && fate.cookie !in w.rows && fate.cookie !in w.page.cookies
  }

  predicate CanStep(w: World, s: Step) {
    match s
    case Page(e) => (e.Start? || e.Answered? || e.SignOut?) && Enabled(w.page, e)
    case Login(t, c, session) =>
      && t !in w.minted && c !in w.rows && Enabled(w.page, SignIn(t, c))
      && (forall k :: k in w.rows ==> w.rows[k].session != session)   // a login opens a new session
    case Handle(fate) => Pending(w) && MintsNew(w, fate)
    case Deliver(readable) =>
      Answerable(w) && Fresh(w.page, AsAnswer(w.replies[w.page.wire[0].id], readable))
    case Lose => |w.page.wire| == 1
    case Reload => true
    case HandleLate(k, fate) => k < |w.strays| && MintsNew(w, fate)
  }

  /** The page will never hear about a rotation the server has carried out. */
  predicate LosesGrant(w: World, s: Step) {
    (s == Lose || s == Reload) && Answerable(w) && w.replies[w.page.wire[0].id].Ok?
  }

  function With(cookies: set<Cookie>, c: Option<Cookie>): set<Cookie> {
    if c.Some? then cookies + {c.value} else cookies
  }

  /** The refresh on the wire ends without an answer; one not handled yet stays on the network. */
  function GiveUp(w: World): World
    requires |w.page.wire| == 1
  {
    var f := w.page.wire[0];
    w.(page := Settle(w.page, 0, Lost),
       strays := if f.id in w.replies then w.strays else w.strays + [f],
       lostGrants := if LosesGrant(w, Lose) then With(w.lostGrants, f.cookie) else w.lostGrants)
  }

  /** Everything the page holds is gone but the jar. */
  function LoadAgain(w: World): World {
    var v := if |w.page.wire| == 1 then GiveUp(w) else w;
    v.(page := v.page.(accessToken := None, calls := []))
  }

  /** The server handles a presented cookie. */
  function Carry(w: World, presented: Option<Cookie>, fate: Fate): World {
    w.(rows := ServerRefresh(w.rows, presented, fate).0,
       minted := if fate.Process? then w.minted + {fate.token} else w.minted,
       reuseDetected := w.reuseDetected + if DetectsReuse(w.rows, presented, fate) then 1 else 0)
  }

  function DoStep(w: World, s: Step): World
    requires CanStep(w, s)
  {
    match s
    case Page(e) => w.(page := Next(w.page, e))
    case Login(t, c, session) =>
      w.(page := Next(w.page, SignIn(t, c)), rows := w.rows[c := Row(session, false, false)], minted := w.minted + {t})
    case Handle(fate) =>
      var f := w.page.wire[0];
      Carry(w, f.cookie, fate).(replies := w.replies[f.id := ServerRefresh(w.rows, f.cookie, fate).1])
    case Deliver(readable) =>
      var f := w.page.wire[0];
      w.(page := Settle(w.page, 0, AsAnswer(w.replies[f.id], readable)),
         homeGrants := if w.replies[f.id].Ok? then With(w.homeGrants, f.cookie) else w.homeGrants)
    case Lose => GiveUp(w)
    case Reload => LoadAgain(w)
    case HandleLate(k, fate) =>
      var f := w.strays[k];
      Carry(w, f.cookie, fate).(
        strays := w.strays[..k] + w.strays[k + 1..],
        lostGrants :=
          if ServerRefresh(w.rows, f.cookie, fate).1.Ok? then With(w.lostGrants, f.cookie) else w.lostGrants)
  }

  /** A first page load: no refresh is under way, and whatever cookie the jar holds has not been rotated away. */
  ghost predicate Loaded(w: World) {
    && Initial(w.page) && w.page.tokens <= w.minted
    && w.replies == map[] && w.strays == [] && w.reuseDetected == 0 && w.homeGrants == {} && w.lostGrants == {}
    && (w.page.jar.Some? && w.page.jar.value in w.rows ==> !w.rows[w.page.jar.value].used)
  }

  ghost predicate Valid(w: World, steps: seq<Step>)
    decreases |steps|
  {
    steps == [] || (CanStep(w, steps[0]) && Valid(DoStep(w, steps[0]), steps[1..]))
  }

  ghost function After(w: World, steps: seq<Step>): World
    requires Valid(w, steps)
    decreases |steps|
  {
    if steps == [] then w else After(DoStep(w, steps[0]), steps[1..])
  }

  predicate Used(w: World, c: Option<Cookie>) { c.Some? && c.value in w.rows && w.rows[c.value].used }

  /** The refresh on the wire presented c and has been rotated; its answer is still on the way. */
  predicate Returning(w: World, c: Option<Cookie>) {
    Answerable(w) && w.page.wire[0].cookie == c && w.replies[w.page.wire[0].id].Ok?
  }

  predicate WasLost(w: World, c: Option<Cookie>) { c.Some? && c.value in w.lostGrants }

  ghost predicate ReplyOk(w: World) {
    Answerable(w) ==>
      var f := w.page.wire[0];
      match w.replies[f.id]
      case Ok(t, c) =>
        && t in w.minted && t !in w.page.tokens
        && c in w.rows && c !in w.page.cookies && !w.rows[c].used
        && Used(w, f.cookie)
      case _ => true
  }

  /** A rotation of the cookie has been carried out: its answer got home, never will, or is on the way. */
  predicate HasRotated(w: World, c: Option<Cookie>) {
    c.Some? && (c.value in w.homeGrants || c.value in w.lostGrants || Returning(w, c))
  }

  /** The row says so exactly for the cookies the page has had; a cookie still presented is not one that got home. */
  ghost predicate UsedMeansRotated(w: World) {
    && (Used(w, w.page.jar) <==> HasRotated(w, w.page.jar))
    && (forall f :: f in w.page.wire ==> (Used(w, f.cookie) <==> HasRotated(w, f.cookie)))
    && (forall f :: f in w.strays ==> (Used(w, f.cookie) <==> HasRotated(w, f.cookie)))
    && (w.page.jar.Some? ==> w.page.jar.value !in w.homeGrants)
    && (forall f :: f in w.page.wire && f.cookie.Some? ==> f.cookie.value !in w.homeGrants)
  }

  /** The page has had every cookie that was presented or rotated. */
  ghost predicate CookiesKnown(w: World) {
    && (forall f :: f in w.strays && f.cookie.Some? ==> f.cookie.value in w.page.cookies)
    && w.homeGrants <= w.page.cookies && w.lostGrants <= w.page.cookies
    && (forall c :: c in w.homeGrants + w.lostGrants ==> c in w.rows && w.rows[c].used)
  }

  ghost predicate WorldInv(w: World) {
    && Inv(w.page)
    && w.page.tokens <= w.minted
    && (forall id :: id in w.replies ==> id < w.page.nextFlight)
    && ReplyOk(w) && CookiesKnown(w) && UsedMeansRotated(w)
  }

  /** Starting and answering calls leaves the jar and the tokens alone, and the wire too but for a new refresh. */
  lemma PageStepFrame(s: State, e: Event)
    requires Inv(s) && Enabled(s, e) && (e.Start? || e.Answered?)
    ensures var r := Next(s, e);
      && r.jar == s.jar && r.tokens == s.tokens && r.cookies == s.cookies && s.nextFlight <= r.nextFlight
      && (r.wire == s.wire || (s.wire == [] && r.wire == [Flight(s.nextFlight, s.accessToken, s.jar)]))
  {}

  lemma CallStepKeepsWorld(w: World, e: Event)
    requires WorldInv(w) && CanStep(w, Page(e)) && !e.SignOut?
    ensures WorldInv(DoStep(w, Page(e)))
  {
    StepKeepsInv(w.page, e);
    PageStepFrame(w.page, e);
  }

  lemma PageStepKeepsWorld(w: World, e: Event)
    requires WorldInv(w) && CanStep(w, Page(e))
    ensures WorldInv(DoStep(w, Page(e)))
  {
    if e.SignOut? {
      StepKeepsInv(w.page, e);
    } else {
      CallStepKeepsWorld(w, e);
    }
  }

  /** Handling marks exactly the presented cookie used, if it rotates it, and adds the new one unused. */
  lemma ServerRotates(rows: map<Cookie, Row>, presented: Option<Cookie>, fate: Fate)
    requires fate.Process? ==> fate.cookie !in rows
    ensures var (after, reply) := ServerRefresh(rows, presented, fate);
      && (forall c :: c in rows ==>
            c in after && (after[c].used <==> rows[c].used || (reply.Ok? && presented == Some(c))))
      && (reply.Ok? ==>
            && reply.token == fate.token && reply.cookie == fate.cookie && presented.Some? && presented.value in rows
            && !rows[presented.value].used && fate.cookie in after && !after[fate.cookie].used)
      && (forall c :: c in after && c !in rows ==> reply.Ok? && c == fate.cookie)
  {}

  lemma HandleKeepsWorld(w: World, fate: Fate)
    requires WorldInv(w) && CanStep(w, Handle(fate))
    ensures WorldInv(DoStep(w, Handle(fate)))
  {
    ServerRotates(w.rows, w.page.wire[0].cookie, fate);
  }

  lemma HandleLateKeepsWorld(w: World, k: nat, fate: Fate)
    requires WorldInv(w) && CanStep(w, HandleLate(k, fate))
    ensures WorldInv(DoStep(w, HandleLate(k, fate)))
  {
    ServerRotates(w.rows, w.strays[k].cookie, fate);
  }

  lemma DeliverKeepsWorld(w: World, readable: bool)
    requires WorldInv(w) && CanStep(w, Deliver(readable))
    ensures WorldInv(DoStep(w, Deliver(readable)))
  {
    SettleKeepsInv(w.page, 0, AsAnswer(w.replies[w.page.wire[0].id], readable));
  }

  lemma GiveUpKeepsWorld(w: World)
    requires WorldInv(w) && |w.page.wire| == 1
    ensures WorldInv(GiveUp(w)) && GiveUp(w).page.wire == []
  {
    SettleKeepsInv(w.page, 0, Lost);
  }

  lemma ReloadKeepsWorld(w: World)
    requires WorldInv(w)
    ensures WorldInv(LoadAgain(w))
  {
    if |w.page.wire| == 1 {
      GiveUpKeepsWorld(w);
    }
  }

  lemma LoginKeepsWorld(w: World, t: Token, c: Cookie, session: nat)
    requires WorldInv(w) && CanStep(w, Login(t, c, session))
    ensures WorldInv(DoStep(w, Login(t, c, session)))
  {
    StepKeepsInv(w.page, SignIn(t, c));
  }

  lemma StepKeepsWorld(w: World, s: Step)
    requires WorldInv(w) && CanStep(w, s)
    ensures WorldInv(DoStep(w, s))
  {
    match s
    case Page(e) => PageStepKeepsWorld(w, e);
    case Login(t, c, session) => LoginKeepsWorld(w, t, c, session);
    case Handle(fate) => HandleKeepsWorld(w, fate);
    case Deliver(readable) => DeliverKeepsWorld(w, readable);
    case Lose => GiveUpKeepsWorld(w);
    case Reload => ReloadKeepsWorld(w);
    case HandleLate(k, fate) => HandleLateKeepsWorld(w, k, fate);
  }

  lemma {:induction false} RunKeepsWorld(w: World, steps: seq<Step>)
    requires WorldInv(w) && Valid(w, steps)
    ensures WorldInv(After(w, steps))
    decreases |steps|
  {
    if steps != [] {
      StepKeepsWorld(w, steps[0]);
      RunKeepsWorld(DoStep(w, steps[0]), steps[1..]);
    }
  }

  // ------------------------------------------------------------ when a refresh is taken for a replay

  /**
    The server takes a refresh the page is waiting for as a replay exactly when it presents a cookie
    whose rotation was carried out but whose answer got lost, or which was rotated late.
  */
  lemma ReplayOnlyAfterLostGrant(w: World, steps: seq<Step>, fate: Fate)
    requires Loaded(w) && Valid(w, steps)
    requires CanStep(After(w, steps), Handle(fate)) && fate.Process? && fate.deviceOk
    ensures var r := After(w, steps);
      DetectsReuse(r.rows, r.page.wire[0].cookie, fate) <==> WasLost(r, r.page.wire[0].cookie)
  {
    InvInitial(w.page);
    RunKeepsWorld(w, steps);
  }

  /** And one the page has given up on exactly when its cookie has been rotated for another one meanwhile. */
  lemma LateReplayOnlyAfterRotation(w: World, steps: seq<Step>, k: nat, fate: Fate)
    requires Loaded(w) && Valid(w, steps)
    requires CanStep(After(w, steps), HandleLate(k, fate)) && fate.Process? && fate.deviceOk
    ensures var r := After(w, steps);
      DetectsReuse(r.rows, r.strays[k].cookie, fate) <==> HasRotated(r, r.strays[k].cookie)
  {
    InvInitial(w.page);
    RunKeepsWorld(w, steps);
    assert After(w, steps).strays[k] in After(w, steps).strays;
  }

  /** The server processes a cookie, on the right device, that has been rotated before. */
  predicate PresentsRotated(w: World, s: Step) {
    match s
    case Handle(fate) => fate.Process? && fate.deviceOk && |w.page.wire| == 1 && WasLost(w, w.page.wire[0].cookie)
    case HandleLate(k, fate) => fate.Process? && fate.deviceOk && k < |w.strays| && HasRotated(w, w.strays[k].cookie)
    case _ => false
  }

  ghost function RotatedPresentations(w: World, steps: seq<Step>): nat
    requires Valid(w, steps)
    decreases |steps|
  {
    if steps == [] then 0
    else (if PresentsRotated(w, steps[0]) then 1 else 0) + RotatedPresentations(DoStep(w, steps[0]), steps[1..])
  }

  lemma ReplayStep(w: World, s: Step)
    requires WorldInv(w) && CanStep(w, s)
    ensures DoStep(w, s).reuseDetected == w.reuseDetected + if PresentsRotated(w, s) then 1 else 0
  {
    if s.HandleLate? {
      assert w.strays[s.index] in w.strays;
    }
  }

  lemma {:induction false} ReplaysCountedFrom(w: World, steps: seq<Step>)
    requires WorldInv(w) && Valid(w, steps)
    ensures After(w, steps).reuseDetected == w.reuseDetected + RotatedPresentations(w, steps)
    decreases |steps|
  {
    if steps != [] {
      ReplayStep(w, steps[0]);
      StepKeepsWorld(w, steps[0]);
      ReplaysCountedFrom(DoStep(w, steps[0]), steps[1..]);
    }
  }

  /** Over every run of a page, reloads included, sessions are revoked for replay exactly as often as that happens. */
  lemma ReplaysCounted(w: World, steps: seq<Step>)
    requires Loaded(w) && Valid(w, steps)
    ensures After(w, steps).reuseDetected == RotatedPresentations(w, steps)
  {
    InvInitial(w.page);
    ReplaysCountedFrom(w, steps);
  }

  /** No rotation answer is lost, and no refresh the page gave up on is processed after all. */
  ghost predicate NothingLostOrLate(w: World, steps: seq<Step>)
    requires Valid(w, steps)
    decreases |steps|
  {
    steps == [] ||
    (!LosesGrant(w, steps[0]) && !(steps[0].HandleLate? && steps[0].fate.Process?)
     && NothingLostOrLate(DoStep(w, steps[0]), steps[1..]))
  }

  lemma {:induction false} NoFalseReplayFrom(w: World, steps: seq<Step>)
    requires w.lostGrants == {} && Valid(w, steps) && NothingLostOrLate(w, steps)
    ensures RotatedPresentations(w, steps) == 0
    decreases |steps|
  {
    if steps != [] {
      NoFalseReplayFrom(DoStep(w, steps[0]), steps[1..]);
    }
  }

  /**
    However many calls run, fail, retry, sign in and sign out, and however often it is reloaded, one page
    never gets its session revoked for replay as long as no answer to a successful rotation is lost and no
    refresh it gave up on is processed late.
  */
  lemma NoFalseReplay(w: World, steps: seq<Step>)
    requires Loaded(w) && Valid(w, steps) && NothingLostOrLate(w, steps)
    ensures After(w, steps).reuseDetected == 0
  {
    ReplaysCounted(w, steps);
    NoFalseReplayFrom(w, steps);
  }

  /** The converse: after such a loss the next refresh the server processes revokes the session. */
  lemma LostGrantCostsTheSession(w: World, steps: seq<Step>, fate: Fate)
    requires Loaded(w) && Valid(w, steps)
    requires var r := After(w, steps);
      && r.page.wire == [] && WasLost(r, r.page.jar)
      && fate.Process? && fate.deviceOk && fate.token !in r.minted && fate.cookie !in r.rows
      && fate.token !in r.page.tokens && fate.cookie !in r.page.cookies
    ensures var r := After(w, steps); var start := Page(Start(Refresh, ""));
      && CanStep(r, start) && CanStep(DoStep(r, start), Handle(fate))
      && var z := DoStep(DoStep(r, start), Handle(fate));
      && z.reuseDetected == r.reuseDetected + 1
      && r.page.jar.value in r.rows
      && (forall c :: c in z.rows && z.rows[c].session == r.rows[r.page.jar.value].session ==> z.rows[c].revoked)
  {
    InvInitial(w.page);
    RunKeepsWorld(w, steps);
    var r := After(w, steps);
    assert DoStep(r, Page(Start(Refresh, ""))).page.wire == [Flight(r.page.nextFlight, r.page.accessToken, r.page.jar)];
  }

  // ------------------------------------------------------------ a refresh carried out late

  lemma {:induction false} Extend(w: World, steps: seq<Step>, s: Step)
    requires Valid(w, steps) && CanStep(After(w, steps), s)
    ensures Valid(w, steps + [s]) && After(w, steps + [s]) == DoStep(After(w, steps), s)
    decreases |steps|
  {
    if steps == [] {
      assert [] + [s] == [s];
      assert [s][1..] == [];
    } else {
      assert (steps + [s])[1..] == steps[1..] + [s];
      Extend(DoStep(w, steps[0]), steps[1..], s);
    }
  }

  const NEW_WORLD := World(
    State(None, None, [], [], None, 0, [], [], {}, {}), map[], map[], {}, [], 0, {}, {})

  /** One more step of a run that has reached m and has lost no grant. */
  lemma Then(steps: seq<Step>, m: World, s: Step) returns (more: seq<Step>, r: World)
    requires Valid(NEW_WORLD, steps) && After(NEW_WORLD, steps) == m && CanStep(m, s)
    ensures Valid(NEW_WORLD, more) && After(NEW_WORLD, more) == r == DoStep(m, s)
  {
    Extend(NEW_WORLD, steps, s);
    more, r := steps + [s], DoStep(m, s);
  }

  /** The page has given up one refresh of cookie 0, which the server has not seen. */
  lemma ReachGivenUp() returns (steps: seq<Step>, r: World)
    ensures Valid(NEW_WORLD, steps) && After(NEW_WORLD, steps) == r
    ensures r.strays == [Flight(0, Some(0), Some(0))] && r.page.wire == [] && r.page.refreshFlight.None?
    ensures r.page.jar == Some(0) && r.page.nextFlight == 1 && r.page.tokens == {0} && r.page.cookies == {0}
    ensures r.rows == map[0 := Row(0, false, false)] && r.replies == map[] && r.minted == {0}
    ensures r.reuseDetected == 0 && r.lostGrants == {} && r.homeGrants == {}
  {
    steps, r := Then([], NEW_WORLD, Login(0, 0, 0));
    assert r.page.wire == [];
    steps, r := Then(steps, r, Page(Start(Refresh, "")));
    assert r.page.wire == [Flight(0, Some(0), Some(0))];
    steps, r := Then(steps, r, Lose);
    assert r.page.cookies == {0};
  }

  /** The next refresh presents the same cookie, is rotated into cookie 1, and its answer arrives. */
  lemma ReachRotated() returns (steps: seq<Step>, r: World)
    ensures Valid(NEW_WORLD, steps) && After(NEW_WORLD, steps) == r
    ensures |r.strays| == 1 && r.strays[0].cookie == Some(0) && r.page.jar == Some(1)
    ensures r.rows == map[0 := Row(0, true, false), 1 := Row(0, false, false)]
    ensures r.minted == {0, 1} && r.page.tokens == {0, 1} && r.page.cookies == {0, 1}
    ensures r.reuseDetected == 0 && r.lostGrants == {}
  {
    var before;
    steps, before := ReachGivenUp();
    steps, r := Then(steps, before, Page(Start(Refresh, "")));
    assert |r.page.wire| == 1 && r.page.wire[0].cookie == Some(0) && r.page.wire[0].id == 1;
    assert r.strays == before.strays && r.rows == before.rows;
    var pending := r;
    steps, r := Then(steps, r, Handle(Process(true, false, true, 1, 1)));
    assert r.replies[1] == Ok(1, 1) && r.page == pending.page;
    assert {0} + {1} == {0, 1};
    steps, r := Then(steps, r, Deliver(true));
  }

  /**
    A run in which no answer to a rotation is lost and the session is revoked all the same: the page gives
    up a refresh, refreshes again with success, and then the first refresh reaches the server.
  */
  lemma LateRefreshCostsTheSession() returns (steps: seq<Step>, late: Step, r: World)
    ensures Loaded(NEW_WORLD) && Valid(NEW_WORLD, steps) && CanStep(After(NEW_WORLD, steps), late) && late.HandleLate?
    ensures After(NEW_WORLD, steps).reuseDetected == 0 && After(NEW_WORLD, steps).lostGrants == {}
    ensures r == DoStep(After(NEW_WORLD, steps), late)
    ensures r.reuseDetected == 1 && r.lostGrants == {}
    ensures r.page.jar.Some? && r.page.jar.value in r.rows && r.rows[r.page.jar.value].revoked
  {
    var m;
    steps, m := ReachRotated();
    late := HandleLate(0, Process(true, false, true, 2, 2));
    r := DoStep(m, late);
  }
}
