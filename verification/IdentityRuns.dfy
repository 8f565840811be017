/** What holds over every run that mixes the identity transactions, refused ones included. */
module IdentityRuns {
  import opened Prelude
  import opened Identity

  datatype Event =
    | DoInitialize
    | DoConvert(target: Option<Id>, mapping: set<Id>)
    | DoCreateRecovery
    | DoReset
    | DoRevokeAll
    | DoLock
    | DoUnlock
    | DoRedeem(recovery: nat, device: Id, session: Id, token: Id)
    | DoPasskeyLogin(passkey: Id, device: Id, session: Id, token: Id)
    | DoCompleteRecovery(previous: Id, passkey: Id, session: Id, token: Id)
    | DoCreateReader(id: Id)
    | DoReaderLogin(user: Id, device: Id, session: Id, token: Id)
    | DoAddContent(books: set<Id>, series: set<Id>, files: set<Id>, imports: set<Id>)

  /** One attempted transaction, and the time it happens at. */
  datatype Attempt = Attempt(event: Event, now: int)

  predicate Possible(db: Database, a: Attempt) {
    match a.event
    case DoRedeem(i, device, session, token) =>
      i < |db.recoveries| ==> FreshIds(db, db.recoveries[i].user, device, session, token)
    case DoPasskeyLogin(k, device, session, token) =>
      k in db.passkeys ==> FreshIds(db, db.passkeys[k].user, device, session, token)
    case DoCompleteRecovery(_, k, session, token) =>
      session !in db.sessions && token !in db.tokens && k !in db.passkeys
    case DoCreateReader(id) => id !in db.users
    case DoReaderLogin(user, device, session, token) => FreshIds(db, user, device, session, token)
    case _ => true
  }

  function Outcome(db: Database, a: Attempt, ttl: nat): Result
    requires Possible(db, a)
  {
    match a.event
    case DoInitialize => Initialize(db, a.now, ttl)
    case DoConvert(target, mapping) => Convert(db, target, mapping, a.now)
    case DoCreateRecovery => CreateRecovery(db, a.now, ttl)
    case DoReset => ResetCredentials(db, a.now, ttl)
    case DoRevokeAll => RevokeAllSessions(db, a.now)
    case DoLock => LockAdmin(db, a.now)
    case DoUnlock => UnlockAdmin(db, a.now)
    case DoRedeem(i, device, session, token) => Redeem(db, i, device, session, token, a.now)
    case DoPasskeyLogin(k, device, session, token) => PasskeyLogin(db, k, device, session, token, a.now)
    case DoCompleteRecovery(p, k, session, token) => CompleteRecovery(db, p, k, session, token, a.now)
    case DoCreateReader(id) => CreateReader(db, id, a.now)
    case DoReaderLogin(user, device, session, token) => ReaderLogin(db, user, device, session, token, a.now)
    case DoAddContent(b, s, f, i) => AddContent(db, b, s, f, i)
  }

  /** A refused or crashed transaction is rolled back. */
  function Next(db: Database, a: Attempt, ttl: nat): Database
    requires Possible(db, a)
  {
    var r := Outcome(db, a, ttl);
    if r.Committed? then r.db else db
  }

  ghost predicate Valid(db: Database, run: seq<Attempt>, ttl: nat)
    decreases |run|
  {
    run == [] || (Possible(db, run[0]) && Valid(Next(db, run[0], ttl), run[1..], ttl))
  }

  ghost function After(db: Database, run: seq<Attempt>, ttl: nat): Database
    requires Valid(db, run, ttl)
    decreases |run|
  {
    if run == [] then db else After(Next(db, run[0], ttl), run[1..], ttl)
  }

  /** Any users and content an older installation may hold; no owner configured yet. */
  ghost predicate BeforeSetup(db: Database) {
    db.site.owner.None? && db.site.lockedAt.None? && db.recoveries == []
  }

  // ------------------------------------------------------------ invariant

  /** Once configured, the library owner is an active administrator and nobody else is. */
  ghost predicate SoleAdmin(db: Database) {
    db.site.owner.Some? ==>
      && db.site.owner.value in db.users && IsActiveAdmin(db.users[db.site.owner.value])
      && (forall u :: u in db.users && IsActiveAdmin(db.users[u]) ==> db.site.owner == Some(u))
  }

  /** Of each user's recovery credentials only the last issued can still be open. */
  ghost predicate OneOpenRecovery(db: Database) {
    forall i, j :: 0 <= i < j < |db.recoveries| && db.recoveries[i].user == db.recoveries[j].user ==>
      !Open(db.recoveries[i])
  }

  /** While locked, every session of the owner that is not revoked is a recovery session. */
  ghost predicate LockHolds(db: Database) {
    db.site.lockedAt.Some? ==>
      && db.site.owner.Some?
      && (forall s :: s in db.sessions && db.sessions[s].revokedAt.None? && Some(db.sessions[s].user) == db.site.owner
            ==> db.sessions[s].recoveryMode)
  }

  ghost predicate Inv(db: Database) {
    SoleAdmin(db) && OneOpenRecovery(db) && LockHolds(db)
  }

  lemma IssueKeepsOneOpen(db: Database, user: Id, purpose: Purpose, now: int, ttl: nat)
    requires OneOpenRecovery(db)
    ensures OneOpenRecovery(IssueRecovery(db, user, purpose, now, ttl))
  {}

  lemma InitializeKeepsInv(db: Database, now: int, ttl: nat)
    requires Inv(db) && Initialize(db, now, ttl).Committed?
    ensures Inv(Initialize(db, now, ttl).db)
  {
    assert ActiveAdmins(db) == {};
    assert forall v :: v in db.users && IsActiveAdmin(db.users[v]) ==> v in ActiveAdmins(db);
    assert db.site.owner.None?;
    var r := Initialize(db, now, ttl).db;
    var u := TheOnly(Pending(db));
    IssueKeepsOneOpen(db, u, Initialization, now, ttl);
    assert r.recoveries == IssueRecovery(db, u, Initialization, now, ttl).recoveries;
  }

  lemma ConvertKeepsInv(db: Database, target: Id, now: int)
    requires Inv(db) && target in Admins(db)
    ensures Inv(ConvertTo(db, target, now))
  {
    var r := ConvertTo(db, target, now);
    assert forall u :: u in db.users && db.users[u].role == Admin ==> u in Admins(db);
  }

  lemma IssuingKeepsInv(db: Database, now: int, ttl: nat)
    requires Inv(db)
    ensures CreateRecovery(db, now, ttl).Committed? ==> Inv(CreateRecovery(db, now, ttl).db)
    ensures ResetCredentials(db, now, ttl).Committed? ==> Inv(ResetCredentials(db, now, ttl).db)
  {
    if db.site.owner.Some? {
      IssueKeepsOneOpen(db, db.site.owner.value, Recovering, now, ttl);
    }
  }

  lemma AdministrationKeepsInv(db: Database, a: Attempt, ttl: nat)
    requires Inv(db)
    requires a.event in {DoCreateRecovery, DoReset, DoRevokeAll, DoLock, DoUnlock}
    ensures Inv(Next(db, a, ttl))
  {
    if a.event == DoCreateRecovery || a.event == DoReset {
      IssuingKeepsInv(db, a.now, ttl);
    }
  }

  lemma LoginKeepsInv(db: Database, a: Attempt, ttl: nat)
    requires Inv(db) && Possible(db, a)
    requires a.event.DoRedeem? || a.event.DoPasskeyLogin? || a.event.DoCompleteRecovery? || a.event.DoReaderLogin?
    ensures Inv(Next(db, a, ttl))
  {}

  lemma StepKeepsInv(db: Database, a: Attempt, ttl: nat)
    requires Inv(db) && Possible(db, a)
    ensures Inv(Next(db, a, ttl))
  {
    var r := Outcome(db, a, ttl);
    if r.Committed? {
      match a.event
      case DoInitialize => InitializeKeepsInv(db, a.now, ttl);
      case DoConvert(target, _) =>
        ConvertKeepsInv(db, if target.Some? then target.value else SoleMember(Admins(db)), a.now);
      case DoRedeem(_, _, _, _) => LoginKeepsInv(db, a, ttl);
      case DoPasskeyLogin(_, _, _, _) => LoginKeepsInv(db, a, ttl);
      case DoCompleteRecovery(_, _, _, _) => LoginKeepsInv(db, a, ttl);
      case DoReaderLogin(_, _, _, _) => LoginKeepsInv(db, a, ttl);
      case DoCreateReader(_) =>
      case DoAddContent(_, _, _, _) =>
      case _ => AdministrationKeepsInv(db, a, ttl);
    }
  }

  lemma {:induction false} RunKeepsInv(db: Database, run: seq<Attempt>, ttl: nat)
    requires Inv(db) && Valid(db, run, ttl)
    ensures Inv(After(db, run, ttl))
    decreases |run|
  {
    if run != [] {
      StepKeepsInv(db, run[0], ttl);
      RunKeepsInv(Next(db, run[0], ttl), run[1..], ttl);
    }
  }

  // ------------------------------------------------------------ users and content

  predicate ChangesUsersOrContent(e: Event) {
    e.DoInitialize? || e.DoConvert? || e.DoCreateReader? || e.DoAddContent?
  }

  predicate SignsIn(e: Event) { e.DoRedeem? || e.DoPasskeyLogin? || e.DoCompleteRecovery? || e.DoReaderLogin? }

  ghost predicate SameUsersAndContent(db: Database, r: Database) {
    r.users == db.users && r.content == db.content && r.site.owner == db.site.owner
  }

  lemma RecoveryLoginsLeaveUsersAndContent(db: Database, a: Attempt, ttl: nat)
    requires Possible(db, a) && (a.event.DoRedeem? || a.event.DoCompleteRecovery?)
    ensures SameUsersAndContent(db, Next(db, a, ttl))
  {}

  lemma LoginsLeaveUsersAndContent(db: Database, a: Attempt, ttl: nat)
    requires Possible(db, a) && SignsIn(a.event)
    ensures SameUsersAndContent(db, Next(db, a, ttl))
  {
    if a.event.DoRedeem? || a.event.DoCompleteRecovery? {
      RecoveryLoginsLeaveUsersAndContent(db, a, ttl);
    }
  }

  lemma IssuingLeavesUsersAndContent(db: Database, a: Attempt, ttl: nat)
    requires Possible(db, a) && a.event in {DoCreateRecovery, DoReset}
    ensures SameUsersAndContent(db, Next(db, a, ttl))
  {}

  lemma CommandsLeaveUsersAndContent(db: Database, a: Attempt, ttl: nat)
    requires Possible(db, a) && a.event in {DoCreateRecovery, DoReset, DoRevokeAll, DoLock, DoUnlock}
    ensures SameUsersAndContent(db, Next(db, a, ttl))
  {
    if a.event in {DoCreateRecovery, DoReset} {
      IssuingLeavesUsersAndContent(db, a, ttl);
    }
  }

  lemma OthersLeaveUsersAndContent(db: Database, a: Attempt, ttl: nat)
    requires Possible(db, a) && !ChangesUsersOrContent(a.event)
    ensures SameUsersAndContent(db, Next(db, a, ttl))
  {
    if SignsIn(a.event) {
      LoginsLeaveUsersAndContent(db, a, ttl);
    } else {
      CommandsLeaveUsersAndContent(db, a, ttl);
    }
  }

  // ------------------------------------------------------------ the administrator

  /**
    Over every run from an installation without a configured owner: once one is configured it is an
    active administrator and the only one, so looking it up never fails.
  */
  lemma SoleAdministrator(db: Database, run: seq<Attempt>, ttl: nat)
    requires BeforeSetup(db) && Valid(db, run, ttl)
    ensures var r := After(db, run, ttl);
      && SiteAdmin(r) != Broken
      && (r.site.owner.Some? ==> ActiveAdmins(r) == {r.site.owner.value} && SiteAdmin(r) == Found(r.site.owner.value))
  {
    RunKeepsInv(db, run, ttl);
    var r := After(db, run, ttl);
    if r.site.owner.Some? {
      assert forall u :: u in ActiveAdmins(r) ==> u == r.site.owner.value;
      assert r.site.owner.value in ActiveAdmins(r);
    }
  }

  predicate Initializes(db: Database, a: Attempt, ttl: nat)
    requires Possible(db, a)
  {
    a.event == DoInitialize && Outcome(db, a, ttl).Committed?
  }

  /** How many attempts of a run to initialize succeed. */
  ghost function Initializations(db: Database, run: seq<Attempt>, ttl: nat): nat
    requires Valid(db, run, ttl)
    decreases |run|
  {
    if run == [] then 0
    else (if Initializes(db, run[0], ttl) then 1 else 0) + Initializations(Next(db, run[0], ttl), run[1..], ttl)
  }

  lemma ConfiguredStaysConfigured(db: Database, a: Attempt, ttl: nat)
    requires Inv(db) && Possible(db, a) && db.site.owner.Some?
    ensures Next(db, a, ttl).site.owner.Some? && !Initializes(db, a, ttl)
  {
    assert db.site.owner.value in ActiveAdmins(db);
  }

  lemma {:induction false} InitializesAtMostOnceFrom(db: Database, run: seq<Attempt>, ttl: nat)
    requires Inv(db) && Valid(db, run, ttl)
    ensures Initializations(db, run, ttl) <= if db.site.owner.None? then 1 else 0
    decreases |run|
  {
    if run != [] {
      StepKeepsInv(db, run[0], ttl);
      if db.site.owner.Some? { ConfiguredStaysConfigured(db, run[0], ttl); }
      InitializesAtMostOnceFrom(Next(db, run[0], ttl), run[1..], ttl);
    }
  }

  /** Initialization succeeds at most once, and never after a conversion. */
  lemma InitializesAtMostOnce(db: Database, run: seq<Attempt>, ttl: nat)
    requires BeforeSetup(db) && Valid(db, run, ttl)
    ensures Initializations(db, run, ttl) <= 1
    ensures After(db, run, ttl).site.owner.Some? ==>
      forall now: int :: !Initialize(After(db, run, ttl), now, ttl).Committed?
  {
    InitializesAtMostOnceFrom(db, run, ttl);
    RunKeepsInv(db, run, ttl);
    var r := After(db, run, ttl);
    if r.site.owner.Some? { assert r.site.owner.value in ActiveAdmins(r); }
  }

  /** Initialization turns the one pending account into the owner and leaves every other account alone. */
  lemma InitializesThePendingUser(db: Database, now: int, ttl: nat)
    requires Initialize(db, now, ttl).Committed?
    ensures var r := Initialize(db, now, ttl).db;
      && r.site.owner.Some? && Pending(db) == {r.site.owner.value} && Pending(r) == {}
      && r.users.Keys == db.users.Keys && IsActiveAdmin(r.users[r.site.owner.value])
      && (forall u :: u in db.users && u != r.site.owner.value ==> r.users[u] == db.users[u])
  {
    var u := TheOnly(Pending(db));
    assert u in Pending(db);
    assert forall v :: v in db.users && db.users[v].status == PendingSetup ==> v in Pending(db);
  }

  /** `one_or_none` finds two accounts: the only way initialization can fail internally. */
  lemma InitializeCrashesIff(db: Database, now: int, ttl: nat)
    ensures Initialize(db, now, ttl).Crashed? <==> exists a, b :: a in Pending(db) && b in Pending(db) && a != b
  {}

  lemma PendingNeverGrows(db: Database, a: Attempt, ttl: nat)
    requires Possible(db, a)
    ensures Pending(Next(db, a, ttl)) <= Pending(db)
  {
    match a.event
    case DoInitialize =>
    case DoConvert(_, _) =>
    case DoCreateReader(_) =>
    case DoAddContent(_, _, _, _) =>
    case _ => OthersLeaveUsersAndContent(db, a, ttl);
  }

  lemma {:induction false} PendingNeverGrowsOver(db: Database, run: seq<Attempt>, ttl: nat)
    requires Valid(db, run, ttl)
    ensures Pending(After(db, run, ttl)) <= Pending(db)
    decreases |run|
  {
    if run != [] {
      PendingNeverGrows(db, run[0], ttl);
      PendingNeverGrowsOver(Next(db, run[0], ttl), run[1..], ttl);
    }
  }

  /** Some run leads to an initialization that fails internally. */
  ghost predicate InitializeCanCrash(db: Database, ttl: nat) {
    exists run: seq<Attempt>, now: int :: Valid(db, run, ttl) && Initialize(After(db, run, ttl), now, ttl).Crashed?
  }

  /** Whether initialization can ever fail internally is settled by the accounts pending at the start. */
  lemma InitializeCanCrashIff(db: Database, ttl: nat)
    ensures InitializeCanCrash(db, ttl) <==> exists a, b :: a in Pending(db) && b in Pending(db) && a != b
  {
    if InitializeCanCrash(db, ttl) {
      var run: seq<Attempt>, now: int :| Valid(db, run, ttl) && Initialize(After(db, run, ttl), now, ttl).Crashed?;
      InitializeCrashesIff(After(db, run, ttl), now, ttl);
      PendingNeverGrowsOver(db, run, ttl);
    }
    if exists a, b :: a in Pending(db) && b in Pending(db) && a != b {
      assert Valid(db, [], ttl) && After(db, [], ttl) == db;
      InitializeCrashesIff(db, 0, ttl);
    }
  }

  // ------------------------------------------------------------ recovery credentials

  /** At any point of any run at most one recovery credential at all can be redeemed. */
  lemma OneRedeemableCredential(db: Database, run: seq<Attempt>, ttl: nat, i: nat, j: nat,
                                device: Id, session: Id, token: Id, now: int)
    requires BeforeSetup(db) && Valid(db, run, ttl)
    requires var r := After(db, run, ttl);
      && i < |r.recoveries| && j < |r.recoveries|
      && FreshIds(r, r.recoveries[i].user, device, session, token)
      && Redeem(r, i, device, session, token, now).Committed?
      && FreshIds(r, r.recoveries[j].user, device, session, token)
      && Redeem(r, j, device, session, token, now).Committed?
    ensures i == j
    ensures forall k :: i < k < |After(db, run, ttl).recoveries| ==>
      After(db, run, ttl).recoveries[k].user != After(db, run, ttl).recoveries[i].user
  {
    RunKeepsInv(db, run, ttl);
  }

  predicate Issues(e: Event) { e.DoInitialize? || e.DoCreateRecovery? || e.DoReset? }

  lemma IssuingKeepsClosed(db: Database, a: Attempt, ttl: nat, i: nat)
    requires Possible(db, a) && Issues(a.event) && i < |db.recoveries| && !Open(db.recoveries[i])
    ensures var r := Next(db, a, ttl); i < |r.recoveries| && r.recoveries[i] == db.recoveries[i]
  {}

  lemma OthersIssueNothing(db: Database, a: Attempt, ttl: nat)
    requires Possible(db, a) && !Issues(a.event) && !a.event.DoRedeem?
    ensures Next(db, a, ttl).recoveries == db.recoveries
  {
    match a.event
    case DoConvert(_, _) =>
    case DoPasskeyLogin(_, _, _, _) =>
    case DoReaderLogin(_, _, _, _) =>
    case DoCompleteRecovery(_, _, _, _) =>
    case _ =>
  }

  lemma StepKeepsClosed(db: Database, a: Attempt, ttl: nat, i: nat)
    requires Possible(db, a) && i < |db.recoveries| && !Open(db.recoveries[i])
    ensures var r := Next(db, a, ttl); i < |r.recoveries| && r.recoveries[i] == db.recoveries[i]
  {
    if Issues(a.event) {
      IssuingKeepsClosed(db, a, ttl, i);
    } else if !a.event.DoRedeem? {
      OthersIssueNothing(db, a, ttl);
    }
  }

  lemma {:induction false} ClosedIsFinal(db: Database, run: seq<Attempt>, ttl: nat, i: nat)
    requires Valid(db, run, ttl) && i < |db.recoveries| && !Open(db.recoveries[i])
    ensures var r := After(db, run, ttl); i < |r.recoveries| && r.recoveries[i] == db.recoveries[i]
    decreases |run|
  {
    if run != [] {
      StepKeepsClosed(db, run[0], ttl, i);
      ClosedIsFinal(Next(db, run[0], ttl), run[1..], ttl, i);
    }
  }

  /** A recovery credential logs in at most once, whatever happens afterwards. */
  lemma RedeemedOnce(db: Database, i: nat, device: Id, session: Id, token: Id, now: int,
                     run: seq<Attempt>, ttl: nat, device': Id, session': Id, token': Id, later: int)
    requires i < |db.recoveries| && FreshIds(db, db.recoveries[i].user, device, session, token)
    requires Redeem(db, i, device, session, token, now).Committed?
    requires Valid(Redeem(db, i, device, session, token, now).db, run, ttl)
    requires var r := After(Redeem(db, i, device, session, token, now).db, run, ttl);
      i < |r.recoveries| ==> FreshIds(r, r.recoveries[i].user, device', session', token')
    ensures var r := After(Redeem(db, i, device, session, token, now).db, run, ttl);
      !Redeem(r, i, device', session', token', later).Committed?
  {
    ClosedIsFinal(Redeem(db, i, device, session, token, now).db, run, ttl, i);
  }

  /** Issuing leaves exactly the new credential open for the administrator. */
  lemma IssuedIsTheOnlyOpen(db: Database, run: seq<Attempt>, ttl: nat, now: int)
    requires BeforeSetup(db) && Valid(db, run, ttl) && After(db, run, ttl).site.owner.Some?
    ensures var r := After(db, run, ttl); var n := |r.recoveries|;
      && CreateRecovery(r, now, ttl).Committed? && ResetCredentials(r, now, ttl).Committed?
      && (forall z :: z in [CreateRecovery(r, now, ttl).db, ResetCredentials(r, now, ttl).db] ==>
            && |z.recoveries| == n + 1
            && (forall i :: 0 <= i <= n && z.recoveries[i].user == r.site.owner.value ==>
                  (Open(z.recoveries[i]) <==> i == n)))
  {
    SoleAdministrator(db, run, ttl);
  }

  // ------------------------------------------------------------ the emergency lock

  /** While locked, no unrevoked session of the administrator is anything but a recovery session. */
  lemma LockedLeavesOnlyRecovery(db: Database, run: seq<Attempt>, ttl: nat, s: Id)
    requires BeforeSetup(db) && Valid(db, run, ttl) && After(db, run, ttl).site.lockedAt.Some?
    requires var r := After(db, run, ttl);
      s in r.sessions && r.sessions[s].revokedAt.None? && Some(r.sessions[s].user) == r.site.owner
    ensures After(db, run, ttl).sessions[s].recoveryMode
  {
    RunKeepsInv(db, run, ttl);
  }

  /** The guards behind which the lock is lifted: a configured administrator unlocks, or recovers completely. */
  predicate Lifts(db: Database, e: Event) {
    match e
    case DoUnlock => SiteAdmin(db).Found?
    case DoCompleteRecovery(previous, _, _, _) =>
      previous in db.sessions
      && var s := db.sessions[previous];
      && s.revokedAt.None? && s.recoveryMode
      && s.user in db.users && IsActiveAdmin(db.users[s.user]) && db.site.owner == Some(s.user)
    case _ => false
  }

  lemma OthersKeepLockTime(db: Database, a: Attempt, ttl: nat)
    requires db.site.lockedAt.Some? && Possible(db, a) && !a.event.DoUnlock? && !a.event.DoCompleteRecovery?
    ensures Next(db, a, ttl).site.lockedAt == db.site.lockedAt
  {
    match a.event
    case DoInitialize =>
    case DoConvert(_, _) =>
    case DoReset =>
    case DoRevokeAll =>
    case DoLock =>
    case DoRedeem(_, _, _, _) =>
    case DoPasskeyLogin(_, _, _, _) =>
    case DoReaderLogin(_, _, _, _) =>
    case _ =>
  }

  /** One attempt leaves the lock time as it is, or lifts the lock, and it lifts it exactly behind those guards. */
  lemma LockTimeStep(db: Database, a: Attempt, ttl: nat)
    requires db.site.lockedAt.Some? && Possible(db, a)
    ensures Next(db, a, ttl).site.lockedAt == db.site.lockedAt <==> !Lifts(db, a.event)
    ensures Lifts(db, a.event) ==> Next(db, a, ttl).site.lockedAt.None?
  {
    if !a.event.DoUnlock? && !a.event.DoCompleteRecovery? {
      OthersKeepLockTime(db, a, ttl);
    }
  }

  ghost predicate NeverLifted(db: Database, run: seq<Attempt>, ttl: nat)
    requires Valid(db, run, ttl)
    decreases |run|
  {
    run == [] || (!Lifts(db, run[0].event) && NeverLifted(Next(db, run[0], ttl), run[1..], ttl))
  }

  /** The lock shows this time at the start of the run and after each of its attempts. */
  ghost predicate LockedThroughout(db: Database, run: seq<Attempt>, ttl: nat, at: Option<int>)
    requires Valid(db, run, ttl)
    decreases |run|
  {
    db.site.lockedAt == at && (run == [] || LockedThroughout(Next(db, run[0], ttl), run[1..], ttl, at))
  }

  /**
    The first lock time stays for a whole run, however often it is locked again, exactly when no
    attempt of the run unlocks or completes a recovery of the administrator; refused ones do no harm.
  */
  lemma {:induction false} LockTimeIsKept(db: Database, run: seq<Attempt>, ttl: nat)
    requires db.site.lockedAt.Some? && Valid(db, run, ttl)
    ensures LockedThroughout(db, run, ttl, db.site.lockedAt) <==> NeverLifted(db, run, ttl)
    ensures NeverLifted(db, run, ttl) ==> After(db, run, ttl).site.lockedAt == db.site.lockedAt
    decreases |run|
  {
    if run != [] {
      LockTimeStep(db, run[0], ttl);
      var n := Next(db, run[0], ttl);
      if n.site.lockedAt == db.site.lockedAt {
        LockTimeIsKept(n, run[1..], ttl);
      }
    }
  }

  // ------------------------------------------------------------ a recovery that lifts the lock

  lemma {:induction false} Extend(db: Database, run: seq<Attempt>, ttl: nat, a: Attempt)
    requires Valid(db, run, ttl) && Possible(After(db, run, ttl), a)
    ensures Valid(db, run + [a], ttl) && After(db, run + [a], ttl) == Next(After(db, run, ttl), a, ttl)
    decreases |run|
  {
    if run == [] {
      assert [] + [a] == [a];
      assert [a][1..] == [];
    } else {
      assert (run + [a])[1..] == run[1..] + [a];
      Extend(Next(db, run[0], ttl), run[1..], ttl, a);
    }
  }

  /** One account pending setup and nothing else. */
  const FRESH_INSTALLATION := Database(
    map[0 := User(Admin, PendingSetup, false, None, 0)], Site(None, None, None, 0),
    Content(map[], map[], map[], map[]), map[], map[], map[], map[], [], [])

  /** Locked at time 1; no recovery credential has been used. */
  ghost predicate LockedOut(db: Database) {
    && db.site.owner == Some(0) && db.site.lockedAt == Some(1)
    && 0 in db.users && IsActiveAdmin(db.users[0])
    && db.devices == map[] && db.sessions == map[] && db.tokens == map[] && db.passkeys == map[]
  }

  lemma ReachLock(ttl: nat) returns (run: seq<Attempt>)
    ensures Valid(FRESH_INSTALLATION, run, ttl) && LockedOut(After(FRESH_INSTALLATION, run, ttl))
    ensures |After(FRESH_INSTALLATION, run, ttl).recoveries| == 1
    ensures forall a :: a in run ==> !a.event.DoUnlock?
  {
    var db := FRESH_INSTALLATION;
    assert 0 in Pending(db);
    assert Pending(db) == {0};
    assert ActiveAdmins(db) == {};
    var first, second := Attempt(DoInitialize, 0), Attempt(DoLock, 1);
    Extend(db, [], ttl, first);
    var n := Next(db, first, ttl);
    assert [] + [first] == [first];
    Extend(db, [first], ttl, second);
    run := [first] + [second];
    var r := Next(n, second, ttl);
    assert r.sessions == map[] && r.tokens == map[];
  }

  lemma RecoveryCompletes(db: Database, ttl: nat)
    requires LockedOut(db) && |db.recoveries| == 1 && ttl > 1
    ensures var issued := Next(db, Attempt(DoCreateRecovery, 2), ttl);
      var redeem := Attempt(DoRedeem(1, 0, 0, 0), 3);
      && Possible(issued, redeem)
      && var redeemed := Next(issued, redeem, ttl);
      var complete := Attempt(DoCompleteRecovery(0, 0, 1, 1), 4);
      && Possible(redeemed, complete)
      && redeemed.site.lockedAt == Some(1) && Next(redeemed, complete, ttl).site.lockedAt == None
  {
    var issued := Next(db, Attempt(DoCreateRecovery, 2), ttl);
    assert issued.recoveries[1] == Recovery(0, Recovering, 2, 2 + ttl, None, None);
    var redeemed := Next(issued, Attempt(DoRedeem(1, 0, 0, 0), 3), ttl);
    assert 0 in redeemed.sessions && redeemed.sessions[0] == Session(0, 0, true, None);
  }

  /** A run from a fresh installation that locks the administrator and ends unlocked without any unlock. */
  lemma RecoveryLiftsLock(ttl: nat) returns (locked: seq<Attempt>, rest: seq<Attempt>)
    requires ttl > 1
    ensures BeforeSetup(FRESH_INSTALLATION)
    ensures Valid(FRESH_INSTALLATION, locked, ttl) && After(FRESH_INSTALLATION, locked, ttl).site.lockedAt.Some?
    ensures Valid(FRESH_INSTALLATION, locked + rest, ttl)
    ensures After(FRESH_INSTALLATION, locked + rest, ttl).site.lockedAt.None?
    ensures forall a :: a in locked + rest ==> !a.event.DoUnlock?
  {
    var db := FRESH_INSTALLATION;
    locked := ReachLock(ttl);
    RecoveryCompletes(After(db, locked, ttl), ttl);
    var issue, redeem := Attempt(DoCreateRecovery, 2), Attempt(DoRedeem(1, 0, 0, 0), 3);
    var complete := Attempt(DoCompleteRecovery(0, 0, 1, 1), 4);
    Extend(db, locked, ttl, issue);
    Extend(db, locked + [issue], ttl, redeem);
    Extend(db, locked + [issue] + [redeem], ttl, complete);
    rest := [issue, redeem, complete];
    assert locked + rest == locked + [issue] + [redeem] + [complete];
  }
}
