/** Who can still act as the administrator after a credential reset, a lock or a full revocation. */
module AdminAccess {
  import opened Prelude
  import opened Identity
  import opened IdentityRuns

  /** t is a refresh token of one of the user's sessions. */
  predicate TokenOf(db: Database, t: Id, user: Id) {
    t in db.tokens && db.tokens[t].session in db.sessions && db.sessions[db.tokens[t].session].user == user
  }

  ghost predicate NoSessions(sessions: map<Id, Session>, user: Id) {
    forall s :: s in sessions && sessions[s].user == user ==> sessions[s].revokedAt.Some?
  }

  ghost predicate NoTokens(db: Database, user: Id) {
    forall t :: TokenOf(db, t, user) ==> db.tokens[t].revokedAt.Some?
  }

  ghost predicate NoPasskeys(passkeys: map<Id, Passkey>, user: Id) {
    forall k :: k in passkeys && passkeys[k].user == user ==> passkeys[k].revokedAt.Some?
  }

  /** Sessions, tokens and passkeys of every other user are as they were, and no earlier revocation gets a new time. */
  ghost predicate OnlySignsOut(db: Database, r: Database, user: Id) {
    && r.users == db.users && r.content == db.content && r.devices == db.devices && r.site.owner == db.site.owner
    && r.sessions.Keys == db.sessions.Keys && r.tokens.Keys == db.tokens.Keys && r.passkeys.Keys == db.passkeys.Keys
    && (forall s :: s in db.sessions && (db.sessions[s].user != user || db.sessions[s].revokedAt.Some?) ==>
          r.sessions[s] == db.sessions[s])
    && (forall t :: t in db.tokens && (!TokenOf(db, t, user) || db.tokens[t].revokedAt.Some?) ==>
          r.tokens[t] == db.tokens[t])
    && (forall k :: k in db.passkeys && (db.passkeys[k].user != user || db.passkeys[k].revokedAt.Some?) ==>
          r.passkeys[k] == db.passkeys[k])
  }

  lemma RevocationEndsSessions(db: Database, user: Id, now: int)
    ensures var r := RevokeSessions(db, SessionsOf(db, user), now);
      NoSessions(r.sessions, user) && NoTokens(r, user) && OnlySignsOut(db, r, user)
  {}

  /** Revoking all ends every session of the administrator, and touches nobody else. */
  lemma RevokeAllEndsSessions(db: Database, now: int)
    requires RevokeAllSessions(db, now).Committed?
    ensures var r := RevokeAllSessions(db, now).db; var admin := SiteAdmin(db).admin;
      NoSessions(r.sessions, admin) && NoTokens(r, admin) && OnlySignsOut(db, r, admin)
  {
    RevocationEndsSessions(db, SiteAdmin(db).admin, now);
  }

  /** So does the emergency lock. */
  lemma LockEndsSessions(db: Database, now: int)
    requires LockAdmin(db, now).Committed?
    ensures var r := LockAdmin(db, now).db; var admin := SiteAdmin(db).admin;
      && NoSessions(r.sessions, admin) && NoTokens(r, admin) && OnlySignsOut(db, r, admin)
      && r.site.lockedAt == Some(db.site.lockedAt.GetOr(now))
  {
    RevocationEndsSessions(db, SiteAdmin(db).admin, now);
  }

  /** A credential reset also ends every passkey. */
  lemma ResetEndsAccess(db: Database, now: int, ttl: nat)
    requires ResetCredentials(db, now, ttl).Committed?
    ensures var r := ResetCredentials(db, now, ttl).db; var admin := SiteAdmin(db).admin;
      && NoSessions(r.sessions, admin) && NoTokens(r, admin) && NoPasskeys(r.passkeys, admin)
      && OnlySignsOut(db, r, admin)
  {
    RevocationEndsSessions(db, SiteAdmin(db).admin, now);
  }

  /** A passkey that works is refused while locked and works again after unlocking. */
  lemma LockRefusesUnlockReadmits(db: Database, passkey: Id, device: Id, session: Id, token: Id, now: int)
    requires SiteAdmin(db).Found? && IsActiveAdmin(db.users[SiteAdmin(db).admin])
    requires passkey in db.passkeys && db.passkeys[passkey] == Passkey(SiteAdmin(db).admin, None)
    requires FreshIds(db, SiteAdmin(db).admin, device, session, token)
    ensures var locked := LockAdmin(db, now);
      && locked.Committed? && FreshIds(locked.db, SiteAdmin(db).admin, device, session, token)
      && !PasskeyLogin(locked.db, passkey, device, session, token, now).Committed?
      && var unlocked := UnlockAdmin(locked.db, now);
      && unlocked.Committed? && FreshIds(unlocked.db, SiteAdmin(db).admin, device, session, token)
      && PasskeyLogin(unlocked.db, passkey, device, session, token, now).Committed?
  {
    assert LockAdmin(db, now).db.devices == db.devices;
  }

  /** Accounts, content and devices are as they were, and so are all sessions, tokens and passkeys of others. */
  ghost predicate OtherUsersKept(db: Database, r: Database, user: Id) {
    && r.users == db.users && r.content == db.content && r.devices == db.devices && r.recoveries == db.recoveries
    && (forall s :: s in db.sessions && db.sessions[s].user != user ==>
          s in r.sessions && r.sessions[s] == db.sessions[s])
    && (forall s :: s in r.sessions && s !in db.sessions ==> r.sessions[s].user == user)
    && (forall t :: t in db.tokens && !TokenOf(db, t, user) ==> t in r.tokens && r.tokens[t] == db.tokens[t])
    && (forall t :: t in r.tokens && t !in db.tokens ==> TokenOf(r, t, user))
    && (forall k :: k in db.passkeys ==> k in r.passkeys && r.passkeys[k] == db.passkeys[k])
    && (forall k :: k in r.passkeys && k !in db.passkeys ==> r.passkeys[k].user == user)
  }

  /** A completed recovery leaves the administrator one live session, an ordinary one, and no lock. */
  lemma CompletedRecoveryStandsAlone(db: Database, previous: Id, passkey: Id, session: Id, token: Id, now: int)
    requires session !in db.sessions && token !in db.tokens && passkey !in db.passkeys
    requires CompleteRecovery(db, previous, passkey, session, token, now).Committed?
    ensures var r := CompleteRecovery(db, previous, passkey, session, token, now).db;
      var admin := db.sessions[previous].user;
      && r.site.owner == Some(admin) && r.site.lockedAt.None?
      && Live(r, SessionsOf(r, admin)) == {session} && !r.sessions[session].recoveryMode
      && OtherUsersKept(db, r, admin)
  {
    var r := CompleteRecovery(db, previous, passkey, session, token, now).db;
    var user := db.sessions[previous].user;
    assert forall s :: s in db.sessions && db.sessions[s].user == user ==> s in SessionsOf(db, user);
    assert session in SessionsOf(r, user);
  }

  /** The configured administrator has no way in but a recovery credential. */
  ghost predicate ShutOut(db: Database, admin: Id) {
    && db.site.owner == Some(admin) && admin in db.users && IsActiveAdmin(db.users[admin])
    && NoSessions(db.sessions, admin) && NoPasskeys(db.passkeys, admin)
  }

  lemma CommandKeepsShutOut(db: Database, admin: Id, a: Attempt, ttl: nat)
    requires ShutOut(db, admin) && a.event in {DoCreateRecovery, DoReset, DoRevokeAll, DoLock, DoUnlock}
    ensures ShutOut(Next(db, a, ttl), admin)
  {
    match a.event
    case DoReset => ResetEndsAccess(db, a.now, ttl);
    case DoRevokeAll => RevokeAllEndsSessions(db, a.now);
    case DoLock => LockEndsSessions(db, a.now);
    case _ =>
  }

  lemma LoginKeepsShutOut(db: Database, admin: Id, a: Attempt, ttl: nat)
    requires ShutOut(db, admin) && Possible(db, a)
    requires a.event.DoPasskeyLogin? || a.event.DoCompleteRecovery? || a.event.DoReaderLogin?
    ensures ShutOut(Next(db, a, ttl), admin)
  {}

  /** What readmits the administrator: a credential is redeemed, or a conversion makes somebody else the owner. */
  predicate Readmits(db: Database, a: Attempt, ttl: nat)
    requires Possible(db, a)
  {
    var r := Outcome(db, a, ttl);
    r.Committed? && (a.event.DoRedeem? || (a.event.DoConvert? && r.db.site.owner != db.site.owner))
  }

  lemma RedemptionReadmits(db: Database, admin: Id, a: Attempt, ttl: nat)
    requires ShutOut(db, admin) && Possible(db, a) && a.event.DoRedeem?
    ensures ShutOut(Next(db, a, ttl), admin) <==> !Readmits(db, a, ttl)
  {
    if Readmits(db, a, ttl) {
      assert Next(db, a, ttl).sessions[a.event.session] == Session(admin, a.event.device, true, None);
    }
  }

  lemma ConversionKeepsShutOut(db: Database, admin: Id, now: int)
    requires ShutOut(db, admin)
    ensures ShutOut(ConvertTo(db, admin, now), admin)
  {
    assert admin !in Admins(db) - {admin};
  }

  lemma OthersKeepShutOut(db: Database, admin: Id, a: Attempt, ttl: nat)
    requires ShutOut(db, admin) && Possible(db, a) && !a.event.DoRedeem? && !a.event.DoConvert?
    ensures ShutOut(Next(db, a, ttl), admin)
  {
    match a.event
    case DoInitialize => assert admin in ActiveAdmins(db);
    case DoPasskeyLogin(_, _, _, _) => LoginKeepsShutOut(db, admin, a, ttl);
    case DoCompleteRecovery(_, _, _, _) => LoginKeepsShutOut(db, admin, a, ttl);
    case DoReaderLogin(_, _, _, _) => LoginKeepsShutOut(db, admin, a, ttl);
    case DoCreateReader(_) =>
    case DoAddContent(_, _, _, _) =>
    case _ => CommandKeepsShutOut(db, admin, a, ttl);
  }

  lemma ShutOutStep(db: Database, admin: Id, a: Attempt, ttl: nat)
    requires ShutOut(db, admin) && Possible(db, a)
    ensures ShutOut(Next(db, a, ttl), admin) <==> !Readmits(db, a, ttl)
  {
    match a.event
    case DoRedeem(_, _, _, _) => RedemptionReadmits(db, admin, a, ttl);
    case DoConvert(target, mapping) =>
      if Convert(db, target, mapping, a.now).Committed? && !Readmits(db, a, ttl) {
        ConversionKeepsShutOut(db, admin, a.now);
        assert Next(db, a, ttl) == ConvertTo(db, admin, a.now);
      }
    case _ => OthersKeepShutOut(db, admin, a, ttl);
  }

  ghost predicate NeverReadmitted(db: Database, run: seq<Attempt>, ttl: nat)
    requires Valid(db, run, ttl)
    decreases |run|
  {
    run == [] || (!Readmits(db, run[0], ttl) && NeverReadmitted(Next(db, run[0], ttl), run[1..], ttl))
  }

  ghost predicate ShutOutThroughout(db: Database, run: seq<Attempt>, ttl: nat, admin: Id)
    requires Valid(db, run, ttl)
    decreases |run|
  {
    ShutOut(db, admin) && (run == [] || ShutOutThroughout(Next(db, run[0], ttl), run[1..], ttl, admin))
  }

  lemma {:induction false} StaysShutOut(db: Database, admin: Id, run: seq<Attempt>, ttl: nat)
    requires ShutOut(db, admin) && Valid(db, run, ttl)
    ensures ShutOutThroughout(db, run, ttl, admin) <==> NeverReadmitted(db, run, ttl)
    ensures NeverReadmitted(db, run, ttl) ==> ShutOut(After(db, run, ttl), admin)
    decreases |run|
  {
    if run != [] {
      ShutOutStep(db, admin, run[0], ttl);
      if !Readmits(db, run[0], ttl) {
        StaysShutOut(Next(db, run[0], ttl), admin, run[1..], ttl);
      }
    }
  }

  /**
    After a credential reset nobody holds a live session or a passkey of the administrator, throughout every
    further run, exactly as long as no redemption succeeds and no conversion makes somebody else the owner;
    refused ones do no harm.
  */
  lemma ResetShutsOut(db: Database, earlier: seq<Attempt>, now: int, ttl: nat, run: seq<Attempt>)
    requires BeforeSetup(db) && Valid(db, earlier, ttl)
    requires ResetCredentials(After(db, earlier, ttl), now, ttl).Committed?
    requires Valid(ResetCredentials(After(db, earlier, ttl), now, ttl).db, run, ttl)
    ensures var before := After(db, earlier, ttl); var reset := ResetCredentials(before, now, ttl).db;
      && before.site.owner.Some?
      && (ShutOutThroughout(reset, run, ttl, before.site.owner.value) <==> NeverReadmitted(reset, run, ttl))
      && (NeverReadmitted(reset, run, ttl) ==> ShutOut(After(reset, run, ttl), before.site.owner.value))
  {
    var before := After(db, earlier, ttl);
    SoleAdministrator(db, earlier, ttl);
    ResetEndsAccess(before, now, ttl);
    var admin := SiteAdmin(before).admin;
    assert admin in ActiveAdmins(before);
    StaysShutOut(ResetCredentials(before, now, ttl).db, admin, run, ttl);
  }

  /** Only a credential issued by the reset or later readmits: those the administrator had before never do again. */
  lemma ResetEndsEarlierCredentials(db: Database, now: int, ttl: nat, run: seq<Attempt>, i: nat,
                                    device: Id, session: Id, token: Id, later: int)
    requires ResetCredentials(db, now, ttl).Committed? && Valid(ResetCredentials(db, now, ttl).db, run, ttl)
    requires i < |db.recoveries| && db.recoveries[i].user == SiteAdmin(db).admin
    requires var r := After(ResetCredentials(db, now, ttl).db, run, ttl);
      i < |r.recoveries| ==> FreshIds(r, r.recoveries[i].user, device, session, token)
    ensures var r := After(ResetCredentials(db, now, ttl).db, run, ttl);
      && i < |r.recoveries| && !Open(r.recoveries[i])
      && !Redeem(r, i, device, session, token, later).Committed?
  {
    ClosedIsFinal(ResetCredentials(db, now, ttl).db, run, ttl, i);
  }
}
