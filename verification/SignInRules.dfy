/** Who may sign in, what signing in changes, and how long a recovery credential is good for. */
module SignInRules {
  import opened Prelude
  import opened Identity
  import opened IdentityRuns

  predicate ConfiguredAdmin(db: Database, user: Id) {
    && db.site.owner == Some(user) && user in db.users
    && db.users[user].role == Admin && db.users[user].status == Active
  }

  /** One new live session and token on the device; whatever was live there before is revoked now. */
  ghost predicate SignedIn(
      db: Database, r: Database, user: Id, device: Id, session: Id, token: Id, recoveryMode: bool, now: int) {
    && r.devices == db.devices[device := Device(user, None, now)]
    && r.sessions.Keys == db.sessions.Keys + {session}
    && r.sessions[session] == Session(user, device, recoveryMode, None)
    && (forall s :: s in db.sessions && s != session ==>
          r.sessions[s] == (if db.sessions[s].device == device && db.sessions[s].revokedAt.None?
                            then db.sessions[s].(revokedAt := Some(now)) else db.sessions[s]))
    && r.tokens.Keys == db.tokens.Keys + {token}
    && r.tokens[token] == RefreshToken(session, None)
    && (forall t :: t in db.tokens && t != token ==>
          r.tokens[t] == (if TokenOn(db, t, device) && db.tokens[t].revokedAt.None?
                          then db.tokens[t].(revokedAt := Some(now)) else db.tokens[t]))
  }

  predicate TokenOn(db: Database, t: Id, device: Id) {
    t in db.tokens && db.tokens[t].session in db.sessions && db.sessions[db.tokens[t].session].device == device
  }

  /** Nothing but sessions, tokens, devices and the audit differs. */
  predicate OnlySignsIn(db: Database, r: Database) {
    && r.users == db.users && r.site == db.site && r.content == db.content
    && r.passkeys == db.passkeys && r.recoveries == db.recoveries
  }

  /**
    A recovery credential signs in exactly when it is unused, unrevoked and not yet at its expiry, and belongs
    to the configured, active administrator; it is then used up, and the session is a recovery session.
  */
  lemma RedeemRule(db: Database, i: nat, device: Id, session: Id, token: Id, now: int)
    requires i < |db.recoveries| ==> FreshIds(db, db.recoveries[i].user, device, session, token)
    ensures var r := Redeem(db, i, device, session, token, now);
      && (r.Committed? <==>
            && i < |db.recoveries| && db.recoveries[i].usedAt.None? && db.recoveries[i].revokedAt.None?
            && now < db.recoveries[i].expiresAt && ConfiguredAdmin(db, db.recoveries[i].user))
      && (!r.Committed? ==> r == Refused("invalid_access_credential"))
      && (r.Committed? ==>
            && SignedIn(db, r.db, db.recoveries[i].user, device, session, token, true, now)
            && OnlySignsIn(db, r.db.(recoveries := db.recoveries))
            && r.db.recoveries == db.recoveries[i := db.recoveries[i].(usedAt := Some(now))])
  {}

  /** A passkey signs the configured, active administrator in exactly while it is unrevoked and there is no lock. */
  lemma PasskeyRule(db: Database, passkey: Id, device: Id, session: Id, token: Id, now: int)
    requires passkey in db.passkeys ==> FreshIds(db, db.passkeys[passkey].user, device, session, token)
    ensures var r := PasskeyLogin(db, passkey, device, session, token, now);
      && (r.Committed? <==>
            && passkey in db.passkeys && db.passkeys[passkey].revokedAt.None?
            && ConfiguredAdmin(db, db.passkeys[passkey].user) && db.site.lockedAt.None?)
      && (!r.Committed? ==> r == Refused("invalid_access_credential"))
      && (r.Committed? ==>
            && SignedIn(db, r.db, db.passkeys[passkey].user, device, session, token, false, now)
            && OnlySignsIn(db, r.db))
  {}

  lemma ReaderSession(db: Database, user: Id, device: Id, session: Id, token: Id, now: int)
    requires FreshIds(db, user, device, session, token)
    requires ReaderLogin(db, user, device, session, token, now).Committed?
    ensures var r := ReaderLogin(db, user, device, session, token, now).db;
      SignedIn(db, r, user, device, session, token, false, now)
  {}

  /** A reader signs in exactly as an active member of an installation that is set up. */
  lemma ReaderRule(db: Database, user: Id, device: Id, session: Id, token: Id, now: int)
    requires FreshIds(db, user, device, session, token)
    ensures var r := ReaderLogin(db, user, device, session, token, now);
      && (r.Committed? <==>
            && user in db.users && db.users[user].role == Member && db.users[user].status == Active
            && db.site.owner.Some? && db.site.migratedAt.Some?)
      && (!r.Committed? ==> r == Refused("invalid_access_credential"))
      && (r.Committed? ==> SignedIn(db, r.db, user, device, session, token, false, now) && OnlySignsIn(db, r.db))
  {
    if ReaderLogin(db, user, device, session, token, now).Committed? {
      ReaderSession(db, user, device, session, token, now);
    }
  }

  /** A recovery is completed exactly from a live recovery session of the configured, active administrator. */
  lemma CompletionRule(db: Database, previous: Id, passkey: Id, session: Id, token: Id, now: int)
    requires session !in db.sessions && token !in db.tokens && passkey !in db.passkeys
    ensures var r := CompleteRecovery(db, previous, passkey, session, token, now);
      && (r.Committed? <==>
            && previous in db.sessions && db.sessions[previous].revokedAt.None? && db.sessions[previous].recoveryMode
            && ConfiguredAdmin(db, db.sessions[previous].user))
      && !r.Crashed?
      && (r.Committed? ==>
            var s := db.sessions[previous];
            && r.db.sessions[session] == Session(s.user, s.device, false, None)
            && r.db.tokens[token] == RefreshToken(session, None)
            && r.db.passkeys == db.passkeys[passkey := Passkey(s.user, None)]
            && r.db.site == db.site.(lockedAt := None, updatedAt := now))
  {}

  // ------------------------------------------------------------ how long a credential is good for

  /** Whatever happens later, a credential is its user's, with the purpose and the times it was issued with. */
  predicate SameCredential(a: Recovery, b: Recovery) {
    a.user == b.user && a.purpose == b.purpose && a.createdAt == b.createdAt && a.expiresAt == b.expiresAt
  }

  ghost predicate KeepsCredentials(db: Database, r: Database) {
    |db.recoveries| <= |r.recoveries|
    && forall i :: 0 <= i < |db.recoveries| ==> SameCredential(db.recoveries[i], r.recoveries[i])
  }

  lemma StepKeepsCredentials(db: Database, a: Attempt, ttl: nat)
    requires Possible(db, a)
    ensures KeepsCredentials(db, Next(db, a, ttl))
  {
    if !Issues(a.event) && !a.event.DoRedeem? {
      OthersIssueNothing(db, a, ttl);
    }
  }

  lemma {:induction false} RunKeepsCredentials(db: Database, run: seq<Attempt>, ttl: nat)
    requires Valid(db, run, ttl)
    ensures KeepsCredentials(db, After(db, run, ttl))
    decreases |run|
  {
    if run != [] {
      StepKeepsCredentials(db, run[0], ttl);
      RunKeepsCredentials(Next(db, run[0], ttl), run[1..], ttl);
    }
  }

  function PurposeOf(e: Event): Purpose {
    match e
    case DoInitialize => Initialization
    case DoReset => CredentialReset
    case _ => Recovering
  }

  lemma InitialCredential(db: Database, now: int, ttl: nat)
    requires Initialize(db, now, ttl).Committed?
    ensures var r := Initialize(db, now, ttl).db; var n := |db.recoveries|;
      && r.site.owner.Some? && |r.recoveries| == n + 1
      && r.recoveries[n] == Recovery(r.site.owner.value, Initialization, now, now + ttl, None, None)
      && (forall i :: 0 <= i < n ==>
            r.recoveries[i] == (if WasOpenFor(db.recoveries[i], r.site.owner.value)
                                then db.recoveries[i].(revokedAt := Some(now)) else db.recoveries[i]))
  {}

  /** Issuing revokes what was open for the owner and adds one credential that lasts from now on for the given time. */
  lemma IssuedCredential(db: Database, a: Attempt, ttl: nat)
    requires Possible(db, a) && Issues(a.event) && Outcome(db, a, ttl).Committed?
    ensures var r := Next(db, a, ttl); var n := |db.recoveries|;
      && r.site.owner.Some? && |r.recoveries| == n + 1
      && r.recoveries[n] == Recovery(r.site.owner.value, PurposeOf(a.event), a.now, a.now + ttl, None, None)
      && (forall i :: 0 <= i < n ==>
            r.recoveries[i] == (if WasOpenFor(db.recoveries[i], r.site.owner.value)
                                then db.recoveries[i].(revokedAt := Some(a.now)) else db.recoveries[i]))
  {
    if a.event.DoInitialize? { InitialCredential(db, a.now, ttl); }
  }

  predicate WasOpenFor(c: Recovery, user: Id) { c.user == user && c.usedAt.None? && c.revokedAt.None? }

  /** Over every later run it signs nobody in from the moment its time is over, used or not. */
  lemma CredentialExpires(db: Database, a: Attempt, ttl: nat, run: seq<Attempt>,
                          device: Id, session: Id, token: Id, later: int)
    requires Possible(db, a) && Issues(a.event) && Outcome(db, a, ttl).Committed?
    requires Valid(Next(db, a, ttl), run, ttl) && later >= a.now + ttl
    requires var r := After(Next(db, a, ttl), run, ttl);
      |db.recoveries| < |r.recoveries| ==> FreshIds(r, r.recoveries[|db.recoveries|].user, device, session, token)
    ensures var r := After(Next(db, a, ttl), run, ttl);
      !Redeem(r, |db.recoveries|, device, session, token, later).Committed?
  {
    IssuedCredential(db, a, ttl);
    RunKeepsCredentials(Next(db, a, ttl), run, ttl);
  }
}
