/** Over every run a device carries at most one live session, and it is its own user's. */
module DeviceSessions {
  import opened Identity
  import opened IdentityRuns

  /** Every session is on a known device of its user. */
  ghost predicate OnOwnDevice(devices: map<Id, Device>, sessions: map<Id, Session>) {
    forall s :: s in sessions ==> sessions[s].device in devices && devices[sessions[s].device].user == sessions[s].user
  }

  predicate BothLive(a: Session, b: Session) { a.revokedAt.None? && b.revokedAt.None? && a.device == b.device }

  ghost predicate OnePerDevice(sessions: map<Id, Session>) {
    forall s, t :: s in sessions && t in sessions && BothLive(sessions[s], sessions[t]) ==> s == t
  }

  ghost predicate Separate(db: Database) {
    OnOwnDevice(db.devices, db.sessions) && OnePerDevice(db.sessions)
  }

  lemma RevokingKeepsSeparate(db: Database, ids: set<Id>, now: int)
    requires Separate(db)
    ensures Separate(RevokeSessions(db, ids, now))
  {}

  lemma SigningInKeepsSeparate(db: Database, user: Id, device: Id, recoveryMode: bool, session: Id, token: Id, now: int)
    requires Separate(db) && FreshIds(db, user, device, session, token)
    ensures var out := RevokeSessions(db, SessionsOn(db, device), now);
      Separate(NewSession(out, user, device, recoveryMode, session, token, now))
  {
    var out := RevokeSessions(db, SessionsOn(db, device), now);
    assert forall s :: s in out.sessions && out.sessions[s].device == device ==> out.sessions[s].revokedAt.Some?;
  }

  lemma CompletingKeepsSeparate(db: Database, previous: Id, passkey: Id, session: Id, token: Id, now: int)
    requires Separate(db) && session !in db.sessions && token !in db.tokens && passkey !in db.passkeys
    requires CompleteRecovery(db, previous, passkey, session, token, now).Committed?
    ensures Separate(CompleteRecovery(db, previous, passkey, session, token, now).db)
  {
    var user := db.sessions[previous].user;
    var out := RevokeSessions(db, SessionsOf(db, user), now);
    var device := db.sessions[previous].device;
    assert forall s :: s in out.sessions && out.sessions[s].device == device ==> out.sessions[s].revokedAt.Some?;
  }

  lemma LoginKeepsSeparate(db: Database, a: Attempt, ttl: nat)
    requires Separate(db) && Possible(db, a)
    requires a.event.DoRedeem? || a.event.DoPasskeyLogin? || a.event.DoReaderLogin?
    ensures Separate(Next(db, a, ttl))
  {
    match a.event
    case DoRedeem(i, device, session, token) =>
      if i < |db.recoveries| { SigningInKeepsSeparate(db, db.recoveries[i].user, device, true, session, token, a.now); }
    case DoPasskeyLogin(k, device, session, token) =>
      if k in db.passkeys { SigningInKeepsSeparate(db, db.passkeys[k].user, device, false, session, token, a.now); }
    case DoReaderLogin(user, device, session, token) =>
      SigningInKeepsSeparate(db, user, device, false, session, token, a.now);
  }

  lemma CommandKeepsSeparate(db: Database, a: Attempt, ttl: nat)
    requires Separate(db) && a.event in {DoCreateRecovery, DoReset, DoRevokeAll, DoLock, DoUnlock}
    ensures Separate(Next(db, a, ttl))
  {
    if SiteAdmin(db).Found? {
      RevokingKeepsSeparate(db, SessionsOf(db, SiteAdmin(db).admin), a.now);
    }
  }

  lemma StepKeepsSeparate(db: Database, a: Attempt, ttl: nat)
    requires Separate(db) && Possible(db, a)
    ensures Separate(Next(db, a, ttl))
  {
    match a.event
    case DoRedeem(_, _, _, _) => LoginKeepsSeparate(db, a, ttl);
    case DoPasskeyLogin(_, _, _, _) => LoginKeepsSeparate(db, a, ttl);
    case DoReaderLogin(_, _, _, _) => LoginKeepsSeparate(db, a, ttl);
    case DoCompleteRecovery(previous, k, session, token) =>
      if CompleteRecovery(db, previous, k, session, token, a.now).Committed? {
        CompletingKeepsSeparate(db, previous, k, session, token, a.now);
      }
    case DoConvert(_, _) =>
    case DoInitialize =>
    case DoCreateReader(_) =>
    case DoAddContent(_, _, _, _) =>
    case _ => CommandKeepsSeparate(db, a, ttl);
  }

  lemma {:induction false} RunKeepsSeparate(db: Database, run: seq<Attempt>, ttl: nat)
    requires Separate(db) && Valid(db, run, ttl)
    ensures Separate(After(db, run, ttl))
    decreases |run|
  {
    if run != [] {
      StepKeepsSeparate(db, run[0], ttl);
      RunKeepsSeparate(Next(db, run[0], ttl), run[1..], ttl);
    }
  }

  /** However often and by whatever means users sign in, no device has two live sessions. */
  lemma OneLiveSessionPerDevice(db: Database, run: seq<Attempt>, ttl: nat, device: Id)
    requires Separate(db) && Valid(db, run, ttl)
    ensures var r := After(db, run, ttl); var live := Live(r, SessionsOn(r, device));
      && |live| <= 1
      && (forall s :: s in live ==> device in r.devices && r.sessions[s].user == r.devices[device].user)
  {
    RunKeepsSeparate(db, run, ttl);
    var r := After(db, run, ttl);
    var live := Live(r, SessionsOn(r, device));
    if s :| s in live {
      assert live == {s};
    }
  }
}
