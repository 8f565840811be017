/** What every run of transactions does to accounts, passwords, content, time stamps and the audit. */
module AccountRules {
  import opened Prelude
  import opened Identity
  import opened IdentityRuns
  import opened Migration

  // ------------------------------------------------------------ one transaction

  /** The audit entries of a committed transaction. */
  function Entry(e: Event): seq<string> {
    match e
    case DoInitialize => ["admin_initialized"]
    case DoConvert(_, _) => ["auth_migration_completed"]
    case DoCreateRecovery => ["admin_recovery_created"]
    case DoReset => ["admin_credentials_reset"]
    case DoRevokeAll => ["admin_sessions_revoked_all"]
    case DoLock => ["admin_locked"]
    case DoUnlock => ["admin_unlocked"]
    case DoRedeem(_, _, _, _) => ["admin_recovery_used"]
    case DoPasskeyLogin(_, _, _, _) => ["passkey_login_succeeded"]
    case DoCompleteRecovery(_, _, _, _) => ["admin_recovery_completed"]
    case DoCreateReader(_) => ["reader_created"]
    case DoReaderLogin(_, _, _, _) => ["login_succeeded"]
    case DoAddContent(_, _, _, _) => []
  }

  /** Every account, device and setting that differs afterwards carries the time of the change. */
  ghost predicate Stamped(db: Database, r: Database, now: int) {
    && (r.site != db.site ==> r.site.updatedAt == now)
    && (forall u :: u in r.users && (u !in db.users || r.users[u] != db.users[u]) ==> r.users[u].updatedAt == now)
    && (forall d :: d in r.devices && (d !in db.devices || r.devices[d] != db.devices[d]) ==>
          r.devices[d].updatedAt == now)
  }

  predicate ChangesAccounts(e: Event) { e.DoInitialize? || e.DoConvert? || e.DoCreateReader? }

  /** A committed transaction that leaves accounts, content and setup alone, stamps what it changes, and is audited. */
  ghost predicate OnlyRecorded(db: Database, r: Result, now: int, entry: string) {
    r.Committed? ==>
      && r.db.users == db.users && r.db.content == db.content
      && r.db.site.owner == db.site.owner && r.db.site.migratedAt == db.site.migratedAt
      && Stamped(db, r.db, now)
      && r.db.audit == db.audit + [entry]
  }

  lemma RecoveryCommandsRecord(db: Database, now: int, ttl: nat)
    ensures OnlyRecorded(db, CreateRecovery(db, now, ttl), now, "admin_recovery_created")
    ensures OnlyRecorded(db, UnlockAdmin(db, now), now, "admin_unlocked")
  {}

  lemma ResetRecords(db: Database, now: int, ttl: nat)
    ensures OnlyRecorded(db, ResetCredentials(db, now, ttl), now, "admin_credentials_reset")
  {}

  lemma RevokingRecords(db: Database, now: int)
    ensures OnlyRecorded(db, RevokeAllSessions(db, now), now, "admin_sessions_revoked_all")
    ensures OnlyRecorded(db, LockAdmin(db, now), now, "admin_locked")
  {}

  lemma RedeemRecords(db: Database, i: nat, device: Id, session: Id, token: Id, now: int)
    requires i < |db.recoveries| ==> FreshIds(db, db.recoveries[i].user, device, session, token)
    ensures OnlyRecorded(db, Redeem(db, i, device, session, token, now), now, "admin_recovery_used")
  {}

  lemma PasskeyRecords(db: Database, passkey: Id, device: Id, session: Id, token: Id, now: int)
    requires passkey in db.passkeys ==> FreshIds(db, db.passkeys[passkey].user, device, session, token)
    ensures OnlyRecorded(db, PasskeyLogin(db, passkey, device, session, token, now), now, "passkey_login_succeeded")
  {}

  lemma CompletionRecords(db: Database, previous: Id, passkey: Id, session: Id, token: Id, now: int)
    requires session !in db.sessions && token !in db.tokens && passkey !in db.passkeys
    ensures OnlyRecorded(
      db, CompleteRecovery(db, previous, passkey, session, token, now), now, "admin_recovery_completed")
  {}

  lemma ReaderRecords(db: Database, user: Id, device: Id, session: Id, token: Id, now: int)
    requires FreshIds(db, user, device, session, token)
    ensures OnlyRecorded(db, ReaderLogin(db, user, device, session, token, now), now, "login_succeeded")
  {}

  lemma OthersRecord(db: Database, a: Attempt, ttl: nat)
    requires Possible(db, a) && !ChangesAccounts(a.event) && !a.event.DoAddContent?
    ensures |Entry(a.event)| == 1 && OnlyRecorded(db, Outcome(db, a, ttl), a.now, Entry(a.event)[0])
  {
    match a.event
    case DoRedeem(i, device, session, token) => RedeemRecords(db, i, device, session, token, a.now);
    case DoPasskeyLogin(k, device, session, token) => PasskeyRecords(db, k, device, session, token, a.now);
    case DoCompleteRecovery(p, k, session, token) => CompletionRecords(db, p, k, session, token, a.now);
    case DoReaderLogin(user, device, session, token) => ReaderRecords(db, user, device, session, token, a.now);
    case _ =>
      RecoveryCommandsRecord(db, a.now, ttl);
      ResetRecords(db, a.now, ttl);
      RevokingRecords(db, a.now);
  }

  // ------------------------------------------------------------ accounts

  /** An installation with an owner is set up; an owner has no password. */
  ghost predicate SetUp(db: Database) {
    db.site.owner.Some? ==>
      && db.site.migratedAt.Some? && db.site.owner.value in db.users
      && !db.users[db.site.owner.value].hasPassword
  }

  predicate IsReader(db: Database, u: Id) {
    u in db.users && db.users[u].role == Member && db.users[u].status == Active
  }

  /** No account gets a password it did not have. */
  ghost predicate NoNewPassword(db: Database, r: Database) {
    forall u :: u in r.users && r.users[u].hasPassword ==> u in db.users && db.users[u].hasPassword
  }

  ghost predicate AccountsKept(db: Database, r: Database) {
    db.users.Keys <= r.users.Keys && (SetUp(db) ==> SetUp(r)) && NoNewPassword(db, r)
  }

  lemma InitializeKeepsAccounts(db: Database, now: int, ttl: nat, u: Id)
    requires Initialize(db, now, ttl).Committed?
    ensures var r := Initialize(db, now, ttl).db; AccountsKept(db, r) && (IsReader(db, u) ==> IsReader(r, u))
  {
    InitializesThePendingUser(db, now, ttl);
  }

  lemma ConvertKeepsAccounts(db: Database, target: Option<Id>, mapping: set<Id>, now: int, u: Id)
    requires Convert(db, target, mapping, now).Committed?
    ensures var r := Convert(db, target, mapping, now).db; AccountsKept(db, r) && (IsReader(db, u) ==> IsReader(r, u))
  {
    var o := ConversionGives(db, target, mapping, now);
    assert o in db.users;
  }

  lemma AccountStep(db: Database, a: Attempt, ttl: nat, u: Id)
    requires Possible(db, a)
    ensures AccountsKept(db, Next(db, a, ttl)) && (IsReader(db, u) ==> IsReader(Next(db, a, ttl), u))
  {
    match a.event
    case DoInitialize => if Initialize(db, a.now, ttl).Committed? { InitializeKeepsAccounts(db, a.now, ttl, u); }
    case DoConvert(t, m) => if Convert(db, t, m, a.now).Committed? { ConvertKeepsAccounts(db, t, m, a.now, u); }
    case DoCreateReader(_) =>
    case DoAddContent(_, _, _, _) =>
    case _ => OthersRecord(db, a, ttl);
  }

  /** Over every run passwords only ever disappear, and the owner has none. */
  lemma {:induction false} PasswordsOnlyDisappear(db: Database, run: seq<Attempt>, ttl: nat)
    requires Valid(db, run, ttl)
    ensures NoNewPassword(db, After(db, run, ttl))
    ensures SetUp(db) ==> SetUp(After(db, run, ttl))
    decreases |run|
  {
    if run != [] {
      AccountStep(db, run[0], ttl, 0);
      PasswordsOnlyDisappear(Next(db, run[0], ttl), run[1..], ttl);
    }
  }

  lemma {:induction false} ReadersStay(db: Database, run: seq<Attempt>, ttl: nat, u: Id)
    requires Valid(db, run, ttl) && IsReader(db, u)
    ensures IsReader(After(db, run, ttl), u)
    decreases |run|
  {
    if run != [] {
      AccountStep(db, run[0], ttl, u);
      ReadersStay(Next(db, run[0], ttl), run[1..], ttl, u);
    }
  }

  /**
    A reader created at any point of any run of an installation can sign in at every later point, whatever
    happens in between, if and only if the installation has an owner by then.
  */
  lemma CreatedReadersSignIn(db: Database, earlier: seq<Attempt>, id: Id, now: int, run: seq<Attempt>, ttl: nat,
                             device: Id, session: Id, token: Id, later: int)
    requires BeforeSetup(db) && Valid(db, earlier, ttl) && id !in After(db, earlier, ttl).users
    requires var made := Next(After(db, earlier, ttl), Attempt(DoCreateReader(id), now), ttl);
      Valid(made, run, ttl) && FreshIds(After(made, run, ttl), id, device, session, token)
    ensures var made := Next(After(db, earlier, ttl), Attempt(DoCreateReader(id), now), ttl);
      var r := After(made, run, ttl);
      ReaderLogin(r, id, device, session, token, later).Committed? <==> r.site.owner.Some?
  {
    var made := Next(After(db, earlier, ttl), Attempt(DoCreateReader(id), now), ttl);
    PasswordsOnlyDisappear(db, earlier, ttl);
    PasswordsOnlyDisappear(made, run, ttl);
    ReadersStay(made, run, ttl, id);
  }

  // ------------------------------------------------------------ commands

  predicate IsCommand(e: Event) {
    e == DoCreateRecovery || e == DoReset || e == DoRevokeAll || e == DoLock || e == DoUnlock
  }

  /** At any point of any run the administrative commands succeed exactly with an owner, and never fail internally. */
  lemma CommandsNeedOwner(db: Database, run: seq<Attempt>, ttl: nat, a: Attempt)
    requires BeforeSetup(db) && Valid(db, run, ttl) && IsCommand(a.event)
    ensures var r := After(db, run, ttl);
      if r.site.owner.Some? then Outcome(r, a, ttl).Committed?
      else Outcome(r, a, ttl) == Refused("admin_not_initialized")
  {
    RunKeepsInv(db, run, ttl);
  }

  /** Initialization succeeds exactly with one account pending setup and nobody an active administrator. */
  lemma InitializeAccepts(db: Database, now: int, ttl: nat)
    ensures var r := Initialize(db, now, ttl);
      && (r.Committed? <==>
            (exists u :: Pending(db) == {u}) && forall u :: u in db.users ==> !IsActiveAdmin(db.users[u]))
      && (r.Refused? ==> r.code == "admin_already_initialized")
      && (r.Crashed? <==> |Pending(db)| > 1)
  {
    var pending := Pending(db);
    assert (forall u :: u in db.users ==> !IsActiveAdmin(db.users[u])) <==> ActiveAdmins(db) == {} by {
      if ActiveAdmins(db) == {} {
        forall u | u in db.users ensures !IsActiveAdmin(db.users[u]) { assert u !in ActiveAdmins(db); }
      }
    }
    if pending != {} {
      var u :| u in pending;
      assert |pending - {u}| == |pending| - 1;
      if pending == {u} {
        assert |pending| == 1;
      } else {
        var v :| v in pending && v != u;
        assert v in pending - {u};
      }
    }
  }

  /** Which of the three refusals a conversion gives. */
  lemma ConversionRefusals(db: Database, target: Option<Id>, mapping: set<Id>, now: int)
    ensures var r := Convert(db, target, mapping, now);
      && (r == Refused("target_admin_required") <==>
            target.None? && (|Admins(db)| != 1 || |Owners(db.content)| > 1))
      && (r == Refused("invalid_target_admin") <==> target.Some? && target.value !in Admins(db))
      && (r.Refused? ==> r.code in {"target_admin_required", "invalid_target_admin", "admin_mapping_required"})
  {
    if target.None? && !RequiresTarget(db) {
      assert SoleMember(Admins(db)) in Admins(db);
    }
  }

  // ------------------------------------------------------------ content

  ghost predicate TableKept(a: map<Id, Id>, b: map<Id, Id>) { forall r :: r in a ==> r in b && b[r] == a[r] }

  ghost predicate ContentKept(a: Content, b: Content) {
    TableKept(a.books, b.books) && TableKept(a.series, b.series)
    && TableKept(a.files, b.files) && TableKept(a.imports, b.imports)
  }

  lemma AddingKeepsContent(db: Database, books: set<Id>, series: set<Id>, files: set<Id>, imports: set<Id>)
    requires AddContent(db, books, series, files, imports).Committed?
    ensures ContentKept(db.content, AddContent(db, books, series, files, imports).db.content)
  {}

  lemma InitializeLeavesContent(db: Database, now: int, ttl: nat)
    requires Initialize(db, now, ttl).Committed?
    ensures Initialize(db, now, ttl).db.content == db.content
  {}

  lemma ContentStep(db: Database, a: Attempt, ttl: nat)
    requires Possible(db, a) && !a.event.DoConvert?
    ensures ContentKept(db.content, Next(db, a, ttl).content)
  {
    match a.event
    case DoInitialize => if Initialize(db, a.now, ttl).Committed? { InitializeLeavesContent(db, a.now, ttl); }
    case DoCreateReader(_) =>
    case DoAddContent(b, r, f, i) => if AddContent(db, b, r, f, i).Committed? { AddingKeepsContent(db, b, r, f, i); }
    case _ => OthersRecord(db, a, ttl);
  }

  /** Only a conversion changes whose anything is, and nothing of anybody's is lost. */
  lemma {:induction false} OwnersChangeOnlyByConversion(db: Database, run: seq<Attempt>, ttl: nat)
    requires Valid(db, run, ttl) && forall a :: a in run ==> !a.event.DoConvert?
    ensures ContentKept(db.content, After(db, run, ttl).content)
    decreases |run|
  {
    if run != [] {
      ContentStep(db, run[0], ttl);
      OwnersChangeOnlyByConversion(Next(db, run[0], ttl), run[1..], ttl);
    }
  }

  // ------------------------------------------------------------ time stamps

  /** An account that lost its password says when. */
  ghost predicate PasswordTimed(db: Database, r: Database, now: int) {
    forall u :: u in db.users && u in r.users && db.users[u].hasPassword && !r.users[u].hasPassword ==>
      r.users[u].passwordChangedAt == Some(now)
  }

  lemma InitializeStamps(db: Database, now: int, ttl: nat)
    requires Initialize(db, now, ttl).Committed?
    ensures var r := Initialize(db, now, ttl).db;
      Stamped(db, r, now) && PasswordTimed(db, r, now) && r.audit == db.audit + ["admin_initialized"]
  {}

  lemma ConvertStamps(db: Database, target: Option<Id>, mapping: set<Id>, now: int)
    requires Convert(db, target, mapping, now).Committed?
    ensures var r := Convert(db, target, mapping, now).db;
      Stamped(db, r, now) && PasswordTimed(db, r, now) && r.audit == db.audit + ["auth_migration_completed"]
  {}

  lemma ChangedRowsAreStamped(db: Database, a: Attempt, ttl: nat)
    requires Possible(db, a)
    ensures Stamped(db, Next(db, a, ttl), a.now) && PasswordTimed(db, Next(db, a, ttl), a.now)
  {
    match a.event
    case DoInitialize => if Initialize(db, a.now, ttl).Committed? { InitializeStamps(db, a.now, ttl); }
    case DoConvert(t, m) => if Convert(db, t, m, a.now).Committed? { ConvertStamps(db, t, m, a.now); }
    case DoCreateReader(_) =>
    case DoAddContent(_, _, _, _) =>
    case _ => OthersRecord(db, a, ttl);
  }

  // ------------------------------------------------------------ audit

  ghost function Entries(db: Database, run: seq<Attempt>, ttl: nat): seq<string>
    requires Valid(db, run, ttl)
    decreases |run|
  {
    if run == [] then []
    else
      (if Outcome(db, run[0], ttl).Committed? then Entry(run[0].event) else [])
      + Entries(Next(db, run[0], ttl), run[1..], ttl)
  }

  lemma AuditStep(db: Database, a: Attempt, ttl: nat)
    requires Possible(db, a)
    ensures Next(db, a, ttl).audit == db.audit + if Outcome(db, a, ttl).Committed? then Entry(a.event) else []
  {
    match a.event
    case DoInitialize => if Initialize(db, a.now, ttl).Committed? { InitializeStamps(db, a.now, ttl); }
    case DoConvert(t, m) => if Convert(db, t, m, a.now).Committed? { ConvertStamps(db, t, m, a.now); }
    case DoCreateReader(_) =>
    case DoAddContent(_, _, _, _) =>
    case _ => OthersRecord(db, a, ttl);
  }

  /** Over every run the audit grows by exactly the entries of the transactions committed, in order. */
  lemma {:induction false} AuditRecordsCommits(db: Database, run: seq<Attempt>, ttl: nat)
    requires Valid(db, run, ttl)
    ensures After(db, run, ttl).audit == db.audit + Entries(db, run, ttl)
    decreases |run|
  {
    if run != [] {
      AuditStep(db, run[0], ttl);
      AuditRecordsCommits(Next(db, run[0], ttl), run[1..], ttl);
    }
  }

  // ------------------------------------------------------------ the report

  /** Active sessions and those revoked or expired are all there are, and likewise for refresh tokens. */
  lemma ReportSplitsSessions(db: Database, expired: set<Id>, spent: set<Id>)
    ensures |ActiveSessions(db, expired)|
      + |set s | s in db.sessions && (db.sessions[s].revokedAt.Some? || s in expired)| == |db.sessions.Keys|
    ensures |ActiveTokens(db, spent)|
      + |set t | t in db.tokens && (db.tokens[t].revokedAt.Some? || t in spent)| == |db.tokens.Keys|
  {
    SplitSize(db.sessions.Keys, ActiveSessions(db, expired));
    assert db.sessions.Keys * ActiveSessions(db, expired) == ActiveSessions(db, expired);
    assert db.sessions.Keys - ActiveSessions(db, expired)
      == set s | s in db.sessions && (db.sessions[s].revokedAt.Some? || s in expired);
    SplitSize(db.tokens.Keys, ActiveTokens(db, spent));
    assert db.tokens.Keys * ActiveTokens(db, spent) == ActiveTokens(db, spent);
    assert db.tokens.Keys - ActiveTokens(db, spent)
      == set t | t in db.tokens && (db.tokens[t].revokedAt.Some? || t in spent);
  }
}
