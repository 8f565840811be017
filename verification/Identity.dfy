/**
  The identity tables and the transactions that change them: initialization, conversion of an old
  installation, recovery credentials, emergency lock, and the logins that interact with them. Each
  transaction is a function from the committed state before it to the one after it.
*/
module Identity {
  import opened Prelude

  type Id = nat

  datatype Role = Admin | Member

  datatype UserStatus = PendingSetup | Active | Disabled

  datatype User = User(
    role: Role, status: UserStatus, hasPassword: bool, passwordChangedAt: Option<int>, updatedAt: int)

  datatype Site = Site(owner: Option<Id>, lockedAt: Option<int>, migratedAt: Option<int>, updatedAt: int)

  /** The four owned tables, each from row to owner. */
  datatype Content = Content(books: map<Id, Id>, series: map<Id, Id>, files: map<Id, Id>, imports: map<Id, Id>)

  datatype Device = Device(user: Id, revokedAt: Option<int>, updatedAt: int)

  datatype Session = Session(user: Id, device: Id, recoveryMode: bool, revokedAt: Option<int>)

  datatype RefreshToken = RefreshToken(session: Id, revokedAt: Option<int>)

  datatype Passkey = Passkey(user: Id, revokedAt: Option<int>)

  datatype Purpose = Initialization | Recovering | CredentialReset

  datatype Recovery = Recovery(
    user: Id, purpose: Purpose, createdAt: int, expiresAt: int, usedAt: Option<int>, revokedAt: Option<int>)

  datatype Database = Database(
    users: map<Id, User>, site: Site, content: Content,
    devices: map<Id, Device>, sessions: map<Id, Session>, tokens: map<Id, RefreshToken>, passkeys: map<Id, Passkey>,
    recoveries: seq<Recovery>,       // in the order they were issued
    audit: seq<string>)

  /** A committed transaction, a refusal the caller is told about, or an internal error. */
  datatype Result = Committed(db: Database) | Refused(code: string) | Crashed

  // ------------------------------------------------------------ shared pieces

  predicate IsActiveAdmin(u: User) { u.role == Admin && u.status == Active }

  function Pending(db: Database): set<Id> { set u | u in db.users && db.users[u].status == PendingSetup }

  function ActiveAdmins(db: Database): set<Id> { set u | u in db.users && IsActiveAdmin(db.users[u]) }

  function Admins(db: Database): set<Id> { set u | u in db.users && db.users[u].role == Admin }

  predicate Open(r: Recovery) { r.usedAt.None? && r.revokedAt.None? }

  function Stamp(at: Option<int>, now: int): Option<int> { if at.None? then Some(now) else at }

  /** `_issue_recovery`: whatever is still open for the user is revoked, then one is added. */
  function IssueRecovery(db: Database, user: Id, purpose: Purpose, now: int, ttl: nat): Database {
    db.(recoveries :=
      seq(|db.recoveries|, i requires 0 <= i < |db.recoveries| =>
        var r := db.recoveries[i];
        if r.user == user && Open(r) then r.(revokedAt := Some(now)) else r)
      + [Recovery(user, purpose, now, now + ttl, None, None)])
  }

  /** Revokes the unrevoked sessions in the set, and the unrevoked tokens of any session in it. */
  function RevokeSessions(db: Database, ids: set<Id>, now: int): Database {
    db.(
      tokens := map t | t in db.tokens ::
        if db.tokens[t].session in ids then db.tokens[t].(revokedAt := Stamp(db.tokens[t].revokedAt, now))
        else db.tokens[t],
      sessions := map s | s in db.sessions ::
        if s in ids then db.sessions[s].(revokedAt := Stamp(db.sessions[s].revokedAt, now)) else db.sessions[s])
  }

  function SessionsOf(db: Database, user: Id): set<Id> { set s | s in db.sessions && db.sessions[s].user == user }

  function SessionsOn(db: Database, device: Id): set<Id> { set s | s in db.sessions && db.sessions[s].device == device }

  function Live(db: Database, ids: set<Id>): set<Id> {
    set s | s in ids && s in db.sessions && db.sessions[s].revokedAt.None?
  }

  function Audited(db: Database, event: string): Database { db.(audit := db.audit + [event]) }

  datatype AdminLookup = Found(admin: Id) | NotInitialized | Broken

  /** `_site_admin`. */
  function SiteAdmin(db: Database): AdminLookup {
    if db.site.owner.None? then NotInitialized
    else if db.site.owner.value !in db.users || db.users[db.site.owner.value].role != Admin then Broken
    else Found(db.site.owner.value)
  }

  // ------------------------------------------------------------ administration

  function Initialize(db: Database, now: int, ttl: nat): Result {
    var pending := Pending(db);
    if pending == {} then Refused("admin_already_initialized")
    else if exists a, b :: a in pending && b in pending && a != b then Crashed
    else if ActiveAdmins(db) != {} then Refused("admin_already_initialized")
    else
      var u := TheOnly(pending);
      var user := db.users[u].(role := Admin, status := Active, hasPassword := false,
                               passwordChangedAt := Some(now), updatedAt := now);
      var site := db.site.(owner := Some(u), migratedAt := Some(now), updatedAt := now);
      var configured := db.(users := db.users[u := user], site := site);
      Committed(Audited(IssueRecovery(configured, u, Initialization, now, ttl), "admin_initialized"))
  }

  function TheOnly(ids: set<Id>): (u: Id)
    requires ids != {} && forall a, b :: a in ids && b in ids ==> a == b
    ensures ids == {u}
  {
    var u :| u in ids;
    u
  }

  /** What the commands that need the administrator do when there is none. */
  function NoAdmin(found: AdminLookup): Result {
    if found.NotInitialized? then Refused("admin_not_initialized") else Crashed
  }

  function CreateRecovery(db: Database, now: int, ttl: nat): Result {
    match SiteAdmin(db)
    case Found(admin) => Committed(Audited(IssueRecovery(db, admin, Recovering, now, ttl), "admin_recovery_created"))
    case other => NoAdmin(other)
  }

  function ResetCredentials(db: Database, now: int, ttl: nat): Result {
    match SiteAdmin(db)
    case Found(admin) =>
      var noKeys := db.(passkeys := map k | k in db.passkeys ::
        if db.passkeys[k].user == admin then db.passkeys[k].(revokedAt := Stamp(db.passkeys[k].revokedAt, now))
        else db.passkeys[k]);
      var out := RevokeSessions(noKeys, SessionsOf(db, admin), now);
      Committed(Audited(IssueRecovery(out, admin, CredentialReset, now, ttl), "admin_credentials_reset"))
    case other => NoAdmin(other)
  }

  function RevokeAllSessions(db: Database, now: int): Result {
    match SiteAdmin(db)
    case Found(admin) =>
      Committed(Audited(RevokeSessions(db, SessionsOf(db, admin), now), "admin_sessions_revoked_all"))
    case other => NoAdmin(other)
  }

  function LockAdmin(db: Database, now: int): Result {
    match SiteAdmin(db)
    case Found(admin) =>
      var locked := if db.site.lockedAt.Some? then db
                    else db.(site := db.site.(lockedAt := Some(now), updatedAt := now));
      Committed(Audited(RevokeSessions(locked, SessionsOf(db, admin), now), "admin_locked"))
    case other => NoAdmin(other)
  }

  function UnlockAdmin(db: Database, now: int): Result {
    match SiteAdmin(db)
    case Found(_) => Committed(Audited(db.(site := db.site.(lockedAt := None, updatedAt := now)), "admin_unlocked"))
    case other => NoAdmin(other)
  }

  // ------------------------------------------------------------ conversion

  function Owners(c: Content): set<Id> { c.books.Values + c.series.Values + c.files.Values + c.imports.Values }

  predicate RequiresTarget(db: Database) {
    |Admins(db)| != 1 || |Owners(db.content)| > 1
  }

  function OwnedBy(table: map<Id, Id>, owner: Id): map<Id, Id> { map r | r in table :: owner }

  function GivenTo(c: Content, o: Id): Content {
    Content(OwnedBy(c.books, o), OwnedBy(c.series, o), OwnedBy(c.files, o), OwnedBy(c.imports, o))
  }

  function Promoted(users: map<Id, User>, target: Id, others: set<Id>, now: int): map<Id, User> {
    map u | u in users ::
      var user := users[u].(hasPassword := false, passwordChangedAt := Some(now), updatedAt := now);
      if u in others then user.(role := Member)
      else if u == target then user.(role := Admin, status := Active) else user
  }

  function TokensRevoked(tokens: map<Id, RefreshToken>, now: int): map<Id, RefreshToken> {
    map t | t in tokens :: tokens[t].(revokedAt := Stamp(tokens[t].revokedAt, now))
  }

  function SessionsRevoked(sessions: map<Id, Session>, now: int): map<Id, Session> {
    map s | s in sessions :: sessions[s].(revokedAt := Stamp(sessions[s].revokedAt, now))
  }

  function DevicesRevoked(devices: map<Id, Device>, now: int): map<Id, Device> {
    map d | d in devices ::
      if devices[d].revokedAt.None? then devices[d].(revokedAt := Some(now), updatedAt := now) else devices[d]
  }

  /** The bulk updates of `convert`, once the target is settled. */
  function ConvertTo(db: Database, target: Id, now: int): Database
    requires target in db.users
  {
    Audited(db.(
      content := GivenTo(db.content, target),
      users := Promoted(db.users, target, Admins(db) - {target}, now),
      tokens := TokensRevoked(db.tokens, now),
      sessions := SessionsRevoked(db.sessions, now),
      devices := DevicesRevoked(db.devices, now),
      site := db.site.(owner := Some(target), migratedAt := Some(now), updatedAt := now)),
      "auth_migration_completed")
  }

  function Convert(db: Database, target: Option<Id>, mapping: set<Id>, now: int): Result {
    var admins := Admins(db);
    if target.None? && RequiresTarget(db) then Refused("target_admin_required")
    else
      var chosen := if target.Some? then target.value else SoleMember(admins);
      if chosen !in admins then Refused("invalid_target_admin")
      else if mapping != admins - {chosen} then Refused("admin_mapping_required")
      else Committed(ConvertTo(db, chosen, now))
  }

  /** `next(iter(admins))` of a set with one member. */
  function SoleMember(ids: set<Id>): (u: Id)
    requires |ids| == 1
    ensures ids == {u}
  {
    OneMember(ids);
    TheOnly(ids)
  }

  lemma OneMember(ids: set<Id>)
    requires |ids| == 1
    ensures ids != {} && forall a, b :: a in ids && b in ids ==> a == b
  {
    var x :| x in ids;
    assert |ids - {x}| == 0;
    assert ids == {x};
  }

  // ------------------------------------------------------------ logins

  /** A login gets new session and token ids, and either the user's own valid device or a new one. */
  predicate FreshIds(db: Database, user: Id, device: Id, session: Id, token: Id) {
    && session !in db.sessions && token !in db.tokens
    && (device in db.devices ==> db.devices[device].user == user && db.devices[device].revokedAt.None?)
  }

  function NewSession(db: Database, user: Id, device: Id, recoveryMode: bool, session: Id, token: Id, now: int)
    : Database
  {
    var d := db.(devices := db.devices[device := Device(user, None, now)]);
    d.(sessions := d.sessions[session := Session(user, device, recoveryMode, None)],
       tokens := d.tokens[token := RefreshToken(session, None)])
  }

  /** Logging in with recovery credential i. */
  function Redeem(db: Database, i: nat, device: Id, session: Id, token: Id, now: int): Result
    requires i < |db.recoveries| ==> FreshIds(db, db.recoveries[i].user, device, session, token)
  {
    if i >= |db.recoveries| then Refused("invalid_access_credential")
    else
      var r := db.recoveries[i];
      if !Open(r) || r.expiresAt <= now then Refused("invalid_access_credential")
      else if r.user !in db.users || !IsActiveAdmin(db.users[r.user]) || db.site.owner != Some(r.user) then
        Refused("invalid_access_credential")
      else
        var used := db.(recoveries := db.recoveries[i := r.(usedAt := Some(now))]);
        var out := RevokeSessions(used, SessionsOn(db, device), now);
        Committed(Audited(NewSession(out, r.user, device, true, session, token, now), "admin_recovery_used"))
  }

  function PasskeyLogin(db: Database, passkey: Id, device: Id, session: Id, token: Id, now: int): Result
    requires passkey in db.passkeys ==> FreshIds(db, db.passkeys[passkey].user, device, session, token)
  {
    if passkey !in db.passkeys || db.passkeys[passkey].revokedAt.Some? then Refused("invalid_access_credential")
    else
      var user := db.passkeys[passkey].user;
      if user !in db.users || db.site.owner != Some(user) || db.site.lockedAt.Some?
         || !IsActiveAdmin(db.users[user]) then
        Refused("invalid_access_credential")
      else
        var out := RevokeSessions(db, SessionsOn(db, device), now);
        Committed(Audited(NewSession(out, user, device, false, session, token, now), "passkey_login_succeeded"))
  }

  /** Registering a passkey inside a recovery session: every other session goes, the lock is lifted. */
  function CompleteRecovery(db: Database, previous: Id, passkey: Id, session: Id, token: Id, now: int): Result
    requires session !in db.sessions && token !in db.tokens && passkey !in db.passkeys
  {
    if previous !in db.sessions || db.sessions[previous].revokedAt.Some? || !db.sessions[previous].recoveryMode then
      Refused("recovery_session_required")
    else
      var s := db.sessions[previous];
      if s.user !in db.users || !IsActiveAdmin(db.users[s.user]) || db.site.owner != Some(s.user)
      then Refused("session_revoked")
      else
        var out := RevokeSessions(db, SessionsOf(db, s.user), now);
        var open := out.(site := db.site.(lockedAt := None, updatedAt := now),
                         passkeys := db.passkeys[passkey := Passkey(s.user, None)]);
        Committed(Audited(open.(sessions := open.sessions[session := Session(s.user, s.device, false, None)],
                                tokens := open.tokens[token := RefreshToken(session, None)]),
                          "admin_recovery_completed"))
  }

  function CreateReader(db: Database, id: Id, now: int): Result
    requires id !in db.users
  {
    Committed(Audited(db.(users := db.users[id := User(Member, Active, false, None, now)]), "reader_created"))
  }

  function ReaderLogin(db: Database, user: Id, device: Id, session: Id, token: Id, now: int): Result
    requires FreshIds(db, user, device, session, token)
  {
    if user !in db.users || db.users[user].role != Member || db.users[user].status != Active
       || db.site.owner.None? || db.site.migratedAt.None? then Refused("invalid_access_credential")
    else
      var out := RevokeSessions(db, SessionsOn(db, device), now);
      Committed(Audited(NewSession(out, user, device, false, session, token, now), "login_succeeded"))
  }

  /** New content always belongs to the library owner. */
  function AddContent(db: Database, books: set<Id>, series: set<Id>, files: set<Id>, imports: set<Id>): Result {
    if db.site.owner.None? then Refused("admin_not_initialized")
    else
      var o := db.site.owner.value;
      var c := db.content;
      Committed(db.(content := Content(
        c.books + (map r | r in books - c.books.Keys :: o), c.series + (map r | r in series - c.series.Keys :: o),
        c.files + (map r | r in files - c.files.Keys :: o), c.imports + (map r | r in imports - c.imports.Keys :: o))))
  }
}
