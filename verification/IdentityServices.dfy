/** The administration and migration services as they assign fields of rows in one database session. */
module IdentityServices {
  import opened Prelude
  import opened Identity
  import opened Migration

  /** What a command hands back: a value, an error the caller is told about, or an internal error. */
  datatype Reply<T> = Returned(value: T) | Raised(code: string) | InternalError

  datatype Issued = Issued(expiresAt: int, purpose: Purpose)

  /** A committed specification result is the new state; anything else leaves the tables alone. */
  ghost predicate Carries<T>(spec: Result, before: Database, after: Database, reply: Reply<T>) {
    match spec
    case Committed(db) => after == db && reply.Returned?
    case Refused(code) => after == before && reply == Raised(code)
    case Crashed => after == before && reply == InternalError
  }

  function RevokedIfOpen(r: Recovery, user: Id, now: int): Recovery {
    if r.user == user && Open(r) then r.(revokedAt := Some(now)) else r
  }

  class Tables {
    var users: map<Id, User>
    var site: Site
    var content: Content
    var devices: map<Id, Device>
    var sessions: map<Id, Session>
    var tokens: map<Id, RefreshToken>
    var passkeys: map<Id, Passkey>
    var recoveries: seq<Recovery>
    var audit: seq<string>

    function View(): Database
      reads this
    {
      Database(users, site, content, devices, sessions, tokens, passkeys, recoveries, audit)
    }

    constructor (db: Database)
      ensures View() == db
    {
      users, site, content, devices := db.users, db.site, db.content, db.devices;
      sessions, tokens, passkeys, recoveries, audit := db.sessions, db.tokens, db.passkeys, db.recoveries, db.audit;
    }

    method Audit(event: string)
      modifies `audit
      ensures audit == old(audit) + [event]
    {
      audit := audit + [event];
    }

    /** `revoke_user_sessions`: the count is taken first, then tokens and sessions are updated. */
    method RevokeUserSessions(user: Id, now: int) returns (count: nat)
      modifies `tokens, `sessions
      ensures View() == RevokeSessions(old(View()), SessionsOf(old(View()), user), now)
      ensures count == |Live(old(View()), SessionsOf(old(View()), user))|
    {
      var ids := set s | s in sessions && sessions[s].user == user;
      var live := set s | s in ids && s in sessions && sessions[s].revokedAt.None?;
      assert live == Live(View(), SessionsOf(View(), user));
      count := |live|;
      tokens := map t | t in tokens ::
        if tokens[t].session in ids && tokens[t].revokedAt.None? then tokens[t].(revokedAt := Some(now)) else tokens[t];
      sessions := map s | s in sessions ::
        if sessions[s].user == user && sessions[s].revokedAt.None? then sessions[s].(revokedAt := Some(now))
        else sessions[s];
    }

    method RevokeOpenRecoveries(user: Id, now: int)
      modifies `recoveries
      ensures |recoveries| == |old(recoveries)|
      ensures forall i :: 0 <= i < |recoveries| ==> recoveries[i] == RevokedIfOpen(old(recoveries)[i], user, now)
    {
      var rows := recoveries;
      recoveries := seq(|rows|, i requires 0 <= i < |rows| =>
        var r := rows[i];
        if r.user == user && r.usedAt.None? && r.revokedAt.None? then r.(revokedAt := Some(now)) else r);
    }
  }

  /** The sessions live in one state of the table and revoked in the other. */
  function Ended(before: map<Id, Session>, after: map<Id, Session>): set<Id> {
    set s | s in before && before[s].revokedAt.None? && s in after && after[s].revokedAt.Some?
  }

  class AdminService {
    const session: Tables
    const ttl: nat

    constructor (session: Tables, ttl: nat)
      ensures this.session == session && this.ttl == ttl
    {
      this.session, this.ttl := session, ttl;
    }

    /** `_site_admin`: the library owner, if there is one and it is an administrator. */
    method FindSiteAdmin() returns (found: Reply<Id>)
      ensures match SiteAdmin(session.View())
        case Found(admin) => found == Returned(admin)
        case NotInitialized => found == Raised("admin_not_initialized")
        case Broken => found == InternalError
    {
      if session.site.owner.None? { return Raised("admin_not_initialized"); }
      var owner := session.site.owner.value;
      if owner !in session.users || session.users[owner].role != Admin { return InternalError; }
      return Returned(owner);
    }

    /** `_issue_recovery`. */
    method IssueCredential(admin: Id, purpose: Purpose, now: int) returns (issued: Issued)
      modifies session`recoveries
      ensures session.View() == IssueRecovery(old(session.View()), admin, purpose, now, ttl)
      ensures issued == Issued(now + ttl, purpose)
    {
      session.RevokeOpenRecoveries(admin, now);
      var expiresAt := now + ttl;
      session.recoveries := session.recoveries + [Recovery(admin, purpose, now, expiresAt, None, None)];
      issued := Issued(expiresAt, purpose);
    }

    method Initialize(now: int) returns (r: Reply<Issued>)
      modifies session
      ensures Carries(Identity.Initialize(old(session.View()), now, ttl), old(session.View()), session.View(), r)
      ensures r.Returned? ==> r.value == Issued(now + ttl, Initialization)
    {
      var pending := Pending(session.View());
      if pending == {} { return Raised("admin_already_initialized"); }
      if exists a, b :: a in pending && b in pending && a != b { return InternalError; }
      if ActiveAdmins(session.View()) != {} { return Raised("admin_already_initialized"); }
      var id := TheOnly(pending);
      var user := session.users[id];
      user := user.(role := Admin);
      user := user.(status := Active);
      user := user.(hasPassword := false);
      user := user.(passwordChangedAt := Some(now));
      user := user.(updatedAt := now);
      session.users := session.users[id := user];
      session.site := session.site.(owner := Some(id));
      session.site := session.site.(migratedAt := Some(now));
      session.site := session.site.(updatedAt := now);
      var issued := IssueCredential(id, Initialization, now);
      session.Audit("admin_initialized");
      r := Returned(issued);
    }

    method CreateRecovery(now: int) returns (r: Reply<Issued>)
      modifies session
      ensures Carries(Identity.CreateRecovery(old(session.View()), now, ttl), old(session.View()), session.View(), r)
      ensures r.Returned? ==> r.value == Issued(now + ttl, Recovering)
    {
      var admin := FindSiteAdmin();
      if !admin.Returned? { return Failure(admin); }
      var issued := IssueCredential(admin.value, Recovering, now);
      session.Audit("admin_recovery_created");
      r := Returned(issued);
    }

    method ResetCredentials(now: int) returns (r: Reply<Issued>)
      modifies session
      ensures Carries(Identity.ResetCredentials(old(session.View()), now, ttl), old(session.View()), session.View(), r)
      ensures r.Returned? ==> r.value == Issued(now + ttl, CredentialReset)
    {
      var admin := FindSiteAdmin();
      if !admin.Returned? { return Failure(admin); }
      var keys := session.passkeys;
      session.passkeys := map k | k in keys ::
        if keys[k].user == admin.value && keys[k].revokedAt.None? then keys[k].(revokedAt := Some(now)) else keys[k];
      var _ := session.RevokeUserSessions(admin.value, now);
      var issued := IssueCredential(admin.value, CredentialReset, now);
      session.Audit("admin_credentials_reset");
      r := Returned(issued);
    }

    /** The number returned is that of the sessions ended by this call. */
    method RevokeAllSessions(now: int) returns (r: Reply<nat>)
      modifies session
      ensures Carries(Identity.RevokeAllSessions(old(session.View()), now), old(session.View()), session.View(), r)
      ensures r.Returned? ==> r.value == |Ended(old(session.sessions), session.sessions)|
    {
      var admin := FindSiteAdmin();
      if !admin.Returned? { return Failure(admin); }
      var count := session.RevokeUserSessions(admin.value, now);
      session.Audit("admin_sessions_revoked_all");
      r := Returned(count);
      ghost var before := old(session.View());
      assert Live(before, SessionsOf(before, admin.value)) == Ended(before.sessions, session.sessions);
    }

    method Lock(now: int) returns (r: Reply<()>)
      modifies session
      ensures Carries(LockAdmin(old(session.View()), now), old(session.View()), session.View(), r)
    {
      var admin := FindSiteAdmin();
      if !admin.Returned? { return Failure(admin); }
      if session.site.lockedAt.None? {
        session.site := session.site.(lockedAt := Some(now));
        session.site := session.site.(updatedAt := now);
      }
      var _ := session.RevokeUserSessions(admin.value, now);
      session.Audit("admin_locked");
      r := Returned(());
    }

    method Unlock(now: int) returns (r: Reply<()>)
      modifies session
      ensures Carries(UnlockAdmin(old(session.View()), now), old(session.View()), session.View(), r)
    {
      var admin := FindSiteAdmin();
      if !admin.Returned? { return Failure(admin); }
      session.site := session.site.(lockedAt := None);
      session.site := session.site.(updatedAt := now);
      session.Audit("admin_unlocked");
      r := Returned(());
    }
  }

  function Failure<T, U>(r: Reply<T>): Reply<U>
    requires !r.Returned?
  {
    if r.Raised? then Raised(r.code) else InternalError
  }

  class AuthMigrationService {
    const session: Tables

    constructor (session: Tables)
      ensures this.session == session
    {
      this.session := session;
    }

    /**
      Nothing is written before the target and the mapping have been accepted. `expired` and `spent` are the
      sessions and tokens whose time is over now; the report counts them out, the decision ignores them.
    */
    method Convert(target: Option<Id>, mapping: set<Id>, expired: set<Id>, spent: set<Id>, now: int)
      returns (r: Reply<Id>)
      modifies session
      ensures var before := old(session.View());
        Carries(Identity.Convert(before, target, mapping, now), before, session.View(), r)
      ensures r.Returned? ==> session.site.owner == Some(r.value)
    {
      r := ChooseTarget(target, mapping, expired, spent, now);
      if r.Returned? {
        Apply(r.value, now);
      }
    }

    method ChooseTarget(target: Option<Id>, mapping: set<Id>, expired: set<Id>, spent: set<Id>, ghost now: int)
      returns (r: Reply<Id>)
      ensures match Identity.Convert(session.View(), target, mapping, now)
        case Committed(db) => r.Returned? && r.value in session.users && db == ConvertTo(session.View(), r.value, now)
        case Refused(code) => r == Raised(code)
        case Crashed => false
    {
      var report := Report(session.View(), expired, spent);
      var chosen;
      if target.None? {
        if report.requiresTargetAdmin || |report.admins| != 1 { return Raised("target_admin_required"); }
        chosen := SoleMember(report.admins);
      } else {
        chosen := target.value;
      }
      if chosen !in report.admins { return Raised("invalid_target_admin"); }
      if mapping != report.admins - {chosen} { return Raised("admin_mapping_required"); }
      return Returned(chosen);
    }

    method Apply(chosen: Id, now: int)
      requires chosen in session.users
      modifies session
      ensures session.View() == ConvertTo(old(session.View()), chosen, now)
    {
      HandOver(chosen, Admins(session.View()) - {chosen}, now);
      Finish(chosen, now);
    }

    /** Content and roles. */
    method HandOver(target: Id, others: set<Id>, now: int)
      requires target in session.users && target !in others
      modifies session`content, session`users
      ensures session.View() == old(session.View()).(
        content := GivenTo(old(session.content), target), users := Promoted(old(session.users), target, others, now))
    {
      MoveContent(target);
      Promote(target, others, now);
    }

    /** Everybody is signed out, the site is configured, and the event is recorded. */
    method Finish(target: Id, now: int)
      modifies session`tokens, session`sessions, session`devices, session`site, session`audit
      ensures session.View() == old(session.View()).(
        tokens := TokensRevoked(old(session.tokens), now), sessions := SessionsRevoked(old(session.sessions), now),
        devices := DevicesRevoked(old(session.devices), now), site := session.site, audit := session.audit)
      ensures session.site == old(session.site).(owner := Some(target), migratedAt := Some(now), updatedAt := now)
      ensures session.audit == old(session.audit) + ["auth_migration_completed"]
    {
      RevokeEverything(now);
      Configure(target, now);
      session.Audit("auth_migration_completed");
    }

    method Configure(owner: Id, now: int)
      modifies session`site
      ensures session.site == old(session.site).(owner := Some(owner), migratedAt := Some(now), updatedAt := now)
    {
      session.site := session.site.(owner := Some(owner));
      session.site := session.site.(migratedAt := Some(now));
      session.site := session.site.(updatedAt := now);
    }

    method MoveContent(target: Id)
      modifies session`content
      ensures session.content == GivenTo(old(session.content), target)
    {
      var c := session.content;
      c := c.(books := map b | b in c.books :: target);
      c := c.(series := map s | s in c.series :: target);
      c := c.(files := map f | f in c.files :: target);
      c := c.(imports := map i | i in c.imports :: target);
      session.content := c;
    }

    method Promote(target: Id, others: set<Id>, now: int)
      requires target in session.users && target !in others
      modifies session`users
      ensures session.users == Promoted(old(session.users), target, others, now)
    {
      var rows := session.users;
      rows := map u | u in rows :: if u in others then rows[u].(role := Member, updatedAt := now) else rows[u];
      rows := rows[target := rows[target].(role := Admin, status := Active, updatedAt := now)];
      session.users := map u | u in rows ::
        rows[u].(hasPassword := false, passwordChangedAt := Some(now), updatedAt := now);
    }

    method RevokeEverything(now: int)
      modifies session`tokens, session`sessions, session`devices
      ensures session.tokens == TokensRevoked(old(session.tokens), now)
      ensures session.sessions == SessionsRevoked(old(session.sessions), now)
      ensures session.devices == DevicesRevoked(old(session.devices), now)
    {
      var ts, ss, ds := session.tokens, session.sessions, session.devices;
      session.tokens := map t | t in ts :: if ts[t].revokedAt.None? then ts[t].(revokedAt := Some(now)) else ts[t];
      session.sessions := map s | s in ss :: if ss[s].revokedAt.None? then ss[s].(revokedAt := Some(now)) else ss[s];
      session.devices := map d | d in ds ::
        if ds[d].revokedAt.None? then ds[d].(revokedAt := Some(now), updatedAt := now) else ds[d];
    }
  }
}
