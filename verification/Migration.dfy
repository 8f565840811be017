/** The one-time conversion to a single library owner: what it reports before, and what it leaves behind. */
module Migration {
  import opened Prelude
  import opened Identity
  import opened IdentityRuns

  // ------------------------------------------------------------ the report before converting

  datatype OwnerCounts = OwnerCounts(owner: Id, books: nat, series: nat, files: nat, imports: nat)

  datatype Preflight = Preflight(
    users: set<Id>, admins: set<Id>, ownerCounts: seq<OwnerCounts>,
    activeDevices: nat, activeSessions: nat, activeRefreshTokens: nat,
    requiresTargetAdmin: bool, requiresAdminMapping: bool)

  function RowsOf(table: map<Id, Id>, owner: Id): set<Id> { set r | r in table && table[r] == owner }

  function CountsFor(c: Content, o: Id): OwnerCounts {
    OwnerCounts(o, |RowsOf(c.books, o)|, |RowsOf(c.series, o)|, |RowsOf(c.files, o)|, |RowsOf(c.imports, o)|)
  }

  function ActiveDevices(db: Database): set<Id> { set d | d in db.devices && db.devices[d].revokedAt.None? }

  /** Not revoked, and not among those whose time is over at the moment of the report. */
  function ActiveSessions(db: Database, expired: set<Id>): set<Id> {
    set s | s in db.sessions && db.sessions[s].revokedAt.None? && s !in expired
  }

  /** Not revoked, and not among those used or expired by then. */
  function ActiveTokens(db: Database, spent: set<Id>): set<Id> {
    set t | t in db.tokens && db.tokens[t].revokedAt.None? && t !in spent
  }

  function Listed(counts: seq<OwnerCounts>): set<Id> { set n | n in counts :: n.owner }

  ghost predicate Sorted(counts: seq<OwnerCounts>) {
    forall i, j :: 0 <= i < j < |counts| ==> counts[i].owner < counts[j].owner
  }

  ghost predicate Exact(counts: seq<OwnerCounts>, c: Content) {
    forall n :: n in counts ==> n == CountsFor(c, n.owner)
  }

  /** One entry for each owner of anything, in order, with that owner's rows in each table. */
  ghost predicate Describes(counts: seq<OwnerCounts>, c: Content) {
    && Sorted(counts)
    && Listed(counts) == Owners(c)
    && Exact(counts, c)
  }

  method Smallest(ids: set<Id>) returns (least: Id)
    requires ids != {}
    ensures least in ids && forall o :: o in ids ==> least <= o
  {
    least :| least in ids;
    var rest := ids - {least};
    while rest != {}
      invariant least in ids
      invariant forall o :: o in ids ==> o in rest || least <= o
      invariant rest <= ids
      decreases |rest|
    {
      var o :| o in rest;
      rest := rest - {o};
      if o < least { least := o; }
    }
  }

  method OwnerIds(c: Content) returns (ids: set<Id>)
    ensures ids == Owners(c)
  {
    var tables := [c.books, c.series, c.files, c.imports];
    ids := {};
    for t := 0 to 4
      invariant ids == (if t > 0 then c.books.Values else {}) + (if t > 1 then c.series.Values else {})
                     + (if t > 2 then c.files.Values else {}) + (if t > 3 then c.imports.Values else {})
    {
      ids := ids + tables[t].Values;
    }
  }

  lemma ListNext(counts: seq<OwnerCounts>, n: OwnerCounts)
    requires Sorted(counts) && forall o :: o in Listed(counts) ==> o < n.owner
    ensures Sorted(counts + [n]) && Listed(counts + [n]) == Listed(counts) + {n.owner}
  {
    assert forall i :: 0 <= i < |counts| ==> counts[i].owner in Listed(counts);
    assert forall m :: m in counts + [n] <==> m in counts || m == n;
  }

  lemma ExactNext(counts: seq<OwnerCounts>, c: Content, o: Id)
    requires Exact(counts, c)
    ensures Exact(counts + [CountsFor(c, o)], c)
  {}

  ghost predicate Below(done: set<Id>, todo: set<Id>) {
    forall o, p :: o in done && p in todo ==> o < p
  }

  lemma BelowNext(done: set<Id>, todo: set<Id>, next: Id)
    requires Below(done, todo) && next in todo && forall o :: o in todo ==> next <= o
    ensures Below(done + {next}, todo - {next})
  {}

  method CountByOwner(c: Content, ids: set<Id>) returns (counts: seq<OwnerCounts>)
    ensures Sorted(counts) && Listed(counts) == ids && Exact(counts, c)
  {
    counts := [];
    var todo := ids;
    ghost var done: set<Id> := {};
    while todo != {}
      invariant Listed(counts) == done && done + todo == ids
      invariant Sorted(counts) && Exact(counts, c) && Below(done, todo)
      decreases |todo|
    {
      var next := Smallest(todo);
      var entry := CountsFor(c, next);
      ListNext(counts, entry);
      ExactNext(counts, c, next);
      BelowNext(done, todo, next);
      counts := counts + [entry];
      todo, done := todo - {next}, done + {next};
    }
  }

  /** `preflight`: the owner ids of the four tables, then one entry per owner in sorted order. */
  method Report(db: Database, expired: set<Id>, spent: set<Id>) returns (r: Preflight)
    ensures r.users == db.users.Keys && r.admins == Admins(db) && Describes(r.ownerCounts, db.content)
    ensures r.activeDevices == |ActiveDevices(db)|
    ensures r.activeSessions == |ActiveSessions(db, expired)| && r.activeRefreshTokens == |ActiveTokens(db, spent)|
    ensures r.requiresTargetAdmin == RequiresTarget(db) && r.requiresAdminMapping == (|Admins(db)| > 1)
  {
    var ownerIds := OwnerIds(db.content);
    var counts := CountByOwner(db.content, ownerIds);
    r := Preflight(db.users.Keys, Admins(db), counts,
                   |ActiveDevices(db)|, |ActiveSessions(db, expired)|, |ActiveTokens(db, spent)|,
                   |Admins(db)| != 1 || |ownerIds| > 1, |Admins(db)| > 1);
  }

  // ------------------------------------------------------------ conservation

  function Sum(counts: seq<OwnerCounts>, column: OwnerCounts -> nat): nat {
    if counts == [] then 0 else column(counts[0]) + Sum(counts[1..], column)
  }

  lemma NoOwners(table: map<Id, Id>)
    ensures table.Values == {} ==> table == map[]
  {
    assert forall r :: r in table ==> table[r] in table.Values;
  }

  lemma WithoutOwner(table: map<Id, Id>, o: Id)
    ensures var others := table - RowsOf(table, o);
      && |table| == |RowsOf(table, o)| + |others|
      && others.Values <= table.Values - {o}
      && forall p :: p != o ==> RowsOf(others, p) == RowsOf(table, p)
  {
    var mine := RowsOf(table, o);
    var others := table - mine;
    assert others.Keys == table.Keys - mine && mine <= table.Keys;
    forall p | p in others.Values ensures p in table.Values && p != o {
      var r :| r in others && others[r] == p;
      assert table[r] in table.Values;
    }
  }

  lemma ListedFirst(counts: seq<OwnerCounts>)
    requires counts != [] && Sorted(counts)
    ensures Listed(counts) == {counts[0].owner} + Listed(counts[1..]) && Sorted(counts[1..])
    ensures forall n :: n in counts[1..] ==> n.owner != counts[0].owner
  {
    assert forall n :: n in counts <==> n == counts[0] || n in counts[1..];
  }

  /** Rows of a table split by owner: counting by owner and adding up counts every row once. */
  lemma {:induction false} OwnersPartitionRows(table: map<Id, Id>, counts: seq<OwnerCounts>, column: OwnerCounts -> nat)
    requires Sorted(counts) && table.Values <= Listed(counts)
    requires forall n :: n in counts ==> column(n) == |RowsOf(table, n.owner)|
    ensures Sum(counts, column) == |table|
    decreases |counts|
  {
    if counts == [] {
      NoOwners(table);
    } else {
      var others := table - RowsOf(table, counts[0].owner);
      WithoutOwner(table, counts[0].owner);
      ListedFirst(counts);
      forall n | n in counts[1..] ensures column(n) == |RowsOf(others, n.owner)| {
        assert n in counts;
      }
      OwnersPartitionRows(others, counts[1..], column);
    }
  }

  function Books(): OwnerCounts -> nat { (n: OwnerCounts) => n.books }

  function Series(): OwnerCounts -> nat { (n: OwnerCounts) => n.series }

  function Files(): OwnerCounts -> nat { (n: OwnerCounts) => n.files }

  function Imports(): OwnerCounts -> nat { (n: OwnerCounts) => n.imports }

  lemma ColumnTotal(counts: seq<OwnerCounts>, c: Content, table: map<Id, Id>, column: OwnerCounts -> nat)
    requires Describes(counts, c) && table.Values <= Owners(c)
    requires forall n :: n in counts ==> column(n) == |RowsOf(table, n.owner)|
    ensures Sum(counts, column) == |table|
  {
    OwnersPartitionRows(table, counts, column);
  }

  /** Every row of every table is counted exactly once in the report. */
  lemma ReportCountsEveryRow(counts: seq<OwnerCounts>, c: Content)
    requires Describes(counts, c)
    ensures Sum(counts, Books()) == |c.books| && Sum(counts, Series()) == |c.series|
    ensures Sum(counts, Files()) == |c.files| && Sum(counts, Imports()) == |c.imports|
  {
    ColumnTotal(counts, c, c.books, Books());
    ColumnTotal(counts, c, c.series, Series());
    ColumnTotal(counts, c, c.files, Files());
    ColumnTotal(counts, c, c.imports, Imports());
  }

  lemma {:induction false} ListedSize(counts: seq<OwnerCounts>)
    requires Sorted(counts)
    ensures |Listed(counts)| == |counts|
    decreases |counts|
  {
    if counts != [] {
      var front, last := counts[..|counts| - 1], counts[|counts| - 1];
      ListedSize(front);
      assert counts == front + [last];
      assert last.owner !in Listed(front);
      assert Listed(counts) == Listed(front) + {last.owner};
    }
  }

  lemma OneListed(counts: seq<OwnerCounts>, c: Content, o: Id)
    requires Sorted(counts) && Listed(counts) == {o} && Exact(counts, c)
    ensures counts == [CountsFor(c, o)]
  {
    ListedSize(counts);
    assert counts[0] in counts && counts[0].owner in Listed(counts);
  }

  lemma OwnedByOne(table: map<Id, Id>, o: Id)
    ensures OwnedBy(table, o).Keys == table.Keys && RowsOf(OwnedBy(table, o), o) == table.Keys
    ensures OwnedBy(table, o).Values == if table == map[] then {} else {o}
  {
    if table != map[] {
      var r :| r in table;
      assert OwnedBy(table, o)[r] in OwnedBy(table, o).Values;
    }
  }

  lemma GivenToOne(c: Content, o: Id)
    ensures Owners(GivenTo(c, o)) == if Owners(c) == {} then {} else {o}
    ensures CountsFor(GivenTo(c, o), o) == OwnerCounts(o, |c.books|, |c.series|, |c.files|, |c.imports|)
  {
    OwnedByOne(c.books, o);
    OwnedByOne(c.series, o);
    OwnedByOne(c.files, o);
    OwnedByOne(c.imports, o);
  }

  lemma GivenToOneReport(c: Content, o: Id, before: seq<OwnerCounts>, after: seq<OwnerCounts>)
    requires Describes(before, c) && Describes(after, GivenTo(c, o))
    ensures after == if before == [] then [] else
      [OwnerCounts(o, Sum(before, Books()), Sum(before, Series()), Sum(before, Files()), Sum(before, Imports()))]
  {
    GivenToOne(c, o);
    ListedSize(before);
    ListedSize(after);
    if before != [] {
      OneListed(after, GivenTo(c, o), o);
      ReportCountsEveryRow(before, c);
    }
  }

  predicate SameRows(a: Content, b: Content) {
    && a.books.Keys == b.books.Keys && a.series.Keys == b.series.Keys
    && a.files.Keys == b.files.Keys && a.imports.Keys == b.imports.Keys
  }

  lemma ConversionGives(db: Database, target: Option<Id>, mapping: set<Id>, now: int) returns (o: Id)
    requires Convert(db, target, mapping, now).Committed?
    ensures var r := Convert(db, target, mapping, now).db;
      r.site.owner == Some(o) && r.content == GivenTo(db.content, o) && SameRows(db.content, r.content)
  {
    o := Convert(db, target, mapping, now).db.site.owner.value;
  }

  /**
    An accepted conversion keeps every row of the four tables, and the one entry of the report
    afterwards holds in each column the sum of that column before.
  */
  lemma ConversionConserves(db: Database, target: Option<Id>, mapping: set<Id>, now: int,
                            before: seq<OwnerCounts>, after: seq<OwnerCounts>)
    requires Convert(db, target, mapping, now).Committed?
    requires Describes(before, db.content) && Describes(after, Convert(db, target, mapping, now).db.content)
    ensures var r := Convert(db, target, mapping, now).db;
      && SameRows(db.content, r.content) && r.site.owner.Some?
      && after == if before == [] then [] else
           [OwnerCounts(r.site.owner.value, Sum(before, Books()), Sum(before, Series()),
                        Sum(before, Files()), Sum(before, Imports()))]
  {
    var o := ConversionGives(db, target, mapping, now);
    GivenToOneReport(db.content, o, before, after);
  }

  // ------------------------------------------------------------ who may sign in afterwards

  /** A conversion is accepted exactly when it settles on one administrator and names all the others. */
  lemma ConvertAccepts(db: Database, target: Option<Id>, mapping: set<Id>, now: int)
    ensures Convert(db, target, mapping, now).Committed? <==>
      exists a :: a in Admins(db) && mapping == Admins(db) - {a}
        && (target == Some(a) || (target.None? && Admins(db) == {a} && |Owners(db.content)| <= 1))
    ensures !Convert(db, target, mapping, now).Crashed?
  {
    if target.None? && exists a :: Admins(db) == {a} {
      var a :| Admins(db) == {a};
      assert !RequiresTarget(db) ==> SoleMember(Admins(db)) in {a};
    }
  }

  /** After a conversion nothing issued before it is usable, and what was revoked earlier keeps its time. */
  lemma ConversionSignsEveryoneOut(db: Database, target: Option<Id>, mapping: set<Id>, now: int)
    requires Convert(db, target, mapping, now).Committed?
    ensures var r := Convert(db, target, mapping, now).db;
      && r.devices.Keys == db.devices.Keys && r.sessions.Keys == db.sessions.Keys && r.tokens.Keys == db.tokens.Keys
      && ActiveDevices(r) == {}
      && (forall expired: set<Id> :: ActiveSessions(r, expired) == {})
      && (forall spent: set<Id> :: ActiveTokens(r, spent) == {})
      && (forall d :: d in db.devices ==> r.devices[d].revokedAt == Some(db.devices[d].revokedAt.GetOr(now)))
      && (forall s :: s in db.sessions ==> r.sessions[s].revokedAt == Some(db.sessions[s].revokedAt.GetOr(now)))
      && (forall t :: t in db.tokens ==> r.tokens[t].revokedAt == Some(db.tokens[t].revokedAt.GetOr(now)))
      && (forall u :: u in db.users ==> !r.users[u].hasPassword)
  {}

  /** The owner becomes an active administrator, everyone else a member whose status is as it was. */
  lemma ConversionSettlesRoles(db: Database, target: Option<Id>, mapping: set<Id>, now: int)
    requires Convert(db, target, mapping, now).Committed?
    ensures var r := Convert(db, target, mapping, now).db;
      && r.site.owner.Some? && r.site.owner.value in Admins(db)
      && (target.Some? ==> r.site.owner == target) && r.site.lockedAt == db.site.lockedAt
      && r.users.Keys == db.users.Keys
      && (forall u :: u in db.users ==>
            if r.site.owner == Some(u) then IsActiveAdmin(r.users[u])
            else r.users[u].role == Member && r.users[u].status == db.users[u].status)
  {
    var r := Convert(db, target, mapping, now).db;
    assert forall u :: u in db.users && db.users[u].role == Admin ==> u in Admins(db);
    assert r == ConvertTo(db, r.site.owner.value, now);
  }

  // ------------------------------------------------------------ converting again

  /** One library owner, who is the only administrator, active, and owns all there is. */
  ghost predicate SingleOwner(db: Database) {
    && db.site.owner.Some? && db.site.owner.value in db.users
    && db.users[db.site.owner.value].status == Active
    && Admins(db) == {db.site.owner.value}
    && Owners(db.content) <= {db.site.owner.value}
  }

  lemma ConvertToSettlesOwner(db: Database, o: Id, now: int)
    requires o in Admins(db)
    ensures SingleOwner(ConvertTo(db, o, now))
  {
    GivenToOne(db.content, o);
    PromotedIsOnlyAdmin(db, o, now);
  }

  lemma PromotedIsOnlyAdmin(db: Database, o: Id, now: int)
    requires o in Admins(db)
    ensures Admins(ConvertTo(db, o, now)) == {o} && ConvertTo(db, o, now).users[o].status == Active
  {
    var r := ConvertTo(db, o, now);
    assert forall u :: u in db.users && db.users[u].role == Admin ==> u in Admins(db);
    assert forall u :: u in r.users && r.users[u].role == Admin ==> u == o;
    assert o in Admins(r);
  }

  lemma ConversionSettlesOwner(db: Database, target: Option<Id>, mapping: set<Id>, now: int)
    requires Convert(db, target, mapping, now).Committed?
    ensures SingleOwner(Convert(db, target, mapping, now).db)
  {
    ConvertToSettlesOwner(db, if target.Some? then target.value else SoleMember(Admins(db)), now);
  }

  lemma AddedRows(table: map<Id, Id>, rows: set<Id>, o: Id)
    requires table.Values <= {o}
    ensures (table + (map r | r in rows - table.Keys :: o)).Values <= {o}
  {
    assert forall r :: r in table ==> table[r] in table.Values;
  }

  lemma NewContentIsOwned(db: Database, books: set<Id>, series: set<Id>, files: set<Id>, imports: set<Id>)
    requires SingleOwner(db)
    ensures var r := AddContent(db, books, series, files, imports);
      r.Committed? && Owners(r.db.content) <= {db.site.owner.value} && r.db == db.(content := r.db.content)
  {
    var o := db.site.owner.value;
    AddedRows(db.content.books, books, o);
    AddedRows(db.content.series, series, o);
    AddedRows(db.content.files, files, o);
    AddedRows(db.content.imports, imports, o);
  }

  lemma InitializeIsRefused(db: Database, now: int, ttl: nat)
    requires SingleOwner(db)
    ensures !Initialize(db, now, ttl).Committed?
  {
    assert db.site.owner.value in Admins(db);
    assert db.site.owner.value in ActiveAdmins(db);
  }

  lemma AddedKeepsAdmins(db: Database, id: Id, user: User)
    requires id !in db.users && user.role == Member
    ensures Admins(db.(users := db.users[id := user])) == Admins(db)
  {}

  lemma StepKeepsSingleOwner(db: Database, a: Attempt, ttl: nat)
    requires SingleOwner(db) && Possible(db, a)
    ensures SingleOwner(Next(db, a, ttl)) && Next(db, a, ttl).site.owner == db.site.owner
  {
    match a.event
    case DoInitialize => InitializeIsRefused(db, a.now, ttl);
    case DoConvert(target, mapping) =>
      if Convert(db, target, mapping, a.now).Committed? {
        ConversionSettlesOwner(db, target, mapping, a.now);
      }
    case DoCreateReader(id) => AddedKeepsAdmins(db, id, User(Member, Active, false, None, a.now));
    case DoAddContent(books, series, files, imports) => NewContentIsOwned(db, books, series, files, imports);
    case _ => OthersLeaveUsersAndContent(db, a, ttl);
  }

  lemma {:induction false} RunKeepsSingleOwner(db: Database, run: seq<Attempt>, ttl: nat)
    requires SingleOwner(db) && Valid(db, run, ttl)
    ensures SingleOwner(After(db, run, ttl)) && After(db, run, ttl).site.owner == db.site.owner
    decreases |run|
  {
    if run != [] {
      StepKeepsSingleOwner(db, run[0], ttl);
      RunKeepsSingleOwner(Next(db, run[0], ttl), run[1..], ttl);
    }
  }

  /** What two states must share for nobody's rights or content to differ. */
  ghost predicate SameOwnership(a: Database, b: Database) {
    && a.content == b.content && a.site.owner == b.site.owner && a.site.lockedAt == b.site.lockedAt
    && a.users.Keys == b.users.Keys
    && (forall u :: u in a.users ==> a.users[u].role == b.users[u].role && a.users[u].status == b.users[u].status)
    && a.passkeys == b.passkeys && a.recoveries == b.recoveries
  }

  lemma SingleOwnerConverts(db: Database, now: int)
    requires SingleOwner(db)
    ensures Convert(db, None, {}, now).Committed? && SameOwnership(db, Convert(db, None, {}, now).db)
  {
    var o := db.site.owner.value;
    assert |Owners(db.content)| <= 1 by {
      assert Owners(db.content) == {} || Owners(db.content) == {o};
    }
    assert SoleMember(Admins(db)) in {o};
    SameContent(db.content, o);
    OnlyAdminStays(db, o, now);
  }

  lemma OnlyAdminStays(db: Database, o: Id, now: int)
    requires o in db.users && Admins(db) == {o} && db.users[o].status == Active
    ensures var r := ConvertTo(db, o, now);
      r.users.Keys == db.users.Keys
      && forall u :: u in db.users ==> r.users[u].role == db.users[u].role && r.users[u].status == db.users[u].status
  {
    assert forall u :: u in db.users && db.users[u].role == Admin ==> u in Admins(db);
    assert o in Admins(db);
  }

  lemma SameContent(c: Content, o: Id)
    requires Owners(c) <= {o}
    ensures GivenTo(c, o) == c
  {
    SameTable(c.books, o);
    SameTable(c.series, o);
    SameTable(c.files, o);
    SameTable(c.imports, o);
  }

  lemma SameTable(table: map<Id, Id>, o: Id)
    requires table.Values <= {o}
    ensures OwnedBy(table, o) == table
  {
    assert forall r :: r in table ==> table[r] in table.Values;
  }

  /**
    At any later time, whatever was done in between, converting with no target and no mapping is
    accepted, keeps the target, and changes nothing in ownership, roles, statuses or credentials.
  */
  lemma ConversionIsStable(db: Database, target: Option<Id>, mapping: set<Id>, now: int,
                           run: seq<Attempt>, ttl: nat, later: int)
    requires Convert(db, target, mapping, now).Committed? && Valid(Convert(db, target, mapping, now).db, run, ttl)
    ensures var r := After(Convert(db, target, mapping, now).db, run, ttl); var again := Convert(r, None, {}, later);
      && again.Committed? && SameOwnership(r, again.db)
      && again.db.site.owner == Convert(db, target, mapping, now).db.site.owner
  {
    ConversionSettlesOwner(db, target, mapping, now);
    RunKeepsSingleOwner(Convert(db, target, mapping, now).db, run, ttl);
    SingleOwnerConverts(After(Convert(db, target, mapping, now).db, run, ttl), later);
  }

  function Unstamped(db: Database): Database {
    db.(users := map u | u in db.users :: db.users[u].(passwordChangedAt := None, updatedAt := 0),
        site := db.site.(migratedAt := None, updatedAt := 0), audit := [])
  }

  ghost predicate AllRevoked(db: Database) {
    && (forall d :: d in db.devices ==> db.devices[d].revokedAt.Some?)
    && (forall s :: s in db.sessions ==> db.sessions[s].revokedAt.Some?)
    && (forall t :: t in db.tokens ==> db.tokens[t].revokedAt.Some?)
    && (forall u :: u in db.users ==> !db.users[u].hasPassword)
  }

  lemma RevokedStaysAsItIs(db: Database, o: Id, now: int)
    requires AllRevoked(db) && o in db.users
    ensures var r := ConvertTo(db, o, now);
      && r.devices == db.devices && r.sessions == db.sessions && r.tokens == db.tokens
      && (forall u :: u in db.users ==> u in r.users && !r.users[u].hasPassword)
  {}

  /** Converting twice in a row differs from converting once in timestamps and one audit event only. */
  lemma ConvertedTwice(db: Database, target: Option<Id>, mapping: set<Id>, now: int, later: int)
    requires Convert(db, target, mapping, now).Committed?
    ensures var once := Convert(db, target, mapping, now).db; var twice := Convert(once, None, {}, later);
      && twice.Committed? && Unstamped(twice.db) == Unstamped(once)
      && twice.db.audit == once.audit + ["auth_migration_completed"]
  {
    var once := Convert(db, target, mapping, now).db;
    ConversionSettlesOwner(db, target, mapping, now);
    ConversionSignsEveryoneOut(db, target, mapping, now);
    assert AllRevoked(once);
    ConvertedAgain(once, later);
  }

  lemma ConvertedAgain(once: Database, later: int)
    requires SingleOwner(once) && AllRevoked(once)
    ensures var twice := Convert(once, None, {}, later);
      && twice.Committed? && Unstamped(twice.db) == Unstamped(once)
      && twice.db.audit == once.audit + ["auth_migration_completed"]
  {
    SingleOwnerConverts(once, later);
    var twice := Convert(once, None, {}, later).db;
    var o := once.site.owner.value;
    assert twice == ConvertTo(once, o, later);
    RevokedStaysAsItIs(once, o, later);
    assert Unstamped(twice).users == Unstamped(once).users;
  }
}
