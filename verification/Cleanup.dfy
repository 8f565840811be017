/** The storage clean-up script, run with nobody else writing. */
module Cleanup {
  import opened Prelude
  import opened Library

  // ------------------------------------------------------------ what a run does

  /** `hours` before now, in seconds. */
  function Cutoff(now: int, hours: int): int { now - hours * 3600 }

  predicate Stale(i: Import, cutoff: int) { i.status != Succeeded && i.createdAt < cutoff }

  function IsStale(cutoff: int): Import -> bool { (i: Import) => Stale(i, cutoff) }

  function Expire(i: Import, now: int): Import {
    var failed := if i.status == Failed then i
                  else i.(status := Failed, errorCode := Some("upload_expired"), completedAt := Some(now));
    failed.(temporary := None, normalized := None, cover := None, thumbnail := None)
  }

  function Expired(imports: seq<Import>, cutoff: int, now: int): seq<Import> {
    if imports == [] then []
    else
      var first := if Stale(imports[0], cutoff) then Expire(imports[0], now) else imports[0];
      [first] + Expired(imports[1..], cutoff, now)
  }

  function ExpiredKeys(imports: seq<Import>, cutoff: int): set<Key> {
    if imports == [] then {}
    else (if Stale(imports[0], cutoff) then KeysOf(imports[0]) else {}) + ExpiredKeys(imports[1..], cutoff)
  }

  function Older(files: map<Key, File>, cutoff: int): set<Key> { set k | k in files && files[k].mtime < cutoff }

  /** `deletable_expired_keys`. */
  function DeletableExpiredKeys(expired: set<Key>, remaining: set<Key>): set<Key> { expired - remaining }

  function CleanedTemporary(
      temporary: map<Key, File>, before: seq<Import>, after: seq<Import>, cutoff: int): map<Key, File> {
    var remaining := TemporaryKeys(after);
    var left := temporary - DeletableExpiredKeys(ExpiredKeys(before, cutoff), remaining);
    left - (Older(left, cutoff) - remaining)
  }

  function Cleaned(s: Store, cutoff: int, now: int, deleteOrphans: bool): Store {
    var imports := Expired(s.imports, cutoff, now);
    var orphans := s.files.Keys - StorageKeys(s.stored);
    Store(s.stored, imports,
          if deleteOrphans then s.files - (orphans * Older(s.files, cutoff)) else s.files,
          CleanedTemporary(s.temporary, s.imports, imports, cutoff))
  }

  datatype Outcome = Refused | Finished(
    expiredImports: nat, expiredFiles: nat, preservedFiles: nat, untrackedRemoved: nat,
    orphans: nat, orphansDeleted: nat, recentOrphans: nat, missing: nat)
  {
    predicate ExitsWithError() { Refused? || missing > 0 }
  }

  /** Every count that is printed, from the rows and files before and after. */
  ghost function Printed(before: Store, after: Store, cutoff: int): Outcome {
    var expired := ExpiredKeys(before.imports, cutoff);
    var remaining := TemporaryKeys(after.imports);
    var gone := DeletableExpiredKeys(expired, remaining);
    var orphans := before.files.Keys - StorageKeys(before.stored);
    Finished(Count(before.imports, IsStale(cutoff)), |gone|, |expired - gone|,
             |Older(before.temporary - gone, cutoff) - remaining|,
             |orphans|, |before.files.Keys - after.files.Keys|, |orphans - Older(before.files, cutoff)|,
             |StorageKeys(before.stored) - before.files.Keys|)
  }

  // ------------------------------------------------------------ the script

  class StorageRoot {
    var stored: seq<StoredFile>
    var imports: seq<Import>
    var files: map<Key, File>
    var temporary: map<Key, File>

    ghost function View(): Store
      reads this
    {
      Store(stored, imports, files, temporary)
    }

    constructor (s: Store)
      ensures View() == s
    {
      stored, imports, files, temporary := s.stored, s.imports, s.files, s.temporary;
    }

    method ExpireRow(row: Import, now: int) returns (r: Import)
      ensures r == Expire(row, now)
    {
      r := row;
      if r.status != Failed {
        r := r.(status := Failed, errorCode := Some("upload_expired"), completedAt := Some(now));
      }
      r := r.(temporary := None, normalized := None, cover := None, thumbnail := None);
    }

    /** The locked, stale rows: their keys are collected and nulled, their status becomes failed. */
    method ExpireStale(cutoff: int, now: int) returns (stale: nat, expiredKeys: set<Key>)
      modifies `imports
      ensures imports == Expired(old(imports), cutoff, now) && expiredKeys == ExpiredKeys(old(imports), cutoff)
      ensures stale == Count(old(imports), IsStale(cutoff))
      ensures Collected(old(imports), cutoff, stale, expiredKeys)
    {
      stale, expiredKeys := 0, {};
      var done: seq<Import> := [];
      for n := 0 to |imports|
        invariant imports == old(imports)
        invariant done + Expired(imports[n..], cutoff, now) == Expired(imports, cutoff, now)
        invariant expiredKeys + ExpiredKeys(imports[n..], cutoff) == ExpiredKeys(imports, cutoff)
        invariant stale + Count(imports[n..], IsStale(cutoff)) == Count(imports, IsStale(cutoff))
      {
        var row := imports[n];
        ExpiredStep(imports, n, cutoff, now, done, expiredKeys);
        if Stale(row, cutoff) {
          stale, expiredKeys := stale + 1, expiredKeys + KeysOf(row);
          row := ExpireRow(row, now);
        }
        done := done + [row];
      }
      assert imports[|imports|..] == [];
      ExpiryCollects(imports, cutoff);
      imports := done;
    }

    method RemainingKeys() returns (remaining: set<Key>)
      ensures remaining == TemporaryKeys(imports)
    {
      remaining := {};
      for n := 0 to |imports|
        invariant remaining + TemporaryKeys(imports[n..]) == TemporaryKeys(imports)
      {
        assert imports[n..][0] == imports[n] && imports[n..][1..] == imports[n + 1..];
        remaining := remaining + KeysOf(imports[n]);
      }
      assert imports[|imports|..] == [];
    }

    /** Deleting an object that is not there is no error. */
    method DeleteTemporary(keys: set<Key>)
      modifies `temporary
      ensures temporary == old(temporary) - keys
    {
      var todo := keys;
      while todo != {}
        modifies `temporary
        invariant todo <= keys && temporary == old(temporary) - (keys - todo)
        decreases |todo|
      {
        var k :| k in todo;
        todo := todo - {k};
        temporary := temporary - {k};
      }
    }

    /** `cleanup_temporary_files`. */
    method CleanupTemporary(cutoff: int, preserve: set<Key>) returns (removed: nat)
      modifies `temporary
      ensures temporary == old(temporary) - (Older(old(temporary), cutoff) - preserve)
      ensures removed == |Older(old(temporary), cutoff) - preserve|
    {
      var doomed := Older(temporary, cutoff) - preserve;
      removed := |doomed|;
      DeleteTemporary(doomed);
    }

    method DeleteFiles(keys: set<Key>)
      modifies `files
      ensures files == old(files) - keys
    {
      var todo := keys;
      while todo != {}
        modifies `files
        invariant todo <= keys && files == old(files) - (keys - todo)
        decreases |todo|
      {
        var k :| k in todo;
        todo := todo - {k};
        files := files - {k};
      }
    }

    /** Expired and untracked temporary objects. */
    method SweepTemporary(cutoff: int, expiredKeys: set<Key>, remaining: set<Key>)
      returns (deleted: nat, preserved: nat, untracked: nat)
      modifies `temporary
      ensures var left := old(temporary) - DeletableExpiredKeys(expiredKeys, remaining);
        && temporary == left - (Older(left, cutoff) - remaining)
        && untracked == |Older(left, cutoff) - remaining|
      ensures var gone := DeletableExpiredKeys(expiredKeys, remaining);
        deleted == |gone| && preserved == |expiredKeys - gone|
    {
      var expiredFiles := DeletableExpiredKeys(expiredKeys, remaining);
      DeleteTemporary(expiredFiles);
      untracked := CleanupTemporary(cutoff, remaining);
      deleted, preserved := |expiredFiles|, |expiredKeys - expiredFiles|;
    }

    /** Permanent files no row refers to, reported or deleted, and rows whose file is missing. */
    method SweepPermanent(cutoff: int, referenced: set<Key>, deleteOrphans: bool)
      returns (orphaned: nat, deleted: nat, recent: nat, missing: nat)
      modifies `files
      ensures var deletable := (old(files).Keys - referenced) * Older(old(files), cutoff);
        files == if deleteOrphans then old(files) - deletable else old(files)
      ensures orphaned == |old(files).Keys - referenced| && missing == |referenced - old(files).Keys|
      ensures recent == |old(files).Keys - referenced - Older(old(files), cutoff)|
      ensures deleted == |old(files).Keys - files.Keys|
    {
      var physical := files.Keys;
      var orphans := physical - referenced;
      var oldPhysical := Older(files, cutoff);
      var deletable := orphans * oldPhysical;
      missing := |referenced - physical|;
      orphaned, recent := |orphans|, |orphans - oldPhysical|;
      deleted := 0;
      if deleteOrphans {
        DeleteFiles(deletable);
        deleted := |deletable|;
        assert physical - files.Keys == deletable;
      } else {
        assert physical - files.Keys == {};
      }
    }

    /** What follows once the cutoff is fixed. */
    method Clean(cutoff: int, now: int, deleteOrphans: bool) returns (r: Outcome)
      modifies this
      ensures View() == Cleaned(old(View()), cutoff, now, deleteOrphans)
      ensures r == Printed(old(View()), View(), cutoff)
    {
      var referenced := StorageKeys(stored);
      var stale, deletedTemporary, preserved, untracked := CleanTemporary(cutoff, now);
      var orphans, deleted, recent, missing := SweepPermanent(cutoff, referenced, deleteOrphans);
      r := Finished(stale, deletedTemporary, preserved, untracked, orphans, deleted, recent, missing);
    }

    /** The import rows and the temporary objects. */
    method CleanTemporary(cutoff: int, now: int)
      returns (stale: nat, deleted: nat, preserved: nat, untracked: nat)
      modifies `imports, `temporary
      ensures imports == Expired(old(imports), cutoff, now)
      ensures temporary == CleanedTemporary(old(temporary), old(imports), imports, cutoff)
      ensures stale == Count(old(imports), IsStale(cutoff))
      ensures var expired := ExpiredKeys(old(imports), cutoff);
        var gone := DeletableExpiredKeys(expired, TemporaryKeys(imports));
        && deleted == |gone| && preserved == |expired - gone|
        && untracked == |Older(old(temporary) - gone, cutoff) - TemporaryKeys(imports)|
    {
      var expiredKeys;
      stale, expiredKeys := ExpireStale(cutoff, now);
      var remaining := RemainingKeys();
      deleted, preserved, untracked := SweepTemporary(cutoff, expiredKeys, remaining);
    }

    /** `main`, from the parsed options on. */
    method Run(hours: int, deleteOrphans: bool, now: int) returns (r: Outcome)
      modifies this
      ensures hours < 1 ==> r == Refused && View() == old(View())
      ensures hours >= 1 ==> View() == Cleaned(old(View()), Cutoff(now, hours), now, deleteOrphans)
      ensures hours >= 1 ==> r == Printed(old(View()), View(), Cutoff(now, hours))
      ensures r.ExitsWithError() <==> hours < 1 || !(StorageKeys(old(stored)) <= old(files).Keys)
    {
      if hours < 1 {
        return Refused;
      }
      var cutoff := Cutoff(now, hours);
      r := Clean(cutoff, now, deleteOrphans);
      ExitsExactlyWhenMissing(old(View()), View(), cutoff);
    }
  }

  lemma ExitsExactlyWhenMissing(before: Store, after: Store, cutoff: int)
    ensures Printed(before, after, cutoff).ExitsWithError() <==> !(StorageKeys(before.stored) <= before.files.Keys)
  {
    NothingMissing(StorageKeys(before.stored), before.files.Keys);
  }

  lemma Parts(whole: set<Key>, part: set<Key>)
    requires part <= whole
    ensures |part| + |whole - part| == |whole|
  {
    SplitSize(whole, part);
    assert whole * part == part;
  }

  lemma FilesGone(s: Store, cutoff: int, now: int, deleteOrphans: bool)
    ensures var r := Cleaned(s, cutoff, now, deleteOrphans); var orphans := s.files.Keys - StorageKeys(s.stored);
      && r.files.Keys <= s.files.Keys
      && s.files.Keys - r.files.Keys == if deleteOrphans then orphans * Older(s.files, cutoff) else {}
  {}

  lemma PrintedKeys(s: Store, after: Store, cutoff: int)
    ensures var p := Printed(s, after, cutoff); p.expiredFiles + p.preservedFiles == |ExpiredKeys(s.imports, cutoff)|
  {
    var expired := ExpiredKeys(s.imports, cutoff);
    Parts(expired, DeletableExpiredKeys(expired, TemporaryKeys(after.imports)));
  }

  lemma PrintedFiles(s: Store, cutoff: int, now: int, deleteOrphans: bool)
    ensures var r := Cleaned(s, cutoff, now, deleteOrphans); var p := Printed(s, r, cutoff);
      && p.orphansDeleted == |s.files.Keys| - |r.files.Keys|
      && p.orphansDeleted == (if deleteOrphans then p.orphans - p.recentOrphans else 0)
  {
    SplitSize(s.files.Keys - StorageKeys(s.stored), Older(s.files, cutoff));
    FilesGone(s, cutoff, now, deleteOrphans);
    Parts(s.files.Keys, Cleaned(s, cutoff, now, deleteOrphans).files.Keys);
  }

  /** The printed counts add up to the sets they split, and what is reported deleted is what is gone. */
  lemma PrintedCountsAddUp(s: Store, cutoff: int, now: int, deleteOrphans: bool)
    ensures var r := Cleaned(s, cutoff, now, deleteOrphans); var p := Printed(s, r, cutoff);
      && p.expiredFiles + p.preservedFiles == |ExpiredKeys(s.imports, cutoff)|
      && p.orphansDeleted == |s.files.Keys| - |r.files.Keys|
      && p.orphansDeleted == (if deleteOrphans then p.orphans - p.recentOrphans else 0)
  {
    PrintedKeys(s, Cleaned(s, cutoff, now, deleteOrphans), cutoff);
    PrintedFiles(s, cutoff, now, deleteOrphans);
  }

  lemma ExpiredStep(imports: seq<Import>, n: nat, cutoff: int, now: int, done: seq<Import>, keys: set<Key>)
    requires n < |imports|
    ensures var row := imports[n]; var rest := imports[n + 1..];
      && done + Expired(imports[n..], cutoff, now)
         == done + [if Stale(row, cutoff) then Expire(row, now) else row] + Expired(rest, cutoff, now)
      && keys + ExpiredKeys(imports[n..], cutoff)
         == (if Stale(row, cutoff) then keys + KeysOf(row) else keys) + ExpiredKeys(rest, cutoff)
      && Count(imports[n..], IsStale(cutoff)) == (if Stale(row, cutoff) then 1 else 0) + Count(rest, IsStale(cutoff))
  {
    assert imports[n..][0] == imports[n] && imports[n..][1..] == imports[n + 1..];
  }

  // ------------------------------------------------------------ nothing still needed is deleted

  lemma {:induction false} ExpiredLookup(imports: seq<Import>, cutoff: int, now: int)
    ensures |Expired(imports, cutoff, now)| == |imports|
    ensures forall i :: 0 <= i < |imports| ==>
      Expired(imports, cutoff, now)[i] == if Stale(imports[i], cutoff) then Expire(imports[i], now) else imports[i]
  {
    if imports != [] {
      ExpiredLookup(imports[1..], cutoff, now);
    }
  }

  /** Not committed, and older than the cutoff. */
  predicate TooOld(i: Import, cutoff: int) {
    i.createdAt < cutoff && i.status in {Pending, Processing, Ready, Failed}
  }

  function IsTooOld(cutoff: int): Import -> bool { (i: Import) => TooOld(i, cutoff) }

  /** The row refers to the key in one of its four columns. */
  predicate RefersTo(i: Import, k: Key) {
    i.temporary == Some(k) || i.normalized == Some(k) || i.cover == Some(k) || i.thumbnail == Some(k)
  }

  /**
    Every import row afterwards. Committed rows and rows not older than the cutoff are as they were. Any other
    has failed and refers to nothing; one that had failed before keeps its error and its time.
  */
  lemma RowsAfterCleaning(s: Store, cutoff: int, now: int, deleteOrphans: bool)
    ensures var r := Cleaned(s, cutoff, now, deleteOrphans).imports;
      && Cleaned(s, cutoff, now, deleteOrphans).stored == s.stored && |r| == |s.imports|
      && (forall n :: 0 <= n < |r| && !TooOld(s.imports[n], cutoff) ==> r[n] == s.imports[n])
      && (forall n :: 0 <= n < |r| && TooOld(s.imports[n], cutoff) ==>
            && r[n].status == Failed && (forall k :: !RefersTo(r[n], k))
            && r[n].createdAt == s.imports[n].createdAt && r[n].sha256 == s.imports[n].sha256
            && (if s.imports[n].status == Failed then
                  r[n].errorCode == s.imports[n].errorCode && r[n].completedAt == s.imports[n].completedAt
                else r[n].errorCode == Some("upload_expired") && r[n].completedAt == Some(now)))
  {
    ExpiredLookup(s.imports, cutoff, now);
  }

  lemma MemberOfRest(imports: seq<Import>, i: Import)
    requires imports != []
    ensures i in imports <==> i == imports[0] || i in imports[1..]
  {
    assert imports == [imports[0]] + imports[1..];
  }

  ghost predicate Referred(imports: seq<Import>, k: Key) { exists i :: i in imports && RefersTo(i, k) }

  ghost predicate ReferredByOld(imports: seq<Import>, cutoff: int, k: Key) {
    exists i :: i in imports && TooOld(i, cutoff) && RefersTo(i, k)
  }

  lemma {:induction false} ExpiredKeysMember(imports: seq<Import>, cutoff: int, k: Key)
    ensures k in ExpiredKeys(imports, cutoff) <==> ReferredByOld(imports, cutoff, k)
  {
    if imports != [] {
      ExpiredKeysMember(imports[1..], cutoff, k);
      forall i ensures i in imports <==> i == imports[0] || i in imports[1..] { MemberOfRest(imports, i); }
      assert k in KeysOf(imports[0]) <==> RefersTo(imports[0], k);
      assert Stale(imports[0], cutoff) <==> TooOld(imports[0], cutoff);
    }
  }

  lemma {:induction false} TemporaryKeysMember(imports: seq<Import>, k: Key)
    ensures k in TemporaryKeys(imports) <==> Referred(imports, k)
  {
    if imports != [] {
      TemporaryKeysMember(imports[1..], k);
      forall i ensures i in imports <==> i == imports[0] || i in imports[1..] { MemberOfRest(imports, i); }
      assert k in KeysOf(imports[0]) <==> RefersTo(imports[0], k);
    }
  }

  /** The keys of the rows that are too old, and the number of these rows. */
  ghost predicate Collected(imports: seq<Import>, cutoff: int, rows: nat, keys: set<Key>) {
    rows == Count(imports, IsTooOld(cutoff)) && forall k :: k in keys <==> ReferredByOld(imports, cutoff, k)
  }

  /** The keys collected are those of the expired rows, and the rows counted are the expired ones. */
  lemma ExpiryCollects(imports: seq<Import>, cutoff: int)
    ensures Collected(imports, cutoff, Count(imports, IsStale(cutoff)), ExpiredKeys(imports, cutoff))
  {
    forall k ensures k in ExpiredKeys(imports, cutoff) <==> ReferredByOld(imports, cutoff, k) {
      ExpiredKeysMember(imports, cutoff, k);
    }
    CountAlike(imports, IsStale(cutoff), IsTooOld(cutoff));
  }

  /**
    Every temporary and permanent object afterwards. Gone are those that expiry dropped and no row refers to
    any more, those older than the cutoff that no row refers to, and with deletion on the permanent files
    older than the cutoff without a row. All others are as they were.
  */
  lemma ObjectsAfterCleaning(s: Store, cutoff: int, now: int, deleteOrphans: bool)
    ensures var r := Cleaned(s, cutoff, now, deleteOrphans);
      && r.temporary.Keys <= s.temporary.Keys && r.files.Keys <= s.files.Keys
      && (forall k :: k in s.temporary ==>
            (k in r.temporary <==>
              Referred(r.imports, k) || (s.temporary[k].mtime >= cutoff && !ReferredByOld(s.imports, cutoff, k))))
      && (forall k :: k in s.files ==>
            (k in r.files <==> Stored(s, k) || s.files[k].mtime >= cutoff || !deleteOrphans))
      && (forall k :: k in r.temporary ==> r.temporary[k] == s.temporary[k])
      && (forall k :: k in r.files ==> r.files[k] == s.files[k])
  {
    var r := Cleaned(s, cutoff, now, deleteOrphans);
    forall k ensures k in TemporaryKeys(r.imports) <==> Referred(r.imports, k) {
      TemporaryKeysMember(r.imports, k);
    }
    ExpiryCollects(s.imports, cutoff);
  }

  ghost predicate Stored(s: Store, k: Key) { exists f :: f in s.stored && f.key == k }

  const SECONDS_PER_HOUR := 60 * 60

  /** More than so many hours old. */
  predicate Aged(time: int, now: int, hours: int) { now - time > hours * SECONDS_PER_HOUR }

  /**
    What a run started with a number of hours takes away, by age in seconds: an unreferenced permanent file,
    when asked to, exactly if it is older than that; an unreferenced temporary object exactly if it is older, or
    an older import gave it up; and no import row that is younger is touched.
  */
  lemma AgeDecides(s: Store, hours: int, now: int, deleteOrphans: bool)
    ensures var r := Cleaned(s, Cutoff(now, hours), now, deleteOrphans);
      && |r.imports| == |s.imports|
      && (forall k :: k in s.files ==>
            (k !in r.files <==> deleteOrphans && !Stored(s, k) && Aged(s.files[k].mtime, now, hours)))
      && (forall k :: k in s.temporary && !Referred(r.imports, k) ==>
            (k !in r.temporary <==>
              Aged(s.temporary[k].mtime, now, hours) || ReferredByOld(s.imports, Cutoff(now, hours), k)))
      && (forall n :: 0 <= n < |s.imports| && !Aged(s.imports[n].createdAt, now, hours) ==>
            r.imports[n] == s.imports[n])
  {
    ObjectsAfterCleaning(s, Cutoff(now, hours), now, deleteOrphans);
    RowsAfterCleaning(s, Cutoff(now, hours), now, deleteOrphans);
  }

  /** Every temporary and permanent object some row still refers to afterwards is left untouched. */
  lemma KeepsReferenced(s: Store, cutoff: int, now: int, deleteOrphans: bool)
    ensures var r := Cleaned(s, cutoff, now, deleteOrphans);
      && (forall k :: k in TemporaryKeys(r.imports) && k in s.temporary ==>
            k in r.temporary && r.temporary[k] == s.temporary[k])
      && (forall k :: k in StorageKeys(s.stored) && k in s.files ==> k in r.files && r.files[k] == s.files[k])
  {}

  lemma {:induction false} RecordedSurvives(imports: seq<Import>, cutoff: int, now: int)
    ensures forall e :: e in AllRecorded(Expired(imports, cutoff, now)) ==>
      e in AllRecorded(imports) && e.0 in TemporaryKeys(Expired(imports, cutoff, now))
  {
    if imports != [] {
      RecordedSurvives(imports[1..], cutoff, now);
      var after := Expired(imports, cutoff, now);
      assert after[1..] == Expired(imports[1..], cutoff, now);
      assert forall e :: e in Recorded(after[0]) ==> e in Recorded(imports[0]) && e.0 in KeysOf(after[0]);
    }
  }

  /** A consistent library stays consistent, whatever the cutoff. */
  lemma KeepsConsistent(s: Store, cutoff: int, now: int, deleteOrphans: bool)
    requires Consistent(s)
    ensures Consistent(Cleaned(s, cutoff, now, deleteOrphans))
  {
    var r := Cleaned(s, cutoff, now, deleteOrphans);
    assert s.files.Keys - StorageKeys(s.stored) == {};
    assert r.files == s.files;
    RecordedSurvives(s.imports, cutoff, now);
    KeepsReferenced(s, cutoff, now, deleteOrphans);
  }

  /** With deletion on, the unexpected files left are exactly the orphans not older than the cutoff. */
  lemma LeavesRecentOrphans(s: Store, cutoff: int, now: int)
    ensures var r := Cleaned(s, cutoff, now, true);
      && r.files.Keys - StorageKeys(r.stored) == (s.files.Keys - StorageKeys(s.stored)) - Older(s.files, cutoff)
      && StorageKeys(r.stored) - r.files.Keys == StorageKeys(s.stored) - s.files.Keys
  {}

  // ------------------------------------------------------------ a second run finds nothing to do

  lemma {:induction false} ExpiredTwice(imports: seq<Import>, cutoff: int, now: int, later: int)
    ensures var once := Expired(imports, cutoff, now);
      Expired(once, cutoff, later) == once && ExpiredKeys(once, cutoff) == {}
  {
    if imports != [] {
      ExpiredTwice(imports[1..], cutoff, now, later);
      assert Expired(imports, cutoff, now)[1..] == Expired(imports[1..], cutoff, now);
    }
  }

  /** Running again with the same cutoff changes nothing at all. */
  lemma CleanedTwice(s: Store, cutoff: int, now: int, later: int, deleteOrphans: bool)
    ensures var once := Cleaned(s, cutoff, now, deleteOrphans);
      Cleaned(once, cutoff, later, deleteOrphans) == once
  {
    var once := Cleaned(s, cutoff, now, deleteOrphans);
    ExpiredTwice(s.imports, cutoff, now, later);
    var remaining := TemporaryKeys(once.imports);
    assert once.temporary - ({} - remaining) == once.temporary;
    assert Older(once.temporary, cutoff) - remaining == {};
    assert once.temporary - {} == once.temporary;
    if deleteOrphans {
      assert (once.files.Keys - StorageKeys(s.stored)) * Older(once.files, cutoff) == {};
      assert once.files - {} == once.files;
    }
  }
}
