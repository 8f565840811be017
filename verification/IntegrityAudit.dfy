/** The library integrity audit: accumulating loops, and what their verdict means. */
module IntegrityAudit {
  import opened Prelude
  import opened Library

  datatype Report = Report(
    databaseFiles: nat, physicalFiles: nat, referencedTemporary: nat,
    missingFiles: nat, unexpectedFiles: nat, checksumMismatches: nat,
    missingTemporary: nat, temporaryMismatches: nat)
  {
    predicate Consistent() {
      missingFiles == 0 && unexpectedFiles == 0 && checksumMismatches == 0
      && missingTemporary == 0 && temporaryMismatches == 0
    }
  }

  type Recordings = map<Key, Option<Checksum>>

  /** A dictionary filled in order: a later recording replaces an earlier one for the same key. */
  function Filled(entries: seq<(Key, Option<Checksum>)>): (d: Recordings)
    ensures forall e :: e in entries ==> e.0 in d
  {
    if entries == [] then map[]
    else
      var last := entries[|entries| - 1];
      assert entries == entries[..|entries| - 1] + [last];
      Filled(entries[..|entries| - 1])[last.0 := last.1]
  }

  predicate Mismatched(files: map<Key, File>, f: StoredFile) {
    f.key in files && files[f.key].checksum != f.sha256
  }

  function HasMismatch(files: map<Key, File>): StoredFile -> bool { (f: StoredFile) => Mismatched(files, f) }

  function MissingTemporary(d: Recordings, files: map<Key, File>): set<Key> {
    set k | k in d && k !in files
  }

  function WrongTemporary(d: Recordings, files: map<Key, File>): set<Key> {
    set k | k in d && k in files && d[k].Some? && files[k].checksum != d[k].value
  }

  lemma FilledConcat(xs: seq<(Key, Option<Checksum>)>, k: Key, c: Option<Checksum>)
    ensures Filled(xs + [(k, c)]) == Filled(xs)[k := c]
  {
    assert (xs + [(k, c)])[..|xs|] == xs;
  }

  lemma {:induction false} AllRecordedConcat(imports: seq<Import>, i: Import)
    ensures AllRecorded(imports + [i]) == AllRecorded(imports) + Recorded(i)
  {
    if imports == [] {
      assert [] + [i] == [i];
      assert [i][1..] == [];
    } else {
      assert (imports + [i])[1..] == imports[1..] + [i];
      AllRecordedConcat(imports[1..], i);
    }
  }

  method Record(d: Recordings, ghost done: seq<(Key, Option<Checksum>)>, k: Option<Key>, c: Option<Checksum>)
    returns (r: Recordings)
    requires d == Filled(done)
    ensures r == Filled(done + Entry(k, c))
  {
    if k.Some? {
      FilledConcat(done, k.value, c);
      return d[k.value := c];
    }
    assert done + [] == done;
    return d;
  }

  lemma RecordedInOrder(done: seq<(Key, Option<Checksum>)>, i: Import)
    ensures done + Entry(i.temporary, i.sha256) + Entry(i.normalized, None) + Entry(i.cover, None)
          + Entry(i.thumbnail, None) == done + Recorded(i)
  {}

  method RecordImport(d: Recordings, ghost done: seq<(Key, Option<Checksum>)>, i: Import) returns (r: Recordings)
    requires d == Filled(done)
    ensures r == Filled(done + Recorded(i))
  {
    ghost var sofar := done + Entry(i.temporary, i.sha256);
    r := Record(d, done, i.temporary, i.sha256);
    r := Record(r, sofar, i.normalized, None);
    sofar := sofar + Entry(i.normalized, None);
    r := Record(r, sofar, i.cover, None);
    sofar := sofar + Entry(i.cover, None);
    r := Record(r, sofar, i.thumbnail, None);
    RecordedInOrder(done, i);
  }

  method RecordAll(imports: seq<Import>) returns (checksums: Recordings)
    ensures checksums == Filled(AllRecorded(imports))
  {
    checksums := map[];
    for n := 0 to |imports|
      invariant checksums == Filled(AllRecorded(imports[..n]))
    {
      AllRecordedConcat(imports[..n], imports[n]);
      assert imports[..n + 1] == imports[..n] + [imports[n]];
      checksums := RecordImport(checksums, AllRecorded(imports[..n]), imports[n]);
    }
    assert imports[..|imports|] == imports;
  }

  /** Each counter as the size of a set or a count that needs no loop. */
  ghost function ReportOf(s: Store): Report {
    var d := Filled(AllRecorded(s.imports));
    Report(|StorageKeys(s.stored)|, |s.files|, |d|,
           |StorageKeys(s.stored) - s.files.Keys|, |s.files.Keys - StorageKeys(s.stored)|,
           Count(s.stored, HasMismatch(s.files)),
           |MissingTemporary(d, s.temporary)|, |WrongTemporary(d, s.temporary)|)
  }

  /** `integrity_audit` over the rows and the listing taken at one moment. */
  method Audit(s: Store) returns (r: Report)
    ensures r == ReportOf(s)
  {
    var databaseKeys := StorageKeys(s.stored);
    var missing := databaseKeys - s.files.Keys;
    var mismatches := CountMismatches(s.stored, s.files, missing);
    var checksums := RecordAll(s.imports);
    var missingTemporary, wrongTemporary := CheckTemporary(checksums, s.temporary);
    r := Report(|databaseKeys|, |s.files|, |checksums|, |missing|, |s.files.Keys - databaseKeys|,
                mismatches, missingTemporary, wrongTemporary);
  }

  method CountMismatches(stored: seq<StoredFile>, files: map<Key, File>, missing: set<Key>) returns (n: nat)
    requires missing == StorageKeys(stored) - files.Keys
    ensures n == Count(stored, HasMismatch(files))
  {
    n := 0;
    ghost var p := HasMismatch(files);
    for i := 0 to |stored|
      invariant n == Count(stored[..i], p)
    {
      assert stored[i].key in StorageKeys(stored);
      if stored[i].key !in missing {
        if files[stored[i].key].checksum != stored[i].sha256 {
          n := n + 1;
        }
      }
      assert stored[..i + 1] == stored[..i] + [stored[i]];
      CountConcat(stored[..i], [stored[i]], p);
    }
    assert stored[..|stored|] == stored;
  }

  method CheckTemporary(d: Recordings, files: map<Key, File>) returns (missing: nat, wrong: nat)
    ensures missing == |MissingTemporary(d, files)| && wrong == |WrongTemporary(d, files)|
  {
    missing, wrong := 0, 0;
    var todo := d.Keys;
    ghost var m, w := MissingTemporary(d, files), WrongTemporary(d, files);
    while todo != {}
      invariant todo <= d.Keys
      invariant m <= todo && forall k :: k in todo ==> (k in m <==> k !in files)
      invariant w <= todo && forall k :: k in todo ==> (k in w <==> k in WrongTemporary(d, files))
      invariant missing + |m| == |MissingTemporary(d, files)|
      invariant wrong + |w| == |WrongTemporary(d, files)|
      decreases |todo|
    {
      var k :| k in todo;
      todo := todo - {k};
      if k !in files {
        missing := missing + 1;
        m := m - {k};
      } else if d[k].Some? && files[k].checksum != d[k].value {
        wrong := wrong + 1;
        w := w - {k};
      }
    }
  }

  // ------------------------------------------------------------ what the verdict means

  /** Missing and unexpected files account exactly for the gap between the two counts. */
  lemma CountsBalance(s: Store)
    ensures var r := ReportOf(s);
      r.databaseFiles - r.missingFiles == r.physicalFiles - r.unexpectedFiles
  {
    var a, b := StorageKeys(s.stored), s.files.Keys;
    SplitSize(a, b);
    SplitSize(b, a);
    assert a * b == b * a;
  }

  /** The last recording of each key holds. */
  ghost predicate LastRecordingsHold(s: Store) {
    var d := Filled(AllRecorded(s.imports));
    forall k :: k in d ==> Present(s.temporary, k, d[k])
  }

  lemma ConsistentReportHolds(s: Store)
    requires ReportOf(s).Consistent()
    ensures PermanentOk(s) && LastRecordingsHold(s)
  {
    var d := Filled(AllRecorded(s.imports));
    CountZero(s.stored, HasMismatch(s.files));
    assert StorageKeys(s.stored) - s.files.Keys == {} && s.files.Keys - StorageKeys(s.stored) == {};
    forall f | f in s.stored ensures Present(s.files, f.key, Some(f.sha256)) {
      assert f.key in StorageKeys(s.stored);
      assert !HasMismatch(s.files)(f);
    }
    forall k | k in d ensures Present(s.temporary, k, d[k]) {
      assert k !in MissingTemporary(d, s.temporary) && k !in WrongTemporary(d, s.temporary);
    }
  }

  lemma HoldingReportsConsistent(s: Store)
    requires PermanentOk(s) && LastRecordingsHold(s)
    ensures ReportOf(s).Consistent()
  {
    var d := Filled(AllRecorded(s.imports));
    assert MissingTemporary(d, s.temporary) == {} && WrongTemporary(d, s.temporary) == {};
    assert StorageKeys(s.stored) - s.files.Keys == {} && s.files.Keys - StorageKeys(s.stored) == {};
    forall i | 0 <= i < |s.stored| ensures !HasMismatch(s.files)(s.stored[i]) {
      assert Present(s.files, s.stored[i].key, Some(s.stored[i].sha256));
    }
    CountZero(s.stored, HasMismatch(s.files));
  }

  lemma VerdictIsLastRecordings(s: Store)
    ensures ReportOf(s).Consistent() <==> PermanentOk(s) && LastRecordingsHold(s)
  {
    if ReportOf(s).Consistent() {
      ConsistentReportHolds(s);
    }
    if PermanentOk(s) && LastRecordingsHold(s) {
      HoldingReportsConsistent(s);
    }
  }

  lemma {:induction false} FilledFromEntries(entries: seq<(Key, Option<Checksum>)>, k: Key)
    ensures k in Filled(entries) <==> exists e :: e in entries && e.0 == k
    ensures k in Filled(entries) ==> (k, Filled(entries)[k]) in entries
    decreases |entries|
  {
    if entries != [] {
      var n := |entries| - 1;
      FilledFromEntries(entries[..n], k);
      assert entries == entries[..n] + [entries[n]];
    }
  }

  /** No recorded checksum is hidden by a later recording of the same key. */
  ghost predicate NothingMasked(imports: seq<Import>) {
    forall e :: e in AllRecorded(imports) && e.1.Some? ==> Filled(AllRecorded(imports))[e.0] == e.1
  }

  lemma ConsistentImpliesVerdict(s: Store)
    requires Consistent(s)
    ensures ReportOf(s).Consistent()
  {
    var d := Filled(AllRecorded(s.imports));
    forall k | k in d ensures Present(s.temporary, k, d[k]) {
      FilledFromEntries(AllRecorded(s.imports), k);
    }
    VerdictIsLastRecordings(s);
  }

  lemma VerdictImpliesConsistent(s: Store)
    requires ReportOf(s).Consistent() && NothingMasked(s.imports)
    ensures Consistent(s)
  {
    VerdictIsLastRecordings(s);
    forall e | e in AllRecorded(s.imports) ensures Present(s.temporary, e.0, e.1) {
      FilledFromEntries(AllRecorded(s.imports), e.0);
    }
  }

  /** The permanent files exactly as the rows record them. */
  ghost function FilesFor(stored: seq<StoredFile>): (r: map<Key, File>)
    ensures r.Keys == StorageKeys(stored)
    decreases |stored|
  {
    if stored == [] then map[]
    else
      assert stored == [stored[0]] + stored[1..];
      FilesFor(stored[1..])[stored[0].key := File(0, stored[0].sha256)]
  }

  lemma {:induction false} FilesForMatch(stored: seq<StoredFile>)
    requires UniqueKeys(stored)
    ensures forall f :: f in stored ==> Present(FilesFor(stored), f.key, Some(f.sha256))
    decreases |stored|
  {
    if stored != [] {
      var rest := stored[1..];
      assert forall i :: 0 <= i < |rest| ==> rest[i] == stored[i + 1];
      FilesForMatch(rest);
      forall f | f in stored ensures Present(FilesFor(stored), f.key, Some(f.sha256)) {
        if f in rest {
          var i :| 0 <= i < |rest| && rest[i] == f;
          assert stored[0].key != stored[i + 1].key;
        }
      }
    }
  }

  /** Storage that satisfies every last recording and contradicts the masked one. */
  lemma MaskedRecordingFoolsAudit(stored: seq<StoredFile>, imports: seq<Import>) returns (s: Store)
    requires UniqueKeys(stored) && !NothingMasked(imports)
    ensures s.stored == stored && s.imports == imports
    ensures ReportOf(s).Consistent() && !Consistent(s)
  {
    var entries := AllRecorded(imports);
    var d := Filled(entries);
    var e :| e in entries && e.1.Some? && d[e.0] != e.1;
    FilledFromEntries(entries, e.0);
    s := Store(stored, imports, FilesFor(stored),
               map k | k in d :: File(0, d[k].GetOr(e.1.value + 1)));
    FilesForMatch(stored);
    assert PermanentOk(s);
    VerdictIsLastRecordings(s);
    assert !Present(s.temporary, e.0, e.1);
  }

  /**
    The audit's verdict agrees with consistency for every possible content of the storage exactly
    when no import row's checksum is masked by a later recording of the same temporary key.
  */
  lemma AuditExactIffNothingMasked(stored: seq<StoredFile>, imports: seq<Import>)
    requires UniqueKeys(stored)
    ensures NothingMasked(imports)
       <==> forall s: Store | s.stored == stored && s.imports == imports :: ReportOf(s).Consistent() <==> Consistent(s)
  {
    if NothingMasked(imports) {
      forall s: Store | s.stored == stored && s.imports == imports
        ensures ReportOf(s).Consistent() <==> Consistent(s)
      {
        if Consistent(s) { ConsistentImpliesVerdict(s); }
        if ReportOf(s).Consistent() { VerdictImpliesConsistent(s); }
      }
    } else {
      var s := MaskedRecordingFoolsAudit(stored, imports);
    }
  }

  /** In particular when every temporary key is recorded once. */
  lemma DistinctKeysMaskNothing(imports: seq<Import>)
    requires var es := AllRecorded(imports); forall i, j :: 0 <= i < j < |es| ==> es[i].0 != es[j].0
    ensures NothingMasked(imports)
  {
    var es := AllRecorded(imports);
    forall i | 0 <= i < |es| && es[i].1.Some? ensures Filled(es)[es[i].0] == es[i].1 {
      OneRecordingPerKey(es, i);
    }
  }

  lemma OneRecordingPerKey(es: seq<(Key, Option<Checksum>)>, i: nat)
    requires i < |es| && forall j, k :: 0 <= j < k < |es| ==> es[j].0 != es[k].0
    ensures Filled(es)[es[i].0] == es[i].1
  {
    var key := es[i].0;
    FilledFromEntries(es, key);
    var j :| 0 <= j < |es| && es[j] == (key, Filled(es)[key]);
    assert es[j].0 == es[i].0;
    assert i == j;
  }
}
