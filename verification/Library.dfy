/** The rows and the two file trees that the collector and the integrity audit both look at. */
module Library {
  import opened Prelude

  type Key = nat
  type Checksum = nat

  datatype StoredFile = StoredFile(key: Key, sha256: Checksum)

  datatype ImportStatus = Pending | Processing | Ready | Succeeded | Failed

  datatype Import = Import(
    status: ImportStatus, createdAt: int,
    temporary: Option<Key>, normalized: Option<Key>, cover: Option<Key>, thumbnail: Option<Key>,
    sha256: Option<Checksum>, errorCode: Option<string>, completedAt: Option<int>)

  datatype File = File(mtime: int, checksum: Checksum)

  datatype Store = Store(
    stored: seq<StoredFile>, imports: seq<Import>, files: map<Key, File>, temporary: map<Key, File>)

  function AsSet(k: Option<Key>): set<Key> { if k.Some? then {k.value} else {} }

  /** The temporary objects an import row refers to. */
  function KeysOf(i: Import): set<Key> {
    AsSet(i.temporary) + AsSet(i.normalized) + AsSet(i.cover) + AsSet(i.thumbnail)
  }

  function TemporaryKeys(imports: seq<Import>): set<Key> {
    if imports == [] then {} else KeysOf(imports[0]) + TemporaryKeys(imports[1..])
  }

  function StorageKeys(stored: seq<StoredFile>): set<Key> { set f <- stored :: f.key }

  /** uq_stored_files_storage_key. */
  ghost predicate UniqueKeys(stored: seq<StoredFile>) {
    forall i, j :: 0 <= i < j < |stored| ==> stored[i].key != stored[j].key
  }

  // ------------------------------------------------------------ consistency

  /** What one import row records about the temporary objects it refers to, column by column. */
  function Recorded(i: Import): seq<(Key, Option<Checksum>)> {
    Entry(i.temporary, i.sha256) + Entry(i.normalized, None) + Entry(i.cover, None) + Entry(i.thumbnail, None)
  }

  function Entry(k: Option<Key>, c: Option<Checksum>): seq<(Key, Option<Checksum>)> {
    if k.Some? then [(k.value, c)] else []
  }

  function AllRecorded(imports: seq<Import>): seq<(Key, Option<Checksum>)> {
    if imports == [] then [] else Recorded(imports[0]) + AllRecorded(imports[1..])
  }

  predicate Present(files: map<Key, File>, k: Key, c: Option<Checksum>) {
    k in files && (c.Some? ==> files[k].checksum == c.value)
  }

  /** Rows and permanent files correspond one to one, with the recorded checksums. */
  ghost predicate PermanentOk(s: Store) {
    && StorageKeys(s.stored) == s.files.Keys
    && (forall f :: f in s.stored ==> Present(s.files, f.key, Some(f.sha256)))
  }

  /** Nothing the database says about files is wrong, and no permanent file is unaccounted for. */
  ghost predicate Consistent(s: Store) {
    && PermanentOk(s)
    && (forall e :: e in AllRecorded(s.imports) ==> Present(s.temporary, e.0, e.1))
  }
}
