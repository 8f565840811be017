/**
  The collector against concurrent writers. A writer locks its import, links the uploaded object into
  permanent storage (which at first shows the upload's own age), stamps it with the current time, and
  later commits the row. The collector fixes its cutoff, expires unlocked imports, reads the
  referenced keys, walks the files twice, one file at a time, and then deletes, one file at a time.
*/
module CollectorRaces {
  type Id = nat   // one writer, and the random key its file gets

  datatype Phase =
    | Uploaded              // previewed, not yet being committed
    | Locked                // the import row is held for update
    | Linked                // the permanent name exists, with the upload's modification time
    | Stamped(at: int)      // the permanent file carries this time
    | Committed
    | Removed               // the row has been deleted again
    | Gone                  // expired, failed or rolled back

  datatype Writer = Writer(createdAt: int, uploadedAt: int, phase: Phase)

  datatype Collector =
    | Off
    | Started(cutoff: int)
    | Expired(cutoff: int)
    | Listing(cutoff: int, referenced: set<Id>, physical: set<Id>)
    | Aging(cutoff: int, referenced: set<Id>, physical: set<Id>, aged: set<Id>)
    | Deleting(cutoff: int, todo: set<Id>)

  datatype State = State(clock: int, writers: seq<Writer>, files: map<Id, int>, rows: set<Id>, collector: Collector)

  datatype Event =
    | Tick(ticks: nat)
    | Upload(createdAt: int, uploadedAt: int)
    | Lock(w: Id)
    | Link(w: Id)
    | Stamp(w: Id)
    | Commit(w: Id)
    | Abort(w: Id)
    | RemoveRow(w: Id)
    | Unlink(w: Id)
    | StartCollector
    | ExpireStale
    | ReadReferenced
    | SeeFile(w: Id)
    | EndListing
    | SeeAge(w: Id)
    | EndAging
    | Delete(w: Id)
    | Finish

  /**
    `hours` is the collector's grace period, `delay` bounds the age of an upload when it is stamped, and
    `commit` the time from the stamp to the commit of the row.
  */
  datatype Limits = Limits(hours: nat, delay: nat, commit: nat)
  {
    /** Both steps of a writer fit into the grace period. */
    predicate Prompt() { delay <= hours && commit <= hours }
  }

  predicate InPhase(s: State, w: Id, p: Phase) { w < |s.writers| && s.writers[w].phase == p }

  predicate Enabled(l: Limits, s: State, e: Event) {
    match e
    case Tick(_) => true
    case Upload(c, u) => c <= u <= s.clock
    case Lock(w) => InPhase(s, w, Uploaded)
    case Link(w) => InPhase(s, w, Locked)
    case Stamp(w) => InPhase(s, w, Linked) && s.clock <= s.writers[w].uploadedAt + l.delay
    case Commit(w) => w < |s.writers| && s.writers[w].phase.Stamped? && s.clock <= s.writers[w].phase.at + l.commit
    case Abort(w) =>
      w < |s.writers| && (s.writers[w].phase in {Uploaded, Locked, Linked} || s.writers[w].phase.Stamped?)
    case RemoveRow(w) => InPhase(s, w, Committed)
    case Unlink(w) => InPhase(s, w, Removed)
    case StartCollector => s.collector.Off?
    case ExpireStale => s.collector.Started?
    case ReadReferenced => s.collector.Expired?
    case SeeFile(w) => s.collector.Listing? && w in s.files
    case EndListing => s.collector.Listing?
    case SeeAge(w) => s.collector.Aging? && w in s.files && s.files[w] < s.collector.cutoff
    case EndAging => s.collector.Aging?
    case Delete(w) => s.collector.Deleting? && w in s.collector.todo
    case Finish => s.collector.Deleting?
  }

  function SetPhase(s: State, w: Id, p: Phase): State
    requires w < |s.writers|
  {
    s.(writers := s.writers[w := s.writers[w].(phase := p)])
  }

  /** Rows that a writer holds locked are skipped. */
  function ExpireWriters(ws: seq<Writer>, cutoff: int): (r: seq<Writer>)
    ensures |r| == |ws|
    ensures forall i :: 0 <= i < |ws| ==>
      r[i] == if ws[i].phase == Uploaded && ws[i].createdAt < cutoff then ws[i].(phase := Gone) else ws[i]
  {
    seq(|ws|, i requires 0 <= i < |ws| =>
      if ws[i].phase == Uploaded && ws[i].createdAt < cutoff then ws[i].(phase := Gone) else ws[i])
  }

  function Next(l: Limits, s: State, e: Event): State
    requires Enabled(l, s, e)
  {
    match e
    case Tick(n) => s.(clock := s.clock + n)
    case Upload(c, u) => s.(writers := s.writers + [Writer(c, u, Uploaded)])
    case Lock(w) => SetPhase(s, w, Locked)
    case Link(w) => SetPhase(s, w, Linked).(files := s.files[w := s.writers[w].uploadedAt])
    case Stamp(w) =>
      if w in s.files then SetPhase(s, w, Stamped(s.clock)).(files := s.files[w := s.clock])
      else SetPhase(s, w, Gone)
    case Commit(w) => SetPhase(s, w, Committed).(rows := s.rows + {w})
    case Abort(w) => SetPhase(s, w, Gone).(files := s.files - {w})
    case RemoveRow(w) => SetPhase(s, w, Removed).(rows := s.rows - {w})
    case Unlink(w) => s.(files := s.files - {w})
    case StartCollector => s.(collector := Started(s.clock - l.hours))
    case ExpireStale =>
      s.(writers := ExpireWriters(s.writers, s.collector.cutoff), collector := Expired(s.collector.cutoff))
    case ReadReferenced => s.(collector := Listing(s.collector.cutoff, s.rows, {}))
    case SeeFile(w) => s.(collector := Listing(s.collector.cutoff, s.collector.referenced, s.collector.physical + {w}))
    case EndListing => s.(collector := Aging(s.collector.cutoff, s.collector.referenced, s.collector.physical, {}))
    case SeeAge(w) => s.(collector := s.collector.(aged := s.collector.aged + {w}))
    case EndAging =>
      s.(collector := Deleting(s.collector.cutoff, (s.collector.physical - s.collector.referenced) * s.collector.aged))
    case Delete(w) =>
      s.(files := s.files - {w}, collector := s.collector.(todo := s.collector.todo - {w}))
    case Finish => s.(collector := Off)
  }

  ghost predicate Valid(l: Limits, s: State, es: seq<Event>)
    decreases |es|
  {
    es == [] || (Enabled(l, s, es[0]) && Valid(l, Next(l, s, es[0]), es[1..]))
  }

  ghost function After(l: Limits, s: State, es: seq<Event>): State
    requires Valid(l, s, es)
    decreases |es|
  {
    if es == [] then s else After(l, Next(l, s, es[0]), es[1..])
  }

  function Begin(clock: int): State { State(clock, [], map[], {}, Off) }

  /** No committed row ever refers to a file that is not there. */
  predicate NoFileMissing(s: State) { s.rows <= s.files.Keys }

  // ------------------------------------------------------------ why an early enough stamp is safe

  /** The file of a writer that can still commit, or has, is there and shows the time it should. */
  ghost predicate WriterOk(l: Limits, s: State, w: Id)
    requires w < |s.writers|
  {
    var p := s.writers[w].phase;
    && (w in s.rows <==> p == Committed)
    && (p in {Uploaded, Locked} ==> w !in s.files)
    && (p == Linked && w in s.files ==> s.files[w] == s.writers[w].uploadedAt)
    && (p.Stamped? ==> p.at <= s.clock && if w in s.files then s.files[w] == p.at else p.at + l.hours < s.clock)
    && (p == Committed ==> w in s.files)
  }

  /** Its writer can no longer turn this file into a committed one. */
  ghost predicate Hopeless(s: State, cutoff: int, w: Id) {
    && w < |s.writers| && w !in s.rows
    && var p := s.writers[w].phase;
       && p !in {Uploaded, Locked, Committed}
       && (p == Linked ==> s.writers[w].uploadedAt < cutoff)
       && (p.Stamped? ==> p.at < cutoff)
  }

  ghost predicate CollectorOk(l: Limits, s: State) {
    match s.collector
    case Off => true
    case Started(cutoff) => cutoff + l.hours <= s.clock
    case Expired(cutoff) => cutoff + l.hours <= s.clock
    case Listing(cutoff, referenced, _) =>
      cutoff + l.hours <= s.clock && LateRowsAreYoung(s, cutoff, referenced)
    case Aging(cutoff, referenced, _, aged) =>
      && cutoff + l.hours <= s.clock && LateRowsAreYoung(s, cutoff, referenced)
      && (forall w :: w in aged && w !in referenced ==> Hopeless(s, cutoff, w))
    case Deleting(cutoff, todo) =>
      cutoff + l.hours <= s.clock && (forall w :: w in todo ==> Hopeless(s, cutoff, w))
  }

  /** A row that appeared after the references were read belongs to a file newer than the cutoff. */
  ghost predicate LateRowsAreYoung(s: State, cutoff: int, referenced: set<Id>) {
    forall w :: w in s.rows && w !in referenced ==> w in s.files && cutoff <= s.files[w]
  }

  ghost predicate Inv(l: Limits, s: State) {
    && (forall w :: 0 <= w < |s.writers| ==> WriterOk(l, s, w))
    && (forall w :: w in s.rows || w in s.files ==> w < |s.writers|)
    && CollectorOk(l, s)
  }

  predicate WriterEvent(e: Event) {
    e.Lock? || e.Link? || e.Stamp? || e.Commit? || e.Abort? || e.RemoveRow? || e.Unlink?
  }

  lemma WriterStepWriters(l: Limits, s: State, e: Event)
    requires l.Prompt() && Inv(l, s) && Enabled(l, s, e) && WriterEvent(e)
    ensures forall w :: 0 <= w < |s.writers| ==> WriterOk(l, Next(l, s, e), w)
  {
    forall w | 0 <= w < |s.writers| ensures WriterOk(l, Next(l, s, e), w) {
      assert WriterOk(l, s, w);
    }
  }

  lemma WriterStepHopeless(l: Limits, s: State, e: Event, cutoff: int, w: Id)
    requires l.Prompt() && Inv(l, s) && Enabled(l, s, e) && WriterEvent(e)
    requires cutoff + l.hours <= s.clock && Hopeless(s, cutoff, w)
    ensures Hopeless(Next(l, s, e), cutoff, w)
  {
    assert WriterOk(l, s, w);
  }

  lemma WriterStepLateRows(l: Limits, s: State, e: Event, cutoff: int, referenced: set<Id>)
    requires l.Prompt() && Inv(l, s) && Enabled(l, s, e) && WriterEvent(e)
    requires cutoff + l.hours <= s.clock && LateRowsAreYoung(s, cutoff, referenced)
    ensures LateRowsAreYoung(Next(l, s, e), cutoff, referenced)
  {
    assert WriterOk(l, s, e.w);
    forall w | w in s.rows ensures WriterOk(l, s, w) {}
  }

  lemma WriterStepKeepsInv(l: Limits, s: State, e: Event)
    requires l.Prompt() && Inv(l, s) && Enabled(l, s, e) && WriterEvent(e)
    ensures Inv(l, Next(l, s, e))
  {
    var r := Next(l, s, e);
    WriterStepWriters(l, s, e);
    match s.collector
    case Listing(cutoff, referenced, _) =>
      WriterStepLateRows(l, s, e, cutoff, referenced);
    case Aging(cutoff, referenced, _, aged) =>
      WriterStepLateRows(l, s, e, cutoff, referenced);
      forall w | w in aged && w !in referenced ensures Hopeless(r, cutoff, w) {
        WriterStepHopeless(l, s, e, cutoff, w);
      }
    case Deleting(cutoff, todo) =>
      forall w | w in todo ensures Hopeless(r, cutoff, w) {
        WriterStepHopeless(l, s, e, cutoff, w);
      }
    case _ =>
  }

  lemma CollectorStepWriters(l: Limits, s: State, e: Event)
    requires Inv(l, s) && Enabled(l, s, e) && !WriterEvent(e)
    ensures forall w :: 0 <= w < |Next(l, s, e).writers| ==> WriterOk(l, Next(l, s, e), w)
  {
    forall w | 0 <= w < |Next(l, s, e).writers| ensures WriterOk(l, Next(l, s, e), w) {
      if w < |s.writers| { assert WriterOk(l, s, w); }
    }
  }

  lemma CollectorStepKeepsInv(l: Limits, s: State, e: Event)
    requires Inv(l, s) && Enabled(l, s, e) && !WriterEvent(e)
    ensures Inv(l, Next(l, s, e))
  {
    CollectorStepWriters(l, s, e);
    if e.SeeAge? {
      assert WriterOk(l, s, e.w);
    }
  }

  lemma {:induction false} RunKeepsInv(l: Limits, s: State, es: seq<Event>)
    requires l.Prompt() && Inv(l, s) && Valid(l, s, es)
    ensures Inv(l, After(l, s, es))
    decreases |es|
  {
    if es != [] {
      if WriterEvent(es[0]) {
        WriterStepKeepsInv(l, s, es[0]);
      } else {
        CollectorStepKeepsInv(l, s, es[0]);
      }
      RunKeepsInv(l, Next(l, s, es[0]), es[1..]);
    }
  }

  lemma SafeWhenStampedInTime(l: Limits, clock: int, es: seq<Event>)
    requires l.Prompt() && Valid(l, Begin(clock), es)
    ensures NoFileMissing(After(l, Begin(clock), es))
  {
    RunKeepsInv(l, Begin(clock), es);
    var r := After(l, Begin(clock), es);
    forall w | w in r.rows ensures w in r.files {
      assert WriterOk(l, r, w);
    }
  }

  // ------------------------------------------------------------ and why a later one is not

  lemma {:induction false} Extend(l: Limits, s: State, es: seq<Event>, e: Event)
    requires Valid(l, s, es) && Enabled(l, After(l, s, es), e)
    ensures Valid(l, s, es + [e]) && After(l, s, es + [e]) == Next(l, After(l, s, es), e)
    decreases |es|
  {
    if es == [] {
      assert [] + [e] == [e];
      assert [e][1..] == [];
    } else {
      assert (es + [e])[1..] == es[1..] + [e];
      Extend(l, Next(l, s, es[0]), es[1..], e);
    }
  }

  /** One more step of a run that has reached m. */
  lemma Then(l: Limits, es: seq<Event>, m: State, e: Event, r: State) returns (more: seq<Event>)
    requires Valid(l, Begin(0), es) && After(l, Begin(0), es) == m
    requires Enabled(l, m, e) && r == Next(l, m, e)
    ensures Valid(l, Begin(0), more) && After(l, Begin(0), more) == r
  {
    Extend(l, Begin(0), es, e);
    more := es + [e];
  }

  /** One writer, whose upload dates from time 0. */
  function One(clock: int, p: Phase, files: map<Id, int>, rows: set<Id>, c: Collector): State {
    State(clock, [Writer(0, 0, p)], files, rows, c)
  }

  /** The collector starts one tick after the grace period and finds nothing to expire. */
  lemma StartAndExpire(l: Limits, es: seq<Event>, s: State) returns (more: seq<Event>)
    requires Valid(l, Begin(0), es) && After(l, Begin(0), es) == s
    requires s.collector.Off? && s.clock == l.hours + 1
    requires forall w :: w in s.writers ==> w.phase != Uploaded
    ensures Valid(l, Begin(0), more) && After(l, Begin(0), more) == s.(collector := Expired(1))
  {
    more := Then(l, es, s, StartCollector, s.(collector := Started(1)));
    assert ExpireWriters(s.writers, 1) == s.writers;
    more := Then(l, more, s.(collector := Started(1)), ExpireStale, s.(collector := Expired(1)));
  }

  lemma RaceUntilLinked(l: Limits) returns (es: seq<Event>)
    requires l.hours < l.delay
    ensures Valid(l, Begin(0), es)
    ensures After(l, Begin(0), es) == One(l.hours + 1, Linked, map[0 := 0], {}, Expired(1))
  {
    var h := l.hours;
    es := Then(l, [], Begin(0), Upload(0, 0), One(0, Uploaded, map[], {}, Off));
    es := Then(l, es, One(0, Uploaded, map[], {}, Off), Tick(h + 1), One(h + 1, Uploaded, map[], {}, Off));
    es := Then(l, es, One(h + 1, Uploaded, map[], {}, Off), Lock(0), One(h + 1, Locked, map[], {}, Off));
    var linked := One(h + 1, Linked, map[0 := 0], {}, Off);
    es := Then(l, es, One(h + 1, Locked, map[], {}, Off), Link(0), linked);
    es := StartAndExpire(l, es, linked);
  }

  /** The collector reads no reference to the one file, lists it, and finds it old. */
  lemma CollectAged(l: Limits, es: seq<Event>, s: State) returns (more: seq<Event>)
    requires Valid(l, Begin(0), es) && After(l, Begin(0), es) == s.(collector := Expired(1))
    requires s.files == map[0 := 0] && s.rows == {}
    ensures Valid(l, Begin(0), more)
    ensures After(l, Begin(0), more) == s.(collector := Aging(1, {}, {0}, {0}))
  {
    var none: set<Id> := {};
    assert none + {0} == {0};
    more := Then(l, es, s.(collector := Expired(1)), ReadReferenced, s.(collector := Listing(1, {}, {})));
    more := Then(l, more, s.(collector := Listing(1, {}, {})), SeeFile(0), s.(collector := Listing(1, {}, {0})));
    more := Then(l, more, s.(collector := Listing(1, {}, {0})), EndListing, s.(collector := Aging(1, {}, {0}, {})));
    more := Then(l, more, s.(collector := Aging(1, {}, {0}, {})), SeeAge(0), s.(collector := Aging(1, {}, {0}, {0})));
  }

  lemma RaceUntilAged(l: Limits) returns (es: seq<Event>)
    requires l.hours < l.delay
    ensures Valid(l, Begin(0), es)
    ensures After(l, Begin(0), es) == One(l.hours + 1, Linked, map[0 := 0], {}, Aging(1, {}, {0}, {0}))
  {
    es := RaceUntilLinked(l);
    es := CollectAged(l, es, One(l.hours + 1, Linked, map[0 := 0], {}, Expired(1)));
  }

  /**
    The collector sees the linked file while it still shows the upload's age, the writer stamps it and
    commits at once, and the collector then deletes it.
  */
  lemma CommittedFileDeleted(l: Limits) returns (es: seq<Event>)
    requires l.hours < l.delay
    ensures Valid(l, Begin(0), es) && !NoFileMissing(After(l, Begin(0), es))
  {
    var h := l.hours;
    var aged := Aging(1, {}, {0}, {0});
    es := RaceUntilAged(l);
    var none: set<Id> := {};
    assert ({0} - none) * {0} == {0} && {0} - {0} == none && none + {0} == {0};
    var stamped := One(h + 1, Stamped(h + 1), map[0 := h + 1], {}, aged);
    es := Then(l, es, One(h + 1, Linked, map[0 := 0], {}, aged), Stamp(0), stamped);
    es := Then(l, es, stamped, EndAging, stamped.(collector := Deleting(1, {0})));
    var committed := One(h + 1, Committed, map[0 := h + 1], {0}, Deleting(1, {0}));
    es := Then(l, es, stamped.(collector := Deleting(1, {0})), Commit(0), committed);
    var lost := One(h + 1, Committed, map[], {0}, Deleting(1, {}));
    assert committed.files - {0} == lost.files;
    es := Then(l, es, committed, Delete(0), lost);
    assert 0 in lost.rows;
  }

  // ------------------------------------------------------------ nor is a late commit

  /** The writer stamps at once and then waits until the collector takes its file for an old orphan. */
  lemma LateUntilWaiting(l: Limits) returns (es: seq<Event>)
    ensures Valid(l, Begin(0), es)
    ensures After(l, Begin(0), es) == One(l.hours + 1, Stamped(0), map[0 := 0], {}, Off)
  {
    var stamped := One(0, Stamped(0), map[0 := 0], {}, Off);
    es := Then(l, [], Begin(0), Upload(0, 0), One(0, Uploaded, map[], {}, Off));
    es := Then(l, es, One(0, Uploaded, map[], {}, Off), Lock(0), One(0, Locked, map[], {}, Off));
    es := Then(l, es, One(0, Locked, map[], {}, Off), Link(0), One(0, Linked, map[0 := 0], {}, Off));
    es := Then(l, es, One(0, Linked, map[0 := 0], {}, Off), Stamp(0), stamped);
    es := Then(l, es, stamped, Tick(l.hours + 1), stamped.(clock := l.hours + 1));
  }

  lemma LateUntilAged(l: Limits) returns (es: seq<Event>)
    ensures Valid(l, Begin(0), es)
    ensures After(l, Begin(0), es) == One(l.hours + 1, Stamped(0), map[0 := 0], {}, Aging(1, {}, {0}, {0}))
  {
    var waiting := One(l.hours + 1, Stamped(0), map[0 := 0], {}, Off);
    es := LateUntilWaiting(l);
    es := StartAndExpire(l, es, waiting);
    es := CollectAged(l, es, waiting);
  }

  /** A commit later than the grace period refers to a file that is already deleted. */
  lemma LateCommitLosesFile(l: Limits) returns (es: seq<Event>)
    requires l.hours < l.commit
    ensures Valid(l, Begin(0), es) && !NoFileMissing(After(l, Begin(0), es))
  {
    var aged := One(l.hours + 1, Stamped(0), map[0 := 0], {}, Aging(1, {}, {0}, {0}));
    es := LateUntilAged(l);
    var none: set<Id> := {};
    assert ({0} - none) * {0} == {0} && {0} - {0} == none && none + {0} == {0};
    es := Then(l, es, aged, EndAging, aged.(collector := Deleting(1, {0})));
    var deleted := aged.(collector := Deleting(1, {}), files := map[]);
    assert aged.files - {0} == map[];
    es := Then(l, es, aged.(collector := Deleting(1, {0})), Delete(0), deleted);
    var lost := One(l.hours + 1, Committed, map[], {0}, Deleting(1, {}));
    es := Then(l, es, deleted, Commit(0), lost);
    assert 0 in lost.rows;
  }

  /** No run of collectors and writers ever leaves a committed row without its file. */
  ghost predicate NeverLosesFiles(l: Limits) {
    forall clock: int, es: seq<Event> :: Valid(l, Begin(clock), es) ==> NoFileMissing(After(l, Begin(clock), es))
  }

  /**
    The collector is safe in all interleavings exactly when no upload is older than the grace period
    by the time it is stamped and no commit follows its stamp by more than the grace period.
  */
  lemma GracePeriodSafety(l: Limits)
    ensures NeverLosesFiles(l) <==> l.delay <= l.hours && l.commit <= l.hours
  {
    if l.Prompt() {
      forall clock: int, es: seq<Event> | Valid(l, Begin(clock), es)
        ensures NoFileMissing(After(l, Begin(clock), es))
      {
        SafeWhenStampedInTime(l, clock, es);
      }
    } else if l.hours < l.delay {
      var es := CommittedFileDeleted(l);
      assert Valid(l, Begin(0), es);
    } else {
      var es := LateCommitLosesFile(l);
      assert Valid(l, Begin(0), es);
    }
  }
}
