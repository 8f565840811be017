/** What the two interleaved collectors do to imports and references, beside not deleting what is needed. */
module RaceOutcomes {
  import C = CollectorRaces
  import T = TemporaryRaces

  // ------------------------------------------------------------ imports

  predicate IsGone(s: C.State, w: C.Id) { C.InPhase(s, w, C.Gone) && w !in s.rows }

  /** Rows exist only for writers that have committed. */
  ghost predicate RowsCommitted(s: C.State) {
    forall w :: w in s.rows ==> C.InPhase(s, w, C.Committed)
  }

  lemma StepKeepsGone(l: C.Limits, s: C.State, e: C.Event, w: C.Id)
    requires C.Enabled(l, s, e) && IsGone(s, w)
    ensures IsGone(C.Next(l, s, e), w)
  {}

  /** A writer that has failed or expired never commits. */
  lemma {:induction false} GoneForGood(l: C.Limits, s: C.State, es: seq<C.Event>, w: C.Id)
    requires C.Valid(l, s, es) && IsGone(s, w)
    ensures IsGone(C.After(l, s, es), w)
    decreases |es|
  {
    if es != [] {
      StepKeepsGone(l, s, es[0], w);
      GoneForGood(l, C.Next(l, s, es[0]), es[1..], w);
    }
  }

  /** The writer waits unlocked for its commit, and is older than the cutoff. */
  predicate Expires(s: C.State, w: C.Id)
    requires s.collector.Started?
  {
    C.InPhase(s, w, C.Uploaded) && s.writers[w].createdAt < s.collector.cutoff
  }

  /**
    Expiry turns away exactly the imports that are unlocked, uncommitted and older than the cutoff: they never
    get a row in any later run, and every other writer goes on where it was.
  */
  lemma ExpiryTurnsAway(l: C.Limits, s: C.State, es: seq<C.Event>, w: C.Id)
    requires s.collector.Started? && RowsCommitted(s) && w < |s.writers|
    requires C.Valid(l, C.Next(l, s, C.ExpireStale), es)
    ensures var r := C.Next(l, s, C.ExpireStale);
      && |r.writers| == |s.writers| && r.files == s.files && r.rows == s.rows
      && (if Expires(s, w) then IsGone(C.After(l, r, es), w) else r.writers[w] == s.writers[w])
  {
    if Expires(s, w) {
      GoneForGood(l, C.Next(l, s, C.ExpireStale), es, w);
    }
  }

  /** A writer whose file was deleted before the stamp finds out, and never commits. */
  lemma StampNeedsFile(l: C.Limits, s: C.State, w: C.Id, es: seq<C.Event>)
    requires C.Enabled(l, s, C.Stamp(w)) && RowsCommitted(s) && C.Valid(l, C.Next(l, s, C.Stamp(w)), es)
    ensures var r := C.Next(l, s, C.Stamp(w));
      if w in s.files then C.InPhase(r, w, C.Stamped(s.clock)) && r.files == s.files[w := s.clock]
      else r.files == s.files && IsGone(C.After(l, r, es), w)
  {
    if w !in s.files {
      GoneForGood(l, C.Next(l, s, C.Stamp(w)), es, w);
    }
  }

  lemma StepKeepsRowsCommitted(l: C.Limits, s: C.State, e: C.Event)
    requires C.Enabled(l, s, e) && RowsCommitted(s)
    ensures RowsCommitted(C.Next(l, s, e))
  {}

  lemma {:induction false} RunKeepsRowsCommitted(l: C.Limits, s: C.State, es: seq<C.Event>)
    requires C.Valid(l, s, es) && RowsCommitted(s)
    ensures RowsCommitted(C.After(l, s, es))
    decreases |es|
  {
    if es != [] {
      StepKeepsRowsCommitted(l, s, es[0]);
      RunKeepsRowsCommitted(l, C.Next(l, s, es[0]), es[1..]);
    }
  }

  // ------------------------------------------------------------ temporary objects

  predicate Deletes(e: T.Event, o: T.Id) { e == T.Unlink(o) || e == T.Purge(o) || e == T.Sweep(o) }

  lemma NamesStep(l: T.Limits, s: T.State, e: T.Event, o: T.Id)
    requires T.Enabled(l, s, e) && o < |s.objects|
    ensures |s.objects| <= |T.Next(l, s, e).objects|
    ensures o in T.Next(l, s, e).names <==> o in s.names && !Deletes(e, o)
  {}

  /** A temporary object stays exactly until it is unlinked, purged or swept, and never comes back. */
  lemma {:induction false} NamesLeft(l: T.Limits, s: T.State, es: seq<T.Event>, o: T.Id)
    requires T.Valid(l, s, es) && o < |s.objects|
    ensures o in T.After(l, s, es).names <==> o in s.names && forall e :: e in es ==> !Deletes(e, o)
    decreases |es|
  {
    if es != [] {
      NamesStep(l, s, es[0], o);
      NamesLeft(l, T.Next(l, s, es[0]), es[1..], o);
      assert es == [es[0]] + es[1..];
    }
  }

  /** The object's import row has existed for longer than the grace period. */
  predicate RowAged(l: T.Limits, s: T.State, o: T.Id)
    requires o < |s.objects|
  {
    s.objects[o].row < |s.rows| && s.rows[s.objects[o].row] < s.clock - l.hours
  }

  predicate Refers(s: T.State, o: T.Id) { o < |s.objects| && s.objects[o].phase == T.Referenced }

  ghost predicate CutoffPast(l: T.Limits, s: T.State) {
    s.collector.Started? ==> s.collector.cutoff + l.hours <= s.clock
  }

  lemma ReferenceStep(l: T.Limits, s: T.State, e: T.Event, o: T.Id)
    requires T.Enabled(l, s, e) && CutoffPast(l, s) && o < |s.objects|
    ensures var r := T.Next(l, s, e);
      && CutoffPast(l, r) && o < |r.objects| && r.objects[o].row == s.objects[o].row
      && (RowAged(l, s, o) ==> RowAged(l, r, o))
      && (Refers(s, o) && e != T.Release(o) ==> Refers(r, o) || RowAged(l, r, o))
  {}

  /**
    A reference is lost only by being released, or because its import row is older than the grace period,
    whatever the collector and other inspections do meanwhile.
  */
  lemma {:induction false} ReferenceKept(l: T.Limits, s: T.State, es: seq<T.Event>, o: T.Id)
    requires T.Valid(l, s, es) && CutoffPast(l, s) && o < |s.objects|
    requires (Refers(s, o) || RowAged(l, s, o)) && T.Release(o) !in es
    ensures var r := T.After(l, s, es); o < |r.objects| && (Refers(r, o) || RowAged(l, r, o))
    decreases |es|
  {
    if es != [] {
      ReferenceStep(l, s, es[0], o);
      ReferenceKept(l, T.Next(l, s, es[0]), es[1..], o);
    }
  }

  /** Expiry clears exactly the references of old rows that nobody holds locked, and no other object changes. */
  lemma ExpiryClears(l: T.Limits, s: T.State, skipped: set<nat>, o: T.Id)
    requires s.collector.Started? && o < |s.objects|
    ensures var r := T.Next(l, s, T.ExpireStale(skipped)); var row := s.objects[o].row;
      && |r.objects| == |s.objects| && r.names == s.names
      && (if Refers(s, o) && row < |s.rows| && s.rows[row] < s.collector.cutoff && row !in skipped
          then r.objects[o] == s.objects[o].(phase := T.Released) else r.objects[o] == s.objects[o])
  {}
}
