/** One open reader page: the refs its handlers reassign, and the save queue they feed. */
module ReaderTabModule {
  import opened Prelude
  import opened ReaderProgress
  import Position = ReaderPosition

  class ReaderTab {
    const sections: seq<string>
    var progressRef: Option<Row>
    var locationRef: Option<Location>
    var conflictRef: Option<nat>
    var saveQueueRef: seq<Task>
    var sending: Option<Patch>

    ghost function View(): Tab
      reads this
    {
      Tab(progressRef, locationRef, conflictRef, saveQueueRef, sending, None)
    }

    /** `loadReader` once the server has answered. */
    constructor (e: Edition, progress: Row)
      ensures View() == Loaded(progress, e) && sections == e.Sections()
      ensures Restored(progress, e).section in sections
    {
      var all := e.Sections();
      var index := Position.InitialSectionIndex(all, Some(progress.location.section), progress.location.overall);
      var selected := all[index];
      var exactLocation := progress.revision == e.revision && progress.location.section == selected;
      sections := all;
      progressRef := Some(progress);
      locationRef := Some(Location(selected, if exactLocation then progress.location.block else None,
                                   progress.location.within, progress.location.overall));
      conflictRef, saveQueueRef, sending := None, [], None;
    }

    /** The location is taken now; the version will be read when the task's turn comes. */
    method Persist(status: Option<Status>, overrideVersion: Option<nat>, overrideLocation: Option<Location>)
      modifies `saveQueueRef
      ensures var snapshot := if overrideLocation.Some? then overrideLocation else locationRef;
        View() == if snapshot.None? then old(View())
                  else Enqueue(old(View()), Task(snapshot.value, status, overrideVersion))
    {
      var snapshot := if overrideLocation.Some? then overrideLocation else locationRef;
      if snapshot.None? {
        return;
      }
      saveQueueRef := saveQueueRef + [Task(snapshot.value, status, overrideVersion)];
    }

    /** A queued task's turn, up to the request. */
    method RunTask()
      requires Enabled(State(None, [View()], [], []), Send(0))
      modifies this
      ensures View() == StartTask(old(View()))
    {
      var task := saveQueueRef[0];
      saveQueueRef := saveQueueRef[1..];
      if progressRef.None? {
        return;
      }
      var expected := if task.override.Some? then task.override.value else progressRef.value.version;
      sending := Some(Patch(task, expected, None));
    }

    /** The request's answer, or its failure. */
    method TaskAnswered(reply: Option<Reply>)
      requires sending.Some?
      modifies this
      ensures View() == EndTask(old(View()), reply)
    {
      sending := None;
      if reply.Some? {
        match reply.value {
          case Saved(row) =>
            progressRef := Some(row);
            conflictRef := None;
          case Conflict(current) =>
            conflictRef := Some(current);
        }
      }
    }

    /**
      The place is the section, the distance scrolled - clamped to what can be scrolled, at least one
      pixel - and a position inside that section's share of the book, from which it is found again.
    */
    method HandleScroll(sectionIndex: nat, block: Option<string>, top: real, height: real, client: real)
      requires sectionIndex < |sections|
      modifies `locationRef
      ensures locationRef.Some?
      ensures var l, n, maximum := locationRef.value, |sections| as real, Position.Max(1.0, height - client);
        && l.section == sections[sectionIndex] && l.block == block
        && 0.0 <= l.within <= 1.0 && l.within * maximum == Position.Min(maximum, Position.Max(0.0, top))
        && l.overall * n == sectionIndex as real + l.within
        && sectionIndex as real / n <= l.overall <= (sectionIndex + 1) as real / n
        && (l.within < 1.0 ==> Position.SectionAt(l.overall * n, |sections|) == sectionIndex)
    {
      var maximum := Position.Max(1.0, height - client);
      var within := Position.Clamp01(top / maximum);
      Position.ScrolledScales(top, maximum);
      Position.OverallWithinSection(sectionIndex, within, |sections|);
      locationRef := Some(Location(
        sections[sectionIndex], block, within, Position.Overall(sectionIndex, within, |sections|)));
    }

    /** Leaving a section first queues the place that is being left. */
    method GoToSection(nextIndex: int) returns (moves: bool)
      modifies `saveQueueRef
      ensures moves <==> 0 <= nextIndex < |sections|
      ensures View() == if moves && locationRef.Some?
                        then Enqueue(old(View()), Task(locationRef.value, None, None)) else old(View())
    {
      moves := 0 <= nextIndex < |sections|;
      if moves {
        Persist(None, None, None);
      }
    }

    /** The rest of `goToSection`, after its save has ended one way or another. */
    method ArriveAtSection(nextIndex: nat)
      requires nextIndex < |sections|
      modifies `locationRef
      ensures locationRef ==
        Some(Location(sections[nextIndex], None, 0.0, Position.Overall(nextIndex, 0.0, |sections|)))
    {
      Position.OverallWithinSection(nextIndex, 0.0, |sections|);
      locationRef := Some(Location(sections[nextIndex], None, 0.0, nextIndex as real / |sections| as real));
    }

    method MarkFinished()
      modifies `locationRef, `saveQueueRef
      ensures View() == if old(locationRef).None? then old(View())
        else var finished := old(locationRef).value.(overall := 1.0);
             Enqueue(old(View()).(location := Some(finished)), Task(finished, Some(Finished), None))
    {
      if locationRef.None? {
        return;
      }
      var finished := locationRef.value.(overall := 1.0);
      locationRef := Some(finished);
      Persist(Some(Finished), None, Some(finished));
    }

    method RestartReading()
      requires sections != []
      modifies `locationRef, `saveQueueRef
      ensures var start := Location(sections[0], None, 0.0, 0.0);
        View() == Enqueue(old(View()).(location := Some(start)), Task(start, Some(Reading), None))
    {
      var start := Location(sections[0], None, 0.0, 0.0);
      locationRef := Some(start);
      Persist(Some(Reading), None, Some(start));
    }
  }
}
