/** What version-checked saving guarantees with any number of tabs, and with one. */
module ReaderTheorems {
  import opened Prelude
  import opened ReaderProgress
  import Position = ReaderPosition

  // ------------------------------------------------------------ no lost update

  /** A row someone received: never newer than the stored one, and the same row at the same version. */
  predicate KnownRow(row: Option<Row>, r: Row) {
    row.Some? && 1 <= r.version <= row.value.version && (r.version == row.value.version ==> r == row.value)
  }

  ghost predicate TabOk(row: Option<Row>, t: Tab) {
    && (t.held.Some? ==> KnownRow(row, t.held.value))
    && (t.opening.Some? ==> KnownRow(row, t.opening.value) && t.held.None? && t.sending.None?)
    && (t.sending.Some? ==>
          var p := t.sending.value;
          && t.held.Some?
          && p.expected == p.task.override.GetOr(t.held.value.version)
          && (match p.reply
              case Some(Saved(r)) => KnownRow(row, r) && t.held.value.version <= r.version
              case Some(Conflict(v)) => row.Some? && t.held.value.version <= v <= row.value.version && v != p.expected
              case None => true))
  }

  /** A request nobody waits for any more says what its tab held when it was sent, which is no newer than now. */
  ghost predicate StrayOk(row: Option<Row>, tabs: seq<Tab>, x: Stray) {
    && x.tab < |tabs|
    && x.seen.Some? && KnownRow(row, x.seen.value)
    && (tabs[x.tab].held.Some? ==> x.seen.value.version <= tabs[x.tab].held.value.version)
    && (tabs[x.tab].opening.Some? ==> x.seen.value.version <= tabs[x.tab].opening.value.version)
    && x.patch.expected == x.patch.task.override.GetOr(x.seen.value.version)
  }

  /** At the end of the book: in its last section, with at most half a percent to go. */
  predicate AtEnd(e: Edition, l: Location) {
    l.section == e.Sections()[|e.Sections()| - 1] && l.overall >= 0.995
  }

  /**
    What a save writes: its own location, for the file now read. A status that is asked for is taken; otherwise
    a finished book stays finished, any other is finished exactly at its end and being read everywhere else.
  */
  ghost predicate Writes(e: Edition, before: Row, after: Row, task: Task) {
    && after.location == task.location && after.revision == e.revision
    && (match task.status
        case Some(asked) => after.status == asked
        case None => after.status == if before.status == Finished || AtEnd(e, task.location) then Finished else Reading)
  }

  /** What opening writes: the start of the book, or no more than that reading has begun. */
  ghost predicate Opens(e: Edition, before: Option<Row>, after: Row) {
    && after.status == Reading
    && (before.None? ==>
          after.location == Location(e.Sections()[0], None, 0.0, 0.0) && after.revision == e.revision)
    && (before.Some? ==>
          && before.value.status == NotStarted
          && after.location == before.value.location && after.revision == before.value.revision)
  }

  /** One change of the row: it moves the version by one, and a save replaces what it was meant to. */
  ghost predicate ChangeOk(e: Edition, c: Change) {
    && c.after.version == (if c.before.Some? then c.before.value.version + 1 else 1)
    && (c.Written? ==>
          && c.before.Some? && Writes(e, c.before.value, c.after, c.task)
          && (if c.task.override.Some? then c.task.override.value == c.before.value.version
              else c.seen == c.before))
    && (c.Opened? ==> Opens(e, c.before, c.after))
  }

  ghost predicate Chain(start: Option<Row>, e: Edition, log: seq<Change>, end: Option<Row>) {
    && (if log == [] then start == end else log[0].before == start && end == Some(log[|log| - 1].after))
    && (forall k :: 0 < k < |log| ==> log[k].before == Some(log[k - 1].after))
    && (forall c :: c in log ==> ChangeOk(e, c))
  }

  ghost predicate Inv(start: Option<Row>, e: Edition, s: State) {
    && (s.row.Some? ==> s.row.value.version >= 1)
    && (forall i :: 0 <= i < |s.tabs| ==> TabOk(s.row, s.tabs[i]))
    && (forall k :: 0 <= k < |s.strays| ==> StrayOk(s.row, s.tabs, s.strays[k]))
    && Chain(start, e, s.log, s.row)
  }

  lemma ChainGrows(start: Option<Row>, e: Edition, log: seq<Change>, end: Option<Row>, c: Change)
    requires Chain(start, e, log, end) && c.before == end && ChangeOk(e, c)
    ensures Chain(start, e, log + [c], Some(c.after))
  {}

  lemma OpenKeepsInv(start: Option<Row>, s: State, e: Edition, i: nat)
    requires Inv(start, e, s) && Enabled(s, Open(i))
    ensures Inv(start, e, OpenTab(s, e, i))
  {
    var r := Opening(s.row, e);
    if s.row != Some(r) { ChainGrows(start, e, s.log, s.row, Opened(s.row, r)); }
  }

  lemma ServeKeepsInv(start: Option<Row>, s: State, e: Edition, i: nat)
    requires Inv(start, e, s) && Enabled(s, Serve(i))
    ensures Inv(start, e, ServeSave(s, e, i))
  {
    var t := s.tabs[i];
    var p := t.sending.value;
    assert TabOk(s.row, t);
    var reply := Save(s.row, e, p.expected, p.task.location, p.task.status);
    if reply.Saved? {
      ChainGrows(start, e, s.log, s.row, Written(s.row, reply.row, i, p.task, t.held));
    }
  }

  lemma ServeStrayKeepsInv(start: Option<Row>, s: State, e: Edition, k: nat)
    requires Inv(start, e, s) && k < |s.strays|
    ensures Inv(start, e, ServeStray(s, e, k))
  {
    var x := s.strays[k];
    var reply := Save(s.row, e, x.patch.expected, x.patch.task.location, x.patch.task.status);
    if reply.Saved? {
      ChainGrows(start, e, s.log, s.row, Written(s.row, reply.row, x.tab, x.patch.task, x.seen));
    }
  }

  /** What the tab holds or is about to hold is no older than before. */
  predicate NoOlder(t: Tab, n: Tab) {
    && (n.opening.Some? ==> n.opening == t.opening)
    && (n.held.Some? ==>
          || (t.held.Some? && t.held.value.version <= n.held.value.version)
          || n.held == t.opening)
  }

  lemma ReplacingTabKeepsInv(start: Option<Row>, e: Edition, s: State, i: nat, t: Tab)
    requires Inv(start, e, s) && i < |s.tabs| && TabOk(s.row, t) && NoOlder(s.tabs[i], t)
    ensures Inv(start, e, SetTab(s, i, t))
  {}

  lemma FailKeepsInv(start: Option<Row>, e: Edition, s: State, i: nat)
    requires Inv(start, e, s) && Enabled(s, Fail(i))
    ensures Inv(start, e, FailSave(s, i))
  {
    var t := s.tabs[i];
    assert TabOk(s.row, t);
    ReplacingTabKeepsInv(start, e, s, i, EndTask(t, None));
    var p := t.sending.value;
    assert p.reply.None? ==> StrayOk(s.row, FailSave(s, i).tabs, Stray(i, p, t.held));
  }

  lemma TabStepKeepsInv(start: Option<Row>, s: State, e: Edition, ev: Event)
    requires Inv(start, e, s) && Enabled(s, ev)
    requires ev.Load? || ev.Move? || ev.Persist? || ev.Send? || ev.Settle?
    ensures Inv(start, e, Next(s, e, ev))
  {
    var t := s.tabs[ev.tab];
    assert TabOk(s.row, t);
    match ev
    case Load(i, heard) => ReplacingTabKeepsInv(start, e, s, i, LoadTab(t, e, heard));
    case Move(i, location) => ReplacingTabKeepsInv(start, e, s, i, t.(location := Some(location)));
    case Persist(i, task) => ReplacingTabKeepsInv(start, e, s, i, Enqueue(t, task));
    case Send(i) => ReplacingTabKeepsInv(start, e, s, i, StartTask(t));
    case Settle(i) => ReplacingTabKeepsInv(start, e, s, i, EndTask(t, t.sending.value.reply));
  }

  lemma StepKeepsInv(start: Option<Row>, s: State, e: Edition, ev: Event)
    requires Inv(start, e, s) && Enabled(s, ev)
    ensures Inv(start, e, Next(s, e, ev))
  {
    match ev
    case Open(i) => OpenKeepsInv(start, s, e, i);
    case Serve(i) => ServeKeepsInv(start, s, e, i);
    case ServeLate(_, k) => ServeStrayKeepsInv(start, s, e, k);
    case Fail(i) => FailKeepsInv(start, e, s, i);
    case _ => TabStepKeepsInv(start, s, e, ev);
  }

  lemma {:induction false} RunKeepsInv(start: Option<Row>, s: State, e: Edition, es: seq<Event>)
    requires Inv(start, e, s) && Valid(s, e, es)
    ensures Inv(start, e, After(s, e, es))
    decreases |es|
  {
    if es != [] {
      StepKeepsInv(start, s, e, es[0]);
      RunKeepsInv(start, Next(s, e, es[0]), e, es[1..]);
    }
  }

  /**
    No lost update. With any number of tabs and any interleaving, lost answers and requests carried out
    after the page gave up on them included, the changes of the row form one chain of versions: each
    ordinary save replaced exactly the row, content and all, that its tab had last received when it was
    sent, and each override exactly the version its notice reported.
  */
  lemma NoLostUpdate(s: State, e: Edition, es: seq<Event>)
    requires Initial(s) && Valid(s, e, es)
    ensures Chain(s.row, e, After(s, e, es).log, After(s, e, es).row)
  {
    forall i | 0 <= i < |s.tabs| ensures TabOk(s.row, s.tabs[i]) {
      assert s.tabs[i] in s.tabs;
    }
    RunKeepsInv(s.row, s, e, es);
  }

  /** A save is accepted exactly for the version stored, or 0 for a row not there yet, and a refusal reports it. */
  lemma SaveAccepts(row: Option<Row>, e: Edition, expected: nat, l: Location, status: Option<Status>)
    ensures var reply := Save(row, e, expected, l, status); var current := if row.Some? then row.value.version else 0;
      if expected != current then reply == Conflict(current)
      else
        && reply.Saved? && reply.row.version == current + 1
        && reply.row.location == l && reply.row.revision == e.revision
        && reply.row.status == (if status.Some? then status.value
                                else if row.Some? && row.value.status == Finished then Finished
                                else if AtEnd(e, l) then Finished else Reading)
  {}

  /** Opening a book already begun changes nothing on the server; the answer is the row as it is then. */
  lemma OpeningAnswers(s: State, e: Edition, i: nat)
    requires Enabled(s, Open(i))
    ensures var r := Next(s, e, Open(i));
      && r.row.Some? && r.tabs[i] == Tab(None, None, None, [], None, r.row)
      && (s.row.Some? && s.row.value.status != NotStarted ==> r.row == s.row && r.log == s.log)
      && (s.row.None? || s.row.value.status == NotStarted ==> r.log == s.log + [Opened(s.row, r.row.value)])
  {}

  // ------------------------------------------------------------ stale tabs stay stale

  /** The tab holds an older version than the server, and what it is sending says so. */
  ghost predicate Behind(s: State, i: nat) {
    && i < |s.tabs| && s.row.Some? && s.tabs[i].held.Some?
    && s.tabs[i].held.value.version < s.row.value.version
    && (s.tabs[i].sending.Some? && s.tabs[i].sending.value.task.override.None? ==>
          && s.tabs[i].sending.value.expected == s.tabs[i].held.value.version
          && !SavedReply(s.tabs[i]))
  }

  predicate SavedReply(t: Tab) {
    t.sending.Some? && t.sending.value.reply.Some? && t.sending.value.reply.value.Saved?
  }

  /** The two ways back: loading the reader again, or the answer to an accepted override. */
  predicate CatchesUp(s: State, ev: Event, i: nat)
    requires Enabled(s, ev)
  {
    ev.tab == i && (ev.Open? || (ev.Settle? && SavedReply(s.tabs[i]) && s.tabs[i].sending.value.task.override.Some?))
  }

  ghost predicate NeverCatchesUp(s: State, e: Edition, es: seq<Event>, i: nat)
    requires Valid(s, e, es)
    decreases |es|
  {
    es == [] || (!CatchesUp(s, es[0], i) && NeverCatchesUp(Next(s, e, es[0]), e, es[1..], i))
  }

  ghost predicate OnlyOverrides(log: seq<Change>, from: nat, i: nat) {
    forall k :: from <= k < |log| && log[k].Written? && log[k].tab == i ==> log[k].task.override.Some?
  }

  lemma BehindStep(s: State, e: Edition, ev: Event, i: nat)
    requires Behind(s, i) && Enabled(s, ev) && !CatchesUp(s, ev, i)
    requires forall j :: 0 <= j < |s.tabs| ==> TabOk(s.row, s.tabs[j])
    requires forall k :: 0 <= k < |s.strays| ==> StrayOk(s.row, s.tabs, s.strays[k])
    ensures Behind(Next(s, e, ev), i)
    ensures s.log <= Next(s, e, ev).log && OnlyOverrides(Next(s, e, ev).log, |s.log|, i)
  {
    assert TabOk(s.row, s.tabs[ev.tab]);
  }

  /**
    A tab that is behind stays behind, and nothing but an override of it is ever accepted, until it
    reloads or an override succeeds.
  */
  lemma {:induction false} StaleStaysStale(start: Option<Row>, s: State, e: Edition, es: seq<Event>, i: nat)
    requires Inv(start, e, s) && Behind(s, i)
    requires Valid(s, e, es) && NeverCatchesUp(s, e, es, i)
    ensures Behind(After(s, e, es), i)
    ensures s.log <= After(s, e, es).log && OnlyOverrides(After(s, e, es).log, |s.log|, i)
    decreases |es|
  {
    if es != [] {
      StepKeepsInv(start, s, e, es[0]);
      BehindStep(s, e, es[0], i);
      StaleStaysStale(start, Next(s, e, es[0]), e, es[1..], i);
    }
  }

  /** A tab starts out behind exactly when the row has moved on while the answer to its opening was on the way. */
  lemma LoadsBehind(start: Option<Row>, s: State, e: Edition, i: nat)
    requires Inv(start, e, s) && Enabled(s, Load(i, true))
    ensures Behind(Next(s, e, Load(i, true)), i) <==> s.tabs[i].opening != s.row
  {
    assert TabOk(s.row, s.tabs[i]);
  }

  /**
    A conflict leaves its tab behind exactly when the row is no longer the one the tab holds. That is so
    whenever the version reported is not the one held, hence after every ordinary save's conflict; an
    override's conflict may report the version held, and then the tab is behind only if the row has moved on.
  */
  lemma ConflictLeavesBehind(start: Option<Row>, s: State, e: Edition, i: nat)
    requires Inv(start, e, s) && Enabled(s, Settle(i)) && s.tabs[i].sending.value.reply.value.Conflict?
    ensures var t := s.tabs[i]; var v := t.sending.value.reply.value.current;
      && (Behind(Next(s, e, Settle(i)), i) <==> t.held != s.row)
      && (v != t.held.value.version ==> t.held != s.row)
      && (t.sending.value.task.override.None? ==> v != t.held.value.version)
      && Next(s, e, Settle(i)).tabs[i].conflict == Some(v)
  {
    assert TabOk(s.row, s.tabs[i]);
  }

  lemma {:induction false} Extend(s: State, e: Edition, es: seq<Event>, ev: Event)
    requires Valid(s, e, es) && Enabled(After(s, e, es), ev)
    ensures Valid(s, e, es + [ev]) && After(s, e, es + [ev]) == Next(After(s, e, es), e, ev)
    decreases |es|
  {
    if es == [] {
      assert [] + [ev] == [ev];
      assert [ev][1..] == [];
    } else {
      assert (es + [ev])[1..] == es[1..] + [ev];
      Extend(Next(s, e, es[0]), e, es[1..], ev);
    }
  }

  lemma RunStep(s: State, e: Edition, es: seq<Event>, k: nat, r: State)
    requires k < |es| && Valid(s, e, es[..k]) && Enabled(After(s, e, es[..k]), es[k])
    requires r == Next(After(s, e, es[..k]), e, es[k])
    ensures Valid(s, e, es[..k + 1]) && After(s, e, es[..k + 1]) == r
  {
    Extend(s, e, es[..k], es[k]);
    assert es[..k + 1] == es[..k] + [es[k]];
  }

  lemma {:induction false} Concatenate(s: State, e: Edition, xs: seq<Event>, ys: seq<Event>)
    requires Valid(s, e, xs) && Valid(After(s, e, xs), e, ys)
    ensures Valid(s, e, xs + ys) && After(s, e, xs + ys) == After(After(s, e, xs), e, ys)
    decreases |xs|
  {
    if xs == [] {
      assert xs + ys == ys;
    } else {
      assert (xs + ys)[1..] == xs[1..] + ys;
      Concatenate(Next(s, e, xs[0]), e, xs[1..], ys);
    }
  }

  function Round(i: nat): seq<Event> { [Send(i), Serve(i), Settle(i)] }

  /** What the row and the tab are once the first queued save of tab i has been carried through to its answer. */
  function Answered(row: Row, e: Edition, t: Tab): (Row, Tab)
    requires t.queue != [] && t.held.Some?
  {
    var task := t.queue[0];
    var reply := Save(Some(row), e, task.override.GetOr(t.held.value.version), task.location, task.status);
    (if reply.Saved? then reply.row else row, EndTask(t.(queue := t.queue[1..]), Some(reply)))
  }

  lemma RunRound(s: State, e: Edition, i: nat) returns (r: State)
    requires i < |s.tabs| && s.row.Some? && s.tabs[i].queue != [] && s.tabs[i].sending.None? && s.tabs[i].held.Some?
    ensures Valid(s, e, Round(i)) && After(s, e, Round(i)) == r
    ensures var (row, t) := Answered(s.row.value, e, s.tabs[i]);
      r == s.(row := Some(row), tabs := s.tabs[i := t], log := r.log)
  {
    var t := s.tabs[i];
    var p := Patch(t.queue[0], t.queue[0].override.GetOr(t.held.value.version), None);
    var sent := t.(queue := t.queue[1..], sending := Some(p));
    var s1 := s.(tabs := s.tabs[i := sent]);
    RunStep(s, e, Round(i), 0, s1);
    var s2 := ServeSave(s1, e, i);
    RunStep(s, e, Round(i), 1, s2);
    r := Next(s2, e, Settle(i));
    RunStep(s, e, Round(i), 2, r);
    assert Round(i)[..3] == Round(i);
  }

  lemma Press(s: State, e: Edition, i: nat, task: Task) returns (r: State)
    requires i < |s.tabs| && s.tabs[i].location == Some(task.location)
    requires task.override.Some? ==> task.override == s.tabs[i].conflict
    ensures Valid(s, e, [Persist(i, task)]) && After(s, e, [Persist(i, task)]) == r
    ensures r == s.(tabs := s.tabs[i := Enqueue(s.tabs[i], task)])
  {
    r := s.(tabs := s.tabs[i := Enqueue(s.tabs[i], task)]);
    assert [Persist(i, task)][1..] == [];
  }

  /** A run that has reached m goes on with more events. */
  lemma Continue(s: State, e: Edition, es: seq<Event>, m: State, more: seq<Event>, r: State) returns (all: seq<Event>)
    requires Valid(s, e, es) && After(s, e, es) == m
    requires Valid(m, e, more) && After(m, e, more) == r
    ensures Valid(s, e, all) && After(s, e, all) == r
  {
    Concatenate(s, e, es, more);
    all := es + more;
  }

  const CLOSED := Tab(None, None, None, [], None, None)

  function TwoTabs(row: Option<Row>): State { State(row, [CLOSED, CLOSED], [], []) }

  /** Both tabs open the edition. */
  lemma OpenBoth(row: Option<Row>, e: Edition) returns (es: seq<Event>, r: State)
    ensures var s := TwoTabs(row); Valid(s, e, es) && After(s, e, es) == r
    ensures var now := Opening(row, e);
      r == State(Some(now), [Loaded(now, e), Loaded(now, e)], [], r.log)
  {
    var s := TwoTabs(row);
    es := [Open(0), Load(0, true), Open(1), Load(1, true)];
    var s1 := OpenTab(s, e, 0);
    RunStep(s, e, es, 0, s1);
    var s2 := Next(s1, e, Load(0, true));
    RunStep(s, e, es, 1, s2);
    var s3 := OpenTab(s2, e, 1);
    RunStep(s, e, es, 2, s3);
    r := Next(s3, e, Load(1, true));
    RunStep(s, e, es, 3, r);
    assert es[..4] == es;
  }

  /** Tab i saves the place it shows, and hears the answer. */
  lemma SaveHere(s: State, e: Edition, i: nat, override: Option<nat>) returns (es: seq<Event>, r: State)
    requires i < |s.tabs| && s.row.Some? && Idle(s.tabs[i]) && s.tabs[i].held.Some? && s.tabs[i].location.Some?
    requires override.Some? ==> override == s.tabs[i].conflict
    ensures Valid(s, e, es) && After(s, e, es) == r
    ensures var reply := Save(s.row, e, override.GetOr(s.tabs[i].held.value.version), s.tabs[i].location.value, None);
      r == s.(row := Some(if reply.Saved? then reply.row else s.row.value),
              tabs := s.tabs[i := EndTask(s.tabs[i], Some(reply))], log := r.log)
  {
    var task := Task(s.tabs[i].location.value, None, override);
    var m := Press(s, e, i, task);
    assert [] + [task] == [task];
    r := RunRound(m, e, i);
    es := Continue(s, e, [Persist(i, task)], m, Round(i), r);
    assert [task][1..] == [];
  }

  /** Tab 1 saves first, so the save of tab 0 conflicts and its notice shows. */
  lemma ReachConflict(row: Option<Row>, e: Edition) returns (es: seq<Event>, r: State)
    ensures var s := TwoTabs(row); Valid(s, e, es) && After(s, e, es) == r
    ensures |r.tabs| == 2 && Idle(r.tabs[0]) && r.row.Some? && r.tabs[0].held.Some? && r.tabs[0].location.Some?
    ensures r.tabs[0].held.value.version < r.row.value.version && r.tabs[0].conflict == Some(r.row.value.version)
  {
    var s := TwoTabs(row);
    var loaded, first, second;
    es, loaded := OpenBoth(row, e);
    var more1, more2;
    more1, first := SaveHere(loaded, e, 1, None);
    es := Continue(s, e, es, loaded, more1, first);
    more2, second := SaveHere(first, e, 0, None);
    es := Continue(s, e, es, first, more2, second);
    r := second;
  }

  /** With the notice showing, the override button is pressed twice before the first answer arrives. */
  lemma PressTwice(s: State, e: Edition) returns (es: seq<Event>, r: State)
    requires |s.tabs| == 2 && Idle(s.tabs[0]) && s.row.Some? && s.tabs[0].held.Some? && s.tabs[0].location.Some?
    requires s.tabs[0].conflict == Some(s.row.value.version)
    ensures Valid(s, e, es) && After(s, e, es) == r
    ensures |r.tabs| == 2 && Idle(r.tabs[0]) && r.row.Some? && r.tabs[0].held == r.row
    ensures r.tabs[0].conflict == Some(r.row.value.version)
  {
    var task := Task(s.tabs[0].location.value, None, s.tabs[0].conflict);
    var press := [Persist(0, task)];
    var once := Press(s, e, 0, task);
    var twice := Press(once, e, 0, task);
    es := Continue(s, e, press, once, press, twice);
    assert [] + [task] + [task] == [task, task];
    var saved := RunRound(twice, e, 0);
    es := Continue(s, e, es, twice, Round(0), saved);
    assert [task, task][1..] == [task];
    r := RunRound(saved, e, 0);
    es := Continue(s, e, es, saved, Round(0), r);
    assert [task][1..] == [];
  }

  /**
    From two closed tabs, whatever row an earlier visit left, a run in which the override button is
    pressed twice leaves a notice on a tab that is up to date: the second override conflicts with the
    first, and the tab's next ordinary save is accepted all the same.
  */
  lemma SecondOverrideConflictsWithFirst(row: Option<Row>, e: Edition) returns (es: seq<Event>, r: State)
    requires row.Some? ==> row.value.version >= 1
    ensures Initial(TwoTabs(row)) && Valid(TwoTabs(row), e, es) && After(TwoTabs(row), e, es) == r
    ensures |r.tabs| == 2 && Idle(r.tabs[0]) && r.row.Some? && r.tabs[0].held == r.row
    ensures r.tabs[0].conflict == Some(r.row.value.version) && !Behind(r, 0)
    ensures forall l, status :: Save(r.row, e, r.tabs[0].held.value.version, l, status).Saved?
  {
    var conflicted, more;
    es, conflicted := ReachConflict(row, e);
    more, r := PressTwice(conflicted, e);
    es := Continue(TwoTabs(row), e, es, conflicted, more, r);
  }

  /** Such a tab exists: while the answer to its opening is on the way, another tab opens and saves. */
  lemma StartsOutBehind(row: Option<Row>, e: Edition) returns (es: seq<Event>, r: State)
    requires row.Some? ==> row.value.version >= 1
    ensures Initial(TwoTabs(row)) && Valid(TwoTabs(row), e, es) && After(TwoTabs(row), e, es) == r
    ensures Behind(r, 0) && r.tabs[0].conflict.None? && Idle(r.tabs[0])
  {
    var s := TwoTabs(row);
    var opens := [Open(0), Open(1), Load(1, true)];
    var s1 := OpenTab(s, e, 0);
    RunStep(s, e, opens, 0, s1);
    var s2 := OpenTab(s1, e, 1);
    RunStep(s, e, opens, 1, s2);
    var s3 := Next(s2, e, Load(1, true));
    RunStep(s, e, opens, 2, s3);
    assert opens[..3] == opens;
    var more, saved := SaveHere(s3, e, 1, None);
    es := Continue(s, e, opens, s3, more, saved);
    Extend(s, e, es, Load(0, true));
    es := es + [Load(0, true)];
    r := Next(saved, e, Load(0, true));
  }

  // ------------------------------------------------------------ loading

  /** Loading shows exactly the saved place when its section is still there and the file is the same. */
  lemma LoadingRestoresPlace(row: Row, e: Edition)
    ensures var r := Restored(row, e);
      && r.section in e.Sections()
      && (row.location.section in e.Sections() ==> r.section == row.location.section)
      && (r == row.location <==>
            row.location.section in e.Sections() && (row.revision == e.revision || row.location.block.None?))
  {
    var i := Position.InitialSectionIndex(e.Sections(), Some(row.location.section), row.location.overall);
    assert 0 <= i < |e.Sections()|;
  }

  // ------------------------------------------------------------ one writer: the queue is sequential

  /** The row after each task in turn is saved against whatever version is current. */
  ghost function Sequential(row: Option<Row>, e: Edition, tasks: seq<Task>): Option<Row>
    decreases |tasks|
  {
    if tasks == [] || row.None? then row
    else
      var t := tasks[0];
      Sequential(Some(SavedRow(row, e, t.location, t.status)), e, tasks[1..])
  }

  function NewTask(ev: Event): seq<Task> { if ev.Persist? then [ev.task] else [] }

  /** The saves a run queues, in order. */
  ghost function Queued(es: seq<Event>): seq<Task> {
    if es == [] then [] else NewTask(es[0]) + Queued(es[1..])
  }

  /** The saves whose turn at the server is still to come, in order. */
  function Ahead(t: Tab): seq<Task> {
    (if t.sending.Some? && t.sending.value.reply.None? then [t.sending.value.task] else []) + t.queue
  }

  predicate Undisturbed(ev: Event) { !ev.Open? && !ev.Fail? }

  /** One open tab that has heard everything it did. */
  ghost predicate Alone(s: State) {
    && |s.tabs| == 1 && s.row.Some? && s.strays == []
    && var t := s.tabs[0];
       && t.held.Some? && t.conflict.None? && t.opening.None?
       && (forall k :: k in t.queue ==> k.override.None?)
       && (if t.sending.Some? then
             && t.sending.value.task.override.None?
             && t.sending.value.expected == t.held.value.version
             && (if t.sending.value.reply.None? then t.held == s.row
                 else t.sending.value.reply == Some(Saved(s.row.value)))
           else t.held == s.row)
  }

  /** A step serves the next save, queues one at the end, or leaves what is ahead alone. */
  lemma AloneStep(s: State, e: Edition, ev: Event)
    requires Alone(s) && Enabled(s, ev) && Undisturbed(ev)
    ensures var r := Next(s, e, ev);
      && Alone(r)
      && (if ev.Serve? then
            && Ahead(s.tabs[0]) != []
            && Ahead(r.tabs[0]) == Ahead(s.tabs[0])[1..]
            && r.row == Sequential(s.row, e, [Ahead(s.tabs[0])[0]])
            && |r.log| == |s.log| + 1 && s.log <= r.log
            && r.log[|s.log|].Written? && r.log[|s.log|].task == Ahead(s.tabs[0])[0]
          else
            && r.row == s.row && r.log == s.log
            && Ahead(r.tabs[0]) == Ahead(s.tabs[0]) + (NewTask(ev)))
  {}

  lemma {:induction false} SequentialConcat(row: Option<Row>, e: Edition, xs: seq<Task>, ys: seq<Task>)
    ensures Sequential(row, e, xs + ys) == Sequential(Sequential(row, e, xs), e, ys)
    decreases |xs|
  {
    if xs == [] {
      assert xs + ys == ys;
    } else if row.Some? {
      assert (xs + ys)[1..] == xs[1..] + ys;
      var t := xs[0];
      SequentialConcat(Some(SavedRow(row, e, t.location, t.status)), e, xs[1..], ys);
    }
  }

  /** The saves recorded in a log, in order. */
  ghost function Saves(log: seq<Change>): seq<Task> {
    if log == [] then [] else SaveIn(log[0]) + Saves(log[1..])
  }

  function SaveIn(c: Change): seq<Task> { if c.Written? then [c.task] else [] }

  lemma {:induction false} SavesConcat(xs: seq<Change>, c: Change)
    ensures Saves(xs + [c]) == Saves(xs) + SaveIn(c)
  {
    if xs == [] {
      assert xs + [c] == [c];
      assert [c][1..] == [];
    } else {
      assert (xs + [c])[0] == xs[0] && (xs + [c])[1..] == xs[1..] + [c];
      SavesConcat(xs[1..], c);
      calc {
        Saves(xs + [c]);
        SaveIn(xs[0]) + Saves(xs[1..] + [c]);
        SaveIn(xs[0]) + (Saves(xs[1..]) + SaveIn(c));
        Saves(xs) + SaveIn(c);
      }
    }
  }

  /** Serving moves the first task ahead from "to come" to "done". */
  lemma ServeMovesFirst(row: Option<Row>, e: Edition, log: seq<Change>, c: Change, ahead: seq<Task>, later: seq<Task>)
    requires ahead != [] && c.Written? && c.task == ahead[0]
    ensures Saves(log + [c]) + ahead[1..] == Saves(log) + ahead
    ensures Sequential(Sequential(row, e, [ahead[0]]), e, ahead[1..] + later) == Sequential(row, e, ahead + later)
  {
    SavesConcat(log, c);
    assert ahead + later == [ahead[0]] + (ahead[1..] + later);
    SequentialConcat(row, e, [ahead[0]], ahead[1..] + later);
  }

  /** One step, seen from the saves queued so far and the saves queued later. */
  lemma QueueStep(s: State, e: Edition, ev: Event, later: seq<Task>)
    requires Alone(s) && Enabled(s, ev) && Undisturbed(ev)
    ensures var n := Next(s, e, ev); var added := NewTask(ev);
      && Alone(n)
      && Saves(n.log) + Ahead(n.tabs[0]) == Saves(s.log) + Ahead(s.tabs[0]) + added
      && Sequential(n.row, e, Ahead(n.tabs[0]) + later) == Sequential(s.row, e, Ahead(s.tabs[0]) + (added + later))
  {
    var n := Next(s, e, ev);
    AloneStep(s, e, ev);
    var ahead := Ahead(s.tabs[0]);
    if ev.Serve? {
      var c := n.log[|s.log|];
      assert n.log == s.log + [c];
      ServeMovesFirst(s.row, e, s.log, c, ahead, later);
      assert [] + later == later;
    } else {
      var added := NewTask(ev);
      assert ahead + added + later == ahead + (added + later);
    }
  }

  lemma {:induction false} QueueSimulation(s: State, e: Edition, es: seq<Event>)
    requires Alone(s) && Valid(s, e, es) && forall ev :: ev in es ==> Undisturbed(ev)
    ensures var r := After(s, e, es);
      && Alone(r)
      && Saves(r.log) + Ahead(r.tabs[0]) == Saves(s.log) + Ahead(s.tabs[0]) + Queued(es)
      && Sequential(r.row, e, Ahead(r.tabs[0])) == Sequential(s.row, e, Ahead(s.tabs[0]) + Queued(es))
    decreases |es|
  {
    if es == [] {
      assert Ahead(s.tabs[0]) + [] == Ahead(s.tabs[0]);
    } else {
      assert forall ev :: ev in es[1..] ==> ev in es;
      var n := Next(s, e, es[0]);
      var added := NewTask(es[0]);
      QueueStep(s, e, es[0], Queued(es[1..]));
      QueueSimulation(n, e, es[1..]);
      SameTotal(Saves(s.log) + Ahead(s.tabs[0]), added, Queued(es[1..]));
    }
  }

  lemma SameTotal(xs: seq<Task>, ys: seq<Task>, zs: seq<Task>)
    ensures xs + ys + zs == xs + (ys + zs)
  {}

  lemma {:induction false} SequentialEndsWithLast(row: Option<Row>, e: Edition, tasks: seq<Task>)
    requires row.Some?
    ensures var r := Sequential(row, e, tasks);
      && r.Some? && r.value.version == row.value.version + |tasks|
      && (tasks != [] ==> r.value.location == tasks[|tasks| - 1].location && r.value.revision == e.revision)
    decreases |tasks|
  {
    if tasks != [] {
      var t := tasks[0];
      SequentialEndsWithLast(Some(SavedRow(row, e, t.location, t.status)), e, tasks[1..]);
    }
  }

  /** The task leaves the book finished, whatever it was before. */
  predicate Finishes(e: Edition, t: Task) {
    t.status == Some(Finished) || (t.status.None? && AtEnd(e, t.location))
  }

  /** The task leaves a finished book finished. */
  predicate KeepsFinished(t: Task) { t.status.None? || t.status == Some(Finished) }

  /** Some task finishes the book, or it was finished before, and none after that asks for another status. */
  ghost predicate EndsFinished(e: Edition, row: Row, tasks: seq<Task>) {
    || (row.status == Finished && forall j :: 0 <= j < |tasks| ==> KeepsFinished(tasks[j]))
    || (exists k :: 0 <= k < |tasks| && Finishes(e, tasks[k])
          && forall j :: k < j < |tasks| ==> KeepsFinished(tasks[j]))
  }

  lemma EndsFinishedFrom(e: Edition, row: Row, next: Row, tasks: seq<Task>)
    requires tasks != []
    requires next.status == Finished <==>
      Finishes(e, tasks[0]) || (row.status == Finished && KeepsFinished(tasks[0]))
    ensures EndsFinished(e, row, tasks) <==> EndsFinished(e, next, tasks[1..])
  {
    var rest := tasks[1..];
    assert forall j :: 0 <= j < |rest| ==> rest[j] == tasks[j + 1];
    assert forall j :: 1 <= j < |tasks| ==> tasks[j] == rest[j - 1];
    if k :| 0 <= k < |rest| && Finishes(e, rest[k]) && forall j :: k < j < |rest| ==> KeepsFinished(rest[j]) {
      assert Finishes(e, tasks[k + 1]);
    }
    if k :| 0 <= k < |tasks| && Finishes(e, tasks[k]) && forall j :: k < j < |tasks| ==> KeepsFinished(tasks[j]) {
      if k > 0 { assert Finishes(e, rest[k - 1]); }
    }
  }

  /** The book ends up finished exactly under that condition. */
  lemma {:induction false} SequentialFinishes(row: Row, e: Edition, tasks: seq<Task>)
    ensures var r := Sequential(Some(row), e, tasks);
      r.Some? && (r.value.status == Finished <==> EndsFinished(e, row, tasks))
    decreases |tasks|
  {
    if tasks != [] {
      var t := tasks[0];
      var next := SavedRow(Some(row), e, t.location, t.status);
      SequentialFinishes(next, e, tasks[1..]);
      EndsFinishedFrom(e, row, next, tasks);
    }
  }

  /**
    With one tab and every save answered, queued saving is the sequential writer: no conflict is ever
    raised, saves are served in the order they were queued, and once the queue has drained the row is
    what saving them one by one gives: the last location queued, and finished exactly if some save finished
    the book, or it was finished before, and none after that asked for another status.
  */
  lemma QueueRefinesSequentialWriter(s: State, e: Edition, es: seq<Event>)
    requires |s.tabs| == 1 && s.row.Some? && s.tabs[0] == Loaded(s.row.value, e) && s.strays == [] && s.log == []
    requires Valid(s, e, es) && forall ev :: ev in es ==> Undisturbed(ev)
    ensures var r := After(s, e, es); var tasks := Queued(es);
      && |r.tabs| == 1 && r.row.Some? && r.tabs[0].conflict.None?
      && Saves(r.log) + Ahead(r.tabs[0]) == tasks
      && (Idle(r.tabs[0]) ==>
            && r.row == Sequential(s.row, e, tasks) == r.tabs[0].held
            && Saves(r.log) == tasks
            && r.row.value.version == s.row.value.version + |tasks|
            && (tasks != [] ==>
                  r.row.value.location == tasks[|tasks| - 1].location && r.row.value.revision == e.revision)
            && (r.row.value.status == Finished <==> EndsFinished(e, s.row.value, tasks)))
  {
    assert Ahead(s.tabs[0]) == [];
    QueueSimulation(s, e, es);
    assert [] + Queued(es) == Queued(es);
    SequentialEndsWithLast(s.row, e, Queued(es));
    SequentialFinishes(s.row.value, e, Queued(es));
  }
}
