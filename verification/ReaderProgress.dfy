/**
  Version-checked saving of the reading position: one server row per reader and edition, and any
  number of open tabs, each with its own promise-chain queue of saves.
*/
module ReaderProgress {
  import opened Prelude
  import Position = ReaderPosition

  datatype Status = NotStarted | Reading | Finished

  datatype Location = Location(section: string, block: Option<string>, within: real, overall: real)

  /** `revision` is the file revision the location belongs to. */
  datatype Row = Row(version: nat, location: Location, status: Status, revision: nat)

  /** The publication: its section ids, of which there is at least one, and its file revision. */
  datatype Edition = Edition(first: string, others: seq<string>, revision: nat)
  {
    function Sections(): seq<string> { [first] + others }

    function Last(): string { Sections()[|others|] }
  }

  datatype Reply = Saved(row: Row) | Conflict(current: nat)

  /** `override` is the version shown in the conflict notice when its button was pressed. */
  datatype Task = Task(location: Location, status: Option<Status>, override: Option<nat>)

  datatype Patch = Patch(task: Task, expected: nat, reply: Option<Reply>)

  /**
    `held` is progressRef, `queue` the part of saveQueueRef not yet started; `opening` is the row that the
    answer to an `openReader` call still on its way reports.
  */
  datatype Tab = Tab(
    held: Option<Row>, location: Option<Location>, conflict: Option<nat>,
    queue: seq<Task>, sending: Option<Patch>, opening: Option<Row>)

  /** History: every change of the row, and which save of which tab made it. */
  datatype Change =
    | Opened(before: Option<Row>, after: Row)
    | Written(before: Option<Row>, after: Row, tab: nat, task: Task, seen: Option<Row>)

  /** A request the page has given up on and the server may still carry out; `seen` is what the tab held. */
  datatype Stray = Stray(tab: nat, patch: Patch, seen: Option<Row>)

  datatype State = State(row: Option<Row>, tabs: seq<Tab>, strays: seq<Stray>, log: seq<Change>)

  datatype Event =
    | Open(tab: nat)
    | Load(tab: nat, heard: bool)
    | Move(tab: nat, location: Location)
    | Persist(tab: nat, task: Task)
    | Send(tab: nat)
    | Serve(tab: nat)
    | Settle(tab: nat)
    | Fail(tab: nat)
    | ServeLate(tab: nat, index: nat)

  // ------------------------------------------------------------ the server

  function SavedStatus(current: Option<Status>, e: Edition, location: Location, requested: Option<Status>): Status {
    if requested.Some? then requested.value
    else if current == Some(Finished) then Finished
    else if location.section == e.Last() && location.overall >= 0.995 then Finished
    else Reading
  }

  function SavedRow(row: Option<Row>, e: Edition, location: Location, status: Option<Status>): Row {
    match row
    case None => Row(1, location, SavedStatus(None, e, location, status), e.revision)
    case Some(r) => Row(r.version + 1, location, SavedStatus(Some(r.status), e, location, status), e.revision)
  }

  /** `ReaderService.save_progress` on the locked row. */
  function Save(row: Option<Row>, e: Edition, expected: nat, location: Location, status: Option<Status>): Reply {
    var current := if row.Some? then row.value.version else 0;
    if current != expected then Conflict(current) else Saved(SavedRow(row, e, location, status))
  }

  /** `ReaderService.open`: creates the row, or moves it off "not started". */
  function Opening(row: Option<Row>, e: Edition): Row {
    match row
    case None => Row(1, Location(e.first, None, 0.0, 0.0), Reading, e.revision)
    case Some(r) => if r.status == NotStarted then Row(r.version + 1, r.location, Reading, r.revision) else r
  }

  // ------------------------------------------------------------ one tab

  function Enqueue(t: Tab, task: Task): Tab { t.(queue := t.queue + [task]) }

  /** The start of a queued task: the version is read now, the location was taken when it was queued. */
  function StartTask(t: Tab): Tab
    requires t.queue != []
  {
    var task := t.queue[0];
    t.(queue := t.queue[1..],
       sending := if t.held.None? then None
                  else Some(Patch(task, task.override.GetOr(t.held.value.version), None)))
  }

  /** The end of a task; a failure other than a conflict changes nothing but the status line. */
  function EndTask(t: Tab, reply: Option<Reply>): Tab {
    match reply
    case Some(Saved(row)) => t.(held := Some(row), conflict := None, sending := None)
    case Some(Conflict(v)) => t.(conflict := Some(v), sending := None)
    case None => t.(sending := None)
  }

  /** `loadReader`: the section to show, and the block only if section and file are still the saved ones. */
  function Restored(row: Row, e: Edition): Location {
    var index := Position.InitialSectionIndex(e.Sections(), Some(row.location.section), row.location.overall);
    var section := if 0 <= index < |e.Sections()| then e.Sections()[index] else e.first;
    var exact := row.revision == e.revision && row.location.section == section;
    Location(section, if exact then row.location.block else None, row.location.within, row.location.overall)
  }

  function Loaded(row: Row, e: Edition): Tab { Tab(Some(row), Some(Restored(row, e)), None, [], None, None) }

  // ------------------------------------------------------------ steps

  predicate Idle(t: Tab) { t.queue == [] && t.sending.None? && t.opening.None? }

  predicate Enabled(s: State, ev: Event) {
    && ev.tab < |s.tabs|
    && var t := s.tabs[ev.tab];
       match ev
       case Open(_) => Idle(t)
       case Load(_, _) => t.opening.Some?
       case Move(_, _) => t.location.Some?
       case Persist(_, task) =>
         t.location == Some(task.location) && (task.override.Some? ==> task.override == t.conflict)
       case Send(_) => t.queue != [] && t.sending.None?
       case Serve(_) => t.sending.Some? && t.sending.value.reply.None?
       case Settle(_) => t.sending.Some? && t.sending.value.reply.Some?
       case Fail(_) => t.sending.Some?
       case ServeLate(i, k) => k < |s.strays| && s.strays[k].tab == i
  }

  function SetTab(s: State, i: nat, t: Tab): State
    requires i < |s.tabs|
  {
    s.(tabs := s.tabs[i := t])
  }

  function ServeSave(s: State, e: Edition, i: nat): State
    requires Enabled(s, Serve(i))
  {
    var t := s.tabs[i];
    var p := t.sending.value;
    var reply := Save(s.row, e, p.expected, p.task.location, p.task.status);
    var r := SetTab(s, i, t.(sending := Some(p.(reply := Some(reply)))));
    if reply.Saved? then
      r.(row := Some(reply.row), log := s.log + [Written(s.row, reply.row, i, p.task, t.held)])
    else r
  }

  /** The refs are cleared and the server handles the request; its answer is still on the way. */
  function OpenTab(s: State, e: Edition, i: nat): State
    requires i < |s.tabs|
  {
    var row := Opening(s.row, e);
    s.(row := Some(row), tabs := s.tabs[i := Tab(None, None, None, [], None, Some(row))],
       log := if s.row == Some(row) then s.log else s.log + [Opened(s.row, row)])
  }

  /** The answer arrives, or an error does and the tab shows nothing. */
  function LoadTab(t: Tab, e: Edition, heard: bool): Tab
    requires t.opening.Some?
  {
    if heard then Loaded(t.opening.value, e) else t.(opening := None)
  }

  /** The page sees an error; a request the server has not handled yet stays on the network. */
  function FailSave(s: State, i: nat): State
    requires Enabled(s, Fail(i))
  {
    var t := s.tabs[i];
    var p := t.sending.value;
    SetTab(s, i, EndTask(t, None)).(strays := if p.reply.None? then s.strays + [Stray(i, p, t.held)] else s.strays)
  }

  /** The server carries out such a request after all; nobody hears the answer. */
  function ServeStray(s: State, e: Edition, k: nat): State
    requires k < |s.strays|
  {
    var x := s.strays[k];
    var reply := Save(s.row, e, x.patch.expected, x.patch.task.location, x.patch.task.status);
    var r := s.(strays := s.strays[..k] + s.strays[k + 1..]);
    if reply.Saved? then
      r.(row := Some(reply.row), log := s.log + [Written(s.row, reply.row, x.tab, x.patch.task, x.seen)])
    else r
  }

  function Next(s: State, e: Edition, ev: Event): State
    requires Enabled(s, ev)
  {
    var t := s.tabs[ev.tab];
    match ev
    case Open(i) => OpenTab(s, e, i)
    case Load(i, heard) => SetTab(s, i, LoadTab(t, e, heard))
    case Move(i, location) => SetTab(s, i, t.(location := Some(location)))
    case Persist(i, task) => SetTab(s, i, Enqueue(t, task))
    case Send(i) => SetTab(s, i, StartTask(t))
    case Serve(i) => ServeSave(s, e, i)
    case Settle(i) => SetTab(s, i, EndTask(t, t.sending.value.reply))
    case Fail(i) => FailSave(s, i)
    case ServeLate(_, k) => ServeStray(s, e, k)
  }

  ghost predicate Valid(s: State, e: Edition, es: seq<Event>)
    decreases |es|
  {
    es == [] || (Enabled(s, es[0]) && Valid(Next(s, e, es[0]), e, es[1..]))
  }

  ghost function After(s: State, e: Edition, es: seq<Event>): State
    requires Valid(s, e, es)
    decreases |es|
  {
    if es == [] then s else After(Next(s, e, es[0]), e, es[1..])
  }

  /** Tabs not yet opened, the row as an earlier visit left it. */
  ghost predicate Initial(s: State) {
    && s.log == [] && s.strays == []
    && (forall t :: t in s.tabs ==> t == Tab(None, None, None, [], None, None))
    && (s.row.Some? ==> s.row.value.version >= 1)
  }
}
