/**
  The collector's sweep of temporary objects against inspections that are under way. An inspection writes
  an object and commits the key into its import row afterwards. The collector fixes its cutoff, expires
  rows, reads the keys still referred to, deletes what expiry dropped, and then looks at every object and
  deletes the old ones it knows no reference to, one at a time.
*/
module TemporaryRaces {
  type Id = nat

  datatype Phase =
    | Writing      // on disk, or being written; no row refers to it yet
    | Referenced   // the committed row refers to it
    | Released     // the reference has been cleared, or the row deleted

  /** `last` is the time of the last write to the object, whether its name is still there or not. */
  datatype Object = Object(row: nat, last: int, phase: Phase)

  datatype Collector =
    | Off
    | Started(cutoff: int)
    | Expired(cutoff: int, dropped: set<Id>)
    | Purging(cutoff: int, remaining: set<Id>, todo: set<Id>)
    | Sweeping(cutoff: int, remaining: set<Id>, seen: set<Id>)

  /** `rows` holds when each row was created; `swept`, for the record, what the collector has deleted. */
  datatype State = State(
    clock: int, rows: seq<int>, objects: seq<Object>, names: set<Id>, swept: set<Id>, collector: Collector)

  datatype Event =
    | Tick(ticks: nat)
    | CreateRow
    | Write(row: nat)
    | WriteMore(o: Id)
    | Refer(o: Id)
    | Release(o: Id)
    | Unlink(o: Id)
    | StartCollector
    | ExpireStale(skipped: set<nat>)
    | ReadRemaining
    | Purge(o: Id)
    | EndPurge
    | See(o: Id)
    | Sweep(o: Id)
    | Finish

  /** `pause` bounds the time from one write to an object to the next, and to the commit of its key. */
  datatype Limits = Limits(hours: nat, pause: nat)

  predicate InTime(l: Limits, s: State, o: Id) {
    o < |s.objects| && s.objects[o].phase == Writing && s.clock <= s.objects[o].last + l.pause
  }

  predicate Enabled(l: Limits, s: State, e: Event) {
    match e
    case Write(row) => row < |s.rows|
    case WriteMore(o) => InTime(l, s, o)
    case Refer(o) => InTime(l, s, o)
    case Release(o) => o < |s.objects|
    case StartCollector => s.collector.Off?
    case ExpireStale(_) => s.collector.Started?
    case ReadRemaining => s.collector.Expired?
    case Purge(o) => s.collector.Purging? && o in s.collector.todo
    case EndPurge => s.collector.Purging?
    case See(o) =>
      && s.collector.Sweeping? && o in s.names && o < |s.objects|
      && s.objects[o].last < s.collector.cutoff && o !in s.collector.remaining
    case Sweep(o) => s.collector.Sweeping? && o in s.collector.seen
    case Finish => s.collector.Sweeping?
    case _ => true
  }

  function SetPhase(s: State, o: Id, p: Phase): State
    requires o < |s.objects|
  {
    s.(objects := s.objects[o := s.objects[o].(phase := p)])
  }

  function References(objects: seq<Object>): set<Id> {
    set o | 0 <= o < |objects| && objects[o].phase == Referenced
  }

  /** What expiry clears: the keys of old rows that nobody holds locked. */
  function Dropped(s: State, cutoff: int, skipped: set<nat>): set<Id> {
    set o | o in References(s.objects)
      && var row := s.objects[o].row; row < |s.rows| && s.rows[row] < cutoff && row !in skipped
  }

  function ReleaseAll(objects: seq<Object>, ids: set<Id>): (r: seq<Object>)
    ensures |r| == |objects|
    ensures forall o :: 0 <= o < |r| ==> r[o] == if o in ids then objects[o].(phase := Released) else objects[o]
  {
    seq(|objects|, o requires 0 <= o < |objects| => if o in ids then objects[o].(phase := Released) else objects[o])
  }

  function DeleteName(s: State, o: Id): State {
    s.(names := s.names - {o}, swept := if o in s.names then s.swept + {o} else s.swept)
  }

  function Next(l: Limits, s: State, e: Event): State
    requires Enabled(l, s, e)
  {
    match e
    case Tick(n) => s.(clock := s.clock + n)
    case CreateRow => s.(rows := s.rows + [s.clock])
    case Write(row) =>
      s.(objects := s.objects + [Object(row, s.clock, Writing)], names := s.names + {|s.objects|})
    case WriteMore(o) => s.(objects := s.objects[o := s.objects[o].(last := s.clock)])
    case Refer(o) => SetPhase(s, o, Referenced)
    case Release(o) => SetPhase(s, o, Released)
    case Unlink(o) => s.(names := s.names - {o})
    case StartCollector => s.(collector := Started(s.clock - l.hours))
    case ExpireStale(skipped) =>
      var dropped := Dropped(s, s.collector.cutoff, skipped);
      s.(objects := ReleaseAll(s.objects, dropped), collector := Expired(s.collector.cutoff, dropped))
    case ReadRemaining =>
      var remaining := References(s.objects);
      s.(collector := Purging(s.collector.cutoff, remaining, s.collector.dropped - remaining))
    case Purge(o) => DeleteName(s, o).(collector := s.collector.(todo := s.collector.todo - {o}))
    case EndPurge => s.(collector := Sweeping(s.collector.cutoff, s.collector.remaining, {}))
    case See(o) => s.(collector := s.collector.(seen := s.collector.seen + {o}))
    case Sweep(o) => DeleteName(s, o).(collector := s.collector.(seen := s.collector.seen - {o}))
    case Finish => s.(collector := Off)
  }

  ghost predicate Valid(l: Limits, s: State, es: seq<Event>)
    decreases |es|
  {
    es == [] || (Enabled(l, s, es[0]) && Valid(l, Next(l, s, es[0]), es[1..]))
  }

  ghost function After(l: Limits, s: State, es: seq<Event>): State
    requires Valid(l, s, es)
    decreases |es|
  {
    if es == [] then s else After(l, Next(l, s, es[0]), es[1..])
  }

  function Begin(clock: int): State { State(clock, [], [], {}, {}, Off) }

  /** The collector has deleted nothing a committed row refers to. */
  predicate NothingNeededSwept(s: State) { s.swept !! References(s.objects) }

  // ------------------------------------------------------------ why prompt commits are safe

  /** No row will ever refer to the object again, if one did. */
  predicate Hopeless(l: Limits, s: State, o: Id) {
    o < |s.objects| && s.objects[o].phase != Referenced && !InTime(l, s, o)
  }

  ghost predicate CollectorOk(l: Limits, s: State) {
    match s.collector
    case Off => true
    case Started(cutoff) => cutoff + l.hours <= s.clock
    case Expired(cutoff, dropped) => cutoff + l.hours <= s.clock && forall o :: o in dropped ==> Hopeless(l, s, o)
    case Purging(cutoff, remaining, todo) =>
      && cutoff + l.hours <= s.clock && LateKeysAreYoung(s, cutoff, remaining)
      && forall o :: o in todo ==> Hopeless(l, s, o)
    case Sweeping(cutoff, remaining, seen) =>
      && cutoff + l.hours <= s.clock && LateKeysAreYoung(s, cutoff, remaining)
      && forall o :: o in seen ==> Hopeless(l, s, o)
  }

  /** A key committed after the references were read belongs to an object newer than the cutoff. */
  ghost predicate LateKeysAreYoung(s: State, cutoff: int, remaining: set<Id>) {
    forall o :: o in References(s.objects) && o !in remaining ==> cutoff <= s.objects[o].last
  }

  ghost predicate Inv(l: Limits, s: State) {
    (forall o :: o in s.swept ==> Hopeless(l, s, o)) && CollectorOk(l, s)
  }

  lemma HopelessStays(l: Limits, s: State, e: Event, o: Id)
    requires Enabled(l, s, e) && Hopeless(l, s, o)
    ensures Hopeless(l, Next(l, s, e), o)
  {}

  lemma YoungKeysStay(l: Limits, s: State, e: Event, cutoff: int, remaining: set<Id>)
    requires l.pause <= l.hours && Enabled(l, s, e)
    requires cutoff + l.hours <= s.clock && LateKeysAreYoung(s, cutoff, remaining)
    ensures LateKeysAreYoung(Next(l, s, e), cutoff, remaining)
  {}

  /** What the collector finds old and unknown can no longer be referred to. */
  lemma SeenIsHopeless(l: Limits, s: State, o: Id)
    requires l.pause <= l.hours && Inv(l, s) && Enabled(l, s, See(o))
    ensures Hopeless(l, s, o)
  {}

  predicate CollectorEvent(e: Event) {
    e.StartCollector? || e.ExpireStale? || e.ReadRemaining? || e.EndPurge? || e.Finish?
  }

  lemma CollectorStepKeepsInv(l: Limits, s: State, e: Event)
    requires Inv(l, s) && Enabled(l, s, e) && CollectorEvent(e)
    ensures Inv(l, Next(l, s, e))
  {
    forall o | o in s.swept ensures Hopeless(l, Next(l, s, e), o) {
      HopelessStays(l, s, e, o);
    }
    if e.ReadRemaining? {
      forall o | o in s.collector.dropped ensures Hopeless(l, Next(l, s, e), o) {
        HopelessStays(l, s, e, o);
      }
    }
  }

  lemma DeletingKeepsInv(l: Limits, s: State, e: Event)
    requires l.pause <= l.hours && Inv(l, s) && Enabled(l, s, e) && (e.Purge? || e.See? || e.Sweep?)
    ensures Inv(l, Next(l, s, e))
  {
    if e.See? { SeenIsHopeless(l, s, e.o); }
  }

  lemma OthersKeepInv(l: Limits, s: State, e: Event)
    requires l.pause <= l.hours && Inv(l, s) && Enabled(l, s, e)
    requires !CollectorEvent(e) && !e.Purge? && !e.See? && !e.Sweep?
    ensures Inv(l, Next(l, s, e))
  {
    var r := Next(l, s, e);
    forall o | Hopeless(l, s, o) ensures Hopeless(l, r, o) {
      HopelessStays(l, s, e, o);
    }
    match s.collector
    case Purging(cutoff, remaining, _) => YoungKeysStay(l, s, e, cutoff, remaining);
    case Sweeping(cutoff, remaining, _) => YoungKeysStay(l, s, e, cutoff, remaining);
    case _ =>
  }

  lemma {:induction false} RunKeepsInv(l: Limits, s: State, es: seq<Event>)
    requires l.pause <= l.hours && Inv(l, s) && Valid(l, s, es)
    ensures Inv(l, After(l, s, es))
    decreases |es|
  {
    if es != [] {
      if CollectorEvent(es[0]) {
        CollectorStepKeepsInv(l, s, es[0]);
      } else if es[0].Purge? || es[0].See? || es[0].Sweep? {
        DeletingKeepsInv(l, s, es[0]);
      } else {
        OthersKeepInv(l, s, es[0]);
      }
      RunKeepsInv(l, Next(l, s, es[0]), es[1..]);
    }
  }

  lemma SafeWhenReferredInTime(l: Limits, clock: int, es: seq<Event>)
    requires l.pause <= l.hours && Valid(l, Begin(clock), es)
    ensures NothingNeededSwept(After(l, Begin(clock), es))
  {
    RunKeepsInv(l, Begin(clock), es);
  }

  // ------------------------------------------------------------ and a late one is not

  lemma {:induction false} Extend(l: Limits, s: State, es: seq<Event>, e: Event)
    requires Valid(l, s, es) && Enabled(l, After(l, s, es), e)
    ensures Valid(l, s, es + [e]) && After(l, s, es + [e]) == Next(l, After(l, s, es), e)
    decreases |es|
  {
    if es == [] {
      assert [] + [e] == [e];
      assert [e][1..] == [];
    } else {
      assert (es + [e])[1..] == es[1..] + [e];
      Extend(l, Next(l, s, es[0]), es[1..], e);
    }
  }

  lemma Then(l: Limits, es: seq<Event>, m: State, e: Event, r: State) returns (more: seq<Event>)
    requires Valid(l, Begin(0), es) && After(l, Begin(0), es) == m
    requires Enabled(l, m, e) && r == Next(l, m, e)
    ensures Valid(l, Begin(0), more) && After(l, Begin(0), more) == r
  {
    Extend(l, Begin(0), es, e);
    more := es + [e];
  }

  /** One row and one object of it, both from time 0. */
  function One(clock: int, p: Phase, names: set<Id>, swept: set<Id>, c: Collector): State {
    State(clock, [0], [Object(0, 0, p)], names, swept, c)
  }

  lemma LateUntilSweep(l: Limits) returns (es: seq<Event>)
    ensures Valid(l, Begin(0), es)
    ensures After(l, Begin(0), es) == One(l.hours + 1, Writing, {0}, {}, Sweeping(1, {}, {}))
  {
    var none: set<Id> := {};
    assert none + {0} == {0} && none - none == none;
    var s := One(0, Writing, {0}, {}, Off);
    es := Then(l, [], Begin(0), CreateRow, State(0, [0], [], {}, {}, Off));
    es := Then(l, es, State(0, [0], [], {}, {}, Off), Write(0), s);
    var w := s.(clock := l.hours + 1);
    es := Then(l, es, s, Tick(l.hours + 1), w);
    es := Then(l, es, w, StartCollector, w.(collector := Started(1)));
    es := SweepBegins(l, es, w);
  }

  /** With no reference to find the collector comes to its sweep. */
  lemma SweepBegins(l: Limits, es: seq<Event>, w: State) returns (more: seq<Event>)
    requires Valid(l, Begin(0), es) && After(l, Begin(0), es) == w.(collector := Started(1))
    requires References(w.objects) == {}
    ensures Valid(l, Begin(0), more) && After(l, Begin(0), more) == w.(collector := Sweeping(1, {}, {}))
  {
    var none: set<Id> := {};
    assert Dropped(w.(collector := Started(1)), 1, {}) == none && none - none == none;
    assert ReleaseAll(w.objects, none) == w.objects;
    more := Then(l, es, w.(collector := Started(1)), ExpireStale({}), w.(collector := Expired(1, {})));
    more := Then(l, more, w.(collector := Expired(1, {})), ReadRemaining, w.(collector := Purging(1, {}, {})));
    more := Then(l, more, w.(collector := Purging(1, {}, {})), EndPurge, w.(collector := Sweeping(1, {}, {})));
  }

  /** The object is swept before its key is committed, and the committed row refers to nothing. */
  lemma LateKeyRefersToNothing(l: Limits) returns (es: seq<Event>)
    requires l.hours < l.pause
    ensures Valid(l, Begin(0), es)
    ensures !NothingNeededSwept(After(l, Begin(0), es)) && After(l, Begin(0), es).names == {}
  {
    var none: set<Id> := {};
    assert none + {0} == {0} && {0} - {0} == none;
    var h := l.hours + 1;
    es := LateUntilSweep(l);
    var seen := One(h, Writing, {0}, {}, Sweeping(1, {}, {0}));
    es := Then(l, es, One(h, Writing, {0}, {}, Sweeping(1, {}, {})), See(0), seen);
    var swept := One(h, Writing, {}, {0}, Sweeping(1, {}, {}));
    es := Then(l, es, seen, Sweep(0), swept);
    var lost := One(h, Referenced, {}, {0}, Sweeping(1, {}, {}));
    es := Then(l, es, swept, Refer(0), lost);
    assert 0 in References(lost.objects);
  }

  /** No run ever sweeps a temporary object that a committed row refers to, then or later. */
  ghost predicate NeverSweepsNeeded(l: Limits) {
    forall clock: int, es: seq<Event> :: Valid(l, Begin(clock), es) ==> NothingNeededSwept(After(l, Begin(clock), es))
  }

  /**
    The sweep is safe in all interleavings exactly when no object is left unwritten and uncommitted for
    longer than the grace period before its key is committed.
  */
  lemma SweepSafety(l: Limits)
    ensures NeverSweepsNeeded(l) <==> l.pause <= l.hours
  {
    if l.pause <= l.hours {
      forall clock: int, es: seq<Event> | Valid(l, Begin(clock), es)
        ensures NothingNeededSwept(After(l, Begin(clock), es))
      {
        SafeWhenReferredInTime(l, clock, es);
      }
    } else {
      var es := LateKeyRefersToNothing(l);
      assert Valid(l, Begin(0), es);
    }
  }
}
