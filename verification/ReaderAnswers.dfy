/** What a tab shows is what the server told it last; and what a save it gave up on may still do. */
module ReaderAnswers {
  import opened Prelude
  import opened ReaderProgress
  import ReaderTheorems

  /** The answers tab i has received, oldest first; opening the reader forgets them. */
  ghost function Answers(s: State, e: Edition, es: seq<Event>, i: nat, before: seq<Reply>): seq<Reply>
    requires Valid(s, e, es) && i < |s.tabs|
    decreases |es|
  {
    if es == [] then before else Answers(Next(s, e, es[0]), e, es[1..], i, Received(s, es[0], i, before))
  }

  function Received(s: State, ev: Event, i: nat, before: seq<Reply>): seq<Reply>
    requires Enabled(s, ev)
  {
    if ev.tab != i then before
    else if ev.Open? then []
    else if ev.Load? && ev.heard then [Saved(s.tabs[i].opening.value)]
    else if ev.Settle? then before + [s.tabs[i].sending.value.reply.value]
    else before
  }

  function LastSaved(answers: seq<Reply>): Option<Row> {
    if answers == [] then None
    else var last := answers[|answers| - 1];
      if last.Saved? then Some(last.row) else LastSaved(answers[..|answers| - 1])
  }

  function LastConflict(answers: seq<Reply>): Option<nat> {
    if answers != [] && answers[|answers| - 1].Conflict? then Some(answers[|answers| - 1].current) else None
  }

  predicate Shows(t: Tab, answers: seq<Reply>) {
    t.held == LastSaved(answers) && t.conflict == LastConflict(answers)
  }

  lemma ShowsStep(s: State, e: Edition, ev: Event, i: nat, before: seq<Reply>)
    requires Enabled(s, ev) && i < |s.tabs| && Shows(s.tabs[i], before)
    ensures |Next(s, e, ev).tabs| == |s.tabs|
    ensures Shows(Next(s, e, ev).tabs[i], Received(s, ev, i, before))
  {
    var after := Received(s, ev, i, before);
    if |after| > |before| {
      assert after[..|after| - 1] == before;
    }
  }

  /**
    At any point of any run of any number of tabs, a tab holds the row of the last acceptance it heard of since
    it was opened, and its notice shows exactly when the very last answer was a conflict, with that version.
  */
  lemma {:induction false} ShowsLastAnswer(s: State, e: Edition, es: seq<Event>, i: nat, before: seq<Reply>)
    requires Valid(s, e, es) && i < |s.tabs|
    requires Shows(s.tabs[i], before)
    ensures |After(s, e, es).tabs| == |s.tabs|
    ensures Shows(After(s, e, es).tabs[i], Answers(s, e, es, i, before))
    decreases |es|
  {
    if es != [] {
      ShowsStep(s, e, es[0], i, before);
      ShowsLastAnswer(Next(s, e, es[0]), e, es[1..], i, Received(s, es[0], i, before));
    }
  }

  /** The first queued save is sent, and an error reported before the server has handled it. */
  lemma SendAndGiveUp(s: State, e: Edition, i: nat) returns (r: State)
    requires i < |s.tabs| && s.tabs[i].queue != [] && s.tabs[i].sending.None? && s.tabs[i].held.Some?
    ensures Valid(s, e, [Send(i), Fail(i)]) && After(s, e, [Send(i), Fail(i)]) == r
    ensures var t := s.tabs[i]; var task := t.queue[0];
      r == s.(tabs := s.tabs[i := t.(queue := t.queue[1..])],
              strays := s.strays + [Stray(i, Patch(task, task.override.GetOr(t.held.value.version), None), t.held)])
  {
    var es := [Send(i), Fail(i)];
    var sent := Next(s, e, Send(i));
    ReaderTheorems.RunStep(s, e, es, 0, sent);
    r := Next(sent, e, Fail(i));
    ReaderTheorems.RunStep(s, e, es, 1, r);
    assert es[..2] == es;
  }

  /**
    A save that was reported as failed may still be written afterwards: from two closed tabs, whatever row an
    earlier visit left, such a run leaves the tab that sent it behind its own save.
  */
  lemma GivenUpSaveIsWritten(row: Option<Row>, e: Edition)
    returns (es: seq<Event>, task: Task, failed: State, r: State)
    requires row.Some? ==> row.value.version >= 1
    ensures var s := ReaderTheorems.TwoTabs(row);
      && Initial(s) && Valid(s, e, es) && After(s, e, es) == failed
      && Valid(s, e, es + [ServeLate(0, 0)]) && After(s, e, es + [ServeLate(0, 0)]) == r
    ensures |failed.tabs| == 2 && failed.row == Some(Opening(row, e)) == failed.tabs[0].held && Idle(failed.tabs[0])
    ensures r.row.Some? && r.row.value.version == failed.row.value.version + 1
    ensures r.tabs == failed.tabs && ReaderTheorems.Behind(r, 0)
    ensures r.log == failed.log + [Written(failed.row, r.row.value, 0, task, failed.row)]
  {
    var s := ReaderTheorems.TwoTabs(row);
    var start, loaded;
    start, loaded := ReaderTheorems.OpenBoth(row, e);
    task := Task(loaded.tabs[0].location.value, None, None);
    var pressed := ReaderTheorems.Press(loaded, e, 0, task);
    es := ReaderTheorems.Continue(s, e, start, loaded, [Persist(0, task)], pressed);
    failed := SendAndGiveUp(pressed, e, 0);
    es := ReaderTheorems.Continue(s, e, es, pressed, [Send(0), Fail(0)], failed);
    ReaderTheorems.Extend(s, e, es, ServeLate(0, 0));
    r := Next(failed, e, ServeLate(0, 0));
  }
}
