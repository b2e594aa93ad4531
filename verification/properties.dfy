/** Properties of the application loop that relate several transitions or
    whole sessions. */
module Properties {
  import opened Results
  import opened Tasks
  import opened Store
  import opened TerminalSession
  import opened App

  /** In a drawn frame, a task row starts with "> " exactly when its index
      is the selected one: one marked row when the cursor is in range, none
      otherwise. */
  lemma FrameMarksOnlySelected(t: Terminal, s: AppState, width: nat, i: nat)
    requires Frame(t, s, width).Ok?
    requires i < |s.tasks|
    ensures var screen := Frame(t, s, width).value.screen;
      2 + HelpHeight(s.help) + i in screen &&
      |screen[2 + HelpHeight(s.help) + i]| >= 2 &&
      (screen[2 + HelpHeight(s.help) + i][..2] == "> " <==> i == s.selected)
  {
    var screen := Frame(t, s, width).value.screen;
    assert RowShows(screen, 2 + HelpHeight(s.help), s.tasks, 0, s.selected, i);
    ShowsTaskReadBack(screen[2 + HelpHeight(s.help) + i], s.tasks[i], i == s.selected);
  }

  predicate IsNavigation(ev: Event)
  {
    ev == Key(Up) || ev == Key(Down)
  }

  /** One Up or Down on a non-empty list keeps a cursor in range and
      changes nothing else. */
  lemma NavigationStep(s: AppState, ev: Event, asked: Task)
    requires IsNavigation(ev)
    requires 0 < |s.tasks| <= MaxU16 + 1
    requires s.selected < |s.tasks|
    ensures Step(s, ev, asked).Continue?
    ensures var r := Step(s, ev, asked).state;
      r.tasks == s.tasks && r.store == s.store && r.help == s.help && r.selected < |s.tasks|
  {
  }

  /** Any run of Up and Down keys from a cursor in range on a non-empty list
      keeps the cursor in range and changes nothing else; the loop is then
      still waiting for input. */
  lemma {:induction false} NavigationStaysInRange(t: Terminal, s: AppState, events: seq<Event>, lines: seq<string>, width: nat)
    requires t.mode == Raw
    requires 0 < |s.tasks| <= MaxU16 + 1
    requires s.selected < |s.tasks|
    requires forall k :: 0 <= k < |events| ==> IsNavigation(events[k])
    ensures var r := Loop(t, s, events, lines, width);
      && r.ending == AwaitingInput
      && r.state.tasks == s.tasks && r.state.store == s.store && r.state.help == s.help
      && r.state.selected < |s.tasks|
    decreases |events|
  {
    var drawn := Frame(t, s, width).value;
    if |events| > 0 {
      var line := if |lines| > 0 then lines[0] else "";
      var asked := AskNewTask(drawn, line).task;
      NavigationStep(s, events[0], asked);
      var next := Step(s, events[0], asked).state;
      assert Loop(t, s, events, lines, width) == Loop(drawn, next, events[1..], lines, width);
      assert forall k :: 0 <= k < |events[1..]| ==> IsNavigation(events[1..][k]) by {
        forall k | 0 <= k < |events[1..]| ensures IsNavigation(events[1..][k]) {
          assert events[1..][k] == events[k + 1];
        }
      }
      NavigationStaysInRange(drawn, next, events[1..], lines, width);
    }
  }

  /** Adding a task and then deleting it (the cursor is on it) gives back
      the list as it was. */
  lemma AddThenDeleteRestores(s: AppState, asked: Task)
    requires |s.tasks| <= MaxU16
    ensures Step(s, Key(Char('a')), asked).Continue?
    ensures var added := Step(s, Key(Char('a')), asked).state;
      && Step(added, Key(Char('d')), asked).Continue?
      && Step(added, Key(Char('d')), asked).state.tasks == s.tasks
      && Step(added, Key(Char('d')), asked).state.store == s.tasks
  {
  }

  /** Enter twice on the same row leaves the list as it was. */
  lemma EnterTwiceRestores(s: AppState, asked: Task)
    ensures Step(Step(s, Key(Enter), asked).state, Key(Enter), asked).state.tasks == s.tasks
  {
  }

  /** `h` twice restores the state. */
  lemma HelpTwiceRestores(s: AppState, asked: Task)
    ensures Step(Step(s, Key(Char('h')), asked).state, Key(Char('h')), asked) == Continue(s)
  {
  }

  /** Deleting the last task with the cursor on it leaves the cursor one
      past the end; a second delete then stops the run. */
  lemma DeleteLastLeavesCursorPastEnd(s: AppState, asked: Task)
    requires 0 < |s.tasks| && s.selected == |s.tasks| - 1
    ensures Step(s, Key(Char('d')), asked).Continue?
    ensures var after := Step(s, Key(Char('d')), asked).state;
      && after.selected == |after.tasks|
      && Step(after, Key(Char('d')), asked) == Abort(IndexOutOfRange, after)
      && Step(after, Key(Enter), asked).state.tasks == after.tasks
  {
  }

  /** Down on an empty list stops the run. */
  lemma DownOnEmptyFails(s: AppState, asked: Task)
    requires s.tasks == []
    ensures Step(s, Key(Down), asked) == Abort(Underflow, s)
  {
  }

  /** Enter then `q` on a single-task list quits with that task completed
      and stored. */
  lemma EnterThenQuitLoop(t: Terminal, a: Task, width: nat)
    requires t.mode == Raw
    ensures var r := Loop(t, Init([a]), [Key(Enter), Key(Char('q'))], [], width);
      r.ending == Quitted && r.state.store == [Complete(a)]
  {
    var s0 := Init([a]);
    var s1 := ToggleSelected(s0);
    assert s1.tasks == [Complete(a)] && Synced(s1);
    assert Step(s0, Key(Enter), New("")) == Continue(s1);
    assert Step(s1, Key(Char('q')), New("")) == Quit(s1);
    var t1 := Frame(t, s0, width).value;
    var t2 := Frame(t1, s1, width).value;
    assert Loop(t1, s1, [Key(Char('q'))], [], width) == Session(Quitted, t2, s1);
    assert [Key(Enter), Key(Char('q'))][1..] == [Key(Char('q'))];
  }

  /** With one stored task "A", Enter then quit stores "A" as completed, and
      the terminal ends in classic mode on the main screen. */
  lemma EnterThenQuit()
    ensures var r := Run(Some([Record(Some(Str("A")), Some(Bool(false)))]), [Key(Enter), Key(Char('q'))], [], 1);
      && r.ending == Quitted
      && r.store == Some([Task("A", true)])
      && r.term.mode == Classic && !r.term.alternate
  {
    var file := [Record(Some(Str("A")), Some(Bool(false)))];
    var a := Task("A", false);
    assert Decode(file[0]) == Ok(a);
    var loaded := ReadTaskFile(Some(file)).tasks;
    assert loaded.Ok?;
    assert |loaded.value| == 1 && loaded.value[0] == a;
    assert loaded.value == [a];
    EnterThenQuitLoop(Build(), a, 1);
  }

  /** A missing task file is created empty and the session starts with no tasks. */
  lemma EmptyStoreBootstrap()
    ensures ReadTaskFile(None) == Loaded([], Ok([]))
  {
  }
}
