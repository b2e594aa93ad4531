/** The application loop: the in-memory state, the per-key transitions, the
    frame drawn before each key, and a whole session over a finite script of
    input events. The stored document is tracked as `store`, the list it
    decodes to: the loaded list until the first write, then the list last
    written, whose document decodes back to it (`Store.LoadSave`). */
module App {
  import opened Results
  import opened Tasks
  import opened Store
  import opened TerminalSession

  datatype AppState = AppState(tasks: seq<Task>, selected: U16, help: bool, store: seq<Task>)

  datatype KeyCode = Up | Down | Enter | Char(c: char) | OtherKey

  /** An input event; only key presses do anything. */
  datatype Event = Key(code: KeyCode) | NonKey

  /** The outcome of one key: keep looping, leave the loop, or stop with an
      error. `state` is the state at that point (for an error, with whatever
      was already stored). */
  datatype StepResult =
    | Continue(state: AppState)
    | Quit(state: AppState)
    | Abort(error: Error, state: AppState)

  /** The store holds exactly the in-memory list. */
  predicate Synced(s: AppState)
  {
    s.store == s.tasks
  }

  /** The keys that rewrite the stored list. */
  predicate Mutates(ev: Event)
  {
    ev.Key? && (ev.code == Enter || ev.code == Char('a') || ev.code == Char('d'))
  }

  /** The state right after loading: cursor on the first row, help hidden. */
  function Init(tasks: seq<Task>): (s: AppState)
    ensures s.tasks == tasks && s.selected == 0 && !s.help
    ensures Synced(s)
  {
    AppState(tasks, 0, false, tasks)
  }

  /** Up: one row up unless already on the first; nothing else changes. */
  function MoveUp(s: AppState): (r: AppState)
    ensures s.selected > 0 ==> r.selected + 1 == s.selected
    ensures s.selected == 0 ==> r.selected == 0
    ensures r.tasks == s.tasks && r.help == s.help && r.store == s.store
  {
    if s.selected > 0 then s.(selected := s.selected - 1) else s
  }

  /** Down: one row down unless already on the last. The last index is
      `len - 1`, which underflows on an empty list and must fit in 16 bits;
      either failure stops the run. */
  function MoveDown(s: AppState): (r: StepResult)
    ensures !r.Quit?
    ensures r.Abort? <==> |s.tasks| == 0 || |s.tasks| > MaxU16 + 1
    ensures r.Abort? ==> r.state == s
    ensures r.Abort? && |s.tasks| == 0 ==> r.error == Underflow
    ensures r.Abort? && |s.tasks| > 0 ==> r.error == Conversion
    ensures r.state.tasks == s.tasks && r.state.help == s.help && r.state.store == s.store
    ensures r.Continue? ==> (r.state.selected == s.selected + 1 <==> s.selected + 1 < |s.tasks|)
    ensures r.Continue? && s.selected + 1 >= |s.tasks| ==> r.state.selected == s.selected
    ensures r.Continue? && s.selected < |s.tasks| ==> r.state.selected < |s.tasks|
  {
    if |s.tasks| == 0 then Abort(Underflow, s)
    else
      match ToU16(|s.tasks| - 1)
      case Err(e) => Abort(e, s)
      case Ok(maxSelected) =>
        if s.selected < maxSelected then Continue(s.(selected := s.selected + 1)) else Continue(s)
  }

  /** Enter: toggles the selected task if there is one, then stores the list. */
  function ToggleSelected(s: AppState): (r: AppState)
    ensures |r.tasks| == |s.tasks|
    ensures forall j :: 0 <= j < |s.tasks| && j != s.selected ==> r.tasks[j] == s.tasks[j]
    ensures s.selected < |s.tasks| ==> r.tasks[s.selected] == Complete(s.tasks[s.selected])
    ensures s.selected >= |s.tasks| ==> r.tasks == s.tasks
    ensures Synced(r)
    ensures r.selected == s.selected && r.help == s.help
  {
    var tasks := if s.selected < |s.tasks| then s.tasks[s.selected := Complete(s.tasks[s.selected])] else s.tasks;
    s.(tasks := tasks, store := tasks)
  }

  /** `a`: appends the task the line reader produced, stores the list, and
      moves the cursor to the new last row; that index must fit in 16 bits,
      which is checked only after the list was stored. */
  function AddTask(s: AppState, task: Task): (r: StepResult)
    ensures !r.Quit?
    ensures |r.state.tasks| == |s.tasks| + 1
    ensures forall j :: 0 <= j < |s.tasks| ==> r.state.tasks[j] == s.tasks[j]
    ensures r.state.tasks[|s.tasks|] == task
    ensures Synced(r.state) && r.state.help == s.help
    ensures r.Abort? <==> |s.tasks| > MaxU16
    ensures r.Abort? ==> r.error == Conversion && r.state.selected == s.selected
    ensures r.Continue? ==> r.state.selected == |s.tasks|
  {
    var tasks := s.tasks + [task];
    var pushed := s.(tasks := tasks, store := tasks);
    match ToU16(|tasks| - 1)
    case Err(e) => Abort(e, pushed)
    case Ok(last) => Continue(pushed.(selected := last))
  }

  /** `d`: removes the selected task and stores the list; the cursor is left
      where it was. Removing past the end stops the run before anything is
      stored. */
  function DeleteSelected(s: AppState): (r: StepResult)
    ensures !r.Quit?
    ensures r.Abort? <==> s.selected >= |s.tasks|
    ensures r.Abort? ==> r.error == IndexOutOfRange && r.state == s
    ensures r.Continue? ==> |r.state.tasks| + 1 == |s.tasks|
    ensures r.Continue? ==> forall j :: 0 <= j < s.selected ==> r.state.tasks[j] == s.tasks[j]
    ensures r.Continue? ==> forall j :: s.selected <= j < |r.state.tasks| ==> r.state.tasks[j] == s.tasks[j + 1]
    ensures r.Continue? ==> multiset(r.state.tasks) + multiset{s.tasks[s.selected]} == multiset(s.tasks)
    ensures r.Continue? ==> Synced(r.state) && r.state.selected == s.selected && r.state.help == s.help
  {
    if s.selected < |s.tasks| then
      var tasks := s.tasks[..s.selected] + s.tasks[s.selected + 1..];
      assert s.tasks == s.tasks[..s.selected] + [s.tasks[s.selected]] + s.tasks[s.selected + 1..];
      Continue(s.(tasks := tasks, store := tasks))
    else
      Abort(IndexOutOfRange, s)
  }

  /** `h`: shows or hides the help panel; nothing else changes. */
  function ToggleHelp(s: AppState): (r: AppState)
    ensures r.help != s.help
    ensures r.tasks == s.tasks && r.selected == s.selected && r.store == s.store
  {
    s.(help := !s.help)
  }

  /** One input event. `asked` is the task the terminal built from the line
      read, used only when the key asks for a new task. Every transition
      that does not stop the run keeps the store in step with the list. */
  function Step(s: AppState, ev: Event, asked: Task): (r: StepResult)
    ensures r.Quit? <==> ev == Key(Char('q'))
    ensures r.Quit? ==> r.state == s
    ensures r.Abort? ==> ev == Key(Down) || ev == Key(Char('a')) || ev == Key(Char('d'))
    ensures !Mutates(ev) ==> r.state.tasks == s.tasks && r.state.store == s.store
    ensures Mutates(ev) && !r.Abort? ==> Synced(r.state)
    ensures Synced(s) ==> Synced(r.state)
    ensures ev.NonKey? || ev.code.OtherKey? || (ev.code.Char? && ev.code.c !in "adhq") ==> r == Continue(s)
  {
    match ev
    case NonKey => Continue(s)
    case Key(code) =>
      match code
      case Up => Continue(MoveUp(s))
      case Down => MoveDown(s)
      case Enter => Continue(ToggleSelected(s))
      case Char(c) =>
        if c == 'a' then AddTask(s, asked)
        else if c == 'd' then DeleteSelected(s)
        else if c == 'h' then Continue(ToggleHelp(s))
        else if c == 'q' then Quit(s)
        else Continue(s)
      case OtherKey => Continue(s)
  }

  /** Row `base + (i - from)` shows task `i`, marked iff `i` is the selected index. */
  ghost predicate RowShows(screen: map<nat, string>, base: nat, tasks: seq<Task>, from: nat, selected: int, i: nat)
    requires from <= i < |tasks|
  {
    base + (i - from) in screen && ShowsTask(screen[base + (i - from)], tasks[i], i == selected)
  }

  /** The rows from `base` down show the tasks from index `from` on. */
  ghost predicate RowsShow(screen: map<nat, string>, base: nat, tasks: seq<Task>, from: nat, selected: int)
  {
    forall i: nat :: from <= i < |tasks| ==> RowShows(screen, base, tasks, from, selected, i)
  }

  /** Rows shown above a terminal's counter survive later prints. */
  lemma RowsSurvive(t: Terminal, r: Terminal, n: nat, base: nat, tasks: seq<Task>, from: nat, selected: int)
    requires Appended(t, r, n)
    requires from <= |tasks| && base + (|tasks| - from) <= t.offset
    requires RowsShow(t.screen, base, tasks, from, selected)
    ensures RowsShow(r.screen, base, tasks, from, selected)
  {
    forall i: nat | from <= i < |tasks|
      ensures RowShows(r.screen, base, tasks, from, selected, i)
    {
      assert RowShows(t.screen, base, tasks, from, selected, i);
      assert base + (i - from) < t.offset;
    }
  }

  /** The task rows from index `from` on, each marked iff its index is the
      selected one. Every index is converted to 16 bits first; the first
      index that does not fit stops the drawing. */
  function PrintRows(t: Terminal, tasks: seq<Task>, from: nat, selected: U16): (r: Result<Terminal>)
    requires from <= |tasks|
    ensures r.Err? <==> from < |tasks| && |tasks| > MaxU16 + 1
    ensures r.Err? ==> r.error == Conversion
    ensures r.Ok? ==> Appended(t, r.value, |tasks| - from)
    ensures r.Ok? ==> RowsShow(r.value.screen, t.offset, tasks, from, selected)
    decreases |tasks| - from
  {
    if from == |tasks| then Ok(t)
    else
      match ToU16(from)
      case Err(e) => Err(e)
      case Ok(index) =>
        var t1 := PrintTask(t, tasks[from], index, selected);
        var r := PrintRows(t1, tasks, from + 1, selected);
        if r.Ok? then
          AppendedTrans(t, t1, r.value, 1, |tasks| - from - 1);
          assert t.offset in t1.screen && t.offset < t1.offset;
          assert RowShows(r.value.screen, t.offset, tasks, from, selected, from);
          assert RowsShow(r.value.screen, t.offset, tasks, from, selected) by {
            forall i: nat | from < i < |tasks|
              ensures RowShows(r.value.screen, t.offset, tasks, from, selected, i)
            {
              assert RowShows(r.value.screen, t1.offset, tasks, from + 1, selected, i);
              assert t.offset + (i - from) == t1.offset + (i - (from + 1));
            }
          }
          r
        else r
  }

  /** The rows the help panel takes when shown. */
  function HelpHeight(help: bool): nat
  {
    if help then 11 else 0
  }

  /** One frame: clear, header, the help panel if shown, every task row,
      a closing separator. The counter ends at the number of rows drawn, the
      drawn rows are exactly those above it, and the task rows sit below the
      header and help with exactly the selected one marked. */
  function Frame(t: Terminal, s: AppState, width: nat): (r: Result<Terminal>)
    ensures r.Ok? <==> |s.tasks| <= MaxU16 + 1
    ensures r.Err? ==> r.error == Conversion
    ensures r.Ok? ==> r.value.offset == 3 + |s.tasks| + HelpHeight(s.help)
    ensures r.Ok? ==> r.value.mode == t.mode && r.value.alternate == t.alternate
    ensures r.Ok? ==> Written(r.value)
    ensures r.Ok? ==> 0 in r.value.screen && r.value.screen[0] == AppTitle
    ensures r.Ok? ==> RowsShow(r.value.screen, 2 + HelpHeight(s.help), s.tasks, 0, s.selected)
  {
    var t0 := Clear(t);
    var t1 := PrintApp(t0, width);
    var t2 := if s.help then PrintHelp(t1, width) else t1;
    AppendedTrans(t0, t1, t2, 2, HelpHeight(s.help));
    match PrintRows(t2, s.tasks, 0, s.selected)
    case Err(e) => Err(e)
    case Ok(t3) =>
      var r := PrintSep(t3, width);
      AppendedTrans(t2, t3, r, |s.tasks|, 1);
      RowsSurvive(t3, r, 1, t2.offset, s.tasks, 0, s.selected);
      AppendedTrans(t0, t2, r, 2 + HelpHeight(s.help), |s.tasks| + 1);
      assert 0 in t1.screen && 0 < t2.offset;
      Ok(r)
  }

  /** How a session ended: by the quit key, by an error, or still waiting
      for a key when the scripted input ran out. */
  datatype Ending = Quitted | Failed(error: Error) | AwaitingInput

  datatype Session = Session(ending: Ending, term: Terminal, state: AppState)

  /** The main loop over a finite script of events. `lines` are the lines
      the line reader returns, one per `a` key; once they run out it returns
      the empty line (end of input). Every frame is drawn, and the loop ends,
      in raw mode with the screen flag unchanged; only while `a` reads a
      line is the terminal in classic mode. A store in step with the list
      stays in step whichever way the loop ends. The loop quits only on a
      `q` key, and a `q` in the script always ends it. */
  function Loop(t: Terminal, s: AppState, events: seq<Event>, lines: seq<string>, width: nat): (r: Session)
    requires t.mode == Raw
    ensures r.term.mode == Raw && r.term.alternate == t.alternate
    ensures Synced(s) ==> Synced(r.state)
    ensures r.ending.Quitted? ==> Key(Char('q')) in events
    ensures Key(Char('q')) in events ==> !r.ending.AwaitingInput?
    ensures Key(Char('q')) in events ==> !r.ending.AwaitingInput?
    decreases |events|
  {
    match Frame(t, s, width)
    case Err(e) => Session(Failed(e), t, s)
    case Ok(drawn) =>
      if |events| == 0 then Session(AwaitingInput, drawn, s)
      else
        var ev := events[0];
        var asking := ev == Key(Char('a'));
        var line := if |lines| > 0 then lines[0] else "";
        var asked := AskNewTask(drawn, line);
        var term := if asking then asked.term else drawn;
        var rest := if asking && |lines| > 0 then lines[1..] else lines;
        match Step(s, ev, asked.task)
        case Continue(next) =>
          var r := Loop(term, next, events[1..], rest, width);
          assert r.ending.Quitted? ==> Key(Char('q')) in events[1..];
          assert Key(Char('q')) in events ==> Key(Char('q')) in events[1..];
          r
        case Quit(last) => Session(Quitted, term, last)
        case Abort(e, at) => Session(Failed(e), term, at)
  }

  /** A whole run: start the session, load the stored document (an absent
      one is created empty), loop, and end the session. `store` is the list
      the stored document decodes to (the loaded list until the first write,
      then the list last written), or `None` if the document could not be
      decoded. */
  datatype Outcome = Outcome(ending: Ending, term: Terminal, store: Option<seq<Task>>)

  function Run(file: Option<seq<Record>>, events: seq<Event>, lines: seq<string>, width: nat): (r: Outcome)
    ensures r.ending.AwaitingInput? ==> r.term.mode == Raw && r.term.alternate
    ensures !r.ending.AwaitingInput? ==> r.term.mode == Classic && !r.term.alternate
    ensures r.ending.Quitted? ==> Key(Char('q')) in events
    ensures Key(Char('q')) in events ==> !r.ending.AwaitingInput?
    ensures file.None? ==> r.store.Some?
    ensures r.store.None? <==> file.Some? && exists i :: 0 <= i < |file.value| && Decode(file.value[i]).Err?
    ensures r.store.None? ==> r.ending == Failed(MissingField)
  {
    var term := Build();
    match ReadTaskFile(file).tasks
    case Err(e) => Outcome(Failed(e), Drop(term), None)
    case Ok(tasks) =>
      var session := Loop(term, Init(tasks), events, lines, width);
      var last := if session.ending.AwaitingInput? then session.term else Drop(session.term);
      Outcome(session.ending, last, Some(session.state.store))
  }
}
