/** The terminal session with its crossterm calls reduced to their effect
    on the session's bookkeeping: the input mode, whether the alternate
    screen is shown, the line counter `offset`, and the rows drawn since
    the last clear. Every print writes its row at `offset` and advances it. */
module TerminalSession {
  import opened Results
  import opened Tasks

  datatype Mode = Raw | Classic

  datatype Terminal = Terminal(offset: nat, mode: Mode, alternate: bool, screen: map<nat, string>)

  /** The rows drawn are exactly the rows above the line counter. */
  ghost predicate Written(t: Terminal)
  {
    forall k: nat :: k in t.screen <==> k < t.offset
  }

  /** `r` is `t` after `n` more rows were printed: the counter moved by `n`,
      the modes are untouched, rows already drawn above `t.offset` are kept,
      and a counter that tracked the drawn rows still does. */
  ghost predicate Appended(t: Terminal, r: Terminal, n: nat)
  {
    && r.offset == t.offset + n
    && r.mode == t.mode
    && r.alternate == t.alternate
    && (forall k: nat :: k in t.screen && k < t.offset ==> k in r.screen && r.screen[k] == t.screen[k])
    && (Written(t) ==> Written(r))
  }

  lemma AppendedTrans(a: Terminal, b: Terminal, c: Terminal, m: nat, n: nat)
    requires Appended(a, b, m) && Appended(b, c, n)
    ensures Appended(a, c, m + n)
  {
  }

  /** A separator row: `width` copies of '='. */
  ghost predicate IsSeparator(row: string, width: nat)
  {
    |row| == width && forall i :: 0 <= i < |row| ==> row[i] == '='
  }

  /** The two characters before a task: "> " on the selected row, two spaces elsewhere. */
  function Marker(selected: bool): (m: string)
    ensures |m| == 2
  {
    if selected then "> " else "  "
  }

  /** A task row: its marker, then the task's display text. */
  ghost predicate ShowsTask(row: string, task: Task, marked: bool)
  {
    row == Marker(marked) + Display(task)
  }

  /** A task row can be read back: its first two characters are "> "
      exactly when it is marked, and the rest is the task's display text. */
  lemma ShowsTaskReadBack(row: string, task: Task, marked: bool)
    requires ShowsTask(row, task, marked)
    ensures |row| == 2 + |Display(task)|
    ensures row[..2] == "> " <==> marked
    ensures row[2..] == Display(task)
  {
    assert row[..2] == Marker(marked);
  }

  const AppTitle: string := "todoRust"

  const Prompt: string := "Nouvelle tâche :"

  /** The i-th of the ten help lines. */
  function HelpLine(i: nat): string
    requires i < 10
  {
    if i == 1 then "Bienvenu dans todoRust, une simple todo-list en Rust"
    else if i == 3 then "\t-Déplacez vous avec les flèches du clavier"
    else if i == 4 then "\t-Complétez une tâche avec la touche 'Entrée'"
    else if i == 5 then "\t-Ajoutez une tâche avec la touche 'a'"
    else if i == 6 then "\t-Supprimez une tâche avec la touche 'd'"
    else if i == 7 then "\t-Affichez l'aide avec la touche 'h'"
    else if i == 8 then "\t-Quittez avec la touche 'q'"
    else ""
  }

  /** A session handle before any mode change: classic mode, main screen, counter at 0. */
  function NewTerminal(): (t: Terminal)
    ensures t.offset == 0 && t.mode == Classic && !t.alternate
    ensures Written(t)
  {
    Terminal(0, Classic, false, map[])
  }

  /** Raw <-> Classic; nothing else changes. */
  function SwitchMode(t: Terminal): (r: Terminal)
    ensures r.mode != t.mode
    ensures r.offset == t.offset && r.alternate == t.alternate && r.screen == t.screen
  {
    match t.mode
    case Raw => t.(mode := Classic)
    case Classic => t.(mode := Raw)
  }

  lemma SwitchModeTwice(t: Terminal)
    ensures SwitchMode(SwitchMode(t)) == t
  {
  }

  function EnterAlternate(t: Terminal): (r: Terminal)
    ensures r.alternate
    ensures r.offset == t.offset && r.mode == t.mode && r.screen == t.screen
  {
    t.(alternate := true)
  }

  function LeaveAlternate(t: Terminal): (r: Terminal)
    ensures !r.alternate
    ensures r.offset == t.offset && r.mode == t.mode && r.screen == t.screen
  {
    t.(alternate := false)
  }

  /** Erases the screen and resets the counter; the modes are untouched. */
  function Clear(t: Terminal): (r: Terminal)
    ensures r.offset == 0 && r.mode == t.mode && r.alternate == t.alternate
    ensures Written(r)
  {
    t.(offset := 0, screen := map[])
  }

  /** A started session: raw mode, alternate screen, counter at 0, blank screen. */
  function Build(): (t: Terminal)
    ensures t.mode == Raw && t.alternate && t.offset == 0
    ensures Written(t)
  {
    Clear(EnterAlternate(SwitchMode(NewTerminal())))
  }

  /** Ending a session always leaves classic mode and the alternate screen,
      whichever mode it was in. */
  function Drop(t: Terminal): (r: Terminal)
    ensures r.mode == Classic && !r.alternate
    ensures r.offset == t.offset && r.screen == t.screen
  {
    var t1 := if t.mode == Raw then SwitchMode(t) else t;
    LeaveAlternate(t1)
  }

  /** One row at the counter, then the counter moves down. */
  function PrintLine(t: Terminal, text: string): (r: Terminal)
    ensures Appended(t, r, 1)
    ensures t.offset in r.screen && r.screen[t.offset] == text
  {
    Terminal(t.offset + 1, t.mode, t.alternate, t.screen[t.offset := text])
  }

  /** Consecutive rows, one per line, from the counter down. */
  function PrintLines(t: Terminal, lines: seq<string>): (r: Terminal)
    ensures Appended(t, r, |lines|)
    ensures forall k :: t.offset <= k < t.offset + |lines| ==> k in r.screen && r.screen[k] == lines[k - t.offset]
    decreases |lines|
  {
    if |lines| == 0 then t
    else
      var t1 := PrintLine(t, lines[0]);
      var r := PrintLines(t1, lines[1..]);
      AppendedTrans(t, t1, r, 1, |lines| - 1);
      assert t.offset in t1.screen && t.offset < t1.offset;
      r
  }

  /** `n` copies of a character (`str::repeat`). */
  function Repeat(c: char, n: nat): (s: string)
    ensures |s| == n
    ensures forall i :: 0 <= i < n ==> s[i] == c
  {
    if n == 0 then "" else Repeat(c, n - 1) + [c]
  }

  /** A separator as wide as the terminal (`width` is the reported column count). */
  function PrintSep(t: Terminal, width: nat): (r: Terminal)
    ensures Appended(t, r, 1)
    ensures t.offset in r.screen && IsSeparator(r.screen[t.offset], width)
  {
    PrintLine(t, Repeat('=', width))
  }

  /** The header: the application name, then a separator. */
  function PrintApp(t: Terminal, width: nat): (r: Terminal)
    ensures Appended(t, r, 2)
    ensures t.offset in r.screen && r.screen[t.offset] == AppTitle
    ensures t.offset + 1 in r.screen && IsSeparator(r.screen[t.offset + 1], width)
  {
    var t1 := PrintLine(t, AppTitle);
    var r := PrintSep(t1, width);
    AppendedTrans(t, t1, r, 1, 1);
    r
  }

  /** A block of lines followed by a separator. */
  function PrintBlock(t: Terminal, lines: seq<string>, width: nat): (r: Terminal)
    ensures Appended(t, r, |lines| + 1)
    ensures forall k :: t.offset <= k < t.offset + |lines| ==> k in r.screen && r.screen[k] == lines[k - t.offset]
    ensures t.offset + |lines| in r.screen && IsSeparator(r.screen[t.offset + |lines|], width)
  {
    var t1 := PrintLines(t, lines);
    var r := PrintSep(t1, width);
    AppendedTrans(t, t1, r, |lines|, 1);
    r
  }

  /** The help panel: ten fixed lines, then a separator, eleven rows in all. */
  function PrintHelp(t: Terminal, width: nat): (r: Terminal)
    ensures Appended(t, r, 11)
    ensures forall k :: t.offset <= k < t.offset + 10 ==> k in r.screen && r.screen[k] == HelpLine(k - t.offset)
    ensures t.offset + 10 in r.screen && IsSeparator(r.screen[t.offset + 10], width)
  {
    var lines := seq(10, i requires 0 <= i < 10 => HelpLine(i));
    PrintBlock(t, lines, width)
  }

  /** One task row, marked when its index is the selected one. */
  function PrintTask(t: Terminal, task: Task, index: U16, selected: U16): (r: Terminal)
    ensures Appended(t, r, 1)
    ensures t.offset in r.screen && ShowsTask(r.screen[t.offset], task, index == selected)
  {
    PrintLine(t, Marker(index == selected) + Display(task))
  }

  /** What asking for a new task leaves: the session, the task built from
      the line, and the mode the line was read in. */
  datatype Asked = Asked(term: Terminal, task: Task, readIn: Mode)

  /** Shows the prompt at the counter, leaves the current mode to read
      `line` (what the line reader stored, kept as is), then switches back.
      The counter does not advance. */
  function AskNewTask(t: Terminal, line: string): (r: Asked)
    ensures r.term.mode == t.mode && r.term.alternate == t.alternate
    ensures r.term.offset == t.offset
    ensures r.readIn != t.mode
    ensures t.offset in r.term.screen && r.term.screen[t.offset] == Prompt
    ensures r.task.title == line && !r.task.completed
  {
    var shown := t.(screen := t.screen[t.offset := Prompt]);
    var reading := SwitchMode(shown);
    Asked(SwitchMode(reading), Tasks.New(line), reading.mode)
  }

  /** In a raw-mode session, the line is read in classic mode. */
  lemma AskReadsInClassicMode(t: Terminal, line: string)
    requires t.mode == Raw
    ensures AskNewTask(t, line).readIn == Classic
  {
  }
}
