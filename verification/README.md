# todoRust task list — Dafny model

A model of the core of todoRust, a terminal to-do list. It has three parts:

- **Task record** (`task.dfy`, module `Tasks`). A title and a completion flag, with:
  - construction and toggling;
  - the `[x] ` / `[ ] ` display line;
  - encoding to and decoding from the two-key stored record.
- **Stored document** (`store.dfy`, module `Store`). The ordered list of records and the all-or-nothing load over it.
- **Terminal session** (`terminal.dfy`, module `TerminalSession`). The crossterm calls are removed. What is left is:
  - the Raw/Classic mode machine;
  - the alternate-screen flag;
  - the line counter `offset`;
  - the rows drawn since the last clear.

  Every print writes its row at `offset` and moves the counter down.
- **Application loop** (`app.dfy`, module `App`). It models:
  - the state `(tasks, selected, help, store)`;
  - one transition per key, as a pure `Step`;
  - the frame drawn before each key;
  - the loop over a finite script of input events;
  - a whole run, from building the session to dropping it.

  Properties that relate several transitions are in `properties.dfy` (module `Properties`).

Errors are values. `Results.Error` lists every way the modelled run can stop:
- `MissingField`: a stored record lacks a key.
- `Conversion`: an index or length does not fit in `u16`.
- `Underflow`: `len - 1` computed on an empty list.
- `IndexOutOfRange`: `Vec::remove` called past the end of the list.

The source sometimes reports an error with `?` and sometimes panics. The model treats both alike, since either way the loop ends and the session is dropped.

Three behaviours of the code that a reader might not expect, which the model keeps:
- **The new task's title is not trimmed.** `read_line` keeps the line terminator it read. `AskNewTask` therefore uses the line exactly as the reader stored it.
- **Delete does not re-clamp the cursor.** After `d` the cursor stays where it was. It can end one past the end of the list (`Properties.DeleteLastLeavesCursorPastEnd`).
- **Down on an empty list is an error.** Computing `tasks.len() - 1` on an empty list stops the run. This is `Underflow` in the model.

## Model

| member | source | states |
|---|---|---|
| Results.ToU16 | src/lib.rs:21 | the `u16` conversion succeeds exactly when the value is at most 65535 and keeps the value; otherwise it is a conversion error |
| Tasks.New | src/utils/task.rs:38-43 | a new task has exactly the given title (no validation, the empty title included) and is not completed |
| Tasks.Complete | src/utils/task.rs:61-63 | completing flips the flag and keeps the title |
| Tasks.CompleteTwice | src/utils/task.rs:61-63 | completing twice gives back the original task, and completing once always changes it |
| Tasks.Clone | src/utils/task.rs:18-25 | a clone has the same title and flag, so it equals the original |
| Tasks.Display | src/utils/task.rs:11-16 | the display line is `[x] ` for a completed task or `[ ] ` otherwise, followed by the title |
| Tasks.DisplayInjective | src/utils/task.rs:11-16 | two tasks with the same display line are equal, so the line determines both fields |
| Tasks.DisplayExamples | src/utils/task.rs:114-120 | a new task "Print task" displays as `[ ] Print task`, and as `[x] Print task` once completed |
| Tasks.Encode | src/utils/task.rs:27-35 | encoding always writes both keys; the title renders as the title, and the flag renders as "true" exactly when the task is completed |
| Tasks.Decode | src/utils/task.rs:45-58 | decoding fails with the missing-field error exactly when either key is absent, so there is no partial task; otherwise the title is the title's text and the task is completed iff the flag's text is "true" |
| Tasks.DecodeEncode | src/utils/task.rs:27-55 | decoding an encoded task succeeds and returns the same task |
| Tasks.DecodeAcceptsAnyTitle | src/utils/task.rs:45-55 | decoding accepts every title text, the empty one included, when the flag key is present |
| Tasks.DecodeExamples | src/utils/task.rs:92-112 | a record with title "Salut" and flag true decodes to that task; a record missing either key is an error; a flag stored as the string "true" also reads as completed |
| Store.DecodeAll | src/utils/file_io.rs:38-43 | loading succeeds exactly when every record decodes; the result has one task per record, in order, and any failure is the missing-field error |
| Store.EncodeAll | src/utils/file_io.rs:46-48 | the written document has one record per task, in order, and each record decodes back to its task |
| Store.LoadSave | src/utils/file_io.rs:27-56 | loading a saved list gives back the same list in the same order |
| Store.ReadTaskFile | src/utils/file_io.rs:27-43 | an absent file is created as an empty list and loads as no tasks; an existing document is left as it is and decoded all or nothing |
| TerminalSession.NewTerminal | src/utils/terminal.rs:23-29 | a new handle is in classic mode, on the main screen, with the counter at 0 and nothing drawn |
| TerminalSession.SwitchMode | src/utils/terminal.rs:43-58 | switching changes the mode, Raw to Classic or Classic to Raw, and leaves the counter, screen flag and rows alone |
| TerminalSession.SwitchModeTwice | src/utils/terminal.rs:43-58 | two switches restore the handle exactly |
| TerminalSession.EnterAlternate | src/utils/terminal.rs:60-63 | entering shows the alternate screen and changes nothing else |
| TerminalSession.LeaveAlternate | src/utils/terminal.rs:65-68 | leaving returns to the main screen and changes nothing else |
| TerminalSession.Clear | src/utils/terminal.rs:70-76 | clearing resets the counter to 0 and erases every row, whatever the counter was; the mode is unchanged |
| TerminalSession.Build | src/utils/terminal.rs:31-41 | a built session is in raw mode on the alternate screen, with the counter at 0 and nothing drawn |
| TerminalSession.Drop | src/utils/terminal.rs:13-20 | dropping always ends in classic mode on the main screen, whether it started in Raw or Classic |
| TerminalSession.Repeat | src/utils/terminal.rs:85 | the separator text is exactly `width` copies of `=` |
| TerminalSession.PrintLines | src/utils/terminal.rs:111-115 | printing lines puts line `k` on row `offset + k`, moves the counter by the number of lines, and keeps the rows above |
| TerminalSession.PrintSep | src/utils/terminal.rs:83-89 | a separator takes one row, at the counter, and moves the counter by 1 |
| TerminalSession.PrintApp | src/utils/terminal.rs:91-96 | the header is the application name and then a separator, and it moves the counter by 2 |
| TerminalSession.PrintHelp | src/utils/terminal.rs:98-118 | the help panel is ten fixed lines and then a separator, and it moves the counter by 11 |
| TerminalSession.PrintTask | src/utils/terminal.rs:120-135 | a task row is "> " when its index equals the selected index, two spaces otherwise, then the task's display line; it moves the counter by 1 |
| TerminalSession.ShowsTaskReadBack | src/utils/terminal.rs:126-132 | from a drawn task row one reads back whether it is marked and the task's display line |
| TerminalSession.AskNewTask | src/utils/terminal.rs:137-150 | asking shows the prompt at the counter and reads the line in the other mode; it ends with the mode, screen flag and counter unchanged, and returns an uncompleted task titled exactly with the line read |
| TerminalSession.AskReadsInClassicMode | src/utils/terminal.rs:137-150 | in a raw-mode session the line is read in classic mode |
| App.Init | src/lib.rs:9-11 | the loop starts with the loaded tasks, the cursor at 0, help hidden, and the store equal to the list |
| App.MoveUp | src/lib.rs:28-32 | Up moves the cursor up by one only when it is above 0, so it never underflows; tasks, help and store are unchanged |
| App.MoveDown | src/lib.rs:33-38 | Down on an empty list is an underflow error, and on a list whose last index exceeds 65535 a conversion error; otherwise it moves down only when not on the last index, so a cursor in range stays in range, and changes nothing else |
| App.ToggleSelected | src/lib.rs:39-45 | Enter completes only the selected task, or none when the cursor is out of range; length and every other task are unchanged, and the store gets the whole list |
| App.AddTask | src/lib.rs:46-51 | `a` appends the task built from the line read after the unchanged earlier tasks and stores the list; the cursor moves to the new last index, or the run stops with a conversion error after the store was written |
| App.DeleteSelected | src/lib.rs:52-55 | `d` removes exactly the selected task, keeps the rest in order (and as a multiset), stores the list and leaves the cursor as it was; an out-of-range cursor stops the run before anything is stored |
| App.ToggleHelp | src/lib.rs:56-58 | `h` flips help and changes nothing else |
| App.Step | src/lib.rs:26-64 | only `q` quits, and it changes nothing; only Down, `a` and `d` can fail; non-mutating keys leave tasks and store alone; any other key or event changes nothing; a store in step with the list stays in step |
| App.PrintRows | src/lib.rs:20-23 | task `i` is drawn on consecutive rows, marked iff `i` is the selected index; drawing fails with a conversion error exactly when an index exceeds 65535 |
| App.Frame | src/lib.rs:14-24 | a frame succeeds iff every index fits in `u16`; it leaves the counter at 3 + number of tasks + 11 if help is shown; the rows drawn are exactly those above the counter, row 0 is the title, and task `i` sits on row 2 (+11 with help) + `i`, marked iff `i` is selected; the modes are unchanged |
| App.Loop | src/lib.rs:13-65 | at every frame and when the loop ends the session is in raw mode with the alternate-screen flag kept (classic mode only while `a` reads a line); a store in step with the list is still in step however the loop ends; the loop ends by quitting only if the events contain a `q` key, and a `q` in the events ends the loop, by quitting or by an earlier error |
| App.Run | src/lib.rs:6-67 | a run quits only if the events contain a `q` key, and a `q` in the events ends the run, by quitting or by an earlier error; a run that quits or fails ends in classic mode on the main screen; one still waiting for input is in raw mode on the alternate screen; the load fails exactly when some stored record lacks a key, and then the run stops with the missing-field error |
| Properties.FrameMarksOnlySelected | src/lib.rs:20-23 | in a drawn frame, a task row starts with "> " exactly when its index is the selected one |
| Properties.NavigationStaysInRange | src/lib.rs:28-38 | any sequence of Up and Down from a cursor in range on a non-empty list keeps the cursor in range and changes nothing else |
| Properties.AddThenDeleteRestores | src/lib.rs:46-55 | adding a task and then deleting it, with the cursor left on it, restores the list and stores it |
| Properties.EnterTwiceRestores | src/lib.rs:39-45 | Enter twice leaves the list as it was |
| Properties.HelpTwiceRestores | src/lib.rs:56-58 | `h` twice restores the state |
| Properties.DeleteLastLeavesCursorPastEnd | src/lib.rs:52-55 | deleting the last task with the cursor on it leaves the cursor one past the end; then a second `d` stops the run and Enter changes nothing |
| Properties.DownOnEmptyFails | src/lib.rs:33-38 | Down on an empty list is the underflow error |
| Properties.EnterThenQuitLoop | src/lib.rs:13-61 | from any raw-mode terminal and a one-task list, Enter then `q` ends the loop with the task completed and stored |
| Properties.EnterThenQuit | src/lib.rs:6-61 | starting from a stored task "A", Enter then `q` stores "A" as completed, and the terminal ends in classic mode on the main screen |
| Properties.EmptyStoreBootstrap | src/utils/file_io.rs:31-33 | a missing task file becomes an empty document and loads as no tasks |

## Left out

- Terminal I/O failures. Every crossterm call can fail and the failure is propagated with `?`. In the model the terminal operations are total.
- `move_to_line` and the cursor position. Every print writes at row `offset`. `print_app` prints at the cursor without moving it first. The model puts it at row `offset`, which is the cursor position at its only call site, right after `clear`.
- `terminal::size()`. The separator width is the parameter `width`.
- `event::read`. The loop reads from a finite script of events. When the script runs out, the session is still waiting for input (`AwaitingInput`), and it is not dropped.
- `io::stdin().read_line`. The lines are a parameter. Once they run out the reader returns the empty line, as it does at end of input. A read error is left out.
- The echo of the typed line on screen is left out.
- App.Frame: when it fails, the loop reports the terminal as it was before the frame. The partly drawn rows are not kept. Mode and screen flag are the same either way.
- App.Run: dropping on failure models unwinding. A panic unwinds and runs the destructor. A process abort, which would skip the destructor, is not modelled.
- The 16-bit `offset` counter is a `nat`. Overflow past 65535 rows is not modelled.
- `file_io.rs`: the home-directory lookup, file existence checks, reads, writes and JSON parsing are left out. So are their errors. The stored document is a list of `Record`s, and `store` is the list the stored document decodes to: the loaded list until the first write, then the list last written, whose document decodes back to it (`Store.LoadSave`).
- The `json` crate is abstracted. A value is seen only through its text rendering. A stored element is seen only through whether it has `title` and `completed`.
- App.MoveDown: the underflow is a panic in a debug build and a conversion error in a release build. It is one error, `Underflow`.
- The message text of the missing-field error is left out.
- A stored document whose top level is not an array loads as no tasks, because `members()` yields nothing for it. The model's document is always a list of records, so this case is not expressed.
- `lib_rec.rs` is an older copy of `run` that does not compile. It is not part of this model.
