/** A task (a title and a completion flag), its one-line display form,
    and its conversion to and from the two-key record it is stored as. */
module Tasks {
  import opened Results

  datatype Task = Task(title: string, completed: bool)

  /** A fresh task: not completed, title kept exactly as given (no validation). */
  function New(title: string): (t: Task)
    ensures t.title == title
    ensures !t.completed
  {
    Task(title, false)
  }

  /** Toggles completion; the title never changes. */
  function Complete(t: Task): (r: Task)
    ensures r.title == t.title
    ensures r.completed != t.completed
  {
    t.(completed := !t.completed)
  }

  lemma CompleteTwice(t: Task)
    ensures Complete(Complete(t)) == t
    ensures Complete(t) != t
  {
  }

  /** Field-by-field copy. */
  function Clone(t: Task): (r: Task)
    ensures r.title == t.title && r.completed == t.completed
    ensures r == t
  {
    Task(t.title, t.completed)
  }

  /** The display text: a four-character check box, then the title. */
  function Display(t: Task): (s: string)
    ensures |s| == 4 + |t.title|
    ensures s[..4] == (if t.completed then "[x] " else "[ ] ")
    ensures s[4..] == t.title
  {
    "[" + (if t.completed then "x" else " ") + "] " + t.title
  }

  /** Two tasks with the same display text are the same task. */
  lemma DisplayInjective(a: Task, b: Task)
    requires Display(a) == Display(b)
    ensures a == b
  {
  }

  lemma DisplayExamples()
    ensures Display(New("Print task")) == "[ ] Print task"
    ensures Display(Complete(New("Print task"))) == "[x] Print task"
  {
  }

  /** A JSON value as far as decoding looks at it: through its text rendering. */
  datatype Value = Str(s: string) | Bool(b: bool) | Null | Other(text: string)

  /** The text rendering of a value: a string renders as its contents,
      without quotes; anything other than the listed shapes renders as its
      JSON text. */
  function Text(v: Value): string
  {
    match v
    case Str(s) => s
    case Bool(b) => if b then "true" else "false"
    case Null => "null"
    case Other(text) => text
  }

  /** A stored element reduced to the two keys a task uses; `None` is an
      absent key (an element that is not an object has neither key). */
  datatype Record = Record(title: Option<Value>, completed: Option<Value>)

  /** Encoding always writes both keys, and their renderings carry the fields. */
  function Encode(t: Task): (r: Record)
    ensures r.title.Some? && r.completed.Some?
    ensures Text(r.title.value) == t.title
    ensures Text(r.completed.value) == "true" <==> t.completed
  {
    Record(Some(Str(t.title)), Some(Bool(t.completed)))
  }

  /** Decoding fails exactly when a key is missing; otherwise the title is
      the title's text and the task is completed iff the flag renders as "true". */
  function Decode(r: Record): (res: Result<Task>)
    ensures res.Err? <==> r.title.None? || r.completed.None?
    ensures res.Err? ==> res.error == MissingField
    ensures res.Ok? ==> res.value.title == Text(r.title.value)
    ensures res.Ok? ==> (res.value.completed <==> Text(r.completed.value) == "true")
  {
    if r.title.Some? && r.completed.Some? then
      Ok(Task(Text(r.title.value), Text(r.completed.value) == "true"))
    else
      Err(MissingField)
  }

  /** Decoding an encoded task gives back the same task. */
  lemma DecodeEncode(t: Task)
    ensures Decode(Encode(t)) == Ok(t)
  {
  }

  /** Decoding does not validate the title: any string, the empty one
      included, is accepted as long as the flag key is present. */
  lemma DecodeAcceptsAnyTitle(title: string, flag: Value)
    ensures Decode(Record(Some(Str(title)), Some(flag))).Ok?
    ensures Decode(Record(Some(Str(title)), Some(flag))).value.title == title
  {
  }

  lemma DecodeExamples()
    ensures Decode(Record(Some(Str("Salut")), Some(Bool(true)))) == Ok(Task("Salut", true))
    ensures Decode(Record(Some(Str("Salut")), None)) == Err(MissingField)
    ensures Decode(Record(None, Some(Bool(false)))) == Err(MissingField)
    ensures Decode(Record(Some(Str("Salut")), Some(Str("true")))) == Ok(Task("Salut", true))
    ensures Decode(Record(Some(Str("Salut")), Some(Null))) == Ok(Task("Salut", false))
  {
  }
}
