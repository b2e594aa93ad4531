/** The stored document: an ordered list of records, decoded all or nothing. */
module Store {
  import opened Results
  import opened Tasks

  /** Decodes every record in order; the first record with a missing key
      aborts the whole load, so no partial list is ever returned. */
  function DecodeAll(records: seq<Record>): (r: Result<seq<Task>>)
    ensures r.Ok? <==> forall i :: 0 <= i < |records| ==> Decode(records[i]).Ok?
    ensures r.Err? ==> r.error == MissingField
    ensures r.Ok? ==> |r.value| == |records|
    ensures r.Ok? ==> forall i :: 0 <= i < |records| ==> Decode(records[i]) == Ok(r.value[i])
  {
    if |records| == 0 then Ok([])
    else
      match DecodeAll(records[..|records| - 1])
      case Err(e) => Err(e)
      case Ok(prefix) =>
        match Decode(records[|records| - 1])
        case Err(e) => Err(e)
        case Ok(t) => Ok(prefix + [t])
  }

  /** The document written for a list: one record per task, in list order. */
  function EncodeAll(tasks: seq<Task>): (r: seq<Record>)
    ensures |r| == |tasks|
    ensures forall i :: 0 <= i < |tasks| ==> Decode(r[i]) == Ok(tasks[i])
  {
    seq(|tasks|, i requires 0 <= i < |tasks| => DecodeEncode(tasks[i]); Encode(tasks[i]))
  }

  /** Saving then loading gives back the same list, in the same order. */
  lemma LoadSave(tasks: seq<Task>)
    ensures DecodeAll(EncodeAll(tasks)) == Ok(tasks)
  {
    var r := DecodeAll(EncodeAll(tasks));
    assert r.Ok?;
    assert forall i :: 0 <= i < |tasks| ==> r.value[i] == tasks[i];
    assert r.value == tasks;
  }

  /** A load: the document after the call and what decoding it gave. */
  datatype Loaded = Loaded(document: seq<Record>, tasks: Result<seq<Task>>)

  /** Reads the task file; an absent file (`None`) is first created as an
      empty list. */
  function ReadTaskFile(file: Option<seq<Record>>): (r: Loaded)
    ensures file.None? ==> r.document == [] && r.tasks == Ok([])
    ensures file.Some? ==> r.document == file.value
    ensures r.tasks.Ok? <==> forall i :: 0 <= i < |r.document| ==> Decode(r.document[i]).Ok?
    ensures r.tasks.Ok? ==> |r.tasks.value| == |r.document|
    ensures r.tasks.Ok? ==> forall i :: 0 <= i < |r.document| ==> Decode(r.document[i]) == Ok(r.tasks.value[i])
  {
    var document := if file.None? then [] else file.value;
    Loaded(document, DecodeAll(document))
  }
}
