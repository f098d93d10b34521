/**
 The file-based script: read the described task definition from a file,
 transform it with the tag given on the command line, and write the clean
 document back to the same file. The file contents are values here; the
 reading and writing themselves are not modelled.
 */
module UpdateTd {
  import opened JsonValues
  import opened Errors
  import opened Sanitize
  import opened TaskDefinition

  /**
   The JSON value `update_td(filename, newImageTag)` writes back, given the
   JSON value it read, or the exception that stops it before the file is
   opened for writing (the file then keeps its old contents).
   */
  function UpdateTd(data: Json, newImageTag: string): (r: Result<Json>)
    ensures r.Ok? <==> FromEnvelope(data, newImageTag).Ok?
    ensures r.Ok? ==> r.value == JObject(FromEnvelope(data, newImageTag).value)
    ensures r.Ok? ==> r.value.JObject? && KeysAllowed(r.value.fields)
    ensures r.Err? ==> r.error == FromEnvelope(data, newImageTag).error
  {
    var clean := FromEnvelope(data, newImageTag);
    if clean.Err? then Err(clean.error)
    else
      SanitizeAndRetagShape(data.fields["taskDefinition"].fields, newImageTag);
      Ok(JObject(clean.value))
  }

  /**
   The document is written without its envelope, so running the script again
   on the file it wrote fails with a KeyError for 'taskDefinition'.
   */
  lemma UpdateTdNotRerunnable(data: Json, first: string, second: string)
    requires UpdateTd(data, first).Ok?
    ensures UpdateTd(UpdateTd(data, first).value, second) == Err(MissingKey("taskDefinition"))
  {
    NoEnvelopeKey(UpdateTd(data, first).value.fields);
  }

  lemma NoEnvelopeKey(out: Object)
    requires KeysAllowed(out)
    ensures "taskDefinition" !in out
  {
  }

  /**
   Given an enveloped document, the script writes exactly the transform of
   the wrapped task definition, and wrapping its output again and rerunning
   with the same tag writes the same thing.
   */
  lemma UpdateTdIdempotentOnEnvelope(td: Object, tag: string)
    requires UpdateTd(Envelope(td), tag).Ok?
    ensures UpdateTd(Envelope(td), tag) == Ok(JObject(SanitizeAndRetag(td, tag).value))
    ensures UpdateTd(Envelope(UpdateTd(Envelope(td), tag).value.fields), tag) == UpdateTd(Envelope(td), tag)
  {
    FromEnvelopeUnwraps(Envelope(td), td, tag);
    var out := SanitizeAndRetag(td, tag).value;
    FromEnvelopeUnwraps(Envelope(out), out, tag);
    SanitizeAndRetagIdempotent(td, tag);
  }
}
