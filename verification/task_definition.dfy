/**
 The whole sanitise-and-retag transform both scripts perform on a task
 definition: build the clean document, then give every container image the
 new tag. The tag is a parameter: `update_td` takes it from the command line
 and `deploy` fixes it (see module Deploy).
 */
module TaskDefinition {
  import opened JsonValues
  import opened Errors
  import opened ImageRef
  import opened Sanitize

  /** A container the image loop can handle: a dict whose `image` is a str. */
  predicate Retaggable(cd: Json)
  {
    cd.JObject? && "image" in cd.fields && cd.fields["image"].JString?
  }

  /**
   `out` is the container `cd` with its image retagged: the same keys, the
   same value under every key but `image`, and `image` retagged.
   */
  ghost predicate RetaggedFrom(cd: Json, out: Json, tag: string)
  {
    && Retaggable(cd)
    && out.JObject?
    && out.fields.Keys == cd.fields.Keys
    && out.fields["image"] == JString(Retag(cd.fields["image"].s, tag))
    && (forall k :: k in cd.fields && k != "image" ==> out.fields[k] == cd.fields[k])
  }

  /**
   One pass of the image loop over the element at `index`:
   `cd['image'] = f"{cd['image'].split(':')[0]}:{tag}"`, or the exception
   that line raises.
   */
  function RetagContainer(cd: Json, index: nat, tag: string): (r: Result<Json>)
    ensures r.Ok? <==> Retaggable(cd)
    ensures r.Ok? ==> RetaggedFrom(cd, r.value, tag)
    ensures !cd.JObject? ==> r == Err(ContainerNotObject(index))
    ensures cd.JObject? && "image" !in cd.fields ==> r == Err(MissingImage(index))
    ensures cd.JObject? && "image" in cd.fields && !cd.fields["image"].JString? ==> r == Err(ImageNotString(index))
  {
    match cd
    case JObject(fields) =>
      if "image" !in fields then Err(MissingImage(index))
      else if !fields["image"].JString? then Err(ImageNotString(index))
      else Ok(JObject(fields["image" := JString(Retag(fields["image"].s, tag))]))
    case _ => Err(ContainerNotObject(index))
  }

  /** `i` is where the image loop stops: the first container it cannot handle. */
  ghost predicate FirstFailure(cds: seq<Json>, i: int)
  {
    0 <= i < |cds| && !Retaggable(cds[i]) && forall j :: 0 <= j < i ==> Retaggable(cds[j])
  }

  /**
   The image loop over a list of containers. It either retags every container,
   keeping their number and order, or raises the exception of the first one
   it cannot handle; there is no partially retagged result.
   */
  function RetagList(cds: seq<Json>, tag: string): (r: Result<seq<Json>>)
    ensures r.Ok? <==> forall i :: 0 <= i < |cds| ==> Retaggable(cds[i])
    ensures r.Ok? ==> |r.value| == |cds|
    ensures r.Ok? ==> forall i :: 0 <= i < |cds| ==> RetaggedFrom(cds[i], r.value[i], tag)
    decreases |cds|
  {
    if cds == [] then Ok([])
    else
      var n := |cds| - 1;
      var front := RetagList(cds[..n], tag);
      assert forall i :: 0 <= i < n ==> cds[..n][i] == cds[i];
      if front.Err? then Err(front.error)
      else
        var last := RetagContainer(cds[n], n, tag);
        if last.Err? then Err(last.error)
        else Ok(front.value + [last.value])
  }

  /** The loop raises the exception of the first container it cannot handle. */
  lemma {:induction false} RetagListFirstFailure(cds: seq<Json>, i: int, tag: string)
    requires FirstFailure(cds, i)
    ensures RetagList(cds, tag) == Err(RetagContainer(cds[i], i, tag).error)
    decreases |cds|
  {
    var n := |cds| - 1;
    if i < n {
      assert FirstFailure(cds[..n], i);
      RetagListFirstFailure(cds[..n], i, tag);
    } else {
      assert forall j :: 0 <= j < n ==> Retaggable(cds[..n][j]);
    }
  }

  /** A container the loop cannot handle, after a prefix it could, is the first failure. */
  lemma FailureAfterPrefix(cds: seq<Json>, i: nat, tag: string)
    requires i < |cds| && RetagList(cds[..i], tag).Ok? && !Retaggable(cds[i])
    ensures FirstFailure(cds, i)
  {
    assert forall j :: 0 <= j < i ==> cds[..i][j] == cds[j];
  }

  /** `xs[i] = v`, with what it does to the parts before and after `i`. */
  function InPlace(xs: seq<Json>, i: nat, v: Json): (ys: seq<Json>)
    requires i < |xs|
    ensures |ys| == |xs| && ys[..i + 1] == xs[..i] + [v]
    ensures forall j :: i < j < |xs| ==> ys[j] == xs[j]
  {
    xs[i := v]
  }

  /** One more successful container extends the loop's output by its retagged copy. */
  lemma RetagListExtend(cds: seq<Json>, i: nat, done: seq<Json>, c: Json, tag: string)
    requires i < |cds|
    requires RetagList(cds[..i], tag) == Ok(done)
    requires RetagContainer(cds[i], i, tag) == Ok(c)
    ensures RetagList(cds[..i + 1], tag) == Ok(done + [c])
  {
    assert cds[..i + 1][..i] == cds[..i];
  }

  /**
   The image loop as the scripts write it, updating the list in place, one
   container after the other, and stopping at the first exception.
   */
  method RetagEach(cds: seq<Json>, tag: string) returns (r: Result<seq<Json>>)
    ensures r == RetagList(cds, tag)
  {
    var out := cds;
    var i := 0;
    while i < |out|
      invariant 0 <= i <= |out| == |cds|
      invariant RetagList(cds[..i], tag) == Ok(out[..i])
      invariant forall j :: i <= j < |out| ==> out[j] == cds[j]
    {
      var c := RetagContainer(out[i], i, tag);
      if c.Err? {
        FailureAfterPrefix(cds, i, tag);
        RetagListFirstFailure(cds, i, tag);
        return Err(c.error);
      }
      RetagListExtend(cds, i, out[..i], c.value, tag);
      out := InPlace(out, i, c.value);
      i := i + 1;
    }
    assert out[..i] == out && cds[..i] == cds;
    return Ok(out);
  }

  /** How the loop treats a containerDefinitions value other than a list. */
  ghost predicate IteratesToNothing(v: Json)
  {
    v == JObject(map[]) || v == JString([])
  }

  /** The containerDefinitions value `w` is `v` after the image loop. */
  ghost predicate DefinitionsRetagged(v: Json, w: Json, tag: string)
  {
    || (&& v.JArray? && w.JArray? && |w.items| == |v.items|
        && forall i :: 0 <= i < |v.items| ==> RetaggedFrom(v.items[i], w.items[i], tag))
    || (IteratesToNothing(v) && w == v)
  }

  /**
   The image loop over whatever containerDefinitions holds. A list is
   retagged element by element. Iterating a dict or a str yields str values,
   on which `cd['image']` raises, so only an empty dict or str gets through,
   untouched; any other value is not iterable.
   */
  function RetagDefinitions(v: Json, tag: string): (r: Result<Json>)
    ensures r.Ok? <==> (v.JArray? && forall i :: 0 <= i < |v.items| ==> Retaggable(v.items[i])) || IteratesToNothing(v)
    ensures r.Ok? ==> DefinitionsRetagged(v, r.value, tag)
    ensures (v.JObject? || v.JString?) && !IteratesToNothing(v) ==> r == Err(ContainerNotObject(0))
    ensures (v.JNull? || v.JBool? || v.JNumber?) ==> r == Err(NotIterable)
    ensures v.JArray? && RetagList(v.items, tag).Err? ==> r == Err(RetagList(v.items, tag).error)
  {
    match v
    case JArray(items) =>
      var res := RetagList(items, tag);
      if res.Err? then Err(res.error) else Ok(JArray(res.value))
    case JObject(fields) =>
      if |fields| == 0 then (assert fields == map[]; Ok(v)) else Err(ContainerNotObject(0))
    case JString(s) => if s == [] then Ok(v) else Err(ContainerNotObject(0))
    case _ => Err(NotIterable)
  }

  /**
   The cleaned, retagged document, or the exception that stops the script
   before anything is written or registered.
   */
  function SanitizeAndRetag(td: Object, tag: string): (r: Result<Object>)
    ensures "family" !in td ==> r == Err(MissingKey("family"))
    ensures "family" in td && "containerDefinitions" !in td ==> r == Err(MissingKey("containerDefinitions"))
    ensures r.Ok? <==> "family" in td && "containerDefinitions" in td && RetagDefinitions(td["containerDefinitions"], tag).Ok?
    ensures "family" in td && "containerDefinitions" in td && RetagDefinitions(td["containerDefinitions"], tag).Err? ==>
      r == Err(RetagDefinitions(td["containerDefinitions"], tag).error)
  {
    var clean := Clean(td);
    if clean.Err? then Err(clean.error)
    else
      var defs := RetagDefinitions(clean.value["containerDefinitions"], tag);
      if defs.Err? then Err(defs.error)
      else Ok(clean.value["containerDefinitions" := defs.value])
  }

  /**
   A list of containers with a container the image loop cannot handle: the
   transform raises the exception of the first such container, after every
   container before it was retagged.
   */
  lemma FirstBadContainerRaises(td: Object, tag: string, i: int)
    requires "family" in td && "containerDefinitions" in td && td["containerDefinitions"].JArray?
    requires FirstFailure(td["containerDefinitions"].items, i)
    ensures SanitizeAndRetag(td, tag) == Err(RetagContainer(td["containerDefinitions"].items[i], i, tag).error)
  {
    RetagListFirstFailure(td["containerDefinitions"].items, i, tag);
  }

  /**
   A successful transform is the clean document of module Sanitize with only
   containerDefinitions changed, and that by the image loop.
   */
  lemma SanitizeAndRetagShape(td: Object, tag: string)
    requires SanitizeAndRetag(td, tag).Ok?
    ensures var out := SanitizeAndRetag(td, tag).value;
      && KeysAllowed(out)
      && SanitizedFrom(td, out["containerDefinitions" := td["containerDefinitions"]])
      && DefinitionsRetagged(td["containerDefinitions"], out["containerDefinitions"], tag)
  {
    var clean := Clean(td).value;
    var defs := RetagDefinitions(td["containerDefinitions"], tag).value;
    assert SanitizeAndRetag(td, tag).value == clean["containerDefinitions" := defs];
    ReplaceKey(clean, "containerDefinitions", defs);
  }

  /** Replacing the value of a key already present keeps the key set, and can be undone. */
  lemma ReplaceKey(m: Object, k: string, v: Json)
    requires k in m
    ensures m[k := v].Keys == m.Keys
    ensures m[k := v][k] == v
    ensures m[k := m[k]] == m
    ensures m[k := v][k := m[k]] == m
  {
  }

  /** Retagging an already retagged container changes nothing. */
  lemma RetaggedStable(cd: Json, out: Json, tag: string)
    requires RetaggedFrom(cd, out, tag)
    ensures RetagContainer(out, 0, tag) == Ok(out)
  {
    var again := RetagContainer(out, 0, tag).value;
    RetagIdempotent(cd.fields["image"].s, tag);
    assert again.fields == out.fields;
  }

  /** A container retagged twice with the same tag is the container retagged once. */
  lemma RetaggedTwice(cd: Json, out: Json, again: Json, tag: string)
    requires RetaggedFrom(cd, out, tag) && RetaggedFrom(out, again, tag)
    ensures again == out
  {
    RetagIdempotent(cd.fields["image"].s, tag);
    assert again.fields == out.fields;
  }

  /** Running the image loop over its own output changes nothing. */
  lemma RetagListIdempotent(cds: seq<Json>, tag: string)
    requires RetagList(cds, tag).Ok?
    ensures RetagList(RetagList(cds, tag).value, tag) == RetagList(cds, tag)
  {
    var xs := RetagList(cds, tag).value;
    assert forall i :: 0 <= i < |xs| ==> Retaggable(xs[i]);
    var ys := RetagList(xs, tag).value;
    forall i | 0 <= i < |xs|
      ensures ys[i] == xs[i]
    {
      RetaggedTwice(cds[i], xs[i], ys[i], tag);
    }
    assert ys == xs;
  }

  /**
   The transform is idempotent: fed its own output with the same tag, it
   returns that output unchanged.
   */
  lemma SanitizeAndRetagIdempotent(td: Object, tag: string)
    requires SanitizeAndRetag(td, tag).Ok?
    ensures SanitizeAndRetag(SanitizeAndRetag(td, tag).value, tag) == SanitizeAndRetag(td, tag)
  {
    var clean := Clean(td).value;
    CleanOutputIsClean(td);
    var v := td["containerDefinitions"];
    var defs := RetagDefinitions(v, tag).value;
    var out := clean["containerDefinitions" := defs];
    assert SanitizeAndRetag(td, tag).value == out;
    ReplaceKey(clean, "containerDefinitions", defs);
    CleanWithDefinitions(clean, defs);
    CleanKeepsClean(out);
    RetagDefinitionsIdempotent(v, tag);
    SanitizeAndRetagFixed(out, tag);
  }

  /** A clean document whose containers already carry the tag is left as it is. */
  lemma SanitizeAndRetagFixed(c: Object, tag: string)
    requires Clean(c) == Ok(c) && "containerDefinitions" in c
    requires RetagDefinitions(c["containerDefinitions"], tag) == Ok(c["containerDefinitions"])
    ensures SanitizeAndRetag(c, tag) == Ok(c)
  {
    SanitizeAndRetagValue(c, tag);
    ReplaceKey(c, "containerDefinitions", c["containerDefinitions"]);
  }

  lemma SanitizeAndRetagValue(c: Object, tag: string)
    requires Clean(c) == Ok(c) && "containerDefinitions" in c
    requires RetagDefinitions(c["containerDefinitions"], tag) == Ok(c["containerDefinitions"])
    ensures SanitizeAndRetag(c, tag) == Ok(c["containerDefinitions" := c["containerDefinitions"]])
  {
  }

  /** Running the image loop over its own output changes nothing, whatever containerDefinitions holds. */
  lemma RetagDefinitionsIdempotent(v: Json, tag: string)
    requires RetagDefinitions(v, tag).Ok?
    ensures RetagDefinitions(RetagDefinitions(v, tag).value, tag) == RetagDefinitions(v, tag)
  {
    if v.JArray? {
      RetagListIdempotent(v.items, tag);
    }
  }

  /** The tag is never validated: whether the transform succeeds does not depend on it. */
  lemma TagNeverRejected(td: Object, tag: string, other: string)
    ensures SanitizeAndRetag(td, tag).Ok? <==> SanitizeAndRetag(td, other).Ok?
  {
  }

  /** A container holding only an image `repo:old` becomes one holding only `repo:tag`. */
  lemma ImageOnlyContainer(repo: string, oldTag: string, tag: string, index: nat)
    requires Colon !in repo
    ensures RetagContainer(JObject(map["image" := JString(repo + [Colon] + oldTag)]), index, tag)
         == Ok(JObject(map["image" := JString(repo + [Colon] + tag)]))
  {
    RetagReplacesTag(repo, oldTag, tag);
    var m := map["image" := JString(repo + [Colon] + oldTag)];
    assert m["image" := JString(repo + [Colon] + tag)] == map["image" := JString(repo + [Colon] + tag)];
  }

  /** Two containers, tag "9": `a:1` and `b:2` become `a:9` and `b:9`, in order. */
  lemma TwoContainersExample()
    ensures RetagList([JObject(map["image" := JString("a:1")]), JObject(map["image" := JString("b:2")])], "9")
         == Ok([JObject(map["image" := JString("a:9")]), JObject(map["image" := JString("b:9")])])
  {
    var a, b := "a", "b";
    assert a + [Colon] + "1" == "a:1" && a + [Colon] + "9" == "a:9";
    assert b + [Colon] + "2" == "b:2" && b + [Colon] + "9" == "b:9";
    var c0, c1 := JObject(map["image" := JString("a:1")]), JObject(map["image" := JString("b:2")]);
    var d0, d1 := JObject(map["image" := JString("a:9")]), JObject(map["image" := JString("b:9")]);
    ImageOnlyContainer(a, "1", "9", 0);
    ImageOnlyContainer(b, "2", "9", 1);
    var cds := [c0, c1];
    assert cds[..0] == [] && cds[..2] == cds;
    RetagListExtend(cds, 0, [], d0, "9");
    RetagListExtend(cds, 1, [] + [d0], d1, "9");
    assert [] + [d0] + [d1] == [d0, d1];
  }

  /** The envelope `describe-task-definition` prints and update_td reads. */
  function Envelope(td: Object): (r: Json)
  {
    JObject(map["taskDefinition" := JObject(td)])
  }

  /**
   `td = data['taskDefinition']` followed by the transform. A `td` that is not
   a dict fails at `td['family']`.
   */
  function FromEnvelope(data: Json, tag: string): (r: Result<Object>)
    ensures !data.JObject? ==> r == Err(NotAnObject("document"))
    ensures data.JObject? && "taskDefinition" !in data.fields ==> r == Err(MissingKey("taskDefinition"))
    ensures data.JObject? && "taskDefinition" in data.fields && !data.fields["taskDefinition"].JObject? ==>
      r == Err(NotAnObject("taskDefinition"))
    ensures data.JObject? && "taskDefinition" in data.fields && data.fields["taskDefinition"].JObject? ==>
      r == SanitizeAndRetag(data.fields["taskDefinition"].fields, tag)
  {
    var td := Subscript(data, "taskDefinition", "document");
    if td.Err? then Err(td.error)
    else if !td.value.JObject? then Err(NotAnObject("taskDefinition"))
    else SanitizeAndRetag(td.value.fields, tag)
  }

  /**
   Whatever else the envelope holds, only its `taskDefinition` entry matters:
   the result is the transform of that entry, and the one-key envelope the
   describe command prints gives back the task definition it wraps.
   */
  lemma FromEnvelopeUnwraps(data: Json, td: Object, tag: string)
    requires data.JObject? && "taskDefinition" in data.fields && data.fields["taskDefinition"] == JObject(td)
    ensures FromEnvelope(data, tag) == SanitizeAndRetag(td, tag)
    ensures FromEnvelope(data, tag) == FromEnvelope(Envelope(td), tag)
  {
  }
}
