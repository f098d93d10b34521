/**
 Building the document to re-register from a described task definition:
 the required keys, `volumes` (defaulting to an empty list) and the
 allow-listed optional keys that are present and not None. Everything else
 the platform reports (revision, status, `taskDefinitionArn`, timestamps) is dropped.
 */
module Sanitize {
  import opened JsonValues
  import opened Errors

  /** The allow-listed optional keys, in the order the scripts visit them. */
  const ApiFields: seq<string> := [
    "taskRoleArn", "executionRoleArn", "networkMode",
    "placementConstraints", "requiresCompatibilities",
    "cpu", "memory", "runtimePlatform"
  ]

  const OptionalKeys: set<string> := set f | f in ApiFields

  /** The keys the clean document is always built with. */
  const RequiredKeys: set<string> := {"family", "containerDefinitions", "volumes"}

  const AllowedKeys: set<string> := RequiredKeys + OptionalKeys

  /** The required keys and the allow-list do not overlap. */
  lemma RequiredNotOptional()
    ensures "family" !in ApiFields && "containerDefinitions" !in ApiFields && "volumes" !in ApiFields
  {
  }

  /** `td.get('volumes', [])`: a present value is kept even when it is None. */
  function Volumes(td: Object): (r: Json)
    ensures "volumes" in td ==> Subscript(JObject(td), "volumes", "taskDefinition") == Ok(r)
    ensures "volumes" !in td ==> r == JArray([])
  {
    if "volumes" in td then td["volumes"] else JArray([])
  }

  /** An optional key the loop copies: present and not None. */
  predicate Copied(td: Object, key: string)
  {
    key in td && td[key] != JNull
  }

  /**
   The optional-field loop: for each field in turn, `val = td.get(field)` and,
   unless it is None, `clean[field] = val`.
   */
  function CopyPresent(td: Object, fields: seq<string>, clean: Object): (r: Object)
    ensures forall k :: k in r <==> k in clean || (k in fields && Copied(td, k))
    ensures forall k :: k in r && k in fields && Copied(td, k) ==> r[k] == td[k]
    ensures forall k :: k in r && !(k in fields && Copied(td, k)) ==> r[k] == clean[k]
    decreases |fields|
  {
    if fields == [] then clean
    else
      var f := fields[0];
      var clean' := if Copied(td, f) then clean[f := td[f]] else clean;
      CopyPresent(td, fields[1..], clean')
  }

  /** The clean document has every required key and nothing outside the allowed keys. */
  ghost predicate KeysAllowed(out: Object)
  {
    RequiredKeys <= out.Keys <= AllowedKeys
  }

  /** The required keys are copied from `td`, with `volumes` defaulted. */
  ghost predicate RequiredCopied(td: Object, out: Object)
  {
    && "family" in td && "family" in out && out["family"] == td["family"]
    && "containerDefinitions" in td && "containerDefinitions" in out
    && out["containerDefinitions"] == td["containerDefinitions"]
    && "volumes" in out && out["volumes"] == Volumes(td)
  }

  /**
   Each optional key is present exactly when `td` has it with a value other
   than None, and then with that value.
   */
  ghost predicate OptionalCopied(td: Object, out: Object)
  {
    && (forall k :: k in OptionalKeys ==> (k in out <==> Copied(td, k)))
    && (forall k :: k in OptionalKeys && k in out ==> out[k] == td[k])
  }

  /** What a clean document built from `td` looks like. */
  ghost predicate SanitizedFrom(td: Object, out: Object)
  {
    KeysAllowed(out) && RequiredCopied(td, out) && OptionalCopied(td, out)
  }

  /** A document the sanitiser would leave as it is. */
  ghost predicate IsClean(c: Object)
  {
    && c.Keys <= AllowedKeys
    && RequiredKeys <= c.Keys
    && (forall k :: k in OptionalKeys && k in c ==> c[k] != JNull)
  }

  /**
   The clean document, or the KeyError of `td['family']` or
   `td['containerDefinitions']`, in the order the dict literal evaluates them.
   */
  function Clean(td: Object): (r: Result<Object>)
    ensures "family" !in td ==> r == Err(MissingKey("family"))
    ensures "family" in td && "containerDefinitions" !in td ==> r == Err(MissingKey("containerDefinitions"))
    ensures "family" in td && "containerDefinitions" in td ==> r.Ok? && SanitizedFrom(td, r.value)
  {
    RequiredNotOptional();
    if "family" !in td then Err(MissingKey("family"))
    else if "containerDefinitions" !in td then Err(MissingKey("containerDefinitions"))
    else Ok(Required(td) + PresentOptional(td))
  }

  /** The allow-listed keys `td` holds with a value other than None, with those values. */
  function PresentOptional(td: Object): (r: Object)
  {
    map k | k in OptionalKeys && Copied(td, k) :: td[k]
  }

  /**
   The optional-field loop, run over the allow-list from the dict literal,
   builds the same document as `Clean`.
   */
  lemma CleanIsTheLoop(td: Object)
    requires "family" in td && "containerDefinitions" in td
    ensures Clean(td) == Ok(CopyPresent(td, ApiFields, Required(td)))
  {
    CleanIsLoopOver(td, ApiFields);
  }

  /** The same for any list of fields that holds exactly the allow-listed keys. */
  lemma CleanIsLoopOver(td: Object, fields: seq<string>)
    requires "family" in td && "containerDefinitions" in td
    requires forall k :: k in fields <==> k in OptionalKeys
    ensures Clean(td) == Ok(CopyPresent(td, fields, Required(td)))
  {
    LoopIsUnion(td, fields, Required(td));
    assert (map k | k in fields && Copied(td, k) :: td[k]) == PresentOptional(td);
  }

  /** The loop over `fields` overwrites `clean` with the present, non-None entries of `td`. */
  lemma LoopIsUnion(td: Object, fields: seq<string>, clean: Object)
    ensures CopyPresent(td, fields, clean) == clean + map k | k in fields && Copied(td, k) :: td[k]
  {
    var loop := CopyPresent(td, fields, clean);
    var union := clean + map k | k in fields && Copied(td, k) :: td[k];
    assert loop.Keys == union.Keys;
    forall k | k in loop
      ensures loop[k] == union[k]
    {
    }
  }

  /** The dict literal the clean document starts from. */
  function Required(td: Object): (base: Object)
    requires "family" in td && "containerDefinitions" in td
    ensures base.Keys == RequiredKeys
    ensures Ok(base["family"]) == Subscript(JObject(td), "family", "taskDefinition")
    ensures Ok(base["containerDefinitions"]) == Subscript(JObject(td), "containerDefinitions", "taskDefinition")
    ensures base["volumes"] == Volumes(td)
  {
    map[
      "family" := td["family"],
      "containerDefinitions" := td["containerDefinitions"],
      "volumes" := Volumes(td)]
  }

  /** The description of a clean document pins it down completely. */
  lemma SanitizedUnique(td: Object, a: Object, b: Object)
    requires SanitizedFrom(td, a) && SanitizedFrom(td, b)
    ensures a == b
  {
    forall k | k in a
      ensures k in b && a[k] == b[k]
    {
      assert k in AllowedKeys;
    }
    forall k | k in b
      ensures k in a
    {
      assert k in AllowedKeys;
    }
  }

  /** Whatever the sanitiser produces is clean. */
  lemma CleanOutputIsClean(td: Object)
    requires Clean(td).Ok?
    ensures IsClean(Clean(td).value)
  {
  }

  /** A clean document passes through the sanitiser unchanged. */
  lemma CleanKeepsClean(c: Object)
    requires IsClean(c)
    ensures Clean(c) == Ok(c)
  {
    assert SanitizedFrom(c, c);
    SanitizedUnique(c, Clean(c).value, c);
  }

  /** The fixed points of the sanitiser are exactly the clean documents. */
  lemma CleanFixedPoints(c: Object)
    ensures Clean(c) == Ok(c) <==> IsClean(c)
  {
    if IsClean(c) {
      CleanKeepsClean(c);
    }
  }

  /** A clean document stays clean when its containerDefinitions value is replaced. */
  lemma CleanWithDefinitions(c: Object, v: Json)
    requires IsClean(c)
    ensures IsClean(c["containerDefinitions" := v])
  {
    RequiredNotOptional();
  }

  /** Sanitising is idempotent. */
  lemma CleanIdempotent(td: Object)
    requires Clean(td).Ok?
    ensures Clean(Clean(td).value) == Clean(td)
  {
    CleanKeepsClean(Clean(td).value);
  }

  /**
   No key of the clean document maps to None unless it is a required key that
   already held None in `td`: absent and None optional keys are both omitted.
   */
  lemma NullOnlyFromRequired(td: Object, k: string)
    requires Clean(td).Ok?
    requires k in Clean(td).value && Clean(td).value[k] == JNull
    ensures k in RequiredKeys && k in td && td[k] == JNull
  {
    assert k !in OptionalKeys;
    if k == "volumes" {
      assert Volumes(td) == JNull;
    }
  }

  /** Fields the platform assigns on registration never reach the clean document. */
  lemma ReadOnlyFieldsDropped(td: Object)
    requires Clean(td).Ok?
    ensures "revision" !in Clean(td).value
    ensures "status" !in Clean(td).value
    ensures "taskDefinitionArn" !in Clean(td).value
    ensures "registeredAt" !in Clean(td).value
  {
    ReadOnlyNotAllowed(Clean(td).value);
  }

  /** No read-only field is an allowed key. */
  lemma ReadOnlyNotAllowed(out: Object)
    requires KeysAllowed(out)
    ensures "revision" !in out && "status" !in out
    ensures "taskDefinitionArn" !in out && "registeredAt" !in out
  {
  }
}
