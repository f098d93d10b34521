# Task-definition sanitise-and-retag, modelled in Dafny

Two scripts in this repository manage container task definitions for a cloud
container service. Both apply the same transform to a described task
definition:

1. They build a clean document. It holds `family` and `containerDefinitions`, both
   required, and `volumes`, which defaults to `[]`.
2. They copy each of eight allow-listed optional keys when it is present and not
   `None`. All other keys are dropped, such as revision, status and `taskDefinitionArn`.
3. They rewrite every container's `image` to the text before its first `:`,
   followed by `:` and the new tag.

`update_td.py` reads the described definition from a file and takes the tag from
the command line. It writes the clean document back to the same file.
`deploy_ecs.py` describes the definition through the `aws` CLI and uses the fixed tag
`202601151258`. It then registers the result and updates the service to the
new revision.

The model is functional. JSON values are a datatype with `JNull` for `None`.
A task definition is a `map<string, Json>`. The transform is a single
`SanitizeAndRetag(td, tag)` that returns either the clean document or the
Python exception that stops the script. Both scripts use this one function.
The CLI calls are abstract functions from their arguments to success, with
the parsed stdout, or to failure, with the stderr text. `Deploy` records which
calls are made and in what order.

Files and modules:

- `json_value.dfy`: `JsonValues` (the `Json` datatype) and `Errors`. `Errors`
  holds the exceptions the scripts can raise, a `Result` type and Python's
  `v[key]` lookup.
- `image_ref.dfy`: `ImageRef`. It covers Python's `str.split` and `join`, with
  both round trips. It also covers `ImageBase` (`split(':')[0]`), `Retag` and
  their laws.
- `sanitize.dfy`: `Sanitize`, the clean document and the optional-field loop.
- `task_definition.dfy`: `TaskDefinition`. It covers the image loop, as a
  function and as the in-place loop the scripts write, and the whole transform
  and its idempotence. It also covers unwrapping the `taskDefinition`
  envelope.
- `update_td.dfy`: `UpdateTd`, the file script's transform.
- `deploy_ecs.py` is modelled in `deploy.dfy`: `Deploy`, the step sequencing of
  `deploy` and of the `__main__` block.

Behaviour of the code that the model keeps:

- The tag is not validated: an empty tag is accepted, and `repo:old` becomes
  `repo:`.
- Missing keys raise Python's own `KeyError`. The required keys are looked up
  in the order the dict literal evaluates them, `family` first.
- `volumes: null` is copied as `null`, because `td.get('volumes', [])` returns
  the stored `None`. Only the optional allow-listed keys are guaranteed never
  to map to `null`.
- `containerDefinitions` is aliased and mutated in place, not deep-copied. The
  model returns new values. The scripts never read the aliased input again, so
  nothing observable differs.
- In `deploy`, a failed CLI call returns early, and `__main__` moves on to the
  next service. A `KeyError`, `TypeError` or `AttributeError` raised by the
  transform, by the ARN lookup, or by `subprocess.run` on a non-str ARN is not
  caught. It ends the script, so later
  services are not attempted.
- Iterating `containerDefinitions` follows Python. An empty dict or an empty
  string iterates zero times and is kept unchanged. A non-empty dict or string
  yields `str` items, and `cd['image']` on those raises `TypeError`. `null`, a
  number or a boolean is not iterable.
- `split(':')[0]` cuts at the first colon, so `host:5000/app:1` becomes
  `host:<tag>`.

## Model

| member | source | states |
|---|---|---|
| `ImageRef.Split` | infra/scripts/update_td.py:30 | `str.split(':')` yields one more piece than there are colons. No piece contains a colon. The first piece is the prefix of the string that ends at the first colon or at the end. |
| `ImageRef.JoinSplit` | infra/scripts/update_td.py:30 | Joining the pieces of a split with the separator gives back the original string, so splitting loses nothing. |
| `ImageRef.SplitJoin` | infra/scripts/update_td.py:30 | Splitting a join of colon-free pieces gives back exactly those pieces. This is the other direction of the round trip. |
| `ImageRef.ImageBase` | infra/scripts/update_td.py:30 | `image.split(':')[0]` is a colon-free prefix of the image that stops at the first colon or at the end of the string. |
| `ImageRef.ImageBaseUnique` | infra/scripts/update_td.py:30 | Exactly one prefix has that description, so the repository part is fully determined by the first colon. |
| `ImageRef.Retag` | infra/scripts/update_td.py:30-31 | The new image is the longest colon-free prefix of the old one (everything before the first colon, or the whole string), then a colon, then the tag exactly as given. |
| `ImageRef.RetagSplit` | infra/scripts/deploy_ecs.py:38-39 | A retagged image splits into the old repository part followed by the pieces of the new tag. With a colon-free tag, it splits into exactly `[repository, tag]`. |
| `ImageRef.RetagKeepsRepository` | infra/scripts/update_td.py:30-31 | The text before the first colon is the same before and after a retag. |
| `ImageRef.RetagLastTagWins` | infra/scripts/deploy_ecs.py:38-39 | Retagging with `t1` and then with `t2` gives the same result as retagging with `t2` alone. |
| `ImageRef.RetagIdempotent` | infra/scripts/update_td.py:30-31 | Retagging twice with the same tag is the same as retagging once. |
| `ImageRef.RetagReplacesTag` | infra/scripts/update_td.py:29-31 | Take a colon-free `repo`, any old tag (even one containing colons) and any new tag (even empty). Then `repo:old` and a bare `repo` both become `repo:tag`. |
| `ImageRef.RetagExamples` | infra/scripts/deploy_ecs.py:36-39 | `repo:oldtag` becomes `repo:abc123`, and `repo` becomes `repo:abc123`. An empty tag gives `repo:`. |
| `ImageRef.RetagRegistryPortExample` | infra/scripts/update_td.py:29-31 | With any tag, `host:5000/app:1` becomes `host:` followed by the tag: the registry port and the repository path are lost, because the cut is at the first colon. |
| `Errors.Subscript` | infra/scripts/deploy_ecs.py:14 | `v[key]` yields the stored value when `v` is a dict holding `key`. Otherwise it raises `TypeError` for a non-dict, or `KeyError` for a missing key. |
| `Sanitize.CopyPresent` | infra/scripts/update_td.py:23-26 | After the optional-field loop, a key is present when it was already present, or when it is one of the visited fields and the input holds it with a value other than `None`. Such a key has the input's value; every other key keeps its earlier value. |
| `Sanitize.Volumes` | infra/scripts/update_td.py:13 | `td.get('volumes', [])`: when `volumes` is present, its stored value is returned, the same as `td['volumes']` would give, even `None`. When it is absent, the result is `[]`. |
| `Sanitize.Required` | infra/scripts/update_td.py:10-14 | The dict literal has exactly the keys `family`, `containerDefinitions` and `volumes`. The first two hold what `td[key]` yields, and `volumes` holds `td.get('volumes', [])`. |
| `Sanitize.LoopIsUnion` | infra/scripts/update_td.py:23-26 | The optional-field loop over any list of fields adds the input's present non-`None` entries for those fields on top of the starting dict. Where both have a key, the input's entry wins. |
| `Sanitize.CleanIsTheLoop` | infra/scripts/deploy_ecs.py:17-33 | Run over the eight-key allow-list from the required-key dict literal, the loop builds exactly the document `Clean` returns. `Clean` is the required keys plus the present non-`None` allow-listed entries. |
| `Sanitize.Clean` | infra/scripts/update_td.py:10-26 | A missing `family` raises `KeyError('family')`. Otherwise a missing `containerDefinitions` raises `KeyError('containerDefinitions')`. With both present, the result is a document with the three required keys and nothing outside them and the eight allow-listed keys. `family` and `containerDefinitions` are copied, and `volumes` is the input's value when present (even `None`) and `[]` when absent. An allow-listed key is present if and only if the input has it with a value other than `None`, and then with that value. |
| `Sanitize.SanitizedUnique` | infra/scripts/update_td.py:10-26 | At most one document has the shape described for `Sanitize.Clean` for a given input, so that description pins the clean document down completely. |
| `Sanitize.CleanFixedPoints` | infra/scripts/deploy_ecs.py:17-33 | Sanitising returns a document unchanged if and only if it is clean. Clean means: allowed keys only, required keys present, no optional key mapping to `None`. |
| `Sanitize.CleanIdempotent` | infra/scripts/update_td.py:10-26 | Sanitising a clean document again gives the same document. |
| `Sanitize.NullOnlyFromRequired` | infra/scripts/deploy_ecs.py:20-33 | A key of the clean document that maps to `None` is a required key that already held `None` in the input. Absent and `None` optional keys are both omitted. |
| `Sanitize.ReadOnlyFieldsDropped` | infra/scripts/deploy_ecs.py:17-33 | `revision`, `status`, `taskDefinitionArn` and `registeredAt` never appear in the clean document. |
| `TaskDefinition.RetagContainer` | infra/scripts/update_td.py:29-31 | One pass of the image loop succeeds if and only if the container is a dict whose `image` is a string. The result has the same keys and the same values except `image`, which is retagged. Otherwise it raises `TypeError` for a non-dict, `KeyError` when `image` is missing, or `AttributeError` when `image` is not a string. |
| `TaskDefinition.RetagList` | infra/scripts/deploy_ecs.py:37-39 | The image loop over a list succeeds if and only if every container can be retagged. The number and order of containers are kept, and container i of the output is container i of the input, retagged. |
| `TaskDefinition.RetagListFirstFailure` | infra/scripts/update_td.py:29-31 | When the loop fails, it raises the exception of the first container it cannot handle. |
| `TaskDefinition.ImageOnlyContainer` | infra/scripts/update_td.py:29-31 | A container holding only `image` `repo:old`, with a colon-free `repo`, becomes one holding only `repo:tag`. |
| `TaskDefinition.RetagEach` | infra/scripts/update_td.py:29-31 | The loop as written, which updates the list in place one index at a time and stops at the first exception, computes the same result as `RetagList`. |
| `TaskDefinition.RetagDefinitions` | infra/scripts/deploy_ecs.py:37-39 | A list value succeeds if and only if all of its containers can be retagged, and is then retagged element by element. Otherwise the loop raises the exception of the failing list. An empty dict or empty string passes through unchanged. A non-empty dict or string raises `TypeError` at index 0. `null`, numbers and booleans are not iterable. |
| `TaskDefinition.SanitizeAndRetag` | infra/scripts/update_td.py:8-31 | The transform raises the `KeyError` of the first missing required key. Otherwise it succeeds if and only if the image loop over `containerDefinitions` succeeds. When that loop fails, the transform raises exactly the loop's exception. |
| `TaskDefinition.FirstBadContainerRaises` | infra/scripts/update_td.py:29-31 | With a list of containers, the transform raises the exception of the first container it cannot handle: `KeyError('image')`, `TypeError` or `AttributeError`, whatever follows it in the list. |
| `TaskDefinition.SanitizeAndRetagShape` | infra/scripts/deploy_ecs.py:17-39 | On success, the output has only allowed keys. Putting the input's `containerDefinitions` back gives exactly the clean document. Its `containerDefinitions` is the input's, run through the image loop. |
| `TaskDefinition.RetaggedStable` | infra/scripts/deploy_ecs.py:38-39 | A container that has been retagged is left unchanged by another retag with the same tag. |
| `TaskDefinition.RetagListIdempotent` | infra/scripts/update_td.py:29-31 | Running the image loop over its own output with the same tag changes nothing. |
| `TaskDefinition.RetagDefinitionsIdempotent` | infra/scripts/update_td.py:29-31 | The same holds for any `containerDefinitions` value the loop accepts. |
| `TaskDefinition.SanitizeAndRetagIdempotent` | infra/scripts/deploy_ecs.py:17-39 | The whole transform is idempotent. Applied to its own output with the same tag, it returns that output. |
| `TaskDefinition.TagNeverRejected` | infra/scripts/update_td.py:31 | Whether the transform succeeds does not depend on the tag. No tag, not even the empty one, is rejected. |
| `TaskDefinition.TwoContainersExample` | infra/scripts/deploy_ecs.py:37-39 | `[{"image":"a:1"},{"image":"b:2"}]` with tag `9` becomes `[{"image":"a:9"},{"image":"b:9"}]`. |
| `TaskDefinition.FromEnvelope` | infra/scripts/update_td.py:8 | `data['taskDefinition']` raises `TypeError` on a non-dict document and `KeyError` when the key is missing. A non-dict entry raises `TypeError` at `td['family']`. A dict entry is handed to the transform, and the result is exactly the transform's result or exception. |
| `TaskDefinition.FromEnvelopeUnwraps` | infra/scripts/deploy_ecs.py:13-14 | For any document whose `taskDefinition` entry is a dict, whatever other top-level keys it has, the result is the transform of that entry. It equals the result for the one-key envelope the describe command prints. |
| `UpdateTd.UpdateTd` | infra/scripts/update_td.py:4-34 | The script writes a document exactly when unwrapping and transforming succeed. What it writes is the transformed `data['taskDefinition']`, whose keys are the required ones plus allow-listed ones. Otherwise it stops with the same exception. |
| `UpdateTd.UpdateTdNotRerunnable` | infra/scripts/update_td.py:33-34 | The written document has no `taskDefinition` envelope. Running the script again on its own output therefore raises `KeyError('taskDefinition')`. |
| `UpdateTd.UpdateTdIdempotentOnEnvelope` | infra/scripts/update_td.py:8-34 | For an enveloped definition, the script writes exactly the transform. Wrapping that output again and rerunning with the same tag writes the same document. |
| `Deploy.RegisteredArn` | infra/scripts/deploy_ecs.py:49-54 | The lookup succeeds if and only if the registration output is a dict whose `taskDefinition` is a dict whose `taskDefinitionArn` is a string, and that string is returned. A missing or non-dict level raises that subscript's `KeyError` or `TypeError`, outer level first. A non-str ARN gives the `TypeError` that `subprocess.run` raises for the update command line. |
| `Deploy.EcsTransform` | infra/scripts/deploy_ecs.py:13-39 | Deploy's transform, with the tag fixed at `202601151258`, succeeds exactly when `update_td` with that tag would. On success, `update_td` would write the same document. On failure, it raises the same exception. |
| `Deploy.Deploy` | infra/scripts/deploy_ecs.py:5-57 | Each step is attempted exactly when the previous one succeeded. Describe is always the first call. If describe fails, nothing else is called and the run ends with its error. If the transform raises, the run ends with that exception after the describe. Otherwise register is called with the transformed document. If register fails, update is not called. After a successful register, update is called, with the reported ARN on cluster and service `service`, exactly when the ARN lookup succeeds. If the lookup fails, the run ends with that exception. A failed update ends the run with its error. The run succeeds if and only if all three calls were made and update succeeded. |
| `Deploy.DeployRegistersUpdateTdOutput` | infra/scripts/deploy_ecs.py:17-42 | `deploy` registers exactly the document that `update_td` would write for the same described definition with the tag `202601151258`. |
| `Deploy.DeployAll` | infra/scripts/deploy_ecs.py:61-63 | Services are deployed in order. Each run is that service's `deploy`. Only the last run can have raised. When fewer services were run than listed, the last run raised. |
| `Deploy.RunInTurn` | infra/scripts/deploy_ecs.py:61-63 | For any per-service deploy, runs are made in the listed order, each the deploy of its service. Only the last run can have raised, and stopping early means the last run raised. |
| `Deploy.AttemptedIffNoEarlierRaise` | infra/scripts/deploy_ecs.py:61-63 | A service is attempted if and only if no earlier service raised an exception. Earlier early returns do not stop later services. |
| `Deploy.FailedDescribeContinues` | infra/scripts/deploy_ecs.py:9-11 | When describing the first of two services fails, the second is still attempted. |

## Left out

- The `aws` CLI calls (`subprocess.run`) and everything the cloud platform does on describe, register and update. Each call is an abstract function from its arguments to success or failure. An exception from `subprocess.run` itself, such as a missing `aws` binary, is not modelled. The one exception it raises that the model does keep is the `TypeError` for a non-str ARN on the update command line (`Deploy.RegisteredArn`).
- JSON decoding and encoding (`json.loads`, `json.dumps`, `json.load`, `json.dump`) and opening, reading and writing the file. Documents are given and returned as decoded values. A stdout that is not valid JSON, which would make `json.loads` raise, is not modelled.
- The `print` diagnostics, including the registered ARN on line 50, and the traceback of an uncaught exception. These are output only.
- `sys.argv` handling in `update_td.py`. The hardcoded service names `parrot-dev-backend` and `parrot-dev-frontend` are also left out: `DeployAll` takes the list of services as a parameter.
- Platform state across services. One `Cli` value answers for every service in `DeployAll`, so a later service's describe or register result cannot depend on what an earlier run registered or updated. The script describes and registers a differently named task definition for each of its two services, and no stated property relies on such a dependency.
- Key order of the written JSON objects, which follows Python dict insertion order. Maps in the model are unordered.
- Python's aliasing of `containerDefinitions` and the in-place mutation of the input's container dicts. The model uses value semantics.
- JSON numbers are integers in the model. Values other than `image` strings are only copied and compared, so floats make no difference here.
- `Deploy.Deploy` is stated for any transform. The script's own transform is `Deploy.EcsTransform`, which is `FromEnvelope` with tag `202601151258`. Keeping the orchestration proofs independent of the transform keeps them small. `Deploy.DeployRegistersUpdateTdOutput` states the instantiated fact.
