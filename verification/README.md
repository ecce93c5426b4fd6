# JPCImporter upload-and-activate workflow, in Dafny

JPCImporter is an AutoPkg processor. It uploads a freshly built macOS installer
package to a Jamf Pro server and points the application's test policy
(`TEST-<title>`) at the new package. This project models that processor's
workflow and proves what it promises:

1. it derives the package's file name and title from `pkg_path`;
2. it looks the package up by name and stops with the sentinel `0` if the server
   already has it;
3. it uploads the file through `curl` to `<server>/dbfileupload` with four fixed
   headers, and rejects an empty `id` in the reply;
4. it PUTs the package metadata to `packages/id/<id>`. While the server settles,
   it retries with a fixed 20-unit pause, for at most 11 attempts;
5. it fetches `policies/name/TEST-<title>`. In the policy it rewrites the package
   id, the package name and `general/enabled`, and PUTs the policy back to
   `policies/id/<general/id>`;
6. `main` clears the previous summary and publishes a new one unless the run
   returned the sentinel.

Everything the outside world answers is an input, collected in
`Importer.Responses`: each HTTP status, the curl exit status, the `id` texts
of the replies, and the fetched policy document. Every request the importer
makes is recorded, in order, as a `Jamf.Call`. A sleep is recorded as a `Pause`.
`Importer.Workflow` states what a run does, as a function of these inputs.
`Importer.Upload` is the imperative procedure. It calls the retry loop
`Retry.UpdatePackage` and edits a `Policy.PolicyTree` in place, and it is proved
equal to `Workflow`. `Importer.Processor.Execute` models `main`: it updates the pipeline environment.

Modules: `PyText` (Python string behaviour), `Jamf` (URLs, request bodies,
calls, errors), `Retry` (the metadata update loop), `Policy` (the policy
rewrite), `Importer` (the workflow and the processor).

A policy lookup that does not answer 200 raises (JPCImporter.py:163-166); the
model has no "no policy" outcome.

`__init__` returns early when the process-wide logger already has a handler
(JPCImporter.py:69-70), which is the case for every instance after the first in
a process. Such an instance never reads its preferences or derives its package,
so its `upload` fails on the missing `base` attribute before any request. The
model keeps this: `Importer.Processor` records whether it was `configured`.

## Model

| member | source | states |
|---|---|---|
| `PyText.Basename` | JPCImporter.py:101 | the file name is the longest suffix of the path that contains no '/': it is a suffix, it has no '/', and the character before it is a '/' (unique by `PyText.BasenameUnique`) |
| `PyText.BasenameUnique` | JPCImporter.py:101 | any suffix with those three properties is the basename |
| `PyText.PrefixBefore` | JPCImporter.py:102 | `split(c)[0]` is a prefix without `c`, and it is followed by `c` whenever it is shorter than the text |
| `PyText.PrefixBeforeWhole` | JPCImporter.py:102 | the title is the whole name exactly when the name contains no '-' |
| `Jamf.NewPackage` | JPCImporter.py:99-102 | the package keeps the path; its name is the basename of the path; its title is a '-'-free prefix of the name that is followed by '-' whenever it is shorter than the name, so it ends at the first '-', and it is the whole name when there is no '-' |
| `Jamf.UploadRequest` | JPCImporter.py:116-122 | the curl command (`Jamf.CurlCommand`) POSTs to `<server>/dbfileupload` with the configured credentials, carries exactly the headers `DESTINATION: 0`, `OBJECT_ID: -1`, `FILE_TYPE: 0`, `FILE_NAME: <name>` in that order, and uploads the package file |
| `Jamf.MetadataRoundTrip` | JPCImporter.py:134-139 | the metadata body (`Jamf.MetadataBody`) `<package><id>…</id><category>Applications</category><notes>Built by Autopkg. …</notes></package>` gives back exactly the id and the date when it is read back by `Jamf.ParseMetadata` |
| `Jamf.MessageNamesCause` | JPCImporter.py:109-192 | each raised message (`Jamf.Message`) names its cause: the upload URL for an empty id, the status for a failed metadata update, both the URL and the status for a failed policy lookup or policy update, the path for a missing file, the exit status or the killing signal's number for a failed curl, and the attribute an unconfigured instance lacks |
| `PyText.DecimalRoundTrip` | JPCImporter.py:156 | a status code rendered in a message can be read back unchanged |
| `Retry.RetryOutcome` | JPCImporter.py:146-158 | the loop makes 1 to 11 attempts. It succeeds iff one of the first 11 statuses is 201, and it then stops at the first 201. Every earlier attempt was refused. On failure it makes exactly 11 attempts and reports the 11th status |
| `Retry.UpdatePackage` | JPCImporter.py:146-158 | the `while True` loop computes `RetryOutcome`. It sleeps once after each refused attempt except the last, and its calls are the PUTs interleaved with 20-unit pauses |
| `Retry.AttemptAccounting` | JPCImporter.py:146-158 | a loop of `n` attempts makes `n` identical PUTs and `n - 1` pauses of the fixed delay |
| `Retry.SucceedsOnLastAttempt` | JPCImporter.py:151-154 | ten refusals and then a 201: the update succeeds on the 11th attempt |
| `Retry.GivesUpAfterEleven` | JPCImporter.py:154-157 | eleven refusals: the update gives up after 11 attempts, with the 11th status |
| `Retry.LaterStatusesIgnored` | JPCImporter.py:154-157 | statuses after the 11th never affect the result |
| `Policy.Rewritten` | JPCImporter.py:168-173 | the rewrite succeeds iff all three nodes exist, and otherwise reports a missing one. It sets the package id, the package name and `enabled = "false"`. It keeps the set of nodes and leaves every other node's text unchanged |
| `Policy.GeneralIdKept` | JPCImporter.py:172-174 | `general/id` survives the rewrite unchanged, so the policy goes back to its own id |
| `Policy.RewriteIdempotent` | JPCImporter.py:168-173 | rewriting an already rewritten policy with the same package changes nothing |
| `Policy.RewriteIgnoresOldPackage` | JPCImporter.py:168-173 | the result does not depend on the old package id, the old package name or the old enabled flag |
| `Policy.ActivationExample` | JPCImporter.py:168-173 | a policy with package id 5 that is enabled, rewritten with package 42 `Foo-2.0.pkg`, gets id 42, name `Foo-2.0.pkg` and enabled false; `general/id` stays |
| `Policy.PolicyTree.SetText` | JPCImporter.py:169-173 | assigning a node's text changes that node only, and fails when the node is absent |
| `Policy.PolicyTree.Activate` | JPCImporter.py:169-173 | the three in-place assignments leave the tree holding `Rewritten` of the fetched document, or report the first missing node, with the assignments made before it still in the tree |
| `Importer.Workflow` | JPCImporter.py:104-183 | a run returns the sentinel iff the lookup answered 200. It always starts with the lookup of `<server>/JSSResource/packages/name/<name>` (`Jamf.Base`, `Jamf.LookupUrl`). When it activates the policy, the upload succeeded and the run ended with the policy PUT |
| `Importer.Upload` | JPCImporter.py:104-183 | the imperative `upload` produces exactly the outcome and the calls that `Workflow` gives |
| `Importer.AlreadyPresentShortCircuits` | JPCImporter.py:108-114 | a 200 on the lookup returns the sentinel after that single call: no upload, no package PUT, no policy GET and no policy PUT |
| `Importer.CurlFailureStops` | JPCImporter.py:125 | a non-zero curl return code, including the negative code of a curl killed by a signal, fails the run, and nothing is requested after the upload |
| `Importer.EmptyUploadIdStops` | JPCImporter.py:127-131 | an empty `id` fails the run with a message naming `<server>/dbfileupload` (`Jamf.UploadUrl`), and nothing is requested after the upload |
| `Importer.MissingUploadIdNotRejected` | JPCImporter.py:127-128 | a reply with no `id` element passes the check, and the metadata PUT goes to `packages/id/None` (`Jamf.PackageUrl` of `PyText.Show(None)`) |
| `Importer.UploadedRunShape` | JPCImporter.py:143-183 | after the upload, the calls are the retry loop's calls followed only by policy calls |
| `Importer.MetadataRetries` | JPCImporter.py:143-158 | a run past the upload makes as many package PUTs as the loop's attempts (at most 11), all of them the same request, and one fewer 20-unit pauses |
| `Importer.MetadataAddressedToItsId` | JPCImporter.py:135-150 | every metadata PUT of a run goes to `packages/id/<id>` (`Jamf.PackageUrl`) for the very id its body names, and its body carries the run's date |
| `Importer.MetadataUpdateFailsIff` | JPCImporter.py:151-157 | the run fails with the 11th status iff none of the first 11 statuses is 201; fewer than 11 attempts means the last one got 201 |
| `Importer.MetadataExhaustionStops` | JPCImporter.py:146-157 | eleven refused metadata PUTs fail the run with a message naming the eleventh status. The eleventh PUT is the last of exactly 23 calls, and no policy is looked up or PUT |
| `Importer.PolicyLookupFailureIsFatal` | JPCImporter.py:160-166 | a non-200 lookup of `policies/name/TEST-<title>` (`Jamf.PolicyLookupUrl`) fails the run with a message naming the URL and the status. The lookup is the last call, and the policy is never PUT |
| `Importer.MissingNodeStops` | JPCImporter.py:168-173 | a fetched policy without one of the three nodes fails the run on the first absent one, in the order package id, `general/enabled`, package name. The policy GET is the last call, and the policy is never PUT |
| `Importer.PolicyUpdateFailureIsFatal` | JPCImporter.py:174-180 | a policy PUT that does not answer 201 fails the run with a message naming `policies/id/<general/id of the fetched policy>` (`Jamf.PolicyUrl`) and the status. That PUT of the rewritten policy is the last call |
| `Importer.ActivationPushesRewrittenPolicy` | JPCImporter.py:174-183 | an activated run ends with the policy GET and then one PUT of the rewritten document to `policies/id/<general/id of the fetched policy>` (`Jamf.PolicyUrl`). That PUT got 201, and the run returns the reply's `id` |
| `Importer.ActivatedIff` | JPCImporter.py:104-183 | a run activates the policy iff every step succeeds: the package is absent, curl succeeds with a non-empty id, one of the first 11 PUTs gets 201, the policy is found with its three nodes, and its PUT gets 201 |
| `Importer.CallsInStageOrder` | JPCImporter.py:104-183 | the calls never go back a stage: lookup, upload, metadata PUTs and pauses, policy GET, policy PUT |
| `Importer.Processor.constructor` | JPCImporter.py:62-102 | an instance is configured iff the logger had no handler yet. A configured instance takes its settings from the preference values and derives its package from the environment's `pkg_path`; the environment is kept |
| `Importer.Processor.Execute` | JPCImporter.py:185-200 | `main` always removes the previous summary. A missing package file fails the run before any request. An unconfigured instance fails on the missing `base` attribute before any request. Otherwise the run is `Workflow`. The summary `{policy_id, pkg_path}` (`Importer.SummaryOf`) is published iff the upload returned a policy id and not the sentinel. No other environment entry changes |

## Left out

- Logging: the rotating file handler (JPCImporter.py:71-80) and all log lines. The handler check at JPCImporter.py:69-70 is the constructor's `hasHandler` input.
- Preference loading (JPCImporter.py:82-95), including the dead `autopkg` branch. The server URL and the credentials are constructor parameters.
- `Importer.Processor.constructor` always returns. `__init__` raises when the log file cannot be opened, because the handler at JPCImporter.py:71-73 opens it at once. It also raises when the preference file or one of its `url`, `user` and `password` keys is missing (JPCImporter.py:93-95). These failures come from the file system, which is not part of this model.
- Package/Package.py and the `Package` class (JPCImporter.py:37-44) only hold attributes. `Jamf.Package` holds the three that are used.
- The HTTP client, the curl process and ElementTree parsing and serialisation are foreign code. Their results are inputs. Malformed XML, which makes `fromstring` raise, is not modelled.
- A policy document is modelled as a map from element path to text. Nested structure, serialisation and several nodes on the same path (where `find` takes the first) are not modelled.
- `Jamf.Call` records the URL and the body of each HTTP request, and the whole argument list of the curl call (credentials included). The HTTP calls do not record the credentials or the `Accept`/`Content-type` headers.
- The date in the package notes is an opaque text input (`today`). Sleeping is recorded as a `Pause` call and is not timed.
- `Jamf.Message`: for a curl failure, only the tail of Python's `CalledProcessError` text is rendered. The command list that the real message quotes is left out. For a curl killed by a signal (a negative return code) the tail reads `died with signal N.`: Python's `<Signals.NAME: N>` rendering needs the platform's signal table, which is not part of this model.
- `Retry.UpdatePackage`, `Importer.Workflow`, `Importer.Upload`: the metadata statuses are a finite sequence, so a run needs at least 11 of them. Statuses past the 11th are never consulted (`Retry.LaterStatusesIgnored`).
- File existence: `main` checks `self.pkg_path` and passes it to `upload` (JPCImporter.py:191, 193), but `__init__` sets only `self.pkg.pkg_path` (JPCImporter.py:100). The model takes existence as a boolean input and uses the package derived from the environment's `pkg_path`.
- Authentication failures and other transport exceptions of the HTTP client are not modelled. Every request gets some status.
