# elevate-service, modelled in Dafny

`elevate-service` is the one-shot reconciler that the Homebrew Channel runs
on webOS to make one luna-service2 service run elevated. It takes a service
name and an app name. It visits the two modern roots
(`/var/luna-service2-dev`, `/var/luna-service2`) and then the two legacy
roots (`/var/palm/ls2-dev`, `/var/palm/ls2`). Under each root it does the
following:

- it rewrites the service's `.service` file so the binary runs outside the
  jailer, or through the co-located `run-js-service` helper;
- it creates default client and API permission files;
- it widens the roles file (`allowedNames` lists, wildcard grants);
- it links the permission files into the app's manifest.

Each step reports whether it changed anything. The reconciler asks for an
`ls-control scan-services` rescan when at least one step did.

The model is split by the program's own parts:

- `text.dfy` (`Text`): JavaScript's `indexOf`, `lastIndexOf`, `split` and
  `join` on strings.
- `service.dfy` (`ServiceDefinition`): `patchServiceFile`. It classifies the
  text by marker substrings, first match wins. Both `Exec=` rewrites are
  per-line maps over the text split on `\n`.
- `json.dfy` (`Json`): parsed JSON values, property read and write, and the
  `JSON.parse`/`JSON.stringify` pair as an abstract codec. A codec is
  *lawful* when parsing what it wrote gives the value back.
- `roles.dfy` (`Roles`): the in-memory edits of `patchRolesFile`. They are
  given as pure functions with their properties. The same edits are also
  written as loop methods that push, splice and walk the way the program
  does, each proved equal to the functions.
- `layout.dfy` (`Layout`): argument defaulting, the app name derived from the
  service name, the paths of a modern and of a legacy layout, and
  `path.dirname`.
- `manifest.dfy` (`Manifest`): manifest linking and the two default
  permission documents.
- `reconciler.dfy` (`Reconciler`): `main`, `searchDir` and `searchLegacyDir`.
  - The file system is a map from path to contents plus a set of
    directories.
  - An exception that escapes a step ends the run with a `failed` flag. That
    covers a JSON text that does not parse, and a `null` where an object
    property is read.
  - Each step is a pure function over `State(files, changed, failed)`.
  - The class `Elevator` holds the files and the `configChanged` flag and
    performs the searches step by step. Each of its methods is proved to
    leave the state its step function gives.
- `plan.dfy` (`Plan`): the run as one flat list of eighteen guarded steps,
  each reading and writing a single file. The eighteen files are different
  whatever the names, so a second run over what the first left reports
  nothing, writes nothing and fails exactly when the first did.

Where the program and its description disagree, the model follows the
program:
- `main` accepts a second positional argument that overrides the derived app
  name.
- The native rewrite keeps the text after the last *space*, not after the
  last whitespace of any kind.

## Model

| member | source | states |
|---|---|---|
| Text.Split | services/elevate-service.ts:117 | `split` on one character yields at least one piece, and no piece holds the separator |
| Text.JoinSplit | services/elevate-service.ts:40-43 | joining the lines of a text with `\n` gives the text back, so the per-line rewrites see the whole text |
| Text.SplitJoin | services/elevate-service.ts:40-43 | splitting joined lines that hold no `\n` gives the same lines back |
| Text.LastIndexOf | services/elevate-service.ts:43 | the index found holds the character and no later index does; -1 only when the character is absent |
| Text.ContainsJoin | services/elevate-service.ts:29-44 | a marker without `\n` occurs in the text exactly when it occurs in one of its lines |
| Text.SplitAt | services/elevate-service.ts:117 | splitting at an occurrence of the separator gives the pieces before it followed by the pieces after it |
| Text.SplitAppend | services/elevate-service.ts:117 | splitting `a + sep + b` gives the pieces of `a` followed by the pieces of `b` |
| ServiceDefinition.RewriteJsLine | services/elevate-service.ts:40 | a line starting with `Exec=/usr/bin/run-js-service` becomes `Exec=<helper>` followed by the rest of the line; any other line is kept |
| ServiceDefinition.RewriteJailerLine | services/elevate-service.ts:43 | a line `Exec=/usr/bin/jailer <x> <t>` with `t` free of spaces becomes `Exec=<t>`; a line that does not start the jailer launch, or has no space after `jailer `, is kept |
| ServiceDefinition.Patched | services/elevate-service.ts:25-57 | only a JS service whose helper exists and a native service can be rewritten; a `/media` service, an unknown one and a JS service without its helper keep their text |
| ServiceDefinition.ScriptedBeatsJailer | services/elevate-service.ts:29-43 | a text holding both markers gets the JS rewrite, and is kept unchanged when the helper is missing |
| ServiceDefinition.UnmarkedUnchanged | services/elevate-service.ts:29-47 | a text without the JS and jailer markers (a `/media` service or an unknown one) is never changed |
| ServiceDefinition.JsRewriteLines | services/elevate-service.ts:33-40 | the JS rewrite keeps the line count; launcher lines get the helper in front of the unchanged rest, all other lines are kept; without the helper nothing changes |
| ServiceDefinition.JailerRewriteLines | services/elevate-service.ts:41-43 | the native rewrite keeps the line count; a line starting with `Exec=/usr/bin/jailer ` that has a space after it is reduced to `Exec=<t>`, `t` being the space-free text after its last space; every other line is kept |
| ServiceDefinition.JailerLineRewrites | services/elevate-service.ts:43 | every jailer line whose last token follows a space is reduced to `Exec=<last token>`, whatever the arguments |
| ServiceDefinition.JsExample | services/elevate-service.ts:40 | `Exec=/usr/bin/run-js-service\n` becomes `Exec=<helper>\n` |
| ServiceDefinition.JailerExample | services/elevate-service.ts:43 | `Exec=/usr/bin/jailer --flag1 --flag2 /opt/bin/real-binary\n` becomes `Exec=/opt/bin/real-binary\n` |
| ServiceDefinition.JsLineIdempotent | services/elevate-service.ts:40 | rewriting a JS line twice equals rewriting it once, for a helper path that is `/usr/bin/run-js-service` itself or neither a proper prefix nor a proper extension of it |
| ServiceDefinition.JailerLineIdempotent | services/elevate-service.ts:43 | rewriting a jailer line twice equals rewriting it once |
| ServiceDefinition.JsLineKeepsMarker | services/elevate-service.ts:29-40 | a line holding the JS marker still holds it after the JS rewrite, for a helper path that holds it too |
| ServiceDefinition.JsKeepsMarker | services/elevate-service.ts:29-40 | the JS rewrite keeps the JS marker, so a second run classifies the text the same way |
| ServiceDefinition.JailerKeepsNoJsMarker | services/elevate-service.ts:29-43 | the native rewrite never creates the JS marker, so a second run classifies the text the same way |
| ServiceDefinition.PatchIdempotent | services/elevate-service.ts:25-57 | `patchServiceFile` on its own output reports no change |
| Json.Lookup | services/elevate-service.ts:65-89 | a property read finds a value exactly when some field has that key |
| Json.LookupFirst | services/elevate-service.ts:65-89 | a read gives the value of the first field with the key, so an earlier field shadows any later one with the same key |
| Json.Update | services/elevate-service.ts:66-90 | writing a property keeps the keys and their order, and changes only that property's value |
| Json.Set | services/elevate-service.ts:66-90 | after a write, reading the written property gives the new value and every other property reads as before |
| Json.SetSame | services/elevate-service.ts:104-105 | writing back the value a property already holds leaves the object unchanged |
| Json.StringifyInjective | services/elevate-service.ts:104-105 | with a lawful codec, two serialisations are equal exactly when the values are |
| Roles.AddMissing | services/elevate-service.ts:63-73 | the old list is a prefix of the new one, every required name is in the new one, only required names are added, and each added element is absent from everything before it, so nothing is appended twice |
| Roles.AddMissingPresent | services/elevate-service.ts:63-73 | a list that already holds every required name is left unchanged |
| Roles.WithAllowedNames | services/elevate-service.ts:70-72 | an existing top-level `allowedNames` array gets the missing names; an absent one is not created; no other property changes |
| Roles.WithRoleAllowedNames | services/elevate-service.ts:65-67 | an existing `role.allowedNames` array gets the missing names and every other property of `role` is kept; otherwise `role` is unchanged; no other top-level property changes |
| Roles.WithPermissions | services/elevate-service.ts:84-102 | an existing `permissions` array is replaced by the walked and extended grants; an absent one is not created |
| Roles.IndexOf | services/elevate-service.ts:87-88 | `indexOf` gives the first position holding the name, and -1 exactly when the name is absent |
| Roles.RemoveFirst | services/elevate-service.ts:87-88 | the splice removes exactly one occurrence of the name, the first one: the elements before it and after it keep their order |
| Roles.BroadenFacts | services/elevate-service.ts:89-91 | a grant's `outbound` array gains the wildcard at its end exactly when the wildcard is missing from it, and is left as it is otherwise; every other property and a grant without `outbound` stay as they were |
| Roles.NewGrantFields | services/elevate-service.ts:96-100 | an appended grant names the service and has `["*"]` as both `inbound` and `outbound` |
| Roles.RemoveFirstNoDuplicates | services/elevate-service.ts:87-88 | removing a name from a duplicate-free list removes that name and keeps every other one |
| Roles.StrikeOff | services/elevate-service.ts:87-88 | the callback's splice leaves the missing list with the grant's service struck off when it was there |
| Roles.StrikeExact | services/elevate-service.ts:87-88 | on a duplicate-free missing list, striking a grant removes exactly the name that grant names and keeps the list duplicate-free |
| Roles.RemainingCovers | services/elevate-service.ts:85-92 | after the walk each required name is either still missing or is the `service` of a grant |
| Roles.RemainingExact | services/elevate-service.ts:85-101 | with distinct required names, a name is still missing exactly when it is required and no grant names it |
| Roles.RemainingEmpty | services/elevate-service.ts:94-101 | with distinct required names, no grant is appended exactly when every required name already has one |
| Roles.GrantsHaveWildcard | services/elevate-service.ts:89-100 | after the patch every grant with an `outbound` array holds `*`, whatever its `service` |
| Roles.GrantsCoverRequired | services/elevate-service.ts:84-101 | after the patch every required name is the `service` of some grant |
| Roles.GrantsAppendOnly | services/elevate-service.ts:84-101 | existing grants keep their place and every property except `outbound`; `outbound` only grows; the appended grants are wildcard grants for the missing names |
| Roles.PatchedFields | services/elevate-service.ts:59-102 | the lists that were present are extended, the absent ones stay absent, every property of `role` but its `allowedNames` is kept, and properties other than the three are untouched |
| Roles.Patched | services/elevate-service.ts:59-102 | an object stays an object, and a document that is not an object is left as it is |
| Roles.PatchedSaturated | services/elevate-service.ts:59-102 | when no required name is empty, the patched document holds every required name in each list, the wildcard in every `outbound`, and a grant for every required name |
| Roles.SaturatedUnchanged | services/elevate-service.ts:59-102 | with distinct required names, the patch leaves a saturated document exactly as it is |
| Roles.RolesIdempotent | services/elevate-service.ts:59-113 | with distinct, non-empty required names, patching the patched document changes nothing |
| Roles.PatchedNoThrow | services/elevate-service.ts:84-92 | a document the edits do not throw on is patched into one they do not throw on, so the second pass reaches the comparison |
| Roles.DefaultRequiredNamesDistinct | services/elevate-service.ts:59 | the default required names are distinct and non-empty, so idempotence holds for them |
| Roles.PushMissing | services/elevate-service.ts:63-73 | the loop of pushes yields the list with the missing names appended in order |
| Roles.WalkGrants | services/elevate-service.ts:85-92 | the `forEach` leaves every grant broadened and, in the missing list, exactly the names no grant struck off |
| Roles.AppendGrants | services/elevate-service.ts:94-101 | the loop appends one wildcard grant per missing name, in order |
| Roles.PatchGrants | services/elevate-service.ts:84-102 | the walk followed by the appends yields the specified grants |
| Roles.PatchAllowedNames | services/elevate-service.ts:70-72 | the pushes onto the top-level list give the specified document |
| Roles.PatchRoleAllowedNames | services/elevate-service.ts:65-67 | the pushes onto `role.allowedNames` give the specified document |
| Roles.PatchPermissions | services/elevate-service.ts:84-102 | the grant edits give the specified document |
| Roles.PatchRoles | services/elevate-service.ts:59-102 | the in-place edits give the patched document, and with distinct, non-empty names its result is already saturated |
| Roles.BroadenExample | services/elevate-service.ts:89-91 | a grant with an empty `outbound` gets `["*"]` |
| Roles.GrantsExample | services/elevate-service.ts:84-101 | with the default names, one grant for `foo` gets the wildcard and two wildcard grants are appended |
| Roles.RolesExample | services/elevate-service.ts:59-102 | a small roles file gains both default names in `allowedNames`, the wildcard on its grant, and two new grants |
| Layout.ResolveNames | services/elevate-service.ts:117-122 | the first argument is the service name unless it is the app alias; the second argument is the app name, and without it the app name is derived from the service name; no argument, or the alias, gives the hbchannel service and app |
| Layout.DerivedAppNameLastDot | services/elevate-service.ts:117 | the derived app name is the service name up to its last dot, or empty without a dot |
| Layout.DerivedAppNameOf | services/elevate-service.ts:117 | a name ending in a dot-free segment loses exactly that segment |
| Layout.DefaultNames | services/elevate-service.ts:117-122 | the app name derived from `org.webosbrew.hbchannel.service` is `org.webosbrew.hbchannel`, so no argument and the alias name the same app |
| Layout.ModernLayout | services/elevate-service.ts:127-131 | the five files of a modern layout are five different paths, whatever the names |
| Layout.LegacyLayout | services/elevate-service.ts:200-203 | the four files of a legacy layout are four different paths, whatever the service name |
| Layout.Dirname | services/elevate-service.ts:17-23 | the parent of a path without `/` is `.` |
| Layout.DirnameJoin | services/elevate-service.ts:17-23 | the parent of `dir/name` is `dir` when `name` holds no `/` |
| Layout.PermissionParents | services/elevate-service.ts:128-129 | the permission files' parents are `client-permissions.d` and `api-permissions.d` under the root |
| Layout.ModernParents | services/elevate-service.ts:127-131 | the service, roles and manifest files' parents are `services.d`, `roles.d` and `manifests.d` under the root |
| Manifest.LinkField | services/elevate-service.ts:175-183 | an existing list gains the path once at its end and holds it afterwards; an absent list is not created; no other property changes |
| Manifest.Link | services/elevate-service.ts:171-183 | an object stays an object, and a manifest that is not an object is left as it is |
| Manifest.LinkFacts | services/elevate-service.ts:175-183 | after linking, both lists that were present hold their file and only grew, absent ones stay absent, and other properties are untouched |
| Manifest.LinkFieldPresent | services/elevate-service.ts:175-178 | a list that already holds the path is left alone |
| Manifest.LinkIdempotent | services/elevate-service.ts:175-183 | linking twice links nothing more |
| Manifest.ManifestChangedIff | services/elevate-service.ts:185-192 | with a lawful codec the manifest is rewritten exactly when something was linked or the raw text is not the compact serialisation |
| Manifest.ManifestSecondPass | services/elevate-service.ts:185-192 | with a lawful codec, the text written the first time parses back and re-serialises to itself after another linking |
| Manifest.LinkManifest | services/elevate-service.ts:174-183 | the two conditional pushes give the linked manifest |
| Manifest.ClientPermDoc | services/elevate-service.ts:147-149 | the client permission file grants `<service>*` the `all` group and nothing else |
| Manifest.ApiPermDoc | services/elevate-service.ts:158-160 | the API permission file makes `<service>/*` public and nothing else |
| Reconciler.FollowsTrans | services/elevate-service.ts:124-249 | steps compose: the flag is never lowered, no file disappears, and nothing is written unreported |
| Reconciler.ServiceStep | services/elevate-service.ts:133-137 | the service file holds the patched text afterwards, and the flag is raised exactly when the text changed |
| Reconciler.CreateStep | services/elevate-service.ts:143-163 | a permission file is created, and the flag raised, exactly when its parent directory exists and it did not |
| Reconciler.RolesStep | services/elevate-service.ts:59-114 | a roles text that does not parse, or on which a property read or `forEach` throws, ends the run; otherwise the file holds the serialised patched document exactly when that differs from the serialised parsed text, and the flag is raised exactly then; no other file changes |
| Reconciler.ManifestStep | services/elevate-service.ts:171-193 | a manifest that does not parse or is `null` ends the run; otherwise the file holds the serialised linked manifest exactly when that differs from the raw text, and the flag is raised exactly then; no other file changes |
| Reconciler.RolesIfPresent | services/elevate-service.ts:165-169 | the roles step keeps the run's invariants when the file is there |
| Reconciler.ManifestIfPresent | services/elevate-service.ts:171 | the manifest step keeps the run's invariants when the file is there |
| Reconciler.ModernSteps | services/elevate-service.ts:133-193 | the steps of a modern layout keep the run's invariants |
| Reconciler.SearchDirSpec | services/elevate-service.ts:126-194 | `searchDir` never lowers the flag, removes no file, and writes nothing unreported |
| Reconciler.LegacyServices | services/elevate-service.ts:205-218 | the legacy service files are patched under the run's invariants |
| Reconciler.SearchLegacySpec | services/elevate-service.ts:199-231 | `searchLegacyDir` never lowers the flag, removes no file, and writes nothing unreported |
| Reconciler.RunSpec | services/elevate-service.ts:196-234 | the four searches together never lower the flag, remove no file, and write nothing unreported |
| Reconciler.Rescan | services/elevate-service.ts:236-249 | when no rescan is requested, the run either failed or wrote no file |
| Reconciler.ServiceHelperMissing | services/elevate-service.ts:33-38 | a JS service whose helper is missing is neither written nor reported |
| Reconciler.ServiceSecondPass | services/elevate-service.ts:49-56 | a second pass over the service file reports and writes nothing, for a helper path `SafeHelper` admits |
| Reconciler.RolesChangedIff | services/elevate-service.ts:104-113 | with a lawful codec the roles step reports a change exactly when it writes different contents, and that is exactly when the patch changed the parsed document |
| Reconciler.RolesSecondPass | services/elevate-service.ts:104-113 | with a lawful codec a second pass over the roles file reports and writes nothing |
| Reconciler.ManifestChangedIff | services/elevate-service.ts:185-192 | the manifest step reports exactly when it writes, which happens when something was linked or the text was not compact |
| Reconciler.ManifestSecondPass | services/elevate-service.ts:185-192 | with a lawful codec a second pass over the manifest reports and writes nothing |
| Reconciler.SkippedWithoutServiceFile | services/elevate-service.ts:133-141 | a modern layout without its service file is skipped entirely |
| Reconciler.PermissionFilesProvisioned | services/elevate-service.ts:143-163 | under a modern layout with its service file, each permission file exists afterwards when its parent directory does |
| Reconciler.LegacyRolesWithoutServiceFile | services/elevate-service.ts:220-230 | legacy roles files are patched even without the public service file |
| Reconciler.NothingInstalled | services/elevate-service.ts:196-249 | with no service file and no legacy roles file anywhere, nothing changes and no rescan is requested |
| Reconciler.Elevator.constructor | services/elevate-service.ts:116-124 | a run starts from the resolved names with the flag down |
| Reconciler.Elevator.PatchServiceFile | services/elevate-service.ts:25-57 | the file is rewritten to the patched text, and the result says whether it changed |
| Reconciler.Elevator.CreatePermissionFile | services/elevate-service.ts:143-163 | the file is created exactly when its parent exists and it does not |
| Reconciler.Elevator.PatchRolesFile | services/elevate-service.ts:59-114 | the file, the failure and the result are those of the roles step |
| Reconciler.Elevator.LinkManifestFile | services/elevate-service.ts:171-193 | the file, the failure and the result are those of the manifest step |
| Reconciler.Elevator.ServiceStage | services/elevate-service.ts:133-137 | the state afterwards is the service step's |
| Reconciler.Elevator.CreateStage | services/elevate-service.ts:143-163 | the state afterwards is the creation step's |
| Reconciler.Elevator.RolesStage | services/elevate-service.ts:165-169 | the state afterwards is the roles step's |
| Reconciler.Elevator.ManifestStage | services/elevate-service.ts:171-193 | the state afterwards is the manifest step's |
| Reconciler.Elevator.SearchDir | services/elevate-service.ts:126-194 | the state afterwards is `searchDir`'s |
| Reconciler.Elevator.SearchLegacyDir | services/elevate-service.ts:199-231 | the state afterwards is `searchLegacyDir`'s |
| Reconciler.Elevator.Run | services/elevate-service.ts:196-249 | the state afterwards is the run's, and the rescan starts exactly when the flag is up and nothing failed |
| Reconciler.Elevate | services/elevate-service.ts:116-249 | a fresh run requests the rescan exactly as specified |
| Plan.Apply | services/elevate-service.ts:126-231 | a step changes at most the one file it works on, only a permission-file creation adds a file, and a step that throws changes nothing but the failure flag |
| Plan.RunFrame | services/elevate-service.ts:126-231 | a file that no step of a plan works on is neither written nor created |
| Plan.ApplySettled | services/elevate-service.ts:133-230 | a step run again on what it wrote (or left) in its file does nothing, whatever the other files hold |
| Plan.SecondRun | services/elevate-service.ts:126-234 | a plan with distinct files whose guards are never created, run again on what it left in its files, changes and reports nothing and fails exactly when the first run did |
| Plan.MainPlanRuns | services/elevate-service.ts:196-234 | the four searches are exactly the eighteen guarded steps run in order |
| Plan.MainPlanWellFormed | services/elevate-service.ts:126-131 | the eighteen files of the four searches are pairwise different, and no file a step waits for is ever created, whatever the names |
| Plan.RunIdempotent | services/elevate-service.ts:196-234 | a second run over the files a first run left changes no file, raises no flag, and fails exactly when the first run failed |
| Plan.RescanIdempotent | services/elevate-service.ts:236-249 | run again over what it left, the program asks for no rescan |

## Left out

- File-system I/O (`statSync`, `readFileSync`, `writeFileSync`, `existsSync`) is not modelled. The file system is a map from path to contents plus a set of directories. A path that is both a directory and a file is not modelled, and neither are read or write errors.
- The `ls-control scan-services` call is not modelled: no process is started, and its timeout, callback and `process.exit` are absent. The model gives only the boolean "rescan requested".
- The `PATH` change and all console logging are left out; they do not affect any file.
- `resolve(__dirname, 'run-js-service')` and its existence check are parameters of the run (`Env.helper`, `Env.helperExists`).
- The JSON text layer is abstract. `JSON.parse` and `JSON.stringify` are a pair of functions, and only the lawfulness law is assumed. Duplicate keys, number formats and escaping are not modelled.
- Values the program reads as lists but that are not arrays are treated as absent. This covers a truthy string, number, boolean or object in `allowedNames`, `role.allowedNames`, `outbound`, `clientPermissionFiles` or `apiPermissionFiles`. On such a value the program calls `indexOf` and `push`. A string passes `indexOf` and then throws at `push` when the name is missing from its text. A number, a boolean or an object throws at `indexOf`.
- Roles.Throws covers three cases: `null` as the whole document, a truthy `permissions` that is not an array (`forEach` throws on it), and `null` as a grant. Property reads on other primitives yield `undefined` and do not throw, so nothing else is left out there.
- Line terminators: only `\n` separates lines. `\r`, U+2028 and U+2029, which the JavaScript regular expressions also treat as line ends, are not modelled.
- Paths are compared as strings: `..` segments, symbolic links and repeated slashes are not normalised.
- Only `path.dirname` of paths that do not end in `/` and do not start with `//` is modelled, which is all the program passes to it: every path starts with one of the four roots.
- ServiceDefinition.PatchIdempotent: idempotence is proved only for helper paths that `SafeHelper` admits. Such a path holds the JS marker and contains no line break. It is either `/usr/bin/run-js-service` itself, whose rewrite keeps every line, or neither a proper prefix nor a proper extension of it. The resolved helper `<dir>/run-js-service` is admitted unless `<dir>` starts with `/usr/bin/run-js-service`. For such a `<dir>` the program itself is not idempotent: the rewritten line starts with `Exec=/usr/bin/run-js-service` again and grows on every run.
- Reconciler.ServiceSecondPass: proved under the same `SafeHelper` restriction on the helper path, for the same reason.
- Roles.RolesIdempotent: idempotence is proved for distinct, non-empty required names, and the default names qualify. Distinctness is a restriction of the proof only; a repeated name is not known to break idempotence. An empty name does break it: an empty `service` is falsy, so a new grant is appended on every run.
- ServiceDefinition.RewriteJsLine: the replacement string in `String.prototype.replace` expands `$&`, `` $` ``, `$'` and `$$`. The model inserts the helper path literally, so it is exact only for helper paths without `$`.
- Json.Lawful: the law `parse(stringify(v)) == Some(v)` is assumed for every value. A real `JSON.parse` lists integer-like keys first, in ascending order, so an object whose integer-like keys are out of that order does not come back equal. The lemmas that assume a lawful codec hold for documents without such keys.
- Numbers: `Num` holds integers only. Fractions and exponents are not representable, so a JSON document holding them is outside the model.
- `missingPermissionNames` aliases `requiredNames` and is spliced in place. The list is rebuilt on every call and is not read again after the splices, so the model uses a local copy.
- Plan.RunIdempotent: proved for a lawful codec and a helper path that `SafeHelper` admits, the assumptions of the three second-pass lemmas it rests on (see Json.Lawful and ServiceDefinition.PatchIdempotent).
