# kube-mgmt, modelled in Dafny

kube-mgmt runs beside Open Policy Agent (OPA) in a Kubernetes cluster. It loads
policies and JSON data from ConfigMaps into OPA, replicates Kubernetes objects
into OPA's data document, and starts and stops those replicators based on
which resources the loaded policies actually read. This project models the
bookkeeping at the centre of those jobs and proves what it promises:

- `Opa` (`opa.dfy`): the OPA client's URL and prefix handling, and the paths
  of `PutData`, `PostData`, `PatchData`, `InsertPolicy` and `DeletePolicy`.
  Also the JSON Patch document (RFC 6902) that `PatchData` sends, whose
  `path` is a JSON Pointer (RFC 6901), and status and error classification.
- `Writer` (`writer.dfy`): every write a synchroniser makes goes to a
  `Recorder` object, which appends it to a trace of requests. Whether a call
  fails is answered by an oracle indexed by the call's position in the trace.
  The synchronisers are proved against functions that say exactly which trace
  they leave behind.
- `Generic` (`generic.dfy`): generic resource replication. It covers object
  keys, the nested payload of a full listing, watch-event dispatch, one round
  of `sync`, and the `loop` state machine with its capped exponential backoff.
- `ConfigMaps` (`configmap.dfy`): the newer ConfigMap synchroniser. It covers
  the policy/data classifier, the update gate and per-key publication in
  sorted order. It also covers the retry counter written back as an
  annotation, removal with the `syncReset` backoff, and the `errList`
  encodings. The status is HTML-escaped as `json.Marshal` writes it, and it
  is not sent at all when it does not marshal.
- `Policies` (`policies.dfy`): the older policy-only ConfigMap synchroniser.
- `DynamicData` (`dynamicdata.dfy`): the breadth-first dependency analysis
  over an abstract compiled policy, and the reconciliation of running
  replicators against its result. Also readiness and the discovery fold that
  maps resource names to resource types.
- `Flags` (`flag.dfy`): the `group/version/kind` flag parser and printer, and
  the repeatable flag.
- `Violations` (`violations.dfy`): one notification step of the violation
  event tracker.
- `Initialization` (`initialization.dfy`): popping this controller from an
  object's pending initializers and building the merge patch.
- Shared definitions:
  - `Types` holds `ResourceType`.
  - `Json` holds JSON values.
  - `Strings` holds the Go string functions the code relies on, with their
    properties.
  - `Delays` holds the doubling-with-cap arithmetic.
  - `Wrappers` holds `Option` and `Result`.
  - `Seqs` holds the regrouping lemmas for concatenated traces.

Go map iteration order is not fixed. Wherever the source ranges over a map
and the order is visible (ConfigMap keys in `syncRemove` and in the older
synchroniser, for example), the order is a parameter: a sequence that is a
permutation of the map's keys.

## Model

| member | source | states |
|---|---|---|
| Opa.New | pkg/opa/opa.go:55-57 | The client's URL is the given URL with every trailing `/` removed (a prefix of it, followed only by slashes, not ending in `/`); the prefix starts empty |
| Opa.NewIdempotent | pkg/opa/opa.go:55-57 | Building a client from a client's URL gives the same client again |
| Opa.Prefix | pkg/opa/opa.go:64-72 | The copy keeps the URL and extends the old prefix; from an empty prefix the new prefix is the argument trimmed of `/` |
| Opa.PrefixStep | pkg/opa/opa.go:64-72 | Prefixing with a slash-free segment appends that segment to the prefix's segment list |
| Opa.PrefixAllJoins | pkg/opa/opa.go:64-72 | Prefixing with several segments in turn keeps the URL and appends all of them, in order |
| Opa.PrefixAllFromNew | pkg/opa/opa.go:55-72 | From a fresh client, repeated `Prefix` calls give exactly the segments joined with `/` |
| Opa.PrefixEmptyLeavesSlash | pkg/opa/opa.go:66-70 | `Prefix("")` on a non-empty prefix leaves a trailing `/` |
| Opa.DataPrefix | pkg/opa/opa.go:75-78 | The prefix part of every data path starts with `/` |
| Opa.DataPath | pkg/opa/opa.go:101-131 | The URL path of `PutData` and `PostData` starts with `/data/` |
| Opa.DataPathNoPrefix | pkg/opa/opa.go:102-110 | With no prefix the data path is `/data//` followed by the trimmed path |
| Opa.DataPathJoins | pkg/opa/opa.go:101-131 | The data path's JSON Pointer tokens are `data`, the prefix segments, then the path segments |
| Opa.DataPathTokens | pkg/opa/opa.go:101-131 | Those tokens form a well-formed pointer |
| Opa.DataPathExtendsPointer | pkg/opa/opa.go:74-131 | Under a segment prefix, the data path is `/data` followed by the corrected patch pointer |
| Opa.PatchPointer | pkg/opa/opa.go:75-85 | The corrected patch pointer always starts with `/` |
| Opa.PatchPointerIsData | pkg/opa/opa.go:74-115 | With a prefix and a non-empty path, the corrected patch pointer names the document `PutData` writes |
| Opa.PatchPointerOtherwise | pkg/opa/opa.go:75-85 | Without a prefix, or with an empty path, the corrected pointer equals the one as written |
| Opa.PatchPointerJoins | pkg/opa/opa.go:75-85 | The corrected pointer is `/` followed by the prefix and path segments joined with `/` |
| Opa.PatchPointerSegments | pkg/opa/opa.go:75-85 | Split at `/`, the corrected pointer gives back an empty root token, the prefix segments and the path segments |
| Opa.PatchPointerAsWrittenDiffers | pkg/opa/opa.go:75-85 | With a prefix and a non-empty path, the pointer as written never names the document `PutData` writes |
| Opa.PatchPointerAsWrittenFuses | pkg/opa/opa.go:75-85 | Under prefix `kube` the node `node` is patched at `/kubenode`, while the intended pointer is `/kube/node` and the data path is `/data/kube/node` |
| Opa.PointerShapes | pkg/opa/opa.go:75-110 | For a prefix and a slash-free path: the pointer as written is `/prefixpath`, the corrected one is `/prefix/path`, and the data path is `/data/prefix/path` |
| Opa.PatchDocument | pkg/opa/opa.go:79-89 | The patch document has exactly one operation, carrying the given op and value; its pointer is the corrected one (see Findings), so with a prefix and a path it names the document `PutData` writes |
| Opa.Do | pkg/opa/opa.go:181-183 | Every request URL starts with the client's URL |
| Opa.PolicyPath | pkg/opa/opa.go:150-166 | Policy requests go to a path starting with `/policies/` |
| Opa.PolicyPathJoins | pkg/opa/opa.go:150-166 | A policy id made of segments gives the pointer tokens `policies` followed by those segments |
| Opa.ErrorCodeOfText | pkg/opa/opa.go:23-25 | An OPA error's text `code C: M` gives back its code C |
| Opa.HandleErrors | pkg/opa/opa.go:169-179 | A status is success exactly when it lies in [200, 300); otherwise the decoded OPA error is returned, never `Undefined` |
| Opa.PostData | pkg/opa/opa.go:117-147 | A result is returned exactly for status 200 with a decodable, present `result`. An absent one gives `Undefined`, exactly then. Any non-2xx status is an error |
| Opa.PostDataOther2xx | pkg/opa/opa.go:138-139 | A 2xx status other than 200 returns neither a result nor an error |
| Writer.Recorder.constructor | pkg/opa/opa.go:34-52 | A new recorder has an empty trace and the given oracle |
| Writer.Recorder.Put | pkg/opa/opa.go:50 | `PutData` appends one request to the trace and returns the oracle's answer for its position |
| Writer.Recorder.Patch | pkg/opa/opa.go:49 | `PatchData` appends one request to the trace and returns the oracle's answer for its position |
| Writer.Recorder.Insert | pkg/opa/opa.go:42 | `InsertPolicy` appends one request to the trace and returns the oracle's answer for its position |
| Writer.Recorder.Delete | pkg/opa/opa.go:43 | `DeletePolicy` appends one request to the trace and returns the oracle's answer for its position |
| Writer.Recorder.PatchAnnotations | pkg/configmap/configmap.go:299 | An annotation patch appends one request and nothing else |
| Generic.ObjPath | pkg/data/generic.go:282-295 | An object's key fails exactly when its metadata cannot be read |
| Generic.ObjPathSegments | pkg/data/generic.go:287-293 | A namespaced kind's key splits into namespace and name; a cluster kind's key is the name alone |
| Generic.ObjPathInjective | pkg/data/generic.go:287-293 | Two objects get the same key exactly when their names are equal and, for a namespaced kind, so are their namespaces |
| Generic.GenerateSyncPayload | pkg/data/generic.go:253-280 | The loop that fills the nested map computes the payload function |
| Generic.PayloadFailureSticks | pkg/data/generic.go:256-259 | Once one object has no metadata, the whole payload fails |
| Generic.PayloadSucceeds | pkg/data/generic.go:253-280 | The payload succeeds exactly when every object has metadata |
| Generic.PayloadClusterKeys | pkg/data/generic.go:266-276 | For a cluster kind the payload's keys are exactly the objects' names |
| Generic.PayloadClusterLast | pkg/data/generic.go:276 | For a cluster kind each name maps to the last object with that name |
| Generic.PayloadNamespacedKeys | pkg/data/generic.go:266-276 | For a namespaced kind the keys are exactly the namespaces, each holding an object |
| Generic.PayloadNamespacedInner | pkg/data/generic.go:266-276 | Each namespace's inner object holds exactly the names of that namespace's objects |
| Generic.PayloadNamespacedLast | pkg/data/generic.go:276 | `payload[ns][name]` is the last object with that namespace and name |
| Generic.ThreeNodes | pkg/data/generic_test.go:136-266 | Three nodes give exactly the keys node1, node2 and node3 |
| Generic.NamespacedPods | pkg/data/generic_test.go:351-443 | Pods in the same namespace share one inner object |
| Generic.SyncAdd | pkg/data/generic.go:226-232 | An object with metadata is put at its key, and the write's answer is the result; without metadata nothing is written |
| Generic.SyncRemove | pkg/data/generic.go:234-240 | An object with metadata is removed by a `remove` patch at its key; without metadata nothing is written |
| Generic.SyncAll | pkg/data/generic.go:242-251 | A listing is written as one `PutData("/", payload)`, or not at all when the payload fails |
| Generic.HandleEvent | pkg/data/generic.go:198-219 | One watch event makes exactly the writes of the event-step function and ends the round as it says |
| Generic.EventsWrites | pkg/data/generic.go:196-223 | Every write of a watch is the write of the event delivered at the same position: Added and Modified put, Deleted patches |
| Generic.EventsStopAtRefusal | pkg/data/generic.go:201-214 | Every write of a watch except the last was accepted, and a refused write ends the round with an OPA error |
| Generic.WatchTurn | pkg/data/generic.go:196-223 | One turn of the watch loop consumes one step of the watch function; a turn that ends the watch leaves the watch's whole trace and outcome |
| Generic.Watch | pkg/data/generic.go:196-223 | The watch loop's trace and outcome are those of the watch function |
| Generic.RoundStartsWithReset | pkg/data/generic.go:167-180 | A failed list ends the round with a Kubernetes error and no writes. Otherwise the first write is the full `PutData("/", payload)`, and refusing it ends the round with an OPA error |
| Generic.Sync | pkg/data/generic.go:163-224 | One round of `sync` leaves exactly the round function's trace and outcome |
| Generic.Backoff | pkg/data/generic.go:107-137 | The delay stays within [backoffMin, backoffMax]. Only a closed channel restarts without waiting. Any wait equals the new delay. Anything but a Kubernetes error resets the delay to backoffMin |
| Generic.LoopTurn | pkg/data/generic.go:100-138 | One iteration of `loop` consumes one round of the run function, with its wait and whether it exited |
| Generic.Loop | pkg/data/generic.go:86-139 | The loop's trace, waits and exit are those of the run function started at backoffMin |
| Generic.RunWaitsBounded | pkg/data/generic.go:98-137 | Every wait of the loop lies within [backoffMin, backoffMax] |
| Generic.RunListFailure | pkg/data/generic.go:124-136 | A failed list doubles the delay, caps it and waits that long |
| Generic.RunKubernetesDoubling | pkg/data/generic.go:124-136 | Repeated Kubernetes failures wait min(delay·2^(i+1), backoffMax) before round i+1, and write nothing |
| Generic.NewFromInterface | pkg/data/generic.go:53-59 | The synchroniser keeps the resource type and the client's URL, and has no creation error |
| Generic.NewFromInterfacePrefix | pkg/data/generic.go:57 | The synchroniser's client pushes exactly one more prefix segment, the resource name |
| Generic.New | pkg/data/generic.go:44-50 | A client error is kept as the creation error; otherwise `New` is `NewFromInterface` |
| Generic.RunContext | pkg/data/generic.go:78-84 | A creation error is returned without a single write. Otherwise the loop runs from backoffMin and `nil` is returned |
| ConfigMaps.MatchesNamespace | pkg/configmap/configmap.go:81-88 | Holds exactly when the list contains the ConfigMap's namespace or `*` |
| ConfigMaps.Matcher | pkg/configmap/configmap.go:58-79 | A data match wins over a policy match. isPolicy implies a match. With both features off nothing matches |
| ConfigMaps.UpdateAction | pkg/configmap/configmap.go:170-189 | Resync exactly when the new object matches, its version changed, and its fingerprint changed or retries is not `"0"`. Withdraw the old object, as it was classified, exactly when it matched and the new one does not |
| ConfigMaps.UpdateSkipsUnchanged | pkg/configmap/configmap.go:175-181 | Unchanged labels and data with retries `"0"` never resync |
| ConfigMaps.UpdateRetriesPending | pkg/configmap/configmap.go:175-181 | A matching new version with retries left always resyncs |
| ConfigMaps.IdSegments | pkg/configmap/configmap.go:203-214 | A key's id `ns/name/key` splits back into its three parts |
| ConfigMaps.UnmarshalMap | pkg/configmap/configmap.go:222-223 | A data value unmarshals into a map exactly when it is a JSON object or `null` |
| ConfigMaps.PublishKey | pkg/configmap/configmap.go:212-233 | A key makes at most one request and reports at most one error. It makes none exactly when it is data that does not unmarshal, and then it reports an error |
| ConfigMaps.PublishPolicies | pkg/configmap/configmap.go:216-218 | Policy keys are inserted one each, in order, under id `ns/name/key`; no error exactly when every insert is accepted |
| ConfigMaps.PublishDataWrites | pkg/configmap/configmap.go:219-229 | Data keys only put, at most one each, and a value that does not unmarshal writes nothing |
| ConfigMaps.PublishDataSucceeds | pkg/configmap/configmap.go:219-233 | Publishing data has no error exactly when every value unmarshals and every put is accepted |
| ConfigMaps.NextRetries | pkg/configmap/configmap.go:234-250 | The retry count is never negative. It exceeds defaultRetries exactly when a failing policy's annotation already held more than 3 |
| ConfigMaps.RetriesCountDown | pkg/configmap/configmap.go:237-245 | From retries r in [0, 2], a failed policy sync writes r-1, or 2 again after 0 |
| ConfigMaps.ErrListJson | pkg/configmap/configmap.go:346-363 | An empty list encodes as `""`, one error as its own encoding, several as a JSON array |
| ConfigMaps.ErrListJsonFallback | pkg/configmap/configmap.go:352-356 | An error that does not marshal encodes as its `%q`-quoted text, which unquotes back to that text; the status holding it marshals exactly when every character of the text is one JSON can escape |
| ConfigMaps.HtmlEscapeRemoves | pkg/configmap/configmap.go:281 | After `json.Marshal` compacts the error list, no `<`, `>`, `&`, U+2028 or U+2029 is left in it |
| ConfigMaps.HtmlEscapeKeeps | pkg/configmap/configmap.go:281 | A list without those five characters is left as it is |
| ConfigMaps.StatusEscapesHtml | pkg/configmap/configmap.go:281 | An error text `a<b` without JSON of its own gives the status `{"status":"error","error":"a\u003cb"}` |
| ConfigMaps.VerticalTabStatusUnsent | pkg/configmap/configmap.go:280-285 | A fallback text holding a vertical tab quotes to `\v`, which is not JSON, so `setAnnotations` sends no patch |
| ConfigMaps.MarshalErrList | pkg/configmap/configmap.go:346-363 | The encoding loop computes the list encoding |
| ConfigMaps.ErrListTextSplits | pkg/configmap/configmap.go:366-375 | Splitting the text of a list of single-line errors at newlines gives back each error's text |
| ConfigMaps.ErrorText | pkg/configmap/configmap.go:366-375 | The text loop computes the list's text |
| ConfigMaps.StatusAnnotations | pkg/configmap/configmap.go:286-293 | The patch sets exactly the status and retries annotations, and the retries value parses back to the count |
| ConfigMaps.StatusOkIffNoErrors | pkg/configmap/configmap.go:251-258 | The status is `{"status":"ok"}` exactly when there was no error |
| ConfigMaps.AddReportsStatus | pkg/configmap/configmap.go:202-285 | `syncAdd` makes the key requests in sorted key order, then at most one annotation patch on the ConfigMap, sent exactly when the status marshals (always when nothing failed). The patch reports ok exactly when nothing failed, and then retries `0` |
| ConfigMaps.PublishOne | pkg/configmap/configmap.go:213-232 | One key's turn makes exactly the requests and errors of the key function |
| ConfigMaps.PublishTurn | pkg/configmap/configmap.go:212-233 | One loop turn consumes one key of the publication function |
| ConfigMaps.PublishAll | pkg/configmap/configmap.go:212-233 | The key loop leaves the publication function's trace and errors |
| ConfigMaps.SyncAdd | pkg/configmap/configmap.go:202-259 | `syncAdd` leaves exactly the trace of the add function over the sorted keys |
| ConfigMaps.ResetAttemptsUnique | pkg/configmap/configmap.go:308-313 | The number of reset attempts before the first accepted one is unique |
| ConfigMaps.ResetWaits | pkg/configmap/configmap.go:307-318 | The i-th wait between reset attempts is min(2^i s, 30 s) |
| ConfigMaps.SyncReset | pkg/configmap/configmap.go:305-320 | The reset puts `{}` at `/` until the first accepted attempt, and waits min(2^i s, 30 s) after the i-th refusal |
| ConfigMaps.RemovePolicies | pkg/configmap/configmap.go:265-270 | Removing a policy ConfigMap deletes the policy `ns/name/key` once per key, in key order |
| ConfigMaps.RemoveData | pkg/configmap/configmap.go:271-275 | Removing a data ConfigMap patches `remove` at `ns/name` once per key; the only other requests are resets |
| ConfigMaps.RemoveDataAccepted | pkg/configmap/configmap.go:271-275 | When every patch is accepted, removal is exactly one `remove` patch per key |
| ConfigMaps.WithdrawOne | pkg/configmap/configmap.go:266-275 | One key's removal is its delete, or its patch followed by a reset when the patch is refused |
| ConfigMaps.SyncRemove | pkg/configmap/configmap.go:262-278 | `syncRemove` leaves the removal function's trace over the keys in map order |
| ConfigMaps.Add | pkg/configmap/configmap.go:162-168 | A matching ConfigMap is synced as its classification says; any other writes nothing |
| ConfigMaps.Update | pkg/configmap/configmap.go:170-189 | The update handler does exactly what the update gate decides |
| ConfigMaps.Delete | pkg/configmap/configmap.go:191-200 | A deleted matching ConfigMap, tombstone or not, is removed as classified; any other writes nothing |
| Policies.MatchLabelIsNewMatcher | pkg/policies/configmap.go:127-129 | The label rule is the newer matcher over all namespaces with only policies enabled |
| Policies.MatchWithoutLabel | pkg/policies/configmap.go:123-133 | A ConfigMap in `kube-federation-scheduling-policy` matches without the label |
| Policies.ErrorAnnotations | pkg/policies/configmap.go:157-168 | The error patch sets only `openpolicyagent.org/policy-error`, to the error's encoding |
| Policies.AddKey | pkg/policies/configmap.go:136-142 | Each key is inserted under `ns/name/key`, followed by an error patch exactly when the insert is refused |
| Policies.InsertsOfKey | pkg/policies/configmap.go:136-142 | Each key makes exactly one insert |
| Policies.AddInsertsEveryKey | pkg/policies/configmap.go:135-144 | The inserts of `syncAdd` are one per key, in key order, even after a refusal |
| Policies.AddAnnotatesOnlyErrors | pkg/policies/configmap.go:135-144 | `syncAdd` sends only inserts and error patches on this ConfigMap |
| Policies.AddAccepted | pkg/policies/configmap.go:135-144 | When every insert is accepted, `syncAdd` sends only inserts, one per key |
| Policies.AddOne | pkg/policies/configmap.go:136-142 | One turn makes the key function's requests |
| Policies.AddTurn | pkg/policies/configmap.go:135-144 | One loop turn consumes one key of the add function |
| Policies.SyncAdd | pkg/policies/configmap.go:135-144 | `syncAdd` leaves exactly the add function's trace over the keys in map order |
| Policies.RemoveRequests | pkg/policies/configmap.go:146-155 | Removal deletes `ns/name/key` once per key, in key order |
| Policies.SyncRemove | pkg/policies/configmap.go:146-155 | `syncRemove` deletes each key's policy once, and refused deletes do not stop it |
| Policies.Add | pkg/policies/configmap.go:102-107 | A matching ConfigMap is synced; any other writes nothing |
| Policies.Update | pkg/policies/configmap.go:109-114 | Only the new object counts: it is synced when it matches, and a lost label removes nothing |
| Policies.Delete | pkg/policies/configmap.go:116-121 | A deleted matching ConfigMap has its policies deleted |
| DynamicData.Missing | pkg/dynamicdata/dynamicdata.go:316-322 | The missing list holds exactly the entrypoints with no rules |
| DynamicData.RootsAreRules | pkg/dynamicdata/dynamicdata.go:316-322 | The traversal starts from rules of the compiled policy |
| DynamicData.ReachClosed | pkg/dynamicdata/dynamicdata.go:327-336 | The reachable rules are closed under dependencies |
| DynamicData.ReachLeast | pkg/dynamicdata/dynamicdata.go:327-336 | The reachable rules are the least dependency-closed set holding the roots |
| DynamicData.QueueEntrypoints | pkg/dynamicdata/dynamicdata.go:316-322 | The entrypoint loop queues exactly the roots and collects exactly the missing entrypoints |
| DynamicData.CollectNames | pkg/dynamicdata/dynamicdata.go:343-349 | A reference contributes a name exactly when it has the prefix, is longer than it, and its next term is a string |
| DynamicData.RuleNamesOf | pkg/dynamicdata/dynamicdata.go:337-349 | A rule contributes its references' names, and none when its minimal dependencies fail |
| DynamicData.Traverse | pkg/dynamicdata/dynamicdata.go:327-350 | The breadth-first loop with its visited set finds exactly the names of the rules reachable from the queue. A rule whose dependencies fail still has its dependencies traversed |
| DynamicData.AnalyzeRefs | pkg/dynamicdata/dynamicdata.go:308-362 | Any missing entrypoint returns no refs and the missing list. Otherwise the result is the reachable names, deduplicated and sorted ascending |
| DynamicData.AnalyzerTurn | pkg/dynamicdata/dynamicdata.go:290-300 | The analyzer publishes a result exactly when the entrypoint has rules, and then it is the sorted reachable names |
| DynamicData.PublishedNames | pkg/dynamicdata/dynamicdata.go:343-361 | A published list is strictly sorted and holds a name exactly when a reachable rule contributes it |
| DynamicData.Sync.constructor | pkg/dynamicdata/dynamicdata.go:103-117 | A new reconciler is not ready and runs nothing |
| DynamicData.Sync.IsReady | pkg/dynamicdata/dynamicdata.go:103-117 | Ready exactly when the flag is set and every running replicator is ready |
| DynamicData.Sync.ProcessAnalysisResult | pkg/dynamicdata/dynamicdata.go:132-170 | An unresolvable ref clears `ready` and changes nothing else. Otherwise `ready` is set and the running types are exactly the wanted ones. Existing replicators are kept, new ones freshly started, dropped ones cancelled |
| DynamicData.Sync.Start | pkg/dynamicdata/dynamicdata.go:146-161 | The creation loop starts exactly the wanted types not yet running and collects the wanted set |
| DynamicData.Sync.Launch | pkg/dynamicdata/dynamicdata.go:152-157 | Starting one type adds one fresh replicator for it |
| DynamicData.Sync.Cancel | pkg/dynamicdata/dynamicdata.go:164-167 | Stopping one type cancels its replicator and deletes its entry |
| DynamicData.Sync.Stop | pkg/dynamicdata/dynamicdata.go:163-169 | The stop loop keeps exactly the wanted types and cancels every other replicator |
| DynamicData.ParseGroupVersion | pkg/dynamicdata/dynamicdata.go:186-189 | A group-version with more than one `/` is an error. Without a slash it is a version alone. Otherwise it splits into a group and a version |
| DynamicData.Entry | pkg/dynamicdata/dynamicdata.go:191-202 | A resource's type takes its own group and version, each defaulting to the list's when empty |
| DynamicData.EnterResources | pkg/dynamicdata/dynamicdata.go:190-205 | The inner loop computes the fold over the list's resources |
| DynamicData.ResolveResourceTypes | pkg/dynamicdata/dynamicdata.go:178-208 | A discovery error is reported with its prefix; otherwise the result is the fold over all lists |
| DynamicData.ResolveAborts | pkg/dynamicdata/dynamicdata.go:186-189 | Once a group-version fails to parse, the whole result is that failure |
| DynamicData.ResolveFails | pkg/dynamicdata/dynamicdata.go:185-208 | Resolution fails exactly when some list's group-version does not parse |
| DynamicData.EnterAllKeeps | pkg/dynamicdata/dynamicdata.go:190-205 | The fold has a name exactly when it was there before or some resource carries it, and leaves other names alone |
| DynamicData.EnterAllLastWins | pkg/dynamicdata/dynamicdata.go:204 | The last resource of a list with a given name decides its entry |
| DynamicData.ResolveLastWins | pkg/dynamicdata/dynamicdata.go:185-208 | Across all lists the last resource with a given name decides its entry |
| Flags.Format | cmd/kube-mgmt/flag.go:21-26 | Prints `g/v/k`, or `v/k` when the group is empty |
| Flags.FromParts | cmd/kube-mgmt/flag.go:30-47 | Fails with the format error exactly when some part is empty or there are fewer than two. Otherwise the fields are the lower-cased, non-empty parts |
| Flags.ParseResult | cmd/kube-mgmt/flag.go:28-48 | A parsed value has a non-empty, lower-case version and kind; every failure is the format error |
| Flags.Parse | cmd/kube-mgmt/flag.go:28-48 | The lower-casing loop returns the parse function's error, or its value as the updated receiver |
| Flags.ParseFormat | cmd/kube-mgmt/flag.go:21-48 | For lower-case slash-free parts with a version and kind, parsing the printed value gives it back |
| Flags.ParseKeepsSlashInKind | cmd/kube-mgmt/flag.go:29 | Only the first two slashes split, so a kind keeps its own slashes |
| Flags.ParseRejectsTrailingSlash | cmd/kube-mgmt/flag.go:29-33 | `a/b/` is refused |
| Flags.ParseRejectsSinglePart | cmd/kube-mgmt/flag.go:36-38 | A value without a slash is refused |
| Flags.ParseTwoParts | cmd/kube-mgmt/flag.go:39-41 | Two parts give an empty group and the lower-cased version and kind |
| Flags.FormatAll | cmd/kube-mgmt/flag.go:52-54 | The flag's list prints in brackets |
| Flags.FormatEach | cmd/kube-mgmt/flag.go:52-54 | Each element prints as `Format` does |
| Flags.GvkFlag.constructor | cmd/kube-mgmt/flag.go:50 | A new flag holds no values |
| Flags.GvkFlag.Text | cmd/kube-mgmt/flag.go:52-54 | A single value prints as `[g/v/k]` |
| Flags.GvkFlag.Set | cmd/kube-mgmt/flag.go:56-63 | A value that parses is appended, exactly once; one that does not leaves the list as it was and returns the error |
| Violations.TrackedKeys | pkg/violations/violations.go:34-45 | A key is tracked at start exactly when some existing event with this source has it |
| Violations.InitialEvents | pkg/violations/violations.go:41-45 | The start-up loop computes the tracked map |
| Violations.SentEvent | pkg/violations/violations.go:59-89 | A new key creates an event with count 1, the fixed reason, type `Normal`, namespace `opa` and this source. A tracked key is updated with its count one higher and the new message, nothing else changed |
| Violations.Writes | pkg/violations/violations.go:56-90 | One create or update is sent per violation |
| Violations.RecordedKeys | pkg/violations/violations.go:55-90 | The new map has a key for exactly the notification's violations, even when a request failed |
| Violations.RecordedLastSent | pkg/violations/violations.go:76-86 | Each key maps to what the last request for it returned |
| Violations.Deletes | pkg/violations/violations.go:92-96 | Each stale key's event is deleted by name |
| Violations.Tracker.constructor | pkg/violations/violations.go:34-45 | The tracker starts from the tracked map and no calls |
| Violations.Tracker.Step | pkg/violations/violations.go:47-97 | An undecodable notification changes nothing. Otherwise the writes are sent, then every tracked key absent from the notification is deleted once, and the map becomes the notification's |
| Violations.Tracker.PostAll | pkg/violations/violations.go:55-90 | The notification loop sends the writes and builds the new map |
| Violations.Tracker.DeleteStale | pkg/violations/violations.go:92-96 | The deletion loop deletes exactly the tracked keys missing from the new map, each once |
| Initialization.UpdatedInitializers | pkg/initialization/initialization.go:210-226 | The result is ok exactly when the pending list's head is ours. The list is nil when ours was the only entry; otherwise it is one shorter and keeps the result |
| Initialization.PopRestores | pkg/initialization/initialization.go:218-225 | Our name followed by the remaining list is the original pending list |
| Initialization.QueryOpa | pkg/initialization/initialization.go:198-208 | Undefined is an empty merge map. Other client errors are returned. A result is a map exactly when it is a JSON object, and `null` is the nil map |
| Initialization.MergedKeeps | pkg/initialization/initialization.go:126-132 | The patch sets `metadata.initializers` to the updated list and keeps every other member |
| Initialization.InitializeResource | pkg/initialization/initialization.go:114-151 | The handler computes the initialization function |
| Initialization.NotOursUntouched | pkg/initialization/initialization.go:116-119 | When it is not our turn nothing is queried or patched |
| Initialization.UndefinedPopsOnly | pkg/initialization/initialization.go:199-201 | An undefined OPA result patches only the initializers |
| Initialization.LastInitializerClears | pkg/initialization/initialization.go:221-223 | The last initializer's patch sets `initializers` to `null` |
| Strings.TrimRight | pkg/opa/opa.go:56 | Removes exactly the trailing run of the character |
| Strings.Trim | pkg/opa/opa.go:66 | The result neither starts nor ends with the character |
| Strings.TrimIsInfix | pkg/opa/opa.go:66 | The result is the string with runs of the character cut from both ends |
| Strings.TrimIdempotent | pkg/opa/opa.go:66 | Trimming twice is trimming once |
| Strings.Split | pkg/data/generic.go:266 | The parts contain no separator |
| Strings.JoinSplit | pkg/data/generic.go:266 | Joining the parts with the separator gives the string back |
| Strings.SplitJoin | pkg/data/generic.go:266 | Splitting separator-free parts joined with it gives the parts back |
| Strings.SplitN | cmd/kube-mgmt/flag.go:29 | At most n parts; only the last may hold the separator, and only when there are n |
| Strings.JoinSplitN | cmd/kube-mgmt/flag.go:29 | Joining the parts with the separator gives the string back |
| Strings.ToLower | cmd/kube-mgmt/flag.go:34 | Same length, lower case, unchanged when already lower case, slashes in the same places |
| Strings.SortStrings | pkg/configmap/configmap.go:206-210 | The keys, strictly sorted |
| Strings.SortedOf | pkg/configmap/configmap.go:206-210 | A strictly sorted sequence of exactly the set's elements |
| Strings.SortedUnique | pkg/dynamicdata/dynamicdata.go:352-359 | Only one strictly sorted sequence holds a given set |
| Strings.Itoa | pkg/configmap/configmap.go:290 | Never empty |
| Strings.Atoi | pkg/configmap/configmap.go:238 | A parsed value fits in 64 bits and comes from a digit or sign |
| Strings.AtoiItoa | pkg/configmap/configmap.go:238-290 | A 64-bit count written to the annotation reads back as itself |
| Strings.QuoteRoundTrip | pkg/configmap/configmap.go:356 | A `%q`-quoted text unquotes back to itself, with `\a \b \f \n \r \t \v` and `\xHH` escapes read back |
| Strings.EscapeHasNoControl | pkg/configmap/configmap.go:356 | `%q` leaves no ASCII control character or DEL unescaped |
| Strings.QuoteControl | pkg/configmap/configmap.go:356 | `%q` writes a vertical tab as `\v`, SOH as `\x01` and DEL as `\x7f` |

## Left out

- Goroutines, channels, mutexes, informers, the HTTP transport, logging and timestamps. The sequential effect of each handler is modelled instead. Delays are integers (seconds), not waits.
- The deprecated `GenericSync.Run` (pkg/data/generic.go:64-74): the same creation-error check as `RunContext`, and then a goroutine.
- JSON syntax, and marshalling failures other than the `errList` fallback. A value's parse is an oracle (`Parser`), and an error's JSON encoding is an optional field of the error value.
- The FNV-64a `fingerprint` is an uninterpreted function; only its determinism is used.
- OPA's compiler, `Graph.Dependencies` and `dependencies.Minimal` become an abstract finite rule graph and a per-rule reference oracle that can fail.
- `schema.ParseGroupVersion` belongs to the Kubernetes libraries and is not part of this model. `DynamicData.ParseGroupVersion` restates its rules for `group/version`, `version` and more than one slash.
- `strings.ToLower` is modelled on ASCII letters only.
- Discovery and dynamic-client construction, `declare()` and initializer registration, `CustomLabel`, process start-up and flag wiring.
- Calls between packages whose signatures disagree in this revision are left out: pkg/dynamicdata/dynamicdata.go:154 calls a two-argument `opa.New`, while pkg/opa/opa.go:55 takes one, and cmd/kube-mgmt/main.go:162-172 passes six arguments to `configmap.DefaultConfigMapMatcher`, while pkg/configmap/configmap.go:58 takes seven. A replicator is therefore only its resource type and serial (`DynamicData.Replicator`).
- Strings.Quote: `%q` is modelled on the ASCII range only. Go also escapes the non-ASCII characters its tables count as unprintable (U+00A0 as `\u00a0`, U+2028 as `\u2028`, characters above U+FFFF as `\U` escapes). The model keeps every non-ASCII character as it is. U+2028 and U+2029 still end up as `\u2028` and `\u2029` once the status is HTML-escaped.
- ConfigMaps.ErrListJsonFallback: because `%q` is modelled on ASCII only, `StatusMarshals` does not see a fallback text with an unprintable character above U+FFFF, whose `\U` escape makes Go's status invalid JSON. Go then sends no patch; the model sends one.
- Violations.SentEvent: an event's count is 32-bit in the source, and its wrap-around is not modelled.
- Violations.SentEvent: the source bumps the tracked event in place. A key that occurs twice in one notification is therefore bumped twice in the source; the model bumps it from the tracked value each time.
- Violations.Tracker.constructor: the address of the range variable is taken at pkg/violations/violations.go:43, so every tracked entry may alias one event. The model keeps each event as a value. Nil events after a failed create or update are modelled as whatever the API returned.
- ConfigMaps.SyncReset: `syncReset` loops until OPA accepts a reset. The model requires an accepting answer to exist, so the non-terminating case is not modelled.
- ConfigMaps.SyncRemove: for data ConfigMaps it requires OPA to accept a reset eventually after every call (`Recovers`), for the same reason.
- ConfigMaps.Update: it carries that requirement whenever the old object is not a policy, even when the update publishes and does not remove.
- ConfigMaps.Delete: it carries that requirement whenever the object is not a policy.
- ConfigMaps.WithdrawOne: it carries that requirement whenever the key is not a policy.
- Generic.GenerateSyncPayload: it requires names and namespaces without `/`, which Kubernetes enforces. With a `/` the source splits the key at every slash, and that case is not modelled.
- Generic.SyncAll: it carries the same slash-free requirement.
- Generic.Sync: it carries the same slash-free requirement.
- Generic.Loop: it carries the same slash-free requirement.
- Generic.RunContext: it carries the same slash-free requirement.
- DynamicData.Sync.IsReady: each replicator's own readiness is a parameter, because it is computed in code that is not part of this model.
- The retry counter can exceed `defaultRetries`: an annotation holding r > 3 becomes r-1 (`ConfigMaps.NextRetries` states exactly when).

## Findings

| source | as written | input that shows it | evidently intended | confidence | as-written member | corrected member |
|---|---|---|---|---|---|---|
| pkg/opa/opa.go:75-85 | `PatchData` builds the pointer as `"/" + prefix + trim(path)`, with no `/` between the prefix and the path | A client with prefix `kube` patching `node` sends pointer `/kubenode`, while `PutData` wrote `/data/kube/node` | `"/" + prefix + "/" + trim(path)`, the document `PutData` and `PostData` address | not executed | Opa.PatchPointerAsWrittenDiffers, Opa.PatchPointerAsWrittenFuses | Opa.PatchPointer, Opa.PatchPointerIsData, Opa.PatchPointerSegments, Opa.PatchDocument |

The rest of the model builds patch documents with the corrected pointer (`Opa.PatchDocument`).

Two behaviours of the source are modelled as written and are not counted as findings:

- When OPA answers `null` to the initializer query, `initializeResource` writes into a nil map (`Initialization.Initialize` returns `Panic`).
- Removing a data ConfigMap patches the whole `ns/name` document once per key.
