# argocd-clusterset: a verified model of the reconciliation core

argocd-clusterset registers Amazon EKS clusters with Argo CD.  It does so by
keeping one Kubernetes Secret (a "cluster secret", labelled
`argocd.argoproj.io/secret-type=cluster`) per selected cluster.  The tool
discovers the clusters of an AWS account whose tags match a selector, builds
the Secret for each, and converges the registry onto them.  It runs either as
CLI commands (`create`, `delete`, `create-missing`, `delete-missing`, `sync`)
or as a controller that reconciles `ClusterSet` objects.

This Dafny project models that core:

- `common.dfy`, module `Common`: Option, Result, Outcome, the error taxonomy,
  object keys, and exact-match selection of string maps.
- `eks.dfy`, module `Eks`: the cloud as an in-memory oracle.  Each role ARN
  maps to an account, which holds pages of cluster names, the pages whose
  listing fails, and the describable clusters with endpoint, CA data and tags.
- `cluster_secrets.dfy`, module `ClusterSecrets`: the run package's parameter
  records and the synthesis of one cluster secret
  (`newClusterSecretFromValues`, `newClusterSecretFromCluster`).  This
  includes the exact text of the embedded `config` document and a reader that
  recovers its fields.
- `discovery.dfy`, module `Discovery`: `clusterSecretsFromClusters`.  It
  covers the tag filter, the describe loop over one page, and the cursor loop
  exactly as written.
- `secret_api.dfy`, module `SecretApi`: the Secret registry as a class
  holding a map.  It offers Create, Delete and List by label selector, with a
  fixed oracle of transient faults.
- `run.dfy`, module `Run`: `Create`, `Delete`, `CreateMissing`,
  `DeleteMissing` and `Sync` as methods over the registry.  Each is proved
  against a specification function of the old registry.  The lemmas cover
  convergence and idempotence.
- `controllers.dfy`, module `Controllers`: `addFinalizer`, `removeFinalizer`,
  and one `Reconcile` tick.  The tick is a method of a reconciler class that
  holds the ClusterSet objects, the event log and the registry.
- `eks_tags_flag.dfy`, module `EksTagsFlag`: the `--eks-tags` KEY=VALUE
  parsing loop of `main.go`, with `strings.Split` modelled and proved against
  its inverse.

## Behaviour of the code worth knowing

The model keeps these behaviours of the code as they are:

- **Only the first page is read.** The loop at `pkg/run/run.go:287` sets the
  cursor to nil in its initialiser, so it never runs.
  - `Discovery.DiscoveryReadsOnlyTheFirstPage` states what discovery returns.
  - `Discovery.LaterPagesAreIgnored` exhibits a cluster on page two that is
    never registered.
  - `Discovery.ContinuationFollowsEveryPage` proves the loop body itself
    would follow every cursor.
- **Caller labels can override the sentinel label.** The caller's labels are
  written last, so a template label can give
  `argocd.argoproj.io/secret-type` another value.  DeleteMissing then lists
  with a selector that asks for two values of one key, so it matches nothing
  (`Run.RecordsMatchListSelector`).
- **NotFound on delete is an error.** `Delete` and `DeleteMissing` return a
  NotFound from the registry as an error.  A single `Create` returns
  AlreadyExists as an error.  Only `CreateMissing` swallows AlreadyExists.
- **Status is never written.** `Reconcile` leaves the ClusterSet status
  untouched (`Controllers.ClusterSetReconciler.Reconcile`).
- **A tag entry without `=` panics.** It indexes past the end of the split
  in `main.go`.  The model returns `Failure(IndexOutOfRange(entry))` for it,
  so the malformed input stays in the model.
- **Create panics on a failed describe.** The model gives the outcome
  `Fail(Panicked(e))`.
- **The CLI set commands pass no role ARN and no labels.**  This applies to
  `create-missing`, `delete-missing` and `sync` in `main.go`.  The model
  takes `ClusterSetConfig` as a parameter, so the CLI case is the one where
  those fields are empty.

## Model

| member | source | states |
|---|---|---|
| ClusterSecrets.ClusterLabels | pkg/run/run.go:323-329 | The labels are the sentinel pair overwritten by the caller labels: every caller label keeps its value, the sentinel key included, and the sentinel holds `cluster` only when the caller does not set it |
| ClusterSecrets.NewClusterSecretFromValues | pkg/run/run.go:322-360 | Name and namespace are the inputs, the labels are the merged map, the payload has exactly the keys `name`, `server` and `config`, `name` and `server` hold the name and the endpoint, and `config` is the config document built from the name, the auth role and the CA |
| ClusterSecrets.RecordConfig | pkg/run/run.go:345-355 | The `config` entry of a built record reads back as clusterName = name, roleARN = auth role, caData = CA, insecure = false, when no value holds a double quote |
| ClusterSecrets.ConfigTextRoundTrip | pkg/run/run.go:345-355 | The formatted config document parses back to the three substituted values with insecure false |
| ClusterSecrets.NewClusterSecretFromCluster | pkg/run/run.go:313-315 | The record is named after the cluster in the given namespace, with the merged labels, the payload keys `name`, `server` and `config`, and the described endpoint as its server |
| ClusterSecrets.ClusterRecordConfig | pkg/run/run.go:313-315 | The config document of a described cluster's record reads back with the described CA data, insecure false, when no value holds a double quote |
| Discovery.TagsMatch | pkg/run/run.go:261-266 | The tag loop yields true iff every selector key is a tag of the cluster with exactly the selector's value |
| Discovery.EmptySelectorKeepsEveryCluster | pkg/run/run.go:261-268 | An empty selector keeps every cluster |
| Discovery.MissingTagExcludesCluster | pkg/run/run.go:262-265 | A selector key absent from the tags excludes the cluster |
| Discovery.KeptNames | pkg/run/run.go:253-274 | A name is kept iff it was listed, describes, and passes the tag filter |
| Discovery.RecordsFor | pkg/run/run.go:268-271 | One record per kept name, in order, each named after its cluster and built from its DescribeCluster answer |
| Discovery.FailureSticks | pkg/run/run.go:256-259 | Once a describe fails, the describe loop's result is that failure whatever follows |
| Discovery.SecretsForNamesSucceeds | pkg/run/run.go:253-259 | The describe loop over a page succeeds iff every listed cluster can be described |
| Discovery.SecretsForNamesValue | pkg/run/run.go:253-275 | On success, the loop returns the records of the kept clusters in enumeration order |
| Discovery.Process | pkg/run/run.go:240-278 | The process closure lists the page of the cursor, returns the first list or describe error, or appends the kept records and returns the next cursor |
| Discovery.CursorAdvances | pkg/run/run.go:277 | Every cursor the provider hands back designates a later page, so following cursors terminates |
| Discovery.ProcessFullPage | pkg/run/run.go:240-278 | For a page that lists and fully describes, one call appends exactly that page's kept records and returns the next page's cursor |
| Discovery.ContinuePaging | pkg/run/run.go:287-295 | The cursor loop computes the continuation from the cursor it is given, stopping at the first error |
| Discovery.ContinuationFollowsEveryPage | pkg/run/run.go:287-295 | Entered with the cursor of page i, the loop appends the kept records of page i and of every later page, in order |
| Discovery.ClusterSecretsFromClusters | pkg/run/run.go:233-298 | The method computes discovery as written: first page processed, then the loop entered with a reset cursor |
| Discovery.DiscoveryReadsOnlyTheFirstPage | pkg/run/run.go:282-297 | Discovery succeeds iff the first page lists and each of its clusters describes, and then returns exactly the kept records of the first page; any error returns no records |
| Discovery.LaterPagesAreIgnored | pkg/run/run.go:287 | A kept cluster listed only on page two is never discovered although the first page hands out its cursor |
| SecretApi.SecretStore.Create | pkg/run/run.go:116-122 | Create fails on a transient fault or a taken key and otherwise adds exactly the new record |
| SecretApi.SecretStore.Delete | pkg/run/run.go:208-211 | Delete fails on a transient fault or a missing key (NotFound) and otherwise removes exactly that key |
| SecretApi.SecretStore.List | pkg/run/run.go:182-187 | List fails iff the namespace's listing faults; otherwise it returns each key of that namespace whose labels match the selector, once |
| Run.ListSelectorMatches | pkg/run/run.go:174-184 | A label map matches the listing selector iff it carries the sentinel pair and every template label |
| Run.CreateAllOnlyAdds | pkg/run/run.go:113-129 | The create loop never rewrites an existing record; every added entry is a discovered record under its own key |
| Run.CreateAllOutcome | pkg/run/run.go:113-131 | The create loop passes iff no record meets a transient create error, and then the registry holds every record's key |
| Run.CreateAllStopsAtFirstFault | pkg/run/run.go:116-122 | The loop returns the first non-AlreadyExists error at once, with only the earlier records applied |
| Run.CreateAllOfPresent | pkg/run/run.go:116-119 | When every record is already present, AlreadyExists is swallowed and nothing changes |
| Run.CreateAllOfPresentKeeps | pkg/run/run.go:116-122 | When every record is already present, the create loop leaves the registry unchanged whatever faults it meets |
| Run.CreateMissing | pkg/run/run.go:97-132 | The new registry and outcome are those of discovery followed by the create loop; a discovery error or dry-run leaves the registry untouched |
| Run.DesiredClusters | pkg/run/run.go:194-198 | The desired set holds exactly the names of the discovered records |
| Run.DeleteUndesired | pkg/run/run.go:200-216 | The delete loop passes iff dry-run or no undesired listed key faults. A failure stops at the first faulting undesired key in listing order, after deleting exactly the undesired keys listed before it. Only undesired keys are removed, all of them on success. Dry-run removes nothing |
| Run.DeleteMissing | pkg/run/run.go:163-219 | DeleteMissing passes iff listing and discovery succeed and no redundant key faults. The error is the listing error, the discovery error, or a failed delete. A failed delete is the first faulting undesired key in the order the registry listed, with exactly the undesired keys before it deleted. A listing or discovery error, or dry-run, changes nothing. Only listed, undesired keys are ever removed, exactly those on success |
| Run.StoppedAtDetermined | pkg/run/run.go:200-216 | For one listing order, the key the delete loop stops at and the registry it leaves are unique: the stop is the first undesired key whose delete faults, and nothing after it is deleted |
| Run.Sync | pkg/run/run.go:221-231 | Dry-run changes nothing. Sync passes iff both phases pass, and then leaves Synced. A create-phase error is wrapped, attempts no delete and leaves the created state. A delete-phase error is wrapped around an error DeleteMissing may return, and has only removed redundant records. A failed listing or discovery in the delete phase removes nothing. Otherwise Sync returns the registry's listing order as the ghost `listing`: it holds each listed key once, and the sync stopped at the first redundant record in that order whose delete failed, with exactly the redundant records before it removed |
| Run.CreatedKeepsToDelete | pkg/run/run.go:221-231 | Records created by the first phase never become redundant for the second |
| Run.SyncConverges | pkg/run/run.go:221-231 | After a sync outside dry-run, every discovered key is present and existing records are not rewritten. New entries are discovered records. The result is the create phase's state minus some entries. Exactly the redundant listed records are gone, and nothing redundant is left |
| Run.SyncIsIdempotent | pkg/run/run.go:221-231 | A second sync against the same cloud and the same faults also passes and leaves the registry as the first left it |
| Run.SyncAgainKeepsRegistry | pkg/run/run.go:221-231 | A second sync against the same cloud leaves the registry as the first left it, whatever faults it meets and whether or not it passes |
| Run.SyncOfConvergedKeeps | pkg/run/run.go:221-231 | A sync of a registry that holds every discovered key and lists nothing redundant changes nothing, whatever faults it meets |
| Run.RecordsMatchListSelector | pkg/run/run.go:174-189 | Discovered records sit in the configured namespace and match the listing selector, unless a template label overrides the sentinel, in which case the listing matches nothing |
| Run.CommandRecordFields | pkg/run/run.go:63-73 | The single command's record is the described one when endpoint or CA data is empty, and built from the given values otherwise; a describe failure panics |
| Run.Create | pkg/run/run.go:44-95 | A panic or dry-run leaves the registry untouched; otherwise the record is created, with AlreadyExists returned as an error |
| Run.Delete | pkg/run/run.go:134-161 | Dry-run changes nothing; otherwise the named Secret is deleted, with NotFound returned as an error |
| Controllers.WithoutToken | pkg/controllers/clusterset.go:145-158 | The result never holds the token, equals the input when the token is absent, and is shorter when it is present |
| Controllers.WithoutTokenMembers | pkg/controllers/clusterset.go:149-155 | Exactly the entries other than the token survive |
| Controllers.WithoutTokenAppend | pkg/controllers/clusterset.go:149-155 | Removal commutes with concatenation, so the remaining entries keep their order |
| Controllers.AddFinalizer | pkg/controllers/clusterset.go:130-143 | Reports an addition iff the token was absent, then appends it at the end and otherwise returns the list unchanged; the result always holds the token, so a second call reports no addition |
| Controllers.RemoveFinalizer | pkg/controllers/clusterset.go:145-158 | Drops every occurrence of the token keeping the rest in order, and reports a removal iff the token was present |
| Controllers.FinalizerLifecycle | pkg/controllers/clusterset.go:67-99 | A live object without the token syncs once it is added; a deleting object is released once it is removed and never syncs |
| Controllers.ClusterSetReconciler.Update | pkg/controllers/clusterset.go:74-77 | Update fails on an update fault and otherwise persists only the new finalizer list |
| Controllers.ClusterSetReconciler.Reconcile | pkg/controllers/clusterset.go:58-119 | A failed Get returns its error and a missing object is no error, both with no action. A live object without the token is persisted with it, without sync. A deleting object is persisted without the token when present, without sync. Otherwise one non-dry-run sync runs, with the sync's outcome and its ghost listing order as stated for Run.Sync. Status and spec are never written |
| Controllers.ClusterSetReconciler.SyncClusterSet | pkg/controllers/clusterset.go:101-118 | The sync uses DryRun false, the request namespace, the selector and the template; the registry changes as stated for Run.Sync, over the ghost listing order the sync returns; failure requeues after 10 seconds with the sync error; success records one Normal SyncFinished event and requeues nothing |
| EksTagsFlag.Split | main.go:79 | At least one piece, no piece holds the separator, and a single piece iff the separator is absent |
| EksTagsFlag.JoinSplit | main.go:79 | Joining the pieces gives back the split string |
| EksTagsFlag.SplitJoin | main.go:79 | Splitting undoes joining for separator-free pieces |
| EksTagsFlag.KeyAndValueOfEntry | main.go:79-80 | The key is the text before the first `=` and the value the text up to the second; anything after a second `=` is dropped |
| EksTagsFlag.EntryPairDefined | main.go:79-80 | An entry yields a key and value iff it holds `=` |
| EksTagsFlag.TagsFromFlagsFails | main.go:78-80 | The parse fails iff some entry has no `=` |
| EksTagsFlag.TagsFromFlagsKeys | main.go:77-81 | A successful parse has exactly the entries' keys |
| EksTagsFlag.TagsFromFlagsLastWins | main.go:78-81 | Each key holds the value of its last entry |
| EksTagsFlag.NoFlagsSelectEverything | main.go:77-81 | No entries give the empty map, which selects every cluster |
| EksTagsFlag.TagsFailureSticks | main.go:78-80 | A failing entry fixes the outcome of the whole parse |
| EksTagsFlag.ParseEksTags | main.go:77-81 | The loop computes the parse of the entries, failing at the first entry without `=` |

## Left out

- `newClientset` (kubeconfig lookup, REST client construction) is not modelled.  It is I/O, and the registry is a parameter instead.
- AWS session and role assumption are not modelled.  They are folded into the cloud oracle: a role ARN the oracle does not know fails every call.
- The controller manager, `SetupWithManager`, scheme registration, logging, printed messages and the YAML output of dry-run are not modelled.  Dry-run is modelled only as "no registry change".
- Error wrapping with context messages is not modelled.  The exception is the two phases of Sync, whose wrapping (`CreatingMissing`, `DeletingRedundant`) tells which half failed.
- The order of List results is left open.  The registry chooses it, DeleteMissing returns it as the ghost `listing`, and its contracts hold for every order.
- Label selectors are modelled as sets of equality requirements rather than the comma-joined selector string.
- The `config` document substitutes its values without JSON escaping, as the code does.  Its read-back is proved only for values without double quotes.
- Concurrency between objects, watch-driven scheduling and optimistic-concurrency conflicts are not modelled.  Each Reconcile is one sequential tick against fault oracles.
- The API server's removal of an object whose finalizer list becomes empty while it is deleting is not modelled.
- `newClusterSecretFromName` is not a separate member.  Its describe-then-build step is part of `Run.CommandRecord`.
- Cobra command and flag registration in `main.go` are not modelled, apart from the `--eks-tags` loop.
- The ClusterSet types of `api/v1alpha1` are not modelled beyond the fields the controller reads and the status it never writes.
- Eks.EksCluster: a DescribeCluster answer always carries an endpoint and CA data.  The code dereferences both (`pkg/run/run.go:314`), so an answer without them, such as one for a cluster still being created, panics.  The model builds a record instead of capturing that panic.
- Discovery.CursorAdvances: the cloud oracle's cursors are page indexes, so every cursor it hands out designates a later page.  Neither `pkg/run/run.go:277` nor ListClusters promises that, so the continuation loop, which the code never enters, terminates by this assumption.
- Run.SyncIsIdempotent: a second sync meets the same fault oracle as the first, so its "also passes" holds only because the model's transient faults are fixed per key.  `Run.SyncAgainKeepsRegistry` states the unchanged registry for any faults.
- Run.Sync: both discovery calls of one sync (`pkg/run/run.go:108` and `189`) see the same cloud and the same faults.  The model does not capture a cloud that changes, or starts failing, between the create phase and the delete phase.  `Run.CreatedKeepsToDelete`, `Run.SyncConverges` and `Run.SyncIsIdempotent` rely on the two calls agreeing.
