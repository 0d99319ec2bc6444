# Deis Workflow Manager: caches, cluster aggregation and periodic jobs in Dafny

Deis Workflow Manager runs inside a Kubernetes cluster. Periodically, it
reports which Deis components are installed to a versions API, and it asks
that API which component versions are the latest. This project models the
in-memory logic behind that:

- the cluster identity: a cache in front of a Kubernetes secret, with
  get-or-create on a miss (`ClusterIds`, data/cluster_id.go);
- the available-versions cache and its refresh, which sends a sparse request
  of component names and trains (`AvailableVersions`, data/available_versions.go);
- the earlier revision of both caches as package variables (`DataGlobals`,
  data/data.go);
- the projection of Deis replication controllers onto installed components
  (`InstalledData`, data/installed_data.go);
- cluster aggregation: version comparison, update annotation, latest-version
  lookup and `GetCluster` (`Components`, components/components.go);
- the job runner and its two jobs (`Jobs`, jobs/jobs.go).

The shared types are in `Types`. They cover component, version, cluster and
configuration, plus the tagged outcomes `Result` and `Outcome`.

Collaborators outside this logic are parameters. Each parameter stands for
the collaborator's answer, or for a function from its input to that answer:

- the Kubernetes secret store;
- the replication controller listing;
- JSON encoding and decoding;
- HTTP requests;
- the UUID generator.

State the source changes in place is modelled with classes:

- `ClusterIdFromPersistentStorage` holds the cluster-ID cache;
- `AvailableVersionsFromAPI` holds the versions cache;
- `PackageState` holds the package variables of data/data.go.

Their methods carry `modifies` clauses.

Revisions: the source files come from different revisions.
components/components.go calls `data.GetID` and `data.GetAvailableVersions`
with the package-variable types of data/data.go. So `Components.GetCluster`
resolves the identity through `DataGlobals.PackageState.GetID`, the one that
writes the identity back to the cache. Its component lookups go through
`DataGlobals.PackageState.GetAvailableVersions`, which fills the versions
cache on a miss.

## Model

| member | source | states |
|---|---|---|
| Components.SplitJoin | components/components.go:157-158 | splitting on "." loses nothing: joining the pieces gives the string back, and no piece contains a dot |
| Components.LexTotal | components/components.go:160-162 | Go's string `>` is a strict total order: equal strings are exactly those where neither is greater |
| Components.SemVerNewest | components/components.go:156-167 | the version chosen is always one of the two arguments |
| Components.NewestSemVer | components/components.go:156-167 | the loop returns v2 at the first segment where v2's is larger by string order, v1 where v1's is larger, v1 when none differs, always with a nil error; it requires exactly the condition under which `v2Slice[i]` stays in range |
| Components.LongerSecondIsSafe | components/components.go:159-161 | a second version with at least as many segments as the first never makes the loop index out of range |
| Components.SafeIndexingExactly | components/components.go:159-161 | the loop indexes out of range exactly when the second version's segments are a proper prefix of the first's |
| Components.NewestSemVerOfEqual | components/components_test.go:139-147 | comparing a version with itself is safe and returns it |
| Components.FirstDifferenceDecides | components/components.go:159-165 | the first differing segment decides: v2 wins exactly when its segment there is greater by string order |
| Components.PrefixKeepsFirst | components/components.go:159-166 | when v1's segments are a prefix of v2's, v1 is returned |
| Components.NewerMajorWins | components/components_test.go:118-127 | "3.0.0" is newer than "2.0.0" |
| Components.NewerMinorWins | components/components_test.go:118-127 | "2.1.0" is newer than "2.0.0" |
| Components.NewerPatchWins | components/components_test.go:118-127 | "2.0.1" is newer than "2.0.0" |
| Components.OlderMajorLoses | components/components_test.go:129-138 | "2.4.5" is newer than "1.99.23" |
| Components.OlderMinorLoses | components/components_test.go:129-138 | "2.4.5" is newer than "2.3.99" |
| Components.OlderPatchLoses | components/components_test.go:129-138 | "2.4.5" is newer than "2.4.4" |
| Components.StringSegmentsMisorderReleases | components/components.go:160-162 | as written, "1.9.0" is judged newer than "1.10.0" |
| Components.ShorterSecondIndexesPastEnd | components/components.go:159-161 | as written, comparing "1.0.0" with "1.0" indexes past the end of the second version's segments |
| Components.NewestSemVerNumeric | components/components.go:156-167 | the corrected comparison is defined for every pair and returns one of its arguments |
| Components.NumericFirstDifferenceDecides | components/components.go:159-165 | corrected comparison: the first segment whose numeric value differs decides, the larger value winning, with missing segments read as 0 |
| Components.LexAgreesWithValue | components/components.go:160-162 | for digit strings of equal length, string order is numeric order |
| Components.SameShapeComparisonsAgree | components/components.go:156-167 | on versions of the same shape, the comparison as written is safe and agrees with the corrected one |
| Components.NewestSemVerNumericOfEqual | components/components_test.go:139-147 | the corrected comparison of a version with itself returns it |
| Components.NumericOrdersReleases | components/components.go:156-167 | corrected comparison: "1.10.0" is newer than "1.9.0" |
| Components.NumericPadsShorterFirst | components/components.go:156-167 | corrected comparison: "1.0.1" is newer than "1.0" |
| Components.NumericPadsShorterSecond | components/components.go:156-167 | corrected comparison: "1.0.1" is newer than "1.0", and the shorter second version does not fail |
| Components.NumericMinorUpgrade | components/components.go:156-167 | corrected comparison: "1.3.0" is newer than "1.2.3" |
| Components.NewestVersion | components/components.go:186-189 | the placeholder comparison always answers the installed version |
| Components.FirstFailure | components/components.go:96-100 | the position of the first component whose lookup fails: every lookup before it succeeds, and the one there fails |
| Components.UpdatedComponents | components/components.go:93-107 | after annotation the components keep their length, order, component and version fields. Up to the first failing lookup, the update field is set to the comparison's answer exactly when that differs from the installed version. From the failing component on, nothing changes |
| Components.UpdateError | components/components.go:96-100 | nil exactly when every lookup succeeds, otherwise the first failing lookup's error |
| Components.AddUpdateData | components/components.go:93-107 | the array after the in-place loop is the annotated sequence under the lookup of the versions cache as it was before the loop, and the error is the first lookup error. The versions cache ends as one lookup leaves it when there is a component, and is untouched otherwise |
| Components.PlaceholderAnnotatesNothing | components/components.go:187-189 | with the placeholder `newestVersion`, annotation changes nothing |
| Components.RouterUpdateDetected | components/components.go:101-104 | with the corrected comparison, an installed router 1.2.3 whose latest is 1.3.0 is annotated with 1.3.0 |
| Components.LastMatch | components/components.go:144-148 | the position of the last entry with the name, or -1 when none has it |
| Components.ScanLatestVersion | components/components.go:144-152 | the scan answers the version of the last entry with the name, and an error exactly when no entry matches or that version is empty |
| Components.GetLatestVersion | components/components.go:138-153 | the versions cache is asked (fetching on a miss) and its error passed on; otherwise the scan's answer. The cache ends as one GetAvailableVersions leaves it |
| Components.LatestReleasedComponentGet | components/components.go:59-66 | the lookup answers GetLatestVersion's answer, which is the lookup function of the cache as it was, and leaves the cache as GetLatestVersion does |
| Components.GetInstalled | components/components.go:110-123 | succeeds exactly when both the provider and the parser succeed, returning the parsed cluster; otherwise the first error |
| Components.GetCluster | components/components.go:69-89 | an installed-data failure gives the empty cluster and the error, and leaves both caches as they were. An annotation error is dropped, and with at least one component the versions cache ends as one lookup leaves it. An identity failure gives the cluster with the identity it was parsed with, plus the error. Otherwise the cluster carries the identity, which is cached |
| ClusterIds.Get | data/cluster_id.go:50-85 | get-or-create: an existing identity is returned and nothing created. A 404, or a secret without the key, creates a secret holding a fresh identity and returns what was stored, or the create error. Any other lookup error is returned without a create |
| ClusterIds.NewClusterGetsFreshId | data/cluster_id.go:72-84 | a new cluster gets the generated identity, and it is persisted |
| ClusterIds.StoredIdIsStable | data/cluster_id.go:72-84 | a stored identity is returned whatever identity would have been generated, and nothing is created |
| ClusterIds.ClusterIdFromPersistentStorage.constructor | data/cluster_id.go:44-47 | a new cache is empty |
| ClusterIds.ClusterIdFromPersistentStorage.StoreInCache | data/cluster_id.go:87-99 | after storing, the cache returns the stored string |
| ClusterIds.ClusterIdFromPersistentStorage.Cached | data/cluster_id.go:94-99 | the cached identity, "" on a miss |
| ClusterIds.GetID | data/cluster_id.go:24-37 | a non-empty cached identity is returned without consulting the store; on a miss, Get's result. It only reads the cache |
| ClusterIds.GetIdTwiceUncached | data/cluster_id.go:25-37 | since GetID never writes the cache, a second call on a fresh cache consults the store again |
| ClusterIds.GetIdAfterStore | data/data_test.go:125-134 | once a non-empty identity is stored, GetID returns it and creates nothing |
| AvailableVersions.SparseEntries | data/available_versions.go:55-61 | one request entry per component, in order, with its name and train |
| AvailableVersions.RequestCarriesOnlyNamesAndTrains | data/available_versions.go:55-61 | clusters that agree on names and trains send the same request, whatever else differs |
| AvailableVersions.BuildRequest | data/available_versions.go:55-61 | the append loop builds exactly the sparse entries |
| AvailableVersions.AvailableVersionsFromAPI.constructor | data/available_versions.go:32-47 | the cache starts empty, and the configured URL is used exactly when the given one is "" |
| AvailableVersions.AvailableVersionsFromAPI.CopyOf | data/available_versions.go:50 | the receiver copy a value-receiver method works on: same cache, same URL |
| AvailableVersions.AvailableVersionsFromAPI.Cached | data/available_versions.go:86-91 | the cached slice, empty on a miss |
| AvailableVersions.AvailableVersionsFromAPI.Store | data/available_versions.go:93-98 | the cache is replaced wholesale |
| AvailableVersions.AvailableVersionsFromAPI.Refresh | data/available_versions.go:49-84 | a cluster getter error is returned and nothing is sent. Otherwise the sparse request is sent to the latest-versions URL and its outcome returned. The caller's cache is not changed |
| AvailableVersions.AvailableVersionsFromAPI.RefreshAndStore | data/available_versions.go:49-84 | the same request and result; on success the response replaces the cache, on failure the cache is unchanged |
| AvailableVersions.RefreshLeavesCacheEmpty | data/available_versions.go:50-83 | as written, a successful refresh of a new instance returns the response while its cache stays empty |
| AvailableVersions.RefreshAndStoreFillsCache | data/available_versions.go:80-83 | with store-on-success, a successful refresh fills the cache with the response |
| DataGlobals.PackageState.constructor | data/data.go:25-28 | both package variables start as zero values |
| DataGlobals.PackageState.CachedClusterId | data/data.go:113-119 | an error exactly when the cached identity is "", otherwise the identity |
| DataGlobals.PackageState.CachedVersions | data/data.go:121-127 | an error exactly when the cached slice is empty, otherwise the slice |
| DataGlobals.PackageState.GetID | data/data.go:129-143 | a cached identity is returned without calling Get. On a miss, Get's result, written to the cache on success; on failure the cache is unchanged |
| DataGlobals.PackageState.Store | data/data.go:108-111 | the versions slice is replaced wholesale |
| DataGlobals.PackageState.Refresh | data/data.go:88-106 | the versions URL is fetched; on success the response is stored and returned, on failure the error is returned and nothing stored |
| DataGlobals.PackageState.GetAvailableVersions | data/data.go:145-159 | a non-empty cache is returned without a fetch; otherwise Refresh's result, stored on success |
| DataGlobals.LookupsRepeatTheFirstAnswer | data/data.go:146-159 | a second GetAvailableVersions answers what the first answered and leaves the cache as the first left it |
| DataGlobals.GetIdTwice | data/data.go:130-143 | after a first GetID that produced a non-empty identity, the second returns the same identity and creates nothing; after a failed one, or one that produced "", it consults the store again |
| DataGlobals.GetAvailableVersionsTwice | data/data.go:146-159 | a non-empty first answer is cached, and the second call returns it without fetching |
| InstalledData.InstalledComponents | data/installed_data.go:30-37 | one component per controller, in order. The name is the controller's. Description and version come from the two chart annotations, "" when missing. Train, release date and update field are empty |
| InstalledData.Get | data/installed_data.go:28-44 | the result is the marshaller's answer for an identity-less cluster of the projected components; the listing error does not influence it |
| Jobs.RunJobs | jobs/jobs.go:86-95 | every job runs once, in order, and the log holds the errors of the failing jobs in job order |
| Jobs.FailuresAppend | jobs/jobs.go:88-94 | running two job lists one after the other logs the first's errors then the second's: a failure suppresses no later entry |
| Jobs.NothingLoggedIffAllPass | jobs/jobs.go:88-94 | nothing is logged exactly when every job succeeds |
| Jobs.EveryFailureLogged | jobs/jobs.go:89-93 | when every job fails, each job's error is logged, at its position |
| Jobs.ClustersUrl | jobs/jobs.go:99-110 | the report URL ends with the cluster's identity |
| Jobs.ClustersUrlDistinguishesClusters | jobs/jobs.go:99-110 | under one configuration, different identities give different report URLs |
| Jobs.SendVersions | jobs/jobs.go:97-130 | a GetCluster error is returned before any request; a marshal error is returned without a POST. Otherwise the cluster's JSON is posted to its URL and the transport outcome returned |
| Jobs.SendVersionsDo | jobs/jobs.go:33-42 | with version checks off nothing is sent and nil is returned; otherwise sendVersions' outcome |
| Jobs.ReportTargetsItsCluster | jobs/jobs.go:110-127 | an enabled report of a cluster that marshals posts exactly that JSON to that cluster's URL |
| Jobs.GetLatestVersionDataDo | jobs/jobs.go:55-63 | nil exactly when the refresh succeeded, otherwise the refresh's error; the data is discarded |

## Left out

- The goroutine, ticker and stop channel of `DoPeriodic` (jobs/jobs.go:66-84), and every `sync.RWMutex`. They are concurrency; the caches are single-threaded fields here.
- HTTP requests, TLS, JSON encoding and decoding, `uuid.NewV4`, in-cluster client creation and `os.Exit`. They are foreign calls, so they are parameters: answers, or functions from inputs to answers. A decode failure the source ignores shows as whatever the decoder parameter answers.
- Parameters are pure functions, so a provider whose answer depends on earlier calls is not captured. Each call gets the answer given for its inputs.
- The Kubernetes wrappers, the HTTP handlers, the process wiring, the configuration loader, the REST client and the test mocks are not part of this model. The configuration is the record `Config`, with the fields the core reads.
- `Version.Data`, a free-form JSON map, is dropped.
- Secret values are strings, not byte slices. A key holding an empty value counts as present, where the source would test for a nil slice.
- data/available_component_versions.go only delegates to `GetLatestVersion`, like `LatestReleasedComponent.Get` (`Components.LatestReleasedComponentGet`).
- Components.AddUpdateData: takes its lookup to be `LatestReleasedComponent`, the only implementation of the lookup interface in components/components.go; other implementations are covered only by the pure specification `Components.UpdatedComponents` over any lookup function.
- The copy of `InstalledDeisData.Get` in components/components.go:38-54 is the same code as data/installed_data.go:28-44 and is modelled once, as `InstalledData.Get`.
- `ClusterIDFromPersistentStorage.Get` in data/data.go:40-75 is the same get-or-create as data/cluster_id.go:50-85 and is modelled once, as `ClusterIds.Get`.
- jobs/jobs.go calls a later `GetCluster` and a later constructor, with Kubernetes clients as extra arguments. `Jobs.SendVersions` takes GetCluster's outcome as a parameter. `Jobs.GetLatestVersionDataDo` takes the cluster getter's outcome as a parameter.
- Components.NewestSemVer: models the comparison as written, as Go string order on segments. Its doc comment (components/components.go:155) promises the newest (largest) semantic version; that comparison is `Components.NewestSemVerNumeric` (see Findings).
- AvailableVersions.AvailableVersionsFromAPI.Refresh: its final `a.Store(ret.Data)` (data/available_versions.go:82) and the interface comment on Store (data/available_versions.go:20) mean the response to go into the cache, but with the value receiver it goes into a copy. The model follows the code; the store-on-success is `AvailableVersions.AvailableVersionsFromAPI.RefreshAndStore` (see Findings).

## Findings

| source | as written | input that shows it | evidently intended | confidence | as-written member | corrected member |
|---|---|---|---|---|---|---|
| components/components.go:160-162 | segments are compared with Go string `>` | `NewestSemVer("1.9.0", "1.10.0")` returns "1.9.0" | numeric segments compared by value, so "1.10.0" is newer | high (not executed) | Components.StringSegmentsMisorderReleases | Components.NewestSemVerNumeric |
| components/components.go:159-161 | `v2Slice[i]` is read for every segment of v1 | `NewestSemVer("1.0.0", "1.0")` reads `v2Slice[2]`, past the end, a run-time panic | a missing segment reads as 0, so "1.0.0" is returned | high (not executed) | Components.ShorterSecondIndexesPastEnd | Components.NewestSemVerNumeric |
| data/available_versions.go:50,82 | `Refresh` has a value receiver, so `a.Store` stores into a copy | a successful `Refresh` on a new instance, followed by `Cached()`, returns an empty slice | the response replaces the caller's cache | high (not executed) | AvailableVersions.RefreshLeavesCacheEmpty | AvailableVersions.AvailableVersionsFromAPI.RefreshAndStore |
