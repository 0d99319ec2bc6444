/** The earlier revision of the data package (data/data.go), where both caches
    are package-level variables: the cluster identity `clusterID` and the
    available-versions slice `availableVersions`. Here GetID writes the
    identity back to the cache on a miss, and the versions Refresh stores what
    it fetched. The package state is one object of class PackageState.

    The identity get-or-create (ClusterIDFromPersistentStorage.Get, data.go
    lines 40-75) is the same code as in data/cluster_id.go and is ClusterIds.Get.
    The versions API is the parameter `fetch`: the outcome of a GET of a URL,
    after decoding (a decode failure is ignored by the source, so it shows as
    whatever the decoder produced). */
module DataGlobals {
  import opened Types
  import ClusterIds

  /** The URL the versions Refresh of this revision GETs. */
  function VersionsUrl(cfg: Config): string {
    cfg.versionsApiUrl + "/" + cfg.apiVersion + "/versions"
  }

  /** What GetAvailableVersions answers for a given cache: the cache when it
      is non-empty, otherwise the fetch of the versions URL. */
  function AvailableFrom(cache: seq<ComponentVersion>, cfg: Config,
                         fetch: string -> Result<seq<ComponentVersion>>): Result<seq<ComponentVersion>>
  {
    if |cache| > 0 then Ok(cache) else fetch(VersionsUrl(cfg))
  }

  /** The cache after one GetAvailableVersions: an empty cache takes a
      successful fetch's answer; anything else stays. */
  function CacheAfterLookup(cache: seq<ComponentVersion>, cfg: Config,
                            fetch: string -> Result<seq<ComponentVersion>>): seq<ComponentVersion>
  {
    if |cache| == 0 && fetch(VersionsUrl(cfg)).Ok? then fetch(VersionsUrl(cfg)).value else cache
  }

  /** Repeated lookups through the cache: every later call answers what the
      first answered, and leaves the cache as the first left it. (An empty
      successful answer is stored as an empty cache, so the next call fetches
      again and gets the same answer.) */
  lemma LookupsRepeatTheFirstAnswer(cache: seq<ComponentVersion>, cfg: Config,
                                    fetch: string -> Result<seq<ComponentVersion>>)
    ensures AvailableFrom(CacheAfterLookup(cache, cfg, fetch), cfg, fetch) == AvailableFrom(cache, cfg, fetch)
    ensures CacheAfterLookup(CacheAfterLookup(cache, cfg, fetch), cfg, fetch) == CacheAfterLookup(cache, cfg, fetch)
  {
    if |cache| == 0 && fetch(VersionsUrl(cfg)).Ok? {
      var v := fetch(VersionsUrl(cfg)).value;
      if |v| == 0 {
        assert v == [];
      }
    }
  }

  class PackageState {
    var clusterID: string
    var availableVersions: seq<ComponentVersion>

    /** The package variables start as Go zero values. */
    constructor ()
      ensures clusterID == "" && availableVersions == []
    {
      clusterID := "";
      availableVersions := [];
    }

    /** getClusterID: the cached identity, an error exactly when it is "". */
    function CachedClusterId(): (r: Result<string>)
      reads this
      ensures r.Err? <==> clusterID == ""
      ensures r.Ok? ==> r.value == clusterID
      ensures r.Err? ==> r.error == ClusterIdNotCached
    {
      if clusterID == "" then Err(ClusterIdNotCached) else Ok(clusterID)
    }

    /** getAvailableVersions: the cached slice, an error exactly when it is empty. */
    function CachedVersions(): (r: Result<seq<ComponentVersion>>)
      reads this
      ensures r.Err? <==> |availableVersions| == 0
      ensures r.Ok? ==> r.value == availableVersions
      ensures r.Err? ==> r.error == NoAvailableVersionsCached
    {
      if |availableVersions| == 0 then Err(NoAvailableVersionsCached) else Ok(availableVersions)
    }

    /** GetID: a cached identity is returned without consulting the secret
        store; on a miss the result of Get is returned and, on success, written
        to the cache. An error leaves the cache as it was. */
    method GetID(store: ClusterIds.SecretStore, newId: string) returns (r: ClusterIds.IdOutcome)
      modifies this
      ensures old(clusterID) != "" ==> r == ClusterIds.IdOutcome(Ok(old(clusterID)), None)
      ensures old(clusterID) == "" ==> r == ClusterIds.Get(store, newId)
      ensures clusterID == if old(clusterID) == "" && r.id.Ok? then r.id.value else old(clusterID)
      ensures availableVersions == old(availableVersions)
    {
      var data := CachedClusterId();
      if data.Err? {
        r := ClusterIds.Get(store, newId);
        if r.id.Err? {
          return;
        }
        clusterID := r.id.value;
        return;
      }
      r := ClusterIds.IdOutcome(Ok(data.value), None);
    }

    /** AvailableVersionsFromAPI.Store: replaces the cached slice wholesale. */
    method Store(c: seq<ComponentVersion>)
      modifies this
      ensures availableVersions == c
      ensures clusterID == old(clusterID)
    {
      availableVersions := c;
    }

    /** AvailableVersionsFromAPI.Refresh: GET the versions URL; on success store
        and return what was fetched, on failure return the error and store nothing. */
    method Refresh(cfg: Config, fetch: string -> Result<seq<ComponentVersion>>)
      returns (r: Result<seq<ComponentVersion>>)
      modifies this
      ensures r == fetch(VersionsUrl(cfg))
      ensures availableVersions == if r.Ok? then r.value else old(availableVersions)
      ensures clusterID == old(clusterID)
    {
      var url := VersionsUrl(cfg);
      var resp := fetch(url);
      if resp.Err? {
        return Err(resp.error);
      }
      Store(resp.value);
      r := Ok(resp.value);
    }

    /** GetAvailableVersions: a non-empty cache is returned without a fetch;
        otherwise Refresh's result (which Refresh has stored on success). */
    method GetAvailableVersions(cfg: Config, fetch: string -> Result<seq<ComponentVersion>>)
      returns (r: Result<seq<ComponentVersion>>)
      modifies this
      ensures |old(availableVersions)| > 0 ==> r == Ok(old(availableVersions)) && availableVersions == old(availableVersions)
      ensures |old(availableVersions)| == 0 ==> r == fetch(VersionsUrl(cfg))
      ensures |old(availableVersions)| == 0 ==> availableVersions == if r.Ok? then r.value else old(availableVersions)
      ensures r == AvailableFrom(old(availableVersions), cfg, fetch)
      ensures availableVersions == CacheAfterLookup(old(availableVersions), cfg, fetch)
      ensures clusterID == old(clusterID)
    {
      var data := CachedVersions();
      if data.Err? {
        r := Refresh(cfg, fetch);
        if r.Err? {
          return Err(r.error);
        }
        return Ok(r.value);
      }
      r := Ok(data.value);
    }
  }

  /** Two GetID calls from process start, the secret store answering
      differently each time: once the first call has produced a non-empty
      identity, the second returns that same identity and creates nothing.
      After a failed first call, or one that produced "", the cache is still
      empty and the second call consults the store again. */
  method GetIdTwice(store1: ClusterIds.SecretStore, newId1: string, store2: ClusterIds.SecretStore, newId2: string)
    returns (first: ClusterIds.IdOutcome, second: ClusterIds.IdOutcome)
    ensures first == ClusterIds.Get(store1, newId1)
    ensures first.id.Ok? && first.id.value != "" ==> second == ClusterIds.IdOutcome(first.id, None)
    ensures first.id.Err? ==> second == ClusterIds.Get(store2, newId2)
    ensures first.id == Ok("") ==> second == ClusterIds.Get(store2, newId2)
  {
    var pkg := new PackageState();
    first := pkg.GetID(store1, newId1);
    second := pkg.GetID(store2, newId2);
  }

  /** Two GetAvailableVersions calls from process start, the API answering
      differently each time: a non-empty first answer is cached and the second
      call returns it without fetching. */
  method GetAvailableVersionsTwice(cfg: Config, fetch1: string -> Result<seq<ComponentVersion>>,
                                   fetch2: string -> Result<seq<ComponentVersion>>)
    returns (first: Result<seq<ComponentVersion>>, second: Result<seq<ComponentVersion>>)
    ensures first == fetch1(VersionsUrl(cfg))
    ensures first.Ok? && first.value != [] ==> second == first
    ensures !(first.Ok? && first.value != []) ==> second == fetch2(VersionsUrl(cfg))
  {
    var pkg := new PackageState();
    first := pkg.GetAvailableVersions(cfg, fetch1);
    second := pkg.GetAvailableVersions(cfg, fetch2);
  }
}
