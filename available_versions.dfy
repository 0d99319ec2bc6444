/** The available-versions cache of the later revision
    (data/available_versions.go): a slice cache with Cached and Store, and
    Refresh, which sends the versions API a sparse request (name and train of
    every installed component) and returns the answer.

    Refresh is declared with a value receiver, so the `a.Store(ret.Data)` it
    ends with stores into a copy of the cache object, never into the caller's
    cache. Refresh below models exactly that (it copies the object and stores
    into the copy); RefreshAndStore is the store-on-success the code evidently
    intends.

    The cluster getter is represented by its outcome `cluster`; marshalling,
    building the request, sending it and decoding the answer are the parameter
    `exchange`, from the URL and the request body to the decoded component
    versions (a decode failure is ignored by the source, so it shows as
    whatever the decoder produced). */
module AvailableVersions {
  import opened Types

  // The sparse request body (data/models.go).
  datatype SparseComponentInfo = SparseComponentInfo(name: string)
  datatype SparseVersionInfo = SparseVersionInfo(train: string)
  datatype SparseComponentAndTrainInfo = SparseComponentAndTrainInfo(component: SparseComponentInfo, version: SparseVersionInfo)
  datatype SparseRequest = SparseRequest(data: seq<SparseComponentAndTrainInfo>)

  /** A POST made to the versions API. */
  datatype Sent = Sent(url: string, body: SparseRequest)

  /** What Refresh returned, and the request it sent, if any. */
  datatype RefreshOutcome = RefreshOutcome(versions: Result<seq<ComponentVersion>>, sent: Option<Sent>)

  type Exchange = (string, SparseRequest) -> Result<seq<ComponentVersion>>

  function LatestUrl(baseVersionsURL: string, cfg: Config): string {
    baseVersionsURL + "/" + cfg.apiVersion + "/versions/latest"
  }

  function Sparse(c: ComponentVersion): SparseComponentAndTrainInfo {
    SparseComponentAndTrainInfo(SparseComponentInfo(c.component.name), SparseVersionInfo(c.version.train))
  }

  /** The request body for a cluster: one entry per component, in order,
      carrying the component's name and train. */
  function SparseEntries(cluster: Cluster): (entries: seq<SparseComponentAndTrainInfo>)
    ensures |entries| == |cluster.components|
    ensures forall i :: 0 <= i < |entries| ==>
              entries[i].component.name == cluster.components[i].component.name &&
              entries[i].version.train == cluster.components[i].version.train
  {
    seq(|cluster.components|, i requires 0 <= i < |cluster.components| => Sparse(cluster.components[i]))
  }

  predicate SameNamesAndTrains(a: seq<ComponentVersion>, b: seq<ComponentVersion>) {
    |a| == |b| &&
    forall i :: 0 <= i < |a| ==>
      a[i].component.name == b[i].component.name && a[i].version.train == b[i].version.train
  }

  /** The request carries nothing but names and trains: clusters that agree
      on those, whatever their versions, descriptions or identity, send the
      same request. */
  lemma {:induction false} RequestCarriesOnlyNamesAndTrains(c1: Cluster, c2: Cluster)
    requires SameNamesAndTrains(c1.components, c2.components)
    ensures SparseEntries(c1) == SparseEntries(c2)
  {
    var e1, e2 := SparseEntries(c1), SparseEntries(c2);
    assert |e1| == |e2|;
    forall i | 0 <= i < |e1|
      ensures e1[i] == e2[i]
    {
      assert e1[i] == Sparse(c1.components[i]);
      assert e2[i] == Sparse(c2.components[i]);
    }
  }

  class AvailableVersionsFromAPI {
    var cache: seq<ComponentVersion>
    const baseVersionsURL: string

    /** NewAvailableVersionsFromAPI: an empty cache, and the configured
        versions URL exactly when the given one is "". */
    constructor (baseVersionsURL: string, cfg: Config)
      ensures Cached() == []
      ensures this.baseVersionsURL == if baseVersionsURL == "" then cfg.versionsApiUrl else baseVersionsURL
    {
      this.baseVersionsURL := if baseVersionsURL == "" then cfg.versionsApiUrl else baseVersionsURL;
      cache := [];
    }

    /** The receiver copy Go makes for a value-receiver method. */
    constructor CopyOf(a: AvailableVersionsFromAPI)
      ensures cache == a.cache && baseVersionsURL == a.baseVersionsURL
    {
      cache := a.cache;
      baseVersionsURL := a.baseVersionsURL;
    }

    /** The cached slice; empty on a miss. */
    function Cached(): (c: seq<ComponentVersion>)
      reads this
      ensures c == cache
    {
      cache
    }

    /** Replaces the cached slice wholesale. */
    method Store(c: seq<ComponentVersion>)
      modifies this
      ensures Cached() == c
    {
      cache := c;
    }

    /** Refresh as written: a failing cluster getter returns its error and
        sends nothing; otherwise the sparse request goes to the versions API
        and its outcome is returned. The response is stored only into a copy
        of this object, so this object's cache never changes (there is no
        modifies clause). */
    method Refresh(cfg: Config, cluster: Result<Cluster>, exchange: Exchange) returns (r: RefreshOutcome)
      ensures cluster.Err? ==> r == RefreshOutcome(Err(cluster.error), None)
      ensures cluster.Ok? ==> r.sent == Some(Sent(LatestUrl(baseVersionsURL, cfg), SparseRequest(SparseEntries(cluster.value))))
      ensures cluster.Ok? ==> r.versions == exchange(LatestUrl(baseVersionsURL, cfg), SparseRequest(SparseEntries(cluster.value)))
    {
      if cluster.Err? {
        return RefreshOutcome(Err(cluster.error), None);
      }
      var reqBody := BuildRequest(cluster.value);
      var url := LatestUrl(baseVersionsURL, cfg);
      var resp := exchange(url, reqBody);
      if resp.Err? {
        return RefreshOutcome(Err(resp.error), Some(Sent(url, reqBody)));
      }
      var receiver := new AvailableVersionsFromAPI.CopyOf(this);
      receiver.Store(resp.value);
      r := RefreshOutcome(Ok(resp.value), Some(Sent(url, reqBody)));
    }

    /** Refresh as evidently intended: the same request and result, and on
        success the response replaces this object's cache; on any failure the
        cache is left as it was. */
    method RefreshAndStore(cfg: Config, cluster: Result<Cluster>, exchange: Exchange) returns (r: RefreshOutcome)
      modifies this
      ensures cluster.Err? ==> r == RefreshOutcome(Err(cluster.error), None)
      ensures cluster.Ok? ==> r.sent == Some(Sent(LatestUrl(baseVersionsURL, cfg), SparseRequest(SparseEntries(cluster.value))))
      ensures cluster.Ok? ==> r.versions == exchange(LatestUrl(baseVersionsURL, cfg), SparseRequest(SparseEntries(cluster.value)))
      ensures Cached() == if r.versions.Ok? then r.versions.value else old(Cached())
    {
      if cluster.Err? {
        return RefreshOutcome(Err(cluster.error), None);
      }
      var reqBody := BuildRequest(cluster.value);
      var url := LatestUrl(baseVersionsURL, cfg);
      var resp := exchange(url, reqBody);
      if resp.Err? {
        return RefreshOutcome(Err(resp.error), Some(Sent(url, reqBody)));
      }
      Store(resp.value);
      r := RefreshOutcome(Ok(resp.value), Some(Sent(url, reqBody)));
    }
  }

  /** The append loop of Refresh that builds the request body. */
  method BuildRequest(cluster: Cluster) returns (reqBody: SparseRequest)
    ensures reqBody == SparseRequest(SparseEntries(cluster))
  {
    var data: seq<SparseComponentAndTrainInfo> := [];
    var i := 0;
    while i < |cluster.components|
      invariant 0 <= i <= |cluster.components|
      invariant data == SparseEntries(cluster)[..i]
    {
      data := data + [Sparse(cluster.components[i])];
      i := i + 1;
    }
    reqBody := SparseRequest(data);
  }

  /** A successful Refresh on a new instance does not fill its cache: the
      response is returned, yet Cached() afterwards is still empty. */
  method RefreshLeavesCacheEmpty(cfg: Config, cluster: Cluster, exchange: Exchange)
    returns (refreshed: RefreshOutcome, cachedAfter: seq<ComponentVersion>)
    ensures refreshed.versions == exchange(LatestUrl(cfg.versionsApiUrl, cfg), SparseRequest(SparseEntries(cluster)))
    ensures cachedAfter == []
  {
    var a := new AvailableVersionsFromAPI("", cfg);
    refreshed := a.Refresh(cfg, Ok(cluster), exchange);
    cachedAfter := a.Cached();
  }

  /** With the intended store-on-success, a successful refresh on a new
      instance is what Cached() returns afterwards; a failed one leaves it empty. */
  method RefreshAndStoreFillsCache(cfg: Config, cluster: Cluster, exchange: Exchange)
    returns (refreshed: RefreshOutcome, cachedAfter: seq<ComponentVersion>)
    ensures refreshed.versions == exchange(LatestUrl(cfg.versionsApiUrl, cfg), SparseRequest(SparseEntries(cluster)))
    ensures cachedAfter == if refreshed.versions.Ok? then refreshed.versions.value else []
  {
    var a := new AvailableVersionsFromAPI("", cfg);
    refreshed := a.RefreshAndStore(cfg, Ok(cluster), exchange);
    cachedAfter := a.Cached();
  }
}
