/** The periodic jobs (jobs/jobs.go): the job runner, the job that reports
    the cluster's versions to the versions API, and the job that refreshes
    the available versions.

    A job's Do is a parameter of the runner. Collecting the cluster
    (GetCluster), marshalling it and POSTing it are represented by their
    outcomes or by parameters, as in the other modules; the log the runner
    writes is its result. */
module Jobs {
  import opened Types
  import AvailableVersions

  // ------------------------------------------------------------------
  // runJobs
  // ------------------------------------------------------------------

  /** The errors of the failing jobs, in job order. */
  function Failures<J>(jobs: seq<J>, do: J -> Outcome): seq<Error>
    decreases |jobs|
  {
    if jobs == [] then []
    else
      var last := do(jobs[|jobs| - 1]);
      Failures(jobs[..|jobs| - 1], do) + (if last.Fail? then [last.error] else [])
  }

  /** runJobs: calls Do on every job once, in slice order; an error is
      logged and the next job still runs. `ran` is the order of the calls and
      `logged` the errors written to the log; nothing else reaches the caller. */
  method RunJobs<J>(jobs: seq<J>, do: J -> Outcome) returns (ran: seq<J>, logged: seq<Error>)
    ensures ran == jobs
    ensures logged == Failures(jobs, do)
  {
    ran, logged := [], [];
    var i := 0;
    while i < |jobs|
      invariant 0 <= i <= |jobs|
      invariant ran == jobs[..i]
      invariant logged == Failures(jobs[..i], do)
    {
      assert jobs[..i + 1][..i] == jobs[..i];
      var err := do(jobs[i]);
      if err.Fail? {
        logged := logged + [err.error];
      }
      ran := ran + [jobs[i]];
      i := i + 1;
    }
    assert jobs[..i] == jobs;
  }

  /** Running two lists of jobs one after the other logs the first list's
      errors followed by the second's: a failure never suppresses a later
      job's entry. */
  lemma {:induction false} FailuresAppend<J>(a: seq<J>, b: seq<J>, do: J -> Outcome)
    ensures Failures(a + b, do) == Failures(a, do) + Failures(b, do)
    decreases |b|
  {
    if b != [] {
      var b' := b[..|b| - 1];
      assert (a + b)[..|a + b| - 1] == a + b';
      assert (a + b)[|a + b| - 1] == b[|b| - 1];
      FailuresAppend(a, b', do);
      var last := do(b[|b| - 1]);
      var entry := if last.Fail? then [last.error] else [];
      calc {
        Failures(a + b, do);
        Failures(a + b', do) + entry;
        Failures(a, do) + Failures(b', do) + entry;
        Failures(a, do) + (Failures(b', do) + entry);
        Failures(a, do) + Failures(b, do);
      }
    } else {
      assert a + b == a;
    }
  }

  /** Nothing is logged exactly when every job succeeds. */
  lemma {:induction false} NothingLoggedIffAllPass<J>(jobs: seq<J>, do: J -> Outcome)
    ensures Failures(jobs, do) == [] <==> forall i :: 0 <= i < |jobs| ==> do(jobs[i]).Pass?
    decreases |jobs|
  {
    if jobs != [] {
      var init := jobs[..|jobs| - 1];
      NothingLoggedIffAllPass(init, do);
      forall i | 0 <= i < |init|
        ensures init[i] == jobs[i]
      {
      }
    }
  }

  /** One log entry per failing job: a job list whose every job fails logs
      as many errors as there are jobs. */
  lemma {:induction false} EveryFailureLogged<J>(jobs: seq<J>, do: J -> Outcome)
    requires forall i :: 0 <= i < |jobs| ==> do(jobs[i]).Fail?
    ensures |Failures(jobs, do)| == |jobs|
    ensures forall i :: 0 <= i < |jobs| ==> Failures(jobs, do)[i] == do(jobs[i]).error
    decreases |jobs|
  {
    if jobs != [] {
      var init := jobs[..|jobs| - 1];
      forall i | 0 <= i < |init|
        ensures init[i] == jobs[i]
      {
      }
      EveryFailureLogged(init, do);
    }
  }

  // ------------------------------------------------------------------
  // SendVersions
  // ------------------------------------------------------------------

  /** The POST sendVersions makes: the URL and the JSON body. */
  datatype Post = Post(url: string, body: Bytes)

  /** What a run of sendVersions returned, and the POST it made, if any. */
  datatype Delivery = Delivery(err: Outcome, posted: Option<Post>)

  /** The cluster's resource at the versions API. */
  function ClustersUrl(cfg: Config, id: string): (url: string)
    ensures |url| >= |id| && url[|url| - |id|..] == id
  {
    var route := "/" + cfg.apiVersion + "/clusters/";
    var url := cfg.versionsApiUrl + route + id;
    assert url == (cfg.versionsApiUrl + route) + id;
    url
  }

  /** Under one configuration, different clusters are posted to different URLs. */
  lemma ClustersUrlDistinguishesClusters(cfg: Config, id1: string, id2: string)
    requires ClustersUrl(cfg, id1) == ClustersUrl(cfg, id2)
    ensures id1 == id2
  {
    var prefix := cfg.versionsApiUrl + "/" + cfg.apiVersion + "/clusters/";
    assert ClustersUrl(cfg, id1) == prefix + id1;
    assert ClustersUrl(cfg, id2) == prefix + id2;
    assert id1 == (prefix + id1)[|prefix|..];
    assert id2 == (prefix + id2)[|prefix|..];
  }

  /** sendVersions. `gotCluster` is what GetCluster returned; `marshal` is
      the JSON encoder and `post` the POST over TLS (building the request and
      sending it). A GetCluster error is returned before any request is
      built, even when a cluster came with it; a marshalling error is
      returned without a POST; otherwise the cluster's JSON is posted to its
      resource and the transport's outcome returned. */
  function SendVersions(cfg: Config, gotCluster: Result<Cluster>, marshal: Cluster -> Result<Bytes>,
                        post: (string, Bytes) -> Outcome): (d: Delivery)
    ensures gotCluster.Err? ==> d == Delivery(Fail(gotCluster.error), None)
    ensures gotCluster.Ok? && marshal(gotCluster.value).Err? ==>
              d == Delivery(Fail(marshal(gotCluster.value).error), None)
    ensures d.posted.Some? <==> gotCluster.Ok? && marshal(gotCluster.value).Ok?
    ensures d.posted.Some? ==>
              && d.posted.value == Post(ClustersUrl(cfg, gotCluster.value.id), marshal(gotCluster.value).value)
              && d.err == post(d.posted.value.url, d.posted.value.body)
  {
    if gotCluster.Err? then Delivery(Fail(gotCluster.error), None)
    else
      var url := ClustersUrl(cfg, gotCluster.value.id);
      var js := marshal(gotCluster.value);
      if js.Err? then Delivery(Fail(js.error), None)
      else Delivery(post(url, js.value), Some(Post(url, js.value)))
  }

  /** SendVersions.Do: with version checks switched off nothing is sent and
      nil is returned; otherwise sendVersions' outcome. */
  function SendVersionsDo(cfg: Config, gotCluster: Result<Cluster>, marshal: Cluster -> Result<Bytes>,
                          post: (string, Bytes) -> Outcome): (d: Delivery)
    ensures !cfg.checkVersions ==> d == Delivery(Pass, None)
    ensures cfg.checkVersions ==> d == SendVersions(cfg, gotCluster, marshal, post)
  {
    if cfg.checkVersions then SendVersions(cfg, gotCluster, marshal, post) else Delivery(Pass, None)
  }

  /** A successful report goes to the URL of the cluster it carries, and
      carries exactly the marshalled cluster. */
  lemma ReportTargetsItsCluster(cfg: Config, c: Cluster, marshal: Cluster -> Result<Bytes>,
                                post: (string, Bytes) -> Outcome)
    requires cfg.checkVersions && marshal(c).Ok?
    ensures SendVersionsDo(cfg, Ok(c), marshal, post).posted == Some(Post(ClustersUrl(cfg, c.id), marshal(c).value))
    ensures SendVersionsDo(cfg, Ok(c), marshal, post).err == post(ClustersUrl(cfg, c.id), marshal(c).value)
  {
  }

  // ------------------------------------------------------------------
  // GetLatestVersionData
  // ------------------------------------------------------------------

  /** GetLatestVersionData.Do: a new available-versions source on the
      configured URL is refreshed and the data thrown away. Nil exactly when
      the refresh succeeded, otherwise the refresh's error (a failing cluster
      getter's error, or the exchange's). */
  method GetLatestVersionDataDo(cfg: Config, cluster: Result<Cluster>, exchange: AvailableVersions.Exchange)
    returns (err: Outcome)
    ensures cluster.Err? ==> err == Fail(cluster.error)
    ensures cluster.Ok? ==>
              var resp := exchange(AvailableVersions.LatestUrl(cfg.versionsApiUrl, cfg),
                                   AvailableVersions.SparseRequest(AvailableVersions.SparseEntries(cluster.value)));
              (err.Pass? <==> resp.Ok?) && (resp.Err? ==> err == Fail(resp.error))
  {
    var dataSource := new AvailableVersions.AvailableVersionsFromAPI("", cfg);
    var r := dataSource.Refresh(cfg, cluster, exchange);
    if r.versions.Err? {
      return Fail(r.versions.error);
    }
    return Pass;
  }
}
