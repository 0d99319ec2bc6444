/** The installed-data provider (data/installed_data.go): every Deis
    replication controller becomes one component of a cluster snapshot, named
    after the controller, with its description and version taken from two
    Helm chart annotations. The snapshot is then marshalled to JSON; the
    marshaller is the parameter `marshal`. */
module InstalledData {
  import opened Types

  const DescriptionAnnotation: string := "chart.helm.sh/description"
  const VersionAnnotation: string := "chart.helm.sh/version"

  /** The parts of a replication controller the projection reads. */
  datatype ReplicationController = ReplicationController(name: string, annotations: map<string, string>)

  /** A Go map lookup: a missing annotation reads as "". */
  function Annotation(rc: ReplicationController, key: string): string {
    if key in rc.annotations then rc.annotations[key] else ""
  }

  function FromRc(rc: ReplicationController): ComponentVersion {
    ComponentVersion(
      Component(rc.name, Annotation(rc, DescriptionAnnotation)),
      Version("", Annotation(rc, VersionAnnotation), ""),
      "")
  }

  /** One component per controller, in controller order: the controller's
      name, the two annotations (or ""), and an empty train, release date and
      update field. */
  function InstalledComponents(items: seq<ReplicationController>): (comps: seq<ComponentVersion>)
    ensures |comps| == |items|
    ensures forall i :: 0 <= i < |comps| ==>
              && comps[i].component.name == items[i].name
              && comps[i].component.description == (if DescriptionAnnotation in items[i].annotations
                                                    then items[i].annotations[DescriptionAnnotation] else "")
              && comps[i].version.version == (if VersionAnnotation in items[i].annotations
                                              then items[i].annotations[VersionAnnotation] else "")
              && comps[i].version.train == ""
              && comps[i].version.released == ""
              && comps[i].updateAvailable == ""
  {
    seq(|items|, i requires 0 <= i < |items| => FromRc(items[i]))
  }

  /** InstalledDeisData.Get. `rcItems` and `listErr` are what listing the
      controllers returned; the listing error is overwritten before it is
      checked, so the result does not depend on it: the JSON of a snapshot
      without identity whose components are the projection of the items, or
      the marshaller's error. */
  method Get(rcItems: seq<ReplicationController>, listErr: Outcome, marshal: Cluster -> Result<Bytes>)
    returns (r: Result<Bytes>)
    ensures r == marshal(Cluster("", InstalledComponents(rcItems)))
  {
    var cluster := EmptyCluster;
    var i := 0;
    while i < |rcItems|
      invariant 0 <= i <= |rcItems|
      invariant cluster == Cluster("", InstalledComponents(rcItems[..i]))
    {
      assert rcItems[..i + 1] == rcItems[..i] + [rcItems[i]];
      cluster := cluster.(components := cluster.components + [FromRc(rcItems[i])]);
      i := i + 1;
    }
    assert rcItems[..i] == rcItems;
    var js := marshal(cluster);
    if js.Err? {
      return Err(js.error);
    }
    r := Ok(js.value);
  }
}
