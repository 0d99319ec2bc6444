/** The value types shared by every part of the workflow manager: the cluster
    snapshot and its components (types/types.go), the error values the core
    produces or passes through, and the process configuration it reads. */
module Types {

  datatype Option<T> = None | Some(value: T)

  /** The errors the core creates itself, plus the ones it only forwards from
      the collaborators it calls (Kubernetes, HTTP, JSON). */
  datatype Error =
    | External(reason: string)                     // any error from a collaborator outside the model
    | StatusError(code: int)                       // a Kubernetes API status error carrying its HTTP code
    | LatestVersionNotAvailable(component: string) // "latest version not available for <component>"
    | ClusterIdNotCached                           // "cluster ID not cached in memory"
    | NoAvailableVersionsCached                    // "no available versions data cached"

  /** Go's `(T, error)` pair: Err carries the non-nil error, Ok the value. */
  datatype Result<T> = Ok(value: T) | Err(error: Error)

  /** A bare Go `error`: Pass is nil. */
  datatype Outcome = Pass | Fail(error: Error)

  datatype Component = Component(name: string, description: string)

  /** A released version. The free-form `Data` map of the source is not modelled. */
  datatype Version = Version(train: string, version: string, released: string)

  /** One installed component; `updateAvailable` is "" unless a newer version was found. */
  datatype ComponentVersion = ComponentVersion(component: Component, version: Version, updateAvailable: string)

  datatype Cluster = Cluster(id: string, components: seq<ComponentVersion>)

  /** `types.Cluster{}`: no identity, no components. */
  const EmptyCluster: Cluster := Cluster("", [])

  /** `types.Version{}`. */
  const ZeroVersion: Version := Version("", "", "")

  newtype byte = x: int | 0 <= x < 256

  /** A JSON document as produced or consumed by the (unmodelled) encoder and decoder. */
  type Bytes = seq<byte>

  /** The configuration fields the core reads (config.Spec). */
  datatype Config = Config(versionsApiUrl: string, apiVersion: string, checkVersions: bool)
}
