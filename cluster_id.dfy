/** The cluster identity (data/cluster_id.go): a one-string in-memory cache,
    the get-or-create lookup against the Kubernetes secret that persists the
    identity, and GetID, which consults the cache before the secret store.

    The secret store is represented by its answers: what reading the
    workflow-manager secret returns, and what creating a secret returns. The
    random UUID the source generates is the parameter `newId`. */
module ClusterIds {
  import opened Types

  const WfmSecretName: string := "deis-workflow-manager"
  const ClusterIdSecretKey: string := "cluster-id"

  /** A Kubernetes secret; a key absent from `data` is a nil byte slice in the source. */
  datatype Secret = Secret(name: string, data: map<string, string>)

  /** The secret store as seen by one Get: the answer to reading the
      workflow-manager secret, and the answer to creating a given secret. */
  datatype SecretStore = SecretStore(lookup: Result<Secret>, create: Secret -> Result<Secret>)

  /** What Get produced: the identity (or the error), and the secret it asked
      the store to create, if it asked at all. */
  datatype IdOutcome = IdOutcome(id: Result<string>, created: Option<Secret>)

  /** The secret Get creates for a new cluster: only the identity key, holding `newId`. */
  function NewSecret(newId: string): Secret {
    Secret(WfmSecretName, map[ClusterIdSecretKey := newId])
  }

  /** `string(secret.Data[clusterIDSecretKey])`: "" when the key is absent. */
  function IdIn(s: Secret): string {
    if ClusterIdSecretKey in s.data then s.data[ClusterIdSecretKey] else ""
  }

  /** A lookup the source treats as "no identity stored yet": a 404, or a secret without the key. */
  predicate Absent(lookup: Result<Secret>) {
    match lookup
    case Ok(s) => ClusterIdSecretKey !in s.data
    case Err(e) => e == StatusError(404)
  }

  /** Get-or-create. An existing identity is returned and nothing is created;
      a 404 or a secret without the key leads to creating a secret holding
      `newId`, whose stored value is returned; any other lookup error is
      returned without a create. */
  function Get(store: SecretStore, newId: string): (r: IdOutcome)
    ensures store.lookup.Ok? && !Absent(store.lookup) ==>
              r == IdOutcome(Ok(store.lookup.value.data[ClusterIdSecretKey]), None)
    ensures store.lookup.Err? && !Absent(store.lookup) ==>
              r == IdOutcome(Err(store.lookup.error), None)
    ensures Absent(store.lookup) ==> r.created == Some(NewSecret(newId))
    ensures Absent(store.lookup) && store.create(NewSecret(newId)).Err? ==>
              r.id == Err(store.create(NewSecret(newId)).error)
    ensures Absent(store.lookup) && store.create(NewSecret(newId)).Ok? ==>
              r.id == Ok(IdIn(store.create(NewSecret(newId)).value))
  {
    var secret :=
      match store.lookup
      case Ok(s) => Ok(s)
      // on a 404 the client hands back a secret without data
      case Err(e) => if e == StatusError(404) then Ok(Secret("", map[])) else Err(e);
    if secret.Err? then
      IdOutcome(Err(secret.error), None)
    else if ClusterIdSecretKey !in secret.value.data then
      var created := store.create(NewSecret(newId));
      if created.Err? then IdOutcome(Err(created.error), Some(NewSecret(newId)))
      else IdOutcome(Ok(IdIn(created.value)), Some(NewSecret(newId)))
    else
      IdOutcome(Ok(secret.value.data[ClusterIdSecretKey]), None)
  }

  /** A store that echoes back what it is asked to create, as the Kubernetes API does. */
  predicate Echoes(store: SecretStore, s: Secret) {
    store.create(s) == Ok(s)
  }

  /** A new cluster gets the freshly generated identity, and it is persisted. */
  lemma NewClusterGetsFreshId(store: SecretStore, newId: string)
    requires Absent(store.lookup) && Echoes(store, NewSecret(newId))
    ensures Get(store, newId) == IdOutcome(Ok(newId), Some(NewSecret(newId)))
  {
    assert IdIn(NewSecret(newId)) == newId;
  }

  /** An identity that is already stored is returned whatever identity would
      have been generated, and whatever creating a secret would do. */
  lemma StoredIdIsStable(lookup: Result<Secret>, create1: Secret -> Result<Secret>, create2: Secret -> Result<Secret>,
                         newId1: string, newId2: string)
    requires !Absent(lookup) && lookup.Ok?
    ensures Get(SecretStore(lookup, create1), newId1) == Get(SecretStore(lookup, create2), newId2)
    ensures Get(SecretStore(lookup, create1), newId1).created == None
  {
  }

  /** The in-memory cache of the identity (clusterIDFromPersistentStorage). */
  class ClusterIdFromPersistentStorage {
    var cache: string

    /** NewClusterIDFromPersistentStorage: the cache starts empty. */
    constructor ()
      ensures Cached() == ""
    {
      cache := "";
    }

    /** The cached identity; "" on a miss. */
    function Cached(): (cid: string)
      reads this
      ensures cid == cache
    {
      cache
    }

    method StoreInCache(cid: string)
      modifies this
      ensures Cached() == cid
    {
      cache := cid;
    }
  }

  /** GetID: a non-empty cached identity is returned without consulting the
      secret store (so nothing is created); on a miss the result is Get's.
      It only reads the cache: it never stores what Get returned. */
  function GetID(id: ClusterIdFromPersistentStorage, store: SecretStore, newId: string): (r: IdOutcome)
    reads id
    ensures id.Cached() != "" ==> r == IdOutcome(Ok(id.Cached()), None)
    ensures id.Cached() == "" ==> r == Get(store, newId)
  {
    var data := id.Cached();
    if data == "" then Get(store, newId) else IdOutcome(Ok(data), None)
  }

  /** Two GetID calls on a fresh cache: since GetID does not write the cache,
      the second call consults the secret store again. */
  method GetIdTwiceUncached(store1: SecretStore, newId1: string, store2: SecretStore, newId2: string)
    returns (first: IdOutcome, second: IdOutcome)
    ensures first == Get(store1, newId1)
    ensures second == Get(store2, newId2)
  {
    var id := new ClusterIdFromPersistentStorage();
    first := GetID(id, store1, newId1);
    second := GetID(id, store2, newId2);
  }

  /** Once a caller has stored a non-empty identity, GetID returns it and the
      secret store is not consulted. */
  method GetIdAfterStore(cid: string, store: SecretStore, newId: string) returns (r: IdOutcome)
    ensures cid != "" ==> r == IdOutcome(Ok(cid), None)
    ensures cid == "" ==> r == Get(store, newId)
  {
    var id := new ClusterIdFromPersistentStorage();
    id.StoreInCache(cid);
    r := GetID(id, store, newId);
  }
}
