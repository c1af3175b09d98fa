/** Shared vocabulary: optional values, results, the error taxonomy of the
    reconciler, object keys and exact-match selection of string maps. */
module Common {

  datatype Option<+T> = None | Some(value: T) {
    function GetOr(default: T): T {
      match this
      case Some(v) => v
      case None => default
    }
  }

  datatype Result<+R, +E> = Success(value: R) | Failure(error: E)

  datatype Outcome<+E> = Pass | Fail(error: E)

  /** The errors the core can surface.  Message texts and the wrapping
      contexts added for logging are not modelled, except the two phases of
      a sync, which tell which half of the convergence failed. */
  datatype Error =
    | ListClustersFailed
    | DescribeClusterFailed(cluster: string)
    | AlreadyExists(key: ObjectKey)
    | NotFound(key: ObjectKey)
    | StoreUnavailable(key: ObjectKey)
    | ListSecretsFailed(namespace: string)
    | GetFailed(key: ObjectKey)
    | UpdateFailed(key: ObjectKey)
    | CreatingMissing(cause: Error)
    | DeletingRedundant(cause: Error)
    | Panicked(cause: Error)
    | IndexOutOfRange(entry: string)

  /** Namespace and name of a control-plane object. */
  datatype ObjectKey = ObjectKey(namespace: string, name: string)

  /** Exact-match selection: every (k, v) of the selector appears in the map
      with exactly the value v.  Used both for the cluster tag filter and for
      equality-based label selectors. */
  predicate Selects(selector: map<string, string>, m: map<string, string>)
  {
    forall k | k in selector :: k in m && m[k] == selector[k]
  }
}
