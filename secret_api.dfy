/** The control-plane registry of Secrets as the run package uses it through
    its namespaced client: Create, Delete and List by label selector.  Which
    calls fail with a transient error is fixed by a fault oracle, so that the
    same store and the same calls always behave alike. */
module SecretApi {
  import opened Common
  import opened ClusterSecrets

  /** Keys whose Create or Delete fails with a transient error, and
      namespaces whose List fails. */
  datatype Faults = Faults(create: set<ObjectKey>, delete: set<ObjectKey>, list: set<string>)

  /** An equality-based label selector: every (key, value) requirement must
      hold of the object's labels. */
  datatype LabelSelector = LabelSelector(requirements: set<(string, string)>)

  predicate Matches(selector: LabelSelector, labels: map<string, string>)
  {
    forall req | req in selector.requirements :: req.0 in labels && labels[req.0] == req.1
  }

  /** Every stored Secret sits under its own namespace and name. */
  ghost predicate KeysAgree(secrets: map<ObjectKey, Secret>)
  {
    forall k | k in secrets :: secrets[k].Key() == k
  }

  /** The keys a List call in namespace ns returns. */
  function Listed(secrets: map<ObjectKey, Secret>, ns: string, selector: LabelSelector): set<ObjectKey>
  {
    set k | k in secrets && k.namespace == ns && Matches(selector, secrets[k].labels)
  }

  function CreateOutcome(secrets: map<ObjectKey, Secret>, faults: Faults, s: Secret): Outcome<Error>
  {
    if s.Key() in faults.create then Fail(StoreUnavailable(s.Key()))
    else if s.Key() in secrets then Fail(AlreadyExists(s.Key()))
    else Pass
  }

  function DeleteOutcome(secrets: map<ObjectKey, Secret>, faults: Faults, key: ObjectKey): Outcome<Error>
  {
    if key in faults.delete then Fail(StoreUnavailable(key))
    else if key !in secrets then Fail(NotFound(key))
    else Pass
  }

  predicate Distinct<T(==)>(s: seq<T>)
  {
    forall i, j | 0 <= i < j < |s| :: s[i] != s[j]
  }

  class SecretStore {
    var secrets: map<ObjectKey, Secret>
    const faults: Faults

    ghost predicate Valid()
      reads this
    {
      KeysAgree(secrets)
    }

    constructor (initial: map<ObjectKey, Secret>, faults: Faults)
      requires KeysAgree(initial)
      ensures Valid() && secrets == initial && this.faults == faults
    {
      secrets := initial;
      this.faults := faults;
    }

    /** Create: refuses a name that is taken, never overwrites. */
    method Create(s: Secret) returns (r: Outcome<Error>)
      requires Valid()
      modifies this
      ensures Valid()
      ensures r == CreateOutcome(old(secrets), faults, s)
      ensures secrets == if r.Pass? then old(secrets)[s.Key() := s] else old(secrets)
    {
      r := CreateOutcome(secrets, faults, s);
      if r.Pass? {
        secrets := secrets[s.Key() := s];
      }
    }

    /** Delete: a missing name is reported as NotFound. */
    method Delete(key: ObjectKey) returns (r: Outcome<Error>)
      requires Valid()
      modifies this
      ensures Valid()
      ensures r == DeleteOutcome(old(secrets), faults, key)
      ensures secrets == if r.Pass? then old(secrets) - {key} else old(secrets)
    {
      r := DeleteOutcome(secrets, faults, key);
      if r.Pass? {
        secrets := secrets - {key};
      }
    }

    /** List: the keys of the Secrets of one namespace that the selector
        matches, each once, in an order the registry chooses. */
    method List(ns: string, selector: LabelSelector) returns (r: Result<seq<ObjectKey>, Error>)
      ensures r.Failure? <==> ns in faults.list
      ensures r.Failure? ==> r.error == ListSecretsFailed(ns)
      ensures r.Success? ==> Distinct(r.value) && forall k :: k in r.value <==> k in Listed(secrets, ns, selector)
    {
      if ns in faults.list {
        return Failure(ListSecretsFailed(ns));
      }
      var pending := Listed(secrets, ns, selector);
      var items: seq<ObjectKey> := [];
      while pending != {}
        invariant Distinct(items)
        invariant forall k :: k in items ==> k !in pending
        invariant forall k :: k in Listed(secrets, ns, selector) <==> k in items || k in pending
        decreases |pending|
      {
        var k :| k in pending;
        items := items + [k];
        pending := pending - {k};
      }
      return Success(items);
    }
  }
}
