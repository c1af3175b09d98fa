/** The ClusterSet controller: the finalizer helpers and one Reconcile tick
    over an in-memory copy of the ClusterSet objects, the event log and the
    Secret registry. */
module Controllers {
  import opened Common
  import opened Eks
  import opened ClusterSecrets
  import opened SecretApi
  import opened Run

  const FinalizerName: string := "runner.clusterset.mumo.co"

  /** The requeue delay, in seconds, after a failed sync. */
  const SyncRetrySeconds: nat := 10

  // The ClusterSet resource, with the fields the controller reads.
  datatype ClusterSelector = ClusterSelector(roleArn: string, eksTags: map<string, string>)
  datatype ClusterSecretTemplate = ClusterSecretTemplate(labels: map<string, string>, awsAuthConfigRoleArn: string)
  datatype ClusterSetSpec = ClusterSetSpec(selector: ClusterSelector, template: ClusterSecretTemplate)
  datatype ClusterSetStatus = ClusterSetStatus(names: seq<string>, lastSyncTime: int, phase: string, reason: string, message: string)
  datatype ClusterSet = ClusterSet(
    key: ObjectKey,
    deleting: bool,
    finalizers: seq<string>,
    spec: ClusterSetSpec,
    status: ClusterSetStatus)

  datatype Event = Event(object: ObjectKey, eventType: string, reason: string, message: string)

  /** What a tick asks of the work queue: 0 means no timed requeue. */
  datatype ReconcileResult = ReconcileResult(requeueAfterSeconds: nat)

  /** The list with every occurrence of token dropped, the other entries
      kept in order. */
  function WithoutToken(entries: seq<string>, token: string): (r: seq<string>)
    ensures token !in r
    ensures token !in entries ==> r == entries
    ensures token in entries ==> |r| < |entries|
    decreases |entries|
  {
    if entries == [] then []
    else
      var prefix, last := entries[..|entries| - 1], entries[|entries| - 1];
      assert entries == prefix + [last];
      WithoutToken(prefix, token) + if last == token then [] else [last]
  }

  /** Exactly the entries other than the token survive. */
  lemma {:induction false} WithoutTokenMembers(entries: seq<string>, token: string, x: string)
    ensures x in WithoutToken(entries, token) <==> x in entries && x != token
    decreases |entries|
  {
    if entries != [] {
      var prefix, last := entries[..|entries| - 1], entries[|entries| - 1];
      assert entries == prefix + [last];
      WithoutTokenMembers(prefix, token, x);
    }
  }

  lemma WithoutTokenStep(entries: seq<string>, token: string, i: nat)
    requires i < |entries|
    ensures WithoutToken(entries[..i + 1], token) == WithoutToken(entries[..i], token) + if entries[i] == token then [] else [entries[i]]
  {
    assert entries[..i + 1][..i] == entries[..i];
  }

  /** Dropping the token commutes with concatenation: the relative order of
      the remaining entries is that of the input. */
  lemma {:induction false} WithoutTokenAppend(xs: seq<string>, ys: seq<string>, token: string)
    ensures WithoutToken(xs + ys, token) == WithoutToken(xs, token) + WithoutToken(ys, token)
    decreases |ys|
  {
    if ys != [] {
      var init, last := ys[..|ys| - 1], ys[|ys| - 1];
      assert xs + ys == (xs + init) + [last];
      assert ys == init + [last];
      WithoutTokenAppend(xs, init, token);
    } else {
      assert xs + ys == xs;
    }
  }

  /** addFinalizer: the token is appended unless it is already there; the
      result always holds it, so a second call reports no addition. */
  method AddFinalizer(finalizers: seq<string>) returns (result: seq<string>, added: bool)
    ensures added <==> FinalizerName !in finalizers
    ensures result == if added then finalizers + [FinalizerName] else finalizers
    ensures FinalizerName in result
  {
    var present := false;
    var i := 0;
    while i < |finalizers|
      invariant 0 <= i <= |finalizers|
      invariant present <==> FinalizerName in finalizers[..i]
    {
      if finalizers[i] == FinalizerName {
        present := true;
      }
      assert finalizers[..i + 1] == finalizers[..i] + [finalizers[i]];
      i := i + 1;
    }
    assert finalizers[..i] == finalizers;
    if present {
      return finalizers, false;
    }
    return finalizers + [FinalizerName], true;
  }

  /** removeFinalizer: drops every occurrence of the token and reports
      whether there was one. */
  method RemoveFinalizer(finalizers: seq<string>) returns (result: seq<string>, removed: bool)
    ensures result == WithoutToken(finalizers, FinalizerName)
    ensures removed <==> FinalizerName in finalizers
  {
    removed := false;
    result := [];
    var i := 0;
    while i < |finalizers|
      invariant 0 <= i <= |finalizers|
      invariant result == WithoutToken(finalizers[..i], FinalizerName)
      invariant removed <==> |result| < i
    {
      WithoutTokenStep(finalizers, FinalizerName, i);
      if finalizers[i] == FinalizerName {
        removed := true;
      } else {
        result := result + [finalizers[i]];
      }
      i := i + 1;
    }
    assert finalizers[..i] == finalizers;
  }

  /** Which branch a tick takes for an object it could read. */
  datatype TickKind = AddingFinalizer | Syncing | RemovingFinalizer | Released

  function KindOf(cs: ClusterSet): TickKind
  {
    if !cs.deleting then (if FinalizerName in cs.finalizers then Syncing else AddingFinalizer)
    else if FinalizerName in cs.finalizers then RemovingFinalizer
    else Released
  }

  /** The sync parameters a steady-state tick derives from the object: never
      a dry run, in the namespace of the request. */
  function SyncConfigFor(req: ObjectKey, cs: ClusterSet): ClusterSetConfig
  {
    ClusterSetConfig(false, req.namespace, cs.spec.selector.roleArn, cs.spec.selector.eksTags,
                     cs.spec.template.labels, cs.spec.template.awsAuthConfigRoleArn)
  }

  /** A reconcile error read as the outcome of the sync that raised it. */
  function AsOutcome(err: Option<Error>): Outcome<Error>
  {
    if err.Some? then Fail(err.value) else Pass
  }

  function SyncFinishedEvent(req: ObjectKey, cs: ClusterSet): Event
  {
    Event(req, "Normal", "SyncFinished", "Sync finished on '" + cs.key.name + "'")
  }

  /** The finalizer lifecycle: a live object acquires the token once and
      then syncs on every tick; a deleting object gives the token up once
      and is then left alone. */
  lemma FinalizerLifecycle(cs: ClusterSet)
    ensures KindOf(cs) == AddingFinalizer ==>
      KindOf(cs.(finalizers := cs.finalizers + [FinalizerName])) == Syncing
    ensures KindOf(cs) == RemovingFinalizer ==>
      KindOf(cs.(finalizers := WithoutToken(cs.finalizers, FinalizerName))) == Released
    ensures KindOf(cs) == Released ==> KindOf(cs.(finalizers := WithoutToken(cs.finalizers, FinalizerName))) == Released
    ensures cs.deleting ==> KindOf(cs) != Syncing && KindOf(cs) != AddingFinalizer
  {
  }

  class ClusterSetReconciler {
    var clusterSets: map<ObjectKey, ClusterSet>
    var events: seq<Event>
    /** The sync parameters of every sync the controller has started. */
    ghost var syncs: seq<ClusterSetConfig>
    /** Keys whose Get, and keys whose Update, fail with a transient error. */
    const getFaults: set<ObjectKey>
    const updateFaults: set<ObjectKey>
    const cloud: Cloud
    const store: SecretStore

    ghost predicate Valid()
      reads this, store
    {
      store.Valid() && forall k | k in clusterSets :: clusterSets[k].key == k
    }

    constructor (clusterSets: map<ObjectKey, ClusterSet>, getFaults: set<ObjectKey>, updateFaults: set<ObjectKey>,
                 cloud: Cloud, store: SecretStore)
      requires store.Valid() && forall k | k in clusterSets :: clusterSets[k].key == k
      ensures Valid()
      ensures this.clusterSets == clusterSets && events == [] && syncs == []
      ensures this.getFaults == getFaults && this.updateFaults == updateFaults
      ensures this.cloud == cloud && this.store == store
    {
      this.clusterSets := clusterSets;
      events := [];
      syncs := [];
      this.getFaults := getFaults;
      this.updateFaults := updateFaults;
      this.cloud := cloud;
      this.store := store;
    }

    /** Persists a new finalizer list for the object, all else equal. */
    method Update(req: ObjectKey, finalizers: seq<string>) returns (err: Option<Error>)
      requires Valid() && req in clusterSets
      modifies this
      ensures Valid()
      ensures err == if req in updateFaults then Some(UpdateFailed(req)) else None
      ensures clusterSets == if err.Some? then old(clusterSets)
                             else old(clusterSets)[req := old(clusterSets)[req].(finalizers := finalizers)]
      ensures events == old(events) && syncs == old(syncs)
    {
      if req in updateFaults {
        return Some(UpdateFailed(req));
      }
      clusterSets := clusterSets[req := clusterSets[req].(finalizers := finalizers)];
      return None;
    }

    /** One reconciliation of the object named by req.  The ghost listing is
        the order in which a sync's deletion phase listed the registry. */
    method Reconcile(req: ObjectKey) returns (result: ReconcileResult, err: Option<Error>, ghost listing: seq<ObjectKey>)
      requires Valid()
      modifies this, store
      ensures Valid()
      // The status and the spec of every object are never written.
      ensures clusterSets.Keys == old(clusterSets).Keys
      ensures forall k | k in clusterSets ::
        clusterSets[k].status == old(clusterSets)[k].status && clusterSets[k].spec == old(clusterSets)[k].spec
        && clusterSets[k].deleting == old(clusterSets)[k].deleting
      // A failed Get is returned; a missing object is no error and no action.
      ensures req in getFaults || req !in old(clusterSets) ==>
        result == ReconcileResult(0) && err == (if req in getFaults then Some(GetFailed(req)) else None)
        && clusterSets == old(clusterSets) && events == old(events) && syncs == old(syncs)
        && store.secrets == old(store.secrets)
      ensures req !in getFaults && req in old(clusterSets) ==>
        var cs := old(clusterSets)[req];
        match KindOf(cs)
        // A live object without the token: persist it with the token, no sync.
        case AddingFinalizer =>
          result == ReconcileResult(0) && err == (if req in updateFaults then Some(UpdateFailed(req)) else None)
          && clusterSets == (if err.Some? then old(clusterSets)
                             else old(clusterSets)[req := cs.(finalizers := cs.finalizers + [FinalizerName])])
          && events == old(events) && syncs == old(syncs) && store.secrets == old(store.secrets)
        // A deleting object holding the token: persist it without, no sync.
        case RemovingFinalizer =>
          result == ReconcileResult(0) && err == (if req in updateFaults then Some(UpdateFailed(req)) else None)
          && clusterSets == (if err.Some? then old(clusterSets)
                             else old(clusterSets)[req := cs.(finalizers := WithoutToken(cs.finalizers, FinalizerName))])
          && events == old(events) && syncs == old(syncs) && store.secrets == old(store.secrets)
        // A deleting object already released: nothing at all.
        case Released =>
          result == ReconcileResult(0) && err.None?
          && clusterSets == old(clusterSets) && events == old(events) && syncs == old(syncs)
          && store.secrets == old(store.secrets)
        // Steady state: one sync; failure requeues after 10 seconds with the
        // error, success records one SyncFinished event.
        case Syncing =>
          var config := SyncConfigFor(req, cs);
          clusterSets == old(clusterSets) && syncs == old(syncs) + [config]
          && SyncReport(old(store.secrets), store.secrets, store.faults, cloud, config, AsOutcome(err), listing)
          && (err.Some? ==> result == ReconcileResult(SyncRetrySeconds) && events == old(events))
          && (err.None? ==> result == ReconcileResult(0) && events == old(events) + [SyncFinishedEvent(req, cs)])
    {
      listing := [];
      if req in getFaults {
        return ReconcileResult(0), Some(GetFailed(req)), listing;
      }
      if req !in clusterSets {
        return ReconcileResult(0), None, listing;
      }
      var cs := clusterSets[req];
      if !cs.deleting {
        var finalizers, added := AddFinalizer(cs.finalizers);
        if added {
          err := Update(req, finalizers);
          return ReconcileResult(0), err, listing;
        }
      } else {
        var finalizers, removed := RemoveFinalizer(cs.finalizers);
        if removed {
          err := Update(req, finalizers);
          if err.Some? {
            return ReconcileResult(0), err, listing;
          }
        }
        return ReconcileResult(0), None, listing;
      }

      result, err, listing := SyncClusterSet(req, cs);
    }

    /** The steady-state half of a tick: one sync with the parameters the
        object derives; failure requeues after 10 seconds with the error,
        success records one SyncFinished event. */
    method SyncClusterSet(req: ObjectKey, cs: ClusterSet)
      returns (result: ReconcileResult, err: Option<Error>, ghost listing: seq<ObjectKey>)
      requires Valid()
      modifies this, store
      ensures Valid()
      ensures var config := SyncConfigFor(req, cs);
        clusterSets == old(clusterSets) && syncs == old(syncs) + [config]
        && SyncReport(old(store.secrets), store.secrets, store.faults, cloud, config, AsOutcome(err), listing)
        && (err.Some? ==> result == ReconcileResult(SyncRetrySeconds) && events == old(events))
        && (err.None? ==> result == ReconcileResult(0) && events == old(events) + [SyncFinishedEvent(req, cs)])
    {
      var config := SyncConfigFor(req, cs);
      syncs := syncs + [config];
      var synced;
      synced, listing := Sync(store, cloud, config);
      if synced.Fail? {
        return ReconcileResult(SyncRetrySeconds), Some(synced.error), listing;
      }
      events := events + [SyncFinishedEvent(req, cs)];
      return ReconcileResult(0), None, listing;
    }
  }
}
