/** The commands of the run package over the Secret registry: Create and
    Delete of one record, and CreateMissing, DeleteMissing and Sync, which
    converge the registry onto the records discovery computes. */
module Run {
  import opened Common
  import opened Eks
  import opened ClusterSecrets
  import opened Discovery
  import opened SecretApi

  /** The selector DeleteMissing lists with: the sentinel pair, then one
      requirement per template label. */
  function ListSelector(labels: map<string, string>): LabelSelector
  {
    LabelSelector({(SecretLabelKeyArgoCDType, SecretLabelValueArgoCDCluster)} + set k | k in labels :: (k, labels[k]))
  }

  /** A label map matches the listing selector iff it carries the sentinel
      pair and every template label. */
  lemma ListSelectorMatches(labels: map<string, string>, m: map<string, string>)
    ensures Matches(ListSelector(labels), m) <==>
      (SecretLabelKeyArgoCDType in m && m[SecretLabelKeyArgoCDType] == SecretLabelValueArgoCDCluster && Selects(labels, m))
  {
    var sel := ListSelector(labels);
    if Selects(labels, m) {
      assert forall k | k in labels :: (k, labels[k]) in sel.requirements;
    }
    if Matches(sel, m) {
      assert (SecretLabelKeyArgoCDType, SecretLabelValueArgoCDCluster) in sel.requirements;
      forall k | k in labels
        ensures k in m && m[k] == labels[k]
      {
        assert (k, labels[k]) in sel.requirements;
      }
    }
  }

  function KeysOf(records: seq<Secret>): set<ObjectKey>
  {
    set s | s in records :: s.Key()
  }

  function NamesOf(records: seq<Secret>): set<string>
  {
    set s | s in records :: s.name
  }

  /** Every entry of a is in b with the same content. */
  ghost predicate SubmapOf(a: map<ObjectKey, Secret>, b: map<ObjectKey, Secret>)
  {
    forall k | k in a :: k in b && a[k] == b[k]
  }

  // ---------------------------------------------------------------------
  // CreateMissing

  /** The create loop of CreateMissing over records, outside dry-run: each
      record is created; a name that is taken counts as no change; any other
      error ends the loop with that error. */
  function CreateAll(secrets: map<ObjectKey, Secret>, faults: Faults, records: seq<Secret>)
    : (map<ObjectKey, Secret>, Outcome<Error>)
    decreases |records|
  {
    if records == [] then (secrets, Pass)
    else
      var (m, o) := CreateAll(secrets, faults, records[..|records| - 1]);
      var s := records[|records| - 1];
      if o.Fail? then (m, o)
      else
        match CreateOutcome(m, faults, s)
        case Pass => (m[s.Key() := s], Pass)
        case Fail(e) => if e.AlreadyExists? then (m, Pass) else (m, Fail(e))
  }

  /** CreateMissing: discovery, then the create loop unless dry-run. */
  function CreateMissingEffect(secrets: map<ObjectKey, Secret>, faults: Faults, cloud: Cloud, cfg: ClusterSetConfig)
    : (map<ObjectKey, Secret>, Outcome<Error>)
  {
    match Discover(cloud, cfg)
    case Failure(e) => (secrets, Fail(e))
    case Success(records) => if cfg.dryRun then (secrets, Pass) else CreateAll(secrets, faults, records)
  }

  lemma {:induction false} CreateAllFailureSticks(secrets: map<ObjectKey, Secret>, faults: Faults, records: seq<Secret>, j: nat)
    requires j <= |records|
    requires CreateAll(secrets, faults, records[..j]).1.Fail?
    ensures CreateAll(secrets, faults, records) == CreateAll(secrets, faults, records[..j])
    decreases |records|
  {
    if j < |records| {
      var prefix := records[..|records| - 1];
      assert prefix[..j] == records[..j];
      CreateAllFailureSticks(secrets, faults, prefix, j);
    } else {
      assert records[..j] == records;
    }
  }

  /** Records already in the registry are never rewritten, and every entry
      the loop adds is one of the records, under its own key. */
  lemma {:induction false} CreateAllOnlyAdds(secrets: map<ObjectKey, Secret>, faults: Faults, records: seq<Secret>)
    ensures var m := CreateAll(secrets, faults, records).0;
      SubmapOf(secrets, m)
      && m.Keys <= secrets.Keys + KeysOf(records)
      && forall k | k in m && k !in secrets :: m[k] in records && m[k].Key() == k
    decreases |records|
  {
    if records != [] {
      var prefix, s := records[..|records| - 1], records[|records| - 1];
      CreateAllOnlyAdds(secrets, faults, prefix);
      assert forall t | t in prefix :: t in records;
      var (m0, o0) := CreateAll(secrets, faults, prefix);
      if o0.Pass? && CreateOutcome(m0, faults, s).Pass? {
        assert CreateAll(secrets, faults, records).0 == m0[s.Key() := s];
      } else {
        assert CreateAll(secrets, faults, records).0 == m0;
      }
    }
  }

  /** The loop gets through iff no record's key meets a transient create
      error, and then the registry holds every record's key. */
  lemma {:induction false} CreateAllOutcome(secrets: map<ObjectKey, Secret>, faults: Faults, records: seq<Secret>)
    ensures var (m, o) := CreateAll(secrets, faults, records);
      (o.Pass? <==> forall s | s in records :: s.Key() !in faults.create)
      && (o.Pass? ==> m.Keys == secrets.Keys + KeysOf(records))
    decreases |records|
  {
    if records != [] {
      var prefix, last := records[..|records| - 1], records[|records| - 1];
      assert records == prefix + [last];
      CreateAllOutcome(secrets, faults, prefix);
    }
  }

  /** The loop stops at the first record whose create fails: the registry is
      what the records before it left, and no later record is created. */
  lemma {:induction false} CreateAllStopsAtFirstFault(secrets: map<ObjectKey, Secret>, faults: Faults, records: seq<Secret>, i: nat)
    requires i < |records| && records[i].Key() in faults.create
    requires forall j | 0 <= j < i :: records[j].Key() !in faults.create
    ensures CreateAll(secrets, faults, records)
         == (CreateAll(secrets, faults, records[..i]).0, Fail(StoreUnavailable(records[i].Key())))
  {
    var before := records[..i];
    CreateAllOutcome(secrets, faults, before);
    assert records[..i + 1][..i] == before;
    assert CreateAll(secrets, faults, records[..i + 1]).1.Fail?;
    CreateAllFailureSticks(secrets, faults, records, i + 1);
  }

  /** When every record's key is present and none meets a create fault, the
      loop changes nothing and succeeds. */
  lemma {:induction false} CreateAllOfPresent(secrets: map<ObjectKey, Secret>, faults: Faults, records: seq<Secret>)
    requires forall s | s in records :: s.Key() in secrets && s.Key() !in faults.create
    ensures CreateAll(secrets, faults, records) == (secrets, Pass)
    decreases |records|
  {
    if records != [] {
      var prefix := records[..|records| - 1];
      assert forall s | s in prefix :: s in records;
      CreateAllOfPresent(secrets, faults, prefix);
    }
  }

  /** When every record's key is present, the loop leaves the registry as
      it is, whatever faults it meets: a create either fails or finds its
      name taken. */
  lemma {:induction false} CreateAllOfPresentKeeps(secrets: map<ObjectKey, Secret>, faults: Faults, records: seq<Secret>)
    requires forall s | s in records :: s.Key() in secrets
    ensures CreateAll(secrets, faults, records).0 == secrets
    decreases |records|
  {
    if records != [] {
      var prefix := records[..|records| - 1];
      assert forall s | s in prefix :: s in records;
      CreateAllOfPresentKeeps(secrets, faults, prefix);
    }
  }

  /** One more record through the create loop. */
  lemma CreateAllStep(secrets: map<ObjectKey, Secret>, faults: Faults, records: seq<Secret>, i: nat, m: map<ObjectKey, Secret>)
    requires i < |records| && CreateAll(secrets, faults, records[..i]) == (m, Pass)
    ensures var s := records[i];
      CreateAll(secrets, faults, records[..i + 1])
      == match CreateOutcome(m, faults, s)
         case Pass => (m[s.Key() := s], Pass)
         case Fail(e) => if e.AlreadyExists? then (m, Pass) else (m, Fail(e))
  {
    assert records[..i + 1][..i] == records[..i];
  }

  method CreateMissing(store: SecretStore, cloud: Cloud, cfg: ClusterSetConfig) returns (r: Outcome<Error>)
    requires store.Valid()
    modifies store
    ensures store.Valid()
    ensures (store.secrets, r) == CreateMissingEffect(old(store.secrets), store.faults, cloud, cfg)
  {
    var objects := ClusterSecretsFromClusters(cloud, cfg);
    if objects.Failure? {
      return Fail(objects.error);
    }
    var records := objects.value;
    var i := 0;
    while i < |records|
      invariant 0 <= i <= |records|
      invariant store.Valid()
      invariant cfg.dryRun ==> store.secrets == old(store.secrets)
      invariant !cfg.dryRun ==> CreateAll(old(store.secrets), store.faults, records[..i]) == (store.secrets, Pass)
    {
      var record := records[i];
      if !cfg.dryRun {
        CreateAllStep(old(store.secrets), store.faults, records, i, store.secrets);
        var c := store.Create(record);
        if c.Fail? && !c.error.AlreadyExists? {
          CreateAllFailureSticks(old(store.secrets), store.faults, records, i + 1);
          return c;
        }
      }
      i := i + 1;
    }
    assert records[..i] == records;
    return Pass;
  }

  // ---------------------------------------------------------------------
  // DeleteMissing

  /** The listed records whose name no discovered record carries. */
  function ToDelete(secrets: map<ObjectKey, Secret>, cfg: ClusterSetConfig, records: seq<Secret>): set<ObjectKey>
  {
    set k | k in Listed(secrets, cfg.ns, ListSelector(cfg.labels)) && k.name !in NamesOf(records)
  }

  predicate DeleteMissingSucceeds(secrets: map<ObjectKey, Secret>, faults: Faults, cloud: Cloud, cfg: ClusterSetConfig)
  {
    cfg.ns !in faults.list
    && Discover(cloud, cfg).Success?
    && (cfg.dryRun || ToDelete(secrets, cfg, Discover(cloud, cfg).value) !! faults.delete)
  }

  /** The error DeleteMissing may return: the listing error, the discovery
      error, or the failed deletion of one redundant record. */
  predicate DeleteMissingError(secrets: map<ObjectKey, Secret>, faults: Faults, cloud: Cloud, cfg: ClusterSetConfig, e: Error)
  {
    if cfg.ns in faults.list then e == ListSecretsFailed(cfg.ns)
    else if Discover(cloud, cfg).Failure? then e == Discover(cloud, cfg).error
    else e.StoreUnavailable? && e.key in ToDelete(secrets, cfg, Discover(cloud, cfg).value) && e.key in faults.delete
  }

  /** The set of desired names DeleteMissing builds from the records. */
  method DesiredClusters(records: seq<Secret>) returns (desired: set<string>)
    ensures forall name :: name in desired <==> exists s | s in records :: s.name == name
  {
    desired := {};
    var i := 0;
    while i < |records|
      invariant 0 <= i <= |records|
      invariant desired == NamesOf(records[..i])
    {
      assert records[..i + 1] == records[..i] + [records[i]];
      desired := desired + {records[i].name};
      i := i + 1;
    }
    assert records[..i] == records;
  }

  /** The undesired keys among the first j listed ones. */
  function UndesiredBefore(items: seq<ObjectKey>, desired: set<string>, j: nat): set<ObjectKey>
    requires j <= |items|
  {
    set i | 0 <= i < j && items[i].name !in desired :: items[i]
  }

  lemma UndesiredStep(items: seq<ObjectKey>, desired: set<string>, j: nat)
    requires j < |items|
    ensures UndesiredBefore(items, desired, j + 1)
         == UndesiredBefore(items, desired, j) + if items[j].name !in desired then {items[j]} else {}
  {
    var longer, shorter := UndesiredBefore(items, desired, j + 1), UndesiredBefore(items, desired, j);
    forall k | k in longer
      ensures k in shorter || (k == items[j] && items[j].name !in desired)
    {
      var i :| 0 <= i < j + 1 && items[i].name !in desired && items[i] == k;
      if i < j {
        assert k in shorter;
      }
    }
  }

  /** The deletion loop stopped at the listed key `key`: that key is
      undesired and its deletion faulted, every undesired key listed before
      it was deleted without a fault, and nothing else changed. */
  ghost predicate StoppedAt(before: map<ObjectKey, Secret>, after: map<ObjectKey, Secret>, faults: Faults,
                            items: seq<ObjectKey>, desired: set<string>, key: ObjectKey)
  {
    exists j | 0 <= j < |items| ::
      items[j] == key && key.name !in desired && key in faults.delete
      && UndesiredBefore(items, desired, j) !! faults.delete
      && after == before - UndesiredBefore(items, desired, j)
  }

  /** For a given listing order, where the deletion loop stops and what it
      leaves are determined: the stop is the first undesired key whose
      deletion faults, so a loop that carried on past it would not meet
      StoppedAt. */
  lemma StoppedAtDetermined(before: map<ObjectKey, Secret>, after1: map<ObjectKey, Secret>, after2: map<ObjectKey, Secret>,
                            faults: Faults, items: seq<ObjectKey>, desired: set<string>, key1: ObjectKey, key2: ObjectKey)
    requires StoppedAt(before, after1, faults, items, desired, key1)
    requires StoppedAt(before, after2, faults, items, desired, key2)
    ensures key1 == key2 && after1 == after2
  {
    var j1 :| 0 <= j1 < |items| && items[j1] == key1 && key1.name !in desired && key1 in faults.delete
      && UndesiredBefore(items, desired, j1) !! faults.delete && after1 == before - UndesiredBefore(items, desired, j1);
    var j2 :| 0 <= j2 < |items| && items[j2] == key2 && key2.name !in desired && key2 in faults.delete
      && UndesiredBefore(items, desired, j2) !! faults.delete && after2 == before - UndesiredBefore(items, desired, j2);
    assert j1 == j2;
  }

  /** The deletion loop of DeleteMissing: in listing order, every listed
      record whose name is not desired is deleted (only reported in
      dry-run); the first failed deletion ends the loop. */
  method DeleteUndesired(store: SecretStore, ns: string, items: seq<ObjectKey>, desired: set<string>, dryRun: bool)
    returns (r: Outcome<Error>)
    requires store.Valid()
    requires Distinct(items) && forall k | k in items :: k in store.secrets && k.namespace == ns
    modifies store
    ensures store.Valid()
    ensures var doomed := set k | k in items && k.name !in desired;
      (r.Pass? <==> dryRun || doomed !! store.faults.delete)
      && (r.Fail? ==> r.error.StoreUnavailable? && r.error.key in doomed
                      && StoppedAt(old(store.secrets), store.secrets, store.faults, items, desired, r.error.key))
      && SubmapOf(store.secrets, old(store.secrets))
      && old(store.secrets).Keys - store.secrets.Keys <= doomed
      && (dryRun ==> store.secrets == old(store.secrets))
      && (r.Pass? && !dryRun ==> store.secrets == old(store.secrets) - doomed)
  {
    ghost var doomed := set k | k in items && k.name !in desired;
    ghost var removed: set<ObjectKey> := {};
    var j := 0;
    while j < |items|
      invariant 0 <= j <= |items|
      invariant store.Valid()
      invariant removed == UndesiredBefore(items, desired, j)
      invariant removed <= doomed
      invariant forall i | j <= i < |items| :: items[i] !in removed
      invariant store.secrets == if dryRun then old(store.secrets) else old(store.secrets) - removed
      invariant !dryRun ==> removed !! store.faults.delete
    {
      var name := items[j].name;
      UndesiredStep(items, desired, j);
      if name !in desired {
        assert ObjectKey(ns, name) == items[j];
        if !dryRun {
          var d := store.Delete(ObjectKey(ns, name));
          if d.Fail? {
            assert StoppedAt(old(store.secrets), store.secrets, store.faults, items, desired, items[j]);
            return d;
          }
        }
        removed := removed + {items[j]};
      }
      j := j + 1;
    }
    assert doomed <= removed by {
      forall k | k in doomed
        ensures k in removed
      {
        var i :| 0 <= i < |items| && items[i] == k;
      }
    }
    return Pass;
  }

  /** DeleteMissing.  The ghost listing is the order in which the registry
      returned the listed keys; a failed deletion is the first faulting
      undesired key in that order. */
  method DeleteMissing(store: SecretStore, cloud: Cloud, cfg: ClusterSetConfig)
    returns (r: Outcome<Error>, ghost listing: seq<ObjectKey>)
    requires store.Valid()
    modifies store
    ensures store.Valid()
    ensures cfg.ns !in store.faults.list ==>
      Distinct(listing) && forall k :: k in listing <==> k in Listed(old(store.secrets), cfg.ns, ListSelector(cfg.labels))
    ensures r.Fail? && cfg.ns !in store.faults.list && Discover(cloud, cfg).Success? ==>
      r.error.StoreUnavailable?
      && StoppedAt(old(store.secrets), store.secrets, store.faults, listing, NamesOf(Discover(cloud, cfg).value), r.error.key)
    ensures SubmapOf(store.secrets, old(store.secrets))
    ensures r.Pass? <==> DeleteMissingSucceeds(old(store.secrets), store.faults, cloud, cfg)
    ensures r.Fail? ==> DeleteMissingError(old(store.secrets), store.faults, cloud, cfg, r.error)
    ensures cfg.dryRun || cfg.ns in store.faults.list || Discover(cloud, cfg).Failure? ==> store.secrets == old(store.secrets)
    ensures Discover(cloud, cfg).Success? ==>
      old(store.secrets).Keys - store.secrets.Keys <= ToDelete(old(store.secrets), cfg, Discover(cloud, cfg).value)
    ensures r.Pass? && !cfg.dryRun ==>
      store.secrets == old(store.secrets) - ToDelete(old(store.secrets), cfg, Discover(cloud, cfg).value)
  {
    listing := [];
    var listed := store.List(cfg.ns, ListSelector(cfg.labels));
    if listed.Failure? {
      return Fail(listed.error), listing;
    }
    var items := listed.value;
    listing := items;
    var objects := ClusterSecretsFromClusters(cloud, cfg);
    if objects.Failure? {
      return Fail(objects.error), listing;
    }
    var records := objects.value;

    var desired := DesiredClusters(records);
    assert desired == NamesOf(records);
    ghost var doomed := ToDelete(old(store.secrets), cfg, records);
    assert (set k | k in items && k.name !in desired) == doomed;
    r := DeleteUndesired(store, cfg.ns, items, desired, cfg.dryRun);
  }

  // ---------------------------------------------------------------------
  // Sync

  /** Both halves of a sync get through. */
  predicate SyncSucceeds(secrets: map<ObjectKey, Secret>, faults: Faults, cloud: Cloud, cfg: ClusterSetConfig)
  {
    var (created, o) := CreateMissingEffect(secrets, faults, cloud, cfg);
    o.Pass? && DeleteMissingSucceeds(created, faults, cloud, cfg)
  }

  /** The registry after a sync that gets through: the records created, then
      the redundant ones deleted (nothing changes in dry-run). */
  function Synced(secrets: map<ObjectKey, Secret>, faults: Faults, cloud: Cloud, cfg: ClusterSetConfig): map<ObjectKey, Secret>
  {
    var created := CreateMissingEffect(secrets, faults, cloud, cfg).0;
    if cfg.dryRun || Discover(cloud, cfg).Failure? then created
    else created - ToDelete(created, cfg, Discover(cloud, cfg).value)
  }

  /** What one sync reports and leaves behind: it gets through exactly when
      SyncSucceeds, and then leaves Synced; a failed creation phase is
      reported wrapped as CreatingMissing and leaves what it created; a
      failed deletion phase is reported wrapped as DeletingRedundant, with
      one of the errors DeleteMissing may return, and has only removed
      redundant records: none when the listing or discovery failed, and
      otherwise exactly those listed before the first redundant record
      whose deletion failed, in the order `listing` in which the registry
      listed them.  A dry run changes nothing. */
  ghost predicate SyncReport(before: map<ObjectKey, Secret>, after: map<ObjectKey, Secret>, faults: Faults,
                             cloud: Cloud, cfg: ClusterSetConfig, r: Outcome<Error>, listing: seq<ObjectKey>)
  {
    (cfg.dryRun ==> after == before)
    && (r.Pass? <==> SyncSucceeds(before, faults, cloud, cfg))
    && (r.Pass? ==> after == Synced(before, faults, cloud, cfg))
    && var (created, o) := CreateMissingEffect(before, faults, cloud, cfg);
       (o.Fail? ==> r == Fail(CreatingMissing(o.error)) && after == created)
       && (o.Pass? && r.Fail? ==>
             r.error.DeletingRedundant? && DeleteMissingError(created, faults, cloud, cfg, r.error.cause)
             && SubmapOf(after, created)
             && (Discover(cloud, cfg).Success? ==> created.Keys - after.Keys <= ToDelete(created, cfg, Discover(cloud, cfg).value))
             && (cfg.ns in faults.list || Discover(cloud, cfg).Failure? ==> after == created)
             && (cfg.ns !in faults.list && Discover(cloud, cfg).Success? ==>
                   r.error.cause.StoreUnavailable?
                   && Distinct(listing)
                   && (forall k :: k in listing <==> k in Listed(created, cfg.ns, ListSelector(cfg.labels)))
                   && StoppedAt(created, after, faults, listing, NamesOf(Discover(cloud, cfg).value), r.error.cause.key)))
  }

  /** Sync.  The ghost listing is the order in which the deletion phase's
      registry listing returned its keys. */
  method Sync(store: SecretStore, cloud: Cloud, cfg: ClusterSetConfig) returns (r: Outcome<Error>, ghost listing: seq<ObjectKey>)
    requires store.Valid()
    modifies store
    ensures store.Valid()
    ensures SyncReport(old(store.secrets), store.secrets, store.faults, cloud, cfg, r, listing)
  {
    listing := [];
    var c := CreateMissing(store, cloud, cfg);
    if c.Fail? {
      return Fail(CreatingMissing(c.error)), listing;
    }
    var d;
    d, listing := DeleteMissing(store, cloud, cfg);
    if d.Fail? {
      return Fail(DeletingRedundant(d.error)), listing;
    }
    return Pass, listing;
  }

  /** Creating records never changes which listed records are redundant:
      every added record carries a desired name. */
  lemma CreatedKeepsToDelete(secrets: map<ObjectKey, Secret>, created: map<ObjectKey, Secret>, cfg: ClusterSetConfig, records: seq<Secret>)
    requires SubmapOf(secrets, created)
    requires forall k | k in created && k !in secrets :: created[k] in records && created[k].Key() == k
    ensures ToDelete(created, cfg, records) == ToDelete(secrets, cfg, records)
  {
    forall k | k in ToDelete(created, cfg, records)
      ensures k in ToDelete(secrets, cfg, records)
    {
      if k !in secrets {
        assert created[k] in records;
      }
    }
  }

  /** After a sync that gets through (outside dry-run): every discovered
      record's key is present, records that were there are never rewritten,
      every new entry is a discovered record, the result is what the create
      phase left minus some of its entries, exactly the redundant listed
      records were deleted, and nothing redundant is left. */
  lemma SyncConverges(secrets: map<ObjectKey, Secret>, faults: Faults, cloud: Cloud, cfg: ClusterSetConfig)
    requires SyncSucceeds(secrets, faults, cloud, cfg) && !cfg.dryRun
    ensures Discover(cloud, cfg).Success?
    ensures var once := Synced(secrets, faults, cloud, cfg);
      var records := Discover(cloud, cfg).value;
      KeysOf(records) <= once.Keys
      && SubmapOf(once, CreateAll(secrets, faults, records).0)
      && (forall k | k in secrets && k in once :: once[k] == secrets[k])
      && (forall k | k in once && k !in secrets :: once[k] in records)
      && (forall k | k in secrets :: k !in once <==> k in ToDelete(secrets, cfg, records))
      && ToDelete(once, cfg, records) == {}
  {
    var records := Discover(cloud, cfg).value;
    var created := CreateAll(secrets, faults, records).0;
    CreateAllOnlyAdds(secrets, faults, records);
    CreateAllOutcome(secrets, faults, records);
    CreatedKeepsToDelete(secrets, created, cfg, records);
    var once := Synced(secrets, faults, cloud, cfg);
    assert once == created - ToDelete(secrets, cfg, records);
    forall k | k in ToDelete(once, cfg, records)
      ensures k in ToDelete(created, cfg, records) && k in once
    {
    }
  }

  /** Sync is idempotent: a second sync against the same clusters that
      meets the same faults also gets through and changes nothing. */
  lemma SyncIsIdempotent(secrets: map<ObjectKey, Secret>, faults: Faults, cloud: Cloud, cfg: ClusterSetConfig)
    requires SyncSucceeds(secrets, faults, cloud, cfg)
    ensures SyncSucceeds(Synced(secrets, faults, cloud, cfg), faults, cloud, cfg)
    ensures Synced(Synced(secrets, faults, cloud, cfg), faults, cloud, cfg) == Synced(secrets, faults, cloud, cfg)
  {
    var once := Synced(secrets, faults, cloud, cfg);
    if !cfg.dryRun {
      var records := Discover(cloud, cfg).value;
      SyncConverges(secrets, faults, cloud, cfg);
      CreateAllOutcome(secrets, faults, records);
      CreateAllOfPresent(once, faults, records);
      assert CreateMissingEffect(once, faults, cloud, cfg) == (once, Pass);
      assert once - {} == once;
    }
  }

  /** A submap that misses none of the other map's keys is that map. */
  lemma SubmapMissingNothing(a: map<ObjectKey, Secret>, b: map<ObjectKey, Secret>)
    requires SubmapOf(a, b) && b.Keys - a.Keys == {}
    ensures a == b
  {
    assert a.Keys == b.Keys by {
      forall k | k in b
        ensures k in a
      {
        assert k !in b.Keys - a.Keys;
      }
    }
  }

  /** A sync of a converged registry (every discovered key present, nothing
      redundant listed) leaves it as it is, whatever faults it meets: every
      create finds its name taken or fails, and there is nothing to delete. */
  lemma SyncOfConvergedKeeps(before: map<ObjectKey, Secret>, after: map<ObjectKey, Secret>, faults: Faults,
                             cloud: Cloud, cfg: ClusterSetConfig, r: Outcome<Error>, listing: seq<ObjectKey>)
    requires Discover(cloud, cfg).Success?
    requires KeysOf(Discover(cloud, cfg).value) <= before.Keys
    requires ToDelete(before, cfg, Discover(cloud, cfg).value) == {}
    requires SyncReport(before, after, faults, cloud, cfg, r, listing)
    ensures after == before
  {
    if !cfg.dryRun {
      var records := Discover(cloud, cfg).value;
      CreateAllOfPresentKeeps(before, faults, records);
      var (created, o) := CreateMissingEffect(before, faults, cloud, cfg);
      assert created == before;
      if o.Pass? {
        if r.Pass? {
          assert after == before - {};
        } else {
          SubmapMissingNothing(after, before);
        }
      }
    }
  }

  /** Whatever faults a second sync meets, it leaves the registry as the
      first sync that got through left it. */
  lemma SyncAgainKeepsRegistry(secrets: map<ObjectKey, Secret>, faults: Faults, cloud: Cloud, cfg: ClusterSetConfig,
                               faults2: Faults, after: map<ObjectKey, Secret>, r: Outcome<Error>, listing: seq<ObjectKey>)
    requires SyncSucceeds(secrets, faults, cloud, cfg)
    requires SyncReport(Synced(secrets, faults, cloud, cfg), after, faults2, cloud, cfg, r, listing)
    ensures after == Synced(secrets, faults, cloud, cfg)
  {
    if !cfg.dryRun {
      SyncConverges(secrets, faults, cloud, cfg);
      SyncOfConvergedKeeps(Synced(secrets, faults, cloud, cfg), after, faults2, cloud, cfg, r, listing);
    }
  }

  /** Every record discovery computes lives in the configured namespace and
      carries the labels DeleteMissing lists by, unless the template labels
      give the sentinel key another value; then the listing selector asks
      for two values of one key and matches nothing at all, so a sync never
      deletes anything. */
  lemma RecordsMatchListSelector(cloud: Cloud, cfg: ClusterSetConfig, secrets: map<ObjectKey, Secret>)
    ensures Discover(cloud, cfg).Success? && (SecretLabelKeyArgoCDType !in cfg.labels || cfg.labels[SecretLabelKeyArgoCDType] == SecretLabelValueArgoCDCluster) ==>
      forall s | s in Discover(cloud, cfg).value :: s.namespace == cfg.ns && Matches(ListSelector(cfg.labels), s.labels)
    ensures SecretLabelKeyArgoCDType in cfg.labels && cfg.labels[SecretLabelKeyArgoCDType] != SecretLabelValueArgoCDCluster ==>
      Listed(secrets, cfg.ns, ListSelector(cfg.labels)) == {}
  {
    var overridden := SecretLabelKeyArgoCDType in cfg.labels && cfg.labels[SecretLabelKeyArgoCDType] != SecretLabelValueArgoCDCluster;
    DiscoveryReadsOnlyTheFirstPage(cloud, cfg);
    if Discover(cloud, cfg).Success? && !overridden {
      var records := Discover(cloud, cfg).value;
      forall s | s in records
        ensures s.namespace == cfg.ns && Matches(ListSelector(cfg.labels), s.labels)
      {
        var i :| 0 <= i < |records| && records[i] == s;
        ListSelectorMatches(cfg.labels, s.labels);
      }
    }
    if overridden {
      forall k | k in secrets
        ensures !Matches(ListSelector(cfg.labels), secrets[k].labels)
      {
        ListSelectorMatches(cfg.labels, secrets[k].labels);
      }
    }
  }

  // ---------------------------------------------------------------------
  // Create and Delete of a single record

  /** The record the Create command builds: from the given endpoint and CA
      data, or, when either is empty, from DescribeCluster, whose failure
      panics. */
  function CommandRecord(cloud: Cloud, config: Config): Result<Secret, Error>
  {
    if config.endpoint == "" || config.caData == "" then
      match DescribeCluster(cloud, config.roleArn, config.name)
      case Failure(e) => Failure(Panicked(e))
      case Success(cluster) =>
        Success(NewClusterSecretFromCluster(config.ns, config.name, config.labels, cluster, config.awsAuthConfigRoleArn))
    else Success(NewClusterSecretFromValues(config.ns, config.name, config.labels, config.endpoint, config.caData, config.awsAuthConfigRoleArn))
  }

  /** The command's record is named after the cluster, in the command's
      namespace; its server is the given endpoint when both values are given
      and the described one otherwise. */
  lemma CommandRecordFields(cloud: Cloud, config: Config)
    ensures var rec := CommandRecord(cloud, config);
      (rec.Success? <==> (config.endpoint != "" && config.caData != "") || Describable(cloud, config.roleArn, config.name))
      && (rec.Success? ==>
        rec.value.Key() == ObjectKey(config.ns, config.name)
        && rec.value.labels == ClusterLabels(config.labels)
        && rec.value.stringData["server"]
           == if config.endpoint != "" && config.caData != "" then config.endpoint
              else DescribeCluster(cloud, config.roleArn, config.name).value.endpoint)
      && (rec.Failure? ==> rec.error == Panicked(DescribeClusterFailed(config.name)))
  {
  }

  method Create(store: SecretStore, cloud: Cloud, config: Config) returns (r: Outcome<Error>)
    requires store.Valid()
    modifies store
    ensures store.Valid()
    ensures CommandRecord(cloud, config).Failure? ==>
      r == Fail(CommandRecord(cloud, config).error) && store.secrets == old(store.secrets)
    ensures CommandRecord(cloud, config).Success? && config.dryRun ==> r == Pass && store.secrets == old(store.secrets)
    ensures CommandRecord(cloud, config).Success? && !config.dryRun ==>
      var rec := CommandRecord(cloud, config).value;
      r == CreateOutcome(old(store.secrets), store.faults, rec)
      && store.secrets == if r.Pass? then old(store.secrets)[rec.Key() := rec] else old(store.secrets)
  {
    var record: Secret;
    if config.endpoint == "" || config.caData == "" {
      var described := DescribeCluster(cloud, config.roleArn, config.name);
      if described.Failure? {
        return Fail(Panicked(described.error));
      }
      record := NewClusterSecretFromCluster(config.ns, config.name, config.labels, described.value, config.awsAuthConfigRoleArn);
    } else {
      record := NewClusterSecretFromValues(config.ns, config.name, config.labels, config.endpoint, config.caData, config.awsAuthConfigRoleArn);
    }
    if config.dryRun {
      return Pass;
    }
    r := store.Create(record);
  }

  method Delete(store: SecretStore, config: Config) returns (r: Outcome<Error>)
    requires store.Valid()
    modifies store
    ensures store.Valid()
    ensures config.dryRun ==> r == Pass && store.secrets == old(store.secrets)
    ensures !config.dryRun ==>
      var key := ObjectKey(config.ns, config.name);
      r == DeleteOutcome(old(store.secrets), store.faults, key)
      && store.secrets == if r.Pass? then old(store.secrets) - {key} else old(store.secrets)
  {
    if config.dryRun {
      return Pass;
    }
    r := store.Delete(ObjectKey(config.ns, config.name));
  }
}
