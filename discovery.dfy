/** clusterSecretsFromClusters: list the clusters page by page, describe each
    one, keep those whose tags satisfy the selector and synthesize their
    records.  Modelled as the code is written, including the loop whose
    initialiser resets the cursor, so that only the first page is read. */
module Discovery {
  import opened Common
  import opened Eks
  import opened ClusterSecrets

  /** The tag test of the describe loop: every selector tag must be present
      on the cluster with exactly the selector's value. */
  method TagsMatch(selector: map<string, string>, tags: map<string, string>) returns (all: bool)
    ensures all <==> Selects(selector, tags)
  {
    all := true;
    var pending := selector.Keys;
    while pending != {}
      invariant pending <= selector.Keys
      invariant all <==> forall k | k in selector.Keys - pending :: k in tags && tags[k] == selector[k]
      decreases |pending|
    {
      var k :| k in pending;
      all := all && k in tags && tags[k] == selector[k];
      pending := pending - {k};
    }
  }

  lemma EmptySelectorKeepsEveryCluster(tags: map<string, string>)
    ensures Selects(map[], tags)
  {
  }

  lemma MissingTagExcludesCluster(selector: map<string, string>, tags: map<string, string>, k: string)
    requires k in selector && k !in tags
    ensures !Selects(selector, tags)
  {
  }

  predicate Describable(cloud: Cloud, roleArn: string, name: string)
  {
    DescribeCluster(cloud, roleArn, name).Success?
  }

  /** A cluster is kept when it can be described and its tags satisfy the
      selector. */
  predicate Kept(cloud: Cloud, cfg: ClusterSetConfig, name: string)
  {
    var described := DescribeCluster(cloud, cfg.roleArn, name);
    described.Success? && Selects(cfg.eksTags, described.value.tags)
  }

  /** The record synthesized for a describable cluster. */
  function RecordFor(cloud: Cloud, cfg: ClusterSetConfig, name: string): Secret
    requires Describable(cloud, cfg.roleArn, name)
  {
    NewClusterSecretFromCluster(cfg.ns, name, cfg.labels, DescribeCluster(cloud, cfg.roleArn, name).value, cfg.awsAuthConfigRoleArn)
  }

  /** Reference definitions: the kept names in enumeration order, and their
      records. */
  function KeptNames(cloud: Cloud, cfg: ClusterSetConfig, names: seq<string>): (r: seq<string>)
    ensures |r| <= |names|
    ensures forall n :: n in r <==> n in names && Kept(cloud, cfg, n)
  {
    if names == [] then []
    else (if Kept(cloud, cfg, names[0]) then [names[0]] else []) + KeptNames(cloud, cfg, names[1..])
  }

  function RecordsFor(cloud: Cloud, cfg: ClusterSetConfig, names: seq<string>): (r: seq<Secret>)
    requires forall n | n in names :: Describable(cloud, cfg.roleArn, n)
    ensures |r| == |names|
    ensures forall i | 0 <= i < |names| :: r[i] == RecordFor(cloud, cfg, names[i]) && r[i].name == names[i]
  {
    if names == [] then [] else [RecordFor(cloud, cfg, names[0])] + RecordsFor(cloud, cfg, names[1..])
  }

  /** What the describe loop over one page computes: the records of the kept
      clusters in order, or the error of the first describe that fails. */
  function SecretsForNames(cloud: Cloud, cfg: ClusterSetConfig, names: seq<string>): Result<seq<Secret>, Error>
    decreases |names|
  {
    if names == [] then Success([])
    else
      match SecretsForNames(cloud, cfg, names[..|names| - 1])
      case Failure(e) => Failure(e)
      case Success(found) =>
        var name := names[|names| - 1];
        match DescribeCluster(cloud, cfg.roleArn, name)
        case Failure(e) => Failure(e)
        case Success(cluster) =>
          if Selects(cfg.eksTags, cluster.tags)
          then Success(found + [NewClusterSecretFromCluster(cfg.ns, name, cfg.labels, cluster, cfg.awsAuthConfigRoleArn)])
          else Success(found)
  }

  /** What one call of the process closure computes: list the page the
      cursor designates, run the describe loop over it, append what it kept
      and return the next cursor. */
  function ProcessPage(cloud: Cloud, cfg: ClusterSetConfig, token: Option<nat>, secrets: seq<Secret>)
    : Result<(seq<Secret>, Option<nat>), Error>
  {
    match ListClusters(cloud, cfg.roleArn, token)
    case Failure(e) => Failure(e)
    case Success(page) =>
      match SecretsForNames(cloud, cfg, page.clusters)
      case Failure(e) => Failure(e)
      case Success(found) => Success((secrets + found, page.nextToken))
  }

  /** A measure that every cursor the provider hands out decreases. */
  function CursorRank(cloud: Cloud, roleArn: string, token: Option<nat>): nat
  {
    if token.None? then 0
    else if token.value < PageCount(cloud, roleArn) then PageCount(cloud, roleArn) - token.value + 1
    else 1
  }

  lemma CursorAdvances(cloud: Cloud, cfg: ClusterSetConfig, token: Option<nat>, secrets: seq<Secret>)
    requires token.Some?
    requires ProcessPage(cloud, cfg, token, secrets).Success?
    ensures CursorRank(cloud, cfg.roleArn, ProcessPage(cloud, cfg, token, secrets).value.1)
          < CursorRank(cloud, cfg.roleArn, token)
  {
  }

  /** What the continuation loop computes from a given cursor: process pages
      until the provider returns no cursor, stopping at the first error. */
  function ContinueFrom(cloud: Cloud, cfg: ClusterSetConfig, token: Option<nat>, secrets: seq<Secret>)
    : Result<seq<Secret>, Error>
    decreases CursorRank(cloud, cfg.roleArn, token)
  {
    if token.None? then Success(secrets)
    else
      match ProcessPage(cloud, cfg, token, secrets)
      case Failure(e) => Failure(e)
      case Success(next) =>
        CursorAdvances(cloud, cfg, token, secrets);
        ContinueFrom(cloud, cfg, next.1, next.0)
  }

  /** clusterSecretsFromClusters as written: the first page is processed,
      then the continuation loop starts from a cursor reset to nil. */
  function Discover(cloud: Cloud, cfg: ClusterSetConfig): Result<seq<Secret>, Error>
  {
    match ProcessPage(cloud, cfg, None, [])
    case Failure(e) => Failure(e)
    case Success(first) => ContinueFrom(cloud, cfg, None, first.0)
  }

  lemma {:induction false} FailureSticks(cloud: Cloud, cfg: ClusterSetConfig, names: seq<string>, j: nat)
    requires j <= |names|
    requires SecretsForNames(cloud, cfg, names[..j]).Failure?
    ensures SecretsForNames(cloud, cfg, names) == SecretsForNames(cloud, cfg, names[..j])
    decreases |names| - j
  {
    if j < |names| {
      var longer := names[..j + 1];
      assert longer[..|longer| - 1] == names[..j];
      assert longer[..j] == names[..j];
      FailureSticks(cloud, cfg, names, j + 1);
    } else {
      assert names[..j] == names;
    }
  }

  lemma {:induction false} KeptNamesSnoc(cloud: Cloud, cfg: ClusterSetConfig, names: seq<string>, last: string)
    ensures KeptNames(cloud, cfg, names + [last])
         == KeptNames(cloud, cfg, names) + (if Kept(cloud, cfg, last) then [last] else [])
  {
    if names == [] {
      assert names + [last] == [last];
    } else {
      assert (names + [last])[1..] == names[1..] + [last];
      KeptNamesSnoc(cloud, cfg, names[1..], last);
    }
  }

  lemma RecordsForAppendAt(cloud: Cloud, cfg: ClusterSetConfig, xs: seq<string>, ys: seq<string>, i: nat)
    requires forall n | n in xs + ys :: Describable(cloud, cfg.roleArn, n)
    requires i < |xs| + |ys|
    ensures RecordsFor(cloud, cfg, xs + ys)[i] == (RecordsFor(cloud, cfg, xs) + RecordsFor(cloud, cfg, ys))[i]
  {
    if i < |xs| {
      assert (xs + ys)[i] == xs[i];
    } else {
      assert (xs + ys)[i] == ys[i - |xs|];
    }
  }

  lemma RecordsForAppend(cloud: Cloud, cfg: ClusterSetConfig, xs: seq<string>, ys: seq<string>)
    requires forall n | n in xs + ys :: Describable(cloud, cfg.roleArn, n)
    ensures RecordsFor(cloud, cfg, xs + ys) == RecordsFor(cloud, cfg, xs) + RecordsFor(cloud, cfg, ys)
  {
    var whole, parts := RecordsFor(cloud, cfg, xs + ys), RecordsFor(cloud, cfg, xs) + RecordsFor(cloud, cfg, ys);
    forall i | 0 <= i < |whole|
      ensures whole[i] == parts[i]
    {
      RecordsForAppendAt(cloud, cfg, xs, ys, i);
    }
  }

  /** The describe loop over a page succeeds iff every listed cluster can be
      described... */
  lemma {:induction false} SecretsForNamesSucceeds(cloud: Cloud, cfg: ClusterSetConfig, names: seq<string>)
    ensures SecretsForNames(cloud, cfg, names).Success?
        <==> forall n | n in names :: Describable(cloud, cfg.roleArn, n)
    decreases |names|
  {
    if names != [] {
      var prefix, last := names[..|names| - 1], names[|names| - 1];
      assert forall n :: n in names <==> n in prefix || n == last;
      SecretsForNamesSucceeds(cloud, cfg, prefix);
      if SecretsForNames(cloud, cfg, prefix).Success? {
        assert SecretsForNames(cloud, cfg, names).Success? <==> Describable(cloud, cfg.roleArn, last);
      } else {
        assert SecretsForNames(cloud, cfg, names).Failure?;
      }
    }
  }

  /** One more name through the describe loop. */
  lemma SecretsForNamesLast(cloud: Cloud, cfg: ClusterSetConfig, names: seq<string>)
    requires names != [] && SecretsForNames(cloud, cfg, names[..|names| - 1]).Success?
    requires Describable(cloud, cfg.roleArn, names[|names| - 1])
    ensures var last := names[|names| - 1];
      SecretsForNames(cloud, cfg, names)
      == Success(SecretsForNames(cloud, cfg, names[..|names| - 1]).value
                 + (if Kept(cloud, cfg, last) then [RecordFor(cloud, cfg, last)] else []))
  {
    var last := names[|names| - 1];
    var found := SecretsForNames(cloud, cfg, names[..|names| - 1]).value;
    var cluster := DescribeCluster(cloud, cfg.roleArn, last).value;
    var record := NewClusterSecretFromCluster(cfg.ns, last, cfg.labels, cluster, cfg.awsAuthConfigRoleArn);
    assert RecordFor(cloud, cfg, last) == record;
    assert Kept(cloud, cfg, last) == Selects(cfg.eksTags, cluster.tags);
    assert SecretsForNames(cloud, cfg, names)
        == if Selects(cfg.eksTags, cluster.tags) then Success(found + [record]) else Success(found);
    assert found + [] == found;
  }

  /** ... and then returns one record per kept cluster, named after it, in
      enumeration order. */
  lemma {:induction false} SecretsForNamesValue(cloud: Cloud, cfg: ClusterSetConfig, names: seq<string>)
    requires SecretsForNames(cloud, cfg, names).Success?
    requires forall n | n in names :: Describable(cloud, cfg.roleArn, n)
    ensures SecretsForNames(cloud, cfg, names).value == RecordsFor(cloud, cfg, KeptNames(cloud, cfg, names))
    decreases |names|
  {
    if names != [] {
      var prefix, last := names[..|names| - 1], names[|names| - 1];
      assert names == prefix + [last];
      var found := SecretsForNames(cloud, cfg, prefix).value;
      SecretsForNamesValue(cloud, cfg, prefix);
      var tail := if Kept(cloud, cfg, last) then [last] else [];
      SecretsForNamesLast(cloud, cfg, names);
      assert RecordsFor(cloud, cfg, tail) == if Kept(cloud, cfg, last) then [RecordFor(cloud, cfg, last)] else [];
      KeptNamesSnoc(cloud, cfg, prefix, last);
      RecordsForAppend(cloud, cfg, KeptNames(cloud, cfg, prefix), tail);
    }
  }

  /** As written, discovery succeeds iff the first page can be listed and
      each of its clusters described, and returns the records of the kept
      clusters of that page only: no later page is ever requested. */
  lemma DiscoveryReadsOnlyTheFirstPage(cloud: Cloud, cfg: ClusterSetConfig)
    ensures var first := ListClusters(cloud, cfg.roleArn, None);
      Discover(cloud, cfg).Success?
      <==> (first.Success? && forall n | n in first.value.clusters :: Describable(cloud, cfg.roleArn, n))
    ensures var first := ListClusters(cloud, cfg.roleArn, None);
      Discover(cloud, cfg).Success? ==>
        first.Success?
        && Discover(cloud, cfg).value == RecordsFor(cloud, cfg, KeptNames(cloud, cfg, first.value.clusters))
        && forall s | s in Discover(cloud, cfg).value :: s.name in first.value.clusters
  {
    var first := ListClusters(cloud, cfg.roleArn, None);
    if first.Success? {
      SecretsForNamesSucceeds(cloud, cfg, first.value.clusters);
      if SecretsForNames(cloud, cfg, first.value.clusters).Success? {
        SecretsForNamesValue(cloud, cfg, first.value.clusters);
      }
    }
  }

  /** A cluster that only a later page lists is never discovered, although
      the first page hands out the cursor to the next one and the cluster
      passes the filter. */
  lemma LaterPagesAreIgnored(cloud: Cloud, cfg: ClusterSetConfig, name: string)
    requires cfg.roleArn in cloud.accounts
    requires |cloud.accounts[cfg.roleArn].pages| >= 2 && 0 !in cloud.accounts[cfg.roleArn].listFaults
    requires name in cloud.accounts[cfg.roleArn].pages[1] && name !in cloud.accounts[cfg.roleArn].pages[0]
    requires Kept(cloud, cfg, name)
    ensures ListClusters(cloud, cfg.roleArn, None).Success?
    ensures ListClusters(cloud, cfg.roleArn, None).value.nextToken == Some(1)
    ensures Discover(cloud, cfg).Success? ==> forall s | s in Discover(cloud, cfg).value :: s.name != name
  {
    DiscoveryReadsOnlyTheFirstPage(cloud, cfg);
  }

  lemma AppendAssociative<T>(a: seq<T>, b: seq<T>, c: seq<T>)
    ensures (a + b) + c == a + (b + c)
  {
  }

  function Flatten(pages: seq<seq<string>>): seq<string>
  {
    if pages == [] then [] else pages[0] + Flatten(pages[1..])
  }

  lemma {:induction false} KeptNamesAppend(cloud: Cloud, cfg: ClusterSetConfig, xs: seq<string>, ys: seq<string>)
    ensures KeptNames(cloud, cfg, xs + ys) == KeptNames(cloud, cfg, xs) + KeptNames(cloud, cfg, ys)
  {
    if xs == [] {
      assert xs + ys == ys;
    } else {
      assert (xs + ys)[1..] == xs[1..] + ys;
      KeptNamesAppend(cloud, cfg, xs[1..], ys);
    }
  }

  /** One call of process on the cursor of a page that lists and whose
      clusters all describe. */
  lemma ProcessFullPage(cloud: Cloud, cfg: ClusterSetConfig, i: nat, secrets: seq<Secret>)
    requires cfg.roleArn in cloud.accounts
    requires i < |cloud.accounts[cfg.roleArn].pages| && i !in cloud.accounts[cfg.roleArn].listFaults
    requires forall n | n in cloud.accounts[cfg.roleArn].pages[i] :: Describable(cloud, cfg.roleArn, n)
    ensures var pages := cloud.accounts[cfg.roleArn].pages;
      ProcessPage(cloud, cfg, Some(i), secrets)
      == Success((secrets + RecordsFor(cloud, cfg, KeptNames(cloud, cfg, pages[i])),
                  if i + 1 < |pages| then Some(i + 1) else None))
  {
    var pages := cloud.accounts[cfg.roleArn].pages;
    var names := pages[i];
    assert ListClusters(cloud, cfg.roleArn, Some(i)) == Success(ListPage(names, if i + 1 < |pages| then Some(i + 1) else None));
    SecretsForNamesSucceeds(cloud, cfg, names);
    SecretsForNamesValue(cloud, cfg, names);
  }

  lemma ContinueStep(cloud: Cloud, cfg: ClusterSetConfig, token: Option<nat>, secrets: seq<Secret>)
    requires token.Some? && ProcessPage(cloud, cfg, token, secrets).Success?
    ensures var next := ProcessPage(cloud, cfg, token, secrets).value;
      ContinueFrom(cloud, cfg, token, secrets) == ContinueFrom(cloud, cfg, next.1, next.0)
  {
  }

  /** The continuation loop itself follows every cursor: entered with the
      cursor of page i, it appends the records of the kept clusters of page i
      and of every later page, in order.  Only the reset in its initialiser
      keeps it from running. */
  lemma {:induction false} ContinuationFollowsEveryPage(cloud: Cloud, cfg: ClusterSetConfig, i: nat, secrets: seq<Secret>)
    requires cfg.roleArn in cloud.accounts
    requires i < |cloud.accounts[cfg.roleArn].pages|
    requires forall j | i <= j < |cloud.accounts[cfg.roleArn].pages| :: j !in cloud.accounts[cfg.roleArn].listFaults
    requires forall n | n in Flatten(cloud.accounts[cfg.roleArn].pages[i..]) :: Describable(cloud, cfg.roleArn, n)
    ensures ContinueFrom(cloud, cfg, Some(i), secrets)
         == Success(secrets + RecordsFor(cloud, cfg, KeptNames(cloud, cfg, Flatten(cloud.accounts[cfg.roleArn].pages[i..]))))
    decreases |cloud.accounts[cfg.roleArn].pages| - i
  {
    var pages := cloud.accounts[cfg.roleArn].pages;
    var page, rest := pages[i], Flatten(pages[i + 1..]);
    assert Flatten(pages[i..]) == page + rest by {
      assert pages[i..][1..] == pages[i + 1..];
    }
    var found := RecordsFor(cloud, cfg, KeptNames(cloud, cfg, page));
    var later := RecordsFor(cloud, cfg, KeptNames(cloud, cfg, rest));
    assert RecordsFor(cloud, cfg, KeptNames(cloud, cfg, page + rest)) == found + later by {
      KeptNamesAppend(cloud, cfg, page, rest);
      RecordsForAppend(cloud, cfg, KeptNames(cloud, cfg, page), KeptNames(cloud, cfg, rest));
    }
    var next := if i + 1 < |pages| then Some(i + 1) else None;
    assert ContinueFrom(cloud, cfg, Some(i), secrets) == ContinueFrom(cloud, cfg, next, secrets + found) by {
      ProcessFullPage(cloud, cfg, i, secrets);
      ContinueStep(cloud, cfg, Some(i), secrets);
    }
    if i + 1 < |pages| {
      forall n | n in rest
        ensures Describable(cloud, cfg.roleArn, n)
      {
        assert n in page + rest;
      }
      ContinuationFollowsEveryPage(cloud, cfg, i + 1, secrets + found);
      assert next == Some(i + 1);
      assert ContinueFrom(cloud, cfg, next, secrets + found) == Success((secrets + found) + later);
      AppendAssociative(secrets, found, later);
    } else {
      assert rest == [] by {
        assert pages[i + 1..] == [];
      }
      assert found + later == found;
    }
  }

  /** The describe loop over one page of clusters. */
  method Process(cloud: Cloud, cfg: ClusterSetConfig, nextToken: Option<nat>, secrets: seq<Secret>)
    returns (r: Result<(seq<Secret>, Option<nat>), Error>)
    ensures r == ProcessPage(cloud, cfg, nextToken, secrets)
  {
    var listed := ListClusters(cloud, cfg.roleArn, nextToken);
    if listed.Failure? {
      return Failure(listed.error);
    }
    var names := listed.value.clusters;
    var found: seq<Secret> := [];
    var i := 0;
    while i < |names|
      invariant 0 <= i <= |names|
      invariant SecretsForNames(cloud, cfg, names[..i]) == Success(found)
    {
      var described := DescribeCluster(cloud, cfg.roleArn, names[i]);
      assert names[..i + 1][..i] == names[..i];
      if described.Failure? {
        FailureSticks(cloud, cfg, names, i + 1);
        return Failure(described.error);
      }
      var all := TagsMatch(cfg.eksTags, described.value.tags);
      if all {
        found := found + [NewClusterSecretFromCluster(cfg.ns, names[i], cfg.labels, described.value, cfg.awsAuthConfigRoleArn)];
      }
      i := i + 1;
    }
    assert names[..i] == names;
    return Success((secrets + found, listed.value.nextToken));
  }

  /** The loop that follows the cursor from page to page. */
  method ContinuePaging(cloud: Cloud, cfg: ClusterSetConfig, nextToken: Option<nat>, secrets: seq<Secret>)
    returns (r: Result<seq<Secret>, Error>)
    ensures r == ContinueFrom(cloud, cfg, nextToken, secrets)
  {
    var token, found := nextToken, secrets;
    while token.Some?
      invariant ContinueFrom(cloud, cfg, token, found) == ContinueFrom(cloud, cfg, nextToken, secrets)
      decreases CursorRank(cloud, cfg.roleArn, token)
    {
      var processed := Process(cloud, cfg, token, found);
      if processed.Failure? {
        return Failure(processed.error);
      }
      CursorAdvances(cloud, cfg, token, found);
      found, token := processed.value.0, processed.value.1;
    }
    return Success(found);
  }

  /** clusterSecretsFromClusters. */
  method ClusterSecretsFromClusters(cloud: Cloud, cfg: ClusterSetConfig) returns (r: Result<seq<Secret>, Error>)
    ensures r == Discover(cloud, cfg)
  {
    var first := Process(cloud, cfg, None, []);
    if first.Failure? {
      return Failure(first.error);
    }
    var secrets, nextToken := first.value.0, first.value.1;
    // The loop initialiser sets the cursor back to nil before the loop test,
    // so the continuation never asks for another page.
    nextToken := None;
    r := ContinuePaging(cloud, cfg, nextToken, secrets);
  }
}
